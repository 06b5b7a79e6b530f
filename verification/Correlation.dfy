/** Log lines of one call: those that match, and those that share a channel, bridge or endpoint with one that belongs. */
module LogCorrelation {
  import Strings

  /** A line: the text that is searched, and the tokens found in its raw form, by kind. */
  datatype Entry = Entry(searchable: string, channels: set<string>, bridgeIds: set<string>, pjsipChannels: set<string>)

  predicate MatchesNeedle(e: Entry, needles: seq<string>) {
    exists i :: 0 <= i < |needles| && Strings.Contains(e.searchable, needles[i])
  }

  predicate MentionsOne(e: Entry, tokens: set<string>) {
    exists t :: t in tokens && Strings.Contains(e.searchable, t)
  }

  predicate MatchesContext(e: Entry, channels: set<string>, bridgeIds: set<string>, pjsipChannels: set<string>) {
    MentionsOne(e, channels) || MentionsOne(e, bridgeIds) || MentionsOne(e, pjsipChannels)
  }

  /** The line `e` mentions a token that was collected from `from`. */
  predicate Linked(from: Entry, e: Entry) {
    MatchesContext(e, from.channels, from.bridgeIds, from.pjsipChannels)
  }

  // ----- What belongs to the call

  /** Line `i` is reached from a matching line in at most `n` links. */
  ghost predicate ReachedIn(entries: seq<Entry>, needles: seq<string>, i: int, n: nat)
    decreases n
  {
    && 0 <= i < |entries|
    && (MatchesNeedle(entries[i], needles)
        || (n > 0 && exists j :: 0 <= j < |entries| && ReachedIn(entries, needles, j, n - 1) && Linked(entries[j], entries[i])))
  }

  ghost predicate Reached(entries: seq<Entry>, needles: seq<string>, i: int) {
    exists n: nat :: ReachedIn(entries, needles, i, n)
  }

  ghost function Related(entries: seq<Entry>, needles: seq<string>): set<int> {
    set i | 0 <= i < |entries| && Reached(entries, needles, i)
  }

  /** A set of lines that holds the matching ones and whatever is linked to one it holds. */
  ghost predicate Closed(entries: seq<Entry>, needles: seq<string>, s: set<int>) {
    && (forall i :: 0 <= i < |entries| && MatchesNeedle(entries[i], needles) ==> i in s)
    && (forall i, j :: 0 <= i < |entries| && 0 <= j < |entries| && i in s && Linked(entries[i], entries[j]) ==> j in s)
  }

  lemma {:induction false} ReachedInIsWithin(entries: seq<Entry>, needles: seq<string>, s: set<int>, i: int, n: nat)
    requires Closed(entries, needles, s) && ReachedIn(entries, needles, i, n)
    ensures i in s
    decreases n
  {
    if !MatchesNeedle(entries[i], needles) {
      var j :| 0 <= j < |entries| && ReachedIn(entries, needles, j, n - 1) && Linked(entries[j], entries[i]);
      ReachedInIsWithin(entries, needles, s, j, n - 1);
    }
  }

  lemma LinkReaches(entries: seq<Entry>, needles: seq<string>, i: int, j: int)
    requires Reached(entries, needles, i) && 0 <= j < |entries| && Linked(entries[i], entries[j])
    ensures Reached(entries, needles, j)
  {
    var n: nat :| ReachedIn(entries, needles, i, n);
    assert ReachedIn(entries, needles, j, n + 1);
  }

  /** The related lines are the least closed set. */
  lemma RelatedIsLeast(entries: seq<Entry>, needles: seq<string>)
    ensures Closed(entries, needles, Related(entries, needles))
    ensures forall s :: Closed(entries, needles, s) ==> Related(entries, needles) <= s
  {
    forall i | 0 <= i < |entries| && MatchesNeedle(entries[i], needles) ensures i in Related(entries, needles) {
      assert ReachedIn(entries, needles, i, 0);
    }
    forall i, j | 0 <= i < |entries| && 0 <= j < |entries| && i in Related(entries, needles) && Linked(entries[i], entries[j])
      ensures j in Related(entries, needles)
    {
      LinkReaches(entries, needles, i, j);
    }
    forall s | Closed(entries, needles, s) ensures Related(entries, needles) <= s {
      forall i | i in Related(entries, needles) ensures i in s {
        var n: nat :| ReachedIn(entries, needles, i, n);
        ReachedInIsWithin(entries, needles, s, i, n);
      }
    }
  }

  /** A closed set all of whose lines are reached is the related lines. */
  lemma ReachedAndClosed(entries: seq<Entry>, needles: seq<string>, s: set<int>)
    requires Closed(entries, needles, s) && forall i :: i in s ==> 0 <= i < |entries| && Reached(entries, needles, i)
    ensures s == Related(entries, needles)
  {
    RelatedIsLeast(entries, needles);
  }

  // ----- Order does not matter

  /** `order` lists the lines `entries` in another order, each once. */
  ghost predicate Reorders(entries: seq<Entry>, entries': seq<Entry>, order: seq<int>) {
    && |order| == |entries| == |entries'|
    && (forall k :: 0 <= k < |order| ==> 0 <= order[k] < |entries| && entries'[k] == entries[order[k]])
    && (forall i :: 0 <= i < |entries| ==> i in order)
  }

  lemma {:induction false} ReachedInEither(entries: seq<Entry>, entries': seq<Entry>, needles: seq<string>, order: seq<int>, k: int, n: nat)
    requires Reorders(entries, entries', order) && 0 <= k < |order|
    ensures ReachedIn(entries', needles, k, n) <==> ReachedIn(entries, needles, order[k], n)
    decreases n
  {
    if n > 0 && !MatchesNeedle(entries'[k], needles) {
      if ReachedIn(entries', needles, k, n) {
        var j :| 0 <= j < |entries'| && ReachedIn(entries', needles, j, n - 1) && Linked(entries'[j], entries'[k]);
        ReachedInEither(entries, entries', needles, order, j, n - 1);
      }
      if ReachedIn(entries, needles, order[k], n) {
        var j :| 0 <= j < |entries| && ReachedIn(entries, needles, j, n - 1) && Linked(entries[j], entries[order[k]]);
        assert j in order;
        var m :| 0 <= m < |order| && order[m] == j;
        ReachedInEither(entries, entries', needles, order, m, n - 1);
      }
    }
  }

  /** Whatever order the lines come in, the same lines are related. */
  lemma OrderDoesNotMatter(entries: seq<Entry>, entries': seq<Entry>, needles: seq<string>, order: seq<int>)
    requires Reorders(entries, entries', order)
    ensures forall k :: 0 <= k < |order| ==> (k in Related(entries', needles) <==> order[k] in Related(entries, needles))
  {
    forall k | 0 <= k < |order| ensures k in Related(entries', needles) <==> order[k] in Related(entries, needles) {
      if k in Related(entries', needles) {
        var n: nat :| ReachedIn(entries', needles, k, n);
        ReachedInEither(entries, entries', needles, order, k, n);
      }
      if order[k] in Related(entries, needles) {
        var n: nat :| ReachedIn(entries, needles, order[k], n);
        ReachedInEither(entries, entries', needles, order, k, n);
      }
    }
  }

  // ----- The loop

  /** The lines of the set, in their original order. */
  function Select(entries: seq<Entry>, s: set<int>, n: nat): seq<Entry>
    requires n <= |entries|
  {
    if n == 0 then [] else Select(entries, s, n - 1) + if n - 1 in s then [entries[n - 1]] else []
  }

  /** The lines of the set below `n`, lowest first. */
  function Ascending(s: set<int>, n: nat): (r: seq<int>)
    ensures forall i :: i in r <==> 0 <= i < n && i in s
    ensures forall i, j :: 0 <= i < j < |r| ==> r[i] < r[j]
    ensures forall k :: 0 <= k < |r| ==> 0 <= r[k] < n
  {
    if n == 0 then [] else Ascending(s, n - 1) + if n - 1 in s then [n - 1] else []
  }

  /** What is selected are the lines of the set, each once, in their original order. */
  lemma {:induction false} SelectKeepsOrder(entries: seq<Entry>, s: set<int>, n: nat)
    requires n <= |entries|
    ensures var ids := Ascending(s, n);
            |Select(entries, s, n)| == |ids| && forall k :: 0 <= k < |ids| ==> Select(entries, s, n)[k] == entries[ids[k]]
  {
    if n > 0 { SelectKeepsOrder(entries, s, n - 1); }
  }

  /** The three sets hold what was collected from the included lines, and nothing else. */
  ghost predicate Collected(entries: seq<Entry>, included: set<int>, channels: set<string>, bridgeIds: set<string>, pjsipChannels: set<string>) {
    && (forall i :: i in included ==> 0 <= i < |entries|)
    && (forall t :: t in channels <==> exists i :: i in included && t in entries[i].channels)
    && (forall t :: t in bridgeIds <==> exists i :: i in included && t in entries[i].bridgeIds)
    && (forall t :: t in pjsipChannels <==> exists i :: i in included && t in entries[i].pjsipChannels)
  }

  lemma CollectedGrows(entries: seq<Entry>, included: set<int>, channels: set<string>, bridgeIds: set<string>, pjsipChannels: set<string>, k: int)
    requires Collected(entries, included, channels, bridgeIds, pjsipChannels) && 0 <= k < |entries|
    ensures Collected(entries, included + {k}, channels + entries[k].channels, bridgeIds + entries[k].bridgeIds, pjsipChannels + entries[k].pjsipChannels)
  {
  }

  /** To match the collected tokens is to be linked to an included line. */
  lemma ContextIsLinks(entries: seq<Entry>, included: set<int>, channels: set<string>, bridgeIds: set<string>, pjsipChannels: set<string>, k: int)
    requires Collected(entries, included, channels, bridgeIds, pjsipChannels) && 0 <= k < |entries|
    ensures MatchesContext(entries[k], channels, bridgeIds, pjsipChannels) <==> exists i :: i in included && Linked(entries[i], entries[k])
  {
    var e := entries[k];
    if MentionsOne(e, channels) {
      var t :| t in channels && Strings.Contains(e.searchable, t);
      var i :| i in included && t in entries[i].channels;
      assert Linked(entries[i], e);
    } else if MentionsOne(e, bridgeIds) {
      var t :| t in bridgeIds && Strings.Contains(e.searchable, t);
      var i :| i in included && t in entries[i].bridgeIds;
      assert Linked(entries[i], e);
    } else if MentionsOne(e, pjsipChannels) {
      var t :| t in pjsipChannels && Strings.Contains(e.searchable, t);
      var i :| i in included && t in entries[i].pjsipChannels;
      assert Linked(entries[i], e);
    }
  }

  /** Everything included so far is reached, and the tokens are those of what is included. */
  ghost predicate Sound(entries: seq<Entry>, needles: seq<string>, included: set<int>, channels: set<string>, bridgeIds: set<string>, pjsipChannels: set<string>) {
    && Collected(entries, included, channels, bridgeIds, pjsipChannels)
    && (forall i :: i in included ==> Reached(entries, needles, i))
  }

  method Seed(entries: seq<Entry>, needles: seq<string>)
    returns (included: set<int>, channels: set<string>, bridgeIds: set<string>, pjsipChannels: set<string>)
    ensures Sound(entries, needles, included, channels, bridgeIds, pjsipChannels)
    ensures forall i :: 0 <= i < |entries| && MatchesNeedle(entries[i], needles) ==> i in included
  {
    included, channels, bridgeIds, pjsipChannels := {}, {}, {}, {};
    for index := 0 to |entries|
      invariant Sound(entries, needles, included, channels, bridgeIds, pjsipChannels)
      invariant forall i :: 0 <= i < index && MatchesNeedle(entries[i], needles) ==> i in included
    {
      if MatchesNeedle(entries[index], needles) {
        assert ReachedIn(entries, needles, index, 0);
        CollectedGrows(entries, included, channels, bridgeIds, pjsipChannels, index);
        included := included + {index};
        channels := channels + entries[index].channels;
        bridgeIds := bridgeIds + entries[index].bridgeIds;
        pjsipChannels := pjsipChannels + entries[index].pjsipChannels;
      }
    }
  }

  /** One pass over the lines; tokens collected on the way count at once. */
  method Pass(entries: seq<Entry>, needles: seq<string>, included0: set<int>, channels0: set<string>, bridgeIds0: set<string>, pjsipChannels0: set<string>)
    returns (included: set<int>, channels: set<string>, bridgeIds: set<string>, pjsipChannels: set<string>, changed: bool)
    requires Sound(entries, needles, included0, channels0, bridgeIds0, pjsipChannels0)
    ensures Sound(entries, needles, included, channels, bridgeIds, pjsipChannels)
    ensures included0 <= included
    ensures changed <==> included != included0
    ensures !changed ==> forall i, j :: i in included && 0 <= j < |entries| && Linked(entries[i], entries[j]) ==> j in included
  {
    included, channels, bridgeIds, pjsipChannels := included0, channels0, bridgeIds0, pjsipChannels0;
    changed := false;
    for index := 0 to |entries|
      invariant Sound(entries, needles, included, channels, bridgeIds, pjsipChannels) && included0 <= included
      invariant changed <==> included != included0
      invariant !changed ==> forall i, j :: i in included && 0 <= j < index && Linked(entries[i], entries[j]) ==> j in included
    {
      if index !in included {
        ContextIsLinks(entries, included, channels, bridgeIds, pjsipChannels, index);
        if MatchesContext(entries[index], channels, bridgeIds, pjsipChannels) {
          ghost var i :| i in included && Linked(entries[i], entries[index]);
          LinkReaches(entries, needles, i, index);
          CollectedGrows(entries, included, channels, bridgeIds, pjsipChannels, index);
          included := included + {index};
          channels := channels + entries[index].channels;
          bridgeIds := bridgeIds + entries[index].bridgeIds;
          pjsipChannels := pjsipChannels + entries[index].pjsipChannels;
          changed := true;
        }
      }
    }
  }

  function Indices(n: nat): (r: set<int>)
    ensures |r| == n && forall i :: i in r <==> 0 <= i < n
  {
    if n == 0 then {} else Indices(n - 1) + {n - 1}
  }

  lemma WithinIndices(s: set<int>, n: nat)
    requires forall i :: i in s ==> 0 <= i < n
    ensures |s| <= n
  {
    assert forall i :: i in s ==> i in Indices(n);
    SubsetSize(s, Indices(n));
  }

  lemma {:induction false} SubsetSize(s: set<int>, t: set<int>)
    requires s <= t
    ensures |s| <= |t|
    ensures s != t ==> |s| < |t|
  {
    assert t == s + (t - s);
    if s != t { assert t - s != {}; }
  }

  lemma {:induction false} SelectNone(entries: seq<Entry>, n: nat)
    requires n <= |entries|
    ensures Select(entries, {}, n) == []
  {
    if n > 0 { SelectNone(entries, n - 1); }
  }

  /** The nested loop ends, with exactly the related lines. */
  method Saturate(entries: seq<Entry>, needles: seq<string>, included0: set<int>, channels0: set<string>, bridgeIds0: set<string>, pjsipChannels0: set<string>)
    returns (included: set<int>)
    requires Sound(entries, needles, included0, channels0, bridgeIds0, pjsipChannels0)
    requires forall i :: 0 <= i < |entries| && MatchesNeedle(entries[i], needles) ==> i in included0
    ensures included == Related(entries, needles)
  {
    var channels, bridgeIds, pjsipChannels := channels0, bridgeIds0, pjsipChannels0;
    included := included0;
    WithinIndices(included, |entries|);
    var changed := true;
    while changed
      invariant Sound(entries, needles, included, channels, bridgeIds, pjsipChannels) && |included| <= |entries|
      invariant included0 <= included
      invariant !changed ==> Closed(entries, needles, included)
      decreases |entries| - |included|, if changed then 1 else 0
    {
      ghost var was := included;
      included, channels, bridgeIds, pjsipChannels, changed := Pass(entries, needles, included, channels, bridgeIds, pjsipChannels);
      WithinIndices(included, |entries|);
      SubsetSize(was, included);
    }
    ReachedAndClosed(entries, needles, included);
  }

  /** The related lines, in their original order. */
  method FilterByCallContextWithCorrelation(entries: seq<Entry>, needles: seq<string>) returns (result: seq<Entry>)
    ensures result == Select(entries, Related(entries, needles), |entries|)
  {
    var included, channels, bridgeIds, pjsipChannels := Seed(entries, needles);
    if included == {} {
      ReachedAndClosed(entries, needles, included);
      SelectNone(entries, |entries|);
      return [];
    }
    included := Saturate(entries, needles, included, channels, bridgeIds, pjsipChannels);
    result := [];
    for index := 0 to |entries|
      invariant result == Select(entries, included, index)
    {
      if index in included { result := result + [entries[index]]; }
    }
  }
}
