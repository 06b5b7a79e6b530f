/** Flows linked by `parentFlowId`, on any parent graph, cyclic or not. */
module FlowForest {
  import opened Wrappers

  datatype Flow = Flow(name: string, parent: Option<int>, current: Option<int>)

  type Flows = map<int, Flow>

  datatype Error = NotFound | Circular | Rejected

  // ----- Ancestors and descendants

  /** The flow `n` parent links above `x`, if the chain gets that far within the table. */
  ghost function Ancestor(flows: Flows, x: int, n: nat): (r: Option<int>)
    ensures r.Some? ==> r.value in flows
    decreases n
  {
    if x !in flows then None
    else if n == 0 then Some(x)
    else match flows[x].parent
      case Some(p) => Ancestor(flows, p, n - 1)
      case None => None
  }

  ghost predicate Descends(flows: Flows, root: int, x: int) {
    exists n: nat :: Ancestor(flows, x, n) == Some(root)
  }

  predicate IsRoot(flows: Flows, r: int) {
    r in flows && flows[r].parent == None
  }

  lemma {:induction false} AncestorAdds(flows: Flows, x: int, m: nat, n: nat)
    requires Ancestor(flows, x, m).Some?
    ensures Ancestor(flows, x, m + n) == Ancestor(flows, Ancestor(flows, x, m).value, n)
    decreases m
  {
    if m > 0 { AncestorAdds(flows, flows[x].parent.value, m - 1, n); }
  }

  lemma {:induction false} AncestorDefinedBelow(flows: Flows, x: int, m: nat, n: nat)
    requires m <= n && Ancestor(flows, x, n).Some?
    ensures Ancestor(flows, x, m).Some?
    decreases n
  {
    if m > 0 { AncestorDefinedBelow(flows, flows[x].parent.value, m - 1, n - 1); }
  }

  lemma ChildDescends(flows: Flows, root: int, x: int, child: int)
    requires Descends(flows, root, x)
    requires child in flows && flows[child].parent == Some(x)
    ensures Descends(flows, root, child)
  {
    var n: nat :| Ancestor(flows, x, n) == Some(root);
    assert Ancestor(flows, child, n + 1) == Some(root);
  }

  /** A set of flows that holds `root` and every child of its members holds all descendants of `root`. */
  lemma {:induction false} ClosedHoldsDescendants(flows: Flows, root: int, closed: set<int>, x: int, n: nat)
    requires root in closed
    requires forall c :: c in flows && flows[c].parent.Some? && flows[c].parent.value in closed ==> c in closed
    requires Ancestor(flows, x, n) == Some(root)
    ensures x in closed
    decreases n
  {
    if n > 0 { ClosedHoldsDescendants(flows, root, closed, flows[x].parent.value, n - 1); }
  }

  /** A flow descends from at most one flow without a parent. */
  lemma {:induction false} RootIsUnique(flows: Flows, x: int, r: int, s: int)
    requires IsRoot(flows, r) && IsRoot(flows, s)
    requires Descends(flows, r, x) && Descends(flows, s, x)
    ensures r == s
  {
    var m: nat :| Ancestor(flows, x, m) == Some(r);
    var n: nat :| Ancestor(flows, x, n) == Some(s);
    if m < n {
      AncestorAdds(flows, x, m, n - m);
    } else {
      AncestorAdds(flows, x, n, m - n);
    }
  }

  // ----- The root of a flow

  /** Where the walk up the parent links ends. */
  function RootOf(flows: Flows, x: int, seen: set<int>): (r: Result<int, Error>)
    ensures r.Ok? ==> IsRoot(flows, r.value)
    decreases flows.Keys - seen
  {
    if x in seen then Err(Circular)
    else if x !in flows then Err(NotFound)
    else if flows[x].parent == None then Ok(x)
    else RootOf(flows, flows[x].parent.value, seen + {x})
  }

  ghost predicate Endless(flows: Flows, x: int) {
    forall n: nat :: Ancestor(flows, x, n).Some?
  }

  /** The chain above `x` reaches an id that has no flow. */
  ghost predicate Dangles(flows: Flows, x: int) {
    || x !in flows
    || exists n: nat, y :: Ancestor(flows, x, n) == Some(y) && flows[y].parent.Some? && flows[y].parent.value !in flows
  }

  /** A chain that comes back to where it was never ends. */
  lemma {:induction false} LoopIsEndless(flows: Flows, x: int, k: nat, n: nat)
    requires k > 0 && Ancestor(flows, x, k) == Some(x)
    ensures Ancestor(flows, x, n).Some?
    decreases n
  {
    if n <= k {
      AncestorDefinedBelow(flows, x, n, k);
    } else {
      LoopIsEndless(flows, x, k, n - k);
      AncestorAdds(flows, x, k, n - k);
    }
  }

  ghost predicate Passed(flows: Flows, start: int, n: nat, y: int) {
    exists i: nat :: i < n && Ancestor(flows, start, i) == Some(y)
  }

  /** The walk's three outcomes are exactly: a root above, a missing flow above, a chain without end. */
  lemma {:induction false} RootOfWalks(flows: Flows, x: int, seen: set<int>, start: int, n: nat)
    requires x in flows ==> Ancestor(flows, start, n) == Some(x)
    requires x !in flows && n > 0 ==>
               && Ancestor(flows, start, n - 1).Some?
               && flows[Ancestor(flows, start, n - 1).value].parent == Some(x)
    requires n == 0 ==> x == start
    requires forall y :: y in seen ==> Passed(flows, start, n, y)
    ensures match RootOf(flows, x, seen)
            case Ok(r) => Descends(flows, r, start)
            case Err(Circular) => Endless(flows, start)
            case Err(NotFound) => Dangles(flows, start)
            case Err(Rejected) => false
    decreases flows.Keys - seen
  {
    if x in seen {
      var i: nat :| i < n && Ancestor(flows, start, i) == Some(x);
      forall m: nat ensures Ancestor(flows, start, m).Some? {
        if m <= i {
          AncestorDefinedBelow(flows, start, m, i);
        } else {
          AncestorAdds(flows, start, i, n - i);
          LoopIsEndless(flows, x, n - i, m - i);
          AncestorAdds(flows, start, i, m - i);
        }
      }
    } else if x !in flows {
      if n > 0 {
        var y := Ancestor(flows, start, n - 1).value;
        assert Ancestor(flows, start, n - 1) == Some(y);
      }
    } else if flows[x].parent != None {
      var p := flows[x].parent.value;
      AncestorAdds(flows, start, n, 1);
      assert p in flows ==> Ancestor(flows, x, 1) == Some(p) by {
        if p in flows { assert Ancestor(flows, p, 0) == Some(p); }
      }
      forall y | y in seen + {x} ensures Passed(flows, start, n + 1, y) {
        if y == x {
          assert n < n + 1 && Ancestor(flows, start, n) == Some(y);
        } else {
          var i: nat :| i < n && Ancestor(flows, start, i) == Some(y);
          assert i < n + 1;
        }
      }
      RootOfWalks(flows, p, seen + {x}, start, n + 1);
    }
  }

  /** Only one of the outcomes is possible, so each is an if-and-only-if. */
  lemma RootOfDecides(flows: Flows, x: int)
    ensures RootOf(flows, x, {}).Ok? <==> exists r :: IsRoot(flows, r) && Descends(flows, r, x)
    ensures RootOf(flows, x, {}).Ok? ==> Descends(flows, RootOf(flows, x, {}).value, x)
    ensures RootOf(flows, x, {}) == Err(Circular) <==> Endless(flows, x)
    ensures RootOf(flows, x, {}) == Err(NotFound) <==> Dangles(flows, x)
  {
    RootOfWalks(flows, x, {}, x, 0);
    if r :| IsRoot(flows, r) && Descends(flows, r, x) {
      RootEndsChain(flows, x, r);
    }
    if Dangles(flows, x) { DanglingEnds(flows, x); }
  }

  lemma RootEndsChain(flows: Flows, x: int, r: int)
    requires IsRoot(flows, r) && Descends(flows, r, x)
    ensures !Endless(flows, x) && !Dangles(flows, x)
  {
    var n: nat :| Ancestor(flows, x, n) == Some(r);
    AncestorAdds(flows, x, n, 1);
    assert Ancestor(flows, x, n + 1) == None;
    if Dangles(flows, x) {
      var m: nat, y :| Ancestor(flows, x, m) == Some(y) && flows[y].parent.Some? && flows[y].parent.value !in flows;
      if m < n {
        AncestorAdds(flows, x, m, n - m);
      } else {
        AncestorAdds(flows, x, n, m - n);
      }
    }
  }

  lemma DanglingEnds(flows: Flows, x: int)
    requires Dangles(flows, x)
    ensures !Endless(flows, x)
  {
    if x in flows {
      var m: nat, y :| Ancestor(flows, x, m) == Some(y) && flows[y].parent.Some? && flows[y].parent.value !in flows;
      AncestorAdds(flows, x, m, 1);
      assert Ancestor(flows, x, m + 1) == None;
    } else {
      assert Ancestor(flows, x, 0) == None;
    }
  }

  lemma {:induction false} SameParentsSameRoot(flows: Flows, flows': Flows, x: int, seen: set<int>)
    requires flows.Keys == flows'.Keys && forall y :: y in flows ==> flows[y].parent == flows'[y].parent
    ensures RootOf(flows, x, seen) == RootOf(flows', x, seen)
    decreases flows.Keys - seen
  {
    if x !in seen && x in flows && flows[x].parent.Some? {
      SameParentsSameRoot(flows, flows', flows[x].parent.value, seen + {x});
    }
  }

  /** The loop of `getRootFlowId`; it ends on every parent graph. */
  method GetRootFlowId(flows: Flows, flowId: int) returns (r: Result<int, Error>)
    ensures r == RootOf(flows, flowId, {})
    ensures r.Ok? <==> exists root :: IsRoot(flows, root) && Descends(flows, root, flowId)
    ensures r.Ok? ==> IsRoot(flows, r.value) && Descends(flows, r.value, flowId)
    ensures r == Err(Circular) <==> Endless(flows, flowId)
    ensures r == Err(NotFound) <==> Dangles(flows, flowId)
  {
    RootOfDecides(flows, flowId);
    var current, seen := flowId, {};
    while true
      invariant RootOf(flows, flowId, {}) == RootOf(flows, current, seen)
      decreases flows.Keys - seen
    {
      if current in seen {
        return Err(Circular);
      }
      if current !in flows {
        return Err(NotFound);
      }
      seen := seen + {current};
      match flows[current].parent {
        case None => return Ok(current);
        case Some(p) => current := p;
      }
    }
  }

  // ----- Children in id order

  lemma {:induction false} MinimumExists(s: set<int>)
    requires s != {}
    ensures exists m :: m in s && forall x :: x in s ==> m <= x
  {
    assert exists m :: m in s by {
      if forall m :: m !in s { assert false; }
    }
    var m :| m in s;
    var rest := s - {m};
    if rest == {} {
      assert s == {m};
    } else {
      MinimumExists(rest);
      var m' :| m' in rest && forall x :: x in rest ==> m' <= x;
      var least := if m < m' then m else m';
      assert least in s;
      forall x | x in s ensures least <= x {
        assert x == m || x in rest;
      }
    }
  }

  lemma InFront(m: int, rest: seq<int>)
    requires forall x :: x in rest ==> m < x
    requires forall i, j :: 0 <= i < j < |rest| ==> rest[i] < rest[j]
    ensures forall x :: x in [m] + rest <==> x == m || x in rest
    ensures forall i, j :: 0 <= i < j < |[m] + rest| ==> ([m] + rest)[i] < ([m] + rest)[j]
  {
    forall i, j | 0 <= i < j < |[m] + rest| ensures ([m] + rest)[i] < ([m] + rest)[j] {
      assert ([m] + rest)[j] == rest[j - 1] && rest[j - 1] in rest;
      if i > 0 { assert ([m] + rest)[i] == rest[i - 1]; }
    }
  }

  function SortedIds(s: set<int>): (r: seq<int>)
    ensures forall x :: x in r <==> x in s
    ensures forall i, j :: 0 <= i < j < |r| ==> r[i] < r[j]
  {
    if s == {} then []
    else
      MinimumExists(s);
      var m :| m in s && forall x :: x in s ==> m <= x;
      var rest := SortedIds(s - {m});
      assert s == {m} + (s - {m});
      InFront(m, rest);
      [m] + rest
  }

  function ChildIds(flows: Flows, parent: int): (r: seq<int>)
    ensures forall c :: c in r <==> c in flows && flows[c].parent == Some(parent)
    ensures forall i, j :: 0 <= i < j < |r| ==> r[i] < r[j]
  {
    SortedIds(set c | c in flows && flows[c].parent == Some(parent))
  }

  // ----- The subtree collected for deletion

  predicate Earlier(s: seq<int>, x: int, i: nat)
    requires i <= |s|
  {
    exists k :: 0 <= k < i && s[k] == x
  }

  ghost predicate ParentListed(flows: Flows, root: int, s: seq<int>, i: nat)
    requires i < |s|
  {
    s[i] != root ==> s[i] in flows && flows[s[i]].parent.Some? && Earlier(s, flows[s[i]].parent.value, i)
  }

  ghost predicate ParentsFirst(flows: Flows, root: int, s: seq<int>) {
    forall i :: 0 <= i < |s| ==> ParentListed(flows, root, s, i)
  }

  predicate IsChild(flows: Flows, c: int, p: int) {
    c in flows && flows[c].parent == Some(p)
  }

  ghost predicate ChildrenFirst(flows: Flows, root: int, s: seq<int>) {
    forall i, j :: 0 <= i < |s| && 0 <= j < |s| && s[i] != root && IsChild(flows, s[i], s[j]) ==> i < j
  }

  ghost predicate Once(s: seq<int>) {
    forall i, j :: 0 <= i < j < |s| ==> s[i] != s[j]
  }

  function Reversed(s: seq<int>): (r: seq<int>)
    ensures |r| == |s|
  {
    seq(|s|, i requires 0 <= i < |s| => s[|s| - 1 - i])
  }

  lemma ReversedAt(s: seq<int>, i: nat)
    requires i < |s|
    ensures Reversed(s)[i] == s[|s| - 1 - i]
  {
  }

  lemma {:induction false} ParentIsEarlier(flows: Flows, root: int, s: seq<int>, i: nat, j: nat)
    requires ParentsFirst(flows, root, s) && Once(s) && i < |s| && j < |s| && s[i] != root && IsChild(flows, s[i], s[j])
    ensures j < i
  {
    assert ParentListed(flows, root, s, i);
    var k :| 0 <= k < i && s[k] == s[j];
  }

  lemma ReversedPutsChildrenFirst(flows: Flows, root: int, s: seq<int>)
    requires ParentsFirst(flows, root, s) && Once(s)
    ensures ChildrenFirst(flows, root, Reversed(s))
  {
    var r := Reversed(s);
    forall i, j | 0 <= i < |r| && 0 <= j < |r| && r[i] != root && IsChild(flows, r[i], r[j]) ensures i < j {
      ReversedAt(s, i);
      ReversedAt(s, j);
      ParentIsEarlier(flows, root, s, |s| - 1 - i, |s| - 1 - j);
    }
  }

  lemma ReversedHolds(s: seq<int>)
    ensures forall x :: x in Reversed(s) <==> x in s
    ensures Once(s) ==> Once(Reversed(s))
  {
    var r := Reversed(s);
    forall i | 0 <= i < |s| ensures r[i] == s[|s| - 1 - i] { ReversedAt(s, i); }
    forall x | x in s ensures x in r {
      var k :| 0 <= k < |s| && s[k] == x;
      assert r[|s| - 1 - k] == x;
    }
  }

  lemma AppendParentsFirst(flows: Flows, root: int, s: seq<int>, x: int)
    requires ParentsFirst(flows, root, s) && Once(s) && x !in s
    requires x != root ==> x in flows && flows[x].parent.Some? && flows[x].parent.value in s
    ensures ParentsFirst(flows, root, s + [x]) && Once(s + [x])
  {
    var t := s + [x];
    forall i | 0 <= i < |t| ensures ParentListed(flows, root, t, i) {
      if t[i] == root {
      } else if i < |s| {
        assert ParentListed(flows, root, s, i);
        EarlierStill(s, x, flows[s[i]].parent.value, i);
      } else {
        var k :| 0 <= k < |s| && s[k] == flows[x].parent.value;
        assert t[k] == s[k];
      }
    }
  }

  lemma EarlierStill(s: seq<int>, x: int, p: int, i: nat)
    requires i <= |s| && Earlier(s, p, i)
    ensures Earlier(s + [x], p, i)
  {
    var k :| 0 <= k < i && s[k] == p;
    assert (s + [x])[k] == p;
  }

  /** The queue loop of `collectFlowSubtreeForDelete`. */
  method CollectQueue(flows: Flows, root: int) returns (ordered: seq<int>, visited: set<int>)
    requires root in flows
    ensures Once(ordered) && ParentsFirst(flows, root, ordered) && ordered != [] && ordered[0] == root
    ensures forall x :: x in ordered <==> x in visited
    ensures forall x :: x in visited ==> Descends(flows, root, x)
    ensures forall c :: c in flows && flows[c].parent.Some? && flows[c].parent.value in visited ==> c in visited
  {
    ordered, visited := [], {};
    var queue := [root];
    assert Ancestor(flows, root, 0) == Some(root);
    while queue != []
      invariant forall x :: x in ordered <==> x in visited
      invariant visited <= flows.Keys && Once(ordered) && ParentsFirst(flows, root, ordered)
      invariant ordered == [] ==> queue == [root]
      invariant ordered != [] ==> ordered[0] == root
      invariant forall x :: x in visited || x in queue ==> x in flows && Descends(flows, root, x)
      invariant forall q :: q in queue && q != root ==> flows[q].parent.Some? && flows[q].parent.value in visited
      invariant forall c :: c in flows && flows[c].parent.Some? && flows[c].parent.value in visited ==> c in visited || c in queue
      decreases flows.Keys - visited, |queue|
    {
      var current := queue[0];
      assert queue == [current] + queue[1..];
      queue := queue[1..];
      if current !in visited {
        var children := ChildIds(flows, current);
        forall c | c in children ensures Descends(flows, root, c) {
          ChildDescends(flows, root, current, c);
        }
        visited := visited + {current};
        AppendParentsFirst(flows, root, ordered, current);
        ordered := ordered + [current];
        queue := queue + Unvisited(children, visited);
      }
    }
  }

  /** The flows the loop collects, last first. */
  method CollectSubtree(flows: Flows, root: int) returns (order: seq<int>)
    requires root in flows
    ensures Once(order)
    ensures forall x :: x in order <==> Descends(flows, root, x)
    ensures ChildrenFirst(flows, root, order)
    ensures order != [] && order[|order| - 1] == root
  {
    var ordered, visited := CollectQueue(flows, root);
    order := Reversed(ordered);
    ReversedPutsChildrenFirst(flows, root, ordered);
    ReversedHolds(ordered);
    ReversedAt(ordered, |ordered| - 1);
    forall x | Descends(flows, root, x) ensures x in visited {
      var n: nat :| Ancestor(flows, x, n) == Some(root);
      ClosedHoldsDescendants(flows, root, visited, x, n);
    }
  }

  function Unvisited(ids: seq<int>, visited: set<int>): (r: seq<int>)
    ensures forall x :: x in r <==> x in ids && x !in visited
  {
    if ids == [] then []
    else if ids[0] in visited then Unvisited(ids[1..], visited)
    else [ids[0]] + Unvisited(ids[1..], visited)
  }

  /** A flow that has a root is collected with that root's subtree. */
  method SubtreeOfRootHolds(flows: Flows, flowId: int) returns (r: Result<seq<int>, Error>)
    ensures r.Ok? <==> exists root :: IsRoot(flows, root) && Descends(flows, root, flowId)
    ensures r.Ok? ==> flowId in r.value
  {
    var root := GetRootFlowId(flows, flowId);
    match root {
      case Err(e) => r := Err(e);
      case Ok(id) =>
        var order := CollectSubtree(flows, id);
        r := Ok(order);
    }
  }
}
