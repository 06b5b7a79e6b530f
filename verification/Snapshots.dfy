/** Stored node configurations and their sanitizer. */
module NodeConfigs {
  import opened Wrappers
  import opened Sequences
  import opened Json
  import Strings

  const WEBHOOK_URL := "webhook_url"
  const WEBHOOK_SECRET := "webhook_secret"
  const BRANCH_FLOWS := "submenu_branch_flows"
  const BRANCH_NAMES := "submenu_branch_names"

  predicate IsDigit(c: char) { '0' <= c <= '9' }

  predicate IsBranchKey(s: string) {
    var t := Strings.Trim(s);
    t == "*" || t == "#" || (1 <= |t| <= 2 && forall i :: 0 <= i < |t| ==> IsDigit(t[i]))
  }

  function CleanName(f: (string, Value)): (string, Value) {
    (Strings.Trim(f.0), Str(Strings.Trim(TextOrEmpty(f.1))))
  }

  predicate KeptName(f: (string, Value)) {
    IsBranchKey(f.0) && f.1.Str? && f.1.chars != ""
  }

  /** `Object.fromEntries`: a later entry overwrites an earlier one in its place. */
  function FromEntries(entries: Fields): (r: Fields) {
    if entries == [] then []
    else
      var last := entries[|entries| - 1];
      Put(FromEntries(entries[..|entries| - 1]), last.0, last.1)
  }

  function SanitizeBranchNames(v: Option<Value>): (r: Fields) {
    match v
    case Some(Obj(fields)) => FromEntries(KeptNames(fields))
    case _ => []
  }

  function Sanitize(nodeType: string, config: Fields): (r: Fields) {
    if nodeType == "voicemail" then
      Delete(Delete(config, WEBHOOK_URL), WEBHOOK_SECRET)
    else if nodeType == "menu" then
      var kept := Delete(config, BRANCH_FLOWS);
      Put(kept, BRANCH_NAMES, Obj(SanitizeBranchNames(Lookup(kept, BRANCH_NAMES))))
    else
      config
  }

  /** The entry offers a name for the branch: its key is that branch up to blanks, a valid one, and its label is not blank. */
  predicate OffersName(f: (string, Value), branch: string) {
    Strings.Trim(f.0) == branch && IsBranchKey(branch) && Strings.Trim(TextOrEmpty(f.1)) != ""
  }

  function KeptNames(fields: Fields): Fields { Filter(KeptName, Map(CleanName, fields)) }

  lemma {:induction false} KeptNamesSnoc(fields: Fields)
    requires fields != []
    ensures var last := CleanName(fields[|fields| - 1]);
            KeptNames(fields) == KeptNames(fields[..|fields| - 1]) + if KeptName(last) then [last] else []
  {
    FilterSnoc(KeptName, Map(CleanName, fields));
    assert Map(CleanName, fields)[..|fields| - 1] == Map(CleanName, fields[..|fields| - 1]);
  }

  /** The last entry that offers a name for the branch. */
  function LastOffer(fields: Fields, branch: string): (r: Option<nat>)
    ensures r.Some? ==> r.value < |fields| && OffersName(fields[r.value], branch) && forall j :: r.value < j < |fields| ==> !OffersName(fields[j], branch)
    ensures r.None? ==> forall j :: 0 <= j < |fields| ==> !OffersName(fields[j], branch)
  {
    LastIndex((f: (string, Value)) => OffersName(f, branch), fields)
  }

  /** The sanitized names: a branch has one exactly where some entry offers it, and then the trimmed label of the last entry that does. */
  lemma {:induction false} BranchNamesAre(fields: Fields, branch: string)
    ensures var last := LastOffer(fields, branch);
            Lookup(SanitizeBranchNames(Some(Obj(fields))), branch)
              == if last.Some? then Some(Str(Strings.Trim(TextOrEmpty(fields[last.value].1)))) else None
  {
    if fields != [] {
      var n, last := |fields| - 1, CleanName(fields[|fields| - 1]);
      BranchNamesAre(fields[..n], branch);
      KeptNamesSnoc(fields);
      KeptIsOffered(fields[n], branch);
      NamesSnoc(KeptNames(fields[..n]), last, branch);
    }
  }

  lemma {:induction false} NamesSnoc(names: Fields, last: (string, Value), branch: string)
    ensures Lookup(FromEntries(names + [last]), branch) == if last.0 == branch then Some(last.1) else Lookup(FromEntries(names), branch)
    ensures names + [] == names
  {
    assert (names + [last])[..|names|] == names;
    PutThenLookup(FromEntries(names), last.0, last.1);
  }

  lemma KeptIsOffered(f: (string, Value), branch: string)
    ensures KeptName(CleanName(f)) && CleanName(f).0 == branch <==> OffersName(f, branch)
  {
    Strings.TrimIdempotent(f.0);
  }

  lemma {:induction false} FromEntriesMembers(entries: Fields)
    ensures forall f :: f in FromEntries(entries) ==> f in entries
    ensures DistinctKeys(FromEntries(entries))
  {
    if entries != [] {
      var front, last := entries[..|entries| - 1], entries[|entries| - 1];
      FromEntriesMembers(front);
      PutKeepsDistinct(FromEntries(front), last.0, last.1);
    }
  }

  lemma {:induction false} PutNewKey(fields: Fields, key: string, value: Value)
    requires forall i :: 0 <= i < |fields| ==> fields[i].0 != key
    ensures Put(fields, key, value) == fields + [(key, value)]
  {
    if fields != [] { PutNewKey(fields[1..], key, value); }
  }

  lemma {:induction false} FromEntriesOfDistinct(entries: Fields)
    requires DistinctKeys(entries)
    ensures FromEntries(entries) == entries
  {
    if entries != [] {
      var front, last := entries[..|entries| - 1], entries[|entries| - 1];
      FromEntriesOfDistinct(front);
      PutNewKey(front, last.0, last.1);
      assert entries == front + [last];
    }
  }

  lemma {:induction false} FilterAll<A>(p: A -> bool, s: seq<A>)
    requires forall i :: 0 <= i < |s| ==> p(s[i])
    ensures Filter(p, s) == s
  {
    if s != [] { FilterAll(p, s[1..]); }
  }

  lemma CleanNameIdempotent(f: (string, Value))
    ensures CleanName(CleanName(f)) == CleanName(f)
  {
    Strings.TrimIdempotent(f.0);
    Strings.TrimIdempotent(TextOrEmpty(f.1));
  }

  lemma BranchNamesAreClean(v: Option<Value>)
    ensures var names := SanitizeBranchNames(v);
            && DistinctKeys(names)
            && forall f :: f in names ==> KeptName(f) && CleanName(f) == f
  {
    if v.Some? && v.value.Obj? {
      var mapped := Map(CleanName, v.value.fields);
      FromEntriesMembers(Filter(KeptName, mapped));
      forall f | f in SanitizeBranchNames(v) ensures KeptName(f) && CleanName(f) == f {
        assert f in Filter(KeptName, mapped);
        var i :| 0 <= i < |mapped| && mapped[i] == f;
        CleanNameIdempotent(v.value.fields[i]);
      }
    }
  }

  lemma BranchNamesIdempotent(v: Option<Value>)
    ensures var names := SanitizeBranchNames(v); SanitizeBranchNames(Some(Obj(names))) == names
  {
    var names := SanitizeBranchNames(v);
    BranchNamesAreClean(v);
    assert Map(CleanName, names) == names by {
      assert forall i :: 0 <= i < |names| ==> names[i] in names;
    }
    FilterAll(KeptName, names);
    FromEntriesOfDistinct(names);
  }

  /** Sanitizing twice is sanitizing once, entry order included. */
  lemma SanitizeIdempotent(nodeType: string, config: Fields)
    ensures Sanitize(nodeType, Sanitize(nodeType, config)) == Sanitize(nodeType, config)
  {
    var once := Sanitize(nodeType, config);
    if nodeType == "voicemail" {
      var first := Delete(config, WEBHOOK_URL);
      FilterAll((f: (string, Value)) => f.0 != WEBHOOK_URL, once);
      FilterAll((f: (string, Value)) => f.0 != WEBHOOK_SECRET, once);
    } else if nodeType == "menu" {
      var kept := Delete(config, BRANCH_FLOWS);
      var names := SanitizeBranchNames(Lookup(kept, BRANCH_NAMES));
      FilterAll((f: (string, Value)) => f.0 != BRANCH_FLOWS, once);
      PutThenLookup(kept, BRANCH_NAMES, Obj(names));
      BranchNamesIdempotent(Lookup(kept, BRANCH_NAMES));
      PutExisting(once, BRANCH_NAMES, Obj(names));
    }
  }

  /** The sanitizer removes the secrets and derived links it is there to remove. */
  lemma {:induction false} SanitizeRemoves(nodeType: string, config: Fields)
    ensures nodeType == "voicemail" ==>
              Lookup(Sanitize(nodeType, config), WEBHOOK_URL) == None == Lookup(Sanitize(nodeType, config), WEBHOOK_SECRET)
    ensures nodeType == "menu" ==> Lookup(Sanitize(nodeType, config), BRANCH_FLOWS) == None
    ensures forall k :: k !in {WEBHOOK_URL, WEBHOOK_SECRET, BRANCH_FLOWS, BRANCH_NAMES} ==>
              Lookup(Sanitize(nodeType, config), k) == Lookup(config, k)
  {
    LookupAfterDelete(config, WEBHOOK_URL);
    LookupAfterDelete(Delete(config, WEBHOOK_URL), WEBHOOK_SECRET);
    LookupAfterDelete(config, BRANCH_FLOWS);
    var kept := Delete(config, BRANCH_FLOWS);
    PutThenLookup(kept, BRANCH_NAMES, Obj(SanitizeBranchNames(Lookup(kept, BRANCH_NAMES))));
  }

  lemma {:induction false} LookupAfterDelete(fields: Fields, key: string)
    ensures Lookup(Delete(fields, key), key) == None
    ensures forall k :: k != key ==> Lookup(Delete(fields, key), k) == Lookup(fields, k)
  {
    if fields != [] {
      LookupAfterDelete(fields[1..], key);
      var rest := Delete(fields[1..], key);
      assert ([fields[0]] + rest)[1..] == rest;
    }
  }

  lemma SanitizeWellFormed(nodeType: string, config: Fields)
    requires WellFormed(Obj(config))
    ensures WellFormed(Obj(Sanitize(nodeType, config)))
  {
    if nodeType == "voicemail" {
      FilterKeepsDistinct((f: (string, Value)) => f.0 != WEBHOOK_URL, config);
      FilterKeepsDistinct((f: (string, Value)) => f.0 != WEBHOOK_SECRET, Delete(config, WEBHOOK_URL));
    } else if nodeType == "menu" {
      var kept := Delete(config, BRANCH_FLOWS);
      var names := SanitizeBranchNames(Lookup(kept, BRANCH_NAMES));
      FilterKeepsDistinct((f: (string, Value)) => f.0 != BRANCH_FLOWS, config);
      BranchNamesAreClean(Lookup(kept, BRANCH_NAMES));
      assert forall i :: 0 <= i < |names| ==> names[i] in names;
      assert WellFormed(Obj(names));
      PutKeepsDistinct(kept, BRANCH_NAMES, Obj(names));
    }
  }
}

/** Flow snapshots and the payload by which they are compared. */
module Snapshots {
  import opened Wrappers
  import opened Sequences
  import opened Sorting
  import Json
  import Strings
  import opened NodeConfigs

  datatype Node = Node(
    nodeKey: string,
    nodeType: string,
    nodeLabel: Option<string>,
    positionX: real,
    positionY: real,
    config: Json.Fields,
    groupId: Option<string>,
    subflowId: Option<int>)

  datatype Edge = Edge(
    source: string,
    target: string,
    branchKey: string,
    condition: Option<string>,
    sourceHandle: Option<string>,
    targetHandle: Option<string>)

  datatype Subflows = Absent | Listed(items: seq<Snapshot>)

  /** `flowId`, `name` and `subflows` may be missing from a stored snapshot. */
  datatype Snapshot = Snapshot(
    flowId: Option<int>,
    name: Option<string>,
    nodes: seq<Node>,
    edges: seq<Edge>,
    subflows: Subflows)
  {
    function Children(): (r: seq<Snapshot>)
      ensures forall i :: 0 <= i < |r| ==> r[i] < this
    {
      match subflows
      case Listed(items) => items
      case Absent => []
    }

    function Id(): int { flowId.GetOr(0) }
  }

  // ----- The comparable payload

  predicate NodeLe(a: Node, b: Node) { Strings.Le(a.nodeKey, b.nodeKey) }

  function EdgeKey(e: Edge): seq<string> {
    [e.source, e.target, e.condition.GetOr(""), e.sourceHandle.GetOr(""), e.targetHandle.GetOr("")]
  }

  predicate EdgeLe(a: Edge, b: Edge) { Strings.ListLe(EdgeKey(a), EdgeKey(b)) }

  predicate ChildLe(a: Snapshot, b: Snapshot) { a.Id() <= b.Id() }

  function SortedConfig(config: Json.Fields): Json.Fields {
    Json.SortKeys(Json.Obj(config)).fields
  }

  function NormalNode(n: Node, ignoreLayout: bool): (r: Node) {
    if ignoreLayout then
      n.(positionX := 0.0, positionY := 0.0, groupId := None,
         config := SortedConfig(Sanitize(n.nodeType, n.config)))
    else
      n.(config := SortedConfig(n.config))
  }

  predicate Kept(n: Node, ignoreLayout: bool) {
    !(ignoreLayout && n.nodeType == "group")
  }

  function NormalNodes(nodes: seq<Node>, ignoreLayout: bool): seq<Node> {
    SortBy(Map(n => NormalNode(n, ignoreLayout), Filter(n => Kept(n, ignoreLayout), nodes)), NodeLe)
  }

  /** The payload of a snapshot: two snapshots are compared by comparing these. */
  function Payload(s: Snapshot, ignoreLayout: bool): (r: Snapshot)
    ensures r.Id() == s.Id()
    decreases s
  {
    var children := SortBy(s.Children(), ChildLe);
    Snapshot(
      Some(s.Id()),
      s.name,
      NormalNodes(s.nodes, ignoreLayout),
      SortBy(s.edges, EdgeLe),
      Listed(seq(|children|, i requires 0 <= i < |children| =>
        assert children[i] in multiset(children);
        Payload(children[i], ignoreLayout))))
  }

  predicate ExactlyEqual(a: Option<Snapshot>, b: Option<Snapshot>) {
    match (a, b)
    case (None, None) => true
    case (Some(x), Some(y)) => Payload(x, false) == Payload(y, false)
    case _ => false
  }

  predicate StructurallyEqual(a: Option<Snapshot>, b: Option<Snapshot>) {
    match (a, b)
    case (None, None) => true
    case (Some(x), Some(y)) => Payload(x, true) == Payload(y, true)
    case _ => false
  }

  // ----- What a snapshot says, with every order forgotten

  datatype NodeMeaning = NodeMeaning(
    nodeKey: string,
    nodeType: string,
    nodeLabel: Option<string>,
    positionX: real,
    positionY: real,
    config: Json.Meaning,
    groupId: Option<string>,
    subflowId: Option<int>)

  datatype Meaning = Meaning(
    flowId: int,
    name: Option<string>,
    nodes: multiset<NodeMeaning>,
    edges: multiset<Edge>,
    children: multiset<Meaning>)

  ghost function MeaningOfNode(n: Node, ignoreLayout: bool): NodeMeaning {
    if ignoreLayout then
      NodeMeaning(n.nodeKey, n.nodeType, n.nodeLabel, 0.0, 0.0,
                  Json.MeaningOf(Json.Obj(Sanitize(n.nodeType, n.config))), None, n.subflowId)
    else
      NodeMeaning(n.nodeKey, n.nodeType, n.nodeLabel, n.positionX, n.positionY,
                  Json.MeaningOf(Json.Obj(n.config)), n.groupId, n.subflowId)
  }

  ghost function MeaningOfNodes(nodes: seq<Node>, ignoreLayout: bool): multiset<NodeMeaning> {
    multiset(Map((n: Node) => MeaningOfNode(n, ignoreLayout), Filter(n => Kept(n, ignoreLayout), nodes)))
  }

  /**
   * The reference for comparing snapshots: a bag of nodes, a bag of edges and a bag of
   * sub-snapshots; with `ignoreLayout`, group boxes, positions and group membership are dropped.
   */
  ghost function MeaningOf(s: Snapshot, ignoreLayout: bool): Meaning
    decreases s
  {
    var cs := s.Children();
    Meaning(
      s.Id(), s.name,
      MeaningOfNodes(s.nodes, ignoreLayout),
      multiset(s.edges),
      multiset(seq(|cs|, i requires 0 <= i < |cs| => MeaningOf(cs[i], ignoreLayout))))
  }

  ghost predicate DistinctNodes(nodes: seq<Node>) {
    forall i, j :: 0 <= i < j < |nodes| ==> nodes[i].nodeKey != nodes[j].nodeKey
  }

  /** Edges that tie on the five sort fields are the same edge. */
  ghost predicate DistinctEdges(edges: seq<Edge>) {
    AntisymmetricOn(edges, EdgeLe)
  }

  ghost predicate DistinctIds(cs: seq<Snapshot>) {
    forall i, j :: 0 <= i < j < |cs| ==> cs[i].Id() != cs[j].Id()
  }

  /** Node keys, sibling flow ids and object keys are each distinct, and edges with one sort key are one edge, at every depth. */
  ghost predicate WellFormed(s: Snapshot)
    decreases s
  {
    && DistinctNodes(s.nodes)
    && DistinctEdges(s.edges)
    && DistinctIds(s.Children())
    && (forall i :: 0 <= i < |s.nodes| ==> Json.WellFormed(Json.Obj(s.nodes[i].config)))
    && (forall i :: 0 <= i < |s.Children()| ==> WellFormed(s.Children()[i]))
  }

  // ----- Orders

  lemma OrdersAreTotal()
    ensures TotalPreorder(NodeLe) && TotalPreorder(EdgeLe) && TotalPreorder(ChildLe)
  {
    Strings.OrdersAreTotal();
  }

  lemma PayloadChildren(s: Snapshot, ignoreLayout: bool)
    ensures Payload(s, ignoreLayout).subflows
         == Listed(Map((c: Snapshot) => Payload(c, ignoreLayout), SortBy(s.Children(), ChildLe)))
    ensures Payload(s, ignoreLayout).subflows
         == Listed(SortBy(Map((c: Snapshot) => Payload(c, ignoreLayout), s.Children()), ChildLe))
  {
    var f := (c: Snapshot) => Payload(c, ignoreLayout);
    assert Payload(s, ignoreLayout).Children() == Map(f, SortBy(s.Children(), ChildLe));
    SortByMap(f, s.Children(), ChildLe, ChildLe);
  }

  lemma MeaningChildren(s: Snapshot, ignoreLayout: bool)
    ensures MeaningOf(s, ignoreLayout).children
         == multiset(Map((c: Snapshot) => MeaningOf(c, ignoreLayout), s.Children()))
  {
    var cs := s.Children();
    assert seq(|cs|, i requires 0 <= i < |cs| => MeaningOf(cs[i], ignoreLayout))
        == Map((c: Snapshot) => MeaningOf(c, ignoreLayout), cs);
  }

  // ----- Nodes: normal form and meaning determine each other

  lemma SortedConfigKeepsMeaning(config: Json.Fields)
    ensures Json.MeaningOf(Json.Obj(SortedConfig(config))) == Json.MeaningOf(Json.Obj(config))
  {
    Json.SortKeysKeepsMeaning(Json.Obj(config));
  }

  /** What a normal node says; layout and sanitizing have already been dealt with. */
  lemma NormalNodeSays(n: Node, ignoreLayout: bool)
    ensures MeaningOfNode(NormalNode(n, ignoreLayout), false) == MeaningOfNode(n, ignoreLayout)
  {
    SortedConfigKeepsMeaning(n.config);
    SortedConfigKeepsMeaning(Sanitize(n.nodeType, n.config));
  }

  lemma NodeMeaningDeterminesNormal(a: Node, b: Node, ignoreLayout: bool)
    requires Json.WellFormed(Json.Obj(a.config)) && Json.WellFormed(Json.Obj(b.config))
    requires MeaningOfNode(a, ignoreLayout) == MeaningOfNode(b, ignoreLayout)
    ensures NormalNode(a, ignoreLayout) == NormalNode(b, ignoreLayout)
  {
    if ignoreLayout {
      SanitizeWellFormed(a.nodeType, a.config);
      SanitizeWellFormed(b.nodeType, b.config);
      Json.MeaningDeterminesSortKeys(Json.Obj(Sanitize(a.nodeType, a.config)), Json.Obj(Sanitize(b.nodeType, b.config)));
    } else {
      Json.MeaningDeterminesSortKeys(Json.Obj(a.config), Json.Obj(b.config));
    }
  }

  lemma {:induction false} FilterKeepsDistinctNodes(p: Node -> bool, nodes: seq<Node>)
    requires DistinctNodes(nodes)
    ensures DistinctNodes(Filter(p, nodes))
  {
    if nodes != [] {
      FilterKeepsDistinctNodes(p, nodes[1..]);
      var rest := Filter(p, nodes[1..]);
      forall i | 0 <= i < |rest| ensures rest[i].nodeKey != nodes[0].nodeKey {
        var k :| 0 <= k < |nodes[1..]| && nodes[1..][k] == rest[i];
        assert nodes[k + 1] == rest[i];
      }
    }
  }

  lemma DistinctNodesNeverTie(nodes: seq<Node>)
    requires DistinctNodes(nodes)
    ensures AntisymmetricOn(nodes, NodeLe)
  {
    forall x, y | x in nodes && y in nodes && NodeLe(x, y) && NodeLe(y, x) ensures x == y {
      Strings.LeTotal(x.nodeKey, y.nodeKey);
    }
  }

  lemma NodesAgree(a: seq<Node>, b: seq<Node>, ignoreLayout: bool)
    requires DistinctNodes(a)
    requires forall n :: n in a || n in b ==> Json.WellFormed(Json.Obj(n.config))
    requires MeaningOfNodes(a, ignoreLayout) == MeaningOfNodes(b, ignoreLayout)
    ensures NormalNodes(a, ignoreLayout) == NormalNodes(b, ignoreLayout)
  {
    var keep := (n: Node) => Kept(n, ignoreLayout);
    var says := (n: Node) => MeaningOfNode(n, ignoreLayout);
    var norm := (n: Node) => NormalNode(n, ignoreLayout);
    var ka, kb := Filter(keep, a), Filter(keep, b);
    forall x, y | x in ka && y in kb && says(x) == says(y) ensures norm(x) == norm(y) {
      NodeMeaningDeterminesNormal(x, y, ignoreLayout);
    }
    BagFactor(ka, kb, says, norm);
    FilterKeepsDistinctNodes(keep, a);
    assert DistinctNodes(Map(norm, ka));
    DistinctNodesNeverTie(Map(norm, ka));
    OrdersAreTotal();
    SortByDependsOnBag(Map(norm, ka), Map(norm, kb), NodeLe);
  }

  lemma EdgesAgree(a: seq<Edge>, b: seq<Edge>)
    requires DistinctEdges(a) && multiset(a) == multiset(b)
    ensures SortBy(a, EdgeLe) == SortBy(b, EdgeLe)
  {
    OrdersAreTotal();
    SortByDependsOnBag(a, b, EdgeLe);
  }

  /** Edges tie exactly when they agree on the five sort fields. */
  lemma EdgesTieIff(x: Edge, y: Edge)
    ensures EdgeLe(x, y) && EdgeLe(y, x) <==> EdgeKey(x) == EdgeKey(y)
  {
    Strings.ListLeTotal(EdgeKey(x), EdgeKey(y));
  }

  lemma {:induction false} ChildrenAgree(a: seq<Snapshot>, b: seq<Snapshot>, ignoreLayout: bool)
    requires DistinctIds(a)
    requires multiset(Map((c: Snapshot) => MeaningOf(c, ignoreLayout), a))
          == multiset(Map((c: Snapshot) => MeaningOf(c, ignoreLayout), b))
    requires forall x, y :: x in a && y in b && MeaningOf(x, ignoreLayout) == MeaningOf(y, ignoreLayout)
               ==> Payload(x, ignoreLayout) == Payload(y, ignoreLayout)
    ensures SortBy(Map((c: Snapshot) => Payload(c, ignoreLayout), a), ChildLe)
         == SortBy(Map((c: Snapshot) => Payload(c, ignoreLayout), b), ChildLe)
  {
    var says := (c: Snapshot) => MeaningOf(c, ignoreLayout);
    var norm := (c: Snapshot) => Payload(c, ignoreLayout);
    BagFactor(a, b, says, norm);
    assert DistinctIds(Map(norm, a));
    OrdersAreTotal();
    SortByDependsOnBag(Map(norm, a), Map(norm, b), ChildLe);
  }

  /** Snapshots that say the same thing have the same payload. */
  lemma {:induction false} MeaningDeterminesPayload(a: Snapshot, b: Snapshot, ignoreLayout: bool)
    requires WellFormed(a) && WellFormed(b)
    requires MeaningOf(a, ignoreLayout) == MeaningOf(b, ignoreLayout)
    ensures Payload(a, ignoreLayout) == Payload(b, ignoreLayout)
    decreases a
  {
    NodesAgree(a.nodes, b.nodes, ignoreLayout);
    EdgesAgree(a.edges, b.edges);
    MeaningChildren(a, ignoreLayout);
    MeaningChildren(b, ignoreLayout);
    var ca, cb := a.Children(), b.Children();
    forall x, y | x in ca && y in cb && MeaningOf(x, ignoreLayout) == MeaningOf(y, ignoreLayout)
      ensures Payload(x, ignoreLayout) == Payload(y, ignoreLayout)
    {
      MeaningDeterminesPayload(x, y, ignoreLayout);
    }
    ChildrenAgree(ca, cb, ignoreLayout);
    PayloadChildren(a, ignoreLayout);
    PayloadChildren(b, ignoreLayout);
  }

  lemma NormalNodesSay(nodes: seq<Node>, ignoreLayout: bool)
    ensures MeaningOfNodes(NormalNodes(nodes, ignoreLayout), false) == MeaningOfNodes(nodes, ignoreLayout)
  {
    var kept := Filter(n => Kept(n, ignoreLayout), nodes);
    var norm := (n: Node) => NormalNode(n, ignoreLayout);
    var plain := (n: Node) => MeaningOfNode(n, false);
    var sorted := NormalNodes(nodes, ignoreLayout);
    FilterAll(n => Kept(n, false), sorted);
    BagOfMap(plain, sorted, Map(norm, kept));
    forall i | 0 <= i < |kept| ensures plain(norm(kept[i])) == MeaningOfNode(kept[i], ignoreLayout) {
      NormalNodeSays(kept[i], ignoreLayout);
    }
    assert Map(plain, Map(norm, kept)) == Map((n: Node) => MeaningOfNode(n, ignoreLayout), kept);
  }

  /** Building the payload loses nothing of what the snapshot says. */
  lemma {:induction false} PayloadKeepsMeaning(s: Snapshot, ignoreLayout: bool)
    ensures MeaningOf(Payload(s, ignoreLayout), false) == MeaningOf(s, ignoreLayout)
    decreases s
  {
    NormalNodesSay(s.nodes, ignoreLayout);
    var cs := s.Children();
    var norm := (c: Snapshot) => Payload(c, ignoreLayout);
    var plain := (c: Snapshot) => MeaningOf(c, false);
    var says := (c: Snapshot) => MeaningOf(c, ignoreLayout);
    forall i | 0 <= i < |cs| ensures plain(norm(cs[i])) == says(cs[i]) {
      PayloadKeepsMeaning(cs[i], ignoreLayout);
    }
    assert Map(plain, Map(norm, cs)) == Map(says, cs);
    PayloadChildren(s, ignoreLayout);
    BagOfMap(plain, Payload(s, ignoreLayout).Children(), Map(norm, cs));
    MeaningChildren(s, ignoreLayout);
    MeaningChildren(Payload(s, ignoreLayout), false);
  }

  /** The payload is a normal form: equal payloads and equal meanings are the same thing. */
  lemma PayloadIsNormalForm(a: Snapshot, b: Snapshot, ignoreLayout: bool)
    requires WellFormed(a) && WellFormed(b)
    ensures Payload(a, ignoreLayout) == Payload(b, ignoreLayout)
       <==> MeaningOf(a, ignoreLayout) == MeaningOf(b, ignoreLayout)
  {
    PayloadKeepsMeaning(a, ignoreLayout);
    PayloadKeepsMeaning(b, ignoreLayout);
    if MeaningOf(a, ignoreLayout) == MeaningOf(b, ignoreLayout) {
      MeaningDeterminesPayload(a, b, ignoreLayout);
    }
  }

  lemma SortTwo<T>(x: T, y: T, le: (T, T) -> bool)
    requires le(x, y)
    ensures SortBy([x, y], le) == [x, y]
  {
    assert [x, y][1..] == [y] && [y][1..] == [];
    assert SortBy([y], le) == Insert(y, [], le) == [y];
    assert SortBy([x, y], le) == Insert(x, [y], le);
  }

  lemma OnlyEdgesSay(e: seq<Edge>, f: seq<Edge>)
    requires multiset(e) == multiset(f) && SortBy(e, EdgeLe) != SortBy(f, EdgeLe)
    ensures var a, b := Snapshot(None, None, [], e, Absent), Snapshot(None, None, [], f, Absent);
            MeaningOf(a, false) == MeaningOf(b, false) && !ExactlyEqual(Some(a), Some(b))
  {
    var a, b := Snapshot(None, None, [], e, Absent), Snapshot(None, None, [], f, Absent);
    assert Payload(a, false).edges == SortBy(e, EdgeLe);
    assert Payload(b, false).edges == SortBy(f, EdgeLe);
  }

  lemma {:induction false} PayloadWithEdges(s: Snapshot, edges: seq<Edge>, ignoreLayout: bool)
    ensures Payload(s.(edges := edges), ignoreLayout) == Payload(s, ignoreLayout) <==> SortBy(edges, EdgeLe) == SortBy(s.edges, EdgeLe)
  {
    PayloadChildren(s, ignoreLayout);
    PayloadChildren(s.(edges := edges), ignoreLayout);
  }

  /** Edges that agree on the five sort fields are the same edge. */
  ghost predicate OnePerKey(edges: seq<Edge>) {
    forall x, y :: x in edges && y in edges && EdgeKey(x) == EdgeKey(y) ==> x == y
  }

  lemma {:induction false} OnePerKeyIff(edges: seq<Edge>)
    ensures OnePerKey(edges) <==> DistinctEdges(edges)
  {
    forall x, y ensures EdgeLe(x, y) && EdgeLe(y, x) <==> EdgeKey(x) == EdgeKey(y) { EdgesTieIff(x, y); }
  }

  /** Listing the snapshot's edges in any other order gives the same payload. */
  ghost predicate EdgeOrderIsForgotten(s: Snapshot, ignoreLayout: bool) {
    forall f :: multiset(f) == multiset(s.edges) ==> Payload(s.(edges := f), ignoreLayout) == Payload(s, ignoreLayout)
  }

  lemma {:induction false} PayloadForgetsAsSortDoes(s: Snapshot, ignoreLayout: bool)
    ensures EdgeOrderIsForgotten(s, ignoreLayout) <==> ForgetsOrder(s.edges, EdgeLe)
  {
    if EdgeOrderIsForgotten(s, ignoreLayout) {
      forall f | multiset(f) == multiset(s.edges) ensures SortBy(f, EdgeLe) == SortBy(s.edges, EdgeLe) {
        PayloadWithEdges(s, f, ignoreLayout);
      }
    }
    if ForgetsOrder(s.edges, EdgeLe) {
      forall f | multiset(f) == multiset(s.edges) ensures Payload(s.(edges := f), ignoreLayout) == Payload(s, ignoreLayout) {
        PayloadWithEdges(s, f, ignoreLayout);
      }
    }
  }

  lemma {:induction false} EdgeSortForgetsIff(edges: seq<Edge>)
    ensures ForgetsOrder(edges, EdgeLe) <==> DistinctEdges(edges)
  {
    OrdersAreTotal();
    SortForgetsOrderIff(edges, EdgeLe);
  }

  /**
   * The payload forgets the order of a snapshot's edges if and only if edges that agree on the five
   * sort fields are the same edge.
   */
  lemma {:induction false} EdgeOrderIsForgottenIff(s: Snapshot, ignoreLayout: bool)
    ensures EdgeOrderIsForgotten(s, ignoreLayout) <==> OnePerKey(s.edges)
  {
    EdgeSortForgetsIff(s.edges);
    PayloadForgetsAsSortDoes(s, ignoreLayout);
    OnePerKeyIff(s.edges);
  }

  /** Distinctness is needed: edges that differ only in their branch key are not put in order. */
  lemma BranchKeyIsNotASortField() returns (a: Snapshot, b: Snapshot)
    ensures MeaningOf(a, false) == MeaningOf(b, false)
    ensures !ExactlyEqual(Some(a), Some(b))
  {
    var e1 := Edge("a", "b", "1", None, None, None);
    var e2 := Edge("a", "b", "2", None, None, None);
    a := Snapshot(None, None, [], [e1, e2], Absent);
    b := Snapshot(None, None, [], [e2, e1], Absent);
    assert EdgeKey(e1) == EdgeKey(e2);
    Strings.ListLeTotal(EdgeKey(e1), EdgeKey(e2));
    SortTwo(e1, e2, EdgeLe);
    SortTwo(e2, e1, EdgeLe);
    OnlyEdgesSay([e1, e2], [e2, e1]);
  }

  // ----- Exact and structural equality

  /** Every stored configuration, at every depth, is what the sanitizer makes of it. */
  ghost predicate Sanitized(s: Snapshot)
    decreases s
  {
    && (forall i :: 0 <= i < |s.nodes| ==> Sanitize(s.nodes[i].nodeType, s.nodes[i].config) == s.nodes[i].config)
    && (forall i :: 0 <= i < |s.Children()| ==> Sanitized(s.Children()[i]))
  }

  function Bare(n: Node): Node {
    n.(positionX := 0.0, positionY := 0.0, groupId := None)
  }

  ghost function Strip(p: Snapshot): Snapshot
    decreases p
  {
    var cs := p.Children();
    p.(nodes := Map(Bare, Filter(n => Kept(n, true), p.nodes)),
       subflows := Listed(seq(|cs|, i requires 0 <= i < |cs| => Strip(cs[i]))))
  }

  lemma {:induction false} FilterMap<A, B>(p: A -> bool, q: B -> bool, f: A -> B, s: seq<A>)
    requires forall i :: 0 <= i < |s| ==> p(s[i]) == q(f(s[i]))
    ensures Filter(q, Map(f, s)) == Map(f, Filter(p, s))
  {
    if s != [] {
      FilterMap(p, q, f, s[1..]);
      assert Map(f, s)[1..] == Map(f, s[1..]);
      MapCons(f, s[0], Filter(p, s[1..]));
    }
  }

  lemma StripNodes(nodes: seq<Node>)
    requires forall i :: 0 <= i < |nodes| ==> Sanitize(nodes[i].nodeType, nodes[i].config) == nodes[i].config
    ensures Map(Bare, Filter(n => Kept(n, true), NormalNodes(nodes, false))) == NormalNodes(nodes, true)
  {
    var keep := (n: Node) => Kept(n, true);
    var exact := (n: Node) => NormalNode(n, false);
    var structural := (n: Node) => NormalNode(n, true);
    var kept := Filter(keep, nodes);
    FilterAll(n => Kept(n, false), nodes);
    OrdersAreTotal();
    SortByFilter(keep, Map(exact, nodes), NodeLe);
    FilterMap(keep, keep, exact, nodes);
    SortByMap(Bare, Map(exact, kept), NodeLe, NodeLe);
    assert Map(Bare, Map(exact, kept)) == Map(structural, kept) by {
      forall i | 0 <= i < |kept| ensures Bare(exact(kept[i])) == structural(kept[i]) {
        assert kept[i] in nodes;
      }
    }
  }

  lemma StripChildren(p: Snapshot)
    ensures Strip(p).subflows == Listed(Map(Strip, p.Children()))
  {
    var cs := p.Children();
    assert seq(|cs|, i requires 0 <= i < |cs| => Strip(cs[i])) == Map(Strip, cs);
  }

  lemma StripPayloads(cs: seq<Snapshot>)
    requires forall i :: 0 <= i < |cs| ==> Payload(cs[i], true) == Strip(Payload(cs[i], false))
    ensures Map(Strip, Map((c: Snapshot) => Payload(c, false), cs)) == Map((c: Snapshot) => Payload(c, true), cs)
  {
  }

  lemma {:induction false} StructuralIsStrippedExact(s: Snapshot)
    requires Sanitized(s)
    ensures Payload(s, true) == Strip(Payload(s, false))
    decreases s
  {
    var sorted := SortBy(s.Children(), ChildLe);
    forall i | 0 <= i < |sorted| ensures Payload(sorted[i], true) == Strip(Payload(sorted[i], false)) {
      assert sorted[i] in multiset(sorted);
      assert sorted[i] in s.Children();
      StructuralIsStrippedExact(sorted[i]);
    }
    StripNodes(s.nodes);
    StripPayloads(sorted);
    StripChildren(Payload(s, false));
    PayloadChildren(s, false);
    PayloadChildren(s, true);
  }

  /** On sanitized snapshots exact equality implies structural equality. */
  lemma ExactImpliesStructural(a: Snapshot, b: Snapshot)
    requires Sanitized(a) && Sanitized(b)
    requires ExactlyEqual(Some(a), Some(b))
    ensures StructurallyEqual(Some(a), Some(b))
  {
    StructuralIsStrippedExact(a);
    StructuralIsStrippedExact(b);
  }

  /** The same flow tree up to where nodes stand, which groups they are in and which group boxes exist. */
  ghost predicate LayoutVariant(a: Snapshot, b: Snapshot)
    decreases a
  {
    && a.Id() == b.Id() && a.name == b.name && a.edges == b.edges
    && Map(Bare, Filter(n => Kept(n, true), a.nodes)) == Map(Bare, Filter(n => Kept(n, true), b.nodes))
    && |a.Children()| == |b.Children()|
    && (forall i :: 0 <= i < |a.Children()| ==> LayoutVariant(a.Children()[i], b.Children()[i]))
  }

  /** Structural equality survives any layout or group change, at every nesting depth. */
  lemma {:induction false} LayoutChangesKeepStructure(a: Snapshot, b: Snapshot)
    requires LayoutVariant(a, b)
    ensures StructurallyEqual(Some(a), Some(b))
    decreases a
  {
    var structural := (n: Node) => NormalNode(n, true);
    var ka, kb := Filter(n => Kept(n, true), a.nodes), Filter(n => Kept(n, true), b.nodes);
    assert Map(structural, ka) == Map(structural, kb) by {
      assert |ka| == |Map(Bare, ka)| == |kb|;
      forall i | 0 <= i < |ka| ensures structural(ka[i]) == structural(kb[i]) {
        assert Bare(ka[i]) == Map(Bare, ka)[i] == Map(Bare, kb)[i] == Bare(kb[i]);
        assert structural(ka[i]) == structural(Bare(ka[i]));
        assert structural(kb[i]) == structural(Bare(kb[i]));
      }
    }
    var norm := (c: Snapshot) => Payload(c, true);
    forall i | 0 <= i < |a.Children()| ensures norm(a.Children()[i]) == norm(b.Children()[i]) {
      LayoutChangesKeepStructure(a.Children()[i], b.Children()[i]);
    }
    assert Map(norm, a.Children()) == Map(norm, b.Children());
    PayloadChildren(a, true);
    PayloadChildren(b, true);
  }
}
