/** Restoring a stored version, and why rereading the tree afterwards gives that version back. */
module FlowRestore {
  import opened Wrappers
  import opened Sequences
  import opened NodeConfigs
  import opened Snapshots
  import opened FlowForest
  import opened FlowTrees
  import opened FlowTransactions

  function TreeSize(s: Snapshot): nat
    decreases s, 0
  {
    match s.subflows
    case Absent => 1
    case Listed(items) => 1 + ForestSize(items)
  }

  function ForestSize(ss: seq<Snapshot>): nat
    decreases ss, 1
  {
    if ss == [] then 0 else TreeSize(ss[0]) + ForestSize(ss[1..])
  }

  lemma TreeSizeOfChildren(s: Snapshot)
    ensures TreeSize(s) == 1 + ForestSize(s.Children())
  {
  }

  // ----- The transaction

  /** The root's node payload keeps its configuration as stored. */
  function RestoredNode(n: Node): NodeDto {
    NodeDto(n.nodeKey, n.nodeType, n.nodeLabel, Some(n.positionX), Some(n.positionY), Some(n.config), n.groupId, n.subflowId)
  }

  /** The root's edge payload leaves the handles out. */
  function RestoredEdge(e: Edge): EdgeDto {
    EdgeDto(e.source, e.target, Some(e.branchKey), e.condition, None, None)
  }

  function Renamed(st: Store, f: int, name: Option<string>): Store
    requires f in st.flows
  {
    st.(flows := st.flows[f := st.flows[f].(name := name.GetOr(st.flows[f].name))])
  }

  function RestoreOne(st: Store, s: Snapshot): Store
    requires s.Id() in st.flows
  {
    var stored := Snapshot(Some(s.Id()), s.name, s.nodes, s.edges, Absent);
    Renamed(AddVersion(st, s.Id(), stored, Map(NodeToDto, s.nodes), Map(EdgeToDto, s.edges)), s.Id(), s.name)
  }

  function RestoreSubflows(st: Store, ss: seq<Snapshot>): Result<Store, Error>
    decreases ForestSize(ss)
  {
    if ss == [] then Ok(st)
    else
      TreeSizeOfChildren(ss[0]);
      if ss[0].Id() <= 0 then RestoreSubflows(st, ss[1..])
      else if ss[0].Id() !in st.flows then Err(NotFound)
      else match RestoreSubflows(RestoreOne(st, ss[0]), ss[0].Children())
      case Err(e) => Err(e)
      case Ok(st') => RestoreSubflows(st', ss[1..])
  }

  function RestoreRoot(st: Store, id: int, s: Snapshot): Store
    requires id in st.flows
  {
    Renamed(AddVersion(st, id, s, Map(RestoredNode, s.nodes), Map(RestoredEdge, s.edges)), id, s.name)
  }

  function RestoreVersion(st: Store, id: int, v: int): Result<Store, Error> {
    if id !in st.flows then Err(NotFound)
    else if v !in st.versions || st.versions[v].flowId != id || st.versions[v].snapshot.None? then Err(NotFound)
    else
      var s := st.versions[v].snapshot.value;
      RestoreSubflows(RestoreRoot(st, id, s), s.Children())
  }

  // ----- The run invariant

  lemma RenamedValid(st: Store, f: int, name: Option<string>)
    requires Valid(st) && f in st.flows
    ensures Valid(Renamed(st, f, name))
    ensures forall x :: x in st.flows ==> VersionOf(Renamed(st, f, name), x) == VersionOf(st, x) && Content(Renamed(st, f, name), x) == Content(st, x)
  {
  }

  /** One flow was given new content; every other flow is as before. */
  ghost predicate OnlyTouches(st: Store, st': Store, f: int, name: string, nodes: seq<Node>, edges: seq<Edge>) {
    && Valid(st') && st'.flows.Keys == st.flows.Keys && f in st.flows
    && st'.flows[f].parent == st.flows[f].parent && st'.flows[f].name == name && Content(st', f) == (nodes, edges)
    && forall x :: x in st.flows && x != f ==>
         st'.flows[x].parent == st.flows[x].parent && st'.flows[x].name == st.flows[x].name && Content(st', x) == Content(st, x)
  }

  lemma AddThenRename(st: Store, f: int, snapshot: Snapshot, name: Option<string>, nodes: seq<NodeDto>, edges: seq<EdgeDto>)
    requires Valid(st) && f in st.flows
    ensures OnlyTouches(st, Renamed(AddVersion(st, f, snapshot, nodes, edges), f, name), f, name.GetOr(st.flows[f].name),
                        Map(NodeOf, nodes), Map(RowEdge, edges))
  {
    var st1 := AddVersion(st, f, snapshot, nodes, edges);
    var ns, es := Map(NodeOf, nodes), Map(RowEdge, edges);
    AddIsAdded(st, f, snapshot, nodes, edges);
    AddedValid(st, st1, f, snapshot, ns, es);
    PayloadIsClean(nodes);
    forall x | x in st.flows ensures Content(st1, x) == if x == f then (ns, es) else Content(st, x) {
      AddedContent(st, st1, f, snapshot, ns, es, x);
    }
    RenamedValid(st1, f, name);
  }

  lemma SubflowRows(s: Snapshot)
    ensures Map(NodeOf, Map(NodeToDto, s.nodes)) == Map(ReadNode, s.nodes)
    ensures Map(RowEdge, Map(EdgeToDto, s.edges)) == s.edges
  {
    forall i | 0 <= i < |s.nodes| ensures NodeOf(NodeToDto(s.nodes[i])) == ReadNode(s.nodes[i]) {
      SanitizeIdempotent(s.nodes[i].nodeType, s.nodes[i].config);
    }
    EdgesBack(s.edges);
  }

  function NoHandles(e: Edge): Edge { e.(sourceHandle := None, targetHandle := None) }

  lemma RootRows(s: Snapshot)
    ensures Map(NodeOf, Map(RestoredNode, s.nodes)) == Map(ReadNode, s.nodes)
    ensures Map(RowEdge, Map(RestoredEdge, s.edges)) == Map(NoHandles, s.edges)
  {
    forall i | 0 <= i < |s.nodes| ensures NodeOf(RestoredNode(s.nodes[i])) == ReadNode(s.nodes[i]) { }
    forall i | 0 <= i < |s.edges| ensures RowEdge(RestoredEdge(s.edges[i])) == NoHandles(s.edges[i]) { }
  }

  /** Every restore that succeeds keeps the run invariant and the forest. */
  lemma {:induction false} RestoreSubflowsValid(st: Store, ss: seq<Snapshot>)
    requires Valid(st) && RestoreSubflows(st, ss).Ok?
    ensures var st' := RestoreSubflows(st, ss).value;
            && Valid(st') && st'.flows.Keys == st.flows.Keys
            && forall x :: x in st.flows ==> st'.flows[x].parent == st.flows[x].parent
    decreases ForestSize(ss)
  {
    if ss != [] {
      TreeSizeOfChildren(ss[0]);
      if ss[0].Id() <= 0 {
        RestoreSubflowsValid(st, ss[1..]);
      } else {
        var s := ss[0];
        AddThenRename(st, s.Id(), Snapshot(Some(s.Id()), s.name, s.nodes, s.edges, Absent), s.name, Map(NodeToDto, s.nodes), Map(EdgeToDto, s.edges));
        var st1 := RestoreOne(st, s);
        RestoreSubflowsValid(st1, s.Children());
        RestoreSubflowsValid(RestoreSubflows(st1, s.Children()).value, ss[1..]);
      }
    }
  }

  lemma RestoreVersionValid(st: Store, id: int, v: int)
    requires Valid(st) && RestoreVersion(st, id, v).Ok?
    ensures Valid(RestoreVersion(st, id, v).value)
  {
    var s := st.versions[v].snapshot.value;
    AddThenRename(st, id, s, s.name, Map(RestoredNode, s.nodes), Map(RestoredEdge, s.edges));
    RestoreSubflowsValid(RestoreRoot(st, id, s), s.Children());
  }

  // ----- What every restored flow holds afterwards

  ghost function IdsOf(s: Snapshot): set<int>
    decreases TreeSize(s), 0
  {
    TreeSizeOfChildren(s);
    {s.Id()} + IdsOfAll(s.Children())
  }

  ghost function IdsOfAll(ss: seq<Snapshot>): set<int>
    decreases ForestSize(ss), 1
  {
    if ss == [] then {} else IdsOf(ss[0]) + IdsOfAll(ss[1..])
  }

  /** No flow id occurs twice in the listed trees. */
  ghost predicate Spread(ss: seq<Snapshot>)
    decreases ForestSize(ss)
  {
    if ss == [] then true
    else
      TreeSizeOfChildren(ss[0]);
      && ss[0].Id() !in IdsOfAll(ss[0].Children()) && Spread(ss[0].Children())
      && IdsOf(ss[0]) !! IdsOfAll(ss[1..]) && Spread(ss[1..])
  }

  /** Every flow named in the trees holds what its tree says. */
  ghost predicate Holds(st: Store, ss: seq<Snapshot>)
    decreases ForestSize(ss)
  {
    if ss == [] then true
    else
      TreeSizeOfChildren(ss[0]);
      && ss[0].Id() in st.flows && ss[0].name == Some(st.flows[ss[0].Id()].name)
      && Content(st, ss[0].Id()) == (Map(ReadNode, ss[0].nodes), ss[0].edges)
      && Holds(st, ss[0].Children()) && Holds(st, ss[1..])
  }

  ghost predicate Named(flows: Flows, ss: seq<Snapshot>)
    decreases ForestSize(ss)
  {
    if ss == [] then true
    else
      TreeSizeOfChildren(ss[0]);
      && ss[0].Id() > 0 && ss[0].Id() in flows && ss[0].name.Some?
      && Named(flows, ss[0].Children()) && Named(flows, ss[1..])
  }

  /** Outside the ids `touched`, names and contents are as before. */
  ghost predicate Frame(st: Store, st': Store, touched: set<int>) {
    && st'.flows.Keys == st.flows.Keys
    && (forall x :: x in st.flows ==> st'.flows[x].parent == st.flows[x].parent)
    && forall x :: x in st.flows && x !in touched ==> st'.flows[x].name == st.flows[x].name && Content(st', x) == Content(st, x)
  }

  lemma {:induction false} HoldsFrame(st: Store, st': Store, ss: seq<Snapshot>, touched: set<int>)
    requires Holds(st, ss) && Frame(st, st', touched) && IdsOfAll(ss) !! touched
    ensures Holds(st', ss)
    decreases ForestSize(ss)
  {
    if ss != [] {
      TreeSizeOfChildren(ss[0]);
      HoldsFrame(st, st', ss[0].Children(), touched);
      HoldsFrame(st, st', ss[1..], touched);
    }
  }

  lemma {:induction false} NamedFrame(flows: Flows, flows': Flows, ss: seq<Snapshot>)
    requires Named(flows, ss) && flows.Keys == flows'.Keys
    ensures Named(flows', ss)
    decreases ForestSize(ss)
  {
    if ss != [] {
      TreeSizeOfChildren(ss[0]);
      NamedFrame(flows, flows', ss[0].Children());
      NamedFrame(flows, flows', ss[1..]);
    }
  }

  lemma RestoreOneHolds(st: Store, s: Snapshot)
    requires Valid(st) && s.Id() in st.flows && s.name.Some?
    ensures var st1 := RestoreOne(st, s);
            && Valid(st1) && Frame(st, st1, {s.Id()}) && st1.flows[s.Id()].name == s.name.value
            && Content(st1, s.Id()) == (Map(ReadNode, s.nodes), s.edges)
  {
    AddThenRename(st, s.Id(), Snapshot(Some(s.Id()), s.name, s.nodes, s.edges, Absent), s.name, Map(NodeToDto, s.nodes), Map(EdgeToDto, s.edges));
    SubflowRows(s);
  }

  lemma {:induction false} RestoreSubflowsHolds(st: Store, ss: seq<Snapshot>)
    requires Valid(st) && Named(st.flows, ss) && Spread(ss)
    ensures RestoreSubflows(st, ss).Ok?
    ensures var st' := RestoreSubflows(st, ss).value; Valid(st') && Holds(st', ss) && Frame(st, st', IdsOfAll(ss))
    decreases ForestSize(ss)
  {
    if ss != [] {
      var s := ss[0];
      TreeSizeOfChildren(s);
      RestoreOneHolds(st, s);
      var st1 := RestoreOne(st, s);
      NamedFrame(st.flows, st1.flows, s.Children());
      RestoreSubflowsHolds(st1, s.Children());
      var st2 := RestoreSubflows(st1, s.Children()).value;
      NamedFrame(st.flows, st2.flows, ss[1..]);
      RestoreSubflowsHolds(st2, ss[1..]);
      var st3 := RestoreSubflows(st2, ss[1..]).value;
      HoldsFrame(st2, st3, s.Children(), IdsOfAll(ss[1..]));
      FirstHolds(st1, st2, st3, ss);
    }
  }

  lemma FirstHolds(st1: Store, st2: Store, st3: Store, ss: seq<Snapshot>)
    requires ss != [] && Spread(ss) && ss[0].Id() in st1.flows
    requires Frame(st1, st2, IdsOfAll(ss[0].Children())) && Frame(st2, st3, IdsOfAll(ss[1..]))
    ensures st3.flows.Keys == st1.flows.Keys
    ensures st3.flows[ss[0].Id()].name == st1.flows[ss[0].Id()].name && Content(st3, ss[0].Id()) == Content(st1, ss[0].Id())
  {
    assert ss[0].Id() in IdsOf(ss[0]);
  }

  // ----- Rereading a restored tree

  function IdOf(s: Snapshot): int { s.Id() }

  /** The listed trees name, level by level, exactly the flows below `parent`, as a reread would list them. */
  ghost predicate Mirrors(flows: Flows, parent: int, ss: seq<Snapshot>) {
    Map(IdOf, ss) == ChildIds(flows, parent) && MirrorsEach(flows, ss)
  }

  ghost predicate MirrorsEach(flows: Flows, ss: seq<Snapshot>)
    decreases ForestSize(ss)
  {
    if ss == [] then true
    else
      TreeSizeOfChildren(ss[0]);
      && ss[0].flowId.Some? && ss[0].Id() > 0 && ss[0].name.Some? && Clean(ss[0].nodes)
      && ss[0].subflows == Packed(ss[0].Children())
      && Map(IdOf, ss[0].Children()) == ChildIds(flows, ss[0].Id()) && MirrorsEach(flows, ss[0].Children())
      && MirrorsEach(flows, ss[1..])
  }

  lemma {:induction false} Reread(st: Store, path: seq<int>, ss: seq<Snapshot>)
    requires IsPath(st.flows, path) && Holds(st, ss) && MirrorsEach(st.flows, ss)
    requires forall i :: 0 <= i < |ss| ==> IsChild(st.flows, ss[i].Id(), Last(path))
    ensures FullTrees(st, Map(IdOf, ss), Members(path)).Ok?
    ensures Map(AsChild, FullTrees(st, Map(IdOf, ss), Members(path)).value) == ss
    decreases ForestSize(ss)
  {
    if ss == [] {
      assert Map(IdOf, ss) == [];
    } else {
      var s := ss[0];
      TreeSizeOfChildren(s);
      FirstIsHeld(st, path, ss);
      Reread(st, path + [s.Id()], s.Children());
      Reread(st, path, ss[1..]);
      IdsCons(ss);
      RereadJoins(st, Map(IdOf, ss), Members(path), s, ss[1..]);
    }
  }

  /** What the first of the trees has that makes it reread as it is. */
  lemma {:induction false} FirstIsHeld(st: Store, path: seq<int>, ss: seq<Snapshot>)
    requires IsPath(st.flows, path) && ss != [] && Holds(st, ss) && MirrorsEach(st.flows, ss) && IsChild(st.flows, ss[0].Id(), Last(path))
    ensures var s := ss[0];
            && s.Id() in st.flows && s.Id() !in Members(path) && Map(IdOf, s.Children()) == ChildIds(st.flows, s.Id())
            && IsPath(st.flows, path + [s.Id()]) && Members(path + [s.Id()]) == Members(path) + {s.Id()}
            && Holds(st, s.Children()) && MirrorsEach(st.flows, s.Children()) && Holds(st, ss[1..]) && MirrorsEach(st.flows, ss[1..])
            && (forall i :: 0 <= i < |s.Children()| ==> IsChild(st.flows, s.Children()[i].Id(), s.Id()))
            && Assemble(st, s.Id(), Packed(s.Children())) == s
  {
    ChildExtendsPath(st.flows, path, ss[0].Id());
    ChildrenAreListed(st.flows, ss[0]);
    HeldTreeAssembles(st, ss[0]);
  }

  lemma {:induction false} HeldTreeAssembles(st: Store, s: Snapshot)
    requires s.Id() in st.flows && s.flowId.Some? && s.name == Some(st.flows[s.Id()].name) && Clean(s.nodes)
    requires Content(st, s.Id()) == (Map(ReadNode, s.nodes), s.edges) && s.subflows == Packed(s.Children())
    ensures Assemble(st, s.Id(), Packed(s.Children())) == s
  {
    assert Map(ReadNode, s.nodes) == s.nodes;
  }

  lemma IdsCons(ss: seq<Snapshot>)
    requires ss != []
    ensures Map(IdOf, ss) != [] && Map(IdOf, ss)[0] == ss[0].Id() && Map(IdOf, ss)[1..] == Map(IdOf, ss[1..]) && ss == [ss[0]] + ss[1..]
  {
    assert Map(IdOf, ss)[0] == IdOf(ss[0]);
  }

  /** The first of the trees and the trees behind it, from what its children and those reread as. */
  lemma {:induction false} RereadJoins(st: Store, ids: seq<int>, above: set<int>, s: Snapshot, later: seq<Snapshot>)
    requires ids != [] && ids[0] in st.flows && ids[0] !in above && Assemble(st, ids[0], Packed(s.Children())) == s
    requires var kids := FullTrees(st, ChildIds(st.flows, ids[0]), above + {ids[0]}); kids.Ok? && Map(AsChild, kids.value) == s.Children()
    requires var rest := FullTrees(st, ids[1..], above); rest.Ok? && Map(AsChild, rest.value) == later
    ensures FullTrees(st, ids, above).Ok? && Map(AsChild, FullTrees(st, ids, above).value) == [s] + later
  {
    FullTreesStep(st, ids, above);
  }

  lemma ChildrenAreListed(flows: Flows, s: Snapshot)
    requires Map(IdOf, s.Children()) == ChildIds(flows, s.Id())
    ensures forall i :: 0 <= i < |s.Children()| ==> IsChild(flows, s.Children()[i].Id(), s.Id())
  {
    var cs := s.Children();
    forall i | 0 <= i < |cs| ensures IsChild(flows, cs[i].Id(), s.Id()) {
      assert Map(IdOf, cs)[i] == IdOf(cs[i]);
      assert cs[i].Id() in ChildIds(flows, s.Id());
    }
  }

  // ----- Mirrored trees name each flow once

  lemma {:induction false} IdsDescend(flows: Flows, ss: seq<Snapshot>, x: int) returns (i: nat)
    requires MirrorsEach(flows, ss) && x in IdsOfAll(ss)
    requires forall k :: 0 <= k < |ss| ==> ss[k].Id() in flows
    ensures i < |ss| && Descends(flows, ss[i].Id(), x)
    decreases ForestSize(ss)
  {
    var s := ss[0];
    TreeSizeOfChildren(s);
    if x == s.Id() {
      assert Ancestor(flows, x, 0) == Some(x);
      i := 0;
    } else if x in IdsOfAll(s.Children()) {
      ChildrenAreListed(flows, s);
      var k := IdsDescend(flows, s.Children(), x);
      DescendsUp(flows, s.Id(), s.Children()[k].Id(), x);
      i := 0;
    } else {
      var k := IdsDescend(flows, ss[1..], x);
      i := k + 1;
    }
  }

  lemma DescendsUp(flows: Flows, parent: int, c: int, x: int)
    requires IsChild(flows, c, parent) && parent in flows && Descends(flows, c, x)
    ensures Descends(flows, parent, x)
  {
    var n: nat :| Ancestor(flows, x, n) == Some(c);
    AncestorAdds(flows, x, n, 1);
    assert Ancestor(flows, parent, 0) == Some(parent);
    assert Ancestor(flows, x, n + 1) == Some(parent);
  }

  lemma NoLoopBelowRoot(flows: Flows, root: int, p: int, k: nat)
    requires IsRoot(flows, root) && Descends(flows, root, p) && k > 0
    ensures Ancestor(flows, p, k) != Some(p)
  {
    if Ancestor(flows, p, k) == Some(p) {
      forall n: nat ensures Ancestor(flows, p, n).Some? {
        LoopIsEndless(flows, p, k, n);
      }
      assert Endless(flows, p);
      RootEndsChain(flows, p, root);
    }
  }

  lemma ParentIsNotBelow(flows: Flows, root: int, p: int, c: int)
    requires IsRoot(flows, root) && Descends(flows, root, p) && IsChild(flows, c, p)
    ensures !Descends(flows, c, p)
  {
    if Descends(flows, c, p) {
      var n: nat :| Ancestor(flows, p, n) == Some(c);
      AncestorAdds(flows, p, n, 1);
      assert Ancestor(flows, p, 0) == Some(p);
      assert Ancestor(flows, p, n + 1) == Some(p);
      NoLoopBelowRoot(flows, root, p, n + 1);
    }
  }

  lemma SiblingsShareNothing(flows: Flows, root: int, p: int, a: int, b: int, x: int)
    requires IsRoot(flows, root) && Descends(flows, root, p) && p in flows
    requires IsChild(flows, a, p) && IsChild(flows, b, p)
    requires Descends(flows, a, x) && Descends(flows, b, x)
    ensures a == b
  {
    var m: nat :| Ancestor(flows, x, m) == Some(a);
    var n: nat :| Ancestor(flows, x, n) == Some(b);
    if m < n {
      AncestorAdds(flows, x, m, n - m);
      assert Ancestor(flows, p, n - m - 1) == Some(b);
      ParentIsNotBelow(flows, root, p, b);
    } else if n < m {
      AncestorAdds(flows, x, n, m - n);
      assert Ancestor(flows, p, m - n - 1) == Some(a);
      ParentIsNotBelow(flows, root, p, a);
    }
  }

  lemma {:induction false} MirroredIsSpread(flows: Flows, root: int, p: int, ss: seq<Snapshot>)
    requires IsRoot(flows, root) && Descends(flows, root, p) && p in flows && MirrorsEach(flows, ss)
    requires forall i :: 0 <= i < |ss| ==> IsChild(flows, ss[i].Id(), p)
    requires forall i, j :: 0 <= i < j < |ss| ==> ss[i].Id() != ss[j].Id()
    ensures Spread(ss) && Named(flows, ss) && p !in IdsOfAll(ss)
    decreases ForestSize(ss)
  {
    if p in IdsOfAll(ss) {
      var i := IdsDescend(flows, ss, p);
      ParentIsNotBelow(flows, root, p, ss[i].Id());
    }
    if ss != [] {
      var s := ss[0];
      TreeSizeOfChildren(s);
      ChildDescends(flows, root, p, s.Id());
      ChildrenAreListed(flows, s);
      ChildrenAreDistinct(flows, s);
      MirroredIsSpread(flows, root, s.Id(), s.Children());
      MirroredIsSpread(flows, root, p, ss[1..]);
      FirstIsApart(flows, root, p, ss);
    }
  }

  lemma ChildrenAreDistinct(flows: Flows, s: Snapshot)
    requires Map(IdOf, s.Children()) == ChildIds(flows, s.Id())
    ensures forall i, j :: 0 <= i < j < |s.Children()| ==> s.Children()[i].Id() != s.Children()[j].Id()
  {
    var cs, ids := s.Children(), ChildIds(flows, s.Id());
    forall i, j | 0 <= i < j < |cs| ensures cs[i].Id() != cs[j].Id() {
      assert Map(IdOf, cs)[i] == ids[i] && Map(IdOf, cs)[j] == ids[j];
    }
  }

  lemma FirstIsApart(flows: Flows, root: int, p: int, ss: seq<Snapshot>)
    requires IsRoot(flows, root) && Descends(flows, root, p) && p in flows && ss != [] && MirrorsEach(flows, ss)
    requires forall i :: 0 <= i < |ss| ==> IsChild(flows, ss[i].Id(), p)
    requires forall i, j :: 0 <= i < j < |ss| ==> ss[i].Id() != ss[j].Id()
    ensures IdsOf(ss[0]) !! IdsOfAll(ss[1..])
  {
    forall x | x in IdsOf(ss[0]) && x in IdsOfAll(ss[1..]) ensures false {
      assert IdsOfAll([ss[0]]) == IdsOf(ss[0]);
      assert MirrorsEach(flows, [ss[0]]);
      var i := IdsDescend(flows, [ss[0]], x);
      var j := IdsDescend(flows, ss[1..], x);
      SiblingsShareNothing(flows, root, p, ss[0].Id(), ss[j + 1].Id(), x);
    }
  }

  /** A stored tree of `root` that names the flows below it now. */
  ghost predicate Restorable(flows: Flows, root: int, s: Snapshot) {
    && IsRoot(flows, root) && s.flowId == Some(root) && s.name.Some? && Clean(s.nodes)
    && Mirrors(flows, root, s.Children())
  }

  lemma RestoredStore(st: Store, root: int, s: Snapshot)
    requires Valid(st) && Restorable(st.flows, root, s)
    ensures RestoreSubflows(RestoreRoot(st, root, s), s.Children()).Ok?
    ensures var st' := RestoreSubflows(RestoreRoot(st, root, s), s.Children()).value;
            && Valid(st') && Holds(st', s.Children())
            && st'.flows.Keys == st.flows.Keys && (forall x :: x in st.flows ==> st'.flows[x].parent == st.flows[x].parent)
            && st'.flows[root].name == s.name.value && Content(st', root) == (s.nodes, Map(NoHandles, s.edges))
  {
    var st1 := RestoreRoot(st, root, s);
    AddThenRename(st, root, s, s.name, Map(RestoredNode, s.nodes), Map(RestoredEdge, s.edges));
    RootRows(s);
    assert Map(ReadNode, s.nodes) == s.nodes;
    assert Ancestor(st.flows, root, 0) == Some(root);
    ChildrenAreListed(st.flows, s);
    ChildrenAreDistinct(st.flows, s);
    MirroredIsSpread(st.flows, root, root, s.Children());
    NamedFrame(st.flows, st1.flows, s.Children());
    RestoreSubflowsHolds(st1, s.Children());
  }

  lemma RereadRoot(st: Store, root: int, s: Snapshot)
    requires Restorable(st.flows, root, s) && Holds(st, s.Children())
    requires st.flows[root].name == s.name.value && Content(st, root) == (s.nodes, Map(NoHandles, s.edges))
    ensures FullTree(st, root, {}) == Ok(s.(edges := Map(NoHandles, s.edges), subflows := Listed(s.Children())))
  {
    assert IsPath(st.flows, [root]) && Members([root]) == {root};
    ChildrenAreListed(st.flows, s);
    Reread(st, [root], s.Children());
    RootTree(st, root);
  }

  /**
   * Restoring a version of a root whose stored tree names the flows that are below it now succeeds,
   * and rereading the tree gives that version back, except that the root's edge handles are gone.
   */
  lemma RestoreThenReread(st: Store, root: int, v: int)
    requires Valid(st)
    requires v in st.versions && st.versions[v].flowId == root && st.versions[v].snapshot.Some?
    requires Restorable(st.flows, root, st.versions[v].snapshot.value)
    ensures RestoreVersion(st, root, v).Ok?
    ensures var st', s := RestoreVersion(st, root, v).value, st.versions[v].snapshot.value;
            && Valid(st')
            && FullTree(st', root, {}) == Ok(s.(edges := Map(NoHandles, s.edges), subflows := Listed(s.Children())))
  {
    var s := st.versions[v].snapshot.value;
    RestoredStore(st, root, s);
    var st' := RestoreVersion(st, root, v).value;
    MirrorsFrame(st.flows, st'.flows, s.Children());
    SameParentsSameChildren(st.flows, st'.flows, root);
    RereadRoot(st', root, s);
  }

  /** The tree as a restore can bring it back: the root's edges without their handles, its subflows listed. */
  function Restored(s: Snapshot): Snapshot {
    s.(edges := Map(NoHandles, s.edges), subflows := Listed(s.Children()))
  }

  /** A restore that succeeds keeps the invariant and the forest. */
  lemma {:induction false} RestoreKeepsForest(st: Store, root: int, v: int)
    requires Valid(st) && RestoreVersion(st, root, v).Ok?
    ensures var st' := RestoreVersion(st, root, v).value;
            && Valid(st') && st'.flows.Keys == st.flows.Keys
            && forall x :: x in st.flows ==> st'.flows[x].parent == st.flows[x].parent
  {
    var s := st.versions[v].snapshot.value;
    AddThenRename(st, root, s, s.name, Map(RestoredNode, s.nodes), Map(RestoredEdge, s.edges));
    RestoreSubflowsValid(RestoreRoot(st, root, s), s.Children());
  }

  lemma {:induction false} RestorableFrame(flows: Flows, flows': Flows, root: int, s: Snapshot)
    requires flows.Keys == flows'.Keys && forall x :: x in flows ==> flows[x].parent == flows'[x].parent
    requires Restorable(flows, root, s)
    ensures Restorable(flows', root, s)
  {
    MirrorsFrame(flows, flows', s.Children());
    SameParentsSameChildren(flows, flows', root);
  }

  lemma {:induction false} RestoredIsRestorable(flows: Flows, root: int, s: Snapshot)
    ensures Restorable(flows, root, Restored(s)) <==> Restorable(flows, root, s)
  {
    assert Restored(s).Children() == s.Children();
  }

  /**
   * For a root: restoring a version succeeds and rereading gives its tree back, but for the root's edge
   * handles, if and only if the stored tree names the flows that are below the root now.
   */
  lemma {:induction false} RestoreRereadsIff(st: Store, root: int, v: int)
    requires Valid(st) && IsRoot(st.flows, root)
    requires v in st.versions && st.versions[v].flowId == root && st.versions[v].snapshot.Some?
    ensures var r, s := RestoreVersion(st, root, v), st.versions[v].snapshot.value;
            (r.Ok? && FullTree(r.value, root, {}) == Ok(Restored(s))) <==> Restorable(st.flows, root, s)
  {
    var r, s := RestoreVersion(st, root, v), st.versions[v].snapshot.value;
    if Restorable(st.flows, root, s) {
      RestoreThenReread(st, root, v);
    } else if r.Ok? {
      RestoreKeepsForest(st, root, v);
      PublishedIsRestorable(r.value, root);
      if FullTree(r.value, root, {}) == Ok(Restored(s)) {
        RestorableFrame(r.value.flows, st.flows, root, Restored(s));
        RestoredIsRestorable(st.flows, root, s);
        assert false;
      }
    }
  }

  lemma {:induction false} MirrorsFrame(flows: Flows, flows': Flows, ss: seq<Snapshot>)
    requires flows.Keys == flows'.Keys && forall x :: x in flows ==> flows[x].parent == flows'[x].parent
    requires MirrorsEach(flows, ss)
    ensures MirrorsEach(flows', ss)
    decreases ForestSize(ss)
  {
    if ss != [] {
      TreeSizeOfChildren(ss[0]);
      SameParentsSameChildren(flows, flows', ss[0].Id());
      MirrorsFrame(flows, flows', ss[0].Children());
      MirrorsFrame(flows, flows', ss[1..]);
    }
  }

  // ----- Publishing and restoring

  lemma {:induction false} RereadMirrors(st: Store, ids: seq<int>, visited: set<int>)
    requires FullTrees(st, ids, visited).Ok? && forall f :: f in st.flows ==> f > 0
    ensures MirrorsEach(st.flows, Map(AsChild, FullTrees(st, ids, visited).value))
    ensures Map(IdOf, Map(AsChild, FullTrees(st, ids, visited).value)) == ids
    decreases st.flows.Keys - visited, |ids|
  {
    var trees := FullTrees(st, ids, visited).value;
    if ids == [] {
      assert Map(AsChild, trees) == [];
    } else {
      var kids := ChildIds(st.flows, ids[0]);
      RereadMirrors(st, kids, visited + {ids[0]});
      RereadMirrors(st, ids[1..], visited);
      FullTreesStep(st, ids, visited);
      ContentIsClean(st, ids[0]);
      var first := Assemble(st, ids[0], Packed(Map(AsChild, FullTrees(st, kids, visited + {ids[0]}).value)));
      var rest := Map(AsChild, FullTrees(st, ids[1..], visited).value);
      assert Map(AsChild, trees) == [first] + rest;
      assert ([first] + rest)[1..] == rest;
      assert first.Children() == Map(AsChild, FullTrees(st, kids, visited + {ids[0]}).value);
      MapCons(IdOf, first, rest);
    }
  }

  /** A published tree can be restored: it names exactly the flows below its root. */
  lemma PublishedIsRestorable(st: Store, root: int)
    requires Valid(st) && IsRoot(st.flows, root)
    ensures FullTree(st, root, {}).Ok? && Restorable(st.flows, root, FullTree(st, root, {}).value)
  {
    BuildersAgree(st, root, false);
    var ids := ChildIds(st.flows, root);
    assert {} + {root} == {root};
    RereadMirrors(st, ids, {root});
    RootTree(st, root);
    ContentIsClean(st, root);
  }

  /**
   * Publish, edit as you like while the forest keeps its shape, restore:
   * the tree reread is the published one, except for the root's edge handles.
   */
  lemma PublishRestoreRoundTrip(st: Store, later: Store, root: int, v: int)
    requires Valid(st) && Valid(later) && IsRoot(st.flows, root) && FullTree(st, root, {}).Ok?
    requires later.flows.Keys == st.flows.Keys && forall x :: x in st.flows ==> later.flows[x].parent == st.flows[x].parent
    requires v in later.versions && later.versions[v].flowId == root
    requires later.versions[v].snapshot == Some(FullTree(st, root, {}).value)
    ensures RestoreVersion(later, root, v).Ok?
    ensures var full := FullTree(st, root, {}).value;
            FullTree(RestoreVersion(later, root, v).value, root, {}) == Ok(full.(edges := Map(NoHandles, full.edges)))
  {
    var full := FullTree(st, root, {}).value;
    PublishedIsRestorable(st, root);
    MirrorsFrame(st.flows, later.flows, full.Children());
    SameParentsSameChildren(st.flows, later.flows, root);
    RestoreThenReread(later, root, v);
    assert full.subflows == Listed(full.Children());
  }
}
