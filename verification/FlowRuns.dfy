/** Whole runs of the version store: every sequence of transactions, from empty tables. */
module FlowRuns {
  import opened Wrappers
  import opened Sequences
  import opened Sorting
  import Strings
  import opened NodeConfigs
  import opened Snapshots
  import opened FlowForest
  import opened FlowTrees
  import opened FlowTransactions
  import opened FlowRestore

  // ----- What is stored is sanitized

  ghost predicate StoredSanitized(st: Store) {
    forall v :: v in st.versions && st.versions[v].snapshot.Some? ==> Sanitized(st.versions[v].snapshot.value)
  }

  ghost predicate AllSanitized(ss: seq<Snapshot>) {
    forall i :: 0 <= i < |ss| ==> Sanitized(ss[i])
  }

  lemma CleanIsSanitized(s: Snapshot)
    requires Clean(s.nodes) && AllSanitized(s.Children())
    ensures Sanitized(s)
  {
    forall i | 0 <= i < |s.nodes| ensures Sanitize(s.nodes[i].nodeType, s.nodes[i].config) == s.nodes[i].config {
      assert ReadNode(s.nodes[i]) == s.nodes[i];
    }
  }

  lemma AssembledIsSanitized(st: Store, id: int, subs: Subflows)
    requires id in st.flows && AllSanitized(if subs.Listed? then subs.items else [])
    ensures Sanitized(Assemble(st, id, subs))
  {
    ContentIsClean(st, id);
    CleanIsSanitized(Assemble(st, id, subs));
  }

  lemma {:induction false} SaveTreesSanitized(st: Store, ids: seq<int>, visited: set<int>)
    requires forall c :: c in ids ==> c in st.flows
    ensures AllSanitized(SaveTrees(st, ids, visited))
    decreases st.flows.Keys - visited, |ids|
  {
    if ids != [] {
      var c := ids[0];
      SaveTreesSanitized(st, ids[1..], visited);
      if c !in visited && VersionOf(st, c).Some? {
        SaveTreesSanitized(st, ChildIds(st.flows, c), visited + {c});
        var kids, later := SaveTrees(st, ChildIds(st.flows, c), visited + {c}), SaveTrees(st, ids[1..], visited);
        AssembledIsSanitized(st, c, Packed(kids));
        SanitizedCons(Assemble(st, c, Packed(kids)), later);
      }
    }
  }

  lemma SanitizedCons(s: Snapshot, ss: seq<Snapshot>)
    requires Sanitized(s) && AllSanitized(ss)
    ensures AllSanitized([s] + ss)
  {
  }

  lemma AsChildSanitized(s: Snapshot)
    requires Sanitized(s)
    ensures Sanitized(AsChild(s))
  {
    assert AsChild(s).Children() == s.Children();
  }

  lemma {:induction false} FullTreeSanitized(st: Store, id: int, visited: set<int>)
    requires FullTree(st, id, visited).Ok?
    ensures Sanitized(FullTree(st, id, visited).value)
    decreases st.flows.Keys - visited, 0
  {
    var subs := FullTrees(st, ChildIds(st.flows, id), visited + {id}).value;
    FullTreesSanitized(st, ChildIds(st.flows, id), visited + {id});
    forall i | 0 <= i < |subs| ensures Sanitized(Map(AsChild, subs)[i]) { AsChildSanitized(subs[i]); }
    AssembledIsSanitized(st, id, Listed(Map(AsChild, subs)));
  }

  lemma {:induction false} FullTreesSanitized(st: Store, ids: seq<int>, visited: set<int>)
    requires FullTrees(st, ids, visited).Ok?
    ensures AllSanitized(FullTrees(st, ids, visited).value)
    decreases st.flows.Keys - visited, 1 + |ids|
  {
    if ids != [] {
      FullTreeSanitized(st, ids[0], visited);
      FullTreesSanitized(st, ids[1..], visited);
    }
  }

  lemma NextSanitized(st: Store, id: int, flow: Flow, nodes: seq<NodeDto>, edges: seq<EdgeDto>)
    ensures Sanitized(NextSnapshot(st, id, flow, nodes, edges))
  {
    PayloadIsClean(nodes);
    SaveTreesSanitized(st, ChildIds(st.flows, id), {id});
    CleanIsSanitized(NextSnapshot(st, id, flow, nodes, edges));
  }

  lemma AddKeepsSanitized(st: Store, f: int, snapshot: Snapshot, nodes: seq<NodeDto>, edges: seq<EdgeDto>)
    requires StoredSanitized(st) && Sanitized(snapshot) && f in st.flows
    ensures StoredSanitized(AddVersion(st, f, snapshot, nodes, edges))
  {
  }

  lemma ReplaceKeepsSanitized(st: Store, v: int, snapshot: Snapshot, nodes: seq<NodeDto>, edges: seq<EdgeDto>)
    requires StoredSanitized(st) && Sanitized(snapshot) && v in st.versions
    ensures StoredSanitized(ReplaceVersion(st, v, snapshot, nodes, edges))
  {
  }

  lemma ReplaceTreeKeepsSanitized(st: Store, v: int, root: int)
    requires StoredSanitized(st) && v in st.versions && FullTree(st, root, {}).Ok?
    ensures StoredSanitized(ReplaceTree(st, v, FullTree(st, root, {}).value))
  {
    var full := FullTree(st, root, {}).value;
    FullTreeSanitized(st, root, {});
    ReplaceKeepsSanitized(st, v, full, Map(NodeToDto, full.nodes), Map(EdgeToDto, full.edges));
  }

  lemma AddTreeKeepsSanitized(st: Store, root: int)
    requires StoredSanitized(st) && FullTree(st, root, {}).Ok?
    ensures StoredSanitized(AddTree(st, root, FullTree(st, root, {}).value))
  {
    var full := FullTree(st, root, {}).value;
    FullTreeSanitized(st, root, {});
    AddKeepsSanitized(st, root, full, Map(NodeToDto, full.nodes), Map(EdgeToDto, full.edges));
  }

  lemma SyncCurrentKeepsSanitized(st: Store, root: int)
    requires StoredSanitized(st) && root in st.flows && SyncCurrent(st, root).Ok?
    ensures StoredSanitized(SyncCurrent(st, root).value)
  {
    if SyncCurrent(st, root).value != st { ReplaceTreeKeepsSanitized(st, VersionOf(st, root).value, root); }
  }

  lemma SyncNewestKeepsSanitized(st: Store, root: int)
    requires StoredSanitized(st) && root in st.flows && SyncNewest(st, root).Ok?
    ensures StoredSanitized(SyncNewest(st, root).value)
  {
    AddTreeKeepsSanitized(st, root);
    if Latest(st.versions, root).Some? { ReplaceTreeKeepsSanitized(st, Latest(st.versions, root).value, root); }
  }

  lemma SyncKeepsSanitized(st: Store, id: int, autoSave: bool)
    requires StoredSanitized(st) && SyncRoot(st, id, autoSave).Ok?
    ensures StoredSanitized(SyncRoot(st, id, autoSave).value)
  {
    RootOfDecides(st.flows, id);
    var root := RootOf(st.flows, id, {}).value;
    if autoSave { SyncCurrentKeepsSanitized(st, root); } else { SyncNewestKeepsSanitized(st, root); }
  }

  lemma UpdateKeepsSanitized(st: Store, id: int, dto: UpdateDto, accepted: bool)
    requires Valid(st) && StoredSanitized(st) && Update(st, id, dto, accepted).Ok?
    ensures StoredSanitized(Update(st, id, dto, accepted).value)
  {
    var v := Latest(st.versions, id).value;
    if !Unchanged(st, id, v, dto) {
      var flow := Reparented(st.flows[id], dto, v);
      var nodes := PreparedNodes(dto.nodes, flow.parent);
      var next := NextSnapshot(st, id, flow, nodes, dto.edges);
      var st1 := WriteUpdate(st, id, v, flow, next, nodes, dto);
      var moved := st.(flows := st.flows[id := flow]);
      NextSanitized(st, id, flow, nodes, dto.edges);
      ReplaceKeepsSanitized(moved, v, next, nodes, dto.edges);
      AddKeepsSanitized(moved, id, next, nodes, dto.edges);
      if flow.parent.Some? { SyncKeepsSanitized(st1, id, dto.autoSave); }
    }
  }

  lemma {:induction false} PublishKeeps(st: Store, id: int)
    requires Valid(st) && StoredSanitized(st) && CreateVersion(st, id).Ok?
    ensures Valid(CreateVersion(st, id).value.0) && StoredSanitized(CreateVersion(st, id).value.0)
  {
    RootOfDecides(st.flows, id);
    var root := RootOf(st.flows, id, {}).value;
    RootOfIsRoot(st.flows, id);
    AddTreeKeepsTree(st, root, FullTree(st, root, {}).value);
    AddTreeKeepsSanitized(st, root);
  }

  lemma RootOfIsRoot(flows: Flows, x: int)
    requires RootOf(flows, x, {}).Ok?
    ensures IsRoot(flows, RootOf(flows, x, {}).value)
  {
    RootOfEndsAtRoot(flows, x, {});
  }

  lemma {:induction false} RootOfEndsAtRoot(flows: Flows, x: int, seen: set<int>)
    requires RootOf(flows, x, seen).Ok?
    ensures IsRoot(flows, RootOf(flows, x, seen).value)
    decreases flows.Keys - seen
  {
    if flows[x].parent.Some? { RootOfEndsAtRoot(flows, flows[x].parent.value, seen + {x}); }
  }

  lemma {:induction false} RestoreSubflowsKeepsSanitized(st: Store, ss: seq<Snapshot>)
    requires StoredSanitized(st) && AllSanitized(ss) && RestoreSubflows(st, ss).Ok?
    ensures StoredSanitized(RestoreSubflows(st, ss).value)
    decreases ForestSize(ss)
  {
    if ss != [] {
      TreeSizeOfChildren(ss[0]);
      if ss[0].Id() <= 0 {
        RestoreSubflowsKeepsSanitized(st, ss[1..]);
      } else {
        var st1 := RestoreOne(st, ss[0]);
        OneKeepsSanitized(st, ss[0]);
        RestoreSubflowsKeepsSanitized(st1, ss[0].Children());
        RestoreSubflowsKeepsSanitized(RestoreSubflows(st1, ss[0].Children()).value, ss[1..]);
      }
    }
  }

  lemma OneKeepsSanitized(st: Store, s: Snapshot)
    requires StoredSanitized(st) && Sanitized(s) && s.Id() in st.flows
    ensures StoredSanitized(RestoreOne(st, s))
  {
    var stored := Snapshot(Some(s.Id()), s.name, s.nodes, s.edges, Absent);
    assert Sanitized(stored);
    AddKeepsSanitized(st, s.Id(), stored, Map(NodeToDto, s.nodes), Map(EdgeToDto, s.edges));
  }

  lemma RestoreKeepsSanitized(st: Store, id: int, v: int)
    requires StoredSanitized(st) && RestoreVersion(st, id, v).Ok?
    ensures StoredSanitized(RestoreVersion(st, id, v).value)
  {
    var s := st.versions[v].snapshot.value;
    AddKeepsSanitized(st, id, s, Map(RestoredNode, s.nodes), Map(RestoredEdge, s.edges));
    RestoreSubflowsKeepsSanitized(RestoreRoot(st, id, s), s.Children());
  }

  // ----- Every flow has a version, and a version's node rows are its snapshot's nodes

  predicate RowsMatch(st: Store, v: int)
    requires v in st.versions
  {
    st.versions[v].snapshot.Some? && NodesOf(st, v) == st.versions[v].snapshot.value.nodes
  }

  ghost predicate AllRowsMatch(st: Store) {
    forall v :: v in st.versions ==> RowsMatch(st, v)
  }

  ghost predicate AllVersioned(st: Store, except: set<int>) {
    forall f :: f in st.flows && f !in except ==> Latest(st.versions, f).Some?
  }

  ghost predicate Stocked(st: Store) {
    AllRowsMatch(st) && AllVersioned(st, {})
  }

  lemma CleanReadsAsIs(nodes: seq<Node>)
    requires Clean(nodes)
    ensures Map(ReadNode, nodes) == nodes
  {
  }

  lemma SanitizedIsClean(s: Snapshot)
    requires Sanitized(s)
    ensures Clean(s.nodes)
  {
  }

  lemma {:induction false} AddedStocked(st: Store, st': Store, f: int, snapshot: Snapshot, nodes: seq<Node>, edges: seq<Edge>)
    requires Valid(st) && AllRowsMatch(st) && AllVersioned(st, {f})
    requires Added(st, st', f, snapshot, nodes, edges) && nodes == snapshot.nodes && Clean(nodes)
    ensures Stocked(st')
  {
    AddedLatest(st, st', f, snapshot, nodes, edges);
    CleanReadsAsIs(nodes);
    forall v | v in st'.versions ensures RowsMatch(st', v) {
      if v != st.nextId { assert RowsMatch(st, v); }
    }
  }

  lemma {:induction false} ReplacedStocked(st: Store, st': Store, v: int, snapshot: Snapshot, nodes: seq<Node>, edges: seq<Edge>)
    requires Valid(st) && Stocked(st)
    requires Replaced(st, st', v, snapshot, nodes, edges) && nodes == snapshot.nodes && Clean(nodes)
    ensures Stocked(st')
  {
    ReplacedLatest(st, st', v, snapshot, nodes, edges);
    CleanReadsAsIs(nodes);
    forall w | w in st'.versions ensures RowsMatch(st', w) {
      if w != v { assert RowsMatch(st, w); }
    }
  }

  lemma {:induction false} ReplaceTreeStocked(st: Store, root: int, v: int)
    requires Valid(st) && Stocked(st) && IsRoot(st.flows, root) && VersionOf(st, root) == Some(v) && v in st.versions && FullTree(st, root, {}).Ok?
    ensures Stocked(ReplaceTree(st, v, FullTree(st, root, {}).value))
  {
    var full := FullTree(st, root, {}).value;
    RootContent(st, root, full);
    ReplaceTreeKeepsTree(st, root, v, full);
    ReplacedStocked(st, ReplaceTree(st, v, full), v, full, full.nodes, full.edges);
  }

  lemma {:induction false} AddTreeStocked(st: Store, root: int)
    requires Valid(st) && Stocked(st) && IsRoot(st.flows, root) && FullTree(st, root, {}).Ok?
    ensures Stocked(AddTree(st, root, FullTree(st, root, {}).value))
  {
    var full := FullTree(st, root, {}).value;
    RootContent(st, root, full);
    AddTreeKeepsTree(st, root, full);
    AddedStocked(st, AddTree(st, root, full), root, full, full.nodes, full.edges);
  }

  lemma {:induction false} SyncCurrentStocked(st: Store, root: int)
    requires Valid(st) && Stocked(st) && IsRoot(st.flows, root) && SyncCurrent(st, root).Ok?
    ensures Stocked(SyncCurrent(st, root).value)
  {
    if SyncCurrent(st, root).value != st { ReplaceTreeStocked(st, root, VersionOf(st, root).value); }
  }

  lemma {:induction false} SyncNewestStocked(st: Store, root: int)
    requires Valid(st) && Stocked(st) && IsRoot(st.flows, root) && SyncNewest(st, root).Ok?
    ensures Stocked(SyncNewest(st, root).value)
  {
    SyncNewestCases(st, root);
    var full, v, st' := FullTree(st, root, {}).value, Latest(st.versions, root), SyncNewest(st, root).value;
    if v.Some? && st' == ReplaceTree(st, v.value, full) {
      ReplaceTreeStocked(st, root, v.value);
    } else if st' != st {
      AddTreeStocked(st, root);
    }
  }

  lemma {:induction false} SyncNewestCases(st: Store, root: int)
    requires root in st.flows && SyncNewest(st, root).Ok?
    ensures FullTree(st, root, {}).Ok?
    ensures var full, v, st' := FullTree(st, root, {}).value, Latest(st.versions, root), SyncNewest(st, root).value;
            st' == st || st' == AddTree(st, root, full) || (v.Some? && st' == ReplaceTree(st, v.value, full))
  {
  }

  lemma {:induction false} SyncRootStocked(st: Store, id: int, autoSave: bool)
    requires Valid(st) && Stocked(st) && SyncRoot(st, id, autoSave).Ok?
    ensures Stocked(SyncRoot(st, id, autoSave).value)
  {
    RootOfIsRoot(st.flows, id);
    var root := RootOf(st.flows, id, {}).value;
    if autoSave { SyncCurrentStocked(st, root); } else { SyncNewestStocked(st, root); }
  }

  lemma {:induction false} WriteStocked(st: Store, id: int, v: int, flow: Flow, next: Snapshot, nodes: seq<NodeDto>, dto: UpdateDto)
    requires Valid(st) && Stocked(st) && id in st.flows && Latest(st.versions, id) == Some(v) && flow.current == Some(v)
    requires next.nodes == Map(NodeOf, nodes)
    ensures Stocked(WriteUpdate(st, id, v, flow, next, nodes, dto))
  {
    var moved := st.(flows := st.flows[id := flow]);
    FlowSaved(st, id, flow);
    MovedStocked(st, id, flow);
    PayloadIsClean(nodes);
    if dto.autoSave || StructurallyEqual(Some(StoredOrEmpty(st, Some(v))), Some(next)) {
      ReplaceIsReplaced(moved, v, next, nodes, dto.edges);
      ReplacedStocked(moved, ReplaceVersion(moved, v, next, nodes, dto.edges), v, next, next.nodes, Map(RowEdge, dto.edges));
    } else {
      AddIsAdded(moved, id, next, nodes, dto.edges);
      AddedStocked(moved, AddVersion(moved, id, next, nodes, dto.edges), id, next, next.nodes, Map(RowEdge, dto.edges));
    }
  }

  lemma {:induction false} MovedStocked(st: Store, id: int, flow: Flow)
    requires Stocked(st) && id in st.flows
    ensures Stocked(st.(flows := st.flows[id := flow]))
  {
    var moved := st.(flows := st.flows[id := flow]);
    forall v | v in moved.versions ensures RowsMatch(moved, v) { assert RowsMatch(st, v); }
  }

  lemma {:induction false} UpdateStocked(st: Store, id: int, dto: UpdateDto, accepted: bool)
    requires Valid(st) && Stocked(st) && Update(st, id, dto, accepted).Ok?
    ensures Stocked(Update(st, id, dto, accepted).value)
  {
    var v := Latest(st.versions, id).value;
    if !Unchanged(st, id, v, dto) {
      var flow := Reparented(st.flows[id], dto, v);
      var nodes := PreparedNodes(dto.nodes, flow.parent);
      var next := NextSnapshot(st, id, flow, nodes, dto.edges);
      WriteUpdateWrites(st, id, v, flow, next, nodes, dto);
      WriteStocked(st, id, v, flow, next, nodes, dto);
      if flow.parent.Some? { SyncRootStocked(WriteUpdate(st, id, v, flow, next, nodes, dto), id, dto.autoSave); }
    }
  }

  lemma {:induction false} PublishStocked(st: Store, id: int)
    requires Valid(st) && Stocked(st) && CreateVersion(st, id).Ok?
    ensures Stocked(CreateVersion(st, id).value.0)
  {
    RootOfIsRoot(st.flows, id);
    PublishCases(st, id);
    if CreateVersion(st, id).value.0 != st { AddTreeStocked(st, RootOf(st.flows, id, {}).value); }
  }

  lemma {:induction false} PublishCases(st: Store, id: int)
    requires CreateVersion(st, id).Ok?
    ensures RootOf(st.flows, id, {}).Ok? && FullTree(st, RootOf(st.flows, id, {}).value, {}).Ok?
    ensures var root, st' := RootOf(st.flows, id, {}).value, CreateVersion(st, id).value.0;
            st' == st || st' == AddTree(st, root, FullTree(st, root, {}).value)
  {
  }

  lemma {:induction false} CreateStocked(st: Store, id: int, dto: UpdateDto)
    requires Valid(st) && Stocked(st) && id > 0 && id !in st.flows
    ensures Stocked(Create(st, id, dto, true).value)
  {
    var flow := Flow(dto.name, dto.parent, None);
    var nodes := PreparedNodes(dto.nodes, dto.parent);
    var st0 := st.(flows := st.flows[id := flow]);
    var next := NextSnapshot(st0, id, flow, nodes, dto.edges);
    assert Valid(st0);
    forall v | v in st0.versions ensures RowsMatch(st0, v) { assert RowsMatch(st, v); }
    PayloadIsClean(nodes);
    AddIsAdded(st0, id, next, nodes, dto.edges);
    AddedStocked(st0, AddVersion(st0, id, next, nodes, dto.edges), id, next, next.nodes, Map(RowEdge, dto.edges));
  }

  lemma {:induction false} RenamedStocked(st: Store, f: int, name: Option<string>)
    requires Stocked(st) && f in st.flows
    ensures Stocked(Renamed(st, f, name))
  {
    MovedStocked(st, f, st.flows[f].(name := name.GetOr(st.flows[f].name)));
  }

  lemma {:induction false} AddRestoredStocked(st: Store, f: int, snapshot: Snapshot, name: Option<string>, nodes: seq<NodeDto>, edges: seq<EdgeDto>)
    requires Valid(st) && Stocked(st) && f in st.flows && Clean(snapshot.nodes) && Map(NodeOf, nodes) == snapshot.nodes
    ensures var st' := Renamed(AddVersion(st, f, snapshot, nodes, edges), f, name); Valid(st') && Stocked(st')
  {
    AddIsAdded(st, f, snapshot, nodes, edges);
    var st1 := AddVersion(st, f, snapshot, nodes, edges);
    AddedStocked(st, st1, f, snapshot, snapshot.nodes, Map(RowEdge, edges));
    AddThenRename(st, f, snapshot, name, nodes, edges);
    RenamedStocked(st1, f, name);
  }

  lemma {:induction false} RestoreSubflowsStocked(st: Store, ss: seq<Snapshot>)
    requires Valid(st) && Stocked(st) && AllSanitized(ss) && RestoreSubflows(st, ss).Ok?
    ensures Valid(RestoreSubflows(st, ss).value) && Stocked(RestoreSubflows(st, ss).value)
    decreases ForestSize(ss)
  {
    if ss != [] {
      var s := ss[0];
      TreeSizeOfChildren(s);
      if s.Id() <= 0 {
        RestoreSubflowsStocked(st, ss[1..]);
      } else {
        OneStocked(st, s);
        var st1 := RestoreOne(st, s);
        RestoreSubflowsStocked(st1, s.Children());
        RestoreSubflowsStocked(RestoreSubflows(st1, s.Children()).value, ss[1..]);
      }
    }
  }

  lemma {:induction false} OneStocked(st: Store, s: Snapshot)
    requires Valid(st) && Stocked(st) && Sanitized(s) && s.Id() in st.flows
    ensures Valid(RestoreOne(st, s)) && Stocked(RestoreOne(st, s))
  {
    SanitizedIsClean(s);
    CleanReadsAsIs(s.nodes);
    SubflowRows(s);
    AddRestoredStocked(st, s.Id(), Snapshot(Some(s.Id()), s.name, s.nodes, s.edges, Absent), s.name, Map(NodeToDto, s.nodes), Map(EdgeToDto, s.edges));
  }

  lemma {:induction false} RestoreStocked(st: Store, id: int, v: int)
    requires Valid(st) && Stocked(st) && StoredSanitized(st) && RestoreVersion(st, id, v).Ok?
    ensures Stocked(RestoreVersion(st, id, v).value)
  {
    var s := st.versions[v].snapshot.value;
    SanitizedIsClean(s);
    CleanReadsAsIs(s.nodes);
    RootRows(s);
    AddRestoredStocked(st, id, s, s.name, Map(RestoredNode, s.nodes), Map(RestoredEdge, s.edges));
    RestoreSubflowsStocked(RestoreRoot(st, id, s), s.Children());
  }

  lemma {:induction false} WithoutStocked(st: Store, gone: set<int>)
    requires Valid(st) && Stocked(st)
    ensures Stocked(Without(st, gone))
  {
    LatestWithoutAll(st, gone);
    var st' := Without(st, gone);
    forall v | v in st'.versions ensures RowsMatch(st', v) {
      assert RowsMatch(st, v);
      assert NodesOf(st', v) == NodesOf(st, v);
    }
  }

  // ----- Runs

  /** A transaction; ids of new flows are the database's choice. A submenu's new flow is a `CreateFlow` with one start node. */
  datatype Op =
    | CreateFlow(id: int, dto: UpdateDto, accepted: bool)
    | UpdateFlow(id: int, dto: UpdateDto, accepted: bool)
    | Publish(id: int)
    | Restore(id: int, version: int)
    | Rename(id: int, name: string)
    | Remove(id: int)

  ghost function Subtree(flows: Flows, id: int): set<int> { set x | x in flows && Descends(flows, id, x) }

  function Kept<T>(st: Store, r: Result<Store, T>): Store {
    if r.Ok? then r.value else st
  }

  /** The tables after a transaction; one that fails is rolled back. */
  ghost function Do(st: Store, op: Op): Store {
    match op
    case CreateFlow(id, dto, accepted) => if id > 0 && id !in st.flows then Kept(st, Create(st, id, dto, accepted)) else st
    case UpdateFlow(id, dto, accepted) => Kept(st, Update(st, id, dto, accepted))
    case Publish(id) => if CreateVersion(st, id).Ok? then CreateVersion(st, id).value.0 else st
    case Restore(id, v) => Kept(st, RestoreVersion(st, id, v))
    case Rename(id, name) => if Strings.Trim(name) != "" && id in st.flows then Renamed(st, id, Some(Strings.Trim(name))) else st
    case Remove(id) => Without(st, Subtree(st.flows, id))
  }

  const Empty := Store(map[], map[], map[], map[], 1)

  ghost function After(ops: seq<Op>): Store {
    if ops == [] then Empty else Do(After(ops[..|ops| - 1]), ops[|ops| - 1])
  }

  lemma CreateKeepsSanitized(st: Store, id: int, dto: UpdateDto)
    requires StoredSanitized(st)
    ensures StoredSanitized(Create(st, id, dto, true).value)
  {
    var flow := Flow(dto.name, dto.parent, None);
    var nodes := PreparedNodes(dto.nodes, dto.parent);
    var st0 := st.(flows := st.flows[id := flow]);
    NextSanitized(st0, id, flow, nodes, dto.edges);
    AddKeepsSanitized(st0, id, NextSnapshot(st0, id, flow, nodes, dto.edges), nodes, dto.edges);
  }

  lemma {:induction false} DoStocks(st: Store, op: Op)
    requires Valid(st) && StoredSanitized(st) && Stocked(st)
    ensures Stocked(Do(st, op))
  {
    match op
    case CreateFlow(id, dto, accepted) => if id > 0 && id !in st.flows { CreateStocked(st, id, dto); }
    case UpdateFlow(id, dto, accepted) => if Update(st, id, dto, accepted).Ok? { UpdateStocked(st, id, dto, accepted); }
    case Publish(id) => if CreateVersion(st, id).Ok? { PublishStocked(st, id); }
    case Restore(id, v) => if RestoreVersion(st, id, v).Ok? { RestoreStocked(st, id, v); }
    case Rename(id, name) => if id in st.flows { RenamedStocked(st, id, Some(Strings.Trim(name))); }
    case Remove(id) => WithoutStocked(st, Subtree(st.flows, id));
  }

  lemma {:induction false} DoKeeps(st: Store, op: Op)
    requires Valid(st) && StoredSanitized(st)
    ensures Valid(Do(st, op)) && StoredSanitized(Do(st, op))
  {
    match op
    case CreateFlow(id, dto, accepted) =>
      if id > 0 && id !in st.flows {
        CreateKeepsValid(st, id, dto);
        CreateKeepsSanitized(st, id, dto);
      }
    case UpdateFlow(id, dto, accepted) =>
      if Update(st, id, dto, accepted).Ok? {
        UpdateKeepsValid(st, id, dto, accepted);
        UpdateKeepsSanitized(st, id, dto, accepted);
      }
    case Publish(id) => if CreateVersion(st, id).Ok? { PublishKeeps(st, id); }
    case Restore(id, v) =>
      if RestoreVersion(st, id, v).Ok? {
        RestoreVersionValid(st, id, v);
        RestoreKeepsSanitized(st, id, v);
      }
    case Rename(id, name) => if id in st.flows { RenamedValid(st, id, Some(Strings.Trim(name))); }
    case Remove(id) => WithoutKeepsValid(st, Subtree(st.flows, id));
  }

  /**
   * Whatever transactions ran: every flow has a version and points at its highest-numbered one, every
   * stored snapshot is sanitized, and every version's node rows are its snapshot's nodes.
   */
  lemma {:induction false} EveryRunKeeps(ops: seq<Op>)
    ensures Valid(After(ops)) && StoredSanitized(After(ops)) && Stocked(After(ops))
  {
    if ops != [] {
      EveryRunKeeps(ops[..|ops| - 1]);
      DoKeeps(After(ops[..|ops| - 1]), ops[|ops| - 1]);
      DoStocks(After(ops[..|ops| - 1]), ops[|ops| - 1]);
    }
  }

  lemma {:induction false} StockedIsVersioned(st: Store, root: int)
    requires Valid(st) && Stocked(st)
    ensures DescendantsVersioned(st, root)
  {
  }

  // ----- When an update succeeds, and when it writes

  /** The snapshot stored with a flow's newest version. */
  function StoredOf(st: Store, f: int): Option<Snapshot> {
    match Latest(st.versions, f)
    case Some(v) => st.versions[v].snapshot
    case None => None
  }

  lemma ReplacedElsewhere(st: Store, st': Store, v: int, snapshot: Snapshot, nodes: seq<Node>, edges: seq<Edge>, f: int)
    requires Valid(st) && Replaced(st, st', v, snapshot, nodes, edges) && st.versions[v].flowId != f
    ensures StoredOf(st', f) == StoredOf(st, f)
  {
    ReplacedLatest(st, st', v, snapshot, nodes, edges);
  }

  lemma AddedElsewhere(st: Store, st': Store, g: int, snapshot: Snapshot, nodes: seq<Node>, edges: seq<Edge>, f: int)
    requires Valid(st) && Added(st, st', g, snapshot, nodes, edges) && g != f
    ensures StoredOf(st', f) == StoredOf(st, f)
  {
    AddedLatest(st, st', g, snapshot, nodes, edges);
  }

  lemma ReplaceTreeElsewhere(st: Store, root: int, v: int, f: int)
    requires Valid(st) && IsRoot(st.flows, root) && f != root && VersionOf(st, root) == Some(v) && v in st.versions && FullTree(st, root, {}).Ok?
    ensures StoredOf(ReplaceTree(st, v, FullTree(st, root, {}).value), f) == StoredOf(st, f)
  {
    var full := FullTree(st, root, {}).value;
    ReplaceTreeKeepsTree(st, root, v, full);
    ReplacedElsewhere(st, ReplaceTree(st, v, full), v, full, full.nodes, full.edges, f);
  }

  lemma AddTreeElsewhere(st: Store, root: int, f: int)
    requires Valid(st) && IsRoot(st.flows, root) && f != root && FullTree(st, root, {}).Ok?
    ensures StoredOf(AddTree(st, root, FullTree(st, root, {}).value), f) == StoredOf(st, f)
  {
    var full := FullTree(st, root, {}).value;
    AddTreeKeepsTree(st, root, full);
    AddedElsewhere(st, AddTree(st, root, full), root, full, full.nodes, full.edges, f);
  }

  lemma SyncCurrentElsewhere(st: Store, root: int, f: int)
    requires Valid(st) && IsRoot(st.flows, root) && f != root
    ensures SyncCurrent(st, root).Ok? && StoredOf(SyncCurrent(st, root).value, f) == StoredOf(st, f)
  {
    SyncCurrentFresh(st, root);
    if SyncCurrent(st, root).value != st { ReplaceTreeElsewhere(st, root, VersionOf(st, root).value, f); }
  }

  lemma SyncNewestElsewhere(st: Store, root: int, f: int)
    requires Valid(st) && IsRoot(st.flows, root) && f != root
    ensures SyncNewest(st, root).Ok? && StoredOf(SyncNewest(st, root).value, f) == StoredOf(st, f)
  {
    SyncNewestFresh(st, root);
    AddTreeElsewhere(st, root, f);
    var v := Latest(st.versions, root);
    if v.Some? { ReplaceTreeElsewhere(st, root, v.value, f); }
  }

  lemma SyncRootElsewhere(st: Store, id: int, autoSave: bool)
    requires Valid(st) && id in st.flows && st.flows[id].parent.Some?
    ensures SyncRoot(st, id, autoSave).Ok? <==> RootOf(st.flows, id, {}).Ok?
    ensures SyncRoot(st, id, autoSave).Ok? ==> StoredOf(SyncRoot(st, id, autoSave).value, id) == StoredOf(st, id)
  {
    if RootOf(st.flows, id, {}).Ok? {
      RootOfIsRoot(st.flows, id);
      var root := RootOf(st.flows, id, {}).value;
      if autoSave { SyncCurrentElsewhere(st, root, id); } else { SyncNewestElsewhere(st, root, id); }
    }
  }

  /** The flow has a version and its stored snapshot differs from what the payload would store. */
  predicate Differs(st: Store, id: int, dto: UpdateDto) {
    id in st.flows && Latest(st.versions, id).Some? && !Unchanged(st, id, Latest(st.versions, id).value, dto)
  }

  /** The parent the flow has after the update. */
  function ParentAfter(st: Store, id: int, dto: UpdateDto): Option<int>
    requires id in st.flows
  {
    if dto.parent.Some? then dto.parent else st.flows[id].parent
  }

  /** With that parent the flow is a root or still has one. */
  predicate Rooted(st: Store, id: int, dto: UpdateDto)
    requires id in st.flows
  {
    var parent := ParentAfter(st, id, dto);
    parent.None? || RootOf(st.flows[id := st.flows[id].(parent := parent)], id, {}).Ok?
  }

  lemma WrittenRooted(st: Store, st1: Store, id: int, flow: Flow, next: Snapshot, nodes: seq<Node>, edges: seq<Edge>, dto: UpdateDto)
    requires id in st.flows && flow.parent == ParentAfter(st, id, dto) && Written(st, st1, id, flow, next, nodes, edges)
    ensures flow.parent.Some? ==> (RootOf(st1.flows, id, {}).Ok? <==> Rooted(st, id, dto))
  {
    var moved := st.flows[id := st.flows[id].(parent := flow.parent)];
    assert moved.Keys == st1.flows.Keys;
    SameParentsSameRoot(moved, st1.flows, id, {});
  }

  /** An update that differs succeeds exactly when the flow is rooted, and then stores its snapshot: it never leaves the tables as they were. */
  lemma DifferingUpdate(st: Store, id: int, dto: UpdateDto)
    requires Valid(st) && Differs(st, id, dto)
    ensures var r := Update(st, id, dto, true);
            && (r.Ok? <==> Rooted(st, id, dto))
            && (r.Ok? ==> r.value != st && id in r.value.flows && r.value.flows[id].parent == ParentAfter(st, id, dto))
  {
    var v := Latest(st.versions, id).value;
    var flow := Reparented(st.flows[id], dto, v);
    var nodes := PreparedNodes(dto.nodes, flow.parent);
    var next := NextSnapshot(st, id, flow, nodes, dto.edges);
    var st1 := WriteUpdate(st, id, v, flow, next, nodes, dto);
    WriteUpdateWrites(st, id, v, flow, next, nodes, dto);
    WrittenRooted(st, st1, id, flow, next, Map(NodeOf, nodes), Map(RowEdge, dto.edges), dto);
    assert StoredOf(st1, id) == Some(next) && StoredOf(st, id) != Some(next);
    if flow.parent.Some? {
      SyncRootElsewhere(st1, id, dto.autoSave);
      if Rooted(st, id, dto) { SyncRootFresh(st1, id, dto.autoSave); }
    }
  }

  // ----- Main results, over every run

  /**
   * After any run, an update of a subflow whose payload differs from what is stored, autosaved or not,
   * succeeds and leaves the root's newest snapshot equal to the tree in the rows.
   */
  lemma {:induction false} SubflowUpdateInEveryRun(ops: seq<Op>, id: int, dto: UpdateDto)
    ensures var st := After(ops);
            Differs(st, id, dto) && ParentAfter(st, id, dto).Some? && Rooted(st, id, dto) ==>
              var r := Update(st, id, dto, true);
              r.Ok? && r.value != st && RootOf(r.value.flows, id, {}).Ok? && RootFresh(r.value, RootOf(r.value.flows, id, {}).value)
  {
    var st := After(ops);
    if Differs(st, id, dto) && ParentAfter(st, id, dto).Some? && Rooted(st, id, dto) {
      EveryRunKeeps(ops);
      DifferingUpdate(st, id, dto);
      SubflowUpdateFreshensRoot(st, id, dto, true);
    }
  }

  /**
   * After any run, publishing right after a root update whose payload differs from what is stored
   * stores nothing if and only if every edge has one branch key and the flow does more than hang up.
   */
  lemma {:induction false} PublishAfterWritingUpdate(ops: seq<Op>, id: int, dto: UpdateDto)
    ensures var st := After(ops);
            Differs(st, id, dto) && ParentAfter(st, id, dto).None? ==>
              && Update(st, id, dto, true).Ok?
              && var st' := Update(st, id, dto, true).value;
                 && FullTree(st', id, {}).Ok? && Latest(st'.versions, id).Some?
                 && (CreateVersion(st', id) == Ok((st', Latest(st'.versions, id).value))
                     <==> (forall e :: e in dto.edges ==> BranchKeyed(e)) && !HangsUpImmediately(FullTree(st', id, {}).value))
  {
    var st := After(ops);
    if Differs(st, id, dto) && ParentAfter(st, id, dto).None? {
      EveryRunKeeps(ops);
      DifferingUpdate(st, id, dto);
      CreateVersionAfterUpdate(st, id, dto, true);
      UpdateKeepsValid(st, id, dto, true);
      UpdateStocked(st, id, dto, true);
      StockedIsVersioned(Update(st, id, dto, true).value, id);
    }
  }

  /** The rows and the name of the flow already say what the payload says. */
  ghost predicate RowsHold(st: Store, id: int, dto: UpdateDto)
    requires id in st.flows
  {
    && st.flows[id].name == dto.name
    && NormalNodes(Content(st, id).0, true) == NormalNodes(Map(NodeOf, PreparedNodes(dto.nodes, None)), true)
    && SortBy(Content(st, id).1, EdgeLe) == SortBy(Map(SnapshotEdge, dto.edges), EdgeLe)
  }

  lemma PayloadsAgreeIff(a: Snapshot, b: Snapshot, ignoreLayout: bool)
    requires Ascending(a.Children()) && Ascending(b.Children())
    ensures Payload(a, ignoreLayout) == Payload(b, ignoreLayout)
       <==> && a.Id() == b.Id() && a.name == b.name
            && NormalNodes(a.nodes, ignoreLayout) == NormalNodes(b.nodes, ignoreLayout)
            && SortBy(a.edges, EdgeLe) == SortBy(b.edges, EdgeLe)
            && SamePayloads(a.Children(), b.Children(), ignoreLayout)
  {
    AscendingPayload(a, ignoreLayout);
    AscendingPayload(b, ignoreLayout);
  }

  /** An update of the root `id` with this payload finds it already stored. */
  ghost predicate Idle(st: Store, id: int, dto: UpdateDto) {
    && IsRoot(st.flows, id) && dto.parent.None?
    && var v := Latest(st.versions, id);
       v.Some? && st.versions[v.value].snapshot.Some? && Unchanged(st, id, v.value, dto)
  }

  lemma {:induction false} IdleMatches(st: Store, id: int, dto: UpdateDto)
    requires StoredSanitized(st) && Idle(st, id, dto)
    ensures var v := Latest(st.versions, id).value;
            var next := NextSnapshot(st, id, Reparented(st.flows[id], dto, v), PreparedNodes(dto.nodes, None), dto.edges);
            Payload(st.versions[v].snapshot.value, true) == Payload(next, true)
  {
    var v := Latest(st.versions, id).value;
    var flow := Reparented(st.flows[id], dto, v);
    NextSanitized(st, id, flow, PreparedNodes(dto.nodes, None), dto.edges);
    ExactImpliesStructural(st.versions[v].snapshot.value, NextSnapshot(st, id, flow, PreparedNodes(dto.nodes, None), dto.edges));
  }

  /** The flow has the payload's name, and its edge rows are the payload's edges. */
  ghost predicate EdgesAndNameHold(st: Store, id: int, dto: UpdateDto)
    requires id in st.flows
  {
    st.flows[id].name == dto.name && SortBy(Content(st, id).1, EdgeLe) == SortBy(Map(SnapshotEdge, dto.edges), EdgeLe)
  }

  /** Where an update is idle, the node rows hold the payload's nodes. */
  lemma {:induction false} IdleNodesHold(st: Store, id: int, dto: UpdateDto)
    requires Valid(st) && StoredSanitized(st) && Stocked(st) && Idle(st, id, dto)
    ensures RowsHold(st, id, dto) <==> EdgesAndNameHold(st, id, dto)
  {
    var v := Latest(st.versions, id).value;
    IdleMatches(st, id, dto);
    assert RowsMatch(st, v);
    assert Content(st, id).0 == st.versions[v].snapshot.value.nodes;
  }

  lemma {:induction false} NextCompares(st: Store, id: int, flow: Flow, dto: UpdateDto)
    requires IsRoot(st.flows, id) && flow.parent.None? && flow.name == dto.name
    ensures FullTree(st, id, {}).Ok?
    ensures Payload(NextSnapshot(st, id, flow, PreparedNodes(dto.nodes, None), dto.edges), true) == Payload(FullTree(st, id, {}).value, true)
       <==> RowsHold(st, id, dto) && DescendantsVersioned(st, id)
  {
    BuildersAgree(st, id, true);
    PayloadsAgreeIff(NextSnapshot(st, id, flow, PreparedNodes(dto.nodes, None), dto.edges), FullTree(st, id, {}).value, true);
  }

  /** Publishing stores nothing exactly when the newest stored snapshot has the structure of the tree in the rows. */
  lemma PublishStoresNothingIff(st: Store, id: int)
    requires Valid(st) && IsRoot(st.flows, id) && Latest(st.versions, id).Some? && FullTree(st, id, {}).Ok?
    ensures var v, full := Latest(st.versions, id).value, FullTree(st, id, {}).value;
            CreateVersion(st, id) == Ok((st, v)) <==> !HangsUpImmediately(full) && StructurallyEqual(st.versions[v].snapshot, Some(full))
  {
    assert RootOf(st.flows, id, {}) == Ok(id);
    assert Latest(st.versions, id).value < st.nextId;
  }

  /**
   * After any run, publishing right after a root update that found nothing to write stores nothing
   * if and only if the flow still has the payload's name, the edge rows are the payload's edges as a
   * snapshot lists them, and the flow does more than hang up.
   */
  lemma {:induction false} PublishAfterIdleUpdate(ops: seq<Op>, id: int, dto: UpdateDto)
    ensures var st := After(ops);
            Idle(st, id, dto) ==>
              && Update(st, id, dto, true) == Ok(st) && FullTree(st, id, {}).Ok?
              && (CreateVersion(st, id) == Ok((st, Latest(st.versions, id).value))
                  <==> EdgesAndNameHold(st, id, dto) && !HangsUpImmediately(FullTree(st, id, {}).value))
  {
    var st := After(ops);
    if Idle(st, id, dto) {
      EveryRunKeeps(ops);
      StockedIsVersioned(st, id);
      IdleNodesHold(st, id, dto);
      IdleMatches(st, id, dto);
      NextCompares(st, id, Reparented(st.flows[id], dto, Latest(st.versions, id).value), dto);
      PublishStoresNothingIff(st, id);
    }
  }

  // ----- An idle update after which publishing stores a version all the same

  function OneEdge(branchKey: Option<string>): EdgeDto { EdgeDto("a", "b", branchKey, Some("1"), None, None) }

  function RootDto(nodes: seq<NodeDto>, edge: EdgeDto): UpdateDto { UpdateDto("menu", None, nodes, [edge], false) }

  lemma NoChildren(flows: Flows, id: int)
    requires forall c :: c in flows ==> flows[c].parent.None?
    ensures ChildIds(flows, id) == []
  {
    assert forall c :: c !in ChildIds(flows, id);
  }

  /** The store after creating one root flow whose edge came without a branch key. */
  function Created(nodes: seq<NodeDto>): Store { Create(Empty, 1, RootDto(nodes, OneEdge(None)), true).value }

  lemma CreatedHolds(nodes: seq<NodeDto>)
    ensures var st := Created(nodes);
            && Valid(st) && IsRoot(st.flows, 1) && Latest(st.versions, 1) == Some(1) && 1 in st.versions
            && st.versions[1].snapshot == Some(Snapshot(Some(1), Some("menu"), Map(NodeOf, PreparedNodes(nodes, None)), [SnapshotEdge(OneEdge(None))], Absent))
            && st.flows[1] == Flow("menu", None, Some(1)) && Content(st, 1).1 == [RowEdge(OneEdge(None))]
            && ChildIds(st.flows, 1) == []
  {
    var dto := RootDto(nodes, OneEdge(None));
    CreateKeepsValid(Empty, 1, dto);
    var st0 := Empty.(flows := map[1 := Flow("menu", None, None)]);
    NoChildren(st0.flows, 1);
    NoChildren(Created(nodes).flows, 1);
    assert Map(SnapshotEdge, dto.edges) == [SnapshotEdge(OneEdge(None))];
    assert Map(RowEdge, dto.edges) == [RowEdge(OneEdge(None))];
  }

  /**
   * Created with an edge that has a condition and no branch key, then saved again with the branch key
   * the snapshot took for it: nothing is written, yet publishing does not find the version up to date,
   * since the row took the condition for its branch key.
   */
  lemma PublishAfterIdleUpdateMayStore(nodes: seq<NodeDto>)
    ensures var st, dto := Created(nodes), RootDto(nodes, OneEdge(Some("default")));
            && (forall e :: e in dto.edges ==> BranchKeyed(e))
            && Update(st, 1, dto, true) == Ok(st)
            && CreateVersion(st, 1) != Ok((st, 1))
  {
    var st, dto := Created(nodes), RootDto(nodes, OneEdge(Some("default")));
    CreatedHolds(nodes);
    SavedAgainIsStored(nodes);
    CreatedTreeDiffers(nodes);
    PublishStoresNothingIff(st, 1);
  }

  lemma CreatedTreeDiffers(nodes: seq<NodeDto>)
    ensures var st := Created(nodes);
            && FullTree(st, 1, {}).Ok? && 1 in st.versions
            && !StructurallyEqual(st.versions[1].snapshot, Some(FullTree(st, 1, {}).value))
  {
    var st, dto := Created(nodes), RootDto(nodes, OneEdge(Some("default")));
    CreatedHolds(nodes);
    SavedAgainIsStored(nodes);
    SingletonEdgesDiffer(st, dto);
    NextCompares(st, 1, Reparented(st.flows[1], dto, 1), dto);
  }

  lemma SavedAgainIsStored(nodes: seq<NodeDto>)
    ensures var st, dto := Created(nodes), RootDto(nodes, OneEdge(Some("default")));
            && 1 in st.flows && 1 in st.versions
            && st.versions[1].snapshot == Some(NextSnapshot(st, 1, Reparented(st.flows[1], dto, 1), PreparedNodes(dto.nodes, None), dto.edges))
            && Update(st, 1, dto, true) == Ok(st)
  {
    var st, dto := Created(nodes), RootDto(nodes, OneEdge(Some("default")));
    CreatedHolds(nodes);
    assert Map(SnapshotEdge, dto.edges) == [SnapshotEdge(OneEdge(None))];
    assert Unchanged(st, 1, 1, dto);
  }

  lemma SingletonEdgesDiffer(st: Store, dto: UpdateDto)
    requires 1 in st.flows && Content(st, 1).1 == [RowEdge(OneEdge(None))] && dto.edges == [OneEdge(Some("default"))]
    ensures !RowsHold(st, 1, dto)
  {
    var row, said := RowEdge(OneEdge(None)), SnapshotEdge(OneEdge(Some("default")));
    assert Map(SnapshotEdge, dto.edges) == [said];
    assert row.branchKey == "1" && said.branchKey == "default" && |"1"| != |"default"|;
    SortOne(row);
    SortOne(said);
    assert [row][0] != [said][0];
  }

  lemma SortOne(e: Edge)
    ensures SortBy([e], EdgeLe) == [e]
  {
    assert [e][1..] == [];
  }
}
