/** What each transaction does to the history of versions: which are added, which are rewritten, which are left alone. */
module FlowHistory {
  import opened Wrappers
  import opened Sequences
  import Strings
  import opened NodeConfigs
  import opened Snapshots
  import opened FlowForest
  import opened FlowTrees
  import opened FlowTransactions
  import opened FlowRestore
  import opened FlowRuns

  // ----- One flow's versions before and after

  ghost function VersionsOf(st: Store, f: int): set<int> {
    set v | v in st.versions && st.versions[v].flowId == f
  }

  /** The version keeps its flow, number, snapshot and rows. */
  ghost predicate Untouched(st: Store, st': Store, v: int) {
    && v in st.versions && v in st'.versions && st'.versions[v] == st.versions[v]
    && RowsOf(st'.nodeRows, v) == RowsOf(st.nodeRows, v) && RowsOf(st'.edgeRows, v) == RowsOf(st.edgeRows, v)
  }

  /** No version of the flow is added, lost or changed. */
  ghost predicate Kept(st: Store, st': Store, f: int) {
    && VersionsOf(st', f) == VersionsOf(st, f) && Latest(st'.versions, f) == Latest(st.versions, f)
    && forall v :: v in VersionsOf(st, f) ==> Untouched(st, st', v)
  }

  /** No version of the flow is added or lost; the newest gets the snapshot, the others are left alone. */
  ghost predicate Rewritten(st: Store, st': Store, f: int, snapshot: Snapshot) {
    && VersionsOf(st', f) == VersionsOf(st, f) && Latest(st'.versions, f) == Latest(st.versions, f)
    && Latest(st.versions, f).Some?
    && var newest := Latest(st.versions, f).value;
       && newest in st.versions && newest in st'.versions && st'.versions[newest] == st.versions[newest].(snapshot := Some(snapshot))
       && forall v :: v in VersionsOf(st, f) && v != newest ==> Untouched(st, st', v)
  }

  /** The flow has exactly one version more, its newest, with the snapshot and the next number; all earlier ones are left alone. */
  ghost predicate Extended(st: Store, st': Store, f: int, snapshot: Snapshot) {
    && Latest(st'.versions, f).Some?
    && var newest := Latest(st'.versions, f).value;
       && newest !in st.versions && newest in st'.versions && VersionsOf(st', f) == VersionsOf(st, f) + {newest}
       && st'.versions[newest].snapshot == Some(snapshot)
       && st'.versions[newest].number == (if Latest(st.versions, f).Some? then st.versions[Latest(st.versions, f).value].number + 1 else 1)
       && forall v :: v in VersionsOf(st, f) ==> Untouched(st, st', v)
  }

  ghost predicate Grows(st: Store, st': Store) { st.versions.Keys <= st'.versions.Keys }

  ghost predicate OthersKept(st: Store, st': Store, flows: set<int>) {
    forall f :: f !in flows ==> Kept(st, st', f)
  }

  // ----- Two transactions, one after the other

  lemma KeptThenKept(a: Store, b: Store, c: Store, f: int)
    requires Kept(a, b, f) && Kept(b, c, f)
    ensures Kept(a, c, f)
  {
  }

  lemma KeptThenRewritten(a: Store, b: Store, c: Store, f: int, s: Snapshot)
    requires Kept(a, b, f) && Rewritten(b, c, f, s)
    ensures Rewritten(a, c, f, s)
  {
    var newest := Latest(a.versions, f).value;
    assert newest in VersionsOf(b, f);
  }

  lemma RewrittenThenKept(a: Store, b: Store, c: Store, f: int, s: Snapshot)
    requires Rewritten(a, b, f, s) && Kept(b, c, f)
    ensures Rewritten(a, c, f, s)
  {
    var newest := Latest(a.versions, f).value;
    assert newest in VersionsOf(b, f);
  }

  lemma KeptThenExtended(a: Store, b: Store, c: Store, f: int, s: Snapshot)
    requires Kept(a, b, f) && Extended(b, c, f, s) && Grows(a, b)
    ensures Extended(a, c, f, s)
  {
    if Latest(a.versions, f).Some? { assert Latest(a.versions, f).value in VersionsOf(a, f); }
  }

  lemma ExtendedThenKept(a: Store, b: Store, c: Store, f: int, s: Snapshot)
    requires Extended(a, b, f, s) && Kept(b, c, f)
    ensures Extended(a, c, f, s)
  {
    var newest := Latest(b.versions, f).value;
    assert newest in VersionsOf(b, f);
  }

  // ----- Single writes

  /** Moving or renaming a flow touches no version. */
  lemma {:induction false} FlowMoved(st: Store, id: int, flow: Flow)
    ensures var st' := st.(flows := st.flows[id := flow]); Grows(st, st') && OthersKept(st, st', {})
  {
  }

  lemma {:induction false} ReplacedKeeps(st: Store, st': Store, v: int, snapshot: Snapshot, nodes: seq<Node>, edges: seq<Edge>, f: int, g: int)
    requires Valid(st) && Replaced(st, st', v, snapshot, nodes, edges) && st.versions[v].flowId == f && g != f
    requires Latest(st'.versions, g) == Latest(st.versions, g)
    ensures Kept(st, st', g)
  {
    assert st'.versions.Keys == st.versions.Keys;
    assert VersionsOf(st', g) == VersionsOf(st, g);
    forall w | w in VersionsOf(st, g) ensures Untouched(st, st', w) { }
  }

  lemma {:induction false} ReplacedRewritesOne(st: Store, st': Store, v: int, snapshot: Snapshot, nodes: seq<Node>, edges: seq<Edge>, f: int)
    requires Valid(st) && Replaced(st, st', v, snapshot, nodes, edges) && Latest(st.versions, f) == Some(v) == Latest(st'.versions, f)
    ensures Rewritten(st, st', f, snapshot)
  {
  }

  lemma {:induction false} ReplacedRewrites(st: Store, st': Store, v: int, snapshot: Snapshot, nodes: seq<Node>, edges: seq<Edge>, f: int)
    requires Valid(st) && Replaced(st, st', v, snapshot, nodes, edges) && Latest(st.versions, f) == Some(v)
    ensures Rewritten(st, st', f, snapshot) && OthersKept(st, st', {f}) && Grows(st, st')
  {
    ReplacedLatest(st, st', v, snapshot, nodes, edges);
    ReplacedRewritesOne(st, st', v, snapshot, nodes, edges, f);
    forall g | g !in {f} ensures Kept(st, st', g) { ReplacedKeeps(st, st', v, snapshot, nodes, edges, f, g); }
  }

  lemma {:induction false} AddedKeeps(st: Store, st': Store, f: int, snapshot: Snapshot, nodes: seq<Node>, edges: seq<Edge>, g: int)
    requires Valid(st) && Added(st, st', f, snapshot, nodes, edges) && g != f
    requires Latest(st'.versions, g) == Latest(st.versions, g)
    ensures Kept(st, st', g)
  {
  }

  lemma {:induction false} AddedExtendsOne(st: Store, st': Store, f: int, snapshot: Snapshot, nodes: seq<Node>, edges: seq<Edge>)
    requires Valid(st) && Added(st, st', f, snapshot, nodes, edges) && Latest(st'.versions, f) == Some(st.nextId)
    ensures Extended(st, st', f, snapshot)
  {
  }

  lemma {:induction false} AddedExtends(st: Store, st': Store, f: int, snapshot: Snapshot, nodes: seq<Node>, edges: seq<Edge>)
    requires Valid(st) && Added(st, st', f, snapshot, nodes, edges)
    ensures Extended(st, st', f, snapshot) && OthersKept(st, st', {f}) && Grows(st, st')
  {
    AddedLatest(st, st', f, snapshot, nodes, edges);
    AddedExtendsOne(st, st', f, snapshot, nodes, edges);
    forall g | g !in {f} ensures Kept(st, st', g) { AddedKeeps(st, st', f, snapshot, nodes, edges, g); }
  }

  // ----- The update's own write

  lemma {:induction false} WriteHistory(st: Store, id: int, v: int, flow: Flow, next: Snapshot, nodes: seq<NodeDto>, dto: UpdateDto)
    requires Valid(st) && id in st.flows && Latest(st.versions, id) == Some(v) && flow.current == Some(v) && st.versions[v].snapshot.Some?
    ensures var st1 := WriteUpdate(st, id, v, flow, next, nodes, dto);
            && OthersKept(st, st1, {id}) && Grows(st, st1)
            && (if dto.autoSave || StructurallyEqual(st.versions[v].snapshot, Some(next)) then Rewritten(st, st1, id, next) else Extended(st, st1, id, next))
  {
    var moved, st1 := st.(flows := st.flows[id := flow]), WriteUpdate(st, id, v, flow, next, nodes, dto);
    FlowSaved(st, id, flow);
    FlowMoved(st, id, flow);
    if dto.autoSave || StructurallyEqual(st.versions[v].snapshot, Some(next)) {
      ReplaceIsReplaced(moved, v, next, nodes, dto.edges);
      ReplacedRewrites(moved, st1, v, next, Map(NodeOf, nodes), Map(RowEdge, dto.edges), id);
      KeptThenRewritten(st, moved, st1, id, next);
    } else {
      AddIsAdded(moved, id, next, nodes, dto.edges);
      AddedExtends(moved, st1, id, next, Map(NodeOf, nodes), Map(RowEdge, dto.edges));
      KeptThenExtended(st, moved, st1, id, next);
    }
    forall f | f != id ensures Kept(st, st1, f) { KeptThenKept(st, moved, st1, f); }
  }

  // ----- The root's write after a subflow was saved

  /** What bringing the root up to date does to the root's versions, given its newest stored snapshot and the tree in the rows. */
  ghost predicate Synchronised(st: Store, st': Store, root: int, stored: Option<Snapshot>, full: Snapshot, autoSave: bool) {
    if ExactlyEqual(stored, Some(full)) then Kept(st, st', root)
    else if autoSave || StructurallyEqual(stored, Some(full)) then Rewritten(st, st', root, full)
    else Extended(st, st', root, full)
  }

  lemma {:induction false} ReplaceTreeHistory(st: Store, root: int, v: int, full: Snapshot)
    requires Valid(st) && IsRoot(st.flows, root) && FullTree(st, root, {}) == Ok(full) && Latest(st.versions, root) == Some(v)
    ensures var st' := ReplaceTree(st, v, full); Rewritten(st, st', root, full) && OthersKept(st, st', {root}) && Grows(st, st')
  {
    ReplaceTreeKeepsTree(st, root, v, full);
    ReplacedRewrites(st, ReplaceTree(st, v, full), v, full, full.nodes, full.edges, root);
  }

  lemma {:induction false} AddTreeHistory(st: Store, root: int, full: Snapshot)
    requires Valid(st) && IsRoot(st.flows, root) && FullTree(st, root, {}) == Ok(full)
    ensures var st' := AddTree(st, root, full); Extended(st, st', root, full) && OthersKept(st, st', {root}) && Grows(st, st')
  {
    AddTreeKeepsTree(st, root, full);
    AddedExtends(st, AddTree(st, root, full), root, full, full.nodes, full.edges);
  }

  lemma {:induction false} CurrentCases(st: Store, root: int, full: Snapshot)
    requires Valid(st) && root in st.flows && FullTree(st, root, {}) == Ok(full) && StoredOf(st, root).Some?
    ensures SyncCurrent(st, root) == if ExactlyEqual(StoredOf(st, root), Some(full)) then Ok(st) else Ok(ReplaceTree(st, Latest(st.versions, root).value, full))
  {
  }

  lemma {:induction false} CurrentHistory(st: Store, root: int, full: Snapshot)
    requires Valid(st) && IsRoot(st.flows, root) && FullTree(st, root, {}) == Ok(full) && StoredOf(st, root).Some?
    ensures SyncCurrent(st, root).Ok?
    ensures var st' := SyncCurrent(st, root).value;
            Synchronised(st, st', root, StoredOf(st, root), full, true) && OthersKept(st, st', {root}) && Grows(st, st')
  {
    CurrentCases(st, root, full);
    if ExactlyEqual(StoredOf(st, root), Some(full)) {
      NothingKeepsAll(st);
    } else {
      ReplaceTreeHistory(st, root, Latest(st.versions, root).value, full);
    }
  }

  lemma {:induction false} NewestHistory(st: Store, root: int, full: Snapshot)
    requires Valid(st) && IsRoot(st.flows, root) && FullTree(st, root, {}) == Ok(full) && StoredOf(st, root).Some?
    requires Sanitized(StoredOf(st, root).value) && Sanitized(full)
    ensures SyncNewest(st, root).Ok?
    ensures var st' := SyncNewest(st, root).value;
            Synchronised(st, st', root, StoredOf(st, root), full, false) && OthersKept(st, st', {root}) && Grows(st, st')
  {
    var stored := StoredOf(st, root).value;
    NewestCases(st, root, full);
    if ExactlyEqual(Some(stored), Some(full)) {
      NothingKeepsAll(st);
    } else if StructurallyEqual(Some(stored), Some(full)) {
      ReplaceTreeHistory(st, root, Latest(st.versions, root).value, full);
    } else {
      AddTreeHistory(st, root, full);
    }
  }

  lemma {:induction false} NewestCases(st: Store, root: int, full: Snapshot)
    requires root in st.flows && FullTree(st, root, {}) == Ok(full) && StoredOf(st, root).Some?
    requires Sanitized(StoredOf(st, root).value) && Sanitized(full)
    ensures SyncNewest(st, root) ==
              if ExactlyEqual(StoredOf(st, root), Some(full)) then Ok(st)
              else if StructurallyEqual(StoredOf(st, root), Some(full)) then Ok(ReplaceTree(st, Latest(st.versions, root).value, full))
              else Ok(AddTree(st, root, full))
  {
    if ExactlyEqual(StoredOf(st, root), Some(full)) { ExactImpliesStructural(StoredOf(st, root).value, full); }
  }

  lemma {:induction false} SyncRootHistory(st: Store, id: int, autoSave: bool)
    requires Valid(st) && StoredSanitized(st) && Stocked(st) && id in st.flows && st.flows[id].parent.Some? && RootOf(st.flows, id, {}).Ok?
    ensures SyncRoot(st, id, autoSave).Ok?
    ensures var root, st' := RootOf(st.flows, id, {}).value, SyncRoot(st, id, autoSave).value;
            && IsRoot(st.flows, root) && FullTree(st, root, {}).Ok? && StoredOf(st, root).Some?
            && Synchronised(st, st', root, StoredOf(st, root), FullTree(st, root, {}).value, autoSave)
            && OthersKept(st, st', {root}) && Grows(st, st')
  {
    RootOfIsRoot(st.flows, id);
    var root := RootOf(st.flows, id, {}).value;
    BuildersAgree(st, root, false);
    FullTreeSanitized(st, root, {});
    assert RowsMatch(st, Latest(st.versions, root).value);
    var full := FullTree(st, root, {}).value;
    if autoSave { CurrentHistory(st, root, full); } else { NewestHistory(st, root, full); }
  }

  // ----- Updates, over every run

  /** The snapshot an update of the flow would store. */
  function NextOf(st: Store, id: int, dto: UpdateDto): Snapshot
    requires id in st.flows && Latest(st.versions, id).Some?
  {
    var flow := Reparented(st.flows[id], dto, Latest(st.versions, id).value);
    NextSnapshot(st, id, flow, PreparedNodes(dto.nodes, flow.parent), dto.edges)
  }

  /** The update adds a version: it is explicit and its payload differs structurally from the newest stored snapshot. */
  predicate AddsVersion(st: Store, id: int, dto: UpdateDto)
    requires id in st.flows && Latest(st.versions, id).Some?
  {
    !dto.autoSave && !StructurallyEqual(StoredOf(st, id), Some(NextOf(st, id, dto)))
  }

  ghost predicate SavedAs(st: Store, st': Store, id: int, dto: UpdateDto)
    requires id in st.flows && Latest(st.versions, id).Some?
  {
    if AddsVersion(st, id, dto) then Extended(st, st', id, NextOf(st, id, dto)) else Rewritten(st, st', id, NextOf(st, id, dto))
  }

  /**
   * After any run, a root update whose payload differs from what is stored: an explicit save that changes
   * the structure adds exactly one version, any other rewrites the newest in place; every other version
   * of every flow keeps its number, snapshot and rows.
   */
  lemma {:induction false} RootUpdateHistory(ops: seq<Op>, id: int, dto: UpdateDto)
    ensures var st := After(ops);
            Differs(st, id, dto) && ParentAfter(st, id, dto).None? ==>
              && Update(st, id, dto, true).Ok?
              && var st' := Update(st, id, dto, true).value;
                 SavedAs(st, st', id, dto) && OthersKept(st, st', {id})
  {
    var st := After(ops);
    if Differs(st, id, dto) && ParentAfter(st, id, dto).None? {
      EveryRunKeeps(ops);
      var v := Latest(st.versions, id).value;
      assert RowsMatch(st, v);
      var flow := Reparented(st.flows[id], dto, v);
      WriteHistory(st, id, v, flow, NextOf(st, id, dto), PreparedNodes(dto.nodes, flow.parent), dto);
    }
  }

  /** The tables between the update's own write and the root's. */
  lemma {:induction false} BetweenWrites(st: Store, id: int, dto: UpdateDto) returns (st1: Store)
    requires Valid(st) && StoredSanitized(st) && Stocked(st) && Differs(st, id, dto) && ParentAfter(st, id, dto).Some? && Rooted(st, id, dto)
    ensures Valid(st1) && StoredSanitized(st1) && Stocked(st1) && id in st1.flows && st1.flows[id].parent.Some? && RootOf(st1.flows, id, {}).Ok?
    ensures Update(st, id, dto, true) == SyncRoot(st1, id, dto.autoSave)
    ensures SavedAs(st, st1, id, dto) && OthersKept(st, st1, {id}) && Grows(st, st1)
  {
    var v := Latest(st.versions, id).value;
    assert RowsMatch(st, v);
    var flow := Reparented(st.flows[id], dto, v);
    var nodes := PreparedNodes(dto.nodes, flow.parent);
    var next := NextOf(st, id, dto);
    st1 := WriteUpdate(st, id, v, flow, next, nodes, dto);
    WriteHistory(st, id, v, flow, next, nodes, dto);
    WriteUpdateWrites(st, id, v, flow, next, nodes, dto);
    WriteStocked(st, id, v, flow, next, nodes, dto);
    WriteSanitized(st, id, v, flow, nodes, dto);
    WrittenRooted(st, st1, id, flow, next, Map(NodeOf, nodes), Map(RowEdge, dto.edges), dto);
  }

  lemma {:induction false} WriteSanitized(st: Store, id: int, v: int, flow: Flow, nodes: seq<NodeDto>, dto: UpdateDto)
    requires StoredSanitized(st) && id in st.flows && v in st.versions
    ensures StoredSanitized(WriteUpdate(st, id, v, flow, NextSnapshot(st, id, flow, nodes, dto.edges), nodes, dto))
  {
    var next, moved := NextSnapshot(st, id, flow, nodes, dto.edges), st.(flows := st.flows[id := flow]);
    NextSanitized(st, id, flow, nodes, dto.edges);
    ReplaceKeepsSanitized(moved, v, next, nodes, dto.edges);
    AddKeepsSanitized(moved, id, next, nodes, dto.edges);
  }

  lemma {:induction false} SavedThenKept(st: Store, st1: Store, st': Store, id: int, dto: UpdateDto)
    requires id in st.flows && Latest(st.versions, id).Some? && SavedAs(st, st1, id, dto) && Kept(st1, st', id)
    ensures SavedAs(st, st', id, dto)
  {
    var next := NextOf(st, id, dto);
    if AddsVersion(st, id, dto) { ExtendedThenKept(st, st1, st', id, next); } else { RewrittenThenKept(st, st1, st', id, next); }
  }

  lemma {:induction false} KeptThenSynchronised(st: Store, st1: Store, st': Store, root: int, stored: Option<Snapshot>, full: Snapshot, autoSave: bool)
    requires Kept(st, st1, root) && Grows(st, st1) && Synchronised(st1, st', root, stored, full, autoSave)
    ensures Synchronised(st, st', root, stored, full, autoSave)
  {
    if ExactlyEqual(stored, Some(full)) {
      KeptThenKept(st, st1, st', root);
    } else if autoSave || StructurallyEqual(stored, Some(full)) {
      KeptThenRewritten(st, st1, st', root, full);
    } else {
      KeptThenExtended(st, st1, st', root, full);
    }
  }

  /** The flow's own part and the root's part together. */
  lemma {:induction false} JoinParts(st: Store, st1: Store, st': Store, id: int, root: int, dto: UpdateDto, full: Snapshot)
    requires id in st.flows && Latest(st.versions, id).Some? && id != root && SavedAs(st, st1, id, dto) && OthersKept(st, st1, {id}) && Grows(st, st1)
    requires Synchronised(st1, st', root, StoredOf(st, root), full, dto.autoSave) && OthersKept(st1, st', {root})
    ensures SavedAs(st, st', id, dto) && Synchronised(st, st', root, StoredOf(st, root), full, dto.autoSave) && OthersKept(st, st', {id, root})
  {
    OthersInstance(st, st1, {id}, root);
    OthersInstance(st1, st', {root}, id);
    SavedThenKept(st, st1, st', id, dto);
    KeptThenSynchronised(st, st1, st', root, StoredOf(st, root), full, dto.autoSave);
    OthersAdd(st, st1, st', {id}, {root});
    assert {id} + {root} == {id, root};
  }

  lemma OthersInstance(st: Store, st': Store, flows: set<int>, f: int)
    requires OthersKept(st, st', flows) && f !in flows
    ensures Kept(st, st', f)
  {
  }

  /** The flow's stored snapshot is the same where its versions are. */
  lemma {:induction false} KeptStored(st: Store, st': Store, f: int)
    requires Kept(st, st', f)
    ensures StoredOf(st', f) == StoredOf(st, f)
  {
    if Latest(st.versions, f).Some? { assert Latest(st.versions, f).value in VersionsOf(st, f); }
  }

  /**
   * After any run, a subflow update whose payload differs from what is stored: the subflow's own versions
   * change as a root's do; the root's newest is kept where it already equals the tree, rewritten in place
   * for an autosave or an unchanged structure, and else followed by exactly one version with the tree;
   * every other version of every flow keeps its number, snapshot and rows.
   */
  lemma {:induction false} SubflowUpdateHistory(ops: seq<Op>, id: int, dto: UpdateDto)
    ensures var st := After(ops);
            Differs(st, id, dto) && ParentAfter(st, id, dto).Some? && Rooted(st, id, dto) ==>
              && Update(st, id, dto, true).Ok?
              && var st' := Update(st, id, dto, true).value;
                 && RootOf(st'.flows, id, {}).Ok?
                 && var root := RootOf(st'.flows, id, {}).value;
                    && root != id && FullTree(st', root, {}).Ok?
                    && SavedAs(st, st', id, dto)
                    && Synchronised(st, st', root, StoredOf(st, root), FullTree(st', root, {}).value, dto.autoSave)
                    && OthersKept(st, st', {id, root})
  {
    var st := After(ops);
    if Differs(st, id, dto) && ParentAfter(st, id, dto).Some? && Rooted(st, id, dto) {
      EveryRunKeeps(ops);
      var st1 := BetweenWrites(st, id, dto);
      SyncRootHistory(st1, id, dto.autoSave);
      SyncRootFresh(st1, id, dto.autoSave);
      var st', root := SyncRoot(st1, id, dto.autoSave).value, RootOf(st1.flows, id, {}).value;
      SameParentsSameRoot(st1.flows, st'.flows, id, {});
      SameTreeSameSnapshot(st1, st', root, {});
      OthersInstance(st, st1, {id}, root);
      KeptStored(st, st1, root);
      JoinParts(st, st1, st', id, root, dto, FullTree(st1, root, {}).value);
    }
  }

  // ----- The rows an update leaves

  /** A node row says what the payload's node says, at the origin where it has no position, with a cleaned configuration. */
  ghost predicate RowOfNode(n: NodeDto, row: Node, timeout: bool) {
    var clean := Sanitize(n.nodeType, n.config.GetOr([]));
    && row.nodeKey == n.nodeKey && row.nodeType == n.nodeType && row.nodeLabel == n.nodeLabel
    && (row.positionX == if n.positionX.Some? then n.positionX.value else 0.0)
    && (row.positionY == if n.positionY.Some? then n.positionY.value else 0.0)
    && row.config == Sanitize(n.nodeType, if timeout then WithDefaultTimeout(clean) else clean)
    && row.groupId == n.groupId && row.subflowId == n.subflowId
  }

  /** An edge row says what the payload's edge says; its branch falls back on the condition and then on `default`. */
  ghost predicate RowOfEdge(e: EdgeDto, row: Edge) {
    && row.source == e.source && row.target == e.target && row.condition == e.condition
    && row.sourceHandle == e.sourceHandle && row.targetHandle == e.targetHandle
    && (e.branchKey.Some? ==> row.branchKey == e.branchKey.value)
    && (e.branchKey.None? && e.condition.Some? ==> row.branchKey == e.condition.value)
    && (e.branchKey.None? && e.condition.None? ==> row.branchKey == "default")
  }

  /** The rows are the payload's, row by row and in its order. */
  ghost predicate RowsAre(nodes: seq<Node>, edges: seq<Edge>, dto: UpdateDto, parent: Option<int>) {
    && |nodes| == |dto.nodes| && |edges| == |dto.edges|
    && (forall i :: 0 <= i < |nodes| ==> RowOfNode(dto.nodes[i], nodes[i], (parent.None? || parent.value == 0) && IsFirstStart(dto.nodes, i)))
    && (forall i :: 0 <= i < |edges| ==> RowOfEdge(dto.edges[i], edges[i]))
  }

  /** The flow has the payload's name, parent and rows; the other flows are as they were. */
  ghost predicate Holds(st: Store, st': Store, id: int, dto: UpdateDto, parent: Option<int>) {
    && id in st'.flows && st'.flows.Keys == st.flows.Keys + {id} && st'.flows[id].name == dto.name && st'.flows[id].parent == parent
    && RowsAre(Content(st', id).0, Content(st', id).1, dto, parent)
    && (forall f :: f in st.flows && f != id ==>
         st'.flows[f].name == st.flows[f].name && st'.flows[f].parent == st.flows[f].parent && Content(st', f) == Content(st, f))
  }

  lemma {:induction false} RowsHold(dto: UpdateDto, parent: Option<int>)
    ensures RowsAre(Map(NodeOf, PreparedNodes(dto.nodes, parent)), Map(RowEdge, dto.edges), dto, parent)
  {
    var prepared := PreparedNodes(dto.nodes, parent);
    if dto.nodes != [] { PreparedNodesAre(dto.nodes, parent, 0); }
    assert |prepared| == |dto.nodes|;
    forall i | 0 <= i < |dto.nodes|
      ensures RowOfNode(dto.nodes[i], Map(NodeOf, prepared)[i], (parent.None? || parent.value == 0) && IsFirstStart(dto.nodes, i))
    {
      PreparedNodesAre(dto.nodes, parent, i);
      assert Map(NodeOf, prepared)[i] == NodeOf(prepared[i]);
    }
    forall i | 0 <= i < |dto.edges| ensures RowOfEdge(dto.edges[i], Map(RowEdge, dto.edges)[i]) {
      assert Map(RowEdge, dto.edges)[i] == RowEdge(dto.edges[i]);
    }
  }

  lemma {:induction false} WrittenHolds(st: Store, st1: Store, st': Store, id: int, flow: Flow, next: Snapshot, dto: UpdateDto)
    requires id in st.flows && flow.name == dto.name && SameTree(st1, st')
    requires Written(st, st1, id, flow, next, Map(NodeOf, PreparedNodes(dto.nodes, flow.parent)), Map(RowEdge, dto.edges))
    ensures Holds(st, st', id, dto, flow.parent)
  {
    RowsHold(dto, flow.parent);
    assert st'.flows.Keys == st.flows.Keys + {id};
  }

  /** After any run, an update that writes leaves the payload in the flow's rows and every other flow as it was. */
  lemma {:induction false} UpdateHolds(ops: seq<Op>, id: int, dto: UpdateDto)
    ensures var st := After(ops);
            Differs(st, id, dto) && Rooted(st, id, dto) ==>
              && Update(st, id, dto, true).Ok?
              && Holds(st, Update(st, id, dto, true).value, id, dto, ParentAfter(st, id, dto))
  {
    var st := After(ops);
    if Differs(st, id, dto) && Rooted(st, id, dto) {
      EveryRunKeeps(ops);
      DifferingUpdate(st, id, dto);
      var v := Latest(st.versions, id).value;
      var flow := Reparented(st.flows[id], dto, v);
      var nodes, next := PreparedNodes(dto.nodes, flow.parent), NextOf(st, id, dto);
      var st1, st' := WriteUpdate(st, id, v, flow, next, nodes, dto), Update(st, id, dto, true).value;
      WriteUpdateWrites(st, id, v, flow, next, nodes, dto);
      if flow.parent.Some? { SyncRootFresh(st1, id, dto.autoSave); }
      WrittenHolds(st, st1, st', id, flow, next, dto);
    }
  }

  // ----- Publishing, creating, renaming

  /**
   * After any run, publishing: where the root's newest stored snapshot has the structure of the tree in
   * the rows, no version changes and the newest is reported; else exactly one version with that tree is
   * added to the root and reported. Every other version is left alone.
   */
  lemma {:induction false} PublishHistory(ops: seq<Op>, id: int)
    ensures var st := After(ops);
            CreateVersion(st, id).Ok? ==>
              var st', reported := CreateVersion(st, id).value.0, CreateVersion(st, id).value.1;
              && RootOf(st.flows, id, {}).Ok?
              && var root := RootOf(st.flows, id, {}).value;
                 && FullTree(st, root, {}).Ok? && OthersKept(st, st', {root})
                 && Latest(st'.versions, root) == Some(reported)
                 && (if StructurallyEqual(StoredOf(st, root), Some(FullTree(st, root, {}).value)) then Kept(st, st', root)
                     else Extended(st, st', root, FullTree(st, root, {}).value))
  {
    if CreateVersion(After(ops), id).Ok? {
      EveryRunKeeps(ops);
      PublishHistoryAt(After(ops), id);
    }
  }

  lemma {:induction false} PublishCases(st: Store, id: int)
    requires CreateVersion(st, id).Ok?
    ensures RootOf(st.flows, id, {}).Ok?
    ensures var root := RootOf(st.flows, id, {}).value;
            && FullTree(st, root, {}).Ok?
            && CreateVersion(st, id).value
                 == (var full := FullTree(st, root, {}).value;
                     if StructurallyEqual(StoredOf(st, root), Some(full)) then (st, Latest(st.versions, root).value) else (AddTree(st, root, full), st.nextId))
  {
  }

  lemma {:induction false} PublishHistoryAt(st: Store, id: int)
    requires Valid(st) && CreateVersion(st, id).Ok?
    ensures RootOf(st.flows, id, {}).Ok?
    ensures var root, st' := RootOf(st.flows, id, {}).value, CreateVersion(st, id).value.0;
            && FullTree(st, root, {}).Ok? && OthersKept(st, st', {root})
            && Latest(st'.versions, root) == Some(CreateVersion(st, id).value.1)
            && (if StructurallyEqual(StoredOf(st, root), Some(FullTree(st, root, {}).value)) then Kept(st, st', root)
                else Extended(st, st', root, FullTree(st, root, {}).value))
  {
    PublishCases(st, id);
    RootOfIsRoot(st.flows, id);
    var root := RootOf(st.flows, id, {}).value;
    var full := FullTree(st, root, {}).value;
    if StructurallyEqual(StoredOf(st, root), Some(full)) {
      NothingKeepsAll(st);
    } else {
      AddTreeHistory(st, root, full);
      NewestAdded(st, root, full);
    }
  }

  lemma NothingKeepsAll(st: Store)
    ensures forall f :: Kept(st, st, f)
  {
  }

  lemma {:induction false} NewestAdded(st: Store, root: int, full: Snapshot)
    requires Valid(st) && IsRoot(st.flows, root) && FullTree(st, root, {}) == Ok(full)
    ensures Latest(AddTree(st, root, full).versions, root) == Some(st.nextId)
  {
    AddTreeKeepsTree(st, root, full);
    AddedLatest(st, AddTree(st, root, full), root, full, full.nodes, full.edges);
  }

  /** The snapshot a new flow starts with: its payload, and for a root its name, id and whatever flows are already below it. */
  function FirstSnapshot(st: Store, id: int, dto: UpdateDto): Snapshot {
    var flow := Flow(dto.name, dto.parent, None);
    NextSnapshot(st.(flows := st.flows[id := flow]), id, flow, PreparedNodes(dto.nodes, dto.parent), dto.edges)
  }

  lemma {:induction false} CreatedHolds(st: Store, id: int, dto: UpdateDto, next: Snapshot)
    requires Valid(st) && id > 0 && id !in st.flows
    ensures var st0 := st.(flows := st.flows[id := Flow(dto.name, dto.parent, None)]);
            Holds(st, AddVersion(st0, id, next, PreparedNodes(dto.nodes, dto.parent), dto.edges), id, dto, dto.parent)
  {
    var nodes, st0 := PreparedNodes(dto.nodes, dto.parent), st.(flows := st.flows[id := Flow(dto.name, dto.parent, None)]);
    var st' := AddVersion(st0, id, next, nodes, dto.edges);
    assert Valid(st0);
    AddIsAdded(st0, id, next, nodes, dto.edges);
    PayloadIsClean(nodes);
    AddWrites(st0, st', id, Flow(dto.name, dto.parent, None), next, Map(NodeOf, nodes), Map(RowEdge, dto.edges));
    WrittenHolds(st0, st', st', id, Flow(dto.name, dto.parent, None), next, dto);
    HoldsFromBefore(st, st', id, dto);
  }

  lemma {:induction false} HoldsFromBefore(st: Store, st': Store, id: int, dto: UpdateDto)
    requires id !in st.flows && Holds(st.(flows := st.flows[id := Flow(dto.name, dto.parent, None)]), st', id, dto, dto.parent)
    ensures Holds(st, st', id, dto, dto.parent)
  {
    var st0 := st.(flows := st.flows[id := Flow(dto.name, dto.parent, None)]);
    assert st0.flows.Keys + {id} == st.flows.Keys + {id};
    forall f | f in st.flows && f != id ensures Content(st', f) == Content(st, f) { assert Content(st0, f) == Content(st, f); }
  }

  /** After any run, creating a flow gives it exactly one version, number 1, with the payload's rows, and leaves every other version alone. */
  lemma {:induction false} CreateHistory(ops: seq<Op>, id: int, dto: UpdateDto)
    requires id > 0 && id !in After(ops).flows
    ensures var st, st' := After(ops), Create(After(ops), id, dto, true).value;
            && OthersKept(st, st', {id}) && VersionsOf(st, id) == {} && Latest(st'.versions, id).Some?
            && var v := Latest(st'.versions, id).value;
               && VersionsOf(st', id) == {v} && st'.versions[v].number == 1
               && st'.versions[v].snapshot == Some(FirstSnapshot(st, id, dto))
               && Holds(st, st', id, dto, dto.parent)
  {
    EveryRunKeeps(ops);
    var st := After(ops);
    var flow, nodes := Flow(dto.name, dto.parent, None), PreparedNodes(dto.nodes, dto.parent);
    var st0, st' := st.(flows := st.flows[id := flow]), Create(st, id, dto, true).value;
    var next := NextSnapshot(st0, id, flow, nodes, dto.edges);
    assert Valid(st0);
    FlowMoved(st, id, flow);
    AddIsAdded(st0, id, next, nodes, dto.edges);
    AddedExtends(st0, st', id, next, Map(NodeOf, nodes), Map(RowEdge, dto.edges));
    assert VersionsOf(st0, id) == {};
    CreatedHolds(st, id, dto, next);
    forall f | f != id ensures Kept(st, st', f) { KeptThenKept(st, st0, st', f); }
  }

  // ----- Restoring

  /** The snapshot a restored subflow's new version stores: what its listed tree says, without subflows. */
  function ListedAlone(s: Snapshot): Snapshot {
    Snapshot(Some(s.Id()), s.name, s.nodes, s.edges, Absent)
  }

  /** Every flow listed in the trees has one version more, with its listed snapshot. */
  ghost predicate ListedExtended(st: Store, st': Store, ss: seq<Snapshot>)
    decreases ForestSize(ss)
  {
    if ss == [] then true
    else
      TreeSizeOfChildren(ss[0]);
      && (ss[0].Id() > 0 ==> Extended(st, st', ss[0].Id(), ListedAlone(ss[0])) && ListedExtended(st, st', ss[0].Children()))
      && ListedExtended(st, st', ss[1..])
  }

  lemma {:induction false} RestoredExtends(st: Store, f: int, snapshot: Snapshot, name: Option<string>, nodes: seq<NodeDto>, edges: seq<EdgeDto>)
    requires Valid(st) && f in st.flows
    ensures var st' := Renamed(AddVersion(st, f, snapshot, nodes, edges), f, name);
            && Valid(st') && Extended(st, st', f, snapshot) && OthersKept(st, st', {f}) && Grows(st, st')
  {
    var st1 := AddVersion(st, f, snapshot, nodes, edges);
    var st' := Renamed(st1, f, name);
    AddIsAdded(st, f, snapshot, nodes, edges);
    AddedExtends(st, st1, f, snapshot, Map(NodeOf, nodes), Map(RowEdge, edges));
    AddThenRename(st, f, snapshot, name, nodes, edges);
    FlowMoved(st1, f, st1.flows[f].(name := name.GetOr(st1.flows[f].name)));
    ExtendedThenKept(st, st1, st', f, snapshot);
    forall g | g != f ensures Kept(st, st', g) { KeptThenKept(st, st1, st', g); }
  }

  /** What is extended between two states is extended around them, if the flows are kept before and after. */
  lemma {:induction false} ListedFrame(a: Store, b: Store, c: Store, d: Store, ss: seq<Snapshot>)
    requires ListedExtended(b, c, ss) && Grows(a, b)
    requires forall f :: f in IdsOfAll(ss) ==> Kept(a, b, f) && Kept(c, d, f)
    ensures ListedExtended(a, d, ss)
    decreases ForestSize(ss)
  {
    if ss != [] {
      TreeSizeOfChildren(ss[0]);
      if ss[0].Id() > 0 {
        var id := ss[0].Id();
        assert id in IdsOf(ss[0]);
        ExtendedThenKept(b, c, d, id, ListedAlone(ss[0]));
        KeptThenExtended(a, b, d, id, ListedAlone(ss[0]));
        ListedFrame(a, b, c, d, ss[0].Children());
      }
      ListedFrame(a, b, c, d, ss[1..]);
    }
  }

  /** No version that was there is lost or changed. */
  ghost predicate NothingLost(st: Store, st': Store) {
    forall v :: v in st.versions ==> Untouched(st, st', v)
  }

  lemma NothingLostTwice(a: Store, b: Store, c: Store)
    requires NothingLost(a, b) && NothingLost(b, c)
    ensures NothingLost(a, c)
  {
    forall v | v in a.versions ensures Untouched(a, c, v) { assert Untouched(a, b, v) && Untouched(b, c, v); }
  }

  lemma {:induction false} ExtendingLosesNothing(st: Store, st': Store, f: int, s: Snapshot)
    requires Extended(st, st', f, s) && OthersKept(st, st', {f})
    ensures NothingLost(st, st')
  {
    forall v | v in st.versions ensures Untouched(st, st', v) {
      var g := st.versions[v].flowId;
      assert v in VersionsOf(st, g);
      if g != f { assert Kept(st, st', g); }
    }
  }

  /** The first listed flow, its children and the flows behind it, put together. */
  lemma {:induction false} FirstListed(st: Store, st1: Store, st2: Store, st3: Store, ss: seq<Snapshot>)
    requires ss != [] && ss[0].Id() > 0 && Spread(ss)
    requires Extended(st, st1, ss[0].Id(), ListedAlone(ss[0])) && OthersKept(st, st1, {ss[0].Id()}) && Grows(st, st1)
    requires ListedExtended(st1, st2, ss[0].Children()) && OthersKept(st1, st2, IdsOfAll(ss[0].Children())) && Grows(st1, st2)
    requires ListedExtended(st2, st3, ss[1..]) && OthersKept(st2, st3, IdsOfAll(ss[1..]))
    ensures ListedExtended(st, st3, ss)
  {
    TreeSizeOfChildren(ss[0]);
    var id, kids, later := ss[0].Id(), ss[0].Children(), ss[1..];
    assert id in IdsOf(ss[0]) && IdsOfAll(kids) <= IdsOf(ss[0]);
    ExtendedThenKept(st, st1, st2, id, ListedAlone(ss[0]));
    ExtendedThenKept(st, st2, st3, id, ListedAlone(ss[0]));
    ListedFrame(st, st1, st2, st3, kids);
    forall f | f in IdsOfAll(later) ensures Kept(st, st2, f) && Kept(st3, st3, f) { KeptThenKept(st, st1, st2, f); }
    ListedFrame(st, st2, st3, st3, later);
  }

  lemma {:induction false} RestoreSubflowsHistory(st: Store, ss: seq<Snapshot>)
    requires Valid(st) && RestoreSubflows(st, ss).Ok?
    ensures var st' := RestoreSubflows(st, ss).value;
            && Valid(st') && NothingLost(st, st') && Grows(st, st') && OthersKept(st, st', IdsOfAll(ss))
            && (Spread(ss) ==> ListedExtended(st, st', ss))
    decreases ForestSize(ss)
  {
    if ss != [] {
      var s := ss[0];
      TreeSizeOfChildren(s);
      if s.Id() <= 0 {
        RestoreSubflowsHistory(st, ss[1..]);
      } else {
        RestoredExtends(st, s.Id(), ListedAlone(s), s.name, Map(NodeToDto, s.nodes), Map(EdgeToDto, s.edges));
        var st1 := RestoreOne(st, s);
        ExtendingLosesNothing(st, st1, s.Id(), ListedAlone(s));
        RestoreSubflowsHistory(st1, s.Children());
        var st2 := RestoreSubflows(st1, s.Children()).value;
        RestoreSubflowsHistory(st2, ss[1..]);
        var st3 := RestoreSubflows(st2, ss[1..]).value;
        NothingLostTwice(st, st1, st2);
        NothingLostTwice(st, st2, st3);
        OthersAdd(st, st1, st2, {s.Id()}, IdsOfAll(s.Children()));
        OthersAdd(st, st2, st3, {s.Id()} + IdsOfAll(s.Children()), IdsOfAll(ss[1..]));
        if Spread(ss) { FirstListed(st, st1, st2, st3, ss); }
      }
    }
  }

  /**
   * After any run, a restore that succeeds loses and changes no earlier version of any flow. Where the
   * stored tree names each flow once, the flow's newest version is new and stores the very snapshot that
   * was restored, each listed subflow's newest is new and stores its listed snapshot without subflows,
   * and no other flow gets a version.
   */
  lemma {:induction false} RestoreHistory(ops: seq<Op>, id: int, v: int)
    requires RestoreVersion(After(ops), id, v).Ok?
    ensures var st, st', s := After(ops), RestoreVersion(After(ops), id, v).value, After(ops).versions[v].snapshot.value;
            && NothingLost(st, st') && OthersKept(st, st', {id} + IdsOfAll(s.Children()))
            && (Spread(s.Children()) && id !in IdsOfAll(s.Children()) ==>
                  Extended(st, st', id, s) && ListedExtended(st, st', s.Children()))
  {
    EveryRunKeeps(ops);
    RestoreHistoryAt(After(ops), id, v);
  }

  lemma {:induction false} RestoreHistoryAt(st: Store, id: int, v: int)
    requires Valid(st) && RestoreVersion(st, id, v).Ok?
    ensures var st', s := RestoreVersion(st, id, v).value, st.versions[v].snapshot.value;
            && NothingLost(st, st') && OthersKept(st, st', {id} + IdsOfAll(s.Children()))
            && (Spread(s.Children()) && id !in IdsOfAll(s.Children()) ==> Extended(st, st', id, s) && ListedExtended(st, st', s.Children()))
  {
    var s := st.versions[v].snapshot.value;
    RestoredExtends(st, id, s, s.name, Map(RestoredNode, s.nodes), Map(RestoredEdge, s.edges));
    var st1 := RestoreRoot(st, id, s);
    ExtendingLosesNothing(st, st1, id, s);
    RestoreSubflowsHistory(st1, s.Children());
    var st' := RestoreSubflows(st1, s.Children()).value;
    NothingLostTwice(st, st1, st');
    OthersAdd(st, st1, st', {id}, IdsOfAll(s.Children()));
    if Spread(s.Children()) && id !in IdsOfAll(s.Children()) { RootAndListed(st, st1, st', id, s); }
  }

  lemma {:induction false} OthersAdd(a: Store, b: Store, c: Store, x: set<int>, y: set<int>)
    requires OthersKept(a, b, x) && OthersKept(b, c, y)
    ensures OthersKept(a, c, x + y)
  {
    forall f | f !in x + y ensures Kept(a, c, f) { KeptThenKept(a, b, c, f); }
  }

  lemma {:induction false} RootAndListed(st: Store, st1: Store, st': Store, id: int, s: Snapshot)
    requires Extended(st, st1, id, s) && OthersKept(st, st1, {id}) && Grows(st, st1) && id !in IdsOfAll(s.Children())
    requires ListedExtended(st1, st', s.Children()) && OthersKept(st1, st', IdsOfAll(s.Children()))
    ensures Extended(st, st', id, s) && ListedExtended(st, st', s.Children())
  {
    ExtendedThenKept(st, st1, st', id, s);
    ListedFrame(st, st1, st', st', s.Children());
  }

  // ----- Version numbers

  /** The numbers of a flow's versions. */
  ghost function NumbersOf(st: Store, f: int): set<int> {
    set v | v in st.versions && st.versions[v].flowId == f :: st.versions[v].number
  }

  /** The numbers from 1 to `k`. */
  function OneTo(k: nat): (r: set<int>)
    ensures forall n :: n in r <==> 1 <= n <= k
  {
    if k == 0 then {} else OneTo(k - 1) + {k}
  }

  /** Each flow's versions are numbered from 1 to how many it has. */
  ghost predicate Numbered(st: Store) {
    forall f :: NumberedAt(st, f)
  }

  ghost predicate NumberedAt(st: Store, f: int) { NumbersOf(st, f) == OneTo(|VersionsOf(st, f)|) }

  lemma {:induction false} SameNumbers(st: Store, st': Store, f: int)
    requires Kept(st, st', f)
    ensures NumbersOf(st', f) == NumbersOf(st, f)
  {
    assert forall v :: v in VersionsOf(st', f) <==> v in VersionsOf(st, f);
    assert forall v :: v in VersionsOf(st, f) ==> st'.versions[v].number == st.versions[v].number;
    forall n ensures n in NumbersOf(st', f) <==> n in NumbersOf(st, f) {
      if n in NumbersOf(st', f) {
        var v :| v in st'.versions && st'.versions[v].flowId == f && st'.versions[v].number == n;
        assert v in VersionsOf(st, f);
      }
      if n in NumbersOf(st, f) {
        var v :| v in st.versions && st.versions[v].flowId == f && st.versions[v].number == n;
        assert v in VersionsOf(st', f);
      }
    }
  }

  lemma {:induction false} RewritingKeepsNumbers(st: Store, st': Store, f: int, s: Snapshot)
    requires Rewritten(st, st', f, s)
    ensures NumbersOf(st', f) == NumbersOf(st, f)
  {
    forall v | v in VersionsOf(st, f) ensures v in VersionsOf(st', f) && st'.versions[v].number == st.versions[v].number { }
    forall n ensures n in NumbersOf(st', f) <==> n in NumbersOf(st, f) {
      if n in NumbersOf(st', f) {
        var v :| v in st'.versions && st'.versions[v].flowId == f && st'.versions[v].number == n;
        assert v in VersionsOf(st', f);
      }
      if n in NumbersOf(st, f) {
        var v :| v in st.versions && st.versions[v].flowId == f && st.versions[v].number == n;
        assert v in VersionsOf(st, f);
      }
    }
  }

  /** A flow numbered from 1 to `k` has `k` as its newest version's number. */
  lemma {:induction false} NewestNumber(st: Store, f: int)
    requires NumbersOf(st, f) == OneTo(|VersionsOf(st, f)|)
    ensures Latest(st.versions, f).None? ==> VersionsOf(st, f) == {}
    ensures Latest(st.versions, f).Some? ==> st.versions[Latest(st.versions, f).value].number == |VersionsOf(st, f)|
  {
    var k := |VersionsOf(st, f)|;
    if Latest(st.versions, f).Some? {
      var l := Latest(st.versions, f).value;
      assert l in VersionsOf(st, f) && st.versions[l].number in NumbersOf(st, f);
      assert k > 0 && k in OneTo(k);
      var v :| v in st.versions && st.versions[v].flowId == f && st.versions[v].number == k;
      assert IsLatest(st.versions, f, l);
    } else {
      assert forall v :: v in st.versions ==> st.versions[v].flowId != f;
    }
  }

  lemma {:induction false} ExtendingNumbers(st: Store, st': Store, f: int, s: Snapshot)
    requires Extended(st, st', f, s) && NumbersOf(st, f) == OneTo(|VersionsOf(st, f)|)
    ensures NumbersOf(st', f) == OneTo(|VersionsOf(st', f)|)
  {
    NewestNumber(st, f);
    var w, k := Latest(st'.versions, f).value, |VersionsOf(st, f)|;
    assert w !in VersionsOf(st, f) && |VersionsOf(st', f)| == k + 1 && st'.versions[w].number == k + 1;
    forall n ensures n in NumbersOf(st', f) <==> n in NumbersOf(st, f) || n == k + 1 {
      if n in NumbersOf(st', f) {
        var v :| v in st'.versions && st'.versions[v].flowId == f && st'.versions[v].number == n;
        assert v in VersionsOf(st', f);
      }
      if n in NumbersOf(st, f) {
        var v :| v in st.versions && st.versions[v].flowId == f && st.versions[v].number == n;
        assert v in VersionsOf(st, f) && v in VersionsOf(st', f);
      }
      if n == k + 1 { assert w in VersionsOf(st', f); }
    }
  }

  lemma {:induction false} KeptNumbered(st: Store, st': Store, flows: set<int>)
    requires Numbered(st) && OthersKept(st, st', flows) && forall f :: f in flows ==> NumberedAt(st', f)
    ensures Numbered(st')
  {
    forall f ensures NumberedAt(st', f) {
      if f !in flows {
        assert Kept(st, st', f) && NumberedAt(st, f);
        SameNumbers(st, st', f);
      }
    }
  }

  lemma {:induction false} SavedNumbered(st: Store, st': Store, id: int, dto: UpdateDto)
    requires Numbered(st) && id in st.flows && Latest(st.versions, id).Some? && SavedAs(st, st', id, dto)
    ensures NumberedAt(st', id)
  {
    assert NumberedAt(st, id);
    if AddsVersion(st, id, dto) { ExtendingNumbers(st, st', id, NextOf(st, id, dto)); } else { RewritingKeepsNumbers(st, st', id, NextOf(st, id, dto)); }
  }

  lemma {:induction false} SynchronisedNumbered(st: Store, st': Store, root: int, stored: Option<Snapshot>, full: Snapshot, autoSave: bool)
    requires Numbered(st) && Synchronised(st, st', root, stored, full, autoSave)
    ensures NumberedAt(st', root)
  {
    assert NumberedAt(st, root);
    if ExactlyEqual(stored, Some(full)) {
      SameNumbers(st, st', root);
    } else if autoSave || StructurallyEqual(stored, Some(full)) {
      RewritingKeepsNumbers(st, st', root, full);
    } else {
      ExtendingNumbers(st, st', root, full);
    }
  }

  lemma {:induction false} RootUpdateNumbered(ops: seq<Op>, id: int, dto: UpdateDto)
    requires Numbered(After(ops)) && Differs(After(ops), id, dto) && ParentAfter(After(ops), id, dto).None?
    ensures Update(After(ops), id, dto, true).Ok? && Numbered(Update(After(ops), id, dto, true).value)
  {
    RootUpdateHistory(ops, id, dto);
    SavedNumbered(After(ops), Update(After(ops), id, dto, true).value, id, dto);
    KeptNumbered(After(ops), Update(After(ops), id, dto, true).value, {id});
  }

  lemma {:induction false} SubflowUpdateNumbered(ops: seq<Op>, id: int, dto: UpdateDto)
    requires Numbered(After(ops)) && Differs(After(ops), id, dto) && ParentAfter(After(ops), id, dto).Some? && Rooted(After(ops), id, dto)
    ensures Update(After(ops), id, dto, true).Ok? && Numbered(Update(After(ops), id, dto, true).value)
  {
    SubflowUpdateHistory(ops, id, dto);
    var st, st' := After(ops), Update(After(ops), id, dto, true).value;
    var root := RootOf(st'.flows, id, {}).value;
    BothNumbered(st, st', id, root, dto, StoredOf(st, root), FullTree(st', root, {}).value);
  }

  lemma {:induction false} BothNumbered(st: Store, st': Store, id: int, root: int, dto: UpdateDto, stored: Option<Snapshot>, full: Snapshot)
    requires Numbered(st) && id in st.flows && Latest(st.versions, id).Some? && SavedAs(st, st', id, dto)
    requires Synchronised(st, st', root, stored, full, dto.autoSave) && OthersKept(st, st', {id, root})
    ensures Numbered(st')
  {
    SavedNumbered(st, st', id, dto);
    SynchronisedNumbered(st, st', root, stored, full, dto.autoSave);
    TwoNumbered(st, st', id, root);
  }

  lemma {:induction false} TwoNumbered(st: Store, st': Store, f: int, g: int)
    requires Numbered(st) && OthersKept(st, st', {f, g}) && NumberedAt(st', f) && NumberedAt(st', g)
    ensures Numbered(st')
  {
    KeptNumbered(st, st', {f, g});
  }

  lemma {:induction false} UpdateNumbered(ops: seq<Op>, id: int, dto: UpdateDto)
    requires Numbered(After(ops)) && Update(After(ops), id, dto, true).Ok?
    ensures Numbered(Update(After(ops), id, dto, true).value)
  {
    EveryRunKeeps(ops);
    if Differs(After(ops), id, dto) {
      DifferingUpdate(After(ops), id, dto);
      if ParentAfter(After(ops), id, dto).None? { RootUpdateNumbered(ops, id, dto); } else { SubflowUpdateNumbered(ops, id, dto); }
    }
  }

  lemma {:induction false} PublishNumbered(ops: seq<Op>, id: int)
    requires Numbered(After(ops)) && CreateVersion(After(ops), id).Ok?
    ensures Numbered(CreateVersion(After(ops), id).value.0)
  {
    PublishHistory(ops, id);
    var st, st' := After(ops), CreateVersion(After(ops), id).value.0;
    var root := RootOf(st.flows, id, {}).value;
    var full := FullTree(st, root, {}).value;
    assert NumberedAt(st, root);
    if StructurallyEqual(StoredOf(st, root), Some(full)) { SameNumbers(st, st', root); } else { ExtendingNumbers(st, st', root, full); }
    KeptNumbered(st, st', {root});
  }

  lemma {:induction false} CreateNumbered(ops: seq<Op>, id: int, dto: UpdateDto)
    requires Numbered(After(ops)) && id > 0 && id !in After(ops).flows
    ensures Numbered(Create(After(ops), id, dto, true).value)
  {
    CreateHistory(ops, id, dto);
    var st, st' := After(ops), Create(After(ops), id, dto, true).value;
    var v := Latest(st'.versions, id).value;
    assert OneTo(1) == {1};
    assert v in VersionsOf(st', id);
    assert NumbersOf(st', id) == {1} by {
      forall n ensures n in NumbersOf(st', id) <==> n == 1 {
        if n in NumbersOf(st', id) {
          var w :| w in st'.versions && st'.versions[w].flowId == id && st'.versions[w].number == n;
          assert w in VersionsOf(st', id);
        }
      }
    }
    KeptNumbered(st, st', {id});
  }

  lemma {:induction false} RestoredNumbered(st: Store, f: int, snapshot: Snapshot, name: Option<string>, nodes: seq<NodeDto>, edges: seq<EdgeDto>)
    requires Valid(st) && Numbered(st) && f in st.flows
    ensures var st' := Renamed(AddVersion(st, f, snapshot, nodes, edges), f, name); Valid(st') && Numbered(st')
  {
    var st' := Renamed(AddVersion(st, f, snapshot, nodes, edges), f, name);
    RestoredExtends(st, f, snapshot, name, nodes, edges);
    assert NumberedAt(st, f);
    ExtendingNumbers(st, st', f, snapshot);
    KeptNumbered(st, st', {f});
  }

  lemma {:induction false} RestoreSubflowsNumbered(st: Store, ss: seq<Snapshot>)
    requires Valid(st) && Numbered(st) && RestoreSubflows(st, ss).Ok?
    ensures Valid(RestoreSubflows(st, ss).value) && Numbered(RestoreSubflows(st, ss).value)
    decreases ForestSize(ss)
  {
    if ss != [] {
      var s := ss[0];
      TreeSizeOfChildren(s);
      if s.Id() <= 0 {
        RestoreSubflowsNumbered(st, ss[1..]);
      } else {
        RestoredNumbered(st, s.Id(), ListedAlone(s), s.name, Map(NodeToDto, s.nodes), Map(EdgeToDto, s.edges));
        var st1 := RestoreOne(st, s);
        RestoreSubflowsNumbered(st1, s.Children());
        RestoreSubflowsNumbered(RestoreSubflows(st1, s.Children()).value, ss[1..]);
      }
    }
  }

  lemma {:induction false} RestoreNumbered(st: Store, id: int, v: int)
    requires Valid(st) && Numbered(st) && RestoreVersion(st, id, v).Ok?
    ensures Numbered(RestoreVersion(st, id, v).value)
  {
    var s := st.versions[v].snapshot.value;
    RestoredNumbered(st, id, s, s.name, Map(RestoredNode, s.nodes), Map(RestoredEdge, s.edges));
    RestoreSubflowsNumbered(RestoreRoot(st, id, s), s.Children());
  }

  /** Deleting flows takes all their versions and no other. */
  lemma {:induction false} RemoveHistory(st: Store, gone: set<int>)
    requires Valid(st)
    ensures var st' := Without(st, gone); OthersKept(st, st', gone) && forall f :: f in gone ==> VersionsOf(st', f) == {}
  {
    LatestWithoutAll(st, gone);
    var st' := Without(st, gone);
    forall f | f !in gone ensures Kept(st, st', f) { RemovalKeeps(st, gone, f); }
    forall f | f in gone ensures VersionsOf(st', f) == {} { assert forall v :: v in st'.versions ==> st'.versions[v].flowId !in gone; }
  }

  lemma {:induction false} RemovalKeeps(st: Store, gone: set<int>, f: int)
    requires f !in gone && Latest(Without(st, gone).versions, f) == Latest(st.versions, f)
    ensures Kept(st, Without(st, gone), f)
  {
    var st' := Without(st, gone);
    assert VersionsOf(st', f) == VersionsOf(st, f);
    forall v | v in VersionsOf(st, f) ensures Untouched(st, st', v) { }
  }

  lemma {:induction false} RemoveNumbered(st: Store, gone: set<int>)
    requires Valid(st) && Numbered(st)
    ensures Numbered(Without(st, gone))
  {
    RemoveHistory(st, gone);
    var st' := Without(st, gone);
    forall f | f in gone ensures NumberedAt(st', f) {
      assert VersionsOf(st', f) == {};
      assert forall v :: v in st'.versions ==> st'.versions[v].flowId != f;
      assert NumbersOf(st', f) == {} == OneTo(0);
    }
    KeptNumbered(st, st', gone);
  }

  lemma {:induction false} RenameNumbered(st: Store, id: int, name: Option<string>)
    requires Numbered(st) && id in st.flows
    ensures Numbered(Renamed(st, id, name))
  {
    FlowMoved(st, id, st.flows[id].(name := name.GetOr(st.flows[id].name)));
    KeptNumbered(st, Renamed(st, id, name), {});
  }

  lemma {:induction false} OperationNumbered(ops: seq<Op>, op: Op)
    requires Numbered(After(ops))
    ensures Numbered(Do(After(ops), op))
  {
    EveryRunKeeps(ops);
    var st := After(ops);
    match op
    case CreateFlow(id, dto, accepted) => if id > 0 && id !in st.flows && accepted { CreateNumbered(ops, id, dto); }
    case UpdateFlow(id, dto, accepted) => if Update(st, id, dto, accepted).Ok? { UpdateNumbered(ops, id, dto); }
    case Publish(id) => if CreateVersion(st, id).Ok? { PublishNumbered(ops, id); }
    case Restore(id, v) => if RestoreVersion(st, id, v).Ok? { RestoreNumbered(st, id, v); }
    case Rename(id, name) => if id in st.flows { RenameNumbered(st, id, Some(Strings.Trim(name))); }
    case Remove(id) => RemoveNumbered(st, Subtree(st.flows, id));
  }

  /** Whatever transactions ran: the version numbers of each flow are exactly 1 to how many versions it has. */
  lemma {:induction false} EveryRunNumbers(ops: seq<Op>)
    ensures Numbered(After(ops))
  {
    if ops == [] {
      forall f ensures NumberedAt(Empty, f) { assert VersionsOf(Empty, f) == {} && NumbersOf(Empty, f) == {} == OneTo(0); }
    } else {
      EveryRunNumbers(ops[..|ops| - 1]);
      OperationNumbered(ops[..|ops| - 1], ops[|ops| - 1]);
    }
  }
}
