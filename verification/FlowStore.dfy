/** The version store's transactions as functions of the tables, and what they guarantee. */
module FlowTransactions {
  import opened Wrappers
  import opened Sequences
  import opened Sorting
  import Json
  import Strings
  import opened NodeConfigs
  import opened Snapshots
  import opened FlowForest
  import opened FlowTrees

  // ----- Editor payloads

  datatype NodeDto = NodeDto(
    nodeKey: string,
    nodeType: string,
    nodeLabel: Option<string>,
    positionX: Option<real>,
    positionY: Option<real>,
    config: Option<Json.Fields>,
    groupId: Option<string>,
    subflowId: Option<int>)

  datatype EdgeDto = EdgeDto(
    source: string,
    target: string,
    branchKey: Option<string>,
    condition: Option<string>,
    sourceHandle: Option<string>,
    targetHandle: Option<string>)

  datatype UpdateDto = UpdateDto(
    name: string,
    parent: Option<int>,
    nodes: seq<NodeDto>,
    edges: seq<EdgeDto>,
    autoSave: bool)

  const FLOW_TIMEOUT := "flow_default_timeout_ms"
  const LOGIN_TIMEOUT := "queue_login_default_input_timeout_ms"
  const TIMEOUT_MAX := "120000"

  function Present(v: Option<Json.Value>): Option<Json.Value> {
    if v == Some(Json.Null) then None else v
  }

  /** Validation fills in the default timeout of a root flow's start node. */
  function WithDefaultTimeout(config: Json.Fields): Json.Fields {
    var own := Present(Json.Lookup(config, FLOW_TIMEOUT));
    var raw := if own.Some? then own else Present(Json.Lookup(config, LOGIN_TIMEOUT));
    if raw == None || raw == Some(Json.Str("")) then Json.Put(config, FLOW_TIMEOUT, Json.Num(TIMEOUT_MAX)) else config
  }

  function WithStartDefault(nodes: seq<NodeDto>): seq<NodeDto> {
    if nodes == [] then []
    else if nodes[0].nodeType == "start" then
      [nodes[0].(config := Some(WithDefaultTimeout(nodes[0].config.GetOr([]))))] + nodes[1..]
    else [nodes[0]] + WithStartDefault(nodes[1..])
  }

  function CleanDto(n: NodeDto): NodeDto {
    n.(config := Some(Sanitize(n.nodeType, n.config.GetOr([]))))
  }

  /** The nodes as they are saved, after cleaning and the validator's default. */
  function PreparedNodes(nodes: seq<NodeDto>, parent: Option<int>): seq<NodeDto> {
    var clean := Map(CleanDto, nodes);
    if parent.Some? && parent.value != 0 then clean else WithStartDefault(clean)
  }

  /** Saving changes nothing of a node but its configuration. */
  predicate SameButConfig(n: NodeDto, n': NodeDto) {
    n' == n.(config := n'.config)
  }

  /** The first start node of the list. */
  predicate IsFirstStart(nodes: seq<NodeDto>, i: nat) {
    i < |nodes| && nodes[i].nodeType == "start" && forall j :: 0 <= j < i ==> nodes[j].nodeType != "start"
  }

  lemma {:induction false} StartDefaultAt(nodes: seq<NodeDto>, i: nat)
    requires i < |nodes|
    ensures |WithStartDefault(nodes)| == |nodes|
    ensures WithStartDefault(nodes)[i]
         == if IsFirstStart(nodes, i) then nodes[i].(config := Some(WithDefaultTimeout(nodes[i].config.GetOr([])))) else nodes[i]
  {
    if nodes[0].nodeType != "start" && |nodes| > 1 {
      StartDefaultAt(nodes[1..], if i > 0 then i - 1 else 0);
      if i > 0 {
        assert IsFirstStart(nodes, i) <==> IsFirstStart(nodes[1..], i - 1) by {
          if IsFirstStart(nodes[1..], i - 1) {
            forall j | 0 <= j < i ensures nodes[j].nodeType != "start" { if j > 0 { assert nodes[1..][j - 1] == nodes[j]; } }
          }
          if IsFirstStart(nodes, i) {
            forall j | 0 <= j < i - 1 ensures nodes[1..][j].nodeType != "start" { assert nodes[j + 1].nodeType != "start"; }
          }
        }
      }
    }
  }

  /**
   * Node by node, what is saved is what was sent with its configuration cleaned; only the first start
   * node of a root also gets the default timeout.
   */
  lemma {:induction false} PreparedNodesAre(nodes: seq<NodeDto>, parent: Option<int>, i: nat)
    requires i < |nodes|
    ensures |PreparedNodes(nodes, parent)| == |nodes|
    ensures var n', clean := PreparedNodes(nodes, parent)[i], Sanitize(nodes[i].nodeType, nodes[i].config.GetOr([]));
            && SameButConfig(nodes[i], n')
            && n'.config == Some(if (parent.None? || parent.value == 0) && IsFirstStart(nodes, i) then WithDefaultTimeout(clean) else clean)
  {
    var clean := Map(CleanDto, nodes);
    assert clean[i] == CleanDto(nodes[i]);
    StartDefaultAt(clean, i);
    assert forall j :: 0 <= j < |nodes| ==> clean[j].nodeType == nodes[j].nodeType by {
      forall j | 0 <= j < |nodes| ensures clean[j].nodeType == nodes[j].nodeType { assert clean[j] == CleanDto(nodes[j]); }
    }
    assert IsFirstStart(clean, i) <==> IsFirstStart(nodes, i);
  }

  /** The timeout is missing: neither the flow's own nor the login's is there, or the first that is there is empty. */
  predicate LacksTimeout(config: Json.Fields) {
    var own, login := Present(Json.Lookup(config, FLOW_TIMEOUT)), Present(Json.Lookup(config, LOGIN_TIMEOUT));
    if own.Some? then own.value == Json.Str("") else login == None || login == Some(Json.Str(""))
  }

  /** The default timeout is written exactly where the timeout is missing, and no other field changes. */
  lemma DefaultTimeoutIs(config: Json.Fields, key: string)
    ensures Json.Lookup(WithDefaultTimeout(config), key)
         == if key == FLOW_TIMEOUT && LacksTimeout(config) then Some(Json.Num(TIMEOUT_MAX)) else Json.Lookup(config, key)
  {
    if LacksTimeout(config) { PutLooksUp(config, FLOW_TIMEOUT, Json.Num(TIMEOUT_MAX), key); }
  }

  lemma {:induction false} PutLooksUp(fields: Json.Fields, key: string, value: Json.Value, k: string)
    ensures Json.Lookup(Json.Put(fields, key, value), k) == if k == key then Some(value) else Json.Lookup(fields, k)
  {
    Json.PutThenLookup(fields, key, value);
  }

  /** A node as a snapshot lists it and as a row stores it. */
  function NodeOf(n: NodeDto): Node {
    Node(n.nodeKey, n.nodeType, n.nodeLabel, n.positionX.GetOr(0.0), n.positionY.GetOr(0.0),
         Sanitize(n.nodeType, n.config.GetOr([])), n.groupId, n.subflowId)
  }

  function SnapshotEdge(e: EdgeDto): Edge {
    Edge(e.source, e.target, e.branchKey.GetOr("default"), e.condition, e.sourceHandle, e.targetHandle)
  }

  /** A row falls back on the condition before it falls back on `default`. */
  function RowEdge(e: EdgeDto): Edge {
    Edge(e.source, e.target, e.branchKey.GetOr(e.condition.GetOr("default")), e.condition, e.sourceHandle, e.targetHandle)
  }

  function NodeToDto(n: Node): NodeDto {
    NodeDto(n.nodeKey, n.nodeType, n.nodeLabel, Some(n.positionX), Some(n.positionY),
            Some(Sanitize(n.nodeType, n.config)), n.groupId, n.subflowId)
  }

  function EdgeToDto(e: Edge): EdgeDto {
    EdgeDto(e.source, e.target, Some(e.branchKey), e.condition, e.sourceHandle, e.targetHandle)
  }

  function PayloadSnapshot(nodes: seq<NodeDto>, edges: seq<EdgeDto>): Snapshot {
    Snapshot(None, None, Map(NodeOf, nodes), Map(SnapshotEdge, edges), Absent)
  }

  // ----- Single writes

  function RowsOf<T>(rows: map<int, seq<T>>, v: int): seq<T> {
    if v in rows then rows[v] else []
  }

  /** Inserting rows adds to what the version already has. */
  function SaveRows(st: Store, v: int, nodes: seq<NodeDto>, edges: seq<EdgeDto>): Store {
    st.(nodeRows := st.nodeRows[v := RowsOf(st.nodeRows, v) + Map(NodeOf, nodes)],
        edgeRows := st.edgeRows[v := RowsOf(st.edgeRows, v) + Map(RowEdge, edges)])
  }

  function DropRows(st: Store, v: int): Store {
    st.(nodeRows := st.nodeRows[v := []], edgeRows := st.edgeRows[v := []])
  }

  function ReplaceVersion(st: Store, v: int, snapshot: Snapshot, nodes: seq<NodeDto>, edges: seq<EdgeDto>): Store
    requires v in st.versions
  {
    SaveRows(DropRows(st.(versions := st.versions[v := st.versions[v].(snapshot := Some(snapshot))]), v), v, nodes, edges)
  }

  function NextNumber(st: Store, f: int): int {
    match Latest(st.versions, f)
    case Some(v) => st.versions[v].number + 1
    case None => 1
  }

  /** A new highest-numbered version of `f`, with its rows; `f` points at it. */
  function AddVersion(st: Store, f: int, snapshot: Snapshot, nodes: seq<NodeDto>, edges: seq<EdgeDto>): Store
    requires f in st.flows
  {
    var v := st.nextId;
    var st1 := st.(versions := st.versions[v := Version(f, NextNumber(st, f), Some(snapshot))], nextId := v + 1);
    var st2 := SaveRows(st1, v, nodes, edges);
    st2.(flows := st2.flows[f := st2.flows[f].(current := Some(v))])
  }

  // ----- Transactions

  function AddTree(st: Store, root: int, full: Snapshot): Store
    requires root in st.flows
  {
    AddVersion(st, root, full, Map(NodeToDto, full.nodes), Map(EdgeToDto, full.edges))
  }

  function ReplaceTree(st: Store, v: int, full: Snapshot): Store
    requires v in st.versions
  {
    ReplaceVersion(st, v, full, Map(NodeToDto, full.nodes), Map(EdgeToDto, full.edges))
  }

  /** Autosave: bring the version the root points at up to date. */
  function SyncCurrent(st: Store, root: int): Result<Store, Error>
    requires root in st.flows
  {
    match VersionOf(st, root)
    case None => Ok(st)
    case Some(v) =>
      match FullTree(st, root, {})
      case Err(e) => Err(e)
      case Ok(full) =>
        if v !in st.versions then Err(NotFound)
        else if ExactlyEqual(st.versions[v].snapshot, Some(full)) then Ok(st)
        else Ok(ReplaceTree(st, v, full))
  }

  function StoredOrEmpty(st: Store, v: Option<int>): Snapshot
    requires v.Some? ==> v.value in st.versions
  {
    if v.Some? && st.versions[v.value].snapshot.Some? then st.versions[v.value].snapshot.value
    else PayloadSnapshot([], [])
  }

  /** Explicit save: do nothing, replace the root's newest version, or add one. */
  function SyncNewest(st: Store, root: int): Result<Store, Error>
    requires root in st.flows
  {
    match FullTree(st, root, {})
    case Err(e) => Err(e)
    case Ok(full) =>
      var v := Latest(st.versions, root);
      var previous := StoredOrEmpty(st, v);
      if StructurallyEqual(Some(previous), Some(full)) then
        if v.Some? && !ExactlyEqual(Some(previous), Some(full)) then Ok(ReplaceTree(st, v.value, full)) else Ok(st)
      else if !ExactlyEqual(Some(previous), Some(full)) then Ok(AddTree(st, root, full))
      else Ok(st)
  }

  function SyncRoot(st: Store, id: int, autoSave: bool): Result<Store, Error> {
    match RootOf(st.flows, id, {})
    case Err(e) => Err(e)
    case Ok(root) => if autoSave then SyncCurrent(st, root) else SyncNewest(st, root)
  }

  function Reparented(flow: Flow, dto: UpdateDto, v: int): Flow {
    Flow(dto.name, if dto.parent.Some? then dto.parent else flow.parent, Some(v))
  }

  /** The snapshot an update would store; a root's also lists its subflows. */
  function NextSnapshot(st: Store, id: int, flow: Flow, nodes: seq<NodeDto>, edges: seq<EdgeDto>): Snapshot {
    var base := PayloadSnapshot(nodes, edges);
    if flow.parent.Some? then base
    else base.(flowId := Some(id), name := Some(flow.name), subflows := Packed(SaveTrees(st, ChildIds(st.flows, id), {id})))
  }

  /** The write of an update, once it is known to change something. */
  function WriteUpdate(st: Store, id: int, v: int, flow: Flow, next: Snapshot, nodes: seq<NodeDto>, dto: UpdateDto): Store
    requires id in st.flows && v in st.versions
  {
    var st1 := st.(flows := st.flows[id := flow]);
    if dto.autoSave || StructurallyEqual(Some(StoredOrEmpty(st, Some(v))), Some(next))
    then ReplaceVersion(st1, v, next, nodes, dto.edges)
    else AddVersion(st1, id, next, nodes, dto.edges)
  }

  /** Whether the update finds its payload already stored. */
  predicate Unchanged(st: Store, id: int, v: int, dto: UpdateDto)
    requires id in st.flows && v in st.versions
  {
    var flow := Reparented(st.flows[id], dto, v);
    var nodes := PreparedNodes(dto.nodes, flow.parent);
    ExactlyEqual(Some(StoredOrEmpty(st, Some(v))), Some(NextSnapshot(st, id, flow, nodes, dto.edges)))
  }

  /** `update`; `accepted` is the verdict of the node and edge validators on the payload. */
  function Update(st: Store, id: int, dto: UpdateDto, accepted: bool): Result<Store, Error> {
    if id !in st.flows then Err(NotFound)
    else
      match Latest(st.versions, id)
      case None => Err(NotFound)
      case Some(v) =>
        var flow := Reparented(st.flows[id], dto, v);
        var nodes := PreparedNodes(dto.nodes, flow.parent);
        var next := NextSnapshot(st, id, flow, nodes, dto.edges);
        if !accepted then Err(Rejected)
        else if Unchanged(st, id, v, dto) then Ok(st)
        else
          var st1 := WriteUpdate(st, id, v, flow, next, nodes, dto);
          if flow.parent.None? then Ok(st1) else SyncRoot(st1, id, dto.autoSave)
  }

  function FirstOfType(nodes: seq<Node>, nodeType: string): Option<Node> {
    if nodes == [] then None
    else if nodes[0].nodeType == nodeType then Some(nodes[0])
    else FirstOfType(nodes[1..], nodeType)
  }

  predicate HangsUpImmediately(s: Snapshot) {
    && |s.nodes| == 2 && |s.edges| == 1
    && var start, hangup := FirstOfType(s.nodes, "start"), FirstOfType(s.nodes, "hangup");
       && start.Some? && hangup.Some?
       && s.edges[0].source == start.value.nodeKey && s.edges[0].target == hangup.value.nodeKey
  }

  /** The flow is a start node, a hangup node and the one edge from the first to the second. */
  ghost predicate OnlyHangsUp(s: Snapshot) {
    && |s.nodes| == 2 && |s.edges| == 1
    && exists i, j :: 0 <= i < 2 && 0 <= j < 2 && s.nodes[i].nodeType == "start" && s.nodes[j].nodeType == "hangup"
         && s.edges[0].source == s.nodes[i].nodeKey && s.edges[0].target == s.nodes[j].nodeKey
  }

  lemma FirstOfTwo(nodes: seq<Node>, nodeType: string)
    requires |nodes| == 2
    ensures FirstOfType(nodes, nodeType)
         == if nodes[0].nodeType == nodeType then Some(nodes[0]) else if nodes[1].nodeType == nodeType then Some(nodes[1]) else None
  {
    assert nodes[1..] == [nodes[1]] && nodes[1..][1..] == [];
    assert FirstOfType(nodes[1..][1..], nodeType) == None;
    assert FirstOfType(nodes[1..], nodeType) == if nodes[1].nodeType == nodeType then Some(nodes[1]) else None;
  }

  /** What publishing refuses: exactly the flows that only hang up. */
  lemma HangsUpIff(s: Snapshot)
    ensures HangsUpImmediately(s) <==> OnlyHangsUp(s)
  {
    if |s.nodes| == 2 {
      FirstOfTwo(s.nodes, "start");
      FirstOfTwo(s.nodes, "hangup");
      assert |"start"| != |"hangup"|;
      if HangsUpImmediately(s) {
        var i := if s.nodes[0].nodeType == "start" then 0 else 1;
        assert s.nodes[i].nodeType == "start" && s.nodes[1 - i].nodeType == "hangup";
      }
    }
  }

  /** `createVersion`: the tables afterwards and the version it reports. */
  function CreateVersion(st: Store, id: int): Result<(Store, int), Error> {
    match RootOf(st.flows, id, {})
    case Err(e) => Err(e)
    case Ok(root) =>
      match FullTree(st, root, {})
      case Err(e) => Err(e)
      case Ok(full) =>
        if HangsUpImmediately(full) then Err(Rejected)
        else
          var v := Latest(st.versions, root);
          if v.Some? && StructurallyEqual(st.versions[v.value].snapshot, Some(full)) then Ok((st, v.value))
          else Ok((AddTree(st, root, full), st.nextId))
  }

  // ----- The run invariant

  /**
   * Ids are positive and fresh, rows belong to versions, versions to flows, numbers are distinct
   * within a flow, and every flow points at its newest version.
   */
  ghost predicate Valid(st: Store) {
    && (forall f :: f in st.flows ==> f > 0)
    && (forall v :: v in st.versions ==> st.versions[v].flowId in st.flows)
    && (forall v :: v in st.versions ==> 0 < v < st.nextId)
    && st.nodeRows.Keys <= st.versions.Keys && st.edgeRows.Keys <= st.versions.Keys
    && st.nextId > 0
    && DistinctNumbers(st.versions)
    && (forall f :: f in st.flows ==> st.flows[f].current == Latest(st.versions, f))
  }

  lemma SameNumbersSameLatest(vs: map<int, Version>, v: int, snapshot: Option<Snapshot>, f: int)
    requires DistinctNumbers(vs) && v in vs
    ensures DistinctNumbers(vs[v := vs[v].(snapshot := snapshot)])
    ensures Latest(vs[v := vs[v].(snapshot := snapshot)], f) == Latest(vs, f)
  {
    var vs' := vs[v := vs[v].(snapshot := snapshot)];
    assert forall w :: w in vs' ==> w in vs && vs'[w].flowId == vs[w].flowId && vs'[w].number == vs[w].number;
    var l := Latest(vs, f);
    if l.Some? {
      assert IsLatest(vs', f, l.value);
      LatestIsUnique(vs', f, l.value);
    }
  }

  lemma AddedIsLatest(vs: map<int, Version>, v: int, added: Version, f: int)
    requires DistinctNumbers(vs) && v !in vs
    requires forall w :: w in vs && vs[w].flowId == added.flowId ==> vs[w].number < added.number
    ensures DistinctNumbers(vs[v := added])
    ensures Latest(vs[v := added], f) == if f == added.flowId then Some(v) else Latest(vs, f)
  {
    var vs' := vs[v := added];
    assert forall w :: w in vs' && w != v ==> w in vs && vs'[w] == vs[w];
    if f == added.flowId {
      assert IsLatest(vs', f, v);
      LatestIsUnique(vs', f, v);
    } else if Latest(vs, f).Some? {
      assert IsLatest(vs', f, Latest(vs, f).value);
      LatestIsUnique(vs', f, Latest(vs, f).value);
    }
  }

  /** The tables after version `v` got a new snapshot and new rows. */
  ghost predicate Replaced(st: Store, st': Store, v: int, snapshot: Snapshot, nodes: seq<Node>, edges: seq<Edge>) {
    && v in st.versions
    && st'.flows == st.flows && st'.nextId == st.nextId
    && st'.versions == st.versions[v := st.versions[v].(snapshot := Some(snapshot))]
    && st'.nodeRows == st.nodeRows[v := nodes] && st'.edgeRows == st.edgeRows[v := edges]
  }

  /** The tables after flow `f` got a new newest version. */
  ghost predicate Added(st: Store, st': Store, f: int, snapshot: Snapshot, nodes: seq<Node>, edges: seq<Edge>) {
    && f in st.flows
    && st'.flows == st.flows[f := st.flows[f].(current := Some(st.nextId))] && st'.nextId == st.nextId + 1
    && st'.versions == st.versions[st.nextId := Version(f, NextNumber(st, f), Some(snapshot))]
    && st'.nodeRows == st.nodeRows[st.nextId := nodes] && st'.edgeRows == st.edgeRows[st.nextId := edges]
  }

  lemma ReplaceIsReplaced(st: Store, v: int, snapshot: Snapshot, nodes: seq<NodeDto>, edges: seq<EdgeDto>)
    requires v in st.versions
    ensures Replaced(st, ReplaceVersion(st, v, snapshot, nodes, edges), v, snapshot, Map(NodeOf, nodes), Map(RowEdge, edges))
  {
    assert [] + Map(NodeOf, nodes) == Map(NodeOf, nodes);
    assert [] + Map(RowEdge, edges) == Map(RowEdge, edges);
  }

  lemma AddIsAdded(st: Store, f: int, snapshot: Snapshot, nodes: seq<NodeDto>, edges: seq<EdgeDto>)
    requires f in st.flows && st.nextId !in st.nodeRows && st.nextId !in st.edgeRows
    ensures Added(st, AddVersion(st, f, snapshot, nodes, edges), f, snapshot, Map(NodeOf, nodes), Map(RowEdge, edges))
  {
    assert [] + Map(NodeOf, nodes) == Map(NodeOf, nodes);
    assert [] + Map(RowEdge, edges) == Map(RowEdge, edges);
  }

  lemma ReplacedLatest(st: Store, st': Store, v: int, snapshot: Snapshot, nodes: seq<Node>, edges: seq<Edge>)
    requires DistinctNumbers(st.versions) && Replaced(st, st', v, snapshot, nodes, edges)
    ensures DistinctNumbers(st'.versions)
    ensures forall f :: Latest(st'.versions, f) == Latest(st.versions, f)
  {
    forall f ensures Latest(st'.versions, f) == Latest(st.versions, f) && DistinctNumbers(st'.versions) {
      SameNumbersSameLatest(st.versions, v, Some(snapshot), f);
    }
  }

  lemma AddedLatest(st: Store, st': Store, f: int, snapshot: Snapshot, nodes: seq<Node>, edges: seq<Edge>)
    requires Valid(st) && Added(st, st', f, snapshot, nodes, edges)
    ensures DistinctNumbers(st'.versions)
    ensures Latest(st'.versions, f) == Some(st.nextId)
    ensures forall g :: g != f ==> Latest(st'.versions, g) == Latest(st.versions, g)
  {
    var added := Version(f, NextNumber(st, f), Some(snapshot));
    forall g ensures DistinctNumbers(st'.versions) && Latest(st'.versions, g) == if g == f then Some(st.nextId) else Latest(st.versions, g) {
      AddedIsLatest(st.versions, st.nextId, added, g);
    }
  }

  lemma ReplacedValid(st: Store, st': Store, v: int, snapshot: Snapshot, nodes: seq<Node>, edges: seq<Edge>)
    requires Valid(st) && Replaced(st, st', v, snapshot, nodes, edges)
    ensures Valid(st')
  {
    ReplacedLatest(st, st', v, snapshot, nodes, edges);
    assert st'.versions.Keys == st.versions.Keys;
  }

  lemma AddedValid(st: Store, st': Store, f: int, snapshot: Snapshot, nodes: seq<Node>, edges: seq<Edge>)
    requires Valid(st) && Added(st, st', f, snapshot, nodes, edges)
    ensures Valid(st')
  {
    AddedLatest(st, st', f, snapshot, nodes, edges);
    assert st'.versions.Keys == st.versions.Keys + {st.nextId};
  }

  // ----- Rows written from a tree read back as that tree

  lemma EdgesBack(edges: seq<Edge>)
    ensures Map(RowEdge, Map(EdgeToDto, edges)) == edges
  {
    forall i | 0 <= i < |edges| ensures RowEdge(EdgeToDto(edges[i])) == edges[i] { }
  }

  ghost predicate Clean(nodes: seq<Node>) {
    forall i :: 0 <= i < |nodes| ==> ReadNode(nodes[i]) == nodes[i]
  }

  lemma PayloadIsClean(nodes: seq<NodeDto>)
    ensures Clean(Map(NodeOf, nodes))
  {
    forall i | 0 <= i < |nodes| ensures ReadNode(NodeOf(nodes[i])) == NodeOf(nodes[i]) {
      SanitizeIdempotent(nodes[i].nodeType, nodes[i].config.GetOr([]));
    }
  }

  lemma ContentIsClean(st: Store, id: int)
    requires id in st.flows
    ensures Clean(Content(st, id).0)
  {
    var v := VersionOf(st, id);
    if v.Some? && v.value in st.nodeRows {
      forall i | 0 <= i < |st.nodeRows[v.value]| ensures ReadNode(ReadNode(st.nodeRows[v.value][i])) == ReadNode(st.nodeRows[v.value][i]) {
        SanitizeIdempotent(st.nodeRows[v.value][i].nodeType, st.nodeRows[v.value][i].config);
      }
    }
  }

  lemma ReplacedContent(st: Store, st': Store, v: int, snapshot: Snapshot, nodes: seq<Node>, edges: seq<Edge>, x: int)
    requires Valid(st) && Replaced(st, st', v, snapshot, nodes, edges) && x in st.flows && Clean(nodes)
    ensures VersionOf(st', x) == VersionOf(st, x)
    ensures Content(st', x) == if VersionOf(st, x) == Some(v) then (nodes, edges) else Content(st, x)
  {
    ReplacedLatest(st, st', v, snapshot, nodes, edges);
    assert Map(ReadNode, nodes) == nodes;
  }

  lemma AddedContent(st: Store, st': Store, f: int, snapshot: Snapshot, nodes: seq<Node>, edges: seq<Edge>, x: int)
    requires Valid(st) && Added(st, st', f, snapshot, nodes, edges) && x in st.flows && Clean(nodes)
    ensures Content(st', x) == if x == f then (nodes, edges) else Content(st, x)
    ensures x != f ==> VersionOf(st', x) == VersionOf(st, x)
  {
    AddedLatest(st, st', f, snapshot, nodes, edges);
    assert Map(ReadNode, nodes) == nodes;
  }

  lemma TreePayloadBack(full: Snapshot)
    requires Clean(full.nodes)
    ensures Map(NodeOf, Map(NodeToDto, full.nodes)) == full.nodes
    ensures Map(RowEdge, Map(EdgeToDto, full.edges)) == full.edges
  {
    NodesBack(full.nodes);
    EdgesBack(full.edges);
  }

  /** Writing the reread tree of a root into its own version changes nothing that is reread. */
  lemma ReplaceTreeKeepsTree(st: Store, root: int, v: int, full: Snapshot)
    requires Valid(st) && IsRoot(st.flows, root) && VersionOf(st, root) == Some(v) && v in st.versions
    requires FullTree(st, root, {}) == Ok(full)
    ensures var st' := ReplaceTree(st, v, full);
            && Replaced(st, st', v, full, full.nodes, full.edges)
            && Valid(st') && SameTree(st, st') && FullTree(st', root, {}) == Ok(full)
  {
    var st' := ReplaceTree(st, v, full);
    RootContent(st, root, full);
    TreePayloadBack(full);
    ReplaceIsReplaced(st, v, full, Map(NodeToDto, full.nodes), Map(EdgeToDto, full.edges));
    ReplacedValid(st, st', v, full, full.nodes, full.edges);
    forall x | x in st.flows ensures Content(st', x) == Content(st, x) {
      ReplacedContent(st, st', v, full, full.nodes, full.edges, x);
      if VersionOf(st, x) == Some(v) { VersionsBelong(st, x, root, v); }
    }
    SameTreeSameSnapshot(st, st', root, {});
  }

  lemma AddTreeKeepsTree(st: Store, root: int, full: Snapshot)
    requires Valid(st) && IsRoot(st.flows, root)
    requires FullTree(st, root, {}) == Ok(full)
    ensures var st' := AddTree(st, root, full);
            && Added(st, st', root, full, full.nodes, full.edges)
            && Valid(st') && SameTree(st, st') && FullTree(st', root, {}) == Ok(full)
  {
    var st' := AddTree(st, root, full);
    RootContent(st, root, full);
    TreePayloadBack(full);
    AddIsAdded(st, root, full, Map(NodeToDto, full.nodes), Map(EdgeToDto, full.edges));
    AddedValid(st, st', root, full, full.nodes, full.edges);
    forall x | x in st.flows ensures Content(st', x) == Content(st, x) {
      AddedContent(st, st', root, full, full.nodes, full.edges, x);
    }
    SameTreeSameSnapshot(st, st', root, {});
  }

  lemma NodesBack(nodes: seq<Node>)
    requires Clean(nodes)
    ensures Map(NodeOf, Map(NodeToDto, nodes)) == nodes
  {
    forall i | 0 <= i < |nodes| ensures NodeOf(NodeToDto(nodes[i])) == nodes[i] {
      SanitizeIdempotent(nodes[i].nodeType, nodes[i].config);
    }
  }

  lemma RootContent(st: Store, root: int, full: Snapshot)
    requires root in st.flows && FullTree(st, root, {}) == Ok(full)
    ensures (full.nodes, full.edges) == Content(st, root)
    ensures Clean(full.nodes)
  {
    ContentIsClean(st, root);
  }

  lemma VersionsBelong(st: Store, x: int, y: int, v: int)
    requires Valid(st) && x in st.flows && y in st.flows
    requires VersionOf(st, x) == VersionOf(st, y) == Some(v)
    ensures x == y
  {
  }

  // ----- After a subflow update the root is up to date

  /** The newest stored snapshot of the root, if any, compares equal to the tree reread from the rows. */
  ghost predicate RootFresh(st: Store, root: int) {
    && FullTree(st, root, {}).Ok?
    && (Latest(st.versions, root).Some? ==>
          ExactlyEqual(st.versions[Latest(st.versions, root).value].snapshot, Some(FullTree(st, root, {}).value)))
  }

  lemma {:induction false} SyncCurrentFresh(st: Store, root: int)
    requires Valid(st) && IsRoot(st.flows, root)
    ensures SyncCurrent(st, root).Ok?
    ensures var st' := SyncCurrent(st, root).value;
            Valid(st') && RootFresh(st', root) && SameTree(st, st')
  {
    BuildersAgree(st, root, false);
    var v := VersionOf(st, root);
    if v.Some? {
      var full := FullTree(st, root, {}).value;
      if !ExactlyEqual(st.versions[v.value].snapshot, Some(full)) {
        ReplaceTreeFresh(st, root, v.value, full);
      }
    }
  }

  lemma {:induction false} SyncNewestFresh(st: Store, root: int)
    requires Valid(st) && IsRoot(st.flows, root)
    ensures SyncNewest(st, root).Ok?
    ensures var st' := SyncNewest(st, root).value;
            Valid(st') && RootFresh(st', root) && SameTree(st, st')
  {
    BuildersAgree(st, root, false);
    var full, v := FullTree(st, root, {}).value, Latest(st.versions, root);
    var previous := StoredOrEmpty(st, v);
    if !ExactlyEqual(Some(previous), Some(full)) {
      if !StructurallyEqual(Some(previous), Some(full)) {
        AddTreeFresh(st, root, full);
      } else if v.Some? {
        ReplaceTreeFresh(st, root, v.value, full);
      }
    }
  }

  lemma {:induction false} AddTreeFresh(st: Store, root: int, full: Snapshot)
    requires Valid(st) && IsRoot(st.flows, root) && FullTree(st, root, {}) == Ok(full)
    ensures var st' := AddTree(st, root, full); Valid(st') && RootFresh(st', root) && SameTree(st, st')
  {
    AddTreeKeepsTree(st, root, full);
    AddedLatest(st, AddTree(st, root, full), root, full, full.nodes, full.edges);
  }

  lemma {:induction false} ReplaceTreeFresh(st: Store, root: int, v: int, full: Snapshot)
    requires Valid(st) && IsRoot(st.flows, root) && FullTree(st, root, {}) == Ok(full)
    requires VersionOf(st, root) == Some(v) && v in st.versions
    ensures var st' := ReplaceTree(st, v, full); Valid(st') && RootFresh(st', root) && SameTree(st, st')
  {
    ReplaceTreeKeepsTree(st, root, v, full);
    ReplacedLatest(st, ReplaceTree(st, v, full), v, full, full.nodes, full.edges);
  }

  /** What the write of an update leaves behind. */
  ghost predicate Written(st: Store, st1: Store, id: int, flow: Flow, next: Snapshot, nodes: seq<Node>, edges: seq<Edge>) {
    && Valid(st1)
    && id in st1.flows && st1.flows.Keys == st.flows.Keys
    && st1.flows[id].name == flow.name && st1.flows[id].parent == flow.parent
    && (forall x :: x in st.flows && x != id ==> st1.flows[x] == st.flows[x])
    && Content(st1, id) == (nodes, edges)
    && (forall x :: x in st.flows && x != id ==> VersionOf(st1, x) == VersionOf(st, x) && Content(st1, x) == Content(st, x))
    && Latest(st1.versions, id).Some? && st1.versions[Latest(st1.versions, id).value].snapshot == Some(next)
  }

  lemma FlowSaved(st: Store, id: int, flow: Flow)
    requires Valid(st) && id in st.flows && flow.current == Latest(st.versions, id)
    ensures Valid(st.(flows := st.flows[id := flow]))
    ensures forall x :: x in st.flows ==>
              && VersionOf(st.(flows := st.flows[id := flow]), x) == VersionOf(st, x)
              && Content(st.(flows := st.flows[id := flow]), x) == Content(st, x)
  {
    var st1 := st.(flows := st.flows[id := flow]);
    assert st1.flows.Keys == st.flows.Keys;
    forall x | x in st.flows ensures st1.flows[x].current == Latest(st.versions, x) && VersionOf(st1, x) == VersionOf(st, x) && Content(st1, x) == Content(st, x) {
      assert st.flows[x].current == Latest(st.versions, x);
    }
  }

  lemma ReplaceWrites(st: Store, st1: Store, id: int, v: int, flow: Flow, next: Snapshot, ns: seq<Node>, es: seq<Edge>)
    requires Valid(st) && id in st.flows && Latest(st.versions, id) == Some(v) && flow.current == Some(v) && Clean(ns)
    requires Replaced(st.(flows := st.flows[id := flow]), st1, v, next, ns, es)
    ensures Written(st, st1, id, flow, next, ns, es)
  {
    var st0 := st.(flows := st.flows[id := flow]);
    FlowSaved(st, id, flow);
    ReplacedValid(st0, st1, v, next, ns, es);
    ReplacedLatest(st0, st1, v, next, ns, es);
    forall x | x in st.flows ensures VersionOf(st1, x) == VersionOf(st0, x) && Content(st1, x) == if x == id then (ns, es) else Content(st, x) {
      ReplacedContent(st0, st1, v, next, ns, es, x);
      if x != id && VersionOf(st0, x) == Some(v) { VersionsBelong(st0, x, id, v); }
    }
  }

  lemma AddWrites(st: Store, st1: Store, id: int, flow: Flow, next: Snapshot, ns: seq<Node>, es: seq<Edge>)
    requires Valid(st) && id in st.flows && flow.current == Latest(st.versions, id) && Clean(ns)
    requires Added(st.(flows := st.flows[id := flow]), st1, id, next, ns, es)
    ensures Written(st, st1, id, flow, next, ns, es)
  {
    var st0 := st.(flows := st.flows[id := flow]);
    FlowSaved(st, id, flow);
    AddedValid(st0, st1, id, next, ns, es);
    AddedLatest(st0, st1, id, next, ns, es);
    forall x | x in st.flows
      ensures Content(st1, x) == (if x == id then (ns, es) else Content(st, x))
      ensures x != id ==> VersionOf(st1, x) == VersionOf(st0, x)
    {
      AddedContent(st0, st1, id, next, ns, es, x);
    }
  }

  lemma WriteUpdateWrites(st: Store, id: int, v: int, flow: Flow, next: Snapshot, nodes: seq<NodeDto>, dto: UpdateDto)
    requires Valid(st) && id in st.flows && Latest(st.versions, id) == Some(v) && flow.current == Some(v)
    ensures Written(st, WriteUpdate(st, id, v, flow, next, nodes, dto), id, flow, next, Map(NodeOf, nodes), Map(RowEdge, dto.edges))
  {
    var st0 := st.(flows := st.flows[id := flow]);
    var st1 := WriteUpdate(st, id, v, flow, next, nodes, dto);
    PayloadIsClean(nodes);
    if dto.autoSave || StructurallyEqual(Some(StoredOrEmpty(st, Some(v))), Some(next)) {
      ReplaceIsReplaced(st0, v, next, nodes, dto.edges);
      ReplaceWrites(st, st1, id, v, flow, next, Map(NodeOf, nodes), Map(RowEdge, dto.edges));
    } else {
      AddIsAdded(st0, id, next, nodes, dto.edges);
      AddWrites(st, st1, id, flow, next, Map(NodeOf, nodes), Map(RowEdge, dto.edges));
    }
  }

  /** Every update keeps the run invariant. */
  lemma UpdateKeepsValid(st: Store, id: int, dto: UpdateDto, accepted: bool)
    requires Valid(st) && Update(st, id, dto, accepted).Ok?
    ensures Valid(Update(st, id, dto, accepted).value)
  {
    var v := Latest(st.versions, id).value;
    if !Unchanged(st, id, v, dto) {
      var flow := Reparented(st.flows[id], dto, v);
      var nodes := PreparedNodes(dto.nodes, flow.parent);
      var next := NextSnapshot(st, id, flow, nodes, dto.edges);
      WriteUpdateWrites(st, id, v, flow, next, nodes, dto);
      var st1 := WriteUpdate(st, id, v, flow, next, nodes, dto);
      if flow.parent.Some? { SyncRootFresh(st1, id, dto.autoSave); }
    }
  }

  lemma SyncRootFresh(st: Store, id: int, autoSave: bool)
    requires Valid(st) && SyncRoot(st, id, autoSave).Ok?
    ensures var st' := SyncRoot(st, id, autoSave).value;
            && Valid(st') && SameTree(st, st')
            && RootOf(st'.flows, id, {}).Ok? && RootFresh(st', RootOf(st'.flows, id, {}).value)
  {
    var root := RootOf(st.flows, id, {}).value;
    if autoSave { SyncCurrentFresh(st, root); } else { SyncNewestFresh(st, root); }
    SameParentsSameRoot(st.flows, SyncRoot(st, id, autoSave).value.flows, id, {});
  }

  /**
   * Whenever an update of a subflow writes, autosaved or not, the newest stored snapshot of its
   * root compares equal to the tree reread from the rows afterwards.
   */
  lemma SubflowUpdateFreshensRoot(st: Store, id: int, dto: UpdateDto, accepted: bool)
    requires Valid(st)
    requires var r := Update(st, id, dto, accepted); r.Ok? && r.value != st && id in r.value.flows && r.value.flows[id].parent.Some?
    ensures var st' := Update(st, id, dto, accepted).value;
            RootOf(st'.flows, id, {}).Ok? && RootFresh(st', RootOf(st'.flows, id, {}).value)
  {
    var v := Latest(st.versions, id).value;
    var flow := Reparented(st.flows[id], dto, v);
    var nodes := PreparedNodes(dto.nodes, flow.parent);
    var next := NextSnapshot(st, id, flow, nodes, dto.edges);
    WriteUpdateWrites(st, id, v, flow, next, nodes, dto);
    SyncRootFresh(WriteUpdate(st, id, v, flow, next, nodes, dto), id, dto.autoSave);
  }

  // ----- createVersion right after a root update

  /** The edge gets the same branch key in the snapshot and in its row. */
  predicate BranchKeyed(e: EdgeDto) {
    e.branchKey.Some? || e.condition.None? || e.condition.value == "default"
  }

  predicate DtoLe(a: EdgeDto, b: EdgeDto) { EdgeLe(SnapshotEdge(a), SnapshotEdge(b)) }

  lemma {:induction false} EdgeListsAgree(edges: seq<EdgeDto>)
    ensures SortBy(Map(SnapshotEdge, edges), EdgeLe) == SortBy(Map(RowEdge, edges), EdgeLe)
       <==> forall e :: e in edges ==> BranchKeyed(e)
  {
    assert forall a, b :: DtoLe(a, b) == EdgeLe(RowEdge(a), RowEdge(b));
    SortByMap(SnapshotEdge, edges, DtoLe, EdgeLe);
    SortByMap(RowEdge, edges, DtoLe, EdgeLe);
    var sorted := SortBy(edges, DtoLe);
    SameBagSameMembers(edges, sorted);
    MapsAgree(sorted);
  }

  lemma OneEdgeAgrees(e: EdgeDto)
    ensures SnapshotEdge(e) == RowEdge(e) <==> BranchKeyed(e)
  {
    if SnapshotEdge(e) == RowEdge(e) && e.branchKey.None? && e.condition.Some? {
      assert "default" == SnapshotEdge(e).branchKey == RowEdge(e).branchKey == e.condition.value;
    }
  }

  lemma MapsAgree(edges: seq<EdgeDto>)
    ensures Map(SnapshotEdge, edges) == Map(RowEdge, edges) <==> forall e :: e in edges ==> BranchKeyed(e)
  {
    forall i | 0 <= i < |edges| ensures SnapshotEdge(edges[i]) == RowEdge(edges[i]) <==> BranchKeyed(edges[i]) {
      OneEdgeAgrees(edges[i]);
    }
    if Map(SnapshotEdge, edges) == Map(RowEdge, edges) {
      forall e | e in edges ensures BranchKeyed(e) {
        var i :| 0 <= i < |edges| && edges[i] == e;
        assert Map(SnapshotEdge, edges)[i] == Map(RowEdge, edges)[i];
      }
    }
  }

  /** How the snapshot a root update stored compares with the tree reread afterwards. */
  lemma RootUpdateCompares(st: Store, id: int, dto: UpdateDto, accepted: bool, ignoreLayout: bool)
    requires Valid(st)
    requires var r := Update(st, id, dto, accepted); r.Ok? && r.value != st && id in r.value.flows && r.value.flows[id].parent.None?
    ensures var st' := Update(st, id, dto, accepted).value;
            var v' := Latest(st'.versions, id);
            && IsRoot(st'.flows, id) && FullTree(st', id, {}).Ok?
            && v'.Some? && st'.versions[v'.value].snapshot.Some?
            && (Payload(st'.versions[v'.value].snapshot.value, ignoreLayout) == Payload(FullTree(st', id, {}).value, ignoreLayout)
                <==> (forall e :: e in dto.edges ==> BranchKeyed(e)) && DescendantsVersioned(st', id))
  {
    var v := Latest(st.versions, id).value;
    var flow := Reparented(st.flows[id], dto, v);
    var nodes := PreparedNodes(dto.nodes, flow.parent);
    var next := NextSnapshot(st, id, flow, nodes, dto.edges);
    WriteUpdateWrites(st, id, v, flow, next, nodes, dto);
    var st1 := WriteUpdate(st, id, v, flow, next, nodes, dto);
    if flow.parent.Some? { SyncRootFresh(st1, id, dto.autoSave); }
    RootTreesCompare(st, st1, id, flow, next, nodes, dto.edges, ignoreLayout);
  }

  lemma {:induction false} RootTreesCompare(st: Store, st1: Store, id: int, flow: Flow, next: Snapshot, nodes: seq<NodeDto>, edges: seq<EdgeDto>, ignoreLayout: bool)
    requires id in st.flows && st.flows[id].parent.None? && flow.parent.None?
    requires next == NextSnapshot(st, id, flow, nodes, edges)
    requires Written(st, st1, id, flow, next, Map(NodeOf, nodes), Map(RowEdge, edges))
    ensures FullTree(st1, id, {}).Ok?
    ensures Payload(next, ignoreLayout) == Payload(FullTree(st1, id, {}).value, ignoreLayout)
       <==> (forall e :: e in edges ==> BranchKeyed(e)) && DescendantsVersioned(st1, id)
  {
    BuildersAgree(st1, id, ignoreLayout);
    SameParentsSameChildren(st.flows, st1.flows, id);
    SameBelowSameSave(st, st1, id, ChildIds(st.flows, id), {id});
    EdgeListsAgree(edges);
    TwinPayloads(next, FullTree(st1, id, {}).value, ignoreLayout);
  }

  /**
   * Publishing right after a root update that wrote stores nothing and reports that version
   * if and only if every edge has one branch key and every descendant has a version;
   * a flow that only hangs up is refused.
   */
  lemma {:induction false} CreateVersionAfterUpdate(st: Store, id: int, dto: UpdateDto, accepted: bool)
    requires Valid(st)
    requires var r := Update(st, id, dto, accepted); r.Ok? && r.value != st && id in r.value.flows && r.value.flows[id].parent.None?
    ensures var st' := Update(st, id, dto, accepted).value;
            && FullTree(st', id, {}).Ok? && Latest(st'.versions, id).Some?
            && var published := CreateVersion(st', id);
               && (HangsUpImmediately(FullTree(st', id, {}).value) ==> published == Err(Rejected))
               && (!HangsUpImmediately(FullTree(st', id, {}).value) ==>
                     (published == Ok((st', Latest(st'.versions, id).value))
                      <==> (forall e :: e in dto.edges ==> BranchKeyed(e)) && DescendantsVersioned(st', id)))
  {
    RootUpdateCompares(st, id, dto, accepted, true);
    UpdateKeepsValid(st, id, dto, accepted);
    var st' := Update(st, id, dto, accepted).value;
    assert RootOf(st'.flows, id, {}) == Ok(id);
    PublishesAtRoot(st', id);
  }

  /** Publishing a root's tree returns the newest version, and leaves the tables alone, exactly where the trees compare equal. */
  lemma {:induction false} PublishesAtRoot(st: Store, id: int)
    requires Valid(st) && RootOf(st.flows, id, {}) == Ok(id) && FullTree(st, id, {}).Ok? && Latest(st.versions, id).Some?
    ensures var full, published := FullTree(st, id, {}).value, CreateVersion(st, id);
            && (HangsUpImmediately(full) ==> published == Err(Rejected))
            && (!HangsUpImmediately(full) ==>
                  (published == Ok((st, Latest(st.versions, id).value))
                   <==> StructurallyEqual(st.versions[Latest(st.versions, id).value].snapshot, Some(full))))
  {
    assert Latest(st.versions, id).value < st.nextId;
  }

  // ----- Creating and removing flows

  /** `create`, for the id the database assigns. */
  function Create(st: Store, id: int, dto: UpdateDto, accepted: bool): Result<Store, Error> {
    if !accepted then Err(Rejected)
    else
      var flow := Flow(dto.name, dto.parent, None);
      var nodes := PreparedNodes(dto.nodes, dto.parent);
      var st0 := st.(flows := st.flows[id := flow]);
      Ok(AddVersion(st0, id, NextSnapshot(st0, id, flow, nodes, dto.edges), nodes, dto.edges))
  }

  lemma CreateKeepsValid(st: Store, id: int, dto: UpdateDto)
    requires Valid(st) && id > 0 && id !in st.flows
    ensures Valid(Create(st, id, dto, true).value)
  {
    var flow := Flow(dto.name, dto.parent, None);
    var nodes := PreparedNodes(dto.nodes, dto.parent);
    var st0 := st.(flows := st.flows[id := flow]);
    var next := NextSnapshot(st0, id, flow, nodes, dto.edges);
    assert Valid(st0);
    AddIsAdded(st0, id, next, nodes, dto.edges);
    AddedValid(st0, AddVersion(st0, id, next, nodes, dto.edges), id, next, Map(NodeOf, nodes), Map(RowEdge, dto.edges));
  }

  function KeptVersions(versions: map<int, Version>, gone: set<int>): map<int, Version> {
    map v | v in versions && versions[v].flowId !in gone :: versions[v]
  }

  function KeptRows<T>(rows: map<int, seq<T>>, versions: map<int, Version>): map<int, seq<T>> {
    map v | v in rows && v in versions :: rows[v]
  }

  /** The tables without the given flows, their versions and the rows of those versions. */
  function Without(st: Store, gone: set<int>): Store {
    var versions := KeptVersions(st.versions, gone);
    st.(flows := st.flows - gone, versions := versions,
        nodeRows := KeptRows(st.nodeRows, versions), edgeRows := KeptRows(st.edgeRows, versions))
  }

  lemma LatestWithout(st: Store, gone: set<int>, f: int)
    requires DistinctNumbers(st.versions) && f !in gone
    ensures DistinctNumbers(Without(st, gone).versions)
    ensures Latest(Without(st, gone).versions, f) == Latest(st.versions, f)
  {
    var l := Latest(st.versions, f);
    if l.Some? { LatestIsUnique(Without(st, gone).versions, f, l.value); }
  }

  /** Deleting flows keeps the run invariant and leaves what the others hold alone. */
  lemma {:induction false} WithoutKeepsValid(st: Store, gone: set<int>)
    requires Valid(st)
    ensures Valid(Without(st, gone))
    ensures forall x :: x in Without(st, gone).flows ==>
              x in st.flows && Without(st, gone).flows[x] == st.flows[x] && Content(Without(st, gone), x) == Content(st, x)
  {
    var st' := Without(st, gone);
    LatestWithoutAll(st, gone);
    forall x | x in st'.flows ensures st'.flows[x] == st.flows[x] && Content(st', x) == Content(st, x) {
      assert VersionOf(st', x) == VersionOf(st, x);
    }
  }

  lemma LatestWithoutAll(st: Store, gone: set<int>)
    requires DistinctNumbers(st.versions)
    ensures DistinctNumbers(Without(st, gone).versions)
    ensures forall f :: f !in gone ==> Latest(Without(st, gone).versions, f) == Latest(st.versions, f)
  {
    forall f | f !in gone ensures Latest(Without(st, gone).versions, f) == Latest(st.versions, f) {
      LatestWithout(st, gone, f);
    }
  }
}
