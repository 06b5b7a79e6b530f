/** The flow version store: tables that each transaction changes in place, or not at all. */
module FlowsService {
  import opened Wrappers
  import opened Sequences
  import opened NodeConfigs
  import opened Snapshots
  import opened FlowForest
  import opened FlowTrees
  import opened FlowRestore
  import T = FlowTransactions

  /** A flow that is kept and whose parent existed still has that parent. */
  ghost predicate NoOrphans(before: Flows, after: Flows) {
    forall x :: x in after && after[x].parent.Some? && after[x].parent.value in before ==> after[x].parent.value in after
  }

  lemma SubtreeLeavesNoOrphans(flows: Flows, id: int, gone: set<int>)
    requires forall x :: x in gone <==> Descends(flows, id, x)
    ensures NoOrphans(flows, flows - gone)
  {
    forall x | x in flows - gone && flows[x].parent.Some? && flows[x].parent.value in flows
      ensures flows[x].parent.value in flows - gone
    {
      if flows[x].parent.value in gone { ChildDescends(flows, id, flows[x].parent.value, x); }
    }
  }

  class Service {
    var flows: Flows
    var versions: map<int, Version>
    var nodeRows: map<int, seq<Node>>
    var edgeRows: map<int, seq<Edge>>
    var nextId: int

    function State(): Store
      reads this
    {
      Store(flows, versions, nodeRows, edgeRows, nextId)
    }

    constructor ()
      ensures T.Valid(State())
      ensures flows == map[] && versions == map[]
    {
      flows, versions, nodeRows, edgeRows, nextId := map[], map[], map[], map[], 1;
    }

    /** Puts every table back, as an aborted transaction does. */
    method Rollback(st: Store)
      modifies this
      ensures State() == st
    {
      flows, versions, nodeRows, edgeRows, nextId := st.flows, st.versions, st.nodeRows, st.edgeRows, st.nextId;
    }

    method SaveNodesAndEdges(v: int, nodes: seq<T.NodeDto>, edges: seq<T.EdgeDto>)
      modifies this`nodeRows, this`edgeRows
      ensures State() == T.SaveRows(old(State()), v, nodes, edges)
    {
      nodeRows := nodeRows[v := T.RowsOf(nodeRows, v) + Map(T.NodeOf, nodes)];
      edgeRows := edgeRows[v := T.RowsOf(edgeRows, v) + Map(T.RowEdge, edges)];
    }

    method ReplaceVersionSnapshot(v: int, snapshot: Snapshot, nodes: seq<T.NodeDto>, edges: seq<T.EdgeDto>)
      requires v in versions
      modifies this`versions, this`nodeRows, this`edgeRows
      ensures State() == T.ReplaceVersion(old(State()), v, snapshot, nodes, edges)
    {
      versions := versions[v := versions[v].(snapshot := Some(snapshot))];
      edgeRows := edgeRows[v := []];
      nodeRows := nodeRows[v := []];
      SaveNodesAndEdges(v, nodes, edges);
    }

    /** A new newest version with its rows, which the flow then points at. */
    method CreateStoredVersion(f: int, snapshot: Snapshot, nodes: seq<T.NodeDto>, edges: seq<T.EdgeDto>) returns (v: int)
      requires f in flows
      modifies this
      ensures v == old(nextId)
      ensures State() == T.AddVersion(old(State()), f, snapshot, nodes, edges)
    {
      var number := 1;
      var newest := Latest(versions, f);
      if newest.Some? {
        number := versions[newest.value].number + 1;
      }
      v := nextId;
      nextId := nextId + 1;
      versions := versions[v := Version(f, number, Some(snapshot))];
      SaveNodesAndEdges(v, nodes, edges);
      flows := flows[f := flows[f].(current := Some(v))];
    }

    /** The last part of `update` on a subflow: bring the root's stored snapshot up to date. */
    method SyncRootSnapshot(id: int, autoSave: bool) returns (r: Result<(), Error>)
      modifies this
      ensures match T.SyncRoot(old(State()), id, autoSave)
              case Ok(st) => r == Ok(()) && State() == st
              case Err(e) => r == Err(e) && State() == old(State())
    {
      var root := GetRootFlowId(flows, id);
      if root.Err? {
        return Err(root.error);
      }
      var target := if autoSave then VersionOf(State(), root.value) else Latest(versions, root.value);
      if autoSave && target.None? {
        return Ok(());
      }
      var full := FullTree(State(), root.value, {});
      if full.Err? {
        return Err(full.error);
      }
      var payload, links := Map(T.NodeToDto, full.value.nodes), Map(T.EdgeToDto, full.value.edges);
      if autoSave {
        if target.value !in versions {
          return Err(NotFound);
        }
        if !ExactlyEqual(versions[target.value].snapshot, Some(full.value)) {
          ReplaceVersionSnapshot(target.value, full.value, payload, links);
        }
      } else {
        var previous := T.StoredOrEmpty(State(), target);
        if StructurallyEqual(Some(previous), Some(full.value)) {
          if target.Some? && !ExactlyEqual(Some(previous), Some(full.value)) {
            ReplaceVersionSnapshot(target.value, full.value, payload, links);
          }
        } else if !ExactlyEqual(Some(previous), Some(full.value)) {
          var _ := CreateStoredVersion(root.value, full.value, payload, links);
        }
      }
      return Ok(());
    }

    /** The write of `update`: replace the newest version in place, or add one. */
    method WriteFlow(id: int, v: int, flow: Flow, next: Snapshot, nodes: seq<T.NodeDto>, dto: T.UpdateDto)
      requires id in flows && v in versions
      modifies this
      ensures State() == T.WriteUpdate(old(State()), id, v, flow, next, nodes, dto)
    {
      var previous := T.StoredOrEmpty(State(), Some(v));
      flows := flows[id := flow];
      if dto.autoSave || StructurallyEqual(Some(previous), Some(next)) {
        ReplaceVersionSnapshot(v, next, nodes, dto.edges);
      } else {
        var _ := CreateStoredVersion(id, next, nodes, dto.edges);
      }
    }

    /**
     * `update`: nothing, replace in place, or a new version, and for a subflow the root too.
     * It either runs to the end or leaves every table as it was.
     */
    method UpdateFlow(id: int, dto: T.UpdateDto, accepted: bool) returns (r: Result<(), Error>)
      requires T.Valid(State())
      modifies this
      ensures T.Valid(State())
      ensures match T.Update(old(State()), id, dto, accepted)
              case Ok(st) => r == Ok(()) && State() == st
              case Err(e) => r == Err(e) && State() == old(State())
      ensures State() != old(State()) && id in flows && flows[id].parent.Some? ==>
                RootOf(flows, id, {}).Ok? && T.RootFresh(State(), RootOf(flows, id, {}).value)
    {
      if id !in flows {
        return Err(NotFound);
      }
      var newest := Latest(versions, id);
      if newest.None? {
        return Err(NotFound);
      }
      if !accepted {
        return Err(Rejected);
      }
      var before, v := State(), newest.value;
      var flow := T.Reparented(flows[id], dto, v);
      var nodes := T.PreparedNodes(dto.nodes, flow.parent);
      var next := T.NextSnapshot(before, id, flow, nodes, dto.edges);
      if ExactlyEqual(Some(T.StoredOrEmpty(before, Some(v))), Some(next)) {
        return Ok(());
      }
      WriteFlow(id, v, flow, next, nodes, dto);
      if flow.parent.Some? {
        r := SyncRootSnapshot(id, dto.autoSave);
        if r.Err? {
          Rollback(before);
          return;
        }
      } else {
        r := Ok(());
      }
      UpdateIsSound(before, id, dto);
    }

    static lemma UpdateIsSound(st: Store, id: int, dto: T.UpdateDto)
      requires T.Valid(st) && T.Update(st, id, dto, true).Ok?
      ensures var st' := T.Update(st, id, dto, true).value;
              && T.Valid(st')
              && (st' != st && id in st'.flows && st'.flows[id].parent.Some? ==>
                    RootOf(st'.flows, id, {}).Ok? && T.RootFresh(st', RootOf(st'.flows, id, {}).value))
    {
      T.UpdateKeepsValid(st, id, dto, true);
      var st' := T.Update(st, id, dto, true).value;
      if st' != st && id in st'.flows && st'.flows[id].parent.Some? {
        T.SubflowUpdateFreshensRoot(st, id, dto, true);
      }
    }

    /** `createVersion`: publishes the reread tree unless the newest version already has its structure. */
    method Publish(id: int) returns (r: Result<int, Error>)
      requires T.Valid(State())
      modifies this
      ensures T.Valid(State())
      ensures match T.CreateVersion(old(State()), id)
              case Ok(done) => r == Ok(done.1) && State() == done.0
              case Err(e) => r == Err(e) && State() == old(State())
      ensures r.Ok? ==>
                && r.value in versions && RootOf(flows, id, {}).Ok? && FullTree(State(), RootOf(flows, id, {}).value, {}).Ok?
                && StructurallyEqual(versions[r.value].snapshot, Some(FullTree(State(), RootOf(flows, id, {}).value, {}).value))
    {
      var root := GetRootFlowId(flows, id);
      if root.Err? {
        return Err(root.error);
      }
      var full := FullTree(State(), root.value, {});
      if full.Err? {
        return Err(full.error);
      }
      if T.HangsUpImmediately(full.value) {
        return Err(Rejected);
      }
      var newest := Latest(versions, root.value);
      if newest.Some? && StructurallyEqual(versions[newest.value].snapshot, Some(full.value)) {
        return Ok(newest.value);
      }
      T.AddTreeKeepsTree(State(), root.value, full.value);
      var v := CreateStoredVersion(root.value, full.value, Map(T.NodeToDto, full.value.nodes), Map(T.EdgeToDto, full.value.edges));
      SameParentsSameRoot(old(flows), flows, id, {});
      return Ok(v);
    }

    /** One pass of `restoreSubflowSnapshots`; a missing flow stops it. */
    method RestoreSubflowSnapshots(ss: seq<Snapshot>) returns (r: Result<(), Error>)
      modifies this
      ensures match RestoreSubflows(old(State()), ss)
              case Ok(st) => r == Ok(()) && State() == st
              case Err(e) => r == Err(e)
      decreases ForestSize(ss)
    {
      var rest := ss;
      while rest != []
        invariant ForestSize(rest) <= ForestSize(ss)
        invariant RestoreSubflows(State(), rest) == RestoreSubflows(old(State()), ss)
        decreases ForestSize(rest)
      {
        var s := rest[0];
        TreeSizeOfChildren(s);
        if s.Id() > 0 {
          if s.Id() !in flows {
            return Err(NotFound);
          }
          ghost var before := State();
          var stored := Snapshot(Some(s.Id()), s.name, s.nodes, s.edges, Absent);
          var _ := CreateStoredVersion(s.Id(), stored, Map(T.NodeToDto, s.nodes), Map(T.EdgeToDto, s.edges));
          flows := flows[s.Id() := flows[s.Id()].(name := s.name.GetOr(flows[s.Id()].name))];
          assert State() == RestoreOne(before, s);
          var inner := RestoreSubflowSnapshots(s.Children());
          if inner.Err? {
            return inner;
          }
        }
        rest := rest[1..];
      }
      return Ok(());
    }

    /** `restoreVersion`: a new newest version made of an old one, for the flow and its subflows, or nothing. */
    method Restore(id: int, v: int) returns (r: Result<(), Error>)
      requires T.Valid(State())
      modifies this
      ensures T.Valid(State())
      ensures match RestoreVersion(old(State()), id, v)
              case Ok(st) => r == Ok(()) && State() == st
              case Err(e) => r == Err(e) && State() == old(State())
    {
      if id !in flows {
        return Err(NotFound);
      }
      if v !in versions || versions[v].flowId != id || versions[v].snapshot.None? {
        return Err(NotFound);
      }
      var before, s := State(), versions[v].snapshot.value;
      var _ := CreateStoredVersion(id, s, Map(RestoredNode, s.nodes), Map(RestoredEdge, s.edges));
      flows := flows[id := flows[id].(name := s.name.GetOr(flows[id].name))];
      assert State() == RestoreRoot(before, id, s);
      r := RestoreSubflowSnapshots(s.Children());
      if r.Err? {
        Rollback(before);
      } else {
        RestoreVersionValid(before, id, v);
      }
    }

    /** `create`, for the fresh id the database assigns. */
    method CreateFlow(id: int, dto: T.UpdateDto, accepted: bool) returns (r: Result<(), Error>)
      requires T.Valid(State()) && id > 0 && id !in flows
      modifies this
      ensures T.Valid(State())
      ensures match T.Create(old(State()), id, dto, accepted)
              case Ok(st) => r == Ok(()) && State() == st
              case Err(e) => r == Err(e) && State() == old(State())
    {
      if !accepted {
        return Err(Rejected);
      }
      ghost var before := State();
      var flow := Flow(dto.name, dto.parent, None);
      flows := flows[id := flow];
      var nodes := T.PreparedNodes(dto.nodes, dto.parent);
      var next := T.NextSnapshot(State(), id, flow, nodes, dto.edges);
      var _ := CreateStoredVersion(id, next, nodes, dto.edges);
      T.CreateKeepsValid(before, id, dto);
      return Ok(());
    }

    /** `remove`: deletes exactly the flow and its descendants; no remaining flow has a deleted parent. */
    method Remove(id: int) returns (r: Result<(), Error>)
      requires T.Valid(State())
      modifies this
      ensures T.Valid(State())
      ensures id !in old(flows) ==> r == Err(NotFound) && State() == old(State())
      ensures id in old(flows) ==>
                && r == Ok(())
                && (forall x :: x in flows <==> x in old(flows) && !Descends(old(flows), id, x))
                && (forall x :: x in flows ==> flows[x] == old(flows)[x] && Content(State(), x) == Content(old(State()), x))
                && NoOrphans(old(flows), flows)
    {
      if id !in flows {
        return Err(NotFound);
      }
      var order := CollectSubtree(flows, id);
      var gone := set x | x in order;
      ghost var before := State();
      versions := T.KeptVersions(versions, gone);
      edgeRows := T.KeptRows(edgeRows, versions);
      nodeRows := T.KeptRows(nodeRows, versions);
      flows := flows - gone;
      assert State() == T.Without(before, gone);
      T.WithoutKeepsValid(before, gone);
      SubtreeLeavesNoOrphans(before.flows, id, gone);
      return Ok(());
    }
  }
}
