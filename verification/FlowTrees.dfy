/** The stored flows, versions and rows, and the two builders of whole-tree snapshots. */
module FlowTrees {
  import opened Wrappers
  import opened Sequences
  import opened Sorting
  import opened NodeConfigs
  import opened Snapshots
  import opened FlowForest

  datatype Version = Version(flowId: int, number: int, snapshot: Option<Snapshot>)

  /** The tables: flows, versions, and the node and edge rows of each version. */
  datatype Store = Store(
    flows: Flows,
    versions: map<int, Version>,
    nodeRows: map<int, seq<Node>>,
    edgeRows: map<int, seq<Edge>>,
    nextId: int)

  // ----- The newest version of a flow

  ghost predicate IsLatest(versions: map<int, Version>, f: int, v: int) {
    && v in versions && versions[v].flowId == f
    && forall w :: w in versions && versions[w].flowId == f ==> versions[w].number <= versions[v].number
  }

  predicate NotNewer(versions: map<int, Version>, w: int, v: int)
    requires w in versions && v in versions
  {
    versions[w].number < versions[v].number || (versions[w].number == versions[v].number && w <= v)
  }

  lemma {:induction false} NewestExists(versions: map<int, Version>, s: set<int>)
    requires s != {} && s <= versions.Keys
    ensures exists v :: v in s && forall w :: w in s ==> NotNewer(versions, w, v)
  {
    MinimumExists(s);
    var v :| v in s;
    var rest := s - {v};
    if rest == {} {
      assert s == {v};
    } else {
      NewestExists(versions, rest);
      var u :| u in rest && forall w :: w in rest ==> NotNewer(versions, w, u);
      var best := if NotNewer(versions, u, v) then v else u;
      forall w | w in s ensures NotNewer(versions, w, best) {
        assert w == v || w in rest;
      }
    }
  }

  /** The version with the greatest number, if the flow has any. */
  function Latest(versions: map<int, Version>, f: int): (r: Option<int>)
    ensures r.Some? ==> IsLatest(versions, f, r.value)
    ensures r.None? ==> forall w :: w in versions ==> versions[w].flowId != f
  {
    var mine := set v | v in versions && versions[v].flowId == f;
    assert forall w :: w in versions && versions[w].flowId == f ==> w in mine;
    if mine == {} then None
    else
      NewestExists(versions, mine);
      var v :| v in mine && forall w :: w in mine ==> NotNewer(versions, w, v);
      Some(v)
  }

  ghost predicate DistinctNumbers(versions: map<int, Version>) {
    forall v, w :: v in versions && w in versions && v != w && versions[v].flowId == versions[w].flowId
      ==> versions[v].number != versions[w].number
  }

  lemma LatestIsUnique(versions: map<int, Version>, f: int, v: int)
    requires DistinctNumbers(versions) && IsLatest(versions, f, v)
    ensures Latest(versions, f) == Some(v)
  {
  }

  // ----- What a flow holds now

  function VersionOf(st: Store, id: int): Option<int>
    requires id in st.flows
  {
    if st.flows[id].current.Some? then st.flows[id].current else Latest(st.versions, id)
  }

  function ReadNode(row: Node): Node { row.(config := Sanitize(row.nodeType, row.config)) }

  function NodesOf(st: Store, v: int): seq<Node> {
    if v in st.nodeRows then Map(ReadNode, st.nodeRows[v]) else []
  }

  function EdgesOf(st: Store, v: int): seq<Edge> {
    if v in st.edgeRows then st.edgeRows[v] else []
  }

  /** The nodes and edges read back from the rows of the flow's version. */
  function Content(st: Store, id: int): (seq<Node>, seq<Edge>)
    requires id in st.flows
  {
    match VersionOf(st, id)
    case Some(v) => (NodesOf(st, v), EdgesOf(st, v))
    case None => ([], [])
  }

  function Packed(children: seq<Snapshot>): Subflows {
    if children == [] then Absent else Listed(children)
  }

  /** A tree as it is listed under its parent: an empty list of subflows is left out. */
  function AsChild(s: Snapshot): (r: Snapshot)
    ensures r.Id() == s.Id()
  {
    s.(subflows := Packed(s.Children()))
  }

  function Assemble(st: Store, id: int, subs: Subflows): (r: Snapshot)
    requires id in st.flows
    ensures r.Id() == id
  {
    Snapshot(Some(id), Some(st.flows[id].name), Content(st, id).0, Content(st, id).1, subs)
  }

  /** The builder that rereads the whole tree. */
  function FullTree(st: Store, id: int, visited: set<int>): (r: Result<Snapshot, Error>)
    ensures r.Ok? ==> r.value.Id() == id && id in st.flows
    decreases st.flows.Keys - visited, 0
  {
    if id in visited then Err(Circular)
    else if id !in st.flows then Err(NotFound)
    else
      match FullTrees(st, ChildIds(st.flows, id), visited + {id})
      case Err(e) => Err(e)
      case Ok(subs) =>
        Ok(Assemble(st, id, Listed(Map(AsChild, subs))))
  }

  function FullTrees(st: Store, ids: seq<int>, visited: set<int>): (r: Result<seq<Snapshot>, Error>)
    ensures r.Ok? ==> |r.value| == |ids| && forall i :: 0 <= i < |ids| ==> r.value[i].Id() == ids[i]
    decreases st.flows.Keys - visited, 1 + |ids|
  {
    if ids == [] then Ok([])
    else
      match (FullTree(st, ids[0], visited), FullTrees(st, ids[1..], visited))
      case (Ok(first), Ok(rest)) => Ok([first] + rest)
      case (Err(e), _) => Err(e)
      case (_, Err(e)) => Err(e)
  }

  /** The builder used while saving a root: it skips visited flows and flows without a version. */
  function SaveTrees(st: Store, ids: seq<int>, visited: set<int>): (r: seq<Snapshot>)
    requires forall c :: c in ids ==> c in st.flows
    ensures |r| <= |ids|
    ensures forall i :: 0 <= i < |r| ==> r[i].Id() in ids
    decreases st.flows.Keys - visited, |ids|
  {
    if ids == [] then []
    else
      var c := ids[0];
      var rest := SaveTrees(st, ids[1..], visited);
      if c in visited || VersionOf(st, c).None? then rest
      else
        [Assemble(st, c, Packed(SaveTrees(st, ChildIds(st.flows, c), visited + {c})))] + rest
  }

  // ----- Below a root there is no cycle

  /** A chain of distinct flows from a root down, each the parent of the next. */
  ghost predicate IsPath(flows: Flows, path: seq<int>) {
    && path != [] && Once(path)
    && (forall i :: 0 <= i < |path| ==> path[i] in flows)
    && flows[path[0]].parent == None
    && (forall i :: 0 < i < |path| ==> flows[path[i]].parent == Some(path[i - 1]))
  }

  ghost function Members(path: seq<int>): set<int> { set x | x in path }

  function Last(path: seq<int>): int
    requires path != []
  {
    path[|path| - 1]
  }

  lemma ChildExtendsPath(flows: Flows, path: seq<int>, c: int)
    requires IsPath(flows, path) && IsChild(flows, c, Last(path))
    ensures c !in Members(path)
    ensures IsPath(flows, path + [c]) && Members(path + [c]) == Members(path) + {c}
  {
    forall k | 0 <= k < |path| ensures path[k] != c {
      if k > 0 {
        assert flows[path[k]].parent == Some(path[k - 1]);
        assert path[k - 1] != Last(path);
      }
    }
  }

  ghost predicate SubtreeVersioned(st: Store, c: int) {
    forall x :: x in st.flows && Descends(st.flows, c, x) ==> VersionOf(st, x).Some?
  }

  lemma {:induction false} SubtreeVersionedUnfolds(st: Store, c: int)
    requires c in st.flows
    ensures SubtreeVersioned(st, c) <==>
              VersionOf(st, c).Some? && forall d :: d in ChildIds(st.flows, c) ==> SubtreeVersioned(st, d)
  {
    if SubtreeVersioned(st, c) {
      assert Ancestor(st.flows, c, 0) == Some(c);
      forall d, x | d in ChildIds(st.flows, c) && x in st.flows && Descends(st.flows, d, x) ensures VersionOf(st, x).Some? {
        var n: nat :| Ancestor(st.flows, x, n) == Some(d);
        AncestorAdds(st.flows, x, n, 1);
        assert Ancestor(st.flows, d, 1) == Some(c) by { assert Ancestor(st.flows, c, 0) == Some(c); }
        assert Ancestor(st.flows, x, n + 1) == Some(c);
      }
    }
    if VersionOf(st, c).Some? && forall d :: d in ChildIds(st.flows, c) ==> SubtreeVersioned(st, d) {
      forall x | x in st.flows && Descends(st.flows, c, x) ensures VersionOf(st, x).Some? {
        var n: nat :| Ancestor(st.flows, x, n) == Some(c);
        if n > 0 {
          AncestorDefinedBelow(st.flows, x, n - 1, n);
          var d := Ancestor(st.flows, x, n - 1).value;
          AncestorAdds(st.flows, x, n - 1, 1);
          assert Descends(st.flows, d, x);
          assert d in ChildIds(st.flows, c);
        }
      }
    }
  }

  // ----- When the two builders agree

  ghost predicate Ascending(s: seq<Snapshot>) {
    forall i, j :: 0 <= i < j < |s| ==> s[i].Id() < s[j].Id()
  }

  function ByPayload(ignoreLayout: bool): Snapshot -> Snapshot {
    (c: Snapshot) => Payload(c, ignoreLayout)
  }

  lemma AscendingPayload(s: Snapshot, ignoreLayout: bool)
    requires Ascending(s.Children())
    ensures Payload(s, ignoreLayout).subflows == Listed(Map(ByPayload(ignoreLayout), s.Children()))
  {
    PayloadChildren(s, ignoreLayout);
    SortByOfSorted(s.Children(), ChildLe);
    assert Map((c: Snapshot) => Payload(c, ignoreLayout), s.Children()) == Map(ByPayload(ignoreLayout), s.Children());
  }

  ghost predicate SamePayloads(a: seq<Snapshot>, b: seq<Snapshot>, ignoreLayout: bool) {
    Map(ByPayload(ignoreLayout), a) == Map(ByPayload(ignoreLayout), b)
  }

  /** Two trees of one flow with the same nodes. */
  lemma TwinPayloads(a: Snapshot, b: Snapshot, ignoreLayout: bool)
    requires a.Id() == b.Id() && a.name == b.name && a.nodes == b.nodes
    requires Ascending(a.Children()) && Ascending(b.Children())
    ensures Payload(a, ignoreLayout) == Payload(b, ignoreLayout)
       <==> SortBy(a.edges, EdgeLe) == SortBy(b.edges, EdgeLe) && SamePayloads(a.Children(), b.Children(), ignoreLayout)
  {
    AscendingPayload(a, ignoreLayout);
    AscendingPayload(b, ignoreLayout);
  }

  lemma AscendingCons(first: Snapshot, rest: seq<Snapshot>, ids: seq<int>)
    requires ids != [] && first.Id() == ids[0] && Ascending(rest)
    requires forall i, j :: 0 <= i < j < |ids| ==> ids[i] < ids[j]
    requires forall i :: 0 <= i < |rest| ==> rest[i].Id() in ids[1..]
    ensures Ascending([first] + rest)
  {
    forall i | 0 <= i < |rest| ensures first.Id() < rest[i].Id() {
      var k :| 0 <= k < |ids[1..]| && ids[1..][k] == rest[i].Id();
      assert ids[k + 1] == rest[i].Id();
    }
  }

  lemma {:induction false} SaveTreesAscend(st: Store, ids: seq<int>, visited: set<int>)
    requires forall c :: c in ids ==> c in st.flows
    requires forall i, j :: 0 <= i < j < |ids| ==> ids[i] < ids[j]
    ensures Ascending(SaveTrees(st, ids, visited))
    decreases |ids|
  {
    if ids != [] {
      SaveTreesAscend(st, ids[1..], visited);
      var rest := SaveTrees(st, ids[1..], visited);
      if ids[0] !in visited && VersionOf(st, ids[0]).Some? {
        var first := Assemble(st, ids[0], Packed(SaveTrees(st, ChildIds(st.flows, ids[0]), visited + {ids[0]})));
        AscendingCons(first, rest, ids);
      }
    }
  }

  lemma FullTreesAscend(trees: seq<Snapshot>, ids: seq<int>)
    requires |trees| == |ids| && forall i :: 0 <= i < |ids| ==> trees[i].Id() == ids[i]
    requires forall i, j :: 0 <= i < j < |ids| ==> ids[i] < ids[j]
    ensures Ascending(Map(AsChild, trees))
  {
    var s := Map(AsChild, trees);
    forall i, j | 0 <= i < j < |s| ensures s[i].Id() < s[j].Id() {
      assert s[i].Id() == trees[i].Id() == ids[i];
      assert s[j].Id() == trees[j].Id() == ids[j];
    }
  }

  ghost predicate AllVersioned(st: Store, ids: seq<int>) {
    forall c :: c in ids ==> SubtreeVersioned(st, c)
  }

  /** What is proved of the two lists built for the flows `ids`. */
  ghost predicate Compared(st: Store, ids: seq<int>, visited: set<int>, ignoreLayout: bool) {
    && (forall c :: c in ids ==> c in st.flows)
    && FullTrees(st, ids, visited).Ok?
    && var full, saved := Map(AsChild, FullTrees(st, ids, visited).value), SaveTrees(st, ids, visited);
       && (AllVersioned(st, ids) ==> saved == full)
       && (!AllVersioned(st, ids) ==> !SamePayloads(saved, full, ignoreLayout))
  }

  lemma CompareUnversioned(st: Store, ids: seq<int>, visited: set<int>, ignoreLayout: bool)
    requires ids != [] && Compared(st, ids[1..], visited, ignoreLayout)
    requires ids[0] in st.flows && ids[0] !in visited && VersionOf(st, ids[0]).None?
    requires FullTree(st, ids[0], visited).Ok?
    ensures Compared(st, ids, visited, ignoreLayout)
  {
    assert ids == [ids[0]] + ids[1..];
    assert |SaveTrees(st, ids, visited)| <= |ids[1..]|;
    SubtreeVersionedUnfolds(st, ids[0]);
    assert !AllVersioned(st, ids);
  }

  lemma FullTreesStep(st: Store, ids: seq<int>, visited: set<int>)
    requires ids != [] && ids[0] in st.flows && ids[0] !in visited
    requires FullTrees(st, ids[1..], visited).Ok?
    requires FullTrees(st, ChildIds(st.flows, ids[0]), visited + {ids[0]}).Ok?
    ensures FullTrees(st, ids, visited).Ok?
    ensures var kids := Map(AsChild, FullTrees(st, ChildIds(st.flows, ids[0]), visited + {ids[0]}).value);
            Map(AsChild, FullTrees(st, ids, visited).value)
              == [Assemble(st, ids[0], Packed(kids))] + Map(AsChild, FullTrees(st, ids[1..], visited).value)
  {
    var kids := Map(AsChild, FullTrees(st, ChildIds(st.flows, ids[0]), visited + {ids[0]}).value);
    var tree := Assemble(st, ids[0], Listed(kids));
    assert FullTree(st, ids[0], visited) == Ok(tree);
    assert FullTrees(st, ids, visited) == Ok([tree] + FullTrees(st, ids[1..], visited).value);
    MapCons(AsChild, tree, FullTrees(st, ids[1..], visited).value);
  }

  lemma VersionedSplits(st: Store, ids: seq<int>)
    requires ids != [] && ids[0] in st.flows && VersionOf(st, ids[0]).Some?
    ensures AllVersioned(st, ids) <==> AllVersioned(st, ChildIds(st.flows, ids[0])) && AllVersioned(st, ids[1..])
  {
    assert ids == [ids[0]] + ids[1..];
    SubtreeVersionedUnfolds(st, ids[0]);
  }

  /** The shape of both lists when the first flow has a version. */
  lemma VersionedStep(st: Store, ids: seq<int>, visited: set<int>)
    requires ids != [] && FullTrees(st, ids[1..], visited).Ok? && forall x :: x in ids[1..] ==> x in st.flows
    requires ids[0] in st.flows && ids[0] !in visited && VersionOf(st, ids[0]).Some?
    requires FullTrees(st, ChildIds(st.flows, ids[0]), visited + {ids[0]}).Ok?
    ensures forall x :: x in ids ==> x in st.flows
    ensures FullTrees(st, ids, visited).Ok?
    ensures var kids, seen := ChildIds(st.flows, ids[0]), visited + {ids[0]};
            var fullKids, savedKids := Map(AsChild, FullTrees(st, kids, seen).value), SaveTrees(st, kids, seen);
            && Ascending(savedKids) && Ascending(fullKids)
            && SaveTrees(st, ids, visited) == [Assemble(st, ids[0], Packed(savedKids))] + SaveTrees(st, ids[1..], visited)
            && Map(AsChild, FullTrees(st, ids, visited).value)
                 == [Assemble(st, ids[0], Packed(fullKids))] + Map(AsChild, FullTrees(st, ids[1..], visited).value)
  {
    var kids, seen := ChildIds(st.flows, ids[0]), visited + {ids[0]};
    assert ids == [ids[0]] + ids[1..];
    FullTreesStep(st, ids, visited);
    SaveTreesAscend(st, kids, seen);
    FullTreesAscend(FullTrees(st, kids, seen).value, kids);
  }

  lemma CompareVersioned(st: Store, ids: seq<int>, visited: set<int>, ignoreLayout: bool)
    requires ids != [] && Compared(st, ids[1..], visited, ignoreLayout)
    requires ids[0] in st.flows && ids[0] !in visited && VersionOf(st, ids[0]).Some?
    requires Compared(st, ChildIds(st.flows, ids[0]), visited + {ids[0]}, ignoreLayout)
    ensures Compared(st, ids, visited, ignoreLayout)
  {
    var kids, seen := ChildIds(st.flows, ids[0]), visited + {ids[0]};
    VersionedStep(st, ids, visited);
    VersionedSplits(st, ids);
    CompareLists(st, ids[0], SaveTrees(st, kids, seen), Map(AsChild, FullTrees(st, kids, seen).value),
                 SaveTrees(st, ids[1..], visited), Map(AsChild, FullTrees(st, ids[1..], visited).value), ignoreLayout);
  }

  lemma CompareLists(st: Store, c: int, savedKids: seq<Snapshot>, fullKids: seq<Snapshot>,
                     savedRest: seq<Snapshot>, fullRest: seq<Snapshot>, ignoreLayout: bool)
    requires c in st.flows && Ascending(savedKids) && Ascending(fullKids)
    ensures var one, all := Assemble(st, c, Packed(savedKids)), Assemble(st, c, Packed(fullKids));
            !SamePayloads(savedKids, fullKids, ignoreLayout) || !SamePayloads(savedRest, fullRest, ignoreLayout) ==>
              !SamePayloads([one] + savedRest, [all] + fullRest, ignoreLayout)
  {
    var one, all := Assemble(st, c, Packed(savedKids)), Assemble(st, c, Packed(fullKids));
    MapConsEqual(ByPayload(ignoreLayout), one, savedRest, all, fullRest);
    TwinPayloads(one, all, ignoreLayout);
  }

  /**
   * Below a root the builders agree, entry for entry, when every descendant has a version,
   * and even their payloads differ when one has none.
   */
  lemma {:induction false} BuildersCompare(st: Store, path: seq<int>, ids: seq<int>, ignoreLayout: bool)
    requires IsPath(st.flows, path)
    requires forall c :: c in ids ==> IsChild(st.flows, c, Last(path))
    ensures Compared(st, ids, Members(path), ignoreLayout)
    decreases st.flows.Keys - Members(path), |ids|
  {
    if ids != [] {
      var c := ids[0];
      ChildExtendsPath(st.flows, path, c);
      BuildersCompare(st, path + [c], ChildIds(st.flows, c), ignoreLayout);
      BuildersCompare(st, path, ids[1..], ignoreLayout);
      if VersionOf(st, c).Some? {
        CompareVersioned(st, ids, Members(path), ignoreLayout);
      } else {
        CompareUnversioned(st, ids, Members(path), ignoreLayout);
      }
    }
  }

  ghost predicate DescendantsVersioned(st: Store, root: int) {
    forall x :: x in st.flows && x != root && Descends(st.flows, root, x) ==> VersionOf(st, x).Some?
  }

  lemma DescendantsAreInChildren(st: Store, root: int)
    requires IsRoot(st.flows, root)
    ensures DescendantsVersioned(st, root) <==> AllVersioned(st, ChildIds(st.flows, root))
  {
    if DescendantsVersioned(st, root) {
      forall c, x | c in ChildIds(st.flows, root) && x in st.flows && Descends(st.flows, c, x) ensures VersionOf(st, x).Some? {
        var n: nat :| Ancestor(st.flows, x, n) == Some(c);
        AncestorAdds(st.flows, x, n, 1);
        assert Ancestor(st.flows, root, 0) == Some(root);
        assert Ancestor(st.flows, x, n + 1) == Some(root);
      }
    }
    if AllVersioned(st, ChildIds(st.flows, root)) {
      forall x | x in st.flows && x != root && Descends(st.flows, root, x) ensures VersionOf(st, x).Some? {
        var n: nat :| Ancestor(st.flows, x, n) == Some(root);
        AncestorDefinedBelow(st.flows, x, n - 1, n);
        var d := Ancestor(st.flows, x, n - 1).value;
        AncestorAdds(st.flows, x, n - 1, 1);
        assert Descends(st.flows, d, x);
        assert d in ChildIds(st.flows, root);
      }
    }
  }

  /**
   * Rereading the tree of a root never fails, and gives the subflows that saving the root lists
   * if and only if every descendant has a version.
   */
  lemma {:induction false} BuildersAgree(st: Store, root: int, ignoreLayout: bool)
    requires IsRoot(st.flows, root)
    ensures FullTree(st, root, {}).Ok?
    ensures var full, saved := FullTree(st, root, {}).value, SaveTrees(st, ChildIds(st.flows, root), {root});
            && Ascending(saved) && Ascending(full.Children())
            && full == Assemble(st, root, Listed(full.Children()))
            && (DescendantsVersioned(st, root) <==> saved == full.Children())
            && (DescendantsVersioned(st, root) <==> SamePayloads(saved, full.Children(), ignoreLayout))
  {
    var ids := ChildIds(st.flows, root);
    assert IsPath(st.flows, [root]) && Members([root]) == {root};
    DescendantsAreInChildren(st, root);
    SaveTreesAscend(st, ids, {root});
    BuildersCompare(st, [root], ids, ignoreLayout);
    FullTreesAscend(FullTrees(st, ids, {root}).value, ids);
    RootTree(st, root);
  }

  lemma RootTree(st: Store, root: int)
    requires root in st.flows && FullTrees(st, ChildIds(st.flows, root), {root}).Ok?
    ensures FullTree(st, root, {}) == Ok(Assemble(st, root, Listed(Map(AsChild, FullTrees(st, ChildIds(st.flows, root), {root}).value))))
  {
    assert {} + {root} == {root};
  }

  // ----- Rereading depends only on names, parents and contents

  ghost predicate SameTree(st: Store, st': Store) {
    && st.flows.Keys == st'.flows.Keys
    && forall x :: x in st.flows ==>
         && st.flows[x].name == st'.flows[x].name
         && st.flows[x].parent == st'.flows[x].parent
         && Content(st, x) == Content(st', x)
  }

  lemma {:induction false} SameTreeSameSnapshot(st: Store, st': Store, id: int, visited: set<int>)
    requires SameTree(st, st')
    ensures FullTree(st, id, visited) == FullTree(st', id, visited)
    decreases st.flows.Keys - visited, 0
  {
    if id !in visited && id in st.flows {
      SameParentsSameChildren(st.flows, st'.flows, id);
      SameTreeSameSnapshots(st, st', ChildIds(st.flows, id), visited + {id});
    }
  }

  lemma {:induction false} SameTreeSameSnapshots(st: Store, st': Store, ids: seq<int>, visited: set<int>)
    requires SameTree(st, st')
    ensures FullTrees(st, ids, visited) == FullTrees(st', ids, visited)
    decreases st.flows.Keys - visited, 1 + |ids|
  {
    if ids != [] {
      SameTreeSameSnapshot(st, st', ids[0], visited);
      SameTreeSameSnapshots(st, st', ids[1..], visited);
    }
  }

  /** Nothing a save reads below flow `id` has changed. */
  ghost predicate SameBelow(st: Store, st': Store, id: int) {
    && st.flows.Keys == st'.flows.Keys
    && (forall x :: x in st.flows ==> st.flows[x].parent == st'.flows[x].parent)
    && forall x :: x in st.flows && x != id ==>
         st.flows[x].name == st'.flows[x].name && VersionOf(st, x) == VersionOf(st', x) && Content(st, x) == Content(st', x)
  }

  lemma SameParentsSameChildren(flows: Flows, flows': Flows, id: int)
    requires flows.Keys == flows'.Keys && forall x :: x in flows ==> flows[x].parent == flows'[x].parent
    ensures ChildIds(flows, id) == ChildIds(flows', id)
  {
    var a, b := set c | c in flows && flows[c].parent == Some(id), set c | c in flows' && flows'[c].parent == Some(id);
    assert forall c :: c in a <==> c in b;
    assert a == b;
  }

  lemma {:induction false} SameBelowSameSave(st: Store, st': Store, id: int, ids: seq<int>, visited: set<int>)
    requires SameBelow(st, st', id) && id in visited
    requires forall c :: c in ids ==> c in st.flows
    ensures SaveTrees(st, ids, visited) == SaveTrees(st', ids, visited)
    decreases st.flows.Keys - visited, |ids|
  {
    if ids != [] {
      SameBelowSameSave(st, st', id, ids[1..], visited);
      if ids[0] !in visited {
        SameParentsSameChildren(st.flows, st'.flows, ids[0]);
        SameBelowSameSave(st, st', id, ChildIds(st.flows, ids[0]), visited + {ids[0]});
      }
    }
  }
}
