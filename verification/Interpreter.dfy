/** Flow graphs as the call runtime loads them, and the choice of the next edge. */
module CallFlows {
  import opened Wrappers
  import opened Sequences

  type Key = string

  datatype Kind = StartNode | Menu | GetDigits | Webhook | Voicemail | Callback | Transfer | Hunt | QueueLogin | PlayAudio | OtherKind(name: string)

  /** A node with what the interpreter reads of its configuration: a menu's subflow and target node per branch. */
  datatype Node = Node(nodeKey: Key, kind: Kind, branchFlows: map<string, int>, branchTargets: map<string, string>)

  datatype Edge = Edge(source: Key, target: Key, branchKey: string, condition: Option<string>)

  datatype Flow = Flow(id: int, versionId: int, nodes: seq<Node>, edges: seq<Edge>)

  /** The first element that satisfies `p`. */
  function FindFirst<A>(p: A -> bool, s: seq<A>): (r: Option<A>)
    ensures r.Some? ==> r.value in s && p(r.value)
    ensures r.None? ==> forall i :: 0 <= i < |s| ==> !p(s[i])
  {
    if s == [] then None else if p(s[0]) then Some(s[0]) else FindFirst(p, s[1..])
  }

  function Else<A>(a: Option<A>, b: Option<A>): Option<A> {
    if a.Some? then a else b
  }

  /** `nodes.find`: the first node with the key. */
  function NodeAt(flow: Flow, key: Key): (r: Option<Node>)
    ensures r.Some? ==> r.value in flow.nodes && r.value.nodeKey == key
    ensures r.None? ==> forall n :: n in flow.nodes ==> n.nodeKey != key
  {
    FindFirst((n: Node) => n.nodeKey == key, flow.nodes)
  }

  /** `new Map(nodes)`: the last node with the key. */
  function MappedNode(nodes: seq<Node>, key: Key): (r: Option<Node>)
    ensures r.Some? ==> r.value in nodes && r.value.nodeKey == key
    ensures r.None? ==> forall n :: n in nodes ==> n.nodeKey != key
  {
    if nodes == [] then None
    else if nodes[|nodes| - 1].nodeKey == key then Some(nodes[|nodes| - 1])
    else MappedNode(nodes[..|nodes| - 1], key)
  }

  predicate DistinctKeys(nodes: seq<Node>) {
    forall i, j :: 0 <= i < j < |nodes| ==> nodes[i].nodeKey != nodes[j].nodeKey
  }

  /** With distinct keys the two lookups agree. */
  lemma LookupsAgree(flow: Flow, key: Key)
    requires DistinctKeys(flow.nodes)
    ensures NodeAt(flow, key) == MappedNode(flow.nodes, key)
  {
  }

  function NonEmpty(key: Option<Key>): Option<Key> {
    if key.Some? && key.value != "" then key else None
  }

  function EntryNode(flow: Flow): (r: Option<Key>)
    ensures r.Some? ==> exists n :: n in flow.nodes && n.nodeKey == r.value
  {
    var start := FindFirst((n: Node) => n.kind == StartNode, flow.nodes);
    Else(NonEmpty(if start.Some? then Some(start.value.nodeKey) else None),
         NonEmpty(if flow.nodes != [] then Some(flow.nodes[0].nodeKey) else None))
  }

  /** The entry is the first start node, or where that has no key, or there is none, the first node; a node without a key is no entry. */
  lemma {:induction false} EntryIs(flow: Flow, i: nat)
    requires i <= |flow.nodes| && (forall j :: 0 <= j < i ==> flow.nodes[j].kind != StartNode)
    requires i < |flow.nodes| ==> flow.nodes[i].kind == StartNode
    ensures EntryNode(flow)
         == if i < |flow.nodes| && flow.nodes[i].nodeKey != "" then Some(flow.nodes[i].nodeKey)
            else if flow.nodes != [] && flow.nodes[0].nodeKey != "" then Some(flow.nodes[0].nodeKey)
            else None
  {
    FirstIs((n: Node) => n.kind == StartNode, flow.nodes, i);
  }

  lemma {:induction false} FirstIs<A>(p: A -> bool, s: seq<A>, i: nat)
    requires i <= |s| && (forall j :: 0 <= j < i ==> !p(s[j])) && (i < |s| ==> p(s[i]))
    ensures FindFirst(p, s) == if i < |s| then Some(s[i]) else None
  {
    if s != [] && i > 0 { FirstIs(p, s[1..], i - 1); }
  }

  // ----- The edge resolver

  function WithCondition(edges: seq<Edge>, text: string): Option<Edge> {
    FindFirst((e: Edge) => e.condition == Some(text), edges)
  }

  function WithBranch(edges: seq<Edge>, branch: string): Option<Edge> {
    FindFirst((e: Edge) => e.branchKey == branch, edges)
  }

  function Unconditional(edges: seq<Edge>): Option<Edge> {
    FindFirst((e: Edge) => e.condition.None?, edges)
  }

  function ResolveGetDigitsEdge(edges: seq<Edge>, result: string): (r: Option<Edge>)
    ensures r.Some? ==> r.value in edges
  {
    var fallback := FindFirst((e: Edge) => e.condition == Some("default") || e.condition.None?, edges);
    Else(WithCondition(edges, result), Else(WithCondition(edges, if result == "timeout" then "timeout" else "invalid"), fallback))
  }

  function ResolveOther(outgoing: seq<Edge>, result: string): (r: Option<Edge>)
    ensures r.Some? ==> r.value in outgoing
  {
    var conditional := Filter((e: Edge) => e.condition.Some?, outgoing);
    FilterIsWithin((e: Edge) => e.condition.Some?, outgoing);
    if conditional != [] then
      Else(WithCondition(conditional, result), Else(WithCondition(conditional, "default"), Unconditional(outgoing)))
    else
      Else(WithBranch(outgoing, result), Else(WithBranch(outgoing, "default"), Unconditional(outgoing)))
  }

  lemma FilterIsWithin<A>(p: A -> bool, s: seq<A>)
    ensures forall x :: x in Filter(p, s) ==> x in s && p(x)
  {
  }

  function ResolveNextEdge(key: Key, kind: Kind, result: string, edges: seq<Edge>): (r: Option<Edge>)
    ensures r.Some? ==> r.value in edges && r.value.source == key
  {
    var outgoing := Filter((e: Edge) => e.source == key, edges);
    FilterIsWithin((e: Edge) => e.source == key, edges);
    if kind == GetDigits then ResolveGetDigitsEdge(outgoing, result) else ResolveOther(outgoing, result)
  }

  /** Some edge out of the node has this condition. */
  ghost predicate OffersCondition(edges: seq<Edge>, key: Key, condition: Option<string>) {
    exists e :: e in edges && e.source == key && e.condition == condition
  }

  ghost predicate OffersBranch(edges: seq<Edge>, key: Key, branch: string) {
    exists e :: e in edges && e.source == key && e.branchKey == branch
  }

  ghost predicate IsConditional(edges: seq<Edge>, key: Key) {
    exists e :: e in edges && e.source == key && e.condition.Some?
  }

  lemma {:induction false} OutgoingAre(edges: seq<Edge>, key: Key)
    ensures var outgoing := Filter((e: Edge) => e.source == key, edges); forall e :: e in outgoing <==> e in edges && e.source == key
  {
    FilterHas((e: Edge) => e.source == key, edges);
  }

  /**
   * Where some edge out of the node has a condition: the result itself comes before `default`, which comes
   * before an edge without a condition.
   */
  lemma {:induction false} ConditionsDecide(key: Key, kind: Kind, result: string, edges: seq<Edge>)
    requires kind != GetDigits && IsConditional(edges, key)
    ensures var r := ResolveNextEdge(key, kind, result, edges);
            if OffersCondition(edges, key, Some(result)) then r.Some? && r.value.condition == Some(result)
            else if OffersCondition(edges, key, Some("default")) then r.Some? && r.value.condition == Some("default")
            else if OffersCondition(edges, key, None) then r.Some? && r.value.condition == None
            else r == None
  {
    OutgoingAre(edges, key);
    FilterHas((e: Edge) => e.condition.Some?, Filter((e: Edge) => e.source == key, edges));
  }

  /** Where no edge out of the node has a condition: the branch of the result comes before the `default` branch, and that before the first edge. */
  lemma {:induction false} BranchesDecide(key: Key, kind: Kind, result: string, edges: seq<Edge>)
    requires kind != GetDigits && !IsConditional(edges, key)
    ensures var r := ResolveNextEdge(key, kind, result, edges);
            if OffersBranch(edges, key, result) then r.Some? && r.value.branchKey == result
            else if OffersBranch(edges, key, "default") then r.Some? && r.value.branchKey == "default"
            else r.Some? <==> OffersCondition(edges, key, None)
  {
    OutgoingAre(edges, key);
    FilterHas((e: Edge) => e.condition.Some?, Filter((e: Edge) => e.source == key, edges));
  }

  /** After digits: the digits themselves, then `timeout` or `invalid`, then the default or unconditional edge. */
  lemma {:induction false} DigitsDecide(key: Key, result: string, edges: seq<Edge>)
    ensures var r, second := ResolveNextEdge(key, GetDigits, result, edges), if result == "timeout" then "timeout" else "invalid";
            if OffersCondition(edges, key, Some(result)) then r.Some? && r.value.condition == Some(result)
            else if OffersCondition(edges, key, Some(second)) then r.Some? && r.value.condition == Some(second)
            else if OffersCondition(edges, key, Some("default")) || OffersCondition(edges, key, None) then
              r.Some? && (r.value.condition == Some("default") || r.value.condition == None)
            else r == None
  {
    OutgoingAre(edges, key);
  }

  predicate LeadsToWebhook(flow: Flow, e: Edge) {
    var target := MappedNode(flow.nodes, e.target);
    target.Some? && target.value.kind == Webhook
  }

  function RoutingEdges(flow: Flow, key: Key): (r: seq<Edge>)
    ensures forall e :: e in r ==> e in flow.edges && e.source == key && !LeadsToWebhook(flow, e)
  {
    FilterIsWithin((e: Edge) => e.source == key && !LeadsToWebhook(flow, e), flow.edges);
    Filter((e: Edge) => e.source == key && !LeadsToWebhook(flow, e), flow.edges)
  }

  function WebhookEdges(flow: Flow, key: Key): (r: seq<Edge>)
    ensures forall e :: e in r ==> e in flow.edges && e.source == key && LeadsToWebhook(flow, e)
  {
    FilterIsWithin((e: Edge) => e.source == key && LeadsToWebhook(flow, e), flow.edges);
    Filter((e: Edge) => e.source == key && LeadsToWebhook(flow, e), flow.edges)
  }
}

/** `runFlow`: a call and return machine over flow graphs. What a node does is an oracle's answer. */
module Interpreter {
  import opened Wrappers
  import opened CallFlows
  import opened Sequences
  import Strings

  datatype Frame = Frame(flow: Flow, menuNodeKey: Key)

  /** Where the interpreter is. */
  datatype Place = Place(flow: Flow, current: Key, stack: seq<Frame>)

  datatype Reason =
    | NodeNotFound(key: Key)
    | Thrown(message: string)
    | TargetNotFound(key: Key)
    | SubflowLoadFailure(id: int)
    | SubflowHasNoEntry(id: int)
    | MenuHasNoSubflow(key: Key)
    | SubflowLacksTarget(id: int, key: Key)
    | NoEdge(key: Key, kind: Kind, result: string)
    | NoEntryNode

  datatype Outcome = Returned(result: string, nodeError: Option<string>) | Threw(message: string)

  /**
   * What the outside answers during one iteration: the node's outcome, whether the two statements on
   * its log row succeed, and what the subflow queries find, each of which is asked at most once.
   */
  datatype Answer = Answer(
    outcome: Outcome,
    inserted: bool,
    updated: bool,
    linkedSubflow: Option<int>,
    menuSubflow: Option<int>,
    loaded: Option<Flow>)

  datatype Next = Go(to: Place) | Halt(at: Place, failure: Option<Reason>)

  datatype Popped = Popped(to: Place, ok: bool)

  function ReturnToParent(p: Place): Popped {
    if p.stack == [] then Popped(p, false)
    else
      var frame, rest := p.stack[|p.stack| - 1], p.stack[..|p.stack| - 1];
      match ResolveNextEdge(frame.menuNodeKey, Menu, "complete", frame.flow.edges)
      case None => Popped(Place(frame.flow, p.current, rest), false)
      case Some(edge) => Popped(Place(frame.flow, edge.target, rest), true)
  }

  /** Goes on in the parent flow where that is possible, else halts. */
  function BackOr(p: Place, failure: Option<Reason>): Next {
    var popped := ReturnToParent(p);
    if popped.ok then Go(popped.to) else Halt(popped.to, failure)
  }

  function Enter(p: Place, node: Node, subflow: Flow, entry: Key): Next {
    Go(Place(subflow, entry, p.stack + [Frame(p.flow, node.nodeKey)]))
  }

  predicate RoutesOnCompletion(kind: Kind) {
    kind == Voicemail || kind == Callback || kind == Transfer || kind == Hunt
  }

  function ResultOf(outcome: Outcome): string {
    match outcome
    case Returned(result, _) => result
    case Threw(_) => "hangup"
  }

  const RoutePrefix: string := "route:"

  predicate IsRoute(result: string) { RoutePrefix <= result }

  function WebhookTarget(p: Place, node: Node): bool {
    match ResolveNextEdge(node.nodeKey, node.kind, "done", WebhookEdges(p.flow, node.nodeKey))
    case None => false
    case Some(edge) => var target := NodeAt(p.flow, edge.target); target.Some? && target.value.kind == Webhook
  }

  function AfterCompletion(p: Place, node: Node): Next {
    match ResolveNextEdge(node.nodeKey, node.kind, "done", RoutingEdges(p.flow, node.nodeKey))
    case Some(edge) =>
      if NodeAt(p.flow, edge.target).Some? then Go(p.(current := edge.target)) else Halt(p, Some(TargetNotFound(edge.target)))
    case None =>
      if WebhookTarget(p, node) then Halt(p, None) else BackOr(p, None)
  }

  function DeadEnd(p: Place, node: Node, result: string): Next {
    if node.kind == QueueLogin && result == "authenticated" then Halt(p, None)
    else if node.kind == PlayAudio then Halt(p, None)
    else BackOr(p, Some(NoEdge(node.nodeKey, node.kind, result)))
  }

  function BranchSubflow(node: Node, result: string): Option<int> {
    if result in node.branchFlows && node.branchFlows[result] > 0 then Some(node.branchFlows[result]) else None
  }

  function BranchTarget(node: Node, result: string): Option<Key> {
    if result in node.branchTargets then NonEmpty(Some(Strings.Trim(node.branchTargets[result]))) else None
  }

  /** A menu without an edge for the result: a subflow of the branch, or a target node in the menu's subflow. */
  function Submenu(p: Place, node: Node, result: string, a: Answer): Next {
    match Else(BranchSubflow(node, result), a.linkedSubflow)
    case Some(id) =>
      if a.loaded.None? then Halt(p, Some(SubflowLoadFailure(id)))
      else (
        match EntryNode(a.loaded.value)
        case None => Halt(p, Some(SubflowHasNoEntry(id)))
        case Some(entry) => Enter(p, node, a.loaded.value, entry)
      )
    case None =>
      match BranchTarget(node, result)
      case None => DeadEnd(p, node, result)
      case Some(key) =>
        if a.menuSubflow.None? then Halt(p, Some(MenuHasNoSubflow(node.nodeKey)))
        else if a.loaded.None? then Halt(p, Some(SubflowLoadFailure(a.menuSubflow.value)))
        else if NodeAt(a.loaded.value, key).None? then Halt(p, Some(SubflowLacksTarget(a.menuSubflow.value, key)))
        else Enter(p, node, a.loaded.value, key)
  }

  /** An edge whose target is not in this flow: a menu's target may lie in its subflow. */
  function AcrossFlows(p: Place, node: Node, target: Key, a: Answer): Next {
    if node.kind != Menu || a.menuSubflow.None? then BackOr(p, Some(TargetNotFound(target)))
    else if a.loaded.None? then BackOr(p, Some(SubflowLoadFailure(a.menuSubflow.value)))
    else
      var found := if NodeAt(a.loaded.value, target).Some? then NonEmpty(Some(target)) else None;
      Enter(p, node, a.loaded.value, Else(found, EntryNode(a.loaded.value)).GetOr(target))
  }

  function Follow(p: Place, node: Node, result: string, a: Answer): Next {
    match ResolveNextEdge(p.current, node.kind, result, RoutingEdges(p.flow, p.current))
    case None => if node.kind == Menu then Submenu(p, node, result, a) else DeadEnd(p, node, result)
    case Some(edge) =>
      if NodeAt(p.flow, edge.target).Some? then Go(p.(current := edge.target)) else AcrossFlows(p, node, edge.target, a)
  }

  /** Where the interpreter goes after a node. */
  function NextOf(p: Place, node: Node, a: Answer): Next {
    var result := ResultOf(a.outcome);
    if result == "done" && RoutesOnCompletion(node.kind) then AfterCompletion(p, node)
    else if result == "done" || result == "hangup" then BackOr(p, None)
    else if IsRoute(result) then Go(p.(current := result[|RoutePrefix|..]))
    else Follow(p, node, result, a)
  }

  // ----- Log rows

  datatype Exit = Exit(branch: string, error: Option<string>)

  datatype Row = Row(flowId: int, nodeKey: Key, kind: Kind, exit: Option<Exit>)

  /** The UPDATE: closes the latest open row of that flow and node, if there is one. */
  function CloseLatest(rows: seq<Row>, flowId: int, key: Key, exit: Exit): seq<Row> {
    if rows == [] then []
    else
      var n := |rows| - 1;
      if rows[n].flowId == flowId && rows[n].nodeKey == key && rows[n].exit.None? then rows[..n] + [rows[n].(exit := Some(exit))]
      else CloseLatest(rows[..n], flowId, key, exit) + [rows[n]]
  }

  function ExitOf(outcome: Outcome): Exit {
    match outcome
    case Returned(result, nodeError) => Exit(result, nodeError)
    case Threw(message) => Exit("hangup", Some(message))
  }

  function Opened(rows: seq<Row>, p: Place, node: Node, a: Answer): seq<Row> {
    if a.inserted then rows + [Row(p.flow.id, node.nodeKey, node.kind, None)] else rows
  }

  function Logged(rows: seq<Row>, p: Place, node: Node, a: Answer): seq<Row> {
    var entered := Opened(rows, p, node, a);
    if a.updated then CloseLatest(entered, p.flow.id, node.nodeKey, ExitOf(a.outcome)) else entered
  }

  // ----- The machine

  datatype Status = Status(halted: bool, failed: bool, reason: Option<Reason>, lastNodeKey: Key)

  datatype Machine = Machine(place: Place, status: Status, rows: seq<Row>)

  function Settle(next: Next, status: Status): (Place, Status) {
    match next
    case Go(to) => (to, status)
    case Halt(at, None) => (at, status.(halted := true))
    case Halt(at, Some(reason)) => (at, Status(true, true, Some(reason), status.lastNodeKey))
  }

  /** An iteration that finds no node under the current key. */
  function Miss(m: Machine): Machine {
    var (place, status) := Settle(BackOr(m.place, Some(NodeNotFound(m.place.current))), m.status.(lastNodeKey := m.place.current));
    Machine(place, status, m.rows)
  }

  function Noted(m: Machine, a: Answer): Status {
    match a.outcome
    case Returned(_, _) => m.status.(lastNodeKey := m.place.current)
    case Threw(message) => Status(m.status.halted, true, Some(Thrown(message)), m.place.current)
  }

  /** An iteration that executes a node. */
  function Execute(m: Machine, node: Node, a: Answer): Machine {
    var (place, status) := Settle(NextOf(m.place, node, a), Noted(m, a));
    Machine(place, status, Logged(m.rows, m.place, node, a))
  }

  function CurrentNode(m: Machine): Option<Node> { NodeAt(m.place.flow, m.place.current) }

  function Height(m: Machine): nat { if m.status.halted then 0 else |m.place.stack| + 1 }

  lemma MissDescends(m: Machine)
    requires !m.status.halted
    ensures Height(Miss(m)) < Height(m)
  {
  }

  /** One iteration: the state it leads to, the answers it leaves, and the answer it took. */
  datatype Iteration = Iteration(to: Machine, rest: seq<Answer>, answer: Option<Answer>)

  /** The next iteration of a run; an iteration that finds no node takes no answer. */
  function Iterate(m: Machine, answers: seq<Answer>): (r: Option<Iteration>)
    ensures r.Some? ==> |r.value.rest| < |answers| || (r.value.rest == answers && Height(r.value.to) < Height(m))
  {
    if m.status.halted then None
    else
      match CurrentNode(m)
      case None => MissDescends(m); Some(Iteration(Miss(m), answers, None))
      case Some(node) => if answers == [] then None else Some(Iteration(Execute(m, node, answers[0]), answers[1..], Some(answers[0])))
  }

  /** The states of a run, first to last: until it halts or no answer is left for the node at hand. */
  function States(m: Machine, answers: seq<Answer>): (path: seq<Machine>)
    ensures |path| >= 1 && path[0] == m
    decreases |answers|, Height(m)
  {
    match Iterate(m, answers)
    case None => [m]
    case Some(it) => [m] + States(it.to, it.rest)
  }

  /** The answers the iterations take, one by one. */
  function Taken(m: Machine, answers: seq<Answer>): (taken: seq<Option<Answer>>)
    decreases |answers|, Height(m)
  {
    match Iterate(m, answers)
    case None => []
    case Some(it) => [it.answer] + Taken(it.to, it.rest)
  }

  /** How many answers the run takes. */
  function Used(m: Machine, answers: seq<Answer>): (n: nat)
    ensures n <= |answers|
    decreases |answers|, Height(m)
  {
    match Iterate(m, answers)
    case None => 0
    case Some(it) => (if it.answer.Some? then 1 else 0) + Used(it.to, it.rest)
  }

  /** The last state of a run. */
  function Final(m: Machine, answers: seq<Answer>): Machine
    decreases |answers|, Height(m)
  {
    match Iterate(m, answers)
    case None => m
    case Some(it) => Final(it.to, it.rest)
  }

  function Begin(flow: Flow, entry: Key): Machine {
    Machine(Place(flow, entry, []), Status(false, false, None, entry), [])
  }

  datatype Event = EndedEvent(flowId: int) | FailedEvent(flowId: int, node: Option<Key>, reason: Option<Reason>)

  function Terminal(m: Machine): Event {
    if m.status.failed then FailedEvent(m.place.flow.id, Some(m.status.lastNodeKey), m.status.reason) else EndedEvent(m.place.flow.id)
  }

  // ----- Call and return

  ghost predicate NamesMenu(flow: Flow, key: Key) {
    exists n :: n in flow.nodes && n.nodeKey == key && n.kind == Menu
  }

  ghost predicate StackOfMenus(p: Place) {
    forall i :: 0 <= i < |p.stack| ==> NamesMenu(p.stack[i].flow, p.stack[i].menuNodeKey)
  }

  /** The edge a result picks among the edges out of the current node that lead to no webhook of the key map. */
  function PickedEdge(p: Place, node: Node, result: string): (r: Option<Edge>)
    ensures r.Some? ==> r.value in p.flow.edges && r.value.source == p.current && !LeadsToWebhook(p.flow, r.value)
  {
    ResolveNextEdge(p.current, node.kind, result, RoutingEdges(p.flow, p.current))
  }

  /** An ordinary step: along the edge that the result picks, to a node of the same flow. */
  ghost predicate AlongEdge(p: Place, node: Node, result: string, p': Place) {
    && p'.flow == p.flow && p'.stack == p.stack
    && var edge := PickedEdge(p, node, result);
       edge.Some? && p'.current == edge.value.target && NodeAt(p.flow, edge.value.target).Some?
  }

  /**
   * Where a call lands in the loaded flow: at the target of the picked edge, which this flow lacks, or
   * failing that at the entry; without an edge, at the entry of the branch's subflow, or at the branch's
   * target in the menu's subflow.
   */
  predicate Lands(p: Place, node: Node, a: Answer, subflow: Flow, key: Key) {
    var result := ResultOf(a.outcome);
    match PickedEdge(p, node, result)
    case Some(edge) =>
      && NodeAt(p.flow, edge.target).None? && a.menuSubflow.Some?
      && (if edge.target != "" && NodeAt(subflow, edge.target).Some? then key == edge.target
          else key == EntryNode(subflow).GetOr(edge.target))
    case None =>
      if Else(BranchSubflow(node, result), a.linkedSubflow).Some? then EntryNode(subflow) == Some(key)
      else a.menuSubflow.Some? && BranchTarget(node, result) == Some(key) && NodeAt(subflow, key).Some?
  }

  /** Into the flow that was loaded, where the call lands, with the menu node at hand on the stack. */
  ghost predicate CallsSubflow(p: Place, node: Node, a: Answer, p': Place) {
    && node.kind == Menu && NamesMenu(p.flow, p.current) && a.loaded == Some(p'.flow)
    && Lands(p, node, a, p'.flow, p'.current) && p'.stack == p.stack + [Frame(p.flow, p.current)]
  }

  /** Back in the flow of the top frame, at the target of that menu's edge for `complete`. */
  ghost predicate Returns(p: Place, p': Place) {
    && p.stack != []
    && var frame := p.stack[|p.stack| - 1];
       && p'.flow == frame.flow && p'.stack == p.stack[..|p.stack| - 1]
       && var edge := ResolveNextEdge(frame.menuNodeKey, Menu, "complete", frame.flow.edges);
          edge.Some? && p'.current == edge.value.target
  }

  /** To the key that a `route:` result names. */
  ghost predicate Routed(p: Place, result: string, p': Place) {
    IsRoute(result) && p' == p.(current := result[|RoutePrefix|..])
  }

  /** Dropped the top frame, whose menu has no edge for `complete`; the run ends there. */
  ghost predicate Unwinds(p: Place, p': Place) {
    && p.stack != [] && p'.stack == p.stack[..|p.stack| - 1]
    && var frame := p.stack[|p.stack| - 1];
       ResolveNextEdge(frame.menuNodeKey, Menu, "complete", frame.flow.edges).None? && p'.flow == frame.flow
  }

  lemma BackIsLegal(p: Place, failure: Option<Reason>)
    ensures var n := BackOr(p, failure);
            match n
            case Go(to) => Returns(p, to)
            case Halt(at, _) => (p.stack == [] && at == p) || Unwinds(p, at)
  {
  }

  lemma EnterCalls(p: Place, node: Node, a: Answer, entry: Key)
    requires NodeAt(p.flow, p.current) == Some(node) && node.kind == Menu && a.loaded.Some?
    requires Lands(p, node, a, a.loaded.value, entry)
    ensures CallsSubflow(p, node, a, Enter(p, node, a.loaded.value, entry).to)
  {
    assert NamesMenu(p.flow, p.current);
  }

  lemma SubmenuIsLegal(p: Place, node: Node, result: string, a: Answer)
    requires NodeAt(p.flow, p.current) == Some(node) && node.kind == Menu
    requires result == ResultOf(a.outcome) && PickedEdge(p, node, result).None?
    ensures var n := Submenu(p, node, result, a);
            match n
            case Go(to) => CallsSubflow(p, node, a, to) || Returns(p, to)
            case Halt(at, _) => at == p || Unwinds(p, at)
  {
    if Else(BranchSubflow(node, result), a.linkedSubflow).Some? {
      if a.loaded.Some? && EntryNode(a.loaded.value).Some? { EnterCalls(p, node, a, EntryNode(a.loaded.value).value); }
    } else if BranchTarget(node, result).Some? {
      var key := BranchTarget(node, result).value;
      if a.menuSubflow.Some? && a.loaded.Some? && NodeAt(a.loaded.value, key).Some? { EnterCalls(p, node, a, key); }
    } else {
      BackIsLegal(p, Some(NoEdge(node.nodeKey, node.kind, result)));
    }
  }

  lemma AcrossIsLegal(p: Place, node: Node, target: Key, a: Answer)
    requires NodeAt(p.flow, p.current) == Some(node)
    requires var edge := PickedEdge(p, node, ResultOf(a.outcome)); edge.Some? && edge.value.target == target && NodeAt(p.flow, target).None?
    ensures var n := AcrossFlows(p, node, target, a);
            match n
            case Go(to) => CallsSubflow(p, node, a, to) || Returns(p, to)
            case Halt(at, _) => at == p || Unwinds(p, at)
  {
    if node.kind != Menu || a.menuSubflow.None? {
      BackIsLegal(p, Some(TargetNotFound(target)));
    } else if a.loaded.None? {
      BackIsLegal(p, Some(SubflowLoadFailure(a.menuSubflow.value)));
    } else {
      var found := if NodeAt(a.loaded.value, target).Some? then NonEmpty(Some(target)) else None;
      EnterCalls(p, node, a, Else(found, EntryNode(a.loaded.value)).GetOr(target));
    }
  }

  lemma FollowIsLegal(p: Place, node: Node, result: string, a: Answer)
    requires NodeAt(p.flow, p.current) == Some(node) && result == ResultOf(a.outcome)
    ensures var n := Follow(p, node, result, a);
            match n
            case Go(to) => AlongEdge(p, node, result, to) || CallsSubflow(p, node, a, to) || Returns(p, to)
            case Halt(at, _) => at == p || Unwinds(p, at)
  {
    match PickedEdge(p, node, result)
    case None =>
      if node.kind == Menu { SubmenuIsLegal(p, node, result, a); }
      else { BackIsLegal(p, Some(NoEdge(node.nodeKey, node.kind, result))); }
    case Some(edge) =>
      if NodeAt(p.flow, edge.target).None? { AcrossIsLegal(p, node, edge.target, a); }
  }

  lemma CompletionIsLegal(p: Place, node: Node)
    requires NodeAt(p.flow, p.current) == Some(node)
    ensures var n := AfterCompletion(p, node);
            match n
            case Go(to) => AlongEdge(p, node, "done", to) || Returns(p, to)
            case Halt(at, _) => at == p || Unwinds(p, at)
  {
    if PickedEdge(p, node, "done").None? { BackIsLegal(p, None); }
  }

  /**
   * Whatever a node answers, the interpreter goes along the edge its result picks, jumps where a
   * `route:` result says, calls the loaded subflow from a menu node, at the node where the call lands, or returns; it halts where it is
   * or after dropping one frame whose menu has no `complete` edge.
   */
  lemma NextIsLegal(p: Place, node: Node, a: Answer)
    requires NodeAt(p.flow, p.current) == Some(node)
    ensures var n, result := NextOf(p, node, a), ResultOf(a.outcome);
            match n
            case Go(to) => AlongEdge(p, node, result, to) || CallsSubflow(p, node, a, to) || Returns(p, to) || Routed(p, result, to)
            case Halt(at, _) => at == p || Unwinds(p, at)
  {
    var result := ResultOf(a.outcome);
    if result == "done" && RoutesOnCompletion(node.kind) {
      CompletionIsLegal(p, node);
    } else if result == "done" || result == "hangup" {
      BackIsLegal(p, None);
    } else if !IsRoute(result) {
      FollowIsLegal(p, node, result, a);
    }
  }

  /** Where an iteration on the answer `a` may lead; an iteration that finds no node takes none and can only return. */
  ghost predicate Moves(p: Place, a: Option<Answer>, p': Place) {
    || Returns(p, p')
    || (a.Some? && NodeAt(p.flow, p.current).Some?
        && var node, result := NodeAt(p.flow, p.current).value, ResultOf(a.value.outcome);
           AlongEdge(p, node, result, p') || CallsSubflow(p, node, a.value, p') || Routed(p, result, p'))
  }

  /** One iteration, seen from outside. */
  ghost predicate Legal(m: Machine, a: Option<Answer>, m': Machine) {
    if m'.status.halted then m'.place == m.place || Unwinds(m.place, m'.place) else Moves(m.place, a, m'.place)
  }

  lemma ExecuteIsLegal(m: Machine, node: Node, a: Answer)
    requires !m.status.halted && CurrentNode(m) == Some(node)
    ensures Legal(m, Some(a), Execute(m, node, a))
  {
    NextIsLegal(m.place, node, a);
  }

  lemma MissIsLegal(m: Machine)
    requires !m.status.halted
    ensures Legal(m, None, Miss(m))
  {
    BackIsLegal(m.place, Some(NodeNotFound(m.place.current)));
  }

  lemma LegalKeepsMenus(m: Machine, a: Option<Answer>, m': Machine)
    requires Legal(m, a, m') && StackOfMenus(m.place)
    ensures StackOfMenus(m'.place)
  {
  }

  // ----- Every run

  /** One iteration of the loop, on the answer `a`. */
  ghost predicate Iterates(m: Machine, a: Option<Answer>, m': Machine) {
    && !m.status.halted
    && match CurrentNode(m)
       case None => a == None && m' == Miss(m)
       case Some(node) => a.Some? && m' == Execute(m, node, a.value)
  }

  lemma {:induction false} IterationIterates(m: Machine, answers: seq<Answer>)
    requires Iterate(m, answers).Some?
    ensures var it := Iterate(m, answers).value;
            && Iterates(m, it.answer, it.to)
            && (it.answer.Some? ==> answers != [] && it.answer.value == answers[0] && it.rest == answers[1..])
            && (it.answer.None? ==> it.rest == answers)
  {
  }

  /** A path of states and the answers between them: what holds of its rest and of its first step holds of all. */
  ghost predicate IsPath(path: seq<Machine>, taken: seq<Option<Answer>>) {
    |taken| == |path| - 1 && forall i :: 0 <= i < |taken| ==> IteratesAt(path, taken, i)
  }

  ghost predicate IteratesAt(path: seq<Machine>, taken: seq<Option<Answer>>, i: nat)
    requires i < |taken| == |path| - 1
  {
    Iterates(path[i], taken[i], path[i + 1])
  }

  lemma PathCons(m: Machine, a: Option<Answer>, path: seq<Machine>, taken: seq<Option<Answer>>)
    requires path != [] && Iterates(m, a, path[0]) && IsPath(path, taken)
    ensures IsPath([m] + path, [a] + taken)
  {
    var path', taken' := [m] + path, [a] + taken;
    forall i | 0 <= i < |taken'| ensures IteratesAt(path', taken', i) {
      if i > 0 { assert IteratesAt(path, taken, i - 1); }
    }
  }

  /** The states of a run follow one another by iterations on the answers it takes. */
  lemma {:induction false} RunIterates(m: Machine, answers: seq<Answer>)
    ensures IsPath(States(m, answers), Taken(m, answers))
    ensures forall a :: Some(a) in Taken(m, answers) ==> a in answers
    decreases |answers|, Height(m)
  {
    if Iterate(m, answers).Some? {
      var it := Iterate(m, answers).value;
      IterationIterates(m, answers);
      RunIterates(it.to, it.rest);
      PathCons(m, it.answer, States(it.to, it.rest), Taken(it.to, it.rest));
    }
  }

  lemma {:induction false} RunUnfolds(m: Machine, answers: seq<Answer>)
    requires Iterate(m, answers).Some?
    ensures var it := Iterate(m, answers).value;
            States(m, answers) == [m] + States(it.to, it.rest) && Final(m, answers) == Final(it.to, it.rest)
  {
  }

  function Last(path: seq<Machine>): Machine
    requires path != []
  {
    path[|path| - 1]
  }

  lemma {:induction false} FinalIsLast(m: Machine, answers: seq<Answer>)
    ensures Last(States(m, answers)) == Final(m, answers)
    decreases |answers|, Height(m)
  {
    if Iterate(m, answers).Some? {
      var it := Iterate(m, answers).value;
      RunUnfolds(m, answers);
      FinalIsLast(it.to, it.rest);
      LastOfCons(m, States(it.to, it.rest));
    }
  }

  lemma LastOfCons(m: Machine, path: seq<Machine>)
    requires path != []
    ensures Last([m] + path) == Last(path)
  {
  }

  lemma IterationIsLegal(m: Machine, a: Option<Answer>, m': Machine)
    requires Iterates(m, a, m')
    ensures Legal(m, a, m')
  {
    match CurrentNode(m)
    case None => MissIsLegal(m);
    case Some(node) => ExecuteIsLegal(m, node, a.value);
  }

  lemma {:induction false} MenusUpTo(path: seq<Machine>, taken: seq<Option<Answer>>, i: nat)
    requires i < |path| && StackOfMenus(path[0].place) && IsPath(path, taken)
    ensures StackOfMenus(path[i].place)
  {
    if i > 0 {
      MenusUpTo(path, taken, i - 1);
      StepIsLegal(path, taken, i - 1);
      LegalKeepsMenus(path[i - 1], taken[i - 1], path[i]);
    }
  }

  /**
   * Every run moves by these steps only, each tied to the answer its iteration took, and every frame
   * ever on the stack names a menu node of its flow.
   */
  lemma {:induction false} EveryRunMoves(m: Machine, answers: seq<Answer>)
    requires StackOfMenus(m.place)
    ensures var path, taken := States(m, answers), Taken(m, answers);
            && |taken| == |path| - 1
            && (forall i :: 0 <= i < |taken| ==> Legal(path[i], taken[i], path[i + 1]) && !path[i].status.halted)
            && (forall i :: 0 <= i < |path| ==> StackOfMenus(path[i].place))
  {
    var path, taken := States(m, answers), Taken(m, answers);
    RunIterates(m, answers);
    forall i | 0 <= i < |taken| ensures Legal(path[i], taken[i], path[i + 1]) && !path[i].status.halted {
      StepIsLegal(path, taken, i);
    }
    forall i | 0 <= i < |path| ensures StackOfMenus(path[i].place) { MenusUpTo(path, taken, i); }
  }

  // ----- What a step does to the stack

  /** At most one frame comes or goes, at the top. */
  ghost predicate StackStep(s: seq<Frame>, s': seq<Frame>) {
    s' == s || (|s'| == |s| + 1 && s'[..|s|] == s) || (|s| > 0 && s' == s[..|s| - 1])
  }

  lemma LegalMovesStack(m: Machine, a: Option<Answer>, m': Machine)
    requires Legal(m, a, m')
    ensures StackStep(m.place.stack, m'.place.stack)
  {
  }

  lemma GrowingCalls(m: Machine, a: Option<Answer>, m': Machine)
    requires Legal(m, a, m') && !m'.status.halted && |m'.place.stack| == |m.place.stack| + 1
    ensures NamesMenu(m.place.flow, m.place.current) && m'.place.stack == m.place.stack + [Frame(m.place.flow, m.place.current)]
  {
  }

  lemma ShrinkingReturns(m: Machine, a: Option<Answer>, m': Machine)
    requires Legal(m, a, m') && !m'.status.halted && |m'.place.stack| == |m.place.stack| - 1
    ensures Returns(m.place, m'.place)
  {
  }

  ghost predicate StackPath(stacks: seq<seq<Frame>>) {
    forall t :: 1 <= t < |stacks| ==> StackStepAt(stacks, t)
  }

  ghost predicate StackStepAt(stacks: seq<seq<Frame>>, t: nat)
    requires 1 <= t < |stacks|
  {
    StackStep(stacks[t - 1], stacks[t])
  }

  /** Frames below a depth the stack never falls under are left alone. */
  lemma {:induction false} FramesSurvive(stacks: seq<seq<Frame>>, i: nat, j: nat, k: nat)
    requires StackPath(stacks) && i <= j < |stacks|
    requires forall t :: i <= t <= j ==> |stacks[t]| >= k
    ensures stacks[j][..k] == stacks[i][..k]
    decreases j - i
  {
    if i < j {
      FramesSurvive(stacks, i, j - 1, k);
      assert StackStepAt(stacks, j);
    }
  }

  /** The stacks along a path. */
  function Stacks(path: seq<Machine>): (r: seq<seq<Frame>>)
    ensures |r| == |path| && forall t :: 0 <= t < |path| ==> r[t] == path[t].place.stack
  {
    seq(|path|, t requires 0 <= t < |path| => path[t].place.stack)
  }

  lemma PathMovesStacks(path: seq<Machine>, taken: seq<Option<Answer>>)
    requires IsPath(path, taken)
    ensures StackPath(Stacks(path))
  {
    forall t | 1 <= t < |path| ensures StackStepAt(Stacks(path), t) {
      StepIsLegal(path, taken, t - 1);
      LegalMovesStack(path[t - 1], taken[t - 1], path[t]);
    }
  }

  lemma StepIsLegal(path: seq<Machine>, taken: seq<Option<Answer>>, i: nat)
    requires IsPath(path, taken) && i < |taken|
    ensures Legal(path[i], taken[i], path[i + 1]) && !path[i].status.halted
  {
    assert IteratesAt(path, taken, i);
    IterationIsLegal(path[i], taken[i], path[i + 1]);
  }

  /** The place where the menu's call continues in its own flow. */
  ghost predicate Resumes(caller: Place, p: Place) {
    && p.flow == caller.flow && p.stack == caller.stack
    && var edge := ResolveNextEdge(caller.current, Menu, "complete", caller.flow.edges);
       edge.Some? && p.current == edge.value.target
  }

  lemma ReturnResumes(caller: Place, p: Place, p': Place)
    requires p.stack == caller.stack + [Frame(caller.flow, caller.current)] && Returns(p, p')
    ensures Resumes(caller, p')
  {
    assert p.stack[..|p.stack| - 1] == caller.stack;
  }

  /** From `i` a subflow is called, and by `j + 1` the stack first comes back to the caller's depth. */
  ghost predicate CallsAndComesBack(path: seq<Machine>, i: nat, j: nat) {
    && i < j < |path| - 1 && !path[j + 1].status.halted
    && |path[i + 1].place.stack| == |path[i].place.stack| + 1
    && (forall t :: i < t <= j ==> |path[t].place.stack| > |path[i].place.stack|)
    && |path[j + 1].place.stack| == |path[i].place.stack|
  }

  lemma {:induction false} CallThenReturn(path: seq<Machine>, taken: seq<Option<Answer>>, i: nat, j: nat)
    requires IsPath(path, taken) && CallsAndComesBack(path, i, j)
    ensures NamesMenu(path[i].place.flow, path[i].place.current)
    ensures Resumes(path[i].place, path[j + 1].place)
  {
    StepIsLegal(path, taken, i + 1);
    CallAt(path, taken, i);
    ReturnAt(path, taken, j);
    HighStackIsSame(path, taken, i + 1, j);
    ReturnResumes(path[i].place, path[j].place, path[j + 1].place);
  }

  lemma {:induction false} CallAt(path: seq<Machine>, taken: seq<Option<Answer>>, i: nat)
    requires IsPath(path, taken) && i < |taken|
    requires !path[i + 1].status.halted && |path[i + 1].place.stack| == |path[i].place.stack| + 1
    ensures var p := path[i].place; NamesMenu(p.flow, p.current) && path[i + 1].place.stack == p.stack + [Frame(p.flow, p.current)]
  {
    StepIsLegal(path, taken, i);
    GrowingCalls(path[i], taken[i], path[i + 1]);
  }

  lemma {:induction false} ReturnAt(path: seq<Machine>, taken: seq<Option<Answer>>, j: nat)
    requires IsPath(path, taken) && j < |taken|
    requires !path[j + 1].status.halted && |path[j + 1].place.stack| < |path[j].place.stack|
    ensures Returns(path[j].place, path[j + 1].place) && |path[j].place.stack| == |path[j + 1].place.stack| + 1
  {
    StepIsLegal(path, taken, j);
    LegalMovesStack(path[j], taken[j], path[j + 1]);
    ShrinkingReturns(path[j], taken[j], path[j + 1]);
  }

  lemma HighStackIsSame(path: seq<Machine>, taken: seq<Option<Answer>>, i: nat, j: nat)
    requires IsPath(path, taken) && i <= j < |path| && |path[j].place.stack| == |path[i].place.stack|
    requires forall t :: i <= t <= j ==> |path[t].place.stack| >= |path[i].place.stack|
    ensures path[j].place.stack == path[i].place.stack
  {
    PathMovesStacks(path, taken);
    SameFrames(Stacks(path), i, j);
  }

  /** A stack that comes to stand as high again, and never stood lower, is the same. */
  lemma SameFrames(stacks: seq<seq<Frame>>, i: nat, j: nat)
    requires StackPath(stacks) && i <= j < |stacks| && |stacks[j]| == |stacks[i]|
    requires forall t :: i <= t <= j ==> |stacks[t]| >= |stacks[i]|
    ensures stacks[j] == stacks[i]
  {
    FramesSurvive(stacks, i, j, |stacks[i]|);
    assert stacks[j][..|stacks[i]|] == stacks[j] && stacks[i][..|stacks[i]|] == stacks[i];
  }

  /**
   * In every run, a subflow called from a place returns, when the stack first comes back to the
   * caller's depth, into the caller's own flow at the target of that menu's edge for `complete`.
   */
  lemma {:induction false} ReturnsToCaller(flow: Flow, entry: Key, answers: seq<Answer>, i: nat, j: nat)
    requires CallsAndComesBack(States(Begin(flow, entry), answers), i, j)
    ensures var path := States(Begin(flow, entry), answers);
            && NamesMenu(path[i].place.flow, path[i].place.current)
            && Resumes(path[i].place, path[j + 1].place)
  {
    var path, taken := States(Begin(flow, entry), answers), Taken(Begin(flow, entry), answers);
    RunIterates(Begin(flow, entry), answers);
    CallThenReturn(path, taken, i, j);
  }

  // ----- Webhook nodes

  predicate IsWebhook(flow: Flow, key: Key) {
    NodeAt(flow, key).Some? && NodeAt(flow, key).value.kind == Webhook
  }

  /** The key names a webhook first and something else last. */
  predicate DoublyNamed(flow: Flow, key: Key) {
    IsWebhook(flow, key) && MappedNode(flow.nodes, key).Some? && MappedNode(flow.nodes, key).value.kind != Webhook
  }

  /** A result for which the interpreter follows an edge out of a node of that kind. */
  predicate Followed(kind: Kind, result: string) {
    !IsRoute(result) && result != "hangup" && (result == "done" ==> RoutesOnCompletion(kind))
  }

  /** The result picks an edge whose target names a webhook first and something else last. */
  predicate PicksDoublyNamed(p: Place, node: Node, result: string) {
    PickedEdge(p, node, result).Some? && DoublyNamed(p.flow, PickedEdge(p, node, result).value.target)
  }

  /** An ordinary step into a webhook node: within the flow, not by a `route:` result. */
  predicate EntersWebhook(p: Place, result: string, n: Next) {
    !IsRoute(result) && n.Go? && n.to.stack == p.stack && IsWebhook(n.to.flow, n.to.current)
  }

  /** With a result that is followed, a picked edge with a target in the flow is where the step goes. */
  lemma PickedIsTaken(p: Place, node: Node, a: Answer)
    requires NodeAt(p.flow, p.current) == Some(node)
    requires var result := ResultOf(a.outcome);
             && Followed(node.kind, result) && PickedEdge(p, node, result).Some?
             && NodeAt(p.flow, PickedEdge(p, node, result).value.target).Some?
    ensures NextOf(p, node, a) == Go(p.(current := PickedEdge(p, node, ResultOf(a.outcome)).value.target))
  {
  }

  /** A step that stays at its depth goes along an edge or by a `route:` result. */
  lemma LevelStepsAlong(p: Place, node: Node, a: Answer)
    requires NodeAt(p.flow, p.current) == Some(node)
    requires var n := NextOf(p, node, a); n.Go? && n.to.stack == p.stack && !IsRoute(ResultOf(a.outcome))
    ensures AlongEdge(p, node, ResultOf(a.outcome), NextOf(p, node, a).to) && Followed(node.kind, ResultOf(a.outcome))
  {
    NextIsLegal(p, node, a);
    var result, to := ResultOf(a.outcome), NextOf(p, node, a).to;
    assert |to.stack| == |p.stack|;
    if !Followed(node.kind, result) { BackIsLegal(p, None); }
  }

  /**
   * From a place, on an answer: the step enters a webhook node along an edge if and only if the result
   * is one that is followed and picks an edge whose target names a webhook first and something else last.
   */
  lemma EntersWebhookIff(p: Place, node: Node, a: Answer)
    requires NodeAt(p.flow, p.current) == Some(node)
    ensures EntersWebhook(p, ResultOf(a.outcome), NextOf(p, node, a))
       <==> Followed(node.kind, ResultOf(a.outcome)) && PicksDoublyNamed(p, node, ResultOf(a.outcome))
  {
    var result := ResultOf(a.outcome);
    if EntersWebhook(p, result, NextOf(p, node, a)) { LevelStepsAlong(p, node, a); }
    if Followed(node.kind, result) && PicksDoublyNamed(p, node, result) { PickedIsTaken(p, node, a); }
  }

  /** Some answer leads from the place into a webhook node along an edge if and only if some followed result picks such an edge. */
  lemma MayEnterWebhookIff(p: Place, node: Node)
    requires NodeAt(p.flow, p.current) == Some(node)
    ensures (exists a: Answer :: EntersWebhook(p, ResultOf(a.outcome), NextOf(p, node, a)))
       <==> (exists result :: Followed(node.kind, result) && PicksDoublyNamed(p, node, result))
  {
    if a: Answer :| EntersWebhook(p, ResultOf(a.outcome), NextOf(p, node, a)) {
      EntersWebhookIff(p, node, a);
    }
    if result :| Followed(node.kind, result) && PicksDoublyNamed(p, node, result) {
      var a := Answer(Returned(result, None), true, true, None, None, None);
      assert ResultOf(a.outcome) == result;
      EntersWebhookIff(p, node, a);
      assert EntersWebhook(p, ResultOf(a.outcome), NextOf(p, node, a));
    }
  }

  lemma DistinctKeysNeverDoublyNamed(flow: Flow, key: Key)
    requires DistinctKeys(flow.nodes)
    ensures !DoublyNamed(flow, key)
  {
    LookupsAgree(flow, key);
  }

  /** Iteration `i` of a run enters a webhook node though its answer was no `route:` result and the stack stayed. */
  ghost predicate OrdinaryStepIntoWebhook(m: Machine, a: Option<Answer>, m': Machine) {
    && a.Some? && !IsRoute(ResultOf(a.value.outcome)) && !m'.status.halted
    && m'.place.stack == m.place.stack && IsWebhook(m'.place.flow, m'.place.current)
  }

  lemma IterationEntersWebhookIff(m: Machine, a: Option<Answer>, m': Machine)
    requires Iterates(m, a, m')
    ensures OrdinaryStepIntoWebhook(m, a, m')
       <==> && a.Some? && CurrentNode(m).Some?
            && Followed(CurrentNode(m).value.kind, ResultOf(a.value.outcome))
            && PicksDoublyNamed(m.place, CurrentNode(m).value, ResultOf(a.value.outcome))
  {
    if a.Some? { EntersWebhookIff(m.place, CurrentNode(m).value, a.value); }
  }

  /**
   * In every run: an ordinary step enters a webhook node exactly where a followed result picks an edge
   * to a key that names a webhook first and something else last; with distinct keys none does.
   */
  lemma {:induction false} EveryRunAvoidsWebhooks(m: Machine, answers: seq<Answer>, i: nat)
    requires i < |Taken(m, answers)|
    ensures |States(m, answers)| == |Taken(m, answers)| + 1
    ensures var m0, a, m1 := States(m, answers)[i], Taken(m, answers)[i], States(m, answers)[i + 1];
            && (OrdinaryStepIntoWebhook(m0, a, m1)
                <==> && a.Some? && CurrentNode(m0).Some?
                     && Followed(CurrentNode(m0).value.kind, ResultOf(a.value.outcome))
                     && PicksDoublyNamed(m0.place, CurrentNode(m0).value, ResultOf(a.value.outcome)))
            && (DistinctKeys(m0.place.flow.nodes) ==> !OrdinaryStepIntoWebhook(m0, a, m1))
  {
    RunIterates(m, answers);
    var m0, a, m1 := States(m, answers)[i], Taken(m, answers)[i], States(m, answers)[i + 1];
    assert IteratesAt(States(m, answers), Taken(m, answers), i);
    IterationEntersWebhookIff(m0, a, m1);
    if DistinctKeys(m0.place.flow.nodes) && a.Some? && CurrentNode(m0).Some? {
      var edge := PickedEdge(m0.place, CurrentNode(m0).value, ResultOf(a.value.outcome));
      if edge.Some? { DistinctKeysNeverDoublyNamed(m0.place.flow, edge.value.target); }
    }
  }

  lemma SecondIsFound<A>(p: A -> bool, x: A, y: A, z: A)
    requires !p(x) && p(y)
    ensures FindFirst(p, [x, y, z]) == Some(y)
  {
    assert [x, y, z][1..] == [y, z];
  }

  /** A key used twice: the edge passes the webhook filter and the run executes the webhook node. */
  lemma {:induction false} DuplicateKeyEntersWebhook(a: Answer)
    requires a.outcome == Returned("next", None)
    ensures var hello := Node("a", OtherKind("hello"), map[], map[]);
            var hook, other := Node("b", Webhook, map[], map[]), Node("b", OtherKind("say"), map[], map[]);
            var flow := Flow(1, 1, [hello, hook, other], [Edge("a", "b", "next", None)]);
            && NextOf(Place(flow, "a", []), hello, a) == Go(Place(flow, "b", []))
            && NodeAt(flow, "b") == Some(hook)
  {
    var hello := Node("a", OtherKind("hello"), map[], map[]);
    var hook, other := Node("b", Webhook, map[], map[]), Node("b", OtherKind("say"), map[], map[]);
    var e := Edge("a", "b", "next", None);
    var flow := Flow(1, 1, [hello, hook, other], [e]);
    assert MappedNode(flow.nodes, "b") == Some(other) && !LeadsToWebhook(flow, e);
    FilterOne((e: Edge) => e.source == "a" && !LeadsToWebhook(flow, e), e);
    assert RoutingEdges(flow, "a") == [e];
    FilterOne((e: Edge) => e.source == "a", e);
    assert Filter((e: Edge) => e.condition.Some?, [e]) == [];
    assert ResolveNextEdge("a", hello.kind, "next", [e]) == Some(e);
    SecondIsFound((n: Node) => n.nodeKey == "b", hello, hook, other);
    assert !IsRoute("next") by { assert RoutePrefix[0] != "next"[0]; }
  }

  // ----- Outcome

  lemma FailureSticksHere(m: Machine, a: Option<Answer>, m': Machine)
    requires Iterates(m, a, m') && (m.status.failed || (a.Some? && a.value.outcome.Threw?))
    ensures m'.status.failed
  {
  }

  /** A node error makes the run end failed, however it goes on in parent flows. */
  lemma {:induction false} ThrownEndsFailed(m: Machine, answers: seq<Answer>)
    requires m.status.failed || exists k :: 0 <= k < Used(m, answers) && answers[k].outcome.Threw?
    ensures Final(m, answers).status.failed
    decreases |answers|, Height(m)
  {
    if Iterate(m, answers).Some? {
      var it := Iterate(m, answers).value;
      IterationIterates(m, answers);
      if m.status.failed || (it.answer.Some? && it.answer.value.outcome.Threw?) {
        FailureSticksHere(m, it.answer, it.to);
      } else {
        var k :| 0 <= k < Used(m, answers) && answers[k].outcome.Threw?;
        if it.answer.Some? { assert k > 0 && it.rest[k - 1] == answers[k]; }
      }
      ThrownEndsFailed(it.to, it.rest);
    }
  }

  // ----- How a run ends

  /** There is a parent flow to go on in: a frame whose menu has an edge for `complete`. */
  predicate CanReturn(p: Place) {
    p.stack != [] && ResolveNextEdge(p.stack[|p.stack| - 1].menuNodeKey, Menu, "complete", p.stack[|p.stack| - 1].flow.edges).Some?
  }

  /** The node answered a result to follow, and nothing in the flow, its subflows or the menu's branches takes it up. */
  predicate IsDeadEnd(p: Place, node: Node, a: Answer) {
    var result := ResultOf(a.outcome);
    && Followed(node.kind, result) && result != "done" && PickedEdge(p, node, result).None?
    && (node.kind == Menu ==> Else(BranchSubflow(node, result), a.linkedSubflow).None? && BranchTarget(node, result).None?)
  }

  /** Dead ends that are meant as ends: an authenticated queue login, and played audio. */
  predicate IsMeantAsEnd(node: Node, result: string) {
    (node.kind == QueueLogin && result == "authenticated") || node.kind == PlayAudio
  }

  /** Finished with no edge to follow on completion. */
  predicate IsFinished(p: Place, node: Node, result: string) {
    result == "hangup" || (result == "done" && (RoutesOnCompletion(node.kind) ==> PickedEdge(p, node, result).None?))
  }

  /** Endings that are no failure: `hangup`, `done`, a webhook on completion, and dead ends meant as ends. */
  predicate EndsCleanly(p: Place, node: Node, a: Answer) {
    var result := ResultOf(a.outcome);
    IsFinished(p, node, result) || (IsDeadEnd(p, node, a) && IsMeantAsEnd(node, result))
  }

  /** The picked edge leads to a node this flow lacks. */
  predicate LeadsNowhere(p: Place, node: Node, result: string) {
    Followed(node.kind, result) && PickedEdge(p, node, result).Some? && NodeAt(p.flow, PickedEdge(p, node, result).value.target).None?
  }

  /** The menu names a subflow for the result that cannot be entered. */
  predicate MenuFails(p: Place, node: Node, a: Answer) {
    var result := ResultOf(a.outcome);
    && Followed(node.kind, result) && result != "done" && PickedEdge(p, node, result).None? && node.kind == Menu
    && (if Else(BranchSubflow(node, result), a.linkedSubflow).Some? then a.loaded.None? || EntryNode(a.loaded.value).None?
        else BranchTarget(node, result).Some?
             && (a.menuSubflow.None? || a.loaded.None? || NodeAt(a.loaded.value, BranchTarget(node, result).value).None?))
  }

  /** The run ends here unless there is a parent flow to go on in. */
  predicate GoesBack(p: Place, node: Node, a: Answer) {
    var result := ResultOf(a.outcome);
    || (IsFinished(p, node, result) && !(result == "done" && RoutesOnCompletion(node.kind) && WebhookTarget(p, node)))
    || (IsDeadEnd(p, node, a) && !IsMeantAsEnd(node, result))
    || (LeadsNowhere(p, node, result) && result != "done" && (node.kind != Menu || a.menuSubflow.None? || a.loaded.None?))
  }

  /** The run ends here, whatever is on the stack. */
  predicate StopsHere(p: Place, node: Node, a: Answer) {
    var result := ResultOf(a.outcome);
    || (IsFinished(p, node, result) && result == "done" && RoutesOnCompletion(node.kind) && WebhookTarget(p, node))
    || (IsDeadEnd(p, node, a) && IsMeantAsEnd(node, result))
    || (LeadsNowhere(p, node, result) && result == "done")
    || MenuFails(p, node, a)
  }

  /** The reason of every ending that is a failure. */
  function FailureOf(p: Place, node: Node, a: Answer): Reason {
    var result := ResultOf(a.outcome);
    match PickedEdge(p, node, result)
    case Some(edge) =>
      if result != "done" && node.kind == Menu && a.menuSubflow.Some? then SubflowLoadFailure(a.menuSubflow.value) else TargetNotFound(edge.target)
    case None =>
      var named := Else(BranchSubflow(node, result), a.linkedSubflow);
      if node.kind == Menu && named.Some? then
        if a.loaded.None? then SubflowLoadFailure(named.value) else SubflowHasNoEntry(named.value)
      else if node.kind == Menu && BranchTarget(node, result).Some? then
        if a.menuSubflow.None? then MenuHasNoSubflow(node.nodeKey)
        else if a.loaded.None? then SubflowLoadFailure(a.menuSubflow.value)
        else SubflowLacksTarget(a.menuSubflow.value, BranchTarget(node, result).value)
      else NoEdge(node.nodeKey, node.kind, result)
  }

  lemma BackOrIs(p: Place, failure: Option<Reason>)
    ensures CanReturn(p) ==> BackOr(p, failure) == Go(ReturnToParent(p).to)
    ensures !CanReturn(p) ==> BackOr(p, failure).Halt? && BackOr(p, failure).failure == failure
  {
  }

  /** A node's answer ends the run exactly where it stops here, or goes back with no parent flow to go on in; it returns exactly where it goes back and there is one. */
  lemma HaltsIff(p: Place, node: Node, a: Answer)
    requires NodeAt(p.flow, p.current) == Some(node)
    ensures NextOf(p, node, a).Halt? <==> StopsHere(p, node, a) || (GoesBack(p, node, a) && !CanReturn(p))
    ensures GoesBack(p, node, a) && CanReturn(p) ==> NextOf(p, node, a) == Go(ReturnToParent(p).to)
    ensures NextOf(p, node, a).Go? && |NextOf(p, node, a).to.stack| < |p.stack| ==> GoesBack(p, node, a) && CanReturn(p)
    ensures NextOf(p, node, a).Halt? ==> NextOf(p, node, a).failure == if EndsCleanly(p, node, a) then None else Some(FailureOf(p, node, a))
  {
    var result := ResultOf(a.outcome);
    if result == "done" && RoutesOnCompletion(node.kind) {
      BackOrIs(p, None);
    } else if result == "done" || result == "hangup" {
      BackOrIs(p, None);
    } else if !IsRoute(result) {
      FollowHaltsIff(p, node, a);
    }
  }

  lemma FollowHaltsIff(p: Place, node: Node, a: Answer)
    requires NodeAt(p.flow, p.current) == Some(node) && Followed(node.kind, ResultOf(a.outcome)) && ResultOf(a.outcome) != "done"
    ensures var n := Follow(p, node, ResultOf(a.outcome), a);
            && (n.Halt? <==> StopsHere(p, node, a) || (GoesBack(p, node, a) && !CanReturn(p)))
            && (GoesBack(p, node, a) && CanReturn(p) ==> n == Go(ReturnToParent(p).to))
            && (n.Go? && |n.to.stack| < |p.stack| ==> GoesBack(p, node, a) && CanReturn(p))
            && (n.Halt? ==> n.failure == if EndsCleanly(p, node, a) then None else Some(FailureOf(p, node, a)))
  {
    if PickedEdge(p, node, ResultOf(a.outcome)).Some? { EdgeHaltsIff(p, node, a); } else { NoEdgeHaltsIff(p, node, a); }
  }

  lemma EdgeHaltsIff(p: Place, node: Node, a: Answer)
    requires NodeAt(p.flow, p.current) == Some(node) && Followed(node.kind, ResultOf(a.outcome)) && ResultOf(a.outcome) != "done"
    requires PickedEdge(p, node, ResultOf(a.outcome)).Some?
    ensures var n := Follow(p, node, ResultOf(a.outcome), a);
            && (n.Halt? <==> StopsHere(p, node, a) || (GoesBack(p, node, a) && !CanReturn(p)))
            && (GoesBack(p, node, a) && CanReturn(p) ==> n == Go(ReturnToParent(p).to))
            && (n.Go? && |n.to.stack| < |p.stack| ==> GoesBack(p, node, a) && CanReturn(p))
            && (n.Halt? ==> n.failure == if EndsCleanly(p, node, a) then None else Some(FailureOf(p, node, a)))
  {
    BackOrIs(p, Some(TargetNotFound(PickedEdge(p, node, ResultOf(a.outcome)).value.target)));
    if a.menuSubflow.Some? { BackOrIs(p, Some(SubflowLoadFailure(a.menuSubflow.value))); }
  }

  lemma NoEdgeHaltsIff(p: Place, node: Node, a: Answer)
    requires NodeAt(p.flow, p.current) == Some(node) && Followed(node.kind, ResultOf(a.outcome)) && ResultOf(a.outcome) != "done"
    requires PickedEdge(p, node, ResultOf(a.outcome)).None?
    ensures var n := Follow(p, node, ResultOf(a.outcome), a);
            && (n.Halt? <==> StopsHere(p, node, a) || (GoesBack(p, node, a) && !CanReturn(p)))
            && (GoesBack(p, node, a) && CanReturn(p) ==> n == Go(ReturnToParent(p).to))
            && (n.Go? && |n.to.stack| < |p.stack| ==> GoesBack(p, node, a) && CanReturn(p))
            && (n.Halt? ==> n.failure == if EndsCleanly(p, node, a) then None else Some(FailureOf(p, node, a)))
  {
    BackOrIs(p, Some(NoEdge(node.nodeKey, node.kind, ResultOf(a.outcome))));
  }

  /** The message of the last node that threw. */
  function LastThrown(taken: seq<Option<Answer>>): Option<string> {
    if taken == [] then None
    else
      var last := taken[|taken| - 1];
      if last.Some? && last.value.outcome.Threw? then Some(last.value.outcome.message) else LastThrown(taken[..|taken| - 1])
  }

  lemma {:induction false} LastThrownIff(taken: seq<Option<Answer>>)
    ensures LastThrown(taken).Some? <==> exists i :: 0 <= i < |taken| && taken[i].Some? && taken[i].value.outcome.Threw?
  {
    if taken != [] {
      var front, last := taken[..|taken| - 1], taken[|taken| - 1];
      LastThrownIff(front);
      assert forall i :: 0 <= i < |front| ==> front[i] == taken[i];
    }
  }

  /** The status says that a node threw, and what it said last. */
  predicate StatusSays(m: Machine, thrown: Option<string>) {
    && (m.status.failed <==> thrown.Some?)
    && m.status.reason == if thrown.Some? then Some(Thrown(thrown.value)) else None
  }

  /** The iteration ends the run without a failure of its own. */
  predicate CleanIteration(m: Machine, a: Option<Answer>) {
    a.Some? && CurrentNode(m).Some? && EndsCleanly(m.place, CurrentNode(m).value, a.value)
  }

  function IterationFailure(m: Machine, a: Option<Answer>): Reason {
    if a.Some? && CurrentNode(m).Some? then FailureOf(m.place, CurrentNode(m).value, a.value) else NodeNotFound(m.place.current)
  }

  lemma IterationStatus(m: Machine, a: Option<Answer>, m': Machine, thrown: Option<string>)
    requires Iterates(m, a, m') && StatusSays(m, thrown)
    ensures var thrown' := if a.Some? && a.value.outcome.Threw? then Some(a.value.outcome.message) else thrown;
            if m'.status.halted && !CleanIteration(m, a) then m'.status.failed && m'.status.reason == Some(IterationFailure(m, a))
            else StatusSays(m', thrown')
  {
    match CurrentNode(m)
    case None => BackOrIs(m.place, Some(NodeNotFound(m.place.current)));
    case Some(node) => HaltsIff(m.place, node, a.value);
  }

  /** Until the run halts, the status says which nodes threw. */
  lemma {:induction false} StatusAlong(path: seq<Machine>, taken: seq<Option<Answer>>, i: nat)
    requires IsPath(path, taken) && i < |taken| && StatusSays(path[0], None)
    ensures StatusSays(path[i], LastThrown(taken[..i]))
  {
    if i > 0 {
      StatusAlong(path, taken, i - 1);
      StepIsLegal(path, taken, i);
      assert IteratesAt(path, taken, i - 1);
      StatusAfter(path[i - 1], path[i - 1 + 1], taken, i - 1);
    }
  }

  lemma {:induction false} StatusAfter(m: Machine, m': Machine, taken: seq<Option<Answer>>, i: nat)
    requires i < |taken| && Iterates(m, taken[i], m') && StatusSays(m, LastThrown(taken[..i])) && !m'.status.halted
    ensures StatusSays(m', LastThrown(taken[..i + 1]))
  {
    IterationStatus(m, taken[i], m', LastThrown(taken[..i]));
    assert taken[..i + 1][..i] == taken[..i];
  }

  predicate SomeThrew(taken: seq<Option<Answer>>) {
    exists i :: 0 <= i < |taken| && taken[i].Some? && taken[i].value.outcome.Threw?
  }

  /** How a run ended whose last iteration was on the answer `a` from `m`, given all answers taken. */
  predicate EndedAs(end: Machine, m: Machine, a: Option<Answer>, taken: seq<Option<Answer>>) {
    && (end.status.failed <==> SomeThrew(taken) || !CleanIteration(m, a))
    && (if CleanIteration(m, a) then StatusSays(end, LastThrown(taken)) else end.status.reason == Some(IterationFailure(m, a)))
    && end.status.lastNodeKey == m.place.current
  }

  lemma {:induction false} LastIterationEnds(m: Machine, a: Option<Answer>, end: Machine, taken: seq<Option<Answer>>)
    requires taken != [] && taken[|taken| - 1] == a && StatusSays(m, LastThrown(taken[..|taken| - 1]))
    requires Iterates(m, a, end) && end.status.halted
    ensures EndedAs(end, m, a, taken)
  {
    IterationStatus(m, a, end, LastThrown(taken[..|taken| - 1]));
    LastThrownIff(taken);
  }

  lemma {:induction false} EndOfPath(path: seq<Machine>, taken: seq<Option<Answer>>)
    requires IsPath(path, taken) && taken != [] && StatusSays(path[0], None) && path[|taken|].status.halted
    ensures EndedAs(path[|taken|], path[|taken| - 1], taken[|taken| - 1], taken)
  {
    var n := |taken| - 1;
    StatusAlong(path, taken, n);
    assert IteratesAt(path, taken, n);
    LastIterationEnds(path[n], taken[n], path[n + 1], taken);
  }

  /**
   * A run that ends is completed if and only if no node threw and the last iteration ended on `hangup`,
   * on `done`, on a webhook after completion, on an authenticated queue login or on played audio. In every
   * other ending it is failed, with the reason of that ending; after a clean ending with what the last
   * node to throw said.
   */
  lemma {:induction false} RunEndsIff(flow: Flow, entry: Key, answers: seq<Answer>)
    requires Final(Begin(flow, entry), answers).status.halted
    ensures var path, taken := States(Begin(flow, entry), answers), Taken(Begin(flow, entry), answers);
            && |path| == |taken| + 1 && taken != []
            && EndedAs(Final(Begin(flow, entry), answers), path[|taken| - 1], taken[|taken| - 1], taken)
  {
    RunIterates(Begin(flow, entry), answers);
    FinalIsLast(Begin(flow, entry), answers);
    EndOfPath(States(Begin(flow, entry), answers), Taken(Begin(flow, entry), answers));
  }

  // ----- One log row per executed node

  /** The row just opened is the one closed, whatever rows were left open before. */
  lemma ClosesOwnRow(rows: seq<Row>, p: Place, node: Node, a: Answer)
    requires a.inserted
    ensures Logged(rows, p, node, a)
         == rows + [Row(p.flow.id, node.nodeKey, node.kind, if a.updated then Some(ExitOf(a.outcome)) else None)]
  {
    var entered := Opened(rows, p, node, a);
    assert entered[..|entered| - 1] == rows;
  }

  function Exits(answers: seq<Answer>): seq<Option<Exit>> {
    if answers == [] then []
    else [ExitOfRow(answers[0])] + Exits(answers[1..])
  }

  function ExitsOf(rows: seq<Row>): seq<Option<Exit>> {
    seq(|rows|, i requires 0 <= i < |rows| => rows[i].exit)
  }

  function ExitOfRow(a: Answer): Option<Exit> {
    if a.updated then Some(ExitOf(a.outcome)) else None
  }

  lemma ExitLogged(m: Machine, a: Option<Answer>, m': Machine)
    requires Iterates(m, a, m') && (a.Some? ==> a.value.inserted)
    ensures ExitsOf(m'.rows) == ExitsOf(m.rows) + if a.Some? then [ExitOfRow(a.value)] else []
  {
    if a.Some? { ClosesOwnRow(m.rows, m.place, CurrentNode(m).value, a.value); }
  }

  lemma ExitsCons(answers: seq<Answer>, n: nat)
    requires n < |answers|
    ensures Exits(answers[..n + 1]) == [ExitOfRow(answers[0])] + Exits(answers[1..][..n])
  {
    assert answers[..n + 1][1..] == answers[1..][..n];
  }

  /**
   * Every executed node gets exactly one row, in order of execution, closed by its own exit before
   * the next one is opened (or left open, where its own UPDATE failed).
   */
  lemma {:induction false} OneRowPerNode(m: Machine, answers: seq<Answer>)
    requires forall i :: 0 <= i < Used(m, answers) ==> answers[i].inserted
    ensures ExitsOf(Final(m, answers).rows) == ExitsOf(m.rows) + Exits(answers[..Used(m, answers)])
    decreases |answers|, Height(m)
  {
    match Iterate(m, answers)
    case None => assert answers[..0] == [];
    case Some(it) =>
      IterationIterates(m, answers);
      OneRowPerNode(it.to, it.rest);
      ExitLogged(m, it.answer, it.to);
      var later := Exits(it.rest[..Used(it.to, it.rest)]);
      if it.answer.Some? {
        ExitsCons(answers, Used(it.to, it.rest));
        Regroup(ExitsOf(m.rows), ExitOfRow(it.answer.value), later);
      }
  }

  lemma Regroup<T>(a: seq<T>, x: T, b: seq<T>)
    ensures (a + [x]) + b == a + ([x] + b)
  {
  }

  /** How many of the answers inserted their row. */
  function Inserts(answers: seq<Answer>): nat {
    if answers == [] then 0 else (if answers[0].inserted then 1 else 0) + Inserts(answers[1..])
  }

  lemma {:induction false} CloseKeepsCount(rows: seq<Row>, flowId: int, key: Key, exit: Exit)
    ensures |CloseLatest(rows, flowId, key, exit)| == |rows|
  {
    if rows != [] { CloseKeepsCount(rows[..|rows| - 1], flowId, key, exit); }
  }

  lemma IterationCounts(m: Machine, a: Option<Answer>, m': Machine)
    requires Iterates(m, a, m')
    ensures |m'.rows| == |m.rows| + if a.Some? && a.value.inserted then 1 else 0
  {
    if a.Some? {
      var node := CurrentNode(m).value;
      CloseKeepsCount(Opened(m.rows, m.place, node, a.value), m.place.flow.id, node.nodeKey, ExitOf(a.value.outcome));
    }
  }

  lemma InsertsCons(answers: seq<Answer>, n: nat)
    requires n < |answers|
    ensures Inserts(answers[..n + 1]) == (if answers[0].inserted then 1 else 0) + Inserts(answers[1..][..n])
  {
    assert answers[..n + 1][1..] == answers[1..][..n];
  }

  /** In every run there are as many new rows as inserts that succeeded. */
  lemma {:induction false} RowsAreInserts(m: Machine, answers: seq<Answer>)
    ensures |Final(m, answers).rows| == |m.rows| + Inserts(answers[..Used(m, answers)])
    decreases |answers|, Height(m)
  {
    match Iterate(m, answers)
    case None => assert answers[..0] == [];
    case Some(it) =>
      IterationIterates(m, answers);
      IterationCounts(m, it.answer, it.to);
      RowsAreInserts(it.to, it.rest);
      if it.answer.Some? { InsertsCons(answers, Used(it.to, it.rest)); }
  }

  lemma {:induction false} AllInserted(answers: seq<Answer>)
    ensures Inserts(answers) <= |answers|
    ensures Inserts(answers) == |answers| <==> forall i :: 0 <= i < |answers| ==> answers[i].inserted
  {
    if answers != [] { AllInserted(answers[1..]); }
  }

  lemma {:induction false} ExitsAre(answers: seq<Answer>)
    ensures |Exits(answers)| == |answers| && forall i :: 0 <= i < |answers| ==> Exits(answers)[i] == ExitOfRow(answers[i])
  {
    if answers != [] { ExitsAre(answers[1..]); }
  }

  /** One closed row for each executed node, with the node's own exit. */
  function Closings(answers: seq<Answer>): seq<Option<Exit>> {
    seq(|answers|, i requires 0 <= i < |answers| => Some(ExitOf(answers[i].outcome)))
  }

  lemma ExitsAreClosingsIff(answers: seq<Answer>)
    ensures Exits(answers) == Closings(answers) <==> forall i :: 0 <= i < |answers| ==> answers[i].updated
  {
    ExitsAre(answers);
    if Exits(answers) == Closings(answers) {
      forall i | 0 <= i < |answers| ensures answers[i].updated { assert Exits(answers)[i] == Closings(answers)[i]; }
    }
  }

  lemma AppendIsSame<T>(a: seq<T>, b: seq<T>, c: seq<T>)
    ensures a + b == a + c <==> b == c
  {
    if a + b == a + c { assert (a + b)[|a|..] == b && (a + c)[|a|..] == c; }
  }

  /**
   * In every run: the log has one closed row for each executed node, in order of execution and with the
   * node's own exit, if and only if both statements of every executed node succeeded.
   */
  lemma OneClosedRowPerNodeIff(m: Machine, answers: seq<Answer>)
    ensures var used := answers[..Used(m, answers)];
            ExitsOf(Final(m, answers).rows) == ExitsOf(m.rows) + Closings(used)
            <==> forall i :: 0 <= i < |used| ==> used[i].inserted && used[i].updated
  {
    var used := answers[..Used(m, answers)];
    RowsAreInserts(m, answers);
    AllInserted(used);
    if forall i :: 0 <= i < |used| ==> used[i].inserted {
      assert forall i :: 0 <= i < |used| ==> answers[i] == used[i];
      OneRowPerNode(m, answers);
      ExitsAreClosingsIff(used);
      AppendIsSame(ExitsOf(m.rows), Exits(used), Closings(used));
    }
  }

  /** Row `k` as it was, or closed with this exit where it was an open row of the flow and node. */
  predicate SameOrClosed(row: Row, row': Row, flowId: int, key: Key, exit: Exit) {
    row' == row || (row.flowId == flowId && row.nodeKey == key && row.exit.None? && row' == row.(exit := Some(exit)))
  }

  lemma {:induction false} CloseLatestCloses(rows: seq<Row>, flowId: int, key: Key, exit: Exit)
    ensures var rows' := CloseLatest(rows, flowId, key, exit);
            |rows'| == |rows| && forall k :: 0 <= k < |rows| ==> SameOrClosed(rows[k], rows'[k], flowId, key, exit)
  {
    if rows != [] { CloseLatestCloses(rows[..|rows| - 1], flowId, key, exit); }
  }

  /**
   * What one iteration does to the log: nothing where it finds no node; one row for the node at hand
   * where its INSERT succeeds; else no row, and only an older open row of that flow and node may get its exit.
   */
  ghost predicate LogsOwnNode(m: Machine, a: Option<Answer>, m': Machine) {
    if CurrentNode(m).None? || a.None? then m'.rows == m.rows
    else if a.value.inserted then m'.rows == m.rows + [Row(m.place.flow.id, m.place.current, CurrentNode(m).value.kind, ExitOfRow(a.value))]
    else
      && |m'.rows| == |m.rows|
      && forall k :: 0 <= k < |m.rows| ==> SameOrClosed(m.rows[k], m'.rows[k], m.place.flow.id, m.place.current, ExitOf(a.value.outcome))
  }

  lemma IterationLogsOwnNode(m: Machine, a: Option<Answer>, m': Machine)
    requires Iterates(m, a, m')
    ensures LogsOwnNode(m, a, m')
  {
    if a.Some? {
      if a.value.inserted { ClosesOwnRow(m.rows, m.place, CurrentNode(m).value, a.value); }
      CloseLatestCloses(m.rows, m.place.flow.id, m.place.current, ExitOf(a.value.outcome));
    }
  }

  /** Where the rows of a run come from, iteration by iteration, failed statements included. */
  lemma {:induction false} RowsNameTheirNodes(m: Machine, answers: seq<Answer>, i: nat)
    requires i < |Taken(m, answers)|
    ensures |States(m, answers)| == |Taken(m, answers)| + 1
    ensures LogsOwnNode(States(m, answers)[i], Taken(m, answers)[i], States(m, answers)[i + 1])
  {
    RunIterates(m, answers);
    assert IteratesAt(States(m, answers), Taken(m, answers), i);
    IterationLogsOwnNode(States(m, answers)[i], Taken(m, answers)[i], States(m, answers)[i + 1]);
  }

  // ----- The loop

  lemma {:induction false} FinalOfMiss(m: Machine, answers: seq<Answer>)
    requires !m.status.halted && CurrentNode(m) == None
    ensures Final(m, answers) == Final(Miss(m), answers) && Height(Miss(m)) < Height(m)
  {
    MissDescends(m);
    assert Iterate(m, answers) == Some(Iteration(Miss(m), answers, None));
  }

  lemma {:induction false} FinalOfExecute(m: Machine, node: Node, answers: seq<Answer>, i: nat)
    requires !m.status.halted && CurrentNode(m) == Some(node) && i < |answers|
    ensures Final(m, answers[i..]) == Final(Execute(m, node, answers[i]), answers[i + 1..])
  {
    assert answers[i..][1..] == answers[i + 1..];
    assert Iterate(m, answers[i..]) == Some(Iteration(Execute(m, node, answers[i]), answers[i + 1..], Some(answers[i])));
  }

  lemma {:induction false} FinalOfWaiting(m: Machine)
    requires m.status.halted || CurrentNode(m).Some?
    ensures Final(m, []) == m
  {
  }

  lemma {:induction false} FinalOfHalted(m: Machine, answers: seq<Answer>)
    requires m.status.halted
    ensures Final(m, answers) == m
  {
  }

  /** No node under the current key: back to the parent flow, or the end. */
  method LeaveMissing(place: Place, status: Status, ghost rows: seq<Row>) returns (place': Place, status': Status)
    ensures Machine(place', status', rows) == Miss(Machine(place, status, rows))
  {
    var settled := Settle(BackOr(place, Some(NodeNotFound(place.current))), status.(lastNodeKey := place.current));
    return settled.0, settled.1;
  }

  /** Opens the node's row, takes its outcome, closes the row and goes where the outcome leads. */
  method ExecuteNode(place: Place, status: Status, rows: seq<Row>, node: Node, a: Answer)
    returns (place': Place, status': Status, rows': seq<Row>)
    ensures Machine(place', status', rows') == Execute(Machine(place, status, rows), node, a)
  {
    rows' := Logged(rows, place, node, a);
    status' := status.(lastNodeKey := place.current);
    if a.outcome.Threw? {
      status' := status'.(failed := true, reason := Some(Thrown(a.outcome.message)));
    }
    var settled := Settle(NextOf(place, node, a), status');
    place', status' := settled.0, settled.1;
  }

  /** What is left of the loop leads to the same end. */
  ghost predicate LeadsTo(m: Machine, answers: seq<Answer>, i: nat, end: Machine) {
    i <= |answers| && Final(m, answers[i..]) == end
  }

  lemma {:induction false} LeadsHere(m: Machine, answers: seq<Answer>, i: nat, end: Machine)
    requires LeadsTo(m, answers, i, end) && (m.status.halted || (CurrentNode(m).Some? && i == |answers|))
    ensures m == end
  {
    if m.status.halted { FinalOfHalted(m, answers[i..]); } else { FinalOfWaiting(m); }
  }

  ghost function EndOf(m: Machine, answers: seq<Answer>): (end: Machine)
    ensures end == Final(m, answers) && LeadsTo(m, answers, 0, end)
  {
    assert answers[0..] == answers;
    Final(m, answers)
  }

  /** The loop body: the place, status and rows after it, or `waiting` where the node has no answer yet. */
  method LoopBody(place: Place, status: Status, rows: seq<Row>, answers: seq<Answer>, i: nat, ghost end: Machine)
    returns (place': Place, status': Status, rows': seq<Row>, i': nat, waiting: bool)
    requires !status.halted && LeadsTo(Machine(place, status, rows), answers, i, end)
    ensures LeadsTo(Machine(place', status', rows'), answers, i', end)
    ensures waiting ==> Machine(place', status', rows') == end
    ensures waiting || i < i' || (i == i' && Height(Machine(place', status', rows')) < Height(Machine(place, status, rows)))
  {
    ghost var m := Machine(place, status, rows);
    rows', i', waiting := rows, i, false;
    var node := NodeAt(place.flow, place.current);
    if node.None? {
      FinalOfMiss(m, answers[i..]);
      place', status' := LeaveMissing(place, status, rows);
    } else if i == |answers| {
      LeadsHere(m, answers, i, end);
      place', status', waiting := place, status, true;
    } else {
      FinalOfExecute(m, node.value, answers, i);
      place', status', rows' := ExecuteNode(place, status, rows, node.value, answers[i]);
      i' := i + 1;
    }
  }

  /** The loop of `runFlow`, to its end or to a node that is not answered. */
  method RunLoop(start: Machine, answers: seq<Answer>) returns (end: Machine)
    ensures end == Final(start, answers)
  {
    var place, status, rows := start.place, start.status, start.rows;
    var i, waiting := 0, false;
    ghost var goal := EndOf(start, answers);
    while !status.halted && !waiting
      invariant LeadsTo(Machine(place, status, rows), answers, i, goal)
      invariant waiting ==> Machine(place, status, rows) == goal
      decreases !waiting, |answers| - i, Height(Machine(place, status, rows))
    {
      place, status, rows, i, waiting := LoopBody(place, status, rows, answers, i, goal);
    }
    end := Machine(place, status, rows);
    if !waiting { LeadsHere(end, answers, i, goal); }
  }

  /**
   * `runFlow` on the answers of the outside: one terminal event if the run ends, `failed` exactly
   * when the returned status is; nothing while it still waits for a node.
   */
  method RunFlow(flow: Flow, answers: seq<Answer>) returns (published: seq<Event>, completed: Option<bool>, rows: seq<Row>)
    ensures match EntryNode(flow)
            case None => published == [FailedEvent(flow.id, None, Some(NoEntryNode))] && completed == Some(false) && rows == []
            case Some(entry) =>
              var end := Final(Begin(flow, entry), answers);
              && rows == end.rows
              && (if end.status.halted then published == [Terminal(end)] && completed == Some(!end.status.failed)
                  else published == [] && completed == None)
    ensures completed.Some? <==> |published| == 1
    ensures completed.Some? ==> (published[0].FailedEvent? <==> completed == Some(false))
  {
    var entry := EntryNode(flow);
    if entry.None? {
      return [FailedEvent(flow.id, None, Some(NoEntryNode))], Some(false), [];
    }
    var end := RunLoop(Begin(flow, entry.value), answers);
    if end.status.halted {
      return [Terminal(end)], Some(!end.status.failed), end.rows;
    }
    return [], None, end.rows;
  }
}
