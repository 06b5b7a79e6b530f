/** Two-leg callbacks: the row in the backend, the execution in the call runtime, and the legs' waiters. */
module Callbacks {
  import opened Wrappers

  type Channel = int

  datatype Leg = Operator | Customer

  datatype Status = Pending | DialingOperator | DialingCustomer | Bridged | Completed | Failed | Cancelled

  predicate Terminal(s: Status) { s == Completed || s == Failed || s == Cancelled }

  /** The steps a callback's status may take. */
  predicate Follows(a: Status, b: Status) {
    match a
    case Pending => b == DialingOperator || b == Cancelled
    case DialingOperator => b == DialingCustomer || b == Failed
    case DialingCustomer => b == Bridged || b == Failed
    case Bridged => b == Completed || b == Failed
    case _ => false
  }

  /** What the field checks of an execute message find. */
  datatype Check = MissingFields | BadNumber | Accepted

  datatype Phase =
    | Ready
    | Launched
    | Skipped
    | OperatorDialing
    | OperatorWaiting
    | OperatorUp(operator: Channel)
    | CustomerDialing(operator: Channel)
    | CustomerWaiting(operator: Channel)
    | CustomerUp(operator: Channel, customer: Channel)
    | Bridging(operator: Channel, customer: Channel)
    | Talking(operator: Channel, customer: Channel)
    | Closing
    | Failing
    | Done(outcome: Status)

  /** The execution: where it is, whether hold audio plays, and the statuses it has published. */
  datatype Execution = Execution(phase: Phase, holdAudio: bool, published: seq<Status>)

  /** Waiters by leg, how often each was settled, and what became of the legs that entered. */
  datatype Legs = Legs(waiters: map<Leg, int>, settled: multiset<int>, registered: nat, delivered: map<Channel, int>, orphans: set<Channel>)

  datatype Intent = ToExecute | ToCancel

  /** The row, the handlers that read it as pending and have yet to write, and the status messages in flight. */
  datatype Backend = Backend(status: Status, executed: bool, completed: bool, readers: map<int, Intent>, inbox: seq<Status>)

  datatype System = System(exec: Execution, legs: Legs, backend: Backend)

  datatype Event =
    | Read(handler: int, intent: Intent)
    | ExecuteWrites(handler: int)
    | CancelWrites(handler: int)
    | Deliver
    | Launch(check: Check)
    | OperatorOriginated(ok: bool)
    | LegEnters(leg: Leg, channel: Channel)
    | TimerFires(leg: Leg)
    | AnnounceCustomer(audio: bool)
    | CustomerOriginated(ok: bool)
    | AnnounceBridge
    | BridgeBuilt(ok: bool)
    | LegEnded(channel: Channel)
    | AnnounceCompletion
    | AnnounceFailure

  function Start(): System {
    System(Execution(Ready, false, []), Legs(map[], multiset{}, 0, map[], {}), Backend(Pending, false, false, map[], []))
  }

  predicate Enabled(s: System, e: Event) {
    match e
    case Read(h, _) => h !in s.backend.readers
    case ExecuteWrites(h) => h in s.backend.readers && s.backend.readers[h] == ToExecute && s.exec.phase == Ready
    case CancelWrites(h) => h in s.backend.readers && s.backend.readers[h] == ToCancel
    case Deliver => s.backend.inbox != []
    case Launch(_) => s.exec.phase == Launched
    case OperatorOriginated(_) => s.exec.phase == OperatorDialing
    case LegEnters(_, ch) => ch !in s.legs.delivered && ch !in s.legs.orphans
    case TimerFires(leg) => Awaited(s.exec.phase) == Some(leg)
    case AnnounceCustomer(_) => s.exec.phase.OperatorUp?
    case CustomerOriginated(_) => s.exec.phase.CustomerDialing?
    case AnnounceBridge => s.exec.phase.CustomerUp?
    case BridgeBuilt(_) => s.exec.phase.Bridging?
    case LegEnded(ch) => s.exec.phase.Talking? && (ch == s.exec.phase.operator || ch == s.exec.phase.customer)
    case AnnounceCompletion => s.exec.phase == Closing
    case AnnounceFailure => s.exec.phase == Failing
  }

  // ----- Steps

  function Enters(s: System, phase: Phase): System { s.(exec := s.exec.(phase := phase)) }

  /** Publishes a status and goes to the next phase; `audio` says whether hold audio plays afterwards. */
  function Announce(s: System, status: Status, phase: Phase, audio: bool): System {
    s.(exec := Execution(phase, audio, s.exec.published + [status]), backend := s.backend.(inbox := s.backend.inbox + [status]))
  }

  function Register(legs: Legs, leg: Leg): Legs {
    legs.(waiters := legs.waiters[leg := legs.registered], registered := legs.registered + 1)
  }

  function Settle(legs: Legs, leg: Leg): Legs
    requires leg in legs.waiters
  {
    legs.(waiters := legs.waiters - {leg}, settled := legs.settled + multiset{legs.waiters[leg]})
  }

  function Answered(phase: Phase, leg: Leg, ch: Channel): Phase {
    match phase
    case OperatorWaiting => if leg == Operator then OperatorUp(ch) else phase
    case CustomerWaiting(op) => if leg == Customer then CustomerUp(op, ch) else phase
    case _ => phase
  }

  /** A leg enters Stasis: to its waiter if there is one, else it is hung up. */
  function LegEntersStep(s: System, leg: Leg, ch: Channel): System {
    if leg in s.legs.waiters then
      System(s.exec.(phase := Answered(s.exec.phase, leg, ch)),
             Settle(s.legs, leg).(delivered := s.legs.delivered[ch := s.legs.waiters[leg]]),
             s.backend)
    else s.(legs := s.legs.(orphans := s.legs.orphans + {ch}))
  }

  function TimerStep(s: System, leg: Leg): System {
    System(s.exec.(phase := Failing), if leg in s.legs.waiters then Settle(s.legs, leg) else s.legs, s.backend)
  }

  function WriteStep(s: System, h: int, status: Status): System {
    System(if status == DialingOperator then s.exec.(phase := Launched) else s.exec,
           s.legs,
           s.backend.(status := status, readers := s.backend.readers - {h},
                      executed := s.backend.executed || status == DialingOperator,
                      completed := s.backend.completed || status == Cancelled))
  }

  function DeliverStep(s: System): System
    requires s.backend.inbox != []
  {
    var status := s.backend.inbox[0];
    s.(backend := s.backend.(status := status, inbox := s.backend.inbox[1..],
                             executed := s.backend.executed || !Terminal(status),
                             completed := s.backend.completed || Terminal(status)))
  }

  function Apply(s: System, e: Event): System
    requires Enabled(s, e)
  {
    match e
    case Read(h, intent) => if s.backend.status == Pending then s.(backend := s.backend.(readers := s.backend.readers[h := intent])) else s
    case ExecuteWrites(h) => WriteStep(s, h, DialingOperator)
    case CancelWrites(h) => WriteStep(s, h, Cancelled)
    case Deliver => DeliverStep(s)
    case Launch(check) => (match check
                           case MissingFields => Enters(s, Skipped)
                           case BadNumber => Announce(s, Failed, Done(Failed), s.exec.holdAudio)
                           case Accepted => Enters(s, OperatorDialing))
    case OperatorOriginated(ok) => if ok then Enters(s, OperatorWaiting).(legs := Register(s.legs, Operator)) else Enters(s, Failing)
    case LegEnters(leg, ch) => LegEntersStep(s, leg, ch)
    case TimerFires(leg) => TimerStep(s, leg)
    case AnnounceCustomer(audio) => Announce(s, DialingCustomer, CustomerDialing(s.exec.phase.operator), audio)
    case CustomerOriginated(ok) =>
      if ok then Enters(s, CustomerWaiting(s.exec.phase.operator)).(legs := Register(s.legs, Customer)) else Enters(s, Failing)
    case AnnounceBridge => Announce(s, Bridged, Bridging(s.exec.phase.operator, s.exec.phase.customer), false)
    case BridgeBuilt(ok) => Enters(s, if ok then Talking(s.exec.phase.operator, s.exec.phase.customer) else Failing)
    case LegEnded(_) => Enters(s, Closing)
    case AnnounceCompletion => Announce(s, Completed, Done(Completed), s.exec.holdAudio)
    case AnnounceFailure => Announce(s, Failed, Done(Failed), false)
  }

  predicate Runs(s: System, es: seq<Event>)
    decreases |es|
  {
    es == [] || (Enabled(s, es[0]) && Runs(Apply(s, es[0]), es[1..]))
  }

  function After(s: System, es: seq<Event>): System
    requires Runs(s, es)
    decreases |es|
  {
    if es == [] then s else After(Apply(s, es[0]), es[1..])
  }

  // ----- The published statuses

  /** `a` and then the statuses of `p`, each a step from the one before. */
  predicate Path(a: Status, p: seq<Status>)
    decreases |p|
  {
    p == [] || (Follows(a, p[0]) && Path(p[0], p[1..]))
  }

  function LastOf(a: Status, p: seq<Status>): Status {
    if p == [] then a else p[|p| - 1]
  }

  /** The statuses an execution in this phase may have published last. */
  predicate Said(phase: Phase, last: Status) {
    match phase
    case CustomerDialing(_) => last == DialingCustomer
    case CustomerWaiting(_) => last == DialingCustomer
    case CustomerUp(_, _) => last == DialingCustomer
    case Bridging(_, _) => last == Bridged
    case Talking(_, _) => last == Bridged
    case Closing => last == Bridged
    case Failing => last == DialingOperator || last == DialingCustomer || last == Bridged
    case Done(outcome) => last == outcome && (outcome == Completed || outcome == Failed)
    case _ => last == DialingOperator
  }

  /** Hold audio plays only from the operator's answer to the customer's. */
  predicate AudioFits(exec: Execution) {
    exec.holdAudio ==> exec.phase.CustomerDialing? || exec.phase.CustomerWaiting? || exec.phase.CustomerUp? || exec.phase.Failing?
  }

  predicate GoodExecution(exec: Execution) {
    && Path(DialingOperator, exec.published)
    && Said(exec.phase, LastOf(DialingOperator, exec.published))
    && (exec.phase.Ready? || exec.phase.Launched? || exec.phase.Skipped? ==> exec.published == [])
    && AudioFits(exec)
  }

  lemma {:induction false} PathGrows(a: Status, p: seq<Status>, b: Status)
    requires Path(a, p) && Follows(LastOf(a, p), b)
    ensures Path(a, p + [b]) && LastOf(a, p + [b]) == b
    decreases |p|
  {
    if p == [] {
      assert (p + [b])[1..] == [];
    } else {
      PathGrows(p[0], p[1..], b);
      assert (p + [b])[1..] == p[1..] + [b];
    }
  }

  lemma StepKeepsExecution(s: System, e: Event)
    requires GoodExecution(s.exec) && Enabled(s, e)
    ensures GoodExecution(Apply(s, e).exec)
  {
    var s' := Apply(s, e);
    if s'.exec.published != s.exec.published {
      var status := s'.exec.published[|s.exec.published|];
      PathGrows(DialingOperator, s.exec.published, status);
    }
  }

  // ----- Waiters and legs

  /** The leg whose answer an execution waits for. */
  function Awaited(phase: Phase): Option<Leg> {
    match phase
    case OperatorWaiting => Some(Operator)
    case CustomerWaiting(_) => Some(Customer)
    case _ => None
  }

  ghost predicate GoodLegs(s: System) {
    && (forall leg :: leg in s.legs.waiters <==> Awaited(s.exec.phase) == Some(leg))
    && (forall leg :: leg in s.legs.waiters ==> s.legs.waiters[leg] < s.legs.registered && s.legs.waiters[leg] !in s.legs.settled)
    && (forall w :: s.legs.settled[w] <= 1)
    && (forall w :: w in s.legs.settled ==> w < s.legs.registered)
    && (forall ch :: ch in s.legs.delivered ==> s.legs.delivered[ch] in s.legs.settled && ch !in s.legs.orphans)
    && (forall a, b :: a in s.legs.delivered && b in s.legs.delivered && a != b ==> s.legs.delivered[a] != s.legs.delivered[b])
  }

  /** A waiter is settled: it was not before, and nobody waits for the leg any more. */
  lemma SettlingKeepsLegs(s: System, leg: Leg, s': System)
    requires GoodLegs(s) && leg in s.legs.waiters && s'.legs == Settle(s.legs, leg) && Awaited(s'.exec.phase) == None
    ensures GoodLegs(s')
  {
  }

  lemma EnteringKeepsLegs(s: System, leg: Leg, ch: Channel)
    requires GoodLegs(s) && ch !in s.legs.delivered && ch !in s.legs.orphans
    ensures GoodLegs(LegEntersStep(s, leg, ch))
  {
    if leg in s.legs.waiters {
      var phase := Answered(s.exec.phase, leg, ch);
      assert Awaited(phase) == None;
      var settled := System(s.exec.(phase := phase), Settle(s.legs, leg), s.backend);
      SettlingKeepsLegs(s, leg, settled);
      DeliveringKeepsLegs(settled, ch, s.legs.waiters[leg]);
    }
  }

  lemma DeliveringKeepsLegs(s: System, ch: Channel, w: int)
    requires GoodLegs(s) && ch !in s.legs.delivered && ch !in s.legs.orphans
    requires w in s.legs.settled && forall c :: c in s.legs.delivered ==> s.legs.delivered[c] != w
    ensures GoodLegs(s.(legs := s.legs.(delivered := s.legs.delivered[ch := w])))
  {
  }

  lemma RegisteringKeepsLegs(s: System, leg: Leg, s': System)
    requires GoodLegs(s) && Awaited(s.exec.phase) == None && s'.legs == Register(s.legs, leg) && Awaited(s'.exec.phase) == Some(leg)
    ensures GoodLegs(s')
  {
  }

  lemma SameLegs(s: System, s': System)
    requires GoodLegs(s) && s'.legs == s.legs && Awaited(s'.exec.phase) == Awaited(s.exec.phase)
    ensures GoodLegs(s')
  {
  }

  predicate TouchesLegs(e: Event) {
    e.LegEnters? || e.TimerFires? || (e.OperatorOriginated? && e.ok) || (e.CustomerOriginated? && e.ok)
  }

  lemma OthersLeaveLegs(s: System, e: Event)
    requires Enabled(s, e) && !TouchesLegs(e)
    ensures Apply(s, e).legs == s.legs && Awaited(Apply(s, e).exec.phase) == Awaited(s.exec.phase)
  {
  }

  lemma StepKeepsLegs(s: System, e: Event)
    requires GoodLegs(s) && Enabled(s, e)
    ensures GoodLegs(Apply(s, e))
  {
    if !TouchesLegs(e) {
      OthersLeaveLegs(s, e);
      SameLegs(s, Apply(s, e));
    } else {
      match e
      case LegEnters(leg, ch) => EnteringKeepsLegs(s, leg, ch);
      case TimerFires(leg) => SettlingKeepsLegs(s, leg, Apply(s, e));
      case OperatorOriginated(_) => RegisteringKeepsLegs(s, Operator, Apply(s, e));
      case CustomerOriginated(_) => RegisteringKeepsLegs(s, Customer, Apply(s, e));
    }
  }

  lemma {:induction false} RunKeepsAll(s: System, es: seq<Event>)
    requires GoodExecution(s.exec) && GoodLegs(s) && Runs(s, es)
    ensures GoodExecution(After(s, es).exec) && GoodLegs(After(s, es))
    decreases |es|
  {
    if es != [] {
      StepKeepsExecution(s, es[0]);
      StepKeepsLegs(s, es[0]);
      RunKeepsAll(Apply(s, es[0]), es[1..]);
    }
  }

  function Count(p: seq<Status>): nat {
    if p == [] then 0 else (if Terminal(p[0]) then 1 else 0) + Count(p[1..])
  }

  lemma {:induction false} OneTerminalOnPath(a: Status, p: seq<Status>)
    requires Path(a, p) && !Terminal(a)
    ensures Count(p) == if Terminal(LastOf(a, p)) then 1 else 0
    decreases |p|
  {
    if p != [] && !Terminal(p[0]) { OneTerminalOnPath(p[0], p[1..]); }
  }

  // ----- The legs that enter

  /** The channels of the legs that enter during a run. */
  function Entered(es: seq<Event>): set<Channel> {
    if es == [] then {} else (if es[0].LegEnters? then {es[0].channel} else {}) + Entered(es[1..])
  }

  /** The channels that were delivered to a waiter or hung up. */
  function Handled(legs: Legs): set<Channel> { legs.delivered.Keys + legs.orphans }

  lemma StepHandles(s: System, e: Event)
    requires Enabled(s, e)
    ensures Handled(Apply(s, e).legs) == Handled(s.legs) + if e.LegEnters? then {e.channel} else {}
  {
  }

  lemma {:induction false} RunHandles(s: System, es: seq<Event>)
    requires Runs(s, es)
    ensures Handled(After(s, es).legs) == Handled(s.legs) + Entered(es)
    decreases |es|
  {
    if es != [] {
      StepHandles(s, es[0]);
      RunHandles(Apply(s, es[0]), es[1..]);
    }
  }

  /** The state after `i` events of a run. */
  function StateAt(s: System, es: seq<Event>, i: nat): System
    requires Runs(s, es) && i <= |es|
    decreases i
  {
    if i == 0 then s else StateAt(Apply(s, es[0]), es[1..], i - 1)
  }

  /** A leg stays with its waiter, or hung up. */
  lemma StepKeepsFate(s: System, e: Event)
    requires Enabled(s, e)
    ensures forall ch :: ch in Handled(s.legs) ==>
              && (ch in Apply(s, e).legs.delivered <==> ch in s.legs.delivered)
              && (ch in Apply(s, e).legs.orphans <==> ch in s.legs.orphans)
  {
  }

  lemma {:induction false} RunKeepsFate(s: System, es: seq<Event>)
    requires Runs(s, es)
    ensures forall ch :: ch in Handled(s.legs) ==>
              && (ch in After(s, es).legs.delivered <==> ch in s.legs.delivered)
              && (ch in After(s, es).legs.orphans <==> ch in s.legs.orphans)
    decreases |es|
  {
    if es != [] {
      StepKeepsFate(s, es[0]);
      StepHandles(s, es[0]);
      RunKeepsFate(Apply(s, es[0]), es[1..]);
    }
  }

  /** An entering leg is delivered if its waiter is registered, else hung up. */
  lemma EnteringDecidesFate(s: System, leg: Leg, ch: Channel)
    requires Enabled(s, LegEnters(leg, ch))
    ensures var s' := Apply(s, LegEnters(leg, ch));
            && ch in Handled(s'.legs)
            && (ch in s'.legs.delivered <==> leg in s.legs.waiters)
            && (ch in s'.legs.orphans <==> leg !in s.legs.waiters)
  {
  }

  lemma {:induction false} LegFateFrom(s: System, es: seq<Event>, i: nat)
    requires Runs(s, es) && i < |es| && es[i].LegEnters?
    ensures var end, before := After(s, es), StateAt(s, es, i);
            && (es[i].channel in end.legs.delivered <==> es[i].leg in before.legs.waiters)
            && (es[i].channel in end.legs.orphans <==> es[i].leg !in before.legs.waiters)
    decreases i
  {
    if i == 0 {
      EnteringDecidesFate(s, es[0].leg, es[0].channel);
      RunKeepsFate(Apply(s, es[0]), es[1..]);
    } else {
      LegFateFrom(Apply(s, es[0]), es[1..], i - 1);
    }
  }

  /**
   * In every run, the fate of every leg that enters is decided when it enters: if its waiter is then
   * registered it is delivered and never hung up as an orphan, else it is hung up and never delivered.
   */
  lemma EveryLegHasItsFate(es: seq<Event>, i: nat)
    requires Runs(Start(), es) && i < |es| && es[i].LegEnters?
    ensures var end, before := After(Start(), es), StateAt(Start(), es, i);
            && (es[i].channel in end.legs.delivered <==> es[i].leg in before.legs.waiters)
            && (es[i].channel in end.legs.orphans <==> es[i].leg !in before.legs.waiters)
  {
    LegFateFrom(Start(), es, i);
  }

  /**
   * In every run: the published statuses are a path from dialing the operator, with exactly one
   * terminal status once the execution is over and none before; every waiter is settled at most
   * once; every leg that entered was delivered to one waiter of its own or was hung up; and no hold
   * audio plays after the end.
   */
  lemma {:induction false} EveryRun(es: seq<Event>)
    requires Runs(Start(), es)
    ensures var s := After(Start(), es);
            && Path(DialingOperator, s.exec.published)
            && Count(s.exec.published) == (if s.exec.phase.Done? then 1 else 0)
            && (s.exec.phase.Done? ==> s.exec.published != [] && s.exec.published[|s.exec.published| - 1] == s.exec.phase.outcome)
            && (forall w :: s.legs.settled[w] <= 1)
            && Handled(s.legs) == Entered(es)
            && (forall ch :: ch in s.legs.delivered ==> ch !in s.legs.orphans && s.legs.delivered[ch] in s.legs.settled)
            && (forall a, b :: a in s.legs.delivered && b in s.legs.delivered && a != b ==> s.legs.delivered[a] != s.legs.delivered[b])
            && (s.exec.phase.Done? || s.exec.phase.Talking? ==> !s.exec.holdAudio)
  {
    RunKeepsAll(Start(), es);
    RunHandles(Start(), es);
    GoodStatusesEnd(After(Start(), es).exec);
  }

  lemma GoodStatusesEnd(exec: Execution)
    requires GoodExecution(exec)
    ensures Path(DialingOperator, exec.published) && Count(exec.published) == (if exec.phase.Done? then 1 else 0)
    ensures exec.phase.Done? ==> exec.published != [] && exec.published[|exec.published| - 1] == exec.phase.outcome
  {
    OneTerminalOnPath(DialingOperator, exec.published);
  }

  // ----- The row

  /** A write by a handler that read the row as pending, after somebody else has changed it. */
  predicate Stale(s: System, e: Event) {
    (e.ExecuteWrites? || e.CancelWrites?) && s.backend.status != Pending
  }

  /** A stale write that says something else than the row already says. */
  predicate Overwrites(s: System, e: Event) {
    Stale(s, e) && s.backend.status != (if e.CancelWrites? then Cancelled else DialingOperator)
  }

  predicate Forward(a: Status, b: Status) { a == b || Follows(a, b) }

  /** The row, the statuses on their way to it and the execution's last word form one path. */
  predicate GoodRow(s: System) {
    && Path(s.backend.status, s.backend.inbox)
    && (if s.exec.phase == Ready then s.backend.inbox == [] && (s.backend.status == Pending || s.backend.status == Cancelled)
        else LastOf(s.backend.status, s.backend.inbox) == LastOf(DialingOperator, s.exec.published) && s.backend.status != Pending)
    && (s.backend.completed <==> Terminal(s.backend.status))
    && (s.backend.executed <==> s.backend.status != Pending && s.backend.status != Cancelled)
  }

  lemma AnnouncementKeepsRow(s: System, status: Status, phase: Phase, audio: bool)
    requires GoodRow(s) && s.exec.phase != Ready && phase != Ready && Follows(LastOf(DialingOperator, s.exec.published), status)
    ensures GoodRow(Announce(s, status, phase, audio))
  {
    PathGrows(s.backend.status, s.backend.inbox, status);
  }

  lemma DeliveryKeepsRow(s: System)
    requires GoodRow(s) && s.backend.inbox != []
    ensures GoodRow(DeliverStep(s)) && Follows(s.backend.status, s.backend.inbox[0])
  {
  }

  lemma StepKeepsRow(s: System, e: Event)
    requires GoodRow(s) && GoodExecution(s.exec) && Enabled(s, e) && !Overwrites(s, e)
    ensures GoodRow(Apply(s, e)) && Forward(s.backend.status, Apply(s, e).backend.status)
  {
    match e
    case Deliver => DeliveryKeepsRow(s);
    case Launch(check) => if check == BadNumber { AnnouncementKeepsRow(s, Failed, Done(Failed), s.exec.holdAudio); }
    case AnnounceCustomer(audio) => AnnouncementKeepsRow(s, DialingCustomer, CustomerDialing(s.exec.phase.operator), audio);
    case AnnounceBridge => AnnouncementKeepsRow(s, Bridged, Bridging(s.exec.phase.operator, s.exec.phase.customer), false);
    case AnnounceCompletion => AnnouncementKeepsRow(s, Completed, Done(Completed), s.exec.holdAudio);
    case AnnounceFailure => AnnouncementKeepsRow(s, Failed, Done(Failed), false);
    case _ =>
  }

  /** No stale write of the run says something else than the row already says. */
  predicate NeverOverwrites(s: System, es: seq<Event>)
    requires Runs(s, es)
    decreases |es|
  {
    es == [] || (!Overwrites(s, es[0]) && NeverOverwrites(Apply(s, es[0]), es[1..]))
  }

  /** The row's statuses along a run. */
  function RowStatuses(s: System, es: seq<Event>): seq<Status>
    requires Runs(s, es)
    decreases |es|
  {
    [s.backend.status] + if es == [] then [] else RowStatuses(Apply(s, es[0]), es[1..])
  }

  predicate Climbs(r: seq<Status>) {
    forall i :: 1 <= i < |r| ==> Forward(r[i - 1], r[i])
  }

  lemma ClimbsCons(a: Status, rest: seq<Status>)
    requires rest != []
    ensures Climbs([a] + rest) <==> Forward(a, rest[0]) && Climbs(rest)
  {
    var r := [a] + rest;
    if Climbs(r) {
      assert Forward(r[0], r[1]);
      forall i | 1 <= i < |rest| ensures Forward(rest[i - 1], rest[i]) { assert Forward(r[i], r[i + 1]); }
    }
    if Forward(a, rest[0]) && Climbs(rest) {
      forall i | 1 <= i < |r| ensures Forward(r[i - 1], r[i]) {
        if i > 1 { assert Forward(rest[i - 2], rest[i - 1]); }
      }
    }
  }

  lemma OverwritingIsNotForward(s: System, e: Event)
    requires Enabled(s, e) && Overwrites(s, e)
    ensures !Forward(s.backend.status, Apply(s, e).backend.status)
  {
  }

  lemma {:induction false} RowClimbsIffFrom(s: System, es: seq<Event>)
    requires Runs(s, es) && GoodRow(s) && GoodExecution(s.exec)
    ensures Climbs(RowStatuses(s, es)) <==> NeverOverwrites(s, es)
    ensures NeverOverwrites(s, es) ==> GoodRow(After(s, es)) && GoodExecution(After(s, es).exec)
    decreases |es|
  {
    if es != [] {
      var s' := Apply(s, es[0]);
      ClimbsCons(s.backend.status, RowStatuses(s', es[1..]));
      if Overwrites(s, es[0]) {
        OverwritingIsNotForward(s, es[0]);
      } else {
        StepKeepsRow(s, es[0]);
        StepKeepsExecution(s, es[0]);
        RowClimbsIffFrom(s', es[1..]);
      }
    }
  }

  /**
   * In every run: the row's status only moves forward if and only if every stale write repeats the
   * status the row already has. Then, when the execution is over and its messages have arrived, the
   * row holds the outcome and its completion time.
   */
  lemma RowClimbsIff(es: seq<Event>)
    requires Runs(Start(), es)
    ensures Climbs(RowStatuses(Start(), es)) <==> NeverOverwrites(Start(), es)
    ensures NeverOverwrites(Start(), es) ==>
              var s := After(Start(), es);
              && (s.exec.phase.Done? && s.backend.inbox == [] ==> s.backend.status == s.exec.phase.outcome && s.backend.completed)
              && (s.backend.completed <==> Terminal(s.backend.status))
  {
    RowClimbsIffFrom(Start(), es);
  }

  function LateCancel(): seq<Event> {
    [Read(1, ToExecute), Read(2, ToCancel)] + ([ExecuteWrites(1), Launch(BadNumber)] + [Deliver, CancelWrites(2)])
  }

  lemma {:induction false} Prepend(s: System, e: Event, s': System, es: seq<Event>, rest: seq<Status>)
    requires Enabled(s, e) && Apply(s, e) == s' && Runs(s', es) && RowStatuses(s', es) == rest
    ensures Runs(s, [e] + es) && RowStatuses(s, [e] + es) == [s.backend.status] + rest
  {
    assert ([e] + es)[1..] == es;
  }

  const NoLegs := Legs(map[], multiset{}, 0, map[], {})

  /** Both requests have read the row as pending. */
  const BothRead := System(Execution(Ready, false, []), NoLegs, Backend(Pending, false, false, map[1 := ToExecute, 2 := ToCancel], []))

  /** The execution has refused a bad number; its message is on its way to the row. */
  const Refused := System(Execution(Done(Failed), false, [Failed]), NoLegs, Backend(DialingOperator, true, false, map[2 := ToCancel], [Failed]))

  lemma {:induction false} BothCanRead(es: seq<Event>, rest: seq<Status>)
    requires Runs(BothRead, es) && RowStatuses(BothRead, es) == rest
    ensures Runs(Start(), [Read(1, ToExecute), Read(2, ToCancel)] + es)
    ensures RowStatuses(Start(), [Read(1, ToExecute), Read(2, ToCancel)] + es) == [Pending, Pending] + rest
  {
    var s1 := System(Execution(Ready, false, []), NoLegs, Backend(Pending, false, false, map[1 := ToExecute], []));
    assert BothRead.backend.readers == s1.backend.readers[2 := ToCancel];
    Prepend(s1, Read(2, ToCancel), BothRead, es, rest);
    Prepend(Start(), Read(1, ToExecute), s1, [Read(2, ToCancel)] + es, [Pending] + rest);
    assert [Read(1, ToExecute), Read(2, ToCancel)] + es == [Read(1, ToExecute)] + ([Read(2, ToCancel)] + es);
    assert [Pending, Pending] + rest == [Pending] + ([Pending] + rest);
  }

  lemma {:induction false} ExecutionRefuses(es: seq<Event>, rest: seq<Status>)
    requires Runs(Refused, es) && RowStatuses(Refused, es) == rest
    ensures Runs(BothRead, [ExecuteWrites(1), Launch(BadNumber)] + es)
    ensures RowStatuses(BothRead, [ExecuteWrites(1), Launch(BadNumber)] + es) == [Pending, DialingOperator] + rest
  {
    var s3 := System(Execution(Launched, false, []), NoLegs, Backend(DialingOperator, true, false, map[2 := ToCancel], []));
    assert BothRead.backend.readers - {1} == map[2 := ToCancel];
    Prepend(s3, Launch(BadNumber), Refused, es, rest);
    Prepend(BothRead, ExecuteWrites(1), s3, [Launch(BadNumber)] + es, [DialingOperator] + rest);
    assert [ExecuteWrites(1), Launch(BadNumber)] + es == [ExecuteWrites(1)] + ([Launch(BadNumber)] + es);
    assert [Pending, DialingOperator] + rest == [Pending] + ([DialingOperator] + rest);
  }

  lemma {:induction false} RefusalIsOverwritten()
    ensures Runs(Refused, [Deliver, CancelWrites(2)])
    ensures RowStatuses(Refused, [Deliver, CancelWrites(2)]) == [DialingOperator, Failed, Cancelled]
  {
    var s5 := System(Execution(Done(Failed), false, [Failed]), NoLegs, Backend(Failed, true, true, map[2 := ToCancel], []));
    var s6 := WriteStep(s5, 2, Cancelled);
    assert Refused.backend.inbox[1..] == [];
    Prepend(s5, CancelWrites(2), s6, [], [Cancelled]);
    assert [CancelWrites(2)] + [] == [CancelWrites(2)];
    Prepend(Refused, Deliver, s5, [CancelWrites(2)], [Failed, Cancelled]);
    assert [Deliver] + [CancelWrites(2)] == [Deliver, CancelWrites(2)];
  }

  /** A cancel request that read the row before the execution began turns a failed callback into a cancelled one. */
  lemma {:induction false} LateCancelOverwrites()
    ensures Runs(Start(), LateCancel())
    ensures RowStatuses(Start(), LateCancel()) == [Pending, Pending] + ([Pending, DialingOperator] + [DialingOperator, Failed, Cancelled])
    ensures !Forward(Failed, Cancelled)
  {
    var last, middle := [Deliver, CancelWrites(2)], [ExecuteWrites(1), Launch(BadNumber)];
    RefusalIsOverwritten();
    ExecutionRefuses(last, [DialingOperator, Failed, Cancelled]);
    BothCanRead(middle + last, [Pending, DialingOperator] + [DialingOperator, Failed, Cancelled]);
  }
}
