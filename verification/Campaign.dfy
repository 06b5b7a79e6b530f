/**
 * The campaign dialer of one runtime: what happens between two awaits is one step, and steps of
 * overlapping fills, closing calls and retry timers come in any order.
 */
module CampaignDialer {
  import opened Sequences
  import opened Bags
  import Strings

  /** Channel ids are compared and never read, so numbers stand for them. */
  type Channel = int

  datatype Contact = Contact(id: int, attempts: int)

  datatype Call = Call(contact: Contact, attemptNumber: int, flowRan: bool)

  datatype Outcome = Answered | NoAnswer | Busy | Failed

  datatype Notice = Completed | Cancelled

  datatype Settings = Settings(maxConcurrent: int, maxRetries: int, loaded: seq<Contact>)

  /**
   * The runtime's own queue, flags and counters. `registered` says the executor still finds the
   * runtime; `leaving` counts the final notices after which it is to be dropped.
   */
  datatype Core = Core(
    queue: seq<Contact>,
    stopRequested: bool,
    registered: bool,
    leaving: nat,
    dialedCount: nat,
    answeredCount: nat,
    failedCount: nat)

  /**
   * The suspended `fillWindow` runs: about to test the loop condition, waiting for the originate
   * request, or past it. `afterClose` are those a completion test follows; `checking` counts such tests due.
   */
  datatype Fills = Fills(
    looping: set<int>,
    dialing: map<int, Contact>,
    settling: set<int>,
    afterClose: set<int>,
    checking: nat)

  /**
   * The active map; calls taken out of it whose outcome is not yet determined; closings past that
   * point; and retries waiting for their timer, under the channel they come from.
   */
  datatype Calls = Calls(
    active: map<Channel, Call>,
    closing: map<Channel, Call>,
    reporting: set<Channel>,
    timers: map<Channel, Contact>)

  /** What has happened: channels handed out and closed, contacts finished, dials made, notices published. */
  datatype Log = Log(
    used: set<Channel>,
    closed: multiset<Channel>,
    finished: multiset<int>,
    dials: map<int, nat>,
    notices: seq<Notice>)

  datatype Runtime = Runtime(core: Core, fills: Fills, calls: Calls, log: Log)

  datatype Event =
    | Loop(fill: int)
    | DialFailed(fill: int)
    | DialRegistered(fill: int, channel: Channel)
    | Settled(fill: int)
    | FlowRan(channel: Channel)
    | ChannelEnd(channel: Channel)
    | Resolve(channel: Channel, cause: Cause)
    | Report(channel: Channel, fill: int)
    | CompletionTest
    | TimerFires(channel: Channel, fill: int)
    | Stop
    | Leave
    | Supersede

  function Start(loaded: seq<Contact>): Runtime {
    Runtime(Core(loaded, false, true, 0, 0, 0, 0),
            Fills({0}, map[], {}, {}, 0),
            Calls(map[], map[], {}, map[]),
            Log({}, multiset{}, multiset{}, map[], []))
  }

  /** What the cause text of a channel's end says. */
  datatype Cause = SaysBusy | SaysUnanswered | SaysOther

  /** The text tests of `determineOutcome`, on the text in lower case. */
  function Classify(text: string): Cause {
    if Strings.Contains(text, "busy") then SaysBusy
    else if Strings.Contains(text, "no answer") || Strings.Contains(text, "no_answer") || Strings.Contains(text, "cancel") then SaysUnanswered
    else SaysOther
  }

  function DetermineOutcome(flowRan: bool, cause: Cause): Outcome {
    if flowRan then Answered
    else match cause
      case SaysBusy => Busy
      case SaysUnanswered => NoAnswer
      case SaysOther => Failed
  }

  predicate ShouldRetry(st: Settings, call: Call, outcome: Outcome) {
    (outcome == Busy || outcome == NoAnswer) && call.attemptNumber <= st.maxRetries
  }

  function DialsOf(log: Log, id: int): nat {
    if id in log.dials then log.dials[id] else 0
  }

  predicate NewFill(fs: Fills, fill: int) {
    fill !in fs.looping && fill !in fs.dialing && fill !in fs.settling && fill !in fs.afterClose
  }

  predicate WantsMore(st: Settings, r: Runtime) {
    !r.core.stopRequested && |r.calls.active| < st.maxConcurrent && r.core.queue != []
  }

  predicate Enabled(st: Settings, r: Runtime, e: Event) {
    match e
    case Loop(f) => f in r.fills.looping
    case DialFailed(f) => f in r.fills.dialing
    case DialRegistered(f, ch) => f in r.fills.dialing && ch !in r.log.used
    case Settled(f) => f in r.fills.settling
    case FlowRan(ch) => ch in r.calls.active || ch in r.calls.closing
    case ChannelEnd(_) => true
    case Resolve(ch, _) => ch in r.calls.closing
    case Report(ch, f) => ch in r.calls.reporting && NewFill(r.fills, f)
    case CompletionTest => r.fills.checking > 0
    case TimerFires(ch, f) => ch in r.calls.timers && NewFill(r.fills, f)
    case Stop => r.core.registered
    case Leave => r.core.leaving > 0
    case Supersede => true
  }

  /** The loop head of `fillWindow` takes the first contact. */
  function TakeStep(r: Runtime, f: int): Runtime
    requires r.core.queue != []
  {
    var c := r.core.queue[0];
    r.(core := r.core.(queue := r.core.queue[1..]),
       fills := r.fills.(looping := r.fills.looping - {f}, dialing := r.fills.dialing[f := c]),
       log := r.log.(dials := r.log.dials[c.id := DialsOf(r.log, c.id) + 1]))
  }

  /** The loop head of `fillWindow` leaves. */
  function LeaveStep(r: Runtime, f: int): Runtime {
    r.(fills := r.fills.(looping := r.fills.looping - {f}, afterClose := r.fills.afterClose - {f},
                         checking := if f in r.fills.afterClose then r.fills.checking + 1 else r.fills.checking))
  }

  function Past(fs: Fills, f: int): Fills {
    fs.(dialing := fs.dialing - {f}, settling := fs.settling + {f})
  }

  function FailStep(r: Runtime, f: int): Runtime
    requires f in r.fills.dialing
  {
    r.(core := r.core.(failedCount := r.core.failedCount + 1),
       log := r.log.(finished := r.log.finished + multiset{r.fills.dialing[f].id}),
       fills := Past(r.fills, f))
  }

  function NewCall(c: Contact): Call { Call(c, c.attempts + 1, false) }

  function RegisterStep(r: Runtime, f: int, ch: Channel): Runtime
    requires f in r.fills.dialing
  {
    r.(core := r.core.(dialedCount := r.core.dialedCount + 1),
       calls := r.calls.(active := r.calls.active[ch := NewCall(r.fills.dialing[f])]),
       log := r.log.(used := r.log.used + {ch}),
       fills := Past(r.fills, f))
  }

  function FlowRanStep(r: Runtime, ch: Channel): Runtime
    requires ch in r.calls.active || ch in r.calls.closing
  {
    if ch in r.calls.active then
      r.(calls := r.calls.(active := r.calls.active[ch := r.calls.active[ch].(flowRan := true)]))
    else
      r.(calls := r.calls.(closing := r.calls.closing[ch := r.calls.closing[ch].(flowRan := true)]))
  }

  /** The first report of a channel closes its call; any later report finds nothing. */
  function EndStep(r: Runtime, ch: Channel): Runtime {
    if r.core.registered && ch in r.calls.active then
      r.(calls := r.calls.(active := r.calls.active - {ch}, closing := r.calls.closing[ch := r.calls.active[ch]]),
         log := r.log.(closed := r.log.closed + multiset{ch}))
    else r
  }

  function Retry(call: Call): Contact { call.contact.(attempts := call.attemptNumber) }

  function RetryStep(r: Runtime, ch: Channel): Runtime
    requires ch in r.calls.closing
  {
    r.(calls := r.calls.(closing := r.calls.closing - {ch}, reporting := r.calls.reporting + {ch},
                         timers := r.calls.timers[ch := Retry(r.calls.closing[ch])]))
  }

  function FinishStep(r: Runtime, ch: Channel, answered: bool): Runtime
    requires ch in r.calls.closing
  {
    r.(calls := r.calls.(closing := r.calls.closing - {ch}, reporting := r.calls.reporting + {ch}),
       core := if answered then r.core.(answeredCount := r.core.answeredCount + 1)
               else r.core.(failedCount := r.core.failedCount + 1),
       log := r.log.(finished := r.log.finished + multiset{r.calls.closing[ch].contact.id}))
  }

  function ResolveStep(st: Settings, r: Runtime, ch: Channel, cause: Cause): Runtime
    requires ch in r.calls.closing
  {
    var call := r.calls.closing[ch];
    var outcome := DetermineOutcome(call.flowRan, cause);
    if ShouldRetry(st, call, outcome) then RetryStep(r, ch) else FinishStep(r, ch, outcome == Answered)
  }

  function ReportStep(r: Runtime, ch: Channel, f: int): Runtime {
    r.(calls := r.calls.(reporting := r.calls.reporting - {ch}),
       fills := if r.core.stopRequested then r.fills.(checking := r.fills.checking + 1)
                else r.fills.(looping := r.fills.looping + {f}, afterClose := r.fills.afterClose + {f}))
  }

  function CompletionStep(r: Runtime): Runtime
    requires r.fills.checking > 0
  {
    var rest := r.fills.(checking := r.fills.checking - 1);
    if |r.calls.active| == 0 && r.core.queue == [] then
      r.(fills := rest, core := r.core.(leaving := r.core.leaving + 1),
         log := r.log.(notices := r.log.notices + [if r.core.stopRequested then Cancelled else Completed]))
    else r.(fills := rest)
  }

  function TimerStep(r: Runtime, ch: Channel, f: int): Runtime
    requires ch in r.calls.timers
  {
    r.(calls := r.calls.(timers := r.calls.timers - {ch}),
       core := r.core.(queue := r.core.queue + [r.calls.timers[ch]]),
       fills := r.fills.(looping := r.fills.looping + {f}))
  }

  function StopStep(r: Runtime): Runtime {
    if |r.calls.active| == 0 then
      r.(core := r.core.(stopRequested := true, leaving := r.core.leaving + 1), log := r.log.(notices := r.log.notices + [Cancelled]))
    else
      r.(core := r.core.(stopRequested := true))
  }

  function Apply(st: Settings, r: Runtime, e: Event): Runtime
    requires Enabled(st, r, e)
  {
    match e
    case Loop(f) => if WantsMore(st, r) then TakeStep(r, f) else LeaveStep(r, f)
    case DialFailed(f) => FailStep(r, f)
    case DialRegistered(f, ch) => RegisterStep(r, f, ch)
    case Settled(f) => r.(fills := r.fills.(settling := r.fills.settling - {f}, looping := r.fills.looping + {f}))
    case FlowRan(ch) => FlowRanStep(r, ch)
    case ChannelEnd(ch) => EndStep(r, ch)
    case Resolve(ch, cause) => ResolveStep(st, r, ch, cause)
    case Report(ch, f) => ReportStep(r, ch, f)
    case CompletionTest => CompletionStep(r)
    case TimerFires(ch, f) => TimerStep(r, ch, f)
    case Stop => StopStep(r)
    case Leave => r.(core := r.core.(registered := false, leaving := r.core.leaving - 1))
    case Supersede => r.(core := r.core.(registered := false))
  }

  // ----- Runs

  predicate Runs(st: Settings, r: Runtime, es: seq<Event>)
    decreases |es|
  {
    es == [] || (Enabled(st, r, es[0]) && Runs(st, Apply(st, r, es[0]), es[1..]))
  }

  function After(st: Settings, r: Runtime, es: seq<Event>): Runtime
    requires Runs(st, r, es)
    decreases |es|
  {
    if es == [] then r else After(st, Apply(st, r, es[0]), es[1..])
  }

  // ----- Conservation

  function ContactId(c: Contact): int { c.id }
  function CallId(c: Call): int { c.contact.id }

  ghost function QueueBag(q: seq<Contact>): multiset<int> { multiset(Map(ContactId, q)) }

  /** In how many places the contact `id` is. */
  ghost function Places(r: Runtime, id: int): nat {
    QueueBag(r.core.queue)[id] + BagOf(r.fills.dialing, ContactId)[id] + BagOf(r.calls.active, CallId)[id]
    + BagOf(r.calls.closing, CallId)[id] + BagOf(r.calls.timers, ContactId)[id] + r.log.finished[id]
  }

  ghost predicate Conserved(st: Settings, r: Runtime) {
    && (forall id :: Places(r, id) == QueueBag(st.loaded)[id])
    && |r.log.finished| == r.core.answeredCount + r.core.failedCount
  }

  /** Every channel handed out is active or was closed, not both, and none was closed twice. */
  ghost predicate ChannelsOnce(calls: Calls, log: Log) {
    && (forall ch :: log.closed[ch] <= 1)
    && (forall ch :: ch in log.used <==> ch in calls.active || ch in log.closed)
    && (forall ch :: ch in calls.active ==> ch !in log.closed)
    && (forall ch :: ch in calls.closing || ch in calls.timers || ch in calls.reporting ==> ch in log.closed)
    && (forall ch :: ch in calls.closing ==> ch !in calls.timers && ch !in calls.reporting)
  }

  /** Each fill is at one place. */
  ghost predicate FillsApart(fs: Fills) {
    && (forall f :: f in fs.looping ==> f !in fs.dialing && f !in fs.settling)
    && (forall f :: f in fs.settling ==> f !in fs.dialing)
  }

  lemma QueueTakes(q: seq<Contact>)
    requires q != []
    ensures QueueBag(q) == QueueBag(q[1..]) + multiset{q[0].id}
  {
    MapCons(ContactId, q[0], q[1..]);
    assert q == [q[0]] + q[1..];
  }

  lemma QueueGives(q: seq<Contact>, c: Contact)
    ensures QueueBag(q + [c]) == QueueBag(q) + multiset{c.id}
  {
    assert Map(ContactId, q + [c]) == Map(ContactId, q) + [c.id];
  }

  lemma StepKeepsChannels(st: Settings, r: Runtime, e: Event)
    requires ChannelsOnce(r.calls, r.log) && Enabled(st, r, e)
    ensures ChannelsOnce(Apply(st, r, e).calls, Apply(st, r, e).log)
  {
  }

  lemma StepKeepsFills(st: Settings, r: Runtime, e: Event)
    requires FillsApart(r.fills) && Enabled(st, r, e)
    ensures FillsApart(Apply(st, r, e).fills)
  {
  }

  lemma TakeConserves(st: Settings, r: Runtime, f: int)
    requires Conserved(st, r) && r.core.queue != [] && f !in r.fills.dialing
    ensures Conserved(st, TakeStep(r, f))
  {
    forall id ensures Places(TakeStep(r, f), id) == Places(r, id) { TakeMoves(r, f, id); }
  }

  lemma TakeMoves(r: Runtime, f: int, id: int)
    requires r.core.queue != [] && f !in r.fills.dialing
    ensures Places(TakeStep(r, f), id) == Places(r, id)
  {
    QueueTakes(r.core.queue);
    BagPut(r.fills.dialing, ContactId, f, r.core.queue[0]);
  }

  lemma FailConserves(st: Settings, r: Runtime, f: int)
    requires Conserved(st, r) && f in r.fills.dialing
    ensures Conserved(st, FailStep(r, f))
  {
    forall id ensures Places(FailStep(r, f), id) == Places(r, id) { FailMoves(r, f, id); }
  }

  lemma FailMoves(r: Runtime, f: int, id: int)
    requires f in r.fills.dialing
    ensures Places(FailStep(r, f), id) == Places(r, id)
  {
    BagRemove(r.fills.dialing, ContactId, f);
  }

  lemma RegisterConserves(st: Settings, r: Runtime, f: int, ch: Channel)
    requires Conserved(st, r) && f in r.fills.dialing && ch !in r.calls.active
    ensures Conserved(st, RegisterStep(r, f, ch))
  {
    forall id ensures Places(RegisterStep(r, f, ch), id) == Places(r, id) { RegisterMoves(r, f, ch, id); }
  }

  lemma RegisterMoves(r: Runtime, f: int, ch: Channel, id: int)
    requires f in r.fills.dialing && ch !in r.calls.active
    ensures Places(RegisterStep(r, f, ch), id) == Places(r, id)
  {
    BagRemove(r.fills.dialing, ContactId, f);
    BagPut(r.calls.active, CallId, ch, NewCall(r.fills.dialing[f]));
  }

  lemma FlowRanConserves(st: Settings, r: Runtime, ch: Channel)
    requires Conserved(st, r) && (ch in r.calls.active || ch in r.calls.closing)
    ensures Conserved(st, FlowRanStep(r, ch))
  {
    forall id ensures Places(FlowRanStep(r, ch), id) == Places(r, id) { FlowRanMoves(r, ch, id); }
  }

  lemma FlowRanMoves(r: Runtime, ch: Channel, id: int)
    requires ch in r.calls.active || ch in r.calls.closing
    ensures Places(FlowRanStep(r, ch), id) == Places(r, id)
  {
    if ch in r.calls.active {
      BagUpdate(r.calls.active, CallId, ch, r.calls.active[ch].(flowRan := true));
    } else {
      BagUpdate(r.calls.closing, CallId, ch, r.calls.closing[ch].(flowRan := true));
    }
  }

  lemma EndConserves(st: Settings, r: Runtime, ch: Channel)
    requires Conserved(st, r)
    requires ch in r.calls.active ==> ch !in r.calls.closing
    ensures Conserved(st, EndStep(r, ch))
  {
    forall id ensures Places(EndStep(r, ch), id) == Places(r, id) { EndMoves(r, ch, id); }
  }

  lemma EndMoves(r: Runtime, ch: Channel, id: int)
    requires ch in r.calls.active ==> ch !in r.calls.closing
    ensures Places(EndStep(r, ch), id) == Places(r, id)
  {
    if r.core.registered && ch in r.calls.active {
      BagRemove(r.calls.active, CallId, ch);
      BagPut(r.calls.closing, CallId, ch, r.calls.active[ch]);
    }
  }

  lemma RetryConserves(st: Settings, r: Runtime, ch: Channel)
    requires Conserved(st, r) && ch in r.calls.closing && ch !in r.calls.timers
    ensures Conserved(st, RetryStep(r, ch))
  {
    forall id ensures Places(RetryStep(r, ch), id) == Places(r, id) { RetryMoves(r, ch, id); }
  }

  lemma RetryMoves(r: Runtime, ch: Channel, id: int)
    requires ch in r.calls.closing && ch !in r.calls.timers
    ensures Places(RetryStep(r, ch), id) == Places(r, id)
  {
    BagRemove(r.calls.closing, CallId, ch);
    BagPut(r.calls.timers, ContactId, ch, Retry(r.calls.closing[ch]));
  }

  lemma FinishConserves(st: Settings, r: Runtime, ch: Channel, answered: bool)
    requires Conserved(st, r) && ch in r.calls.closing
    ensures Conserved(st, FinishStep(r, ch, answered))
  {
    forall id ensures Places(FinishStep(r, ch, answered), id) == Places(r, id) { FinishMoves(r, ch, answered, id); }
  }

  lemma FinishMoves(r: Runtime, ch: Channel, answered: bool, id: int)
    requires ch in r.calls.closing
    ensures Places(FinishStep(r, ch, answered), id) == Places(r, id)
  {
    BagRemove(r.calls.closing, CallId, ch);
  }

  lemma TimerConserves(st: Settings, r: Runtime, ch: Channel, f: int)
    requires Conserved(st, r) && ch in r.calls.timers
    ensures Conserved(st, TimerStep(r, ch, f))
  {
    forall id ensures Places(TimerStep(r, ch, f), id) == Places(r, id) { TimerMoves(r, ch, f, id); }
  }

  lemma TimerMoves(r: Runtime, ch: Channel, f: int, id: int)
    requires ch in r.calls.timers
    ensures Places(TimerStep(r, ch, f), id) == Places(r, id)
  {
    BagRemove(r.calls.timers, ContactId, ch);
    QueueGives(r.core.queue, r.calls.timers[ch]);
  }

  /** Steps that leave every contact where it is. */
  lemma SamePlaces(st: Settings, r: Runtime, r': Runtime)
    requires Conserved(st, r)
    requires r'.core.queue == r.core.queue && r'.fills.dialing == r.fills.dialing && r'.calls.active == r.calls.active
    requires r'.calls.closing == r.calls.closing && r'.calls.timers == r.calls.timers && r'.log.finished == r.log.finished
    requires r'.core.answeredCount == r.core.answeredCount && r'.core.failedCount == r.core.failedCount
    ensures Conserved(st, r')
  {
    forall id ensures Places(r', id) == Places(r, id) { }
  }

  /** No step loses a contact, duplicates one, or miscounts the finished ones. */
  lemma StepConserves(st: Settings, r: Runtime, e: Event)
    requires Conserved(st, r) && ChannelsOnce(r.calls, r.log) && FillsApart(r.fills) && Enabled(st, r, e)
    ensures Conserved(st, Apply(st, r, e))
  {
    match e
    case Loop(f) => if WantsMore(st, r) { TakeConserves(st, r, f); } else { SamePlaces(st, r, LeaveStep(r, f)); }
    case DialFailed(f) => FailConserves(st, r, f);
    case DialRegistered(f, ch) => RegisterConserves(st, r, f, ch);
    case FlowRan(ch) => FlowRanConserves(st, r, ch);
    case ChannelEnd(ch) => EndConserves(st, r, ch);
    case Resolve(ch, cause) =>
      var call := r.calls.closing[ch];
      var outcome := DetermineOutcome(call.flowRan, cause);
      if ShouldRetry(st, call, outcome) { RetryConserves(st, r, ch); } else { FinishConserves(st, r, ch, outcome == Answered); }
    case TimerFires(ch, f) => TimerConserves(st, r, ch, f);
    case _ => SamePlaces(st, r, Apply(st, r, e));
  }

  /** The conservation law in numbers. */
  lemma ConservedInNumbers(st: Settings, r: Runtime)
    requires Conserved(st, r)
    ensures |st.loaded| == |r.core.queue| + |r.fills.dialing| + |r.calls.active| + |r.calls.closing| + |r.calls.timers|
                           + r.core.answeredCount + r.core.failedCount
  {
    var all := QueueBag(r.core.queue) + BagOf(r.fills.dialing, ContactId) + BagOf(r.calls.active, CallId)
               + BagOf(r.calls.closing, CallId) + BagOf(r.calls.timers, ContactId) + r.log.finished;
    forall id ensures all[id] == QueueBag(st.loaded)[id] {
      assert Places(r, id) == QueueBag(st.loaded)[id];
    }
    assert all == QueueBag(st.loaded);
    BagSize(r.fills.dialing, ContactId);
    BagSize(r.calls.active, CallId);
    BagSize(r.calls.closing, CallId);
    BagSize(r.calls.timers, ContactId);
  }

  // ----- Dials per contact

  ghost predicate DistinctContacts(cs: seq<Contact>) {
    forall i, j :: 0 <= i < j < |cs| ==> cs[i].id != cs[j].id
  }

  /** The attempts a contact was loaded with. */
  function First(cs: seq<Contact>, id: int): int {
    if cs == [] then 0 else if cs[0].id == id then cs[0].attempts else First(cs[1..], id)
  }

  function Bound(maxRetries: int, attempts: int): nat {
    if maxRetries - attempts + 1 > 1 then maxRetries - attempts + 1 else 1
  }

  /** A contact waiting to be dialed: its attempts are those it came with plus its dials so far. */
  ghost predicate WaitingOk(st: Settings, log: Log, c: Contact) {
    && DialsOf(log, c.id) == c.attempts - First(st.loaded, c.id)
    && (DialsOf(log, c.id) == 0 || c.attempts <= st.maxRetries)
  }

  ghost predicate DialingOk(st: Settings, log: Log, c: Contact) {
    && DialsOf(log, c.id) == c.attempts - First(st.loaded, c.id) + 1
    && (DialsOf(log, c.id) == 1 || c.attempts <= st.maxRetries)
  }

  ghost predicate CallOk(st: Settings, log: Log, call: Call) {
    call.attemptNumber == call.contact.attempts + 1 && DialingOk(st, log, call.contact)
  }

  ghost predicate Tally(st: Settings, r: Runtime) {
    && (forall i :: 0 <= i < |r.core.queue| ==> WaitingOk(st, r.log, r.core.queue[i]))
    && (forall f :: f in r.fills.dialing ==> DialingOk(st, r.log, r.fills.dialing[f]))
    && (forall ch :: ch in r.calls.active ==> CallOk(st, r.log, r.calls.active[ch]))
    && (forall ch :: ch in r.calls.closing ==> CallOk(st, r.log, r.calls.closing[ch]))
    && (forall ch :: ch in r.calls.timers ==> WaitingOk(st, r.log, r.calls.timers[ch]) && r.calls.timers[ch].attempts <= st.maxRetries)
    && (forall id :: DialsOf(r.log, id) <= Bound(st.maxRetries, First(st.loaded, id)))
  }

  lemma {:induction false} DistinctOnce(cs: seq<Contact>, id: int)
    requires DistinctContacts(cs)
    ensures QueueBag(cs)[id] <= 1
  {
    if cs != [] {
      QueueTakes(cs);
      DistinctOnce(cs[1..], id);
      if cs[0].id == id {
        forall k | 0 <= k < |cs[1..]| ensures Map(ContactId, cs[1..])[k] != id {
          assert cs[1..][k] == cs[k + 1] && cs[0].id != cs[k + 1].id;
          assert Map(ContactId, cs[1..])[k] == ContactId(cs[1..][k]);
        }
        assert id !in Map(ContactId, cs[1..]);
      }
    }
  }

  lemma QueuedInBag(q: seq<Contact>, i: nat)
    requires i < |q|
    ensures q[i].id in QueueBag(q)
  {
    assert Map(ContactId, q)[i] == q[i].id;
  }

  /** The contact being taken is nowhere else. */
  lemma TakenIsAlone(st: Settings, r: Runtime)
    requires Conserved(st, r) && DistinctContacts(st.loaded) && r.core.queue != []
    ensures var id := r.core.queue[0].id;
            && (forall i :: 1 <= i < |r.core.queue| ==> r.core.queue[i].id != id)
            && (forall f :: f in r.fills.dialing ==> r.fills.dialing[f].id != id)
            && (forall ch :: ch in r.calls.active ==> r.calls.active[ch].contact.id != id)
            && (forall ch :: ch in r.calls.closing ==> r.calls.closing[ch].contact.id != id)
            && (forall ch :: ch in r.calls.timers ==> r.calls.timers[ch].id != id)
  {
    var id := r.core.queue[0].id;
    DistinctOnce(st.loaded, id);
    QueueTakes(r.core.queue);
    assert Places(r, id) <= 1;
    forall i | 1 <= i < |r.core.queue| ensures r.core.queue[i].id != id { QueuedInBag(r.core.queue[1..], i - 1); }
    forall f | f in r.fills.dialing ensures r.fills.dialing[f].id != id { BagHas(r.fills.dialing, ContactId, f); }
    forall ch | ch in r.calls.active ensures r.calls.active[ch].contact.id != id { BagHas(r.calls.active, CallId, ch); }
    forall ch | ch in r.calls.closing ensures r.calls.closing[ch].contact.id != id { BagHas(r.calls.closing, CallId, ch); }
    forall ch | ch in r.calls.timers ensures r.calls.timers[ch].id != id { BagHas(r.calls.timers, ContactId, ch); }
  }

  lemma TakeKeepsTally(st: Settings, r: Runtime, f: int)
    requires Tally(st, r) && Conserved(st, r) && DistinctContacts(st.loaded) && r.core.queue != [] && f !in r.fills.dialing
    ensures Tally(st, TakeStep(r, f))
  {
    TakenIsAlone(st, r);
    var c, r' := r.core.queue[0], TakeStep(r, f);
    assert WaitingOk(st, r.log, c);
    assert forall id :: DialsOf(r'.log, id) == DialsOf(r.log, id) + if id == c.id then 1 else 0;
  }

  lemma RegisterKeepsTally(st: Settings, r: Runtime, f: int, ch: Channel)
    requires Tally(st, r) && f in r.fills.dialing
    ensures Tally(st, RegisterStep(r, f, ch))
  {
    assert DialingOk(st, r.log, r.fills.dialing[f]);
    SameDials(st, r, RegisterStep(r, f, ch));
  }

  /** The records of dials are the same, so each item is as well accounted for as before. */
  lemma SameDials(st: Settings, r: Runtime, r': Runtime)
    requires r'.log.dials == r.log.dials
    ensures forall c :: WaitingOk(st, r.log, c) ==> WaitingOk(st, r'.log, c)
    ensures forall c :: DialingOk(st, r.log, c) ==> DialingOk(st, r'.log, c)
    ensures forall c :: CallOk(st, r.log, c) ==> CallOk(st, r'.log, c)
    ensures forall id :: DialsOf(r'.log, id) == DialsOf(r.log, id)
  {
  }

  lemma FlowRanKeepsTally(st: Settings, r: Runtime, ch: Channel)
    requires Tally(st, r) && (ch in r.calls.active || ch in r.calls.closing)
    ensures Tally(st, FlowRanStep(r, ch))
  {
    SameDials(st, r, FlowRanStep(r, ch));
  }

  lemma EndKeepsTally(st: Settings, r: Runtime, ch: Channel)
    requires Tally(st, r)
    ensures Tally(st, EndStep(r, ch))
  {
    SameDials(st, r, EndStep(r, ch));
  }

  lemma ResolveKeepsTally(st: Settings, r: Runtime, ch: Channel, cause: Cause)
    requires Tally(st, r) && ch in r.calls.closing
    ensures Tally(st, ResolveStep(st, r, ch, cause))
  {
    assert CallOk(st, r.log, r.calls.closing[ch]);
    SameDials(st, r, ResolveStep(st, r, ch, cause));
  }

  lemma TimerKeepsTally(st: Settings, r: Runtime, ch: Channel, f: int)
    requires Tally(st, r) && ch in r.calls.timers
    ensures Tally(st, TimerStep(r, ch, f))
  {
    assert WaitingOk(st, r.log, r.calls.timers[ch]);
    SameDials(st, r, TimerStep(r, ch, f));
  }

  lemma FailKeepsTally(st: Settings, r: Runtime, f: int)
    requires Tally(st, r) && f in r.fills.dialing
    ensures Tally(st, FailStep(r, f))
  {
    SameDials(st, r, FailStep(r, f));
  }

  /** Steps that move no contact and dial none. */
  predicate Idle(r: Runtime, r': Runtime) {
    && r'.log.dials == r.log.dials && r'.core.queue == r.core.queue && r'.fills.dialing == r.fills.dialing
    && r'.calls.active == r.calls.active && r'.calls.closing == r.calls.closing && r'.calls.timers == r.calls.timers
  }

  lemma IdleKeepsTally(st: Settings, r: Runtime, r': Runtime)
    requires Tally(st, r) && Idle(r, r')
    ensures Tally(st, r')
  {
    SameDials(st, r, r');
  }

  predicate IsIdle(st: Settings, r: Runtime, e: Event) {
    (e.Loop? && !WantsMore(st, r)) || e.Settled? || e.Report? || e.CompletionTest? || e.Stop? || e.Leave? || e.Supersede?
  }

  lemma IdleEventsAreIdle(st: Settings, r: Runtime, e: Event)
    requires Enabled(st, r, e) && IsIdle(st, r, e)
    ensures Idle(r, Apply(st, r, e))
  {
  }

  lemma StepKeepsTally(st: Settings, r: Runtime, e: Event)
    requires Tally(st, r) && Conserved(st, r) && FillsApart(r.fills) && DistinctContacts(st.loaded) && Enabled(st, r, e)
    ensures Tally(st, Apply(st, r, e))
  {
    if IsIdle(st, r, e) {
      IdleEventsAreIdle(st, r, e);
      IdleKeepsTally(st, r, Apply(st, r, e));
    } else {
      MovingKeepsTally(st, r, e);
    }
  }

  lemma MovingKeepsTally(st: Settings, r: Runtime, e: Event)
    requires Tally(st, r) && Conserved(st, r) && FillsApart(r.fills) && DistinctContacts(st.loaded)
    requires Enabled(st, r, e) && !IsIdle(st, r, e)
    ensures Tally(st, Apply(st, r, e))
  {
    match e
    case Loop(f) => TakeKeepsTally(st, r, f);
    case DialFailed(f) => FailKeepsTally(st, r, f);
    case DialRegistered(f, ch) => RegisterKeepsTally(st, r, f, ch);
    case FlowRan(ch) => FlowRanKeepsTally(st, r, ch);
    case ChannelEnd(ch) => EndKeepsTally(st, r, ch);
    case Resolve(ch, cause) => ResolveKeepsTally(st, r, ch, cause);
    case TimerFires(ch, f) => TimerKeepsTally(st, r, ch, f);
  }

  // ----- A budget of dials

  /** The dials still possible: what the bound of each loaded contact leaves. */
  ghost function Budget(maxRetries: int, cs: seq<Contact>, log: Log): int {
    if cs == [] then 0
    else Bound(maxRetries, cs[0].attempts) - DialsOf(log, cs[0].id) + Budget(maxRetries, cs[1..], log)
  }

  lemma {:induction false} BudgetSpends(maxRetries: int, cs: seq<Contact>, log: Log, id: int)
    requires DistinctContacts(cs)
    ensures Budget(maxRetries, cs, log.(dials := log.dials[id := DialsOf(log, id) + 1]))
         == Budget(maxRetries, cs, log) - QueueBag(cs)[id]
  {
    if cs == [] {
      assert Map(ContactId, cs) == [];
    } else {
      BudgetSpends(maxRetries, cs[1..], log, id);
      QueueTakes(cs);
    }
  }

  lemma {:induction false} BudgetIsSame(maxRetries: int, cs: seq<Contact>, log: Log, log': Log)
    requires log'.dials == log.dials
    ensures Budget(maxRetries, cs, log') == Budget(maxRetries, cs, log)
  {
    if cs != [] { BudgetIsSame(maxRetries, cs[1..], log, log'); }
  }

  lemma {:induction false} FirstIsOwn(cs: seq<Contact>, i: nat)
    requires DistinctContacts(cs) && i < |cs|
    ensures First(cs, cs[i].id) == cs[i].attempts
  {
    if i > 0 { FirstIsOwn(cs[1..], i - 1); }
  }

  lemma {:induction false} BudgetNeverNegative(st: Settings, log: Log, k: nat)
    requires k <= |st.loaded| && DistinctContacts(st.loaded)
    requires forall id :: DialsOf(log, id) <= Bound(st.maxRetries, First(st.loaded, id))
    ensures Budget(st.maxRetries, st.loaded[k..], log) >= 0
    decreases |st.loaded| - k
  {
    if k < |st.loaded| {
      BudgetNeverNegative(st, log, k + 1);
      FirstIsOwn(st.loaded, k);
      assert st.loaded[k..][1..] == st.loaded[k + 1..];
    }
  }

  predicate Dials(st: Settings, r: Runtime, e: Event) {
    e.Loop? && WantsMore(st, r)
  }

  lemma OnlyDialsAreRecorded(st: Settings, r: Runtime, e: Event)
    requires Enabled(st, r, e) && !Dials(st, r, e)
    ensures Apply(st, r, e).log.dials == r.log.dials
  {
  }

  lemma TakeSpends(st: Settings, r: Runtime, f: int)
    requires Conserved(st, r) && DistinctContacts(st.loaded) && r.core.queue != []
    ensures Budget(st.maxRetries, st.loaded, TakeStep(r, f).log) == Budget(st.maxRetries, st.loaded, r.log) - 1
  {
    var c := r.core.queue[0];
    BudgetSpends(st.maxRetries, st.loaded, r.log, c.id);
    DistinctOnce(st.loaded, c.id);
    QueueTakes(r.core.queue);
    assert Places(r, c.id) == QueueBag(st.loaded)[c.id];
  }

  /** Every dial spends exactly one unit of the budget; no other step changes it. */
  lemma StepSpends(st: Settings, r: Runtime, e: Event)
    requires Conserved(st, r) && DistinctContacts(st.loaded) && Enabled(st, r, e)
    ensures Budget(st.maxRetries, st.loaded, Apply(st, r, e).log)
         == Budget(st.maxRetries, st.loaded, r.log) - if Dials(st, r, e) then 1 else 0
  {
    if Dials(st, r, e) {
      TakeSpends(st, r, e.fill);
    } else {
      OnlyDialsAreRecorded(st, r, e);
      BudgetIsSame(st.maxRetries, st.loaded, r.log, Apply(st, r, e).log);
    }
  }

  // ----- The window

  function FillCount(fs: Fills): nat { |fs.looping| + |fs.dialing| + |fs.settling| }

  ghost predicate Window(st: Settings, r: Runtime, k: int) {
    Taken(r) == 0 || Taken(r) <= st.maxConcurrent + k - 1
  }

  lemma MapPutSize<K, V>(m: map<K, V>, k: K, v: V)
    ensures |m[k := v]| == if k in m then |m| else |m| + 1
  {
    assert m[k := v].Keys == m.Keys + {k};
  }

  lemma MapRemoveSize<K, V>(m: map<K, V>, k: K)
    requires k in m
    ensures |m - {k}| == |m| - 1
  {
    assert m.Keys == (m - {k}).Keys + {k};
  }

  lemma SomeFill(fs: Fills, f: int)
    requires f in fs.looping
    ensures |fs.looping| >= 1
  {
    assert fs.looping == (fs.looping - {f}) + {f};
  }

  function Taken(r: Runtime): nat { |r.calls.active| + |r.fills.dialing| }

  /** Only the loop head can take up more of the window. */
  lemma {:induction false} TakenNeverGrowsElsewhere(st: Settings, r: Runtime, e: Event)
    requires Enabled(st, r, e) && !Dials(st, r, e)
    ensures Taken(Apply(st, r, e)) <= Taken(r)
  {
    match e
    case DialFailed(f) => MapRemoveSize(r.fills.dialing, f);
    case DialRegistered(f, ch) =>
      MapRemoveSize(r.fills.dialing, f);
      MapPutSize(r.calls.active, ch, NewCall(r.fills.dialing[f]));
    case FlowRan(ch) =>
      if ch in r.calls.active { MapPutSize(r.calls.active, ch, r.calls.active[ch].(flowRan := true)); }
    case ChannelEnd(ch) =>
      if ch in r.calls.active { MapRemoveSize(r.calls.active, ch); }
    case _ =>
  }

  /** While at most `k` fills overlap, active calls and dials in flight stay within the window plus `k - 1`. */
  lemma StepKeepsWindow(st: Settings, r: Runtime, e: Event, k: int)
    requires Window(st, r, k) && FillCount(r.fills) <= k && Enabled(st, r, e)
    ensures Window(st, Apply(st, r, e), k)
  {
    if Dials(st, r, e) {
      SomeFill(r.fills, e.fill);
      MapPutSize(r.fills.dialing, e.fill, r.core.queue[0]);
    } else {
      TakenNeverGrowsElsewhere(st, r, e);
    }
  }

  // ----- Every run

  ghost predicate Good(st: Settings, r: Runtime) {
    Conserved(st, r) && ChannelsOnce(r.calls, r.log) && FillsApart(r.fills) && Tally(st, r)
  }

  lemma StartIsGood(st: Settings)
    requires DistinctContacts(st.loaded)
    ensures Good(st, Start(st.loaded))
  {
    var r := Start(st.loaded);
    forall i | 0 <= i < |st.loaded| ensures WaitingOk(st, r.log, st.loaded[i]) { FirstIsOwn(st.loaded, i); }
  }

  lemma StepKeepsGood(st: Settings, r: Runtime, e: Event)
    requires Good(st, r) && DistinctContacts(st.loaded) && Enabled(st, r, e)
    ensures Good(st, Apply(st, r, e))
  {
    StepConserves(st, r, e);
    StepKeepsChannels(st, r, e);
    StepKeepsFills(st, r, e);
    StepKeepsTally(st, r, e);
  }

  function CountDials(st: Settings, r: Runtime, es: seq<Event>): nat
    requires Runs(st, r, es)
    decreases |es|
  {
    if es == [] then 0 else (if Dials(st, r, es[0]) then 1 else 0) + CountDials(st, Apply(st, r, es[0]), es[1..])
  }

  lemma {:induction false} RunKeepsGood(st: Settings, r: Runtime, es: seq<Event>)
    requires Good(st, r) && DistinctContacts(st.loaded) && Runs(st, r, es)
    ensures Good(st, After(st, r, es))
    ensures CountDials(st, r, es) + Budget(st.maxRetries, st.loaded, After(st, r, es).log) == Budget(st.maxRetries, st.loaded, r.log)
    decreases |es|
  {
    if es != [] {
      StepKeepsGood(st, r, es[0]);
      StepSpends(st, r, es[0]);
      RunKeepsGood(st, Apply(st, r, es[0]), es[1..]);
    }
  }

  /**
   * In every run, whatever the interleaving: no contact is lost or counted twice, every channel is
   * closed at most once, no contact is dialed beyond its bound, and the dials of the whole run stay
   * within the sum of the bounds.
   */
  lemma EveryRun(st: Settings, es: seq<Event>)
    requires DistinctContacts(st.loaded) && Runs(st, Start(st.loaded), es)
    ensures var r := After(st, Start(st.loaded), es);
            && |st.loaded| == |r.core.queue| + |r.fills.dialing| + |r.calls.active| + |r.calls.closing| + |r.calls.timers|
                              + r.core.answeredCount + r.core.failedCount
            && (forall id :: Places(r, id) == QueueBag(st.loaded)[id])
            && (forall ch :: r.log.closed[ch] <= 1)
            && (forall ch :: ch in r.log.used <==> ch in r.calls.active || ch in r.log.closed)
            && (forall id :: DialsOf(r.log, id) <= Bound(st.maxRetries, First(st.loaded, id)))
    ensures CountDials(st, Start(st.loaded), es) <= Budget(st.maxRetries, st.loaded, Start(st.loaded).log)
  {
    StartIsGood(st);
    RunKeepsGood(st, Start(st.loaded), es);
    var r := After(st, Start(st.loaded), es);
    ConservedInNumbers(st, r);
    BudgetNeverNegative(st, r.log, 0);
    assert st.loaded[0..] == st.loaded;
  }

  predicate FillsAtMost(st: Settings, r: Runtime, es: seq<Event>, k: int)
    requires Runs(st, r, es)
    decreases |es|
  {
    FillCount(r.fills) <= k && (es == [] || FillsAtMost(st, Apply(st, r, es[0]), es[1..], k))
  }

  lemma {:induction false} WindowFrom(st: Settings, r: Runtime, es: seq<Event>, k: int)
    requires Window(st, r, k) && Runs(st, r, es) && FillsAtMost(st, r, es, k)
    ensures Window(st, After(st, r, es), k)
    decreases |es|
  {
    if es != [] {
      StepKeepsWindow(st, r, es[0], k);
      WindowFrom(st, Apply(st, r, es[0]), es[1..], k);
    }
  }

  /** In every run with at most `k` overlapping fills the window is exceeded by at most `k - 1`. */
  lemma WindowInEveryRun(st: Settings, es: seq<Event>, k: int)
    requires Runs(st, Start(st.loaded), es) && FillsAtMost(st, Start(st.loaded), es, k)
    ensures var r := After(st, Start(st.loaded), es);
            Taken(r) == 0 || Taken(r) <= st.maxConcurrent + k - 1
  {
    WindowFrom(st, Start(st.loaded), es, k);
  }

  // ----- No contact is stranded

  /** While contacts wait, the window is full or something suspended will look at the queue again. */
  ghost predicate Watched(st: Settings, r: Runtime) {
    || r.core.queue == [] || r.core.stopRequested || |r.calls.active| >= st.maxConcurrent
    || (exists f :: f in r.fills.looping || f in r.fills.dialing || f in r.fills.settling)
    || (exists ch :: ch in r.calls.closing || ch in r.calls.reporting)
  }

  lemma StepKeepsWatched(st: Settings, r: Runtime, e: Event)
    requires Watched(st, r) && Enabled(st, r, e)
    ensures Watched(st, Apply(st, r, e))
  {
    var r' := Apply(st, r, e);
    match e
    case Loop(f) => if WantsMore(st, r) { assert f in r'.fills.dialing; }
    case DialFailed(f) => assert f in r'.fills.settling;
    case DialRegistered(f, _) => assert f in r'.fills.settling;
    case Settled(f) => assert f in r'.fills.looping;
    case FlowRan(ch) => if ch in r.calls.active { MapPutSize(r.calls.active, ch, r.calls.active[ch].(flowRan := true)); }
                        else { assert ch in r'.calls.closing; }
    case ChannelEnd(ch) => if r.core.registered && ch in r.calls.active { assert ch in r'.calls.closing; }
    case Resolve(ch, _) => assert ch in r'.calls.reporting;
    case Report(_, f) => if !r.core.stopRequested { assert f in r'.fills.looping; }
    case TimerFires(_, f) => assert f in r'.fills.looping;
    case _ =>
  }

  lemma {:induction false} RunKeepsWatched(st: Settings, r: Runtime, es: seq<Event>)
    requires Watched(st, r) && Runs(st, r, es)
    ensures Watched(st, After(st, r, es))
    decreases |es|
  {
    if es != [] {
      StepKeepsWatched(st, r, es[0]);
      RunKeepsWatched(st, Apply(st, r, es[0]), es[1..]);
    }
  }

  /** Nothing is suspended and no call is up. */
  predicate AtRest(r: Runtime) {
    FillCount(r.fills) == 0 && r.calls.active == map[] && r.calls.closing == map[] && r.calls.reporting == {} && r.calls.timers == map[]
  }

  /** A campaign that comes to rest without having been stopped has finished every contact it loaded. */
  lemma RestFinishesEveryone(st: Settings, es: seq<Event>)
    requires DistinctContacts(st.loaded) && Runs(st, Start(st.loaded), es) && st.maxConcurrent > 0
    requires var r := After(st, Start(st.loaded), es); AtRest(r) && !r.core.stopRequested
    ensures var r := After(st, Start(st.loaded), es);
            && r.core.answeredCount + r.core.failedCount == |st.loaded|
            && (forall id :: r.log.finished[id] == QueueBag(st.loaded)[id])
  {
    var r := After(st, Start(st.loaded), es);
    assert 0 in Start(st.loaded).fills.looping;
    RunKeepsWatched(st, Start(st.loaded), es);
    EveryRun(st, es);
    assert r.core.queue == [];
    forall id ensures r.log.finished[id] == QueueBag(st.loaded)[id] {
      assert Places(r, id) == QueueBag(st.loaded)[id];
    }
  }

  // ----- What the final notice means

  /**
   * A completion test that publishes finds no contact queued and none in a call; everyone is
   * finished if and only if, besides, no dial is in flight, no call is being closed and no retry is due.
   */
  lemma CompletionMeans(st: Settings, es: seq<Event>)
    requires DistinctContacts(st.loaded) && Runs(st, Start(st.loaded), es)
    requires var r := After(st, Start(st.loaded), es);
             r.fills.checking > 0 && CompletionStep(r).log.notices != r.log.notices
    ensures var r := After(st, Start(st.loaded), es);
            (r.core.answeredCount + r.core.failedCount == |st.loaded|
             <==> r.fills.dialing == map[] && r.calls.closing == map[] && r.calls.timers == map[])
  {
    EveryRun(st, es);
    var r := After(st, Start(st.loaded), es);
    assert r.core.queue == [];
    assert |r.calls.active| == 0;
  }

  /** Two runs, one after the other. */
  lemma {:induction false} RunsOn(st: Settings, r: Runtime, es: seq<Event>, more: seq<Event>)
    requires Runs(st, r, es) && Runs(st, After(st, r, es), more)
    ensures Runs(st, r, es + more) && After(st, r, es + more) == After(st, After(st, r, es), more)
    decreases |es|
  {
    if es == [] {
      assert es + more == more;
    } else {
      RunsOn(st, Apply(st, r, es[0]), es[1..], more);
      assert (es + more)[1..] == es[1..] + more;
    }
  }

  lemma OneStep(st: Settings, r: Runtime, e: Event, r': Runtime)
    requires Enabled(st, r, e) && Apply(st, r, e) == r'
    ensures Runs(st, r, [e]) && After(st, r, [e]) == r'
  {
    assert Runs(st, r', [e][1..]);
  }

  lemma ThreeSteps(st: Settings, r: Runtime, a: Event, b: Event, c: Event, r1: Runtime, r2: Runtime, r3: Runtime)
    requires Enabled(st, r, a) && Apply(st, r, a) == r1
    requires Enabled(st, r1, b) && Apply(st, r1, b) == r2
    requires Enabled(st, r2, c) && Apply(st, r2, c) == r3
    ensures Runs(st, r, [a, b, c]) && After(st, r, [a, b, c]) == r3
  {
    OneStep(st, r2, c, r3);
    assert [a, b, c][1..] == [b, c] && [b, c][1..] == [c];
  }

  const Single := Settings(1, 1, [Contact(1, 0)])

  function Ringing(): Runtime {
    Runtime(Core([], false, true, 0, 1, 0, 0), Fills({0}, map[], {}, {}, 0),
            Calls(map[7 := Call(Contact(1, 0), 1, false)], map[], {}, map[]),
            Log({7}, multiset{}, multiset{}, map[1 := 1], []))
  }

  function RetryDue(): Runtime {
    Runtime(Core([], false, true, 0, 1, 0, 0), Fills({}, map[], {}, {}, 0),
            Calls(map[], map[], {7}, map[7 := Contact(1, 1)]),
            Log({7}, multiset{7}, multiset{}, map[1 := 1], []))
  }

  lemma {:induction false} SingleRings()
    ensures Runs(Single, Start(Single.loaded), [Loop(0), DialRegistered(0, 7), Settled(0)])
    ensures After(Single, Start(Single.loaded), [Loop(0), DialRegistered(0, 7), Settled(0)]) == Ringing()
  {
    SingleIsDialed();
    SingleIsRegistered();
    ThreeSteps(Single, Start(Single.loaded), Loop(0), DialRegistered(0, 7), Settled(0), Dialing(), Registered(), Ringing());
  }

  function Registered(): Runtime {
    Ringing().(fills := Fills({}, map[], {0}, {}, 0))
  }

  lemma SingleIsRegistered()
    ensures RegisterStep(Dialing(), 0, 7) == Registered()
  {
    var r := RegisterStep(Dialing(), 0, 7);
    assert r.fills == Fills({}, map[], {0}, {}, 0);
    assert r.calls.active == map[7 := Call(Contact(1, 0), 1, false)];
  }

  function Dialing(): Runtime {
    Runtime(Core([], false, true, 0, 0, 0, 0), Fills({}, map[0 := Contact(1, 0)], {}, {}, 0),
            Calls(map[], map[], {}, map[]),
            Log({}, multiset{}, multiset{}, map[1 := 1], []))
  }

  lemma SingleIsDialed()
    ensures WantsMore(Single, Start(Single.loaded)) && TakeStep(Start(Single.loaded), 0) == Dialing()
  {
    assert Single.loaded == [Contact(1, 0)];
  }

  lemma SingleIsBusy()
    ensures Runs(Single, Ringing(), [Loop(0), ChannelEnd(7), Resolve(7, SaysBusy)])
    ensures After(Single, Ringing(), [Loop(0), ChannelEnd(7), Resolve(7, SaysBusy)]) == RetryDue()
  {
    assert |Ringing().calls.active| == 1;
    var r1 := LeaveStep(Ringing(), 0);
    var r2 := EndStep(r1, 7);
    assert r2.calls.closing == map[7 := Call(Contact(1, 0), 1, false)];
    assert ShouldRetry(Single, r2.calls.closing[7], Busy);
    assert RetryStep(r2, 7).calls == RetryDue().calls;
    ThreeSteps(Single, Ringing(), Loop(0), ChannelEnd(7), Resolve(7, SaysBusy), r1, r2, RetryDue());
  }

  lemma SingleIsCompleted()
    ensures Runs(Single, RetryDue(), [Report(7, 1), Loop(1), CompletionTest])
    ensures After(Single, RetryDue(), [Report(7, 1), Loop(1), CompletionTest]) == SaidCompleted()
  {
    var r1 := ReportStep(RetryDue(), 7, 1);
    var r2 := LeaveStep(r1, 1);
    assert r2.fills == Fills({}, map[], {}, {}, 1);
    ThreeSteps(Single, RetryDue(), Report(7, 1), Loop(1), CompletionTest, r1, r2, SaidCompleted());
  }

  function SaidCompleted(): Runtime {
    Runtime(Core([], false, true, 1, 1, 0, 0), Fills({}, map[], {}, {}, 0),
            Calls(map[], map[], {}, map[7 := Contact(1, 1)]),
            Log({7}, multiset{7}, multiset{}, map[1 := 1], [Completed]))
  }

  function BusyOnce(): seq<Event> {
    [Loop(0), DialRegistered(0, 7), Settled(0)] + [Loop(0), ChannelEnd(7), Resolve(7, SaysBusy)] + [Report(7, 1), Loop(1), CompletionTest]
  }

  /** One contact, busy once: `campaign:completed` goes out while its retry timer is still running. */
  lemma CompletedBeforeRetry()
    ensures Runs(Single, Start(Single.loaded), BusyOnce())
    ensures After(Single, Start(Single.loaded), BusyOnce()) == SaidCompleted()
    ensures SaidCompleted().log.notices == [Completed] && SaidCompleted().calls.timers == map[7 := Contact(1, 1)]
  {
    SingleRings();
    SingleIsBusy();
    SingleIsCompleted();
    RunsOn(Single, Start(Single.loaded), [Loop(0), DialRegistered(0, 7), Settled(0)], [Loop(0), ChannelEnd(7), Resolve(7, SaysBusy)]);
    RunsOn(Single, Start(Single.loaded), [Loop(0), DialRegistered(0, 7), Settled(0)] + [Loop(0), ChannelEnd(7), Resolve(7, SaysBusy)],
           [Report(7, 1), Loop(1), CompletionTest]);
  }

  // ----- What happens to a retry after that

  lemma StepKeepsActiveUnregistered(st: Settings, r: Runtime, e: Event)
    requires !r.core.registered && Enabled(st, r, e)
    ensures !Apply(st, r, e).core.registered
    ensures forall ch :: ch in r.calls.active ==> ch in Apply(st, r, e).calls.active
  {
  }

  /** Once the executor has dropped the runtime, no active call ever leaves it: its end is not found any more. */
  lemma {:induction false} ActiveForEver(st: Settings, r: Runtime, es: seq<Event>)
    requires !r.core.registered && Runs(st, r, es)
    ensures !After(st, r, es).core.registered
    ensures forall ch :: ch in r.calls.active ==> ch in After(st, r, es).calls.active
    ensures r.calls.active != map[] ==> !AtRest(After(st, r, es))
    decreases |es|
  {
    if es != [] {
      StepKeepsActiveUnregistered(st, r, es[0]);
      ActiveForEver(st, Apply(st, r, es[0]), es[1..]);
    }
  }

  /** An active call can still leave if and only if the executor still finds the runtime. */
  lemma {:induction false} ActiveLeavesIff(st: Settings, r: Runtime, ch: Channel)
    requires ch in r.calls.active
    ensures (exists es :: Runs(st, r, es) && ch !in After(st, r, es).calls.active) <==> r.core.registered
  {
    if r.core.registered {
      OneStep(st, r, ChannelEnd(ch), EndStep(r, ch));
    } else {
      forall es | Runs(st, r, es) ensures ch in After(st, r, es).calls.active { ActiveForEver(st, r, es); }
    }
  }

  function Redialing(): Runtime {
    Runtime(Core([], false, false, 0, 1, 0, 0), Fills({}, map[2 := Contact(1, 1)], {}, {}, 0),
            Calls(map[], map[], {}, map[]),
            Log({7}, multiset{7}, multiset{}, map[1 := 2], [Completed]))
  }

  lemma SingleIsRedialed()
    ensures Runs(Single, SaidCompleted(), [Leave, TimerFires(7, 2), Loop(2)])
    ensures After(Single, SaidCompleted(), [Leave, TimerFires(7, 2), Loop(2)]) == Redialing()
  {
    var r1 := SaidCompleted().(core := Core([], false, false, 0, 1, 0, 0));
    var r2 := TimerStep(r1, 7, 2);
    assert r2.core.queue == [Contact(1, 1)] && r2.calls == Calls(map[], map[], {}, map[]);
    assert WantsMore(Single, r2);
    assert TakeStep(r2, 2) == Redialing();
    ThreeSteps(Single, SaidCompleted(), Leave, TimerFires(7, 2), Loop(2), r1, r2, Redialing());
  }

  function StrandedRetry(): seq<Event> { BusyOnce() + [Leave, TimerFires(7, 2), Loop(2)] + [DialRegistered(2, 8)] }

  /**
   * The same contact, retried after `campaign:completed`: the retry is dialed by a runtime the executor
   * no longer finds, its call is active and stays active whatever happens next.
   */
  lemma {:induction false} RetryIsStranded(more: seq<Event>)
    ensures Runs(Single, Start(Single.loaded), StrandedRetry())
    ensures var r := After(Single, Start(Single.loaded), StrandedRetry());
            && !r.core.registered && r.log.notices == [Completed] && 8 in r.calls.active && r.calls.active[8].contact == Contact(1, 1)
            && (Runs(Single, r, more) ==> 8 in After(Single, r, more).calls.active)
  {
    CompletedBeforeRetry();
    SingleIsRedialed();
    RunsOn(Single, Start(Single.loaded), BusyOnce(), [Leave, TimerFires(7, 2), Loop(2)]);
    var r := RegisterStep(Redialing(), 2, 8);
    OneStep(Single, Redialing(), DialRegistered(2, 8), r);
    RunsOn(Single, Start(Single.loaded), BusyOnce() + [Leave, TimerFires(7, 2), Loop(2)], [DialRegistered(2, 8)]);
    if Runs(Single, r, more) { ActiveForEver(Single, r, more); }
  }

  // ----- What the counters count

  function Ran(e: Event): set<Channel> { if e.FlowRan? then {e.channel} else {} }

  /** Outcomes determined for channels whose flow ran before: after channels `ran`, in the events to come. */
  function AnsweredIn(es: seq<Event>, ran: set<Channel>): nat {
    if es == [] then 0
    else (if es[0].Resolve? && es[0].channel in ran then 1 else 0) + AnsweredIn(es[1..], ran + Ran(es[0]))
  }

  /** A retry is due: the line was busy or not answered, and the contact came with fewer attempts than allowed. */
  predicate IsRetried(st: Settings, r: Runtime, ch: Channel, cause: Cause)
    requires ch in r.calls.closing
  {
    (cause == SaysBusy || cause == SaysUnanswered) && r.calls.closing[ch].contact.attempts < st.maxRetries
  }

  /** A failed dial, or an outcome determined for a channel whose flow did not run and whose contact is not retried. */
  predicate Fails(st: Settings, r: Runtime, e: Event, ran: set<Channel>)
    requires Enabled(st, r, e)
  {
    e.DialFailed? || (e.Resolve? && e.channel !in ran && !IsRetried(st, r, e.channel, e.cause))
  }

  function FailedIn(st: Settings, r: Runtime, es: seq<Event>, ran: set<Channel>): nat
    requires Runs(st, r, es)
    decreases |es|
  {
    if es == [] then 0
    else (if Fails(st, r, es[0], ran) then 1 else 0) + FailedIn(st, Apply(st, r, es[0]), es[1..], ran + Ran(es[0]))
  }

  function RegisteredIn(es: seq<Event>): nat {
    if es == [] then 0 else (if es[0].DialRegistered? then 1 else 0) + RegisteredIn(es[1..])
  }

  /** The flags of calls say exactly which channels ran their flow. */
  ghost predicate FlagsSay(r: Runtime, ran: set<Channel>) {
    && (forall ch :: ch in r.calls.active ==> (r.calls.active[ch].flowRan <==> ch in ran))
    && (forall ch :: ch in r.calls.closing ==> (r.calls.closing[ch].flowRan <==> ch in ran))
    && ran <= r.log.used
  }

  /** The attempt number of a call is one more than its contact came with. */
  ghost predicate Attempts(r: Runtime) {
    && (forall ch :: ch in r.calls.active ==> r.calls.active[ch].attemptNumber == r.calls.active[ch].contact.attempts + 1)
    && (forall ch :: ch in r.calls.closing ==> r.calls.closing[ch].attemptNumber == r.calls.closing[ch].contact.attempts + 1)
  }

  lemma StepKeepsFlags(st: Settings, r: Runtime, e: Event, ran: set<Channel>)
    requires FlagsSay(r, ran) && ChannelsOnce(r.calls, r.log) && Enabled(st, r, e)
    ensures FlagsSay(Apply(st, r, e), ran + Ran(e))
  {
    match e
    case FlowRan(ch) => FlowRanKeepsFlags(r, ch, ran);
    case DialRegistered(f, ch) => RegisterKeepsFlags(r, f, ch, ran);
    case ChannelEnd(ch) => EndKeepsFlags(r, ch, ran);
    case Resolve(ch, cause) => assert ran + Ran(e) == ran;
    case _ =>
      OthersKeepCalls(st, r, e);
      assert ran + Ran(e) == ran;
  }

  lemma FlowRanKeepsFlags(r: Runtime, ch: Channel, ran: set<Channel>)
    requires FlagsSay(r, ran) && ChannelsOnce(r.calls, r.log) && (ch in r.calls.active || ch in r.calls.closing)
    ensures FlagsSay(FlowRanStep(r, ch), ran + {ch})
  {
  }

  lemma RegisterKeepsFlags(r: Runtime, f: int, ch: Channel, ran: set<Channel>)
    requires FlagsSay(r, ran) && ChannelsOnce(r.calls, r.log) && f in r.fills.dialing && ch !in r.log.used
    ensures FlagsSay(RegisterStep(r, f, ch), ran)
  {
  }

  lemma EndKeepsFlags(r: Runtime, ch: Channel, ran: set<Channel>)
    requires FlagsSay(r, ran)
    ensures FlagsSay(EndStep(r, ch), ran)
  {
  }

  lemma OthersKeepCalls(st: Settings, r: Runtime, e: Event)
    requires Enabled(st, r, e) && !e.FlowRan? && !e.DialRegistered? && !e.ChannelEnd? && !e.Resolve?
    ensures var r' := Apply(st, r, e); r'.calls.active == r.calls.active && r'.calls.closing == r.calls.closing && r'.log.used == r.log.used
  {
    match e
    case Loop(f) => if WantsMore(st, r) { assert Apply(st, r, e) == TakeStep(r, f); } else { assert Apply(st, r, e) == LeaveStep(r, f); }
    case DialFailed(f) => assert Apply(st, r, e) == FailStep(r, f);
    case Report(ch, f) => assert Apply(st, r, e) == ReportStep(r, ch, f);
    case TimerFires(ch, f) => assert Apply(st, r, e) == TimerStep(r, ch, f);
    case _ =>
  }

  lemma StepKeepsAttempts(st: Settings, r: Runtime, e: Event)
    requires Attempts(r) && Enabled(st, r, e)
    ensures Attempts(Apply(st, r, e))
  {
  }

  /**
   * What determining an outcome does: with the flow run the contact is answered; else, with a retry due,
   * its timer is set with one attempt more; else it has failed.
   */
  lemma OutcomeIs(st: Settings, r: Runtime, ch: Channel, cause: Cause, ran: set<Channel>)
    requires FlagsSay(r, ran) && Attempts(r) && ch in r.calls.closing
    ensures var r', contact := Apply(st, r, Resolve(ch, cause)), r.calls.closing[ch].contact;
            && r'.core.answeredCount == r.core.answeredCount + (if ch in ran then 1 else 0)
            && r'.core.failedCount == r.core.failedCount + (if ch !in ran && !IsRetried(st, r, ch, cause) then 1 else 0)
            && r'.calls.timers == (if ch !in ran && IsRetried(st, r, ch, cause) then r.calls.timers[ch := contact.(attempts := contact.attempts + 1)]
                                   else r.calls.timers)
  {
  }

  lemma StepCounts(st: Settings, r: Runtime, e: Event, ran: set<Channel>)
    requires FlagsSay(r, ran) && Attempts(r) && Enabled(st, r, e)
    ensures var r' := Apply(st, r, e);
            && r'.core.answeredCount == r.core.answeredCount + (if e.Resolve? && e.channel in ran then 1 else 0)
            && r'.core.failedCount == r.core.failedCount + (if Fails(st, r, e, ran) then 1 else 0)
            && r'.core.dialedCount == r.core.dialedCount + (if e.DialRegistered? then 1 else 0)
  {
    if e.Resolve? { OutcomeIs(st, r, e.channel, e.cause, ran); }
  }

  lemma {:induction false} CountersFrom(st: Settings, r: Runtime, es: seq<Event>, ran: set<Channel>)
    requires FlagsSay(r, ran) && Attempts(r) && ChannelsOnce(r.calls, r.log) && Runs(st, r, es)
    ensures var end := After(st, r, es);
            && end.core.answeredCount == r.core.answeredCount + AnsweredIn(es, ran)
            && end.core.failedCount == r.core.failedCount + FailedIn(st, r, es, ran)
            && end.core.dialedCount == r.core.dialedCount + RegisteredIn(es)
    decreases |es|
  {
    if es != [] {
      StepCounts(st, r, es[0], ran);
      StepKeepsFlags(st, r, es[0], ran);
      StepKeepsAttempts(st, r, es[0]);
      StepKeepsChannels(st, r, es[0]);
      CountersFrom(st, Apply(st, r, es[0]), es[1..], ran + Ran(es[0]));
    }
  }

  /**
   * In every run: the answered counter is the number of outcomes determined for channels whose flow had
   * run; the failed counter is the number of failed dials plus the outcomes determined for channels whose
   * flow had not run and whose contact was not retried; the dialed counter is the number of channels opened.
   */
  lemma CountersInEveryRun(st: Settings, es: seq<Event>)
    requires Runs(st, Start(st.loaded), es)
    ensures var core := After(st, Start(st.loaded), es).core;
            && core.answeredCount == AnsweredIn(es, {})
            && core.failedCount == FailedIn(st, Start(st.loaded), es, {})
            && core.dialedCount == RegisteredIn(es)
  {
    CountersFrom(st, Start(st.loaded), es, {});
  }

  // ----- Which notices go out

  /** Every channel that was handed out has been closed. */
  ghost predicate NobodyOnALine(log: Log) { forall ch :: ch in log.used ==> ch in log.closed }

  /** The notice a step is due to publish: at a stop with nobody on a line, at a completion test with, besides, nobody waiting. */
  ghost function Due(r: Runtime, e: Event, stopped: bool): seq<Notice> {
    if NobodyOnALine(r.log) && (e.Stop? || (e.CompletionTest? && r.core.queue == [])) then [if stopped then Cancelled else Completed] else []
  }

  ghost function NoticesIn(st: Settings, r: Runtime, es: seq<Event>, stopped: bool): seq<Notice>
    requires Runs(st, r, es)
    decreases |es|
  {
    if es == [] then []
    else Due(r, es[0], stopped || es[0].Stop?) + NoticesIn(st, Apply(st, r, es[0]), es[1..], stopped || es[0].Stop?)
  }

  lemma SomeKey<K, V>(m: map<K, V>) returns (k: K)
    requires |m| > 0
    ensures k in m
  {
    k :| k in m.Keys;
  }

  lemma NobodyIsActive(calls: Calls, log: Log)
    requires ChannelsOnce(calls, log)
    ensures NobodyOnALine(log) <==> |calls.active| == 0
  {
    if |calls.active| > 0 {
      var ch := SomeKey(calls.active);
      assert ch in log.used && ch !in log.closed;
    }
  }

  lemma StepAnnounces(st: Settings, r: Runtime, e: Event)
    requires ChannelsOnce(r.calls, r.log) && Enabled(st, r, e)
    ensures var r', stoppedNow := Apply(st, r, e), r.core.stopRequested || e.Stop?;
            && r'.core.stopRequested == stoppedNow
            && r'.log.notices == r.log.notices + Due(r, e, stoppedNow)
  {
    NobodyIsActive(r.calls, r.log);
  }

  lemma Joined(a: seq<Notice>, b: seq<Notice>, c: seq<Notice>)
    ensures (a + b) + c == a + (b + c)
  {
  }

  lemma {:induction false} NoticesFrom(st: Settings, r: Runtime, es: seq<Event>)
    requires ChannelsOnce(r.calls, r.log) && Runs(st, r, es)
    ensures After(st, r, es).log.notices == r.log.notices + NoticesIn(st, r, es, r.core.stopRequested)
    decreases |es|
  {
    if es != [] {
      StepAnnounces(st, r, es[0]);
      StepKeepsChannels(st, r, es[0]);
      var stopped := r.core.stopRequested || es[0].Stop?;
      NoticesFrom(st, Apply(st, r, es[0]), es[1..]);
      Joined(r.log.notices, Due(r, es[0], stopped), NoticesIn(st, Apply(st, r, es[0]), es[1..], stopped));
    }
  }

  /** In every run the notices are exactly those due, in order: cancelled once a stop was asked for, else completed. */
  lemma NoticesInEveryRun(st: Settings, es: seq<Event>)
    requires Runs(st, Start(st.loaded), es)
    ensures After(st, Start(st.loaded), es).log.notices == NoticesIn(st, Start(st.loaded), es, false)
  {
    NoticesFrom(st, Start(st.loaded), es);
  }

  function ReportsIn(es: seq<Event>): nat {
    if es == [] then 0 else (if es[0].Report? then 1 else 0) + ReportsIn(es[1..])
  }

  function TestsIn(es: seq<Event>): nat {
    if es == [] then 0 else (if es[0].CompletionTest? then 1 else 0) + TestsIn(es[1..])
  }

  /** Completion tests still to come: due now, or after a refill. */
  function TestsDue(fs: Fills): nat { fs.checking + |fs.afterClose| }

  lemma StepOwesTests(st: Settings, r: Runtime, e: Event)
    requires Enabled(st, r, e)
    ensures TestsDue(Apply(st, r, e).fills) + (if e.CompletionTest? then 1 else 0) == TestsDue(r.fills) + (if e.Report? then 1 else 0)
  {
    match e
    case Loop(f) => if !WantsMore(st, r) { LeavingOwes(r, f); }
    case Report(ch, f) => ReportOwes(r, ch, f);
    case _ => assert Apply(st, r, e).fills.afterClose == r.fills.afterClose;
  }

  lemma LeavingOwes(r: Runtime, f: int)
    ensures TestsDue(LeaveStep(r, f).fills) == TestsDue(r.fills)
  {
    if f in r.fills.afterClose {
      assert r.fills.afterClose == (r.fills.afterClose - {f}) + {f};
    } else {
      assert r.fills.afterClose - {f} == r.fills.afterClose;
    }
  }

  lemma ReportOwes(r: Runtime, ch: Channel, f: int)
    requires NewFill(r.fills, f)
    ensures TestsDue(ReportStep(r, ch, f).fills) == TestsDue(r.fills) + 1
  {
  }

  lemma {:induction false} TestsFrom(st: Settings, r: Runtime, es: seq<Event>)
    requires Runs(st, r, es)
    ensures TestsDue(After(st, r, es).fills) + TestsIn(es) == TestsDue(r.fills) + ReportsIn(es)
    decreases |es|
  {
    if es != [] {
      StepOwesTests(st, r, es[0]);
      TestsFrom(st, Apply(st, r, es[0]), es[1..]);
    }
  }

  /** In every run each closed call is followed by one completion test: made, due, or waiting for its refill. */
  lemma OneTestPerReport(st: Settings, es: seq<Event>)
    requires Runs(st, Start(st.loaded), es)
    ensures TestsIn(es) + TestsDue(After(st, Start(st.loaded), es).fills) == ReportsIn(es)
  {
    TestsFrom(st, Start(st.loaded), es);
  }

  // ----- The order of dials

  /** The contact a step puts at the end of the line: a retry whose timer fires. */
  function Joins(r: Runtime, e: Event): seq<Contact> {
    if e.TimerFires? && e.channel in r.calls.timers then [r.calls.timers[e.channel]] else []
  }

  /** The contact a step dials. */
  function DialedBy(st: Settings, r: Runtime, e: Event): seq<Contact> {
    if Dials(st, r, e) then [r.core.queue[0]] else []
  }

  /** The retries of a run, in the order of their timers. */
  function Line(st: Settings, r: Runtime, es: seq<Event>): seq<Contact>
    requires Runs(st, r, es)
    decreases |es|
  {
    if es == [] then [] else Joins(r, es[0]) + Line(st, Apply(st, r, es[0]), es[1..])
  }

  /** The contacts a run dials, in order. */
  function Dialed(st: Settings, r: Runtime, es: seq<Event>): seq<Contact>
    requires Runs(st, r, es)
    decreases |es|
  {
    if es == [] then [] else DialedBy(st, r, es[0]) + Dialed(st, Apply(st, r, es[0]), es[1..])
  }

  lemma StepMovesQueue(st: Settings, r: Runtime, e: Event)
    requires Enabled(st, r, e)
    ensures DialedBy(st, r, e) + Apply(st, r, e).core.queue == r.core.queue + Joins(r, e)
  {
  }

  lemma MovesAddUp<T>(first: seq<T>, later: seq<T>, waiting: seq<T>, mid: seq<T>, queue: seq<T>, joins: seq<T>, line: seq<T>)
    requires first + mid == queue + joins && later + waiting == mid + line
    ensures (first + later) + waiting == queue + (joins + line)
  {
    assert (first + later) + waiting == first + (later + waiting);
    assert first + (mid + line) == (first + mid) + line;
    assert (queue + joins) + line == queue + (joins + line);
  }

  /** In every run: who was dialed, in order, and then who still waits, is who waited at first and then the retries in the order of their timers. */
  lemma {:induction false} FirstInFirstDialed(st: Settings, r: Runtime, es: seq<Event>)
    requires Runs(st, r, es)
    ensures Dialed(st, r, es) + After(st, r, es).core.queue == r.core.queue + Line(st, r, es)
    decreases |es|
  {
    if es != [] {
      var r' := Apply(st, r, es[0]);
      StepMovesQueue(st, r, es[0]);
      FirstInFirstDialed(st, r', es[1..]);
      MovesAddUp(DialedBy(st, r, es[0]), Dialed(st, r', es[1..]), After(st, r', es[1..]).core.queue, r'.core.queue,
                 r.core.queue, Joins(r, es[0]), Line(st, r', es[1..]));
    }
  }

  // ----- Stopping

  function CompletedIn(notices: seq<Notice>): nat {
    if notices == [] then 0 else (if notices[0] == Completed then 1 else 0) + CompletedIn(notices[1..])
  }

  lemma {:induction false} NoticeCounts(notices: seq<Notice>, n: Notice)
    ensures CompletedIn(notices + [n]) == CompletedIn(notices) + if n == Completed then 1 else 0
  {
    if notices == [] {
      assert notices + [n] == [n];
    } else {
      NoticeCounts(notices[1..], n);
      assert (notices + [n])[1..] == notices[1..] + [n];
    }
  }

  /** Before a stop no notice says cancelled. */
  ghost predicate CancelledOnlyAfterStop(r: Runtime) { Cancelled in r.log.notices ==> r.core.stopRequested }

  lemma StepObeysStop(st: Settings, r: Runtime, e: Event)
    requires Enabled(st, r, e)
    ensures r.core.stopRequested ==> Apply(st, r, e).core.stopRequested && !Dials(st, r, e)
    ensures r.core.stopRequested ==> CompletedIn(Apply(st, r, e).log.notices) == CompletedIn(r.log.notices)
    ensures CancelledOnlyAfterStop(r) ==> CancelledOnlyAfterStop(Apply(st, r, e))
  {
    if r.core.stopRequested { NoticeCounts(r.log.notices, Cancelled); }
  }

  /** Once a stop was asked for, nothing is dialed and nothing is called completed any more. */
  lemma {:induction false} StopIsFinal(st: Settings, r: Runtime, es: seq<Event>)
    requires r.core.stopRequested && Runs(st, r, es)
    ensures CountDials(st, r, es) == 0 && After(st, r, es).core.stopRequested
    ensures CompletedIn(After(st, r, es).log.notices) == CompletedIn(r.log.notices)
    decreases |es|
  {
    if es != [] {
      StepObeysStop(st, r, es[0]);
      StopIsFinal(st, Apply(st, r, es[0]), es[1..]);
    }
  }

  lemma {:induction false} CancelledFrom(st: Settings, r: Runtime, es: seq<Event>)
    requires CancelledOnlyAfterStop(r) && Runs(st, r, es)
    ensures CancelledOnlyAfterStop(After(st, r, es))
    decreases |es|
  {
    if es != [] {
      StepObeysStop(st, r, es[0]);
      CancelledFrom(st, Apply(st, r, es[0]), es[1..]);
    }
  }

  /** In every run a campaign is called cancelled only if a stop was asked for. */
  lemma CancelledMeansStopped(st: Settings, es: seq<Event>)
    requires Runs(st, Start(st.loaded), es)
    ensures Cancelled in After(st, Start(st.loaded), es).log.notices ==> After(st, Start(st.loaded), es).core.stopRequested
  {
    CancelledFrom(st, Start(st.loaded), es);
  }
}
