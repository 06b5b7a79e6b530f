/** The waiters' map, and the execution of one callback as one sequence of awaits. */
module CallbackExecutor {
  import opened Wrappers
  import opened Callbacks

  /** The module-level map of waiters, for all callbacks. */
  class CallbackManager {
    var waiters: map<(int, Leg), int>
    var registered: nat
    ghost var settled: multiset<int>

    /** Whoever waits has not been settled, under no other key, and nobody was settled twice. */
    ghost predicate Valid()
      reads this
    {
      && (forall k :: k in waiters ==> 0 <= waiters[k] < registered && waiters[k] !in settled)
      && (forall j, k :: j in waiters && k in waiters && j != k ==> waiters[j] != waiters[k])
      && (forall w :: settled[w] <= 1)
      && (forall w :: w in settled ==> w < registered)
    }

    constructor ()
      ensures Valid() && waiters == map[] && settled == multiset{}
    {
      waiters, registered, settled := map[], 0, multiset{};
    }

    method RegisterCallbackWaiter(callbackId: int, leg: Leg) returns (waiter: int)
      requires Valid()
      modifies this
      ensures Valid() && settled == old(settled) && waiter !in settled
      ensures waiters == old(waiters)[(callbackId, leg) := waiter]
      ensures forall k :: k in old(waiters) ==> old(waiters)[k] != waiter
    {
      waiter := registered;
      registered := registered + 1;
      waiters := waiters[(callbackId, leg) := waiter];
    }

    /** Resolving and rejecting alike: the waiter is taken out before it is settled, so a second call finds nothing. */
    method SettleCallbackWaiter(callbackId: int, leg: Leg) returns (found: Option<int>)
      requires Valid()
      modifies this
      ensures Valid() && (callbackId, leg) !in waiters
      ensures found.Some? <==> (callbackId, leg) in old(waiters)
      ensures found.Some? ==> old(waiters)[(callbackId, leg)] == found.value && settled == old(settled) + multiset{found.value}
      ensures found.None? ==> settled == old(settled)
      ensures waiters == old(waiters) - {(callbackId, leg)}
    {
      var key := (callbackId, leg);
      if key !in waiters { return None; }
      found := Some(waiters[key]);
      settled := settled + multiset{waiters[key]};
      waiters := waiters - {key};
    }
  }

  /** What the outside does to one execution; `None` is a leg that does not answer in time. */
  datatype Outside = Outside(
    check: Check,
    operatorOriginated: bool,
    operator: Option<Channel>,
    audioStarts: bool,
    customerOriginated: bool,
    customer: Option<Channel>,
    bridgeBuilt: bool,
    operatorEndsFirst: bool)

  class Executor {
    var published: seq<Status>
    var holdAudio: bool
    var hungUp: seq<Channel>
    var ended: seq<Channel>
    ghost var system: System
    ghost var history: seq<Event>
    ghost var origin: System

    /** The history is a run of the protocol, and the object shows its execution. */
    ghost predicate Valid()
      reads this
    {
      && Runs(origin, history) && system == After(origin, history)
      && system.exec.published == published && system.exec.holdAudio == holdAudio
    }

    constructor (system: System)
      ensures Valid() && this.system == system && history == [] && hungUp == [] && ended == []
    {
      published, holdAudio, hungUp, ended := system.exec.published, system.exec.holdAudio, [], [];
      this.system, origin, history := system, system, [];
    }

    ghost method Record(e: Event)
      requires Runs(origin, history) && system == After(origin, history) && Enabled(system, e)
      modifies this`system, this`history
      ensures system == Apply(old(system), e)
      ensures Runs(origin, history) && system == After(origin, history)
    {
      RunsOn(origin, history, e);
      history := history + [e];
      system := Apply(system, e);
    }

    method PublishStatus(status: Status)
      modifies this`published
      ensures published == old(published) + [status]
    {
      published := published + [status];
    }

    /** The catch clause. */
    method Fail()
      requires Valid() && system.exec.phase == Failing
      modifies this
      ensures Valid() && system.exec.phase == Done(Failed) && system.legs == old(system.legs)
      ensures hungUp == old(hungUp) && ended == old(ended)
    {
      holdAudio := false;
      PublishStatus(Failed);
      Record(AnnounceFailure);
    }

    /** From the originate request to the operator's answer. */
    method DialOperator(o: Outside) returns (operator: Option<Channel>)
      requires Valid() && system.exec.phase == OperatorDialing && GoodLegs(system) && !holdAudio
      requires o.operator.Some? ==> o.operator.value !in system.legs.delivered && o.operator.value !in system.legs.orphans
      modifies this
      ensures Valid() && hungUp == old(hungUp) && ended == old(ended) && system.legs.orphans == old(system.legs.orphans)
      ensures operator.Some? ==> operator == o.operator && system.exec.phase == OperatorUp(operator.value) && !holdAudio
      ensures operator.None? ==> system.exec.phase == Done(Failed)
      ensures system.legs.delivered.Keys == old(system.legs.delivered.Keys) + if operator.Some? then {operator.value} else {}
      ensures operator.Some? <==> o.operatorOriginated && o.operator.Some?
    {
      Record(OperatorOriginated(o.operatorOriginated));
      if !o.operatorOriginated {
        Fail();
        return None;
      }
      if o.operator.None? {
        Record(TimerFires(Operator));
        Fail();
        return None;
      }
      operator := o.operator;
      Record(LegEnters(Operator, operator.value));
    }

    /** From the operator's answer to the customer's; a customer who does not answer costs the operator the call. */
    method DialCustomer(o: Outside, operator: Channel) returns (customer: Option<Channel>)
      requires Valid() && system.exec.phase == OperatorUp(operator)
      requires o.customer.Some? ==> o.customer.value !in system.legs.delivered && o.customer.value !in system.legs.orphans
      modifies this
      ensures Valid()
      ensures customer.Some? ==> customer == o.customer && system.exec.phase == CustomerUp(operator, customer.value)
      ensures customer.None? ==> system.exec.phase == Done(Failed)
      ensures hungUp == old(hungUp) + (if o.customerOriginated && o.customer.None? then [operator] else []) && ended == old(ended)
      ensures customer.Some? <==> o.customerOriginated && o.customer.Some?
      ensures system.legs.delivered.Keys == old(system.legs.delivered.Keys) + if customer.Some? then {customer.value} else {}
    {
      OriginateCustomer(o.audioStarts, o.customerOriginated, operator);
      if !o.customerOriginated {
        Fail();
        return None;
      }
      if o.customer.None? {
        Record(TimerFires(Customer));
        hungUp := hungUp + [operator];
        Fail();
        return None;
      }
      customer := o.customer;
      Record(LegEnters(Customer, customer.value));
    }

    method OriginateCustomer(audioStarts: bool, ok: bool, operator: Channel)
      requires Valid() && system.exec.phase == OperatorUp(operator)
      modifies this
      ensures Valid() && hungUp == old(hungUp) && ended == old(ended)
      ensures system.exec.phase == if ok then CustomerWaiting(operator) else Failing
      ensures system.legs == if ok then Register(old(system.legs), Customer) else old(system.legs)
      ensures holdAudio <==> audioStarts
    {
      holdAudio := audioStarts;
      PublishStatus(DialingCustomer);
      Record(AnnounceCustomer(audioStarts));
      Record(CustomerOriginated(ok));
    }

    /** From both answers to the end of the call; the leg that stays is hung up. */
    method BridgeLegs(o: Outside, operator: Channel, customer: Channel)
      requires Valid() && system.exec.phase == CustomerUp(operator, customer)
      modifies this
      ensures Valid() && system.exec.phase == Done(if o.bridgeBuilt then Completed else Failed) && system.legs == old(system.legs)
      ensures hungUp == old(hungUp) + if o.bridgeBuilt then [if o.operatorEndsFirst then customer else operator] else []
      ensures ended == old(ended) + if o.bridgeBuilt then [if o.operatorEndsFirst then operator else customer] else []
    {
      BuildBridge(o.bridgeBuilt, operator, customer);
      if !o.bridgeBuilt {
        Fail();
      } else {
        CloseCall(if o.operatorEndsFirst then operator else customer, if o.operatorEndsFirst then customer else operator);
      }
    }

    method BuildBridge(built: bool, operator: Channel, customer: Channel)
      requires Valid() && system.exec.phase == CustomerUp(operator, customer)
      modifies this
      ensures Valid() && hungUp == old(hungUp) && ended == old(ended) && system.legs == old(system.legs)
      ensures system.exec.phase == if built then Talking(operator, customer) else Failing
    {
      holdAudio := false;
      PublishStatus(Bridged);
      Record(AnnounceBridge);
      Record(BridgeBuilt(built));
    }

    method CloseCall(endedLeg: Channel, surviving: Channel)
      requires Valid() && system.exec.phase.Talking? && (endedLeg == system.exec.phase.operator || endedLeg == system.exec.phase.customer)
      modifies this
      ensures Valid() && system.exec.phase == Done(Completed) && system.legs == old(system.legs)
      ensures hungUp == old(hungUp) + [surviving] && ended == old(ended) + [endedLeg]
    {
      Record(LegEnded(endedLeg));
      ended := ended + [endedLeg];
      hungUp := hungUp + [surviving];
      PublishStatus(Completed);
      Record(AnnounceCompletion);
    }

    /**
     * The whole execution is a run of the protocol that ends with one terminal status, unless
     * required fields were missing: completed exactly when both legs were dialed and answered and the
     * bridge was built. It hangs up and sees end exactly the legs listed.
     */
    method ExecuteCallback(o: Outside)
      requires Valid() && system.exec == Execution(Launched, false, []) && GoodLegs(system)
      requires o.operator.Some? ==> o.operator.value !in system.legs.delivered && o.operator.value !in system.legs.orphans
      requires o.customer.Some? ==> o.customer.value !in system.legs.delivered && o.customer.value !in system.legs.orphans
      requires o.operator.Some? ==> o.operator != o.customer
      modifies this
      ensures Valid()
      ensures o.check == MissingFields <==> system.exec.phase == Skipped
      ensures o.check != MissingFields ==> system.exec.phase == Done(if Succeeds(o) then Completed else Failed)
      ensures hungUp == old(hungUp) + HungUp(o) && ended == old(ended) + Ended(o)
      ensures system.legs.delivered.Keys == old(system.legs.delivered.Keys) + AnsweredLegs(o)
    {
      Record(Launch(o.check));
      if o.check == MissingFields { return; }
      if o.check == BadNumber {
        PublishStatus(Failed);
        return;
      }
      ConnectLegs(o);
    }

    /** The try block, once the message is accepted. */
    method ConnectLegs(o: Outside)
      requires Valid() && system.exec.phase == OperatorDialing && GoodLegs(system) && !holdAudio && o.check == Accepted
      requires o.operator.Some? ==> o.operator.value !in system.legs.delivered && o.operator.value !in system.legs.orphans
      requires o.customer.Some? ==> o.customer.value !in system.legs.delivered && o.customer.value !in system.legs.orphans
      requires o.operator.Some? ==> o.operator != o.customer
      modifies this
      ensures Valid() && system.exec.phase == Done(if Succeeds(o) then Completed else Failed)
      ensures hungUp == old(hungUp) + HungUp(o) && ended == old(ended) + Ended(o)
      ensures system.legs.delivered.Keys == old(system.legs.delivered.Keys) + AnsweredLegs(o)
    {
      var operator := DialOperator(o);
      if operator.None? { return; }
      assert operator == o.operator && OperatorAnswers(o);
      ConnectCustomer(o);
    }

    /** From the operator's answer on. */
    method ConnectCustomer(o: Outside)
      requires Valid() && OperatorAnswers(o) && system.exec.phase == OperatorUp(o.operator.value)
      requires o.customer.Some? ==> o.customer.value !in system.legs.delivered && o.customer.value !in system.legs.orphans
      modifies this
      ensures Valid() && system.exec.phase == Done(if Succeeds(o) then Completed else Failed)
      ensures hungUp == old(hungUp) + HungUp(o) && ended == old(ended) + Ended(o)
      ensures system.legs.delivered.Keys == old(system.legs.delivered.Keys) + if CustomerAnswers(o) then {o.customer.value} else {}
    {
      var customer := DialCustomer(o, o.operator.value);
      if customer.None? { return; }
      BridgeLegs(o, o.operator.value, customer.value);
    }
  }

  predicate Succeeds(o: Outside) {
    o.check == Accepted && o.operatorOriginated && o.operator.Some? && o.customerOriginated && o.customer.Some? && o.bridgeBuilt
  }

  predicate OperatorAnswers(o: Outside) { o.check == Accepted && o.operatorOriginated && o.operator.Some? }

  predicate CustomerAnswers(o: Outside) { OperatorAnswers(o) && o.customerOriginated && o.customer.Some? }

  /** The legs delivered to the execution. */
  function AnsweredLegs(o: Outside): set<Channel> {
    (if OperatorAnswers(o) then {o.operator.value} else {}) + (if CustomerAnswers(o) then {o.customer.value} else {})
  }

  /** The legs the execution hangs up. */
  function HungUp(o: Outside): seq<Channel> {
    if !OperatorAnswers(o) then []
    else if !CustomerAnswers(o) then if o.customerOriginated then [o.operator.value] else []
    else if o.bridgeBuilt then [if o.operatorEndsFirst then o.customer.value else o.operator.value]
    else []
  }

  /** The leg whose end closed the call. */
  function Ended(o: Outside): seq<Channel> {
    if CustomerAnswers(o) && o.bridgeBuilt then [if o.operatorEndsFirst then o.operator.value else o.customer.value] else []
  }

  /** The customer's originate request failed after the operator answered, or the bridge failed after both did. */
  predicate FailsAfterAnswer(o: Outside) {
    OperatorAnswers(o) && (!o.customerOriginated || (CustomerAnswers(o) && !o.bridgeBuilt))
  }

  /**
   * Every leg that was answered has ended or was hung up if and only if no failure came after an
   * answer: the catch clause hangs up nobody.
   */
  lemma LegsAreClosedIff(o: Outside)
    requires o.operator.Some? ==> o.operator != o.customer
    ensures (forall ch :: ch in AnsweredLegs(o) ==> ch in HungUp(o) || ch in Ended(o)) <==> !FailsAfterAnswer(o)
  {
    if FailsAfterAnswer(o) {
      assert o.operator.value in AnsweredLegs(o) && o.operator.value !in HungUp(o) && o.operator.value !in Ended(o);
    }
  }

  lemma {:induction false} RunsOn(s: System, es: seq<Event>, e: Event)
    requires Runs(s, es) && Enabled(After(s, es), e)
    ensures Runs(s, es + [e]) && After(s, es + [e]) == Apply(After(s, es), e)
    decreases |es|
  {
    if es == [] {
      assert (es + [e])[1..] == [];
    } else {
      RunsOn(Apply(s, es[0]), es[1..], e);
      assert (es + [e])[1..] == es[1..] + [e];
    }
  }
}
