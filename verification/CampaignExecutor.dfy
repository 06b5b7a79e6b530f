/** The dialer's runtime object: one method for what each handler does between two awaits. */
module CampaignExecutor {
  import opened CampaignDialer
  import Strings

  datatype Originate = Refused | Opened(channel: Channel)

  class CampaignRuntime {
    const settings: Settings
    var queue: seq<Contact>
    var activeByChannel: map<Channel, Call>
    var stopRequested: bool
    var registered: bool
    var leaving: nat
    var dialedCount: nat
    var answeredCount: nat
    var failedCount: nat
    var closing: map<Channel, Call>
    var reporting: set<Channel>
    var timers: map<Channel, Contact>
    var fills: Fills
    ghost var log: Log
    ghost var history: seq<Event>

    ghost function View(): Runtime
      reads this
    {
      Runtime(Core(queue, stopRequested, registered, leaving, dialedCount, answeredCount, failedCount),
              fills,
              Calls(activeByChannel, closing, reporting, timers),
              log)
    }

    /** The object is where its history leads. */
    ghost predicate Valid()
      reads this
    {
      Runs(settings, Start(settings.loaded), history) && View() == After(settings, Start(settings.loaded), history)
    }

    constructor (settings: Settings)
      ensures Valid() && this.settings == settings && history == []
    {
      this.settings := settings;
      queue, activeByChannel, stopRequested, registered, leaving := settings.loaded, map[], false, true, 0;
      dialedCount, answeredCount, failedCount := 0, 0, 0;
      closing, reporting, timers, fills := map[], {}, map[], Fills({0}, map[], {}, {}, 0);
      log, history := Log({}, multiset{}, multiset{}, map[], []), [];
    }

    /** Records the step just made. */
    ghost method Record(e: Event, was: Runtime)
      requires Runs(settings, Start(settings.loaded), history) && was == After(settings, Start(settings.loaded), history)
      requires Enabled(settings, was, e) && View() == Apply(settings, was, e)
      modifies this`history
      ensures Valid() && history == old(history) + [e]
    {
      OneStep(settings, was, e, View());
      RunsOn(settings, Start(settings.loaded), history, [e]);
      history := history + [e];
    }

    /** The loop head of `fillWindow`. */
    method LoopHead(fill: int) returns (taken: bool)
      requires Valid() && fill in fills.looping
      modifies this
      ensures Valid() && history == old(history) + [Loop(fill)]
      ensures View() == Apply(settings, old(View()), Loop(fill))
      ensures taken == old(WantsMore(settings, View()))
    {
      ghost var was := View();
      if !stopRequested && |activeByChannel| < settings.maxConcurrent && |queue| > 0 {
        var contact := queue[0];
        queue := queue[1..];
        fills := fills.(looping := fills.looping - {fill}, dialing := fills.dialing[fill := contact]);
        log := log.(dials := log.dials[contact.id := DialsOf(log, contact.id) + 1]);
        taken := true;
        assert View() == TakeStep(was, fill);
      } else {
        fills := fills.(looping := fills.looping - {fill}, afterClose := fills.afterClose - {fill},
                        checking := if fill in fills.afterClose then fills.checking + 1 else fills.checking);
        taken := false;
        assert View() == LeaveStep(was, fill);
      }
      Record(Loop(fill), was);
    }

    /** The number was invalid or the originate request failed. */
    method DialRefused(fill: int)
      requires Valid() && fill in fills.dialing
      modifies this
      ensures Valid() && View() == Apply(settings, old(View()), DialFailed(fill)) && history == old(history) + [DialFailed(fill)]
    {
      ghost var was := View();
      failedCount := failedCount + 1;
      log := log.(finished := log.finished + multiset{fills.dialing[fill].id});
      fills := fills.(dialing := fills.dialing - {fill}, settling := fills.settling + {fill});
      Record(DialFailed(fill), was);
    }

    /** The originate request was answered with a channel. */
    method DialOpened(fill: int, channel: Channel)
      requires Valid() && fill in fills.dialing && channel !in log.used
      modifies this
      ensures Valid() && View() == Apply(settings, old(View()), DialRegistered(fill, channel))
      ensures history == old(history) + [DialRegistered(fill, channel)]
    {
      ghost var was := View();
      var contact := fills.dialing[fill];
      dialedCount := dialedCount + 1;
      activeByChannel := activeByChannel[channel := NewCall(contact)];
      log := log.(used := log.used + {channel});
      fills := fills.(dialing := fills.dialing - {fill}, settling := fills.settling + {fill});
      assert fills == Past(was.fills, fill) && contact == was.fills.dialing[fill];
      assert View() == RegisterStep(was, fill, channel);
      RegisterApplies(settings, was, fill, channel);
      Record(DialRegistered(fill, channel), was);
    }

    method Settle(fill: int)
      requires Valid() && fill in fills.settling
      modifies this
      ensures Valid() && View() == Apply(settings, old(View()), Settled(fill)) && history == old(history) + [Settled(fill)]
    {
      ghost var was := View();
      fills := fills.(settling := fills.settling - {fill}, looping := fills.looping + {fill});
      Record(Settled(fill), was);
    }

    /** The answer to a dial of a fill that nothing overlaps. */
    method TakeAnswer(fill: int, answer: Originate)
      requires Valid() && fills.looping == {} && fills.dialing.Keys == {fill} && fills.settling == {}
      requires answer.Opened? ==> answer.channel !in log.used
      modifies this
      ensures Valid() && fills.looping == {} && fills.dialing == map[] && fills.settling == {fill}
      ensures stopRequested == old(stopRequested) && queue == old(queue)
      ensures dialedCount + failedCount == old(dialedCount + failedCount) + 1
      ensures activeByChannel.Keys == old(activeByChannel.Keys) + Channels(answer)
      ensures log.used == old(log.used) + Channels(answer)
    {
      match answer {
        case Refused => DialRefused(fill);
        case Opened(channel) => DialOpened(fill, channel);
      }
    }

    /** One dial of a fill that nothing overlaps, from the loop head to the next. */
    method DialNext(fill: int, answer: Originate)
      requires Valid() && Alone(fills, fill) && WantsMore(settings, View())
      requires answer.Opened? ==> answer.channel !in log.used
      modifies this
      ensures Valid() && Alone(fills, fill) && stopRequested == old(stopRequested)
      ensures queue == old(queue)[1..] && dialedCount + failedCount == old(dialedCount + failedCount) + 1
      ensures |activeByChannel| <= old(|activeByChannel|) + 1
      ensures log.used == old(log.used) + Channels(answer)
    {
      ghost var room := activeByChannel;
      StartDial(fill);
      TakeAnswer(fill, answer);
      Grows(room, activeByChannel, answer);
      Settle(fill);
    }

    method StartDial(fill: int)
      requires Valid() && Alone(fills, fill) && WantsMore(settings, View())
      modifies this
      ensures Valid() && fills.looping == {} && fills.dialing.Keys == {fill} && fills.settling == {}
      ensures stopRequested == old(stopRequested) && queue == old(queue)[1..] && activeByChannel == old(activeByChannel)
      ensures dialedCount + failedCount == old(dialedCount + failedCount) && log.used == old(log.used)
    {
      var taken := LoopHead(fill);
    }

    /**
     * A fill that nothing overlaps: it stops only when the window is full, the queue is empty or a
     * stop was asked for, has taken contacts from the front of the queue, each of which is now
     * counted as dialed or as failed, and has not let active calls pass the window.
     */
    method FillWindow(fill: int, answers: seq<Originate>) returns (n: nat)
      requires Valid() && Alone(fills, fill)
      requires |answers| >= |queue|
      requires forall i :: 0 <= i < |answers| && answers[i].Opened? ==> answers[i].channel !in log.used
      requires forall i, j :: 0 <= i < j < |answers| && answers[i].Opened? ==> answers[i] != answers[j]
      modifies this
      ensures Valid()
      ensures stopRequested || |activeByChannel| >= settings.maxConcurrent || queue == []
      ensures n <= old(|queue|) && queue == old(queue)[n..]
      ensures dialedCount + failedCount == old(dialedCount + failedCount) + n
      ensures old(|activeByChannel| <= settings.maxConcurrent) ==> |activeByChannel| <= settings.maxConcurrent
    {
      n := 0;
      while !stopRequested && |activeByChannel| < settings.maxConcurrent && |queue| > 0
        invariant Valid() && n <= old(|queue|) && queue == old(queue)[n..] && Alone(fills, fill)
        invariant dialedCount + failedCount == old(dialedCount + failedCount) + n
        invariant old(|activeByChannel| <= settings.maxConcurrent) ==> |activeByChannel| <= settings.maxConcurrent
        invariant forall i :: n <= i < |answers| && answers[i].Opened? ==> answers[i].channel !in log.used
        decreases |queue|
      {
        DialNext(fill, answers[n]);
        n := n + 1;
      }
      var _ := LoopHead(fill);
    }

    /** The answered channel is about to run its flow. */
    method MarkFlowRan(channel: Channel)
      requires Valid() && (channel in activeByChannel || channel in closing)
      modifies this
      ensures Valid() && View() == Apply(settings, old(View()), FlowRan(channel)) && history == old(history) + [FlowRan(channel)]
    {
      ghost var was := View();
      if channel in activeByChannel {
        activeByChannel := activeByChannel[channel := activeByChannel[channel].(flowRan := true)];
      } else {
        closing := closing[channel := closing[channel].(flowRan := true)];
      }
      Record(FlowRan(channel), was);
    }

    /** StasisEnd and ChannelDestroyed both come here; only the first of them finds the call. */
    method HandleChannelEnd(channel: Channel) returns (found: bool)
      requires Valid()
      modifies this
      ensures Valid() && View() == Apply(settings, old(View()), ChannelEnd(channel)) && history == old(history) + [ChannelEnd(channel)]
      ensures found == old(registered && channel in activeByChannel)
    {
      ghost var was := View();
      found := registered && channel in activeByChannel;
      if found {
        closing := closing[channel := activeByChannel[channel]];
        activeByChannel := activeByChannel - {channel};
        log := log.(closed := log.closed + multiset{channel});
      }
      Record(ChannelEnd(channel), was);
    }

    /** The outcome is determined: the contact is finished, or its retry timer is set. */
    method DecideOutcome(channel: Channel, causeText: string) returns (outcome: Outcome)
      requires Valid() && channel in closing
      modifies this
      ensures Valid() && View() == Apply(settings, old(View()), Resolve(channel, Classify(causeText)))
      ensures history == old(history) + [Resolve(channel, Classify(causeText))]
      ensures outcome == Answered <==> old(closing[channel].flowRan)
      ensures outcome == Busy <==> old(!closing[channel].flowRan) && Strings.Contains(causeText, "busy")
      ensures outcome == NoAnswer <==>
                && old(!closing[channel].flowRan) && !Strings.Contains(causeText, "busy")
                && (Strings.Contains(causeText, "no answer") || Strings.Contains(causeText, "no_answer") || Strings.Contains(causeText, "cancel"))
      ensures answeredCount == old(answeredCount) + (if outcome == Answered then 1 else 0)
      ensures var retried := (outcome == Busy || outcome == NoAnswer) && old(closing[channel].attemptNumber) <= settings.maxRetries;
              failedCount == old(failedCount) + (if outcome == Answered || retried then 0 else 1)
    {
      var cause := Classify(causeText);
      var active := closing[channel];
      outcome := DetermineOutcome(active.flowRan, cause);
      if (outcome == Busy || outcome == NoAnswer) && active.attemptNumber <= settings.maxRetries {
        SetRetryTimer(channel, cause);
      } else {
        FinishContact(channel, cause);
      }
    }

    method SetRetryTimer(channel: Channel, cause: Cause)
      requires Valid() && channel in closing && ShouldRetry(settings, closing[channel], DetermineOutcome(closing[channel].flowRan, cause))
      modifies this
      ensures answeredCount == old(answeredCount) && failedCount == old(failedCount)
      ensures Valid() && View() == Apply(settings, old(View()), Resolve(channel, cause)) && history == old(history) + [Resolve(channel, cause)]
    {
      ghost var was := View();
      var active := closing[channel];
      closing, reporting := closing - {channel}, reporting + {channel};
      timers := timers[channel := active.contact.(attempts := active.attemptNumber)];
      assert View() == RetryStep(was, channel);
      Record(Resolve(channel, cause), was);
    }

    method FinishContact(channel: Channel, cause: Cause)
      requires Valid() && channel in closing && !ShouldRetry(settings, closing[channel], DetermineOutcome(closing[channel].flowRan, cause))
      modifies this
      ensures answeredCount == old(answeredCount) + (if old(closing[channel].flowRan) then 1 else 0)
      ensures failedCount == old(failedCount) + (if old(closing[channel].flowRan) then 0 else 1)
      ensures Valid() && View() == Apply(settings, old(View()), Resolve(channel, cause)) && history == old(history) + [Resolve(channel, cause)]
    {
      ghost var was := View();
      var active := closing[channel];
      var answered := DetermineOutcome(active.flowRan, cause) == Answered;
      closing, reporting := closing - {channel}, reporting + {channel};
      if answered { answeredCount := answeredCount + 1; } else { failedCount := failedCount + 1; }
      log := log.(finished := log.finished + multiset{active.contact.id});
      assert View() == FinishStep(was, channel, answered);
      ResolveFinishes(settings, was, channel, cause);
      Record(Resolve(channel, cause), was);
    }

    /** Past the contact and stats notices: refill unless stopping. */
    method AfterReport(channel: Channel, fill: int)
      requires Valid() && channel in reporting && NewFill(fills, fill)
      modifies this
      ensures Valid() && View() == Apply(settings, old(View()), Report(channel, fill)) && history == old(history) + [Report(channel, fill)]
    {
      ghost var was := View();
      reporting := reporting - {channel};
      if stopRequested {
        fills := fills.(checking := fills.checking + 1);
      } else {
        fills := fills.(looping := fills.looping + {fill}, afterClose := fills.afterClose + {fill});
      }
      Record(Report(channel, fill), was);
    }

    /** The test at the end of closing a call. */
    method TestCompletion() returns (done: bool)
      requires Valid() && fills.checking > 0
      modifies this
      ensures Valid() && View() == Apply(settings, old(View()), CompletionTest) && history == old(history) + [CompletionTest]
      ensures done <==> log.notices != old(log.notices)
    {
      ghost var was := View();
      fills := fills.(checking := fills.checking - 1);
      done := |activeByChannel| == 0 && |queue| == 0;
      if done {
        leaving := leaving + 1;
        log := log.(notices := log.notices + [if stopRequested then Cancelled else Completed]);
      }
      Record(CompletionTest, was);
    }

    method RetryTimer(channel: Channel, fill: int)
      requires Valid() && channel in timers && NewFill(fills, fill)
      modifies this
      ensures Valid() && View() == Apply(settings, old(View()), TimerFires(channel, fill)) && history == old(history) + [TimerFires(channel, fill)]
    {
      ghost var was := View();
      queue := queue + [timers[channel]];
      timers := timers - {channel};
      fills := fills.(looping := fills.looping + {fill});
      Record(TimerFires(channel, fill), was);
    }

    method StopCampaign() returns (cancelled: bool)
      requires Valid() && registered
      modifies this
      ensures Valid() && View() == Apply(settings, old(View()), Stop) && history == old(history) + [Stop]
      ensures cancelled <==> old(|activeByChannel|) == 0
    {
      ghost var was := View();
      stopRequested := true;
      cancelled := |activeByChannel| == 0;
      if cancelled {
        leaving := leaving + 1;
        log := log.(notices := log.notices + [Cancelled]);
      }
      Record(Stop, was);
    }

    /** Dropped from the executor's table, after a final notice or because a new runtime takes its place. */
    method Drop(superseded: bool)
      requires Valid() && (superseded || leaving > 0)
      modifies this
      ensures Valid() && !registered && history == old(history) + [if superseded then Supersede else Leave]
    {
      ghost var was := View();
      registered := false;
      if !superseded { leaving := leaving - 1; }
      Record(if superseded then Supersede else Leave, was);
    }

    /** The laws of every run hold of the object as it stands. */
    lemma Laws()
      requires Valid() && DistinctContacts(settings.loaded)
      ensures |settings.loaded| == |queue| + |fills.dialing| + |activeByChannel| + |closing| + |timers| + answeredCount + failedCount
      ensures forall ch :: log.closed[ch] <= 1
      ensures forall id :: DialsOf(log, id) <= Bound(settings.maxRetries, First(settings.loaded, id))
      ensures answeredCount == AnsweredIn(history, {}) && failedCount == FailedIn(settings, Start(settings.loaded), history, {})
      ensures dialedCount == RegisteredIn(history)
    {
      EveryRun(settings, history);
      CountersInEveryRun(settings, history);
    }
  }

  lemma RegisterApplies(st: Settings, r: Runtime, fill: int, ch: Channel)
    requires fill in r.fills.dialing && ch !in r.log.used
    ensures Enabled(st, r, DialRegistered(fill, ch)) && Apply(st, r, DialRegistered(fill, ch)) == RegisterStep(r, fill, ch)
  {
  }

  lemma ResolveFinishes(st: Settings, r: Runtime, ch: Channel, cause: Cause)
    requires ch in r.calls.closing && !ShouldRetry(st, r.calls.closing[ch], DetermineOutcome(r.calls.closing[ch].flowRan, cause))
    ensures Apply(st, r, Resolve(ch, cause)) == FinishStep(r, ch, DetermineOutcome(r.calls.closing[ch].flowRan, cause) == Answered)
  {
  }

  /** The fill is at its loop head and no other is under way. */
  ghost predicate Alone(fs: Fills, f: int) {
    fs.looping == {f} && fs.dialing == map[] && fs.settling == {}
  }

  function Channels(answer: Originate): set<Channel> {
    match answer
    case Refused => {}
    case Opened(channel) => {channel}
  }

  lemma Grows(m: map<Channel, Call>, m': map<Channel, Call>, answer: Originate)
    requires m'.Keys == m.Keys + Channels(answer)
    ensures |m'| <= |m| + 1
  {
    assert |m'| == |m'.Keys| && |m| == |m.Keys|;
  }
}
