/** The firewall's sliding window of attempts per address, against the full history since the last clearing. */
module Firewall {
  import opened Wrappers
  import opened Sequences

  type Octet = x: nat | x < 1000

  /** An address as far as the tests on it look: four numbers of up to three digits, hexadecimal groups, or neither. */
  datatype Address = Dotted(a: Octet, b: Octet, c: Octet, d: Octet) | Groups(text: string) | Malformed

  // ----- Protected addresses

  function ToNumber(a: Octet, b: Octet, c: Octet, d: Octet): int {
    ((a * 256 + b) * 256 + c) * 256 + d
  }

  predicate InRange(n: int, from: int, to: int) { from <= n <= to }

  predicate IsIpv4(ip: Address) { ip.Dotted? && ip.a <= 255 && ip.b <= 255 && ip.c <= 255 && ip.d <= 255 }

  predicate IsProtected(ip: Address) {
    || ip == Dotted(127, 0, 0, 1) || ip == Groups("::1")
    || (IsIpv4(ip)
        && var n := ToNumber(ip.a, ip.b, ip.c, ip.d);
           || InRange(n, ToNumber(10, 0, 0, 0), ToNumber(10, 255, 255, 255))
           || InRange(n, ToNumber(172, 16, 0, 0), ToNumber(172, 31, 255, 255))
           || InRange(n, ToNumber(192, 168, 0, 0), ToNumber(192, 168, 255, 255))
           || InRange(n, ToNumber(10, 8, 0, 0), ToNumber(10, 8, 0, 255)))
  }

  /** The comparison of numbers is the comparison of network prefixes. */
  lemma ProtectedIffPrivate(ip: Address)
    requires IsIpv4(ip)
    ensures IsProtected(ip) <==>
              || ip == Dotted(127, 0, 0, 1)
              || ip.a == 10
              || (ip.a == 172 && 16 <= ip.b <= 31)
              || (ip.a == 192 && ip.b == 168)
  {
    var n := ToNumber(ip.a, ip.b, ip.c, ip.d);
    assert n / 0x100_0000 == ip.a && n / 0x1_0000 == ip.a * 256 + ip.b;
  }

  // ----- Events and windows

  /** An event of the log; `time` is its parsed timestamp, `clock` the time of its processing. */
  datatype LogEvent = LogEvent(ip: Address, allowedRegistration: bool, time: Option<int>, clock: int)

  datatype Config = Config(threshold: int, windowSeconds: int)

  function Cutoff(cfg: Config, e: LogEvent): int {
    (if e.time.Some? then e.time.value else e.clock) - cfg.windowSeconds * 1000
  }

  predicate Fresh(e: LogEvent, cutoff: int) { e.time.Some? && e.time.value >= cutoff }

  /** Within the window that ends with `e`. */
  function Within(cfg: Config, e: LogEvent): LogEvent -> bool { x => Fresh(x, Cutoff(cfg, e)) }

  /** No later event of the history cuts this one off. */
  predicate Stays(cfg: Config, h: seq<LogEvent>, i: nat) {
    forall j :: i < j < |h| ==> i < |h| && Fresh(h[i], Cutoff(cfg, h[j]))
  }

  function SurvivorsFrom(cfg: Config, h: seq<LogEvent>, i: nat): seq<LogEvent>
    requires i <= |h|
    decreases |h| - i
  {
    if i == |h| then [] else (if Stays(cfg, h, i) then [h[i]] else []) + SurvivorsFrom(cfg, h, i + 1)
  }

  /** The events of a history that no later one cuts off, in order. */
  function Survivors(cfg: Config, h: seq<LogEvent>): seq<LogEvent> { SurvivorsFrom(cfg, h, 0) }

  function Prune(cfg: Config, kept: seq<LogEvent>, e: LogEvent): seq<LogEvent> {
    Filter(Within(cfg, e), kept) + [e]
  }

  lemma StaysOn(cfg: Config, h: seq<LogEvent>, e: LogEvent, i: nat)
    requires i < |h|
    ensures Stays(cfg, h + [e], i) <==> Stays(cfg, h, i) && Fresh(h[i], Cutoff(cfg, e))
  {
    if Stays(cfg, h + [e], i) {
      assert (h + [e])[|h|] == e;
      forall j | i < j < |h| ensures Fresh(h[i], Cutoff(cfg, h[j])) { assert (h + [e])[j] == h[j]; }
    }
  }

  /** Pruning the kept events at every new event keeps exactly the survivors of the whole history. */
  lemma {:induction false} PruningKeepsSurvivors(cfg: Config, h: seq<LogEvent>, e: LogEvent, i: nat)
    requires i <= |h|
    ensures SurvivorsFrom(cfg, h + [e], i) == Prune(cfg, SurvivorsFrom(cfg, h, i), e)
    decreases |h| - i
  {
    if i == |h| {
      LastSurvives(cfg, h, e);
    } else {
      PruningKeepsSurvivors(cfg, h, e, i + 1);
      StaysOn(cfg, h, e, i);
      var later, later' := SurvivorsFrom(cfg, h, i + 1), SurvivorsFrom(cfg, h + [e], i + 1);
      if Stays(cfg, h, i) {
        PruneCons(cfg, h[i], later, e);
        assert SurvivorsFrom(cfg, h, i) == [h[i]] + later;
      } else {
        assert SurvivorsFrom(cfg, h, i) == later && SurvivorsFrom(cfg, h + [e], i) == later';
      }
    }
  }

  lemma {:induction false} LastSurvives(cfg: Config, h: seq<LogEvent>, e: LogEvent)
    ensures SurvivorsFrom(cfg, h + [e], |h|) == [e]
  {
    assert Stays(cfg, h + [e], |h|) && SurvivorsFrom(cfg, h + [e], |h| + 1) == [];
  }

  lemma {:induction false} PruneCons(cfg: Config, x: LogEvent, kept: seq<LogEvent>, e: LogEvent)
    ensures Prune(cfg, [x] + kept, e) == (if Fresh(x, Cutoff(cfg, e)) then [x] else []) + Prune(cfg, kept, e)
  {
    FilterAppend(Within(cfg, e), [x], kept);
    FilterOne(Within(cfg, e), x);
  }

  ghost predicate Ordered(h: seq<LogEvent>) {
    && (forall i :: 0 <= i < |h| ==> h[i].time.Some?)
    && (forall i, j :: 0 <= i < j < |h| ==> h[i].time.value <= h[j].time.value)
  }

  /** The window that ends with the last event, from index `i` on: what came before it and is not too old, and the event itself. */
  function WindowFrom(cfg: Config, h: seq<LogEvent>, i: nat): seq<LogEvent>
    requires i < |h|
  {
    var last := |h| - 1;
    Filter(Within(cfg, h[last]), h[i..last]) + [h[last]]
  }

  function Window(cfg: Config, h: seq<LogEvent>): seq<LogEvent>
    requires h != []
  {
    WindowFrom(cfg, h, 0)
  }

  /** From index `i` on, every event inside the last window is fresh at every later event. */
  predicate WindowStays(cfg: Config, h: seq<LogEvent>, i: nat)
    requires h != []
  {
    forall k :: i <= k < |h| - 1 && Fresh(h[k], Cutoff(cfg, h[|h| - 1])) ==> Stays(cfg, h, k)
  }

  lemma {:induction false} WindowUnfolds(cfg: Config, h: seq<LogEvent>, i: nat)
    requires i < |h| - 1
    ensures WindowFrom(cfg, h, i)
         == (if Fresh(h[i], Cutoff(cfg, h[|h| - 1])) then [h[i]] else []) + WindowFrom(cfg, h, i + 1)
  {
    assert h[i..|h| - 1][1..] == h[i + 1..|h| - 1];
  }

  lemma {:induction false} SurvivorsWithinWindow(cfg: Config, h: seq<LogEvent>, i: nat)
    requires i < |h|
    ensures |SurvivorsFrom(cfg, h, i)| <= |WindowFrom(cfg, h, i)|
    ensures |SurvivorsFrom(cfg, h, i)| == |WindowFrom(cfg, h, i)| <==> WindowStays(cfg, h, i)
    ensures WindowStays(cfg, h, i) ==> SurvivorsFrom(cfg, h, i) == WindowFrom(cfg, h, i)
    decreases |h| - i
  {
    if i == |h| - 1 {
      assert SurvivorsFrom(cfg, h, i + 1) == [] && Stays(cfg, h, i);
      assert h[i..i] == [];
    } else {
      SurvivorsWithinWindow(cfg, h, i + 1);
      WindowUnfolds(cfg, h, i);
      assert Stays(cfg, h, i) ==> Fresh(h[i], Cutoff(cfg, h[|h| - 1]));
      assert WindowStays(cfg, h, i) <==> WindowStays(cfg, h, i + 1) && (Fresh(h[i], Cutoff(cfg, h[|h| - 1])) ==> Stays(cfg, h, i));
    }
  }

  /**
   * On every history: the events kept are the window if and only if every event inside the last
   * window is fresh at every later event.
   */
  lemma {:induction false} SurvivorsAreWindowIff(cfg: Config, h: seq<LogEvent>)
    requires h != []
    ensures Survivors(cfg, h) == Window(cfg, h) <==> WindowStays(cfg, h, 0)
  {
    SurvivorsWithinWindow(cfg, h, 0);
  }

  /** The window is a plain filter where the last event is timed and the window has a length. */
  lemma {:induction false} WindowIsFilter(cfg: Config, h: seq<LogEvent>)
    requires h != [] && h[|h| - 1].time.Some? && cfg.windowSeconds >= 0
    ensures Window(cfg, h) == Filter(Within(cfg, h[|h| - 1]), h)
  {
    FilterSnoc(Within(cfg, h[|h| - 1]), h);
    assert h[0..|h| - 1] == h[..|h| - 1];
  }

  /** With non-decreasing timestamps the survivors are a window: the events not older than the last one allows. */
  lemma {:induction false} SurvivorsAreTheWindow(cfg: Config, h: seq<LogEvent>)
    requires h != [] && Ordered(h) && cfg.windowSeconds >= 0
    ensures Survivors(cfg, h) == Filter(Within(cfg, h[|h| - 1]), h)
  {
    SurvivorsAreWindowIff(cfg, h);
    WindowIsFilter(cfg, h);
  }

  // ----- One event

  /**
   * What the database answers while one event is processed: whether the address is whitelisted at
   * the start and when it is about to be blocked, whether it has a row, and whether enforcement works.
   */
  datatype World = World(whitelisted: bool, whitelistedAtBlock: bool, hasRow: bool, enforced: bool)

  datatype Block = Block(ip: Address, attempts: nat)

  predicate Counts(e: LogEvent, w: World) {
    e.ip != Malformed && !IsProtected(e.ip) && !e.allowedRegistration && !w.whitelisted
  }

  /** Blocks issued, and the lists kept per address. */
  datatype State = State(lists: map<Address, seq<LogEvent>>, issued: seq<Block>)

  function ListOf(s: State, ip: Address): seq<LogEvent> {
    if ip in s.lists then s.lists[ip] else []
  }

  predicate Issues(w: World) { !w.whitelistedAtBlock }

  /** Whether an address that reached the threshold starts afresh: not if the block attempt ended in an error. */
  predicate Clears(w: World) { if w.whitelistedAtBlock then w.hasRow else w.enforced }

  /** What follows an updated list: at `count` attempts, a block and a clearing. */
  function Decide(cfg: Config, s: State, ip: Address, list: seq<LogEvent>, count: nat, w: World): State {
    if count < cfg.threshold then State(s.lists[ip := list], s.issued)
    else State(s.lists[ip := if Clears(w) then [] else list], if Issues(w) then s.issued + [Block(ip, count)] else s.issued)
  }

  /** The service: the list is pruned at every event and counted. */
  function Step(cfg: Config, s: State, e: LogEvent, w: World): State {
    if !Counts(e, w) then s
    else var next := Prune(cfg, ListOf(s, e.ip), e); Decide(cfg, s, e.ip, next, |next|, w)
  }

  /** The specification: the list is the whole history since the last clearing, and its survivors are counted. */
  function FullStep(cfg: Config, s: State, e: LogEvent, w: World): State {
    if !Counts(e, w) then s
    else var all := ListOf(s, e.ip) + [e]; Decide(cfg, s, e.ip, all, |Survivors(cfg, all)|, w)
  }

  const NoAttempts := State(map[], [])

  function Run(cfg: Config, es: seq<(LogEvent, World)>): State {
    if es == [] then NoAttempts else var n := |es| - 1; Step(cfg, Run(cfg, es[..n]), es[n].0, es[n].1)
  }

  function FullRun(cfg: Config, es: seq<(LogEvent, World)>): State {
    if es == [] then NoAttempts else var n := |es| - 1; FullStep(cfg, FullRun(cfg, es[..n]), es[n].0, es[n].1)
  }

  ghost predicate Refines(cfg: Config, s: State, full: State) {
    s.issued == full.issued && forall ip :: ListOf(s, ip) == Survivors(cfg, ListOf(full, ip))
  }

  lemma {:induction false} StepRefines(cfg: Config, s: State, full: State, e: LogEvent, w: World)
    requires Refines(cfg, s, full)
    ensures Refines(cfg, Step(cfg, s, e, w), FullStep(cfg, full, e, w))
  {
    if Counts(e, w) {
      var all := ListOf(full, e.ip);
      PruningKeepsSurvivors(cfg, all, e, 0);
      var s', full' := Step(cfg, s, e, w), FullStep(cfg, full, e, w);
      assert ListOf(s', e.ip) == Survivors(cfg, ListOf(full', e.ip));
      forall ip ensures ListOf(s', ip) == Survivors(cfg, ListOf(full', ip)) {
        if ip != e.ip { assert ListOf(s', ip) == ListOf(s, ip) && ListOf(full', ip) == ListOf(full, ip); }
      }
    }
  }

  /**
   * In every run, the pruned list of every address is the survivors of its full history since the
   * last clearing, and the same blocks are issued as if the full history were counted.
   */
  lemma {:induction false} EveryRunRefines(cfg: Config, es: seq<(LogEvent, World)>)
    ensures Refines(cfg, Run(cfg, es), FullRun(cfg, es))
  {
    if es != [] {
      var n := |es| - 1;
      EveryRunRefines(cfg, es[..n]);
      StepRefines(cfg, Run(cfg, es[..n]), FullRun(cfg, es[..n]), es[n].0, es[n].1);
    }
  }

  /**
   * After any run, an event issues a block if and only if it counts, the survivors of its address's
   * full history reach the threshold, and the address is not whitelisted when about to be blocked.
   */
  lemma {:induction false} BlocksIff(cfg: Config, es: seq<(LogEvent, World)>, e: LogEvent, w: World)
    ensures var before, after := Run(cfg, es), Run(cfg, es + [(e, w)]);
            var count := |Survivors(cfg, ListOf(FullRun(cfg, es), e.ip) + [e])|;
            if Counts(e, w) && count >= cfg.threshold && !w.whitelistedAtBlock then after.issued == before.issued + [Block(e.ip, count)]
            else after.issued == before.issued
  {
    EveryRunRefines(cfg, es);
    PruningKeepsSurvivors(cfg, ListOf(FullRun(cfg, es), e.ip), e, 0);
    assert (es + [(e, w)])[..|es|] == es;
  }

  /** A timed event is within the window of another when it is at most the window's length older. */
  lemma WithinIff(cfg: Config, x: LogEvent, e: LogEvent)
    requires x.time.Some? && e.time.Some?
    ensures Within(cfg, e)(x) <==> e.time.value - x.time.value <= cfg.windowSeconds * 1000
  {
  }

  /**
   * After any run, an event that counts leaves its address's list empty if and only if the threshold is
   * reached and either the block was enforced or the address, whitelisted by then, already has a row.
   */
  lemma {:induction false} ClearsIff(cfg: Config, es: seq<(LogEvent, World)>, e: LogEvent, w: World)
    requires Counts(e, w)
    ensures var count := |Survivors(cfg, ListOf(FullRun(cfg, es), e.ip) + [e])|;
            ListOf(Run(cfg, es + [(e, w)]), e.ip) == []
            <==> count >= cfg.threshold && ((!w.whitelistedAtBlock && w.enforced) || (w.whitelistedAtBlock && w.hasRow))
  {
    EveryRunRefines(cfg, es);
    PruningKeepsSurvivors(cfg, ListOf(FullRun(cfg, es), e.ip), e, 0);
    assert (es + [(e, w)])[..|es|] == es;
  }

  /**
   * After any run, an event changes something only where its address is neither malformed nor protected,
   * it is not a registration that was allowed, and the address is not whitelisted. Then it joins its
   * address's full history unless it clears it, the list kept is that history's survivors, and the list of
   * every other address stays.
   */
  lemma {:induction false} EventIs(cfg: Config, es: seq<(LogEvent, World)>, e: LogEvent, w: World)
    ensures var before, after := Run(cfg, es), Run(cfg, es + [(e, w)]);
            var was, now := ListOf(FullRun(cfg, es), e.ip), ListOf(FullRun(cfg, es + [(e, w)]), e.ip);
            if e.ip == Malformed || IsProtected(e.ip) || e.allowedRegistration || w.whitelisted then after == before
            else
              && (now == [] || now == was + [e])
              && (now == was + [e] <==> ListOf(after, e.ip) != [])
              && ListOf(after, e.ip) == Survivors(cfg, now)
              && forall ip :: ip != e.ip ==> ListOf(after, ip) == ListOf(before, ip)
  {
    assert (es + [(e, w)])[..|es|] == es;
    if Counts(e, w) {
      ClearsIff(cfg, es, e, w);
      EveryRunRefines(cfg, es + [(e, w)]);
      HistoryGrows(cfg, FullRun(cfg, es), e, w, e.ip);
    }
  }

  /** The events of the address are timed and do not go back. */
  ghost predicate TimedFor(es: seq<(LogEvent, World)>, ip: Address) {
    && (forall i :: 0 <= i < |es| && es[i].0.ip == ip ==> es[i].0.time.Some?)
    && (forall i, j :: 0 <= i < j < |es| && es[i].0.ip == ip && es[j].0.ip == ip ==> es[i].0.time.value <= es[j].0.time.value)
  }

  ghost predicate CameFrom(h: seq<LogEvent>, es: seq<(LogEvent, World)>, ip: Address) {
    forall i :: 0 <= i < |h| ==> h[i].ip == ip && exists k :: 0 <= k < |es| && es[k].0 == h[i]
  }

  lemma {:induction false} HistoryCameFrom(cfg: Config, es: seq<(LogEvent, World)>, ip: Address)
    ensures CameFrom(ListOf(FullRun(cfg, es), ip), es, ip)
  {
    if es != [] {
      var n := |es| - 1;
      HistoryCameFrom(cfg, es[..n], ip);
      var was, now := ListOf(FullRun(cfg, es[..n]), ip), ListOf(FullRun(cfg, es), ip);
      HistoryGrows(cfg, FullRun(cfg, es[..n]), es[n].0, es[n].1, ip);
      forall i | 0 <= i < |now| ensures now[i].ip == ip && exists k :: 0 <= k < |es| && es[k].0 == now[i] {
        if i < |was| {
          var k :| 0 <= k < |es[..n]| && es[..n][k].0 == was[i];
          assert es[k].0 == now[i];
        } else {
          assert es[n].0 == now[i];
        }
      }
    }
  }

  /** The history of an address whose events do not go back is ordered. */
  lemma {:induction false} HistoryIsOrdered(cfg: Config, es: seq<(LogEvent, World)>, ip: Address)
    requires TimedFor(es, ip)
    ensures Ordered(ListOf(FullRun(cfg, es), ip))
  {
    if es != [] {
      var n := |es| - 1;
      HistoryIsOrdered(cfg, es[..n], ip);
      HistoryCameFrom(cfg, es[..n], ip);
      HistoryGrows(cfg, FullRun(cfg, es[..n]), es[n].0, es[n].1, ip);
      if es[n].0.ip == ip { NotLater(es, ip, ListOf(FullRun(cfg, es[..n]), ip)); }
    }
  }

  /** One event leaves the history of an address, adds itself to it, or clears it. */
  lemma HistoryGrows(cfg: Config, s: State, e: LogEvent, w: World, ip: Address)
    ensures var was, now := ListOf(s, ip), ListOf(FullStep(cfg, s, e, w), ip);
            now == was || now == [] || (e.ip == ip && now == was + [e])
  {
  }

  /** What came from the events before the last is not later than the last. */
  lemma NotLater(es: seq<(LogEvent, World)>, ip: Address, h: seq<LogEvent>)
    requires es != [] && es[|es| - 1].0.ip == ip && TimedFor(es, ip) && CameFrom(h, es[..|es| - 1], ip) && Ordered(h)
    ensures Ordered(h + [es[|es| - 1].0])
  {
    var n := |es| - 1;
    forall i | 0 <= i < |h| ensures h[i].time.value <= es[n].0.time.value {
      var k :| 0 <= k < |es[..n]| && es[..n][k].0 == h[i];
      assert es[k].0 == h[i];
    }
  }

  /**
   * After any run in which the events of the address are timed and do not go back: an event issues a
   * block if and only if it counts, the events of its window since the last clearing reach the
   * threshold, and the address is not whitelisted when about to be blocked.
   */
  lemma {:induction false} BlocksIffWindow(cfg: Config, es: seq<(LogEvent, World)>, e: LogEvent, w: World)
    requires TimedFor(es + [(e, w)], e.ip) && cfg.windowSeconds >= 0
    ensures var before, after := Run(cfg, es), Run(cfg, es + [(e, w)]);
            var count := |Filter(Within(cfg, e), ListOf(FullRun(cfg, es), e.ip) + [e])|;
            if Counts(e, w) && count >= cfg.threshold && !w.whitelistedAtBlock then after.issued == before.issued + [Block(e.ip, count)]
            else after.issued == before.issued
  {
    BlocksIff(cfg, es, e, w);
    var all := es + [(e, w)];
    var h := ListOf(FullRun(cfg, es), e.ip);
    assert all[..|all| - 1] == es && all[|all| - 1].0 == e;
    assert forall i :: 0 <= i < |es| ==> es[i] == all[i];
    HistoryIsOrdered(cfg, es, e.ip);
    HistoryCameFrom(cfg, es, e.ip);
    NotLater(all, e.ip, h);
    SurvivorsAreTheWindow(cfg, h + [e]);
  }

  /** No block is ever issued for a protected address. */
  lemma {:induction false} NeverBlocksProtected(cfg: Config, es: seq<(LogEvent, World)>)
    ensures forall k :: 0 <= k < |Run(cfg, es).issued| ==> !IsProtected(Run(cfg, es).issued[k].ip) && Run(cfg, es).issued[k].ip != Malformed
  {
    if es != [] {
      NeverBlocksProtected(cfg, es[..|es| - 1]);
    }
  }

  /** Timestamps that go back: an event already cut off would be inside the later, wider window. */
  lemma OutOfOrderDropsMore()
    ensures var cfg := Config(10, 1);
            var e0, e1, e2 := LogEvent(Dotted(8, 8, 8, 8), false, Some(0), 0), LogEvent(Dotted(8, 8, 8, 8), false, Some(5000), 0), LogEvent(Dotted(8, 8, 8, 8), false, Some(500), 0);
            Survivors(cfg, [e0, e1, e2]) == [e1, e2] && Fresh(e0, Cutoff(cfg, e2))
  {
    var cfg := Config(10, 1);
    var e0, e1, e2 := LogEvent(Dotted(8, 8, 8, 8), false, Some(0), 0), LogEvent(Dotted(8, 8, 8, 8), false, Some(5000), 0), LogEvent(Dotted(8, 8, 8, 8), false, Some(500), 0);
    var h := [e0, e1, e2];
    assert !Fresh(h[0], Cutoff(cfg, h[1]));
    assert !Stays(cfg, h, 0) && Stays(cfg, h, 1) && Stays(cfg, h, 2);
    assert SurvivorsFrom(cfg, h, 3) == [] && SurvivorsFrom(cfg, h, 2) == [e2] && SurvivorsFrom(cfg, h, 1) == [e1, e2];
  }

  // ----- The service

  class FirewallService {
    const config: Config
    var attempts: map<Address, seq<LogEvent>>
    var issued: seq<Block>
    ghost var history: seq<(LogEvent, World)>

    /** The service is where the events it has processed lead. */
    ghost predicate Valid()
      reads this
    {
      State(attempts, issued) == Run(config, history)
    }

    constructor (config: Config)
      ensures Valid() && this.config == config && history == []
    {
      this.config := config;
      attempts, issued, history := map[], [], [];
    }

    /** Blocks the address unless it is whitelisted by now; `ok` is false where the source throws. */
    method BlockIp(ip: Address, count: nat, w: World) returns (ok: bool)
      requires !IsProtected(ip)
      modifies this`issued
      ensures ok == Clears(w)
      ensures issued == if Issues(w) then old(issued) + [Block(ip, count)] else old(issued)
    {
      if w.whitelistedAtBlock {
        return w.hasRow;
      }
      issued := issued + [Block(ip, count)];
      return w.enforced;
    }

    method ProcessLogEvent(e: LogEvent, w: World)
      requires Valid()
      modifies this
      ensures Valid() && history == old(history) + [(e, w)]
      ensures State(attempts, issued) == Step(config, old(State(attempts, issued)), e, w)
    {
      ghost var s := State(attempts, issued);
      assert (history + [(e, w)])[..|history|] == history;
      history := history + [(e, w)];
      if e.ip == Malformed || IsProtected(e.ip) || e.allowedRegistration || w.whitelisted { return; }
      var existing := if e.ip in attempts then attempts[e.ip] else [];
      var next := Prune(config, existing, e);
      attempts := attempts[e.ip := next];
      if |next| >= config.threshold {
        var ok := BlockIp(e.ip, |next|, w);
        if ok { attempts := attempts[e.ip := []]; }
      }
      assert State(attempts, issued) == Step(config, s, e, w);
    }
  }
}
