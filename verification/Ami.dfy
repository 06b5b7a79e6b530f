/** The management-interface stream: messages between blank lines, arriving in chunks cut anywhere. */
module AmiStream {
  import opened Wrappers

  // ----- The boundary: a line end and another line end, each with or without a carriage return

  /** Length of the line end at `i`, 0 if there is none. */
  function LineEndAt(s: string, i: nat): (n: nat)
    ensures n > 0 ==> i + n <= |s|
  {
    if i < |s| && s[i] == '\n' then 1 else if i + 1 < |s| && s[i] == '\r' && s[i + 1] == '\n' then 2 else 0
  }

  /** Length of the boundary at `i`, 0 if there is none. */
  function BoundaryAt(s: string, i: nat): (n: nat)
    ensures n > 0 ==> i + n <= |s|
  {
    var a := LineEndAt(s, i);
    var b := LineEndAt(s, i + a);
    if a > 0 && b > 0 then a + b else 0
  }

  function FirstFrom(s: string, i: nat): (r: Option<nat>)
    requires i <= |s|
    ensures r.Some? ==> i <= r.value < |s| && BoundaryAt(s, r.value) > 0 && forall j :: i <= j < r.value ==> BoundaryAt(s, j) == 0
    ensures r.None? ==> forall j :: i <= j ==> BoundaryAt(s, j) == 0
    decreases |s| - i
  {
    if i == |s| then None else if BoundaryAt(s, i) > 0 then Some(i) else FirstFrom(s, i + 1)
  }

  /** Where the first boundary starts. */
  function FirstBoundary(s: string): (r: Option<nat>)
    ensures r.Some? ==> r.value < |s| && BoundaryAt(s, r.value) > 0 && forall j :: 0 <= j < r.value ==> BoundaryAt(s, j) == 0
    ensures r.None? ==> forall j: nat :: BoundaryAt(s, j) == 0
  {
    FirstFrom(s, 0)
  }

  /** The text behind the first boundary. */
  function Behind(s: string, i: nat): (rest: string)
    requires BoundaryAt(s, i) > 0
    ensures |rest| < |s|
  {
    s[i + BoundaryAt(s, i)..]
  }

  function Split(s: string): (parts: seq<string>)
    ensures |parts| >= 1
    decreases |s|
  {
    match FirstBoundary(s)
    case None => [s]
    case Some(i) => [s[..i]] + Split(Behind(s, i))
  }

  /** The boundaries themselves, in order. */
  function Boundaries(s: string): seq<string>
    decreases |s|
  {
    match FirstBoundary(s)
    case None => []
    case Some(i) => [s[i..i + BoundaryAt(s, i)]] + Boundaries(Behind(s, i))
  }

  function Weave(parts: seq<string>, seps: seq<string>): string
    requires |parts| == |seps| + 1
  {
    if seps == [] then parts[0] else parts[0] + seps[0] + Weave(parts[1..], seps[1..])
  }

  // ----- What more text does to boundaries

  lemma BoundaryStays(s: string, t: string, i: nat)
    requires BoundaryAt(s, i) > 0
    ensures BoundaryAt(s + t, i) == BoundaryAt(s, i)
  {
  }

  /** A boundary completed by later text lies before no other: none of `s` starts behind it. */
  lemma CompletedBoundaryIsLast(s: string, t: string, i: nat, j: nat)
    requires BoundaryAt(s, i) == 0 && BoundaryAt(s + t, i) > 0 && i < j
    ensures BoundaryAt(s, j) == 0
  {
  }

  /** Text added at the end never moves the first boundary. */
  lemma FirstBoundaryStays(s: string, t: string)
    requires FirstBoundary(s).Some?
    ensures FirstBoundary(s + t) == FirstBoundary(s)
  {
    var i := FirstBoundary(s).value;
    BoundaryStays(s, t, i);
    forall j | 0 <= j < i ensures BoundaryAt(s + t, j) == 0 {
      if BoundaryAt(s + t, j) > 0 { CompletedBoundaryIsLast(s, t, j, i); }
    }
  }

  function Last(parts: seq<string>): string
    requires parts != []
  {
    parts[|parts| - 1]
  }

  function Front(parts: seq<string>): seq<string>
    requires parts != []
  {
    parts[..|parts| - 1]
  }

  lemma SplitUnfolds(s: string, i: nat)
    requires FirstBoundary(s) == Some(i)
    ensures Split(s) == [s[..i]] + Split(Behind(s, i))
    ensures Front(Split(s)) == [s[..i]] + Front(Split(Behind(s, i)))
    ensures Last(Split(s)) == Last(Split(Behind(s, i)))
  {
  }

  lemma BehindAppend(s: string, t: string, i: nat)
    requires FirstBoundary(s) == Some(i)
    ensures FirstBoundary(s + t) == Some(i) && Behind(s + t, i) == Behind(s, i) + t && (s + t)[..i] == s[..i]
  {
    FirstBoundaryStays(s, t);
    BoundaryStays(s, t, i);
  }

  lemma Regroup(x: string, a: seq<string>, b: seq<string>)
    ensures [x] + (a + b) == ([x] + a) + b
  {
  }

  /** Splitting more text: the parts that are closed stay, and only the last one is split again. */
  lemma {:induction false} SplitAppend(s: string, t: string)
    ensures Split(s + t) == Front(Split(s)) + Split(Last(Split(s)) + t)
    decreases |s|
  {
    match FirstBoundary(s)
    case None =>
      assert Front(Split(s)) == [];
    case Some(i) =>
      var rest := Behind(s, i);
      BehindAppend(s, t, i);
      SplitUnfolds(s, i);
      SplitUnfolds(s + t, i);
      SplitAppend(rest, t);
      Regroup(s[..i], Front(Split(rest)), Split(Last(Split(rest)) + t));
  }

  lemma NothingBeforeFirst(s: string, i: nat)
    requires FirstBoundary(s) == Some(i)
    ensures FirstBoundary(s[..i]) == None
  {
    assert s == s[..i] + s[i..];
    if FirstBoundary(s[..i]).Some? { FirstBoundaryStays(s[..i], s[i..]); }
  }

  predicate IsBoundary(b: string) { |b| > 0 && BoundaryAt(b, 0) == |b| }

  lemma BoundaryIsItsOwn(s: string, i: nat)
    requires BoundaryAt(s, i) > 0
    ensures IsBoundary(s[i..i + BoundaryAt(s, i)])
  {
  }

  lemma WeaveCons(p: string, b: string, parts: seq<string>, seps: seq<string>)
    requires |parts| == |seps| + 1
    ensures Weave([p] + parts, [b] + seps) == p + b + Weave(parts, seps)
  {
    assert ([p] + parts)[1..] == parts && ([b] + seps)[1..] == seps;
  }

  lemma BoundariesUnfold(s: string, i: nat)
    requires FirstBoundary(s) == Some(i)
    ensures Boundaries(s) == [s[i..i + BoundaryAt(s, i)]] + Boundaries(Behind(s, i))
  {
  }

  lemma CutInThree(s: string, i: nat)
    requires BoundaryAt(s, i) > 0
    ensures s == s[..i] + s[i..i + BoundaryAt(s, i)] + Behind(s, i)
  {
  }

  /** The parts and the boundaries between them are the text. */
  lemma {:induction false} SplitIsExact(s: string)
    ensures |Split(s)| == |Boundaries(s)| + 1 && Weave(Split(s), Boundaries(s)) == s
    decreases |s|
  {
    match FirstBoundary(s)
    case None =>
      assert Split(s) == [s] && Boundaries(s) == [];
    case Some(i) =>
      var b, rest := s[i..i + BoundaryAt(s, i)], Behind(s, i);
      SplitIsExact(rest);
      SplitUnfolds(s, i);
      BoundariesUnfold(s, i);
      WeaveCons(s[..i], b, Split(rest), Boundaries(rest));
      CutInThree(s, i);
  }

  /** No part holds a boundary, and every boundary is one. */
  lemma {:induction false} PartsHoldNoBoundary(s: string)
    ensures forall part :: part in Split(s) ==> FirstBoundary(part) == None
    ensures forall b :: b in Boundaries(s) ==> IsBoundary(b)
    decreases |s|
  {
    match FirstBoundary(s)
    case None =>
      assert Split(s) == [s] && Boundaries(s) == [];
    case Some(i) =>
      PartsHoldNoBoundary(Behind(s, i));
      NothingBeforeFirst(s, i);
      BoundaryIsItsOwn(s, i);
      SplitUnfolds(s, i);
      BoundariesUnfold(s, i);
  }
}

/** Messages out of the stream, and the endpoint poll that reads them. */
module AmiMonitor {
  import opened Wrappers
  import opened AmiStream
  import opened Sequences
  import Strings

  type Message = map<string, string>

  function FirstLineEnd(s: string, i: nat): (r: Option<nat>)
    requires i <= |s|
    ensures r.Some? ==> i <= r.value < |s| && LineEndAt(s, r.value) > 0
    decreases |s| - i
  {
    if i == |s| then None else if LineEndAt(s, i) > 0 then Some(i) else FirstLineEnd(s, i + 1)
  }

  function Lines(s: string): seq<string>
    decreases |s|
  {
    match FirstLineEnd(s, 0)
    case None => [s]
    case Some(i) => [s[..i]] + Lines(s[i + LineEndAt(s, i)..])
  }

  function IndexOf(s: string, c: char, i: nat): (r: Option<nat>)
    requires i <= |s|
    ensures r.Some? ==> i <= r.value < |s| && s[r.value] == c && forall j :: i <= j < r.value ==> s[j] != c
    ensures r.None? ==> forall j :: i <= j < |s| ==> s[j] != c
    decreases |s| - i
  {
    if i == |s| then None else if s[i] == c then Some(i) else IndexOf(s, c, i + 1)
  }

  /** A line sets a field, the text before its first colon, or nothing. */
  function SetField(m: Message, line: string): Message {
    match IndexOf(line, ':', 0)
    case None => m
    case Some(k) => m[Strings.Trim(line[..k]) := Strings.Trim(line[k + 1..])]
  }

  function SetFields(m: Message, lines: seq<string>): Message {
    if lines == [] then m else SetField(SetFields(m, lines[..|lines| - 1]), lines[|lines| - 1])
  }

  function MessageOf(part: string): Message { SetFields(map[], Lines(part)) }

  /** Parts that are blank make no message. */
  function MessagesOf(parts: seq<string>): seq<Message> {
    if parts == [] then []
    else MessagesOf(parts[..|parts| - 1]) + MessageIn(parts[|parts| - 1])
  }

  function MessageIn(part: string): seq<Message> {
    if Strings.Trim(part) == "" then [] else [MessageOf(Strings.Trim(part))]
  }

  lemma MessagesOfSnoc(parts: seq<string>, part: string)
    ensures MessagesOf(parts + [part]) == MessagesOf(parts) + MessageIn(part)
  {
    assert (parts + [part])[..|parts|] == parts;
  }

  lemma {:induction false} MessagesOfAppend(a: seq<string>, b: seq<string>)
    ensures MessagesOf(a + b) == MessagesOf(a) + MessagesOf(b)
  {
    if b == [] {
      assert a + b == a;
    } else {
      var front, last := b[..|b| - 1], b[|b| - 1];
      assert b == front + [last] && a + b == (a + front) + [last];
      MessagesOfAppend(a, front);
      MessagesOfSnoc(a + front, last);
      MessagesOfSnoc(front, last);
    }
  }

  // ----- What lines and messages are

  function LineEnds(s: string): seq<string>
    decreases |s|
  {
    match FirstLineEnd(s, 0)
    case None => []
    case Some(i) => [s[i..i + LineEndAt(s, i)]] + LineEnds(s[i + LineEndAt(s, i)..])
  }

  lemma {:induction false} LinesUnfold(s: string, i: nat)
    requires FirstLineEnd(s, 0) == Some(i)
    ensures Lines(s) == [s[..i]] + Lines(s[i + LineEndAt(s, i)..])
    ensures LineEnds(s) == [s[i..i + LineEndAt(s, i)]] + LineEnds(s[i + LineEndAt(s, i)..])
  {
  }

  lemma InThree(s: string, i: nat, j: nat)
    requires i <= j <= |s|
    ensures s == s[..i] + s[i..j] + s[j..]
  {
  }

  /** The lines and the line ends between them are the text. */
  lemma {:induction false} LinesAreExact(s: string)
    ensures |Lines(s)| == |LineEnds(s)| + 1 && Weave(Lines(s), LineEnds(s)) == s
    decreases |s|
  {
    match FirstLineEnd(s, 0)
    case None =>
      assert Lines(s) == [s] && LineEnds(s) == [];
    case Some(i) =>
      var rest := s[i + LineEndAt(s, i)..];
      LinesAreExact(rest);
      LinesUnfold(s, i);
      InThree(s, i, i + LineEndAt(s, i));
      WeaveCons(s[..i], s[i..i + LineEndAt(s, i)], Lines(rest), LineEnds(rest));
  }

  /** The line sets the field: its text before the first colon, trimmed. */
  predicate Sets(line: string, key: string) {
    var k := IndexOf(line, ':', 0);
    k.Some? && Strings.Trim(line[..k.value]) == key
  }

  function ValueOf(line: string): string
    requires IndexOf(line, ':', 0).Some?
  {
    Strings.Trim(line[IndexOf(line, ':', 0).value + 1..])
  }

  /** The last line that sets the field. */
  function LastSetting(lines: seq<string>, key: string): (r: Option<nat>)
    ensures r.Some? ==> r.value < |lines| && Sets(lines[r.value], key) && forall j :: r.value < j < |lines| ==> !Sets(lines[j], key)
    ensures r.None? ==> forall j :: 0 <= j < |lines| ==> !Sets(lines[j], key)
  {
    LastIndex((line: string) => Sets(line, key), lines)
  }

  /** A message has a field exactly where some line sets it, with the value of the last line that does. */
  lemma {:induction false} FieldsAre(lines: seq<string>, key: string)
    ensures var m, last := SetFields(map[], lines), LastSetting(lines, key);
            if last.Some? then key in m && m[key] == ValueOf(lines[last.value]) else key !in m
  {
    if lines != [] { FieldsAre(lines[..|lines| - 1], key); }
  }

  datatype Parsed = Parsed(messages: seq<Message>, remainder: string)

  function Parse(s: string): Parsed {
    Parsed(MessagesOf(Front(Split(s))), Last(Split(s)))
  }

  method ParseFields(part: string) returns (message: Message)
    ensures message == MessageOf(part)
  {
    message := map[];
    var lines := Lines(part);
    for k := 0 to |lines|
      invariant message == SetFields(map[], lines[..k])
    {
      assert lines[..k + 1][..k] == lines[..k];
      var separator := IndexOf(lines[k], ':', 0);
      if separator.Some? {
        message := message[Strings.Trim(lines[k][..separator.value]) := Strings.Trim(lines[k][separator.value + 1..])];
      }
    }
    assert lines[..|lines|] == lines;
  }

  method ParseMessages(buffer: string) returns (messages: seq<Message>, remainder: string)
    ensures Parsed(messages, remainder) == Parse(buffer)
  {
    var parts := Split(buffer);
    remainder := parts[|parts| - 1];
    parts := parts[..|parts| - 1];
    messages := [];
    for i := 0 to |parts|
      invariant messages == MessagesOf(parts[..i])
    {
      assert parts[..i + 1][..i] == parts[..i];
      var part := Strings.Trim(parts[i]);
      if part != "" {
        var message := ParseFields(part);
        messages := messages + [message];
      }
    }
    assert parts[..|parts|] == parts;
  }

  // ----- Chunks

  function Concat(chunks: seq<string>): string {
    if chunks == [] then "" else chunks[0] + Concat(chunks[1..])
  }

  /** Chunk after chunk through the buffer. */
  function Feed(buffer: string, chunks: seq<string>): Parsed
    decreases |chunks|
  {
    if chunks == [] then Parsed([], buffer)
    else
      var first := Parse(buffer + chunks[0]);
      var rest := Feed(first.remainder, chunks[1..]);
      Parsed(first.messages + rest.messages, rest.remainder)
  }

  lemma ParseAppend(s: string, t: string)
    ensures Parse(s + t) == Parsed(Parse(s).messages + Parse(Parse(s).remainder + t).messages, Parse(Parse(s).remainder + t).remainder)
  {
    SplitAppend(s, t);
    var closed, again := Front(Split(s)), Split(Last(Split(s)) + t);
    MessagesOfAppend(closed, Front(again));
    assert Front(closed + again) == closed + Front(again);
  }

  lemma RemainderIsOpen(s: string)
    ensures FirstBoundary(Parse(s).remainder) == None
  {
    PartsHoldNoBoundary(s);
    assert Last(Split(s)) in Split(s);
  }

  /** However the stream is cut into chunks, the messages and the remainder are those of the whole. */
  lemma {:induction false} ChunkIndependence(buffer: string, chunks: seq<string>)
    requires FirstBoundary(buffer) == None
    ensures Feed(buffer, chunks) == Parse(buffer + Concat(chunks))
    decreases |chunks|
  {
    if chunks == [] {
      assert buffer + Concat(chunks) == buffer;
      ParseOpen(buffer);
    } else {
      var s, t := buffer + chunks[0], Concat(chunks[1..]);
      RemainderIsOpen(s);
      ChunkIndependence(Parse(s).remainder, chunks[1..]);
      ParseAppend(s, t);
      Associate(buffer, chunks[0], t);
    }
  }

  lemma Associate(a: string, b: string, c: string)
    ensures a + (b + c) == (a + b) + c
  {
  }

  lemma ParseOpen(s: string)
    requires FirstBoundary(s) == None
    ensures Parse(s) == Parsed([], s)
  {
    assert Split(s) == [s];
    assert Front([s]) == [];
  }

  // ----- The poll

  datatype Endpoint = Endpoint(name: string, aor: string, contacts: seq<string>, registered: bool)

  datatype Poll = Poll(loggedIn: bool, endpoints: seq<Endpoint>, resolved: Option<seq<Endpoint>>)

  const NewPoll := Poll(false, [], None)

  predicate Says(m: Message, key: string, value: string) { key in m && m[key] == value }

  function TextOr(m: Message, key: string, default: string): string {
    if key in m && m[key] != "" then m[key] else default
  }

  function SplitCommas(s: string): seq<string>
    decreases |s|
  {
    match IndexOf(s, ',', 0)
    case None => [s]
    case Some(k) => [s[..k]] + SplitCommas(s[k + 1..])
  }

  function NonBlank(items: seq<string>): seq<string> {
    if items == [] then []
    else (if Strings.Trim(items[0]) == "" then [] else [Strings.Trim(items[0])]) + NonBlank(items[1..])
  }

  function EndpointOf(m: Message): Endpoint {
    var contacts := NonBlank(SplitCommas(TextOr(m, "Contacts", "")));
    Endpoint(TextOr(m, "ObjectName", "unknown"), TextOr(m, "Aor", "unknown"), contacts, contacts != [])
  }

  /** What one message is to the poll. */
  datatype Meaning = LogsIn | Lists(endpoint: Endpoint) | Completes | Nothing

  function MeaningOf(loggedIn: bool, m: Message, actionId: string): Meaning {
    if !loggedIn && Says(m, "Response", "Success") && Says(m, "Message", "Authentication accepted") then LogsIn
    else if Says(m, "Event", "EndpointList") && Says(m, "ActionID", actionId) then Lists(EndpointOf(m))
    else if Says(m, "Event", "EndpointListComplete") && Says(m, "ActionID", actionId) then Completes
    else Nothing
  }

  function React(p: Poll, meaning: Meaning): Poll {
    match meaning
    case LogsIn => p.(loggedIn := true)
    case Lists(endpoint) => p.(endpoints := p.endpoints + [endpoint])
    case Completes => if p.resolved.None? then p.(resolved := Some(p.endpoints)) else p
    case Nothing => p
  }

  /** The messages of one chunk, up to the one that completes the list. */
  function Consume(p: Poll, ms: seq<Message>, actionId: string): Poll
    decreases |ms|
  {
    if ms == [] then p
    else
      var meaning := MeaningOf(p.loggedIn, ms[0], actionId);
      if meaning == Completes then React(p, meaning) else Consume(React(p, meaning), ms[1..], actionId)
  }

  /** What has been resolved stays resolved. */
  lemma {:induction false} ResolvedStays(p: Poll, ms: seq<Message>, actionId: string)
    requires p.resolved.Some?
    ensures Consume(p, ms, actionId).resolved == p.resolved
    decreases |ms|
  {
    if ms != [] {
      var meaning := MeaningOf(p.loggedIn, ms[0], actionId);
      if meaning != Completes { ResolvedStays(React(p, meaning), ms[1..], actionId); }
    }
  }

  lemma {:induction false} ConsumeAppend(p: Poll, a: seq<Message>, b: seq<Message>, actionId: string)
    requires p.resolved.None?
    ensures Consume(p, a, actionId).resolved.None? ==> Consume(p, a + b, actionId) == Consume(Consume(p, a, actionId), b, actionId)
    ensures Consume(p, a, actionId).resolved.Some? ==> Consume(p, a + b, actionId) == Consume(p, a, actionId)
    decreases |a|
  {
    if a == [] {
      assert a + b == b;
    } else {
      assert (a + b)[1..] == a[1..] + b;
      var meaning := MeaningOf(p.loggedIn, a[0], actionId);
      if meaning != Completes { ConsumeAppend(React(p, meaning), a[1..], b, actionId); }
    }
  }

  // ----- What the poll resolves to

  predicate IsLogin(m: Message) { Says(m, "Response", "Success") && Says(m, "Message", "Authentication accepted") }

  predicate IsListing(m: Message, actionId: string) { Says(m, "Event", "EndpointList") && Says(m, "ActionID", actionId) }

  predicate IsCompletion(m: Message, actionId: string) { Says(m, "Event", "EndpointListComplete") && Says(m, "ActionID", actionId) }

  /** The messages without the first that accepts the login. */
  function WithoutLogin(ms: seq<Message>): seq<Message> {
    if ms == [] then [] else if IsLogin(ms[0]) then ms[1..] else [ms[0]] + WithoutLogin(ms[1..])
  }

  function FirstCompletion(ms: seq<Message>, actionId: string): (r: Option<nat>)
    ensures r.Some? ==> r.value < |ms| && IsCompletion(ms[r.value], actionId) && forall i :: 0 <= i < r.value ==> !IsCompletion(ms[i], actionId)
    ensures r.None? ==> forall i :: 0 <= i < |ms| ==> !IsCompletion(ms[i], actionId)
  {
    if ms == [] then None
    else if IsCompletion(ms[0], actionId) then Some(0)
    else match FirstCompletion(ms[1..], actionId)
      case None => None
      case Some(k) => Some(k + 1)
  }

  function Listing(actionId: string): Message -> bool { m => IsListing(m, actionId) }

  /** The endpoints of the listing messages before the first that completes the list. */
  function Listed(ms: seq<Message>, actionId: string): Option<seq<Endpoint>> {
    match FirstCompletion(ms, actionId)
    case None => None
    case Some(k) => Some(Map(EndpointOf, Filter(Listing(actionId), ms[..k])))
  }

  function After(found: seq<Endpoint>, listed: Option<seq<Endpoint>>): Option<seq<Endpoint>> {
    match listed
    case None => None
    case Some(endpoints) => Some(found + endpoints)
  }

  lemma NotBoth(m: Message, actionId: string)
    ensures !(IsListing(m, actionId) && IsCompletion(m, actionId))
  {
    assert |"EndpointList"| != |"EndpointListComplete"|;
  }

  lemma {:induction false} ListedCons(m: Message, ms: seq<Message>, actionId: string)
    ensures Listed([m] + ms, actionId)
         == if IsCompletion(m, actionId) then Some([])
            else if IsListing(m, actionId) then After([EndpointOf(m)], Listed(ms, actionId)) else Listed(ms, actionId)
  {
    var all := [m] + ms;
    assert all[1..] == ms;
    if IsCompletion(m, actionId) {
      assert all[..0] == [] && Filter(Listing(actionId), all[..0]) == [];
      assert Map(EndpointOf, Filter(Listing(actionId), all[..0])) == [];
    } else if FirstCompletion(ms, actionId).Some? {
      var k := FirstCompletion(ms, actionId).value;
      assert all[..k + 1] == [m] + ms[..k];
      FilterAppend(Listing(actionId), [m], ms[..k]);
      FilterOne(Listing(actionId), m);
      if IsListing(m, actionId) {
        MapCons(EndpointOf, m, Filter(Listing(actionId), ms[..k]));
      } else {
        assert [] + Filter(Listing(actionId), ms[..k]) == Filter(Listing(actionId), ms[..k]);
      }
    }
  }

  /** What a poll that is logged in and still unresolved will resolve to. */
  lemma {:induction false} LoggedResolves(p: Poll, ms: seq<Message>, actionId: string)
    requires p.resolved.None? && p.loggedIn
    ensures Consume(p, ms, actionId).resolved == After(p.endpoints, Listed(ms, actionId))
    decreases |ms|
  {
    if ms != [] {
      var p' := React(p, MeaningOf(true, ms[0], actionId));
      if p'.resolved.None? { LoggedResolves(p', ms[1..], actionId); }
      ListedStep(p.endpoints, ms[0], ms[1..], actionId);
      assert ms == [ms[0]] + ms[1..];
    }
  }

  /** One message, before the rest: it completes the list, adds to what was found, or does neither. */
  lemma {:induction false} ListedStep(found: seq<Endpoint>, m: Message, rest: seq<Message>, actionId: string)
    ensures After(found, Listed([m] + rest, actionId))
         == if IsCompletion(m, actionId) then Some(found)
            else if IsListing(m, actionId) then After(found + [EndpointOf(m)], Listed(rest, actionId)) else After(found, Listed(rest, actionId))
    ensures !(IsListing(m, actionId) && IsCompletion(m, actionId))
  {
    NotBoth(m, actionId);
    ListedCons(m, rest, actionId);
    AfterOne(found, EndpointOf(m), Listed(rest, actionId));
    assert found + [] == found;
  }

  /** What a poll still unresolved and not logged in will resolve to. */
  lemma {:induction false} ResolvesFrom(p: Poll, ms: seq<Message>, actionId: string)
    requires p.resolved.None? && !p.loggedIn
    ensures Consume(p, ms, actionId).resolved == After(p.endpoints, Listed(WithoutLogin(ms), actionId))
    decreases |ms|
  {
    if ms != [] {
      var p' := React(p, MeaningOf(false, ms[0], actionId));
      if IsLogin(ms[0]) {
        LoggedResolves(p', ms[1..], actionId);
      } else {
        if p'.resolved.None? { ResolvesFrom(p', ms[1..], actionId); }
        ListedStep(p.endpoints, ms[0], WithoutLogin(ms[1..]), actionId);
      }
    }
  }

  lemma AfterOne(found: seq<Endpoint>, e: Endpoint, listed: Option<seq<Endpoint>>)
    ensures After(found + [e], listed) == After(found, After([e], listed))
  {
    if listed.Some? { assert (found + [e]) + listed.value == found + ([e] + listed.value); }
  }

  /**
   * The poll resolves once a message completes the list, to the endpoints of the listing messages before
   * it, in order; the first message that accepts the login does not count as either.
   */
  lemma {:induction false} PollResolvesTo(ms: seq<Message>, actionId: string)
    ensures Consume(NewPoll, ms, actionId).resolved == Listed(WithoutLogin(ms), actionId)
  {
    ResolvesFrom(NewPoll, ms, actionId);
    if Listed(WithoutLogin(ms), actionId).Some? {
      assert [] + Listed(WithoutLogin(ms), actionId).value == Listed(WithoutLogin(ms), actionId).value;
    }
  }

  // ----- What an endpoint's contacts are

  function JoinCommas(parts: seq<string>): string {
    if parts == [] then "" else if |parts| == 1 then parts[0] else parts[0] + "," + JoinCommas(parts[1..])
  }

  lemma CommaCons(first: string, rest: seq<string>)
    requires rest != []
    ensures JoinCommas([first] + rest) == first + "," + JoinCommas(rest)
  {
    assert ([first] + rest)[1..] == rest;
  }

  lemma CommaAt(s: string, k: nat)
    requires k < |s| && s[k] == ','
    ensures s == s[..k] + "," + s[k + 1..]
  {
    assert s[..k] + "," + s[k + 1..] == s[..k] + [s[k]] + s[k + 1..];
  }

  lemma {:induction false} CommasAreExact(s: string)
    ensures |SplitCommas(s)| >= 1 && JoinCommas(SplitCommas(s)) == s
    ensures forall part :: part in SplitCommas(s) ==> ',' !in part
    decreases |s|
  {
    match IndexOf(s, ',', 0)
    case None => assert SplitCommas(s) == [s];
    case Some(k) =>
      CommasAreExact(s[k + 1..]);
      CommaCons(s[..k], SplitCommas(s[k + 1..]));
      CommaAt(s, k);
  }

  lemma {:induction false} NonBlankAre(items: seq<string>)
    ensures NonBlank(items) == Map(Strings.Trim, Filter((t: string) => Strings.Trim(t) != "", items))
  {
    var keep := (t: string) => Strings.Trim(t) != "";
    if items == [] {
      assert Map(Strings.Trim, Filter(keep, items)) == [];
    } else {
      NonBlankAre(items[1..]);
      if keep(items[0]) { MapCons(Strings.Trim, items[0], Filter(keep, items[1..])); }
    }
  }

  /** An endpoint is registered exactly when some part of its contacts, cut at commas, is not blank. */
  lemma RegisteredIff(m: Message)
    ensures EndpointOf(m).registered <==> exists part :: part in SplitCommas(TextOr(m, "Contacts", "")) && Strings.Trim(part) != ""
  {
    var parts := SplitCommas(TextOr(m, "Contacts", ""));
    NonBlankAre(parts);
    FilterHas((t: string) => Strings.Trim(t) != "", parts);
    var kept := Filter((t: string) => Strings.Trim(t) != "", parts);
    if EndpointOf(m).registered { assert kept != [] && kept[0] in kept; }
  }

  /** The poll after the chunks, each chunk's messages taken as the handler takes them. */
  function PollChunks(p: Poll, buffer: string, chunks: seq<string>, actionId: string): Poll
    decreases |chunks|
  {
    if chunks == [] then p
    else
      var first := Parse(buffer + chunks[0]);
      PollChunks(Consume(p, first.messages, actionId), first.remainder, chunks[1..], actionId)
  }

  lemma {:induction false} PollStaysResolved(p: Poll, buffer: string, chunks: seq<string>, actionId: string)
    requires p.resolved.Some?
    ensures PollChunks(p, buffer, chunks, actionId).resolved == p.resolved
    decreases |chunks|
  {
    if chunks != [] {
      var first := Parse(buffer + chunks[0]);
      ResolvedStays(p, first.messages, actionId);
      PollStaysResolved(Consume(p, first.messages, actionId), first.remainder, chunks[1..], actionId);
    }
  }

  lemma {:induction false} PollFollowsFeed(p: Poll, buffer: string, chunks: seq<string>, actionId: string)
    requires p.resolved.None?
    ensures PollChunks(p, buffer, chunks, actionId).resolved == Consume(p, Feed(buffer, chunks).messages, actionId).resolved
    decreases |chunks|
  {
    if chunks != [] {
      var first := Parse(buffer + chunks[0]);
      var p' := Consume(p, first.messages, actionId);
      var rest := Feed(first.remainder, chunks[1..]).messages;
      ConsumeAppend(p, first.messages, rest, actionId);
      if p'.resolved.Some? {
        PollStaysResolved(p', first.remainder, chunks[1..], actionId);
      } else {
        PollFollowsFeed(p', first.remainder, chunks[1..], actionId);
      }
    }
  }

  /** What the poll resolves to is a matter of the stream alone, not of where it was cut. */
  lemma PollIsChunkIndependent(chunks: seq<string>, actionId: string)
    ensures PollChunks(NewPoll, "", chunks, actionId).resolved == Consume(NewPoll, Parse(Concat(chunks)).messages, actionId).resolved
  {
    assert FirstBoundary("") == None;
    assert "" + Concat(chunks) == Concat(chunks);
    ChunkIndependence("", chunks);
    PollFollowsFeed(NewPoll, "", chunks, actionId);
  }

  /** The socket's state and its data handler. */
  class EndpointPoll {
    const actionId: string
    var buffer: string
    var loggedIn: bool
    var endpoints: seq<Endpoint>
    var resolved: Option<seq<Endpoint>>
    ghost var received: seq<string>

    ghost function View(): Poll
      reads this
    {
      Poll(loggedIn, endpoints, resolved)
    }

    /** Whatever chunks have come, the buffer and the resolved list are those of the whole text. */
    ghost predicate Valid()
      reads this
    {
      && buffer == Parse(Concat(received)).remainder
      && resolved == Consume(NewPoll, Parse(Concat(received)).messages, actionId).resolved
      && (resolved.None? ==> View() == Consume(NewPoll, Parse(Concat(received)).messages, actionId))
    }

    constructor (actionId: string)
      ensures Valid() && received == [] && this.actionId == actionId
    {
      this.actionId := actionId;
      buffer, loggedIn, endpoints, resolved, received := "", false, [], None, [];
      new;
      assert Concat(received) == "" && Split("") == [""];
      assert Parse("") == Parsed([], "");
    }

    /** The loop over a chunk's messages, left at the one that completes the list. */
    method ConsumeMessages(messages: seq<Message>)
      modifies this`loggedIn, this`endpoints, this`resolved
      ensures View() == Consume(old(View()), messages, actionId)
    {
      ghost var was := View();
      var i, done := 0, false;
      while i < |messages| && !done
        invariant 0 <= i <= |messages|
        invariant if done then View() == Consume(was, messages, actionId)
                  else Consume(View(), messages[i..], actionId) == Consume(was, messages, actionId)
        decreases |messages| - i, if done then 0 else 1
      {
        assert messages[i..][1..] == messages[i + 1..];
        match MeaningOf(loggedIn, messages[i], actionId) {
          case LogsIn => loggedIn := true;
          case Lists(endpoint) => endpoints := endpoints + [endpoint];
          case Completes =>
            if resolved.None? { resolved := Some(endpoints); }
            done := true;
          case Nothing =>
        }
        i := i + 1;
      }
    }

    method OnData(chunk: string)
      requires Valid()
      modifies this
      ensures Valid() && received == old(received) + [chunk]
      ensures old(resolved).Some? ==> resolved == old(resolved)
    {
      ghost var was := View();
      buffer := buffer + chunk;
      var messages, remainder := ParseMessages(buffer);
      buffer := remainder;
      ConsumeMessages(messages);
      Arrives(was, received, chunk, actionId);
      received := received + [chunk];
    }
  }

  /** A chunk through the buffer is the longer text taken whole. */
  lemma Arrives(was: Poll, received: seq<string>, chunk: string, actionId: string)
    requires was.resolved == Consume(NewPoll, Parse(Concat(received)).messages, actionId).resolved
    requires was.resolved.None? ==> was == Consume(NewPoll, Parse(Concat(received)).messages, actionId)
    ensures var step, whole := Parse(Parse(Concat(received)).remainder + chunk), Parse(Concat(received + [chunk]));
            var now, all := Consume(was, step.messages, actionId), Consume(NewPoll, whole.messages, actionId);
            && step.remainder == whole.remainder
            && now.resolved == all.resolved && (now.resolved.None? ==> now == all)
            && (was.resolved.Some? ==> now.resolved == was.resolved)
  {
    var text := Concat(received);
    ConcatAppend(received, chunk);
    ParseAppend(text, chunk);
    var messages := Parse(Parse(text).remainder + chunk).messages;
    ConsumeAppend(NewPoll, Parse(text).messages, messages, actionId);
    if was.resolved.Some? { ResolvedStays(was, messages, actionId); }
  }

  lemma {:induction false} ConcatAppend(chunks: seq<string>, chunk: string)
    ensures Concat(chunks + [chunk]) == Concat(chunks) + chunk
  {
    if chunks == [] {
      assert chunks + [chunk] == [chunk] && Concat([chunk]) == chunk + Concat([chunk][1..]);
    } else {
      ConcatAppend(chunks[1..], chunk);
      assert (chunks + [chunk])[1..] == chunks[1..] + [chunk];
    }
  }
}
