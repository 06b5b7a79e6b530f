/** Printing and parsing one CSV line. */
module Csv {
  import opened Sequences
  import Strings

  // ----- Printing

  predicate NeedsQuotes(value: string) {
    '"' in value || ',' in value || '\n' in value || '\r' in value
  }

  function Doubled(value: string): string {
    if value == [] then [] else (if value[0] == '"' then ['"', '"'] else [value[0]]) + Doubled(value[1..])
  }

  function EscapeCsv(value: string): string {
    if NeedsQuotes(value) then ['"'] + Doubled(value) + ['"'] else value
  }

  function Join(fields: seq<string>): string {
    if fields == [] then []
    else if |fields| == 1 then EscapeCsv(fields[0])
    else EscapeCsv(fields[0]) + [','] + Join(fields[1..])
  }

  // ----- Parsing

  datatype Parser = Parser(values: seq<string>, value: string, inQuotes: bool)

  /** The parser after the whole text. */
  function Scan(p: Parser, s: string): Parser
    decreases |s|
  {
    if s == [] then p
    else if s[0] == '"' then
      if p.inQuotes && |s| > 1 && s[1] == '"' then Scan(p.(value := p.value + ['"']), s[2..])
      else Scan(p.(inQuotes := !p.inQuotes), s[1..])
    else if s[0] == ',' && !p.inQuotes then Scan(Parser(p.values + [Strings.Trim(p.value)], [], false), s[1..])
    else Scan(p.(value := p.value + [s[0]]), s[1..])
  }

  function Finish(p: Parser): seq<string> { p.values + [Strings.Trim(p.value)] }

  const Begin := Parser([], [], false)

  function Fields(line: string): seq<string> { Finish(Scan(Begin, line)) }

  method ParseCsvLine(line: string) returns (values: seq<string>)
    ensures values == Fields(line)
  {
    values := [];
    var value: string, inQuotes := "", false;
    var i := 0;
    while i < |line|
      invariant i <= |line|
      invariant Scan(Parser(values, value, inQuotes), line[i..]) == Scan(Begin, line)
    {
      ghost var rest := line[i..];
      var c := line[i];
      if c == '"' {
        if inQuotes && i + 1 < |line| && line[i + 1] == '"' {
          value := value + ['"'];
          i := i + 1;
          assert rest[2..] == line[i + 1..];
        } else {
          inQuotes := !inQuotes;
        }
      } else if c == ',' && !inQuotes {
        values := values + [Strings.Trim(value)];
        value := "";
      } else {
        value := value + [c];
      }
      i := i + 1;
      assert rest[1..] == line[i..] || rest[2..] == line[i..];
    }
    assert line[i..] == [];
    values := values + [Strings.Trim(value)];
  }

  // ----- Round trip

  /** The next character, if any, is not a quote. */
  predicate NoQuoteNext(rest: string) { rest == [] || rest[0] != '"' }

  lemma {:induction false} ScanPlain(p: Parser, text: string, rest: string)
    requires !p.inQuotes && '"' !in text && ',' !in text
    ensures Scan(p, text + rest) == Scan(p.(value := p.value + text), rest)
    decreases |text|
  {
    if text == [] {
      assert text + rest == rest && p.value + text == p.value;
    } else {
      assert (text + rest)[0] == text[0] && (text + rest)[1..] == text[1..] + rest;
      ScanPlain(p.(value := p.value + [text[0]]), text[1..], rest);
      assert p.value + [text[0]] + text[1..] == p.value + text;
    }
  }

  lemma {:induction false} ScanQuoted(p: Parser, text: string, rest: string)
    requires p.inQuotes && NoQuoteNext(rest)
    ensures Scan(p, Doubled(text) + ['"'] + rest) == Scan(Parser(p.values, p.value + text, false), rest)
    decreases |text|
  {
    var s := Doubled(text) + ['"'] + rest;
    if text == [] {
      assert s == ['"'] + rest && p.value + text == p.value;
      ScanCloses(p, rest);
    } else {
      var s' := Doubled(text[1..]) + ['"'] + rest;
      var p' := p.(value := p.value + [text[0]]);
      ScanQuoted(p', text[1..], rest);
      assert p'.value + text[1..] == p.value + text;
      if text[0] == '"' {
        assert s == ['"', '"'] + s';
        ScanPair(p, s');
      } else {
        assert s == [text[0]] + s';
        ScanInside(p, text[0], s');
      }
    }
  }

  lemma ScanOpens(p: Parser, rest: string)
    requires !p.inQuotes
    ensures Scan(p, ['"'] + rest) == Scan(p.(inQuotes := true), rest)
  {
    assert (['"'] + rest)[1..] == rest;
  }

  lemma ScanCloses(p: Parser, rest: string)
    requires p.inQuotes && NoQuoteNext(rest)
    ensures Scan(p, ['"'] + rest) == Scan(p.(inQuotes := false), rest)
  {
    assert (['"'] + rest)[1..] == rest;
  }

  lemma ScanPair(p: Parser, rest: string)
    requires p.inQuotes
    ensures Scan(p, ['"', '"'] + rest) == Scan(p.(value := p.value + ['"']), rest)
  {
    assert (['"', '"'] + rest)[2..] == rest;
  }

  lemma ScanInside(p: Parser, c: char, rest: string)
    requires p.inQuotes && c != '"'
    ensures Scan(p, [c] + rest) == Scan(p.(value := p.value + [c]), rest)
  {
    assert ([c] + rest)[1..] == rest;
  }

  /** A printed field is read back, up to the separator. */
  lemma ScanField(p: Parser, field: string, rest: string)
    requires !p.inQuotes && p.value == [] && NoQuoteNext(rest)
    ensures Scan(p, EscapeCsv(field) + rest) == Scan(p.(value := field), rest)
  {
    assert p.value + field == field;
    if NeedsQuotes(field) {
      var inner := Doubled(field) + ['"'] + rest;
      assert EscapeCsv(field) + rest == ['"'] + inner;
      ScanOpens(p, inner);
      ScanQuoted(p.(inQuotes := true), field, rest);
    } else {
      ScanPlain(p, field, rest);
    }
  }

  lemma ScanComma(p: Parser, rest: string)
    requires !p.inQuotes
    ensures Scan(p, [','] + rest) == Scan(Parser(p.values + [Strings.Trim(p.value)], [], false), rest)
  {
    assert ([','] + rest)[1..] == rest;
  }

  lemma JoinCons(fields: seq<string>)
    requires |fields| > 1
    ensures Join(fields) == EscapeCsv(fields[0]) + ([','] + Join(fields[1..]))
  {
  }

  lemma TrimCons(values: seq<string>, fields: seq<string>)
    requires fields != []
    ensures values + Map(Strings.Trim, fields) == values + [Strings.Trim(fields[0])] + Map(Strings.Trim, fields[1..])
  {
    MapCons(Strings.Trim, fields[0], fields[1..]);
    assert fields == [fields[0]] + fields[1..];
  }

  lemma {:induction false} ScanJoin(p: Parser, fields: seq<string>)
    requires !p.inQuotes && p.value == [] && fields != []
    ensures Finish(Scan(p, Join(fields))) == p.values + Map(Strings.Trim, fields)
    decreases |fields|
  {
    var f := fields[0];
    if |fields| == 1 {
      ScanField(p, f, []);
      assert EscapeCsv(f) + [] == EscapeCsv(f);
      assert Map(Strings.Trim, fields) == [Strings.Trim(f)];
    } else {
      JoinCons(fields);
      ScanField(p, f, [','] + Join(fields[1..]));
      ScanComma(p.(value := f), Join(fields[1..]));
      var p' := Parser(p.values + [Strings.Trim(f)], [], false);
      ScanJoin(p', fields[1..]);
      TrimCons(p.values, fields);
    }
  }

  /** Every non-empty list of fields comes back trimmed, whatever quotes, commas and line breaks they hold. */
  lemma RoundTrip(fields: seq<string>)
    requires fields != []
    ensures Fields(Join(fields)) == Map(Strings.Trim, fields)
    ensures Fields(Join(fields)) == fields <==> forall i :: 0 <= i < |fields| ==> Strings.Trim(fields[i]) == fields[i]
  {
    ScanJoin(Begin, fields);
    assert Begin.values + Map(Strings.Trim, fields) == Map(Strings.Trim, fields);
  }

  /** The trimmed fields come back if and only if there is a field: nothing printed reads as one empty field. */
  lemma TrimmedFieldsComeBackIff(fields: seq<string>)
    ensures Fields(Join(fields)) == Map(Strings.Trim, fields) <==> fields != []
  {
    if fields == [] {
      assert Fields(Join(fields)) == [""] && Map(Strings.Trim, fields) == [];
    } else {
      RoundTrip(fields);
    }
  }

  /** Two lists that print alike are alike once trimmed. */
  lemma PrintingKeepsApart(a: seq<string>, b: seq<string>)
    requires a != [] && b != [] && Join(a) == Join(b)
    ensures Map(Strings.Trim, a) == Map(Strings.Trim, b)
  {
    RoundTrip(a);
    RoundTrip(b);
  }
}
