/**
 Splitting and formatting command lines (apps/control-center/src/command-line.ts).
 Characters are Unicode scalar values, as `for ... of` iterates them.
 */
module CommandLine {
  import opened Text

  datatype Result = Tokens(tokens: seq<string>) | UnfinishedEscape | UnfinishedQuote

  /** The variables of the splitting loop. */
  datatype Scan = Scan(tokens: seq<string>, current: string, quote: Option<char>, escaping: bool, started: bool)

  const INITIAL := Scan([], "", None, false, false)

  predicate IsSpace(c: char) { ScriptSpace(c as int) }

  /** One iteration of the loop in `splitCommandLine`. */
  function Step(s: Scan, c: char): Scan {
    if s.escaping then s.(current := s.current + [c], escaping := false, started := true)
    else if c == '\\' then s.(escaping := true, started := true)
    else if s.quote.Some? then
      if c == s.quote.value then s.(quote := None, started := true)
      else s.(current := s.current + [c], started := true)
    else if c == '\'' || c == '"' then s.(quote := Some(c), started := true)
    else if IsSpace(c) then
      if s.started then s.(tokens := s.tokens + [s.current], current := "", started := false) else s
    else s.(current := s.current + [c], started := true)
  }

  function ScanAll(s: Scan, input: string): Scan
    decreases |input|
  {
    if input == "" then s else ScanAll(Step(s, input[0]), input[1..])
  }

  function Finish(s: Scan): Result {
    if s.escaping then UnfinishedEscape
    else if s.quote.Some? then UnfinishedQuote
    else Tokens(if s.started then s.tokens + [s.current] else s.tokens)
  }

  /** `splitCommandLine`. */
  method SplitCommandLine(input: string) returns (r: Result)
    ensures r == Finish(ScanAll(INITIAL, input))
  {
    var tokens: seq<string>, current: string, quote: Option<char> := [], "", None;
    var escaping, started := false, false;
    for i := 0 to |input|
      invariant ScanAll(Scan(tokens, current, quote, escaping, started), input[i..]) == ScanAll(INITIAL, input)
    {
      var c := input[i];
      assert input[i..][0] == c && input[i..][1..] == input[i + 1..];
      if escaping {
        current, escaping, started := current + [c], false, true;
        continue;
      }
      if c == '\\' {
        escaping, started := true, true;
        continue;
      }
      if quote.Some? {
        if c == quote.value {
          quote := None;
        } else {
          current := current + [c];
        }
        started := true;
        continue;
      }
      if c == '\'' || c == '"' {
        quote, started := Some(c), true;
        continue;
      }
      if IsSpace(c) {
        if started { tokens, current, started := tokens + [current], "", false; }
        continue;
      }
      current, started := current + [c], true;
    }
    if escaping { return UnfinishedEscape; }
    if quote.Some? { return UnfinishedQuote; }
    if started { tokens := tokens + [current]; }
    r := Tokens(tokens);
  }

  // ---- formatting ----

  /** The class `[A-Za-z0-9_./:=@%+-]`. */
  predicate IsPlain(c: char) {
    'A' <= c <= 'Z' || 'a' <= c <= 'z' || '0' <= c <= '9' || c in "_./:=@%+-"
  }

  predicate AllPlain(s: string) { forall i :: 0 <= i < |s| ==> IsPlain(s[i]) }

  predicate NeedsEscape(c: char) { c == '"' || c == '\\' || c == '$' || c == '`' }

  function Escape(s: string): string {
    if s == "" then ""
    else (if NeedsEscape(s[0]) then ['\\', s[0]] else [s[0]]) + Escape(s[1..])
  }

  function FormatPart(part: string): string {
    if part == "" then "\"\""
    else if AllPlain(part) then part
    else "\"" + Escape(part) + "\""
  }

  function Joined(parts: seq<string>): string {
    if parts == [] then ""
    else if |parts| == 1 then FormatPart(parts[0])
    else FormatPart(parts[0]) + " " + Joined(parts[1..])
  }

  function TrimStart(s: string): string {
    if s != "" && IsSpace(s[0]) then TrimStart(s[1..]) else s
  }

  function TrimEnd(s: string): string {
    if s != "" && IsSpace(s[|s| - 1]) then TrimEnd(s[..|s| - 1]) else s
  }

  /** `formatCommandLine` on an array. */
  function Format(parts: seq<string>): string { TrimEnd(TrimStart(Joined(parts))) }

  /** In quotes nothing that a shell would act on stands without a backslash. */
  lemma {:induction false} EscapeGuards(s: string, i: nat)
    requires i < |Escape(s)| && Escape(s)[i] in {'$', '`', '"'}
    ensures i > 0 && Escape(s)[i - 1] == '\\'
    decreases |s|
  {
    var head := if NeedsEscape(s[0]) then ['\\', s[0]] else [s[0]];
    if i < |head| {
    } else {
      EscapeGuards(s[1..], i - |head|);
      assert Escape(s)[i - 1] == Escape(s[1..])[i - |head| - 1];
    }
  }

  /** A part is left without quotes exactly if it is made of letters, digits and these marks. */
  lemma BareExactly(part: string)
    ensures FormatPart(part) == part <==>
            part != "" && forall i :: 0 <= i < |part| ==>
              'a' <= part[i] <= 'z' || 'A' <= part[i] <= 'Z' || '0' <= part[i] <= '9' || part[i] in "_./:=@%+-"
  {
    if part != "" && !AllPlain(part) { EscapeGrows(part); }
  }

  lemma {:induction false} EscapeGrows(s: string)
    ensures |Escape(s)| >= |s|
  {
    if s == "" {
    } else {
      EscapeGrows(s[1..]);
    }
  }

  // ---- the round trip ----

  lemma {:induction false} ScanAppend(s: Scan, a: string, b: string)
    ensures ScanAll(s, a + b) == ScanAll(ScanAll(s, a), b)
    decreases |a|
  {
    if a == "" {
      assert a + b == b;
    } else {
      assert (a + b)[0] == a[0] && (a + b)[1..] == a[1..] + b;
      ScanAppend(Step(s, a[0]), a[1..], b);
    }
  }

  predicate Between(s: Scan) { s.current == "" && s.quote.None? && !s.escaping && !s.started }

  lemma PlainStep(s: Scan, c: char)
    requires IsPlain(c) && s.quote.None? && !s.escaping
    ensures Step(s, c) == s.(current := s.current + [c], started := true)
  {}

  lemma {:induction false} ScanPlain(s: Scan, part: string)
    requires s.quote.None? && !s.escaping && part != "" && AllPlain(part)
    ensures ScanAll(s, part) == s.(current := s.current + part, started := true)
    decreases |part|
  {
    PlainStep(s, part[0]);
    var t := Step(s, part[0]);
    if |part| == 1 {
      assert part[1..] == "";
      assert s.current + part == s.current + [part[0]];
    } else {
      ScanPlain(t, part[1..]);
      assert s.current + part == (s.current + [part[0]]) + part[1..];
    }
  }

  lemma EscapedStep(s: Scan, c: char)
    requires s.quote == Some('"') && !s.escaping && s.started
    ensures ScanAll(s, if NeedsEscape(c) then ['\\', c] else [c]) == s.(current := s.current + [c])
  {
    assert ScanAll(Step(s, c), [c][1..]) == Step(s, c);
    var u := Step(s, '\\');
    assert ScanAll(u, [c]) == Step(u, c);
    assert ['\\', c][1..] == [c];
  }

  /** Inside double quotes the escaped text reads back as the text. */
  lemma {:induction false} ScanEscaped(s: Scan, part: string)
    requires s.quote == Some('"') && !s.escaping && s.started
    ensures ScanAll(s, Escape(part)) == s.(current := s.current + part)
    decreases |part|
  {
    if part == "" {
      assert s.current + part == s.current;
    } else {
      var c := part[0];
      var head := if NeedsEscape(c) then ['\\', c] else [c];
      var t := s.(current := s.current + [c]);
      ScanAppend(s, head, Escape(part[1..]));
      EscapedStep(s, c);
      ScanEscaped(t, part[1..]);
      assert s.current + part == (s.current + [c]) + part[1..];
    }
  }

  lemma ScanQuoted(s: Scan, body: string, text: string)
    requires Between(s)
    requires ScanAll(s.(quote := Some('"'), started := true), body) ==
             s.(quote := Some('"'), started := true, current := text)
    ensures ScanAll(s, "\"" + body + "\"") == s.(current := text, started := true)
  {
    var open := s.(quote := Some('"'), started := true);
    assert "\"" + body + "\"" == "\"" + (body + "\"");
    ScanAppend(s, "\"", body + "\"");
    assert "\""[1..] == "";
    assert ScanAll(s, "\"") == open;
    ScanAppend(open, body, "\"");
    assert ScanAll(open.(current := text), "\"") == s.(current := text, started := true);
  }

  /** Each formatted part scans to one started token holding the part. */
  lemma ScanPart(s: Scan, part: string)
    requires Between(s)
    ensures ScanAll(s, FormatPart(part)) == s.(current := part, started := true)
  {
    if part != "" && AllPlain(part) {
      ScanPlain(s, part);
      assert s.current + part == part;
    } else {
      var open := s.(quote := Some('"'), started := true);
      ScanEscaped(open, part);
      assert open.current + part == part;
      assert part == "" ==> Escape(part) == "" && "\"\"" == "\"" + "" + "\"";
      ScanQuoted(s, Escape(part), part);
    }
  }

  lemma ScanNext(s: Scan, formatted: string, part: string, rest: string)
    requires Between(s) && ScanAll(s, formatted) == s.(current := part, started := true)
    ensures ScanAll(s, formatted + " " + rest) == ScanAll(s.(tokens := s.tokens + [part]), rest)
  {
    assert formatted + " " + rest == formatted + (" " + rest);
    ScanAppend(s, formatted, " " + rest);
    assert (" " + rest)[0] == ' ' && (" " + rest)[1..] == rest;
  }

  lemma JoinedMore(parts: seq<string>)
    requires |parts| > 1
    ensures Joined(parts) == FormatPart(parts[0]) + " " + Joined(parts[1..])
    ensures parts == [parts[0]] + parts[1..]
  {}

  lemma ScanMore(s: Scan, formatted: string, part: string, rest: string, tokens: seq<string>)
    requires Between(s) && ScanAll(s, formatted) == s.(current := part, started := true)
    requires Finish(ScanAll(s.(tokens := s.tokens + [part]), rest)) == Tokens(s.tokens + [part] + tokens)
    ensures Finish(ScanAll(s, formatted + " " + rest)) == Tokens(s.tokens + ([part] + tokens))
  {
    ScanNext(s, formatted, part, rest);
    assert s.tokens + [part] + tokens == s.tokens + ([part] + tokens);
  }

  lemma ScanOnly(s: Scan, part: string)
    requires Between(s)
    ensures Finish(ScanAll(s, FormatPart(part))) == Tokens(s.tokens + [part])
  {
    ScanPart(s, part);
  }

  lemma {:induction false} ScanJoined(s: Scan, parts: seq<string>)
    requires Between(s)
    ensures Finish(ScanAll(s, Joined(parts))) == Tokens(s.tokens + parts)
    decreases |parts|
  {
    if parts == [] {
      assert s.tokens + parts == s.tokens;
    } else if |parts| == 1 {
      ScanOnly(s, parts[0]);
      assert parts == [parts[0]];
    } else {
      ScanJoined(s.(tokens := s.tokens + [parts[0]]), parts[1..]);
      ScanPart(s, parts[0]);
      ScanMore(s, FormatPart(parts[0]), parts[0], Joined(parts[1..]), parts[1..]);
      JoinedMore(parts);
    }
  }

  /** A formatted part neither starts nor ends with white space. */
  lemma PartEdges(part: string)
    ensures var f := FormatPart(part); f != "" && !IsSpace(f[0]) && !IsSpace(f[|f| - 1])
  {
    if part != "" && AllPlain(part) {
      assert IsPlain(part[0]) && IsPlain(part[|part| - 1]);
    }
  }

  lemma {:induction false} JoinedEdges(parts: seq<string>)
    requires parts != []
    ensures var f := Joined(parts); f != "" && !IsSpace(f[0]) && !IsSpace(f[|f| - 1])
    decreases |parts|
  {
    PartEdges(parts[0]);
    if |parts| == 1 {
    } else {
      JoinedEdges(parts[1..]);
      var f := FormatPart(parts[0]) + " " + Joined(parts[1..]);
      assert f[|f| - 1] == Joined(parts[1..])[|Joined(parts[1..])| - 1];
    }
  }

  /** The final `trim` never removes anything. */
  lemma TrimIsIdle(parts: seq<string>)
    ensures Format(parts) == Joined(parts)
  {
    if parts != [] { JoinedEdges(parts); }
  }

  /** Splitting a formatted command line returns the original arguments, for every list of strings. */
  lemma RoundTrip(parts: seq<string>)
    ensures Finish(ScanAll(INITIAL, Format(parts))) == Tokens(parts)
  {
    TrimIsIdle(parts);
    ScanJoined(INITIAL, parts);
    assert [] + parts == parts;
  }
}
