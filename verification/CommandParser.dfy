/** The incremental request parser (`CommandParser`): inline lines and RESP frames taken
    from the front of a byte buffer that grows as data arrives. */
module CommandParser {
  import opened Text

  datatype Protocol = Inline | Resp

  datatype ParsedCommand = ParsedCommand(tokens: seq<string>, protocol: Protocol)

  /** One RESP frame at the front of a buffer: not all there yet, or its size and tokens. */
  datatype Frame = Incomplete | Complete(consumed: nat, tokens: seq<string>)

  /** One turn of the parsing loop: the bytes it removes and the commands it yields. */
  datatype Turn = Waiting | Took(consumed: nat, commands: seq<ParsedCommand>)

  datatype Parsed = Parsed(commands: seq<ParsedCommand>, leftover: string)

  // ----- specification ------------------------------------------------------------------

  /** Position of the first CR LF at or after `from`. */
  function FindCrlf(buffer: string, from: nat): (r: Option<nat>)
    ensures r.Some? ==> from <= r.value && r.value + 2 <= |buffer|
    decreases |buffer| - from
  {
    if from + 2 > |buffer| then None
    else if buffer[from] == '\r' && buffer[from + 1] == '\n' then Some(from)
    else FindCrlf(buffer, from + 1)
  }

  function FindNewline(buffer: string, from: nat): (r: Option<nat>)
    ensures r.Some? ==> from <= r.value < |buffer| && buffer[r.value] == '\n'
    decreases |buffer| - from
  {
    if from >= |buffer| then None
    else if buffer[from] == '\n' then Some(from)
    else FindNewline(buffer, from + 1)
  }

  /** The value of one length line: `strtoll` on it as a C string, -1 unless it stops at the
      terminating NUL (an embedded NUL byte ends the C string as well). */
  function LineValue(raw: string): int {
    var n := ScanNumber(raw);
    if n.None? || (n.value.end < |raw| && raw[n.value.end] != '\0') then -1
    else Saturate(SignedValue(n.value))
  }

  /** `parseIntegerLine`: the value and the offset after the line, once its CR LF is there. */
  function IntegerLine(buffer: string, offset: nat): (r: Option<(int, nat)>)
    ensures r.Some? ==> offset + 2 <= r.value.1 <= |buffer|
  {
    var lineEnd := FindCrlf(buffer, offset);
    if lineEnd.None? then None
    else Some((LineValue(buffer[offset..lineEnd.value]), lineEnd.value + 2))
  }

  /** One `$`-element: not all there, malformed (the frame ends here), or a token. */
  datatype Element = Partial | Malformed(consumed: nat) | Token(next: nat, token: string)

  function NextElement(buffer: string, offset: nat): (e: Element)
    ensures e.Malformed? && offset <= |buffer| ==> 0 < e.consumed <= |buffer|
    ensures e.Token? && offset <= |buffer| ==> offset < e.next <= |buffer|
  {
    if offset >= |buffer| then Partial
    else if buffer[offset] != '$' then Malformed(offset + 1)
    else
      var length := IntegerLine(buffer, offset + 1);
      if length.None? then Partial
      else
        var at, size := length.value.1, length.value.0;
        if size < 0 then Token(at, "")
        else if |buffer| < at + size + 2 then Partial
        else if buffer[at + size] != '\r' || buffer[at + size + 1] != '\n' then Malformed(at + size)
        else Token(at + size + 2, buffer[at..at + size])
  }

  /** The element loop of `parseRespFrame` with `remaining` elements still to read. */
  function Elements(buffer: string, offset: nat, remaining: int, parsed: seq<string>): (f: Frame)
    ensures f.Complete? && 0 < offset <= |buffer| ==> 0 < f.consumed <= |buffer|
    decreases remaining
  {
    if remaining <= 0 then Complete(offset, parsed)
    else
      match NextElement(buffer, offset)
      case Partial => Incomplete
      case Malformed(consumed) => Complete(consumed, [])
      case Token(next, token) => Elements(buffer, next, remaining - 1, parsed + [token])
  }

  /** `parseRespFrame`, for a buffer that starts with an asterisk. */
  function RespFrame(buffer: string): (f: Frame)
    requires buffer != []
    ensures f.Complete? ==> 0 < f.consumed <= |buffer|
  {
    var count := IntegerLine(buffer, 1);
    if count.None? then Incomplete
    else if count.value.0 < 0 then Complete(count.value.1, [])
    else Elements(buffer, count.value.1, count.value.0, [])
  }

  /** `trimLineEnding`: drops every CR and LF at the end. */
  function TrimLineEnding(line: string): string {
    if line != [] && (line[|line| - 1] == '\n' || line[|line| - 1] == '\r')
    then TrimLineEnding(line[..|line| - 1])
    else line
  }

  function SkipWord(line: string, i: nat): (j: nat)
    requires i <= |line|
    ensures i <= j <= |line|
    ensures i < |line| && !IsSpace(line[i]) ==> i < j
    decreases |line| - i
  {
    if i < |line| && !IsSpace(line[i]) then SkipWord(line, i + 1) else i
  }

  /** The words of `line` from `i` on, as `stream >> token` extracts them. */
  function Words(line: string, i: nat): seq<string>
    requires i <= |line|
    decreases |line| - i
  {
    var start := SkipSpaces(line, i);
    SkipSpacesStops(line, i);
    if start == |line| then []
    else [line[start..SkipWord(line, start)]] + Words(line, SkipWord(line, start))
  }

  lemma SkipSpacesStops(line: string, i: nat)
    requires i <= |line|
    ensures SkipSpaces(line, i) < |line| ==> !IsSpace(line[SkipSpaces(line, i)])
    decreases |line| - i
  {
  }

  /** One iteration of the loop in `parseAvailable`. */
  function NextTurn(buffer: string): (t: Turn)
    requires buffer != []
    ensures t.Took? ==> 0 < t.consumed <= |buffer|
  {
    if buffer[0] == '*' then
      var f := RespFrame(buffer);
      if f.Incomplete? then Waiting
      else Took(f.consumed, [ParsedCommand(f.tokens, Resp)])
    else
      var newline := FindNewline(buffer, 0);
      if newline.None? then Waiting
      else
        var line := TrimLineEnding(buffer[..newline.value + 1]);
        Took(newline.value + 1, if line == [] then [] else [ParsedCommand(Words(line, 0), Inline)])
  }

  /** `parseAvailable`: every complete command, and the bytes left in the buffer. */
  function ParseAvailable(buffer: string): (r: Parsed)
    decreases |buffer|
  {
    if buffer == [] then Parsed([], [])
    else
      var t := NextTurn(buffer);
      if t.Waiting? then Parsed([], buffer)
      else
        var rest := ParseAvailable(buffer[t.consumed..]);
        Parsed(t.commands + rest.commands, rest.leftover)
  }

  // ----- more data never changes what was already decided ---------------------------------

  lemma {:induction false} FindCrlfStable(a: string, b: string, from: nat)
    requires FindCrlf(a, from).Some?
    ensures FindCrlf(a + b, from) == FindCrlf(a, from)
    decreases |a| - from
  {
    if !(a[from] == '\r' && a[from + 1] == '\n') { FindCrlfStable(a, b, from + 1); }
  }

  lemma {:induction false} FindNewlineStable(a: string, b: string, from: nat)
    requires FindNewline(a, from).Some?
    ensures FindNewline(a + b, from) == FindNewline(a, from)
    decreases |a| - from
  {
    if a[from] != '\n' { FindNewlineStable(a, b, from + 1); }
  }

  lemma {:induction false} FindNewlineAt(s: string, rest: string, from: nat)
    requires '\n' !in s && from <= |s|
    ensures FindNewline(s + NL + rest, from) == Some(|s|)
    decreases |s| - from
  {
    var all := s + NL + rest;
    if from < |s| {
      assert all[from] == s[from];
      FindNewlineAt(s, rest, from + 1);
    } else {
      assert all[from] == '\n';
    }
  }

  lemma IntegerLineStable(a: string, b: string, offset: nat)
    requires IntegerLine(a, offset).Some?
    ensures IntegerLine(a + b, offset) == IntegerLine(a, offset)
  {
    FindCrlfStable(a, b, offset);
    var e := FindCrlf(a, offset).value;
    assert (a + b)[offset..e] == a[offset..e];
  }

  lemma NextElementStable(a: string, b: string, offset: nat)
    requires !NextElement(a, offset).Partial?
    ensures NextElement(a + b, offset) == NextElement(a, offset)
  {
    if a[offset] == '$' {
      IntegerLineStable(a, b, offset + 1);
      var length := IntegerLine(a, offset + 1);
      var at, size := length.value.1, length.value.0;
      if size >= 0 { assert (a + b)[at..at + size] == a[at..at + size]; }
    }
  }

  lemma {:induction false} ElementsStable(a: string, b: string, offset: nat, remaining: int, parsed: seq<string>)
    requires Elements(a, offset, remaining, parsed).Complete?
    ensures Elements(a + b, offset, remaining, parsed) == Elements(a, offset, remaining, parsed)
    decreases remaining
  {
    hide NextElement;
    if remaining > 0 {
      NextElementStable(a, b, offset);
      var e := NextElement(a, offset);
      if e.Token? { ElementsStable(a, b, e.next, remaining - 1, parsed + [e.token]); }
    }
  }

  lemma RespFrameStable(a: string, b: string)
    requires a != [] && RespFrame(a).Complete?
    ensures RespFrame(a + b) == RespFrame(a)
  {
    IntegerLineStable(a, b, 1);
    var count := IntegerLine(a, 1);
    if count.value.0 >= 0 { ElementsStable(a, b, count.value.1, count.value.0, []); }
  }

  lemma NextTurnStable(a: string, b: string)
    requires a != [] && NextTurn(a).Took?
    ensures NextTurn(a + b) == NextTurn(a)
  {
    if a[0] == '*' {
      RespFrameStable(a, b);
    } else {
      FindNewlineStable(a, b, 0);
      var n := FindNewline(a, 0).value;
      assert (a + b)[..n + 1] == a[..n + 1];
    }
  }

  /** Parsing what has arrived and then the leftover with more data appended gives the same
      commands and leftover as parsing everything at once. */
  lemma {:induction false} ChunkInvariance(a: string, b: string)
    ensures var first := ParseAvailable(a);
            var second := ParseAvailable(first.leftover + b);
            ParseAvailable(a + b) == Parsed(first.commands + second.commands, second.leftover)
    decreases |a|
  {
    if a == [] {
      assert a + b == b;
    } else if NextTurn(a).Took? {
      NextTurnStable(a, b);
      var t := NextTurn(a);
      assert (a + b)[t.consumed..] == a[t.consumed..] + b;
      ChunkInvariance(a[t.consumed..], b);
      var rest := ParseAvailable(a[t.consumed..]);
      var second := ParseAvailable(rest.leftover + b);
      assert ParseAvailable(a + b).commands == t.commands + (rest.commands + second.commands);
      assert t.commands + (rest.commands + second.commands) == (t.commands + rest.commands) + second.commands;
    }
  }

  function Concat(chunks: seq<string>): string {
    if chunks == [] then [] else Concat(chunks[..|chunks| - 1]) + chunks[|chunks| - 1]
  }

  /** The receive loop of a connection: append each chunk to `pending`, parse, keep the rest. */
  function Feed(chunks: seq<string>): Parsed {
    if chunks == [] then Parsed([], [])
    else
      var before := Feed(chunks[..|chunks| - 1]);
      var now := ParseAvailable(before.leftover + chunks[|chunks| - 1]);
      Parsed(before.commands + now.commands, now.leftover)
  }

  /** However the network cuts a byte stream into chunks, the commands read from it and the
      bytes still pending are those of the whole stream. */
  lemma {:induction false} FeedIsParse(chunks: seq<string>)
    ensures Feed(chunks) == ParseAvailable(Concat(chunks))
  {
    if chunks != [] {
      FeedIsParse(chunks[..|chunks| - 1]);
      ChunkInvariance(Concat(chunks[..|chunks| - 1]), chunks[|chunks| - 1]);
    }
  }

  /** The leftover is always a suffix of the input, and holds nothing that could still be
      parsed; every turn before it consumed at least one byte and at most the whole buffer. */
  lemma {:induction false} LeftoverIsFinal(buffer: string)
    ensures var r := ParseAvailable(buffer);
            && |r.leftover| <= |buffer|
            && r.leftover == buffer[|buffer| - |r.leftover|..]
            && ParseAvailable(r.leftover) == Parsed([], r.leftover)
    decreases |buffer|
  {
    if buffer != [] && NextTurn(buffer).Took? {
      LeftoverIsFinal(buffer[NextTurn(buffer).consumed..]);
    }
  }

  // ----- the loops of the source -------------------------------------------------------------

  /** `parseIntegerLine`, with `offset` and `value` passed back. */
  method ParseIntegerLine(buffer: string, offset: nat) returns (ok: bool, value: int, next: nat)
    ensures ok == IntegerLine(buffer, offset).Some?
    ensures ok ==> (value, next) == IntegerLine(buffer, offset).value
    ensures !ok ==> next == offset
  {
    var lineEnd := offset;
    while lineEnd + 2 <= |buffer| && !(buffer[lineEnd] == '\r' && buffer[lineEnd + 1] == '\n')
      invariant offset <= lineEnd
      invariant FindCrlf(buffer, offset) == FindCrlf(buffer, lineEnd)
    {
      lineEnd := lineEnd + 1;
    }
    if lineEnd + 2 > |buffer| {
      return false, 0, offset;
    }
    var raw := buffer[offset..lineEnd];
    var n := ScanNumber(raw);
    value := if n.None? then 0 else Saturate(SignedValue(n.value));
    if n.None? || (n.value.end < |raw| && raw[n.value.end] != '\0') {
      value := -1;
    }
    return true, value, lineEnd + 2;
  }

  /** The body of the element loop of `parseRespFrame`. */
  method ParseElement(buffer: string, offset: nat) returns (e: Element)
    ensures e == NextElement(buffer, offset)
  {
    hide IntegerLine;
    if offset >= |buffer| {
      return Partial;
    }
    if buffer[offset] != '$' {
      return Malformed(offset + 1);
    }
    var ok, bulkLength, at := ParseIntegerLine(buffer, offset + 1);
    if !ok {
      return Partial;
    }
    if bulkLength < 0 {
      return Token(at, "");
    }
    if |buffer| < at + bulkLength + 2 {
      return Partial;
    }
    if buffer[at + bulkLength] != '\r' || buffer[at + bulkLength + 1] != '\n' {
      return Malformed(at + bulkLength);
    }
    return Token(at + bulkLength + 2, buffer[at..at + bulkLength]);
  }

  /** `parseRespFrame`. */
  method ParseRespFrame(buffer: string) returns (f: Frame)
    requires buffer != []
    ensures f == RespFrame(buffer)
  {
    hide IntegerLine, NextElement;
    var ok, elementCount, offset := ParseIntegerLine(buffer, 1);
    if !ok {
      return Incomplete;
    }
    if elementCount < 0 {
      return Complete(offset, []);
    }
    var parsed: seq<string> := [];
    var i := 0;
    while i < elementCount
      invariant 0 <= i <= elementCount && 0 <= offset
      invariant RespFrame(buffer) == Elements(buffer, offset, elementCount - i, parsed)
    {
      var e := ParseElement(buffer, offset);
      match e {
        case Partial => return Incomplete;
        case Malformed(consumed) => return Complete(consumed, []);
        case Token(next, token) =>
          parsed := parsed + [token];
          offset := next;
      }
      i := i + 1;
    }
    return Complete(offset, parsed);
  }

  /** `parse`: the words of one inline line. */
  method ParseLine(line: string) returns (tokens: seq<string>)
    ensures tokens == Words(line, 0)
  {
    tokens := [];
    var i := SkipSpaces(line, 0);
    SkipSpacesStops(line, 0);
    while i < |line|
      invariant i <= |line| && (i < |line| ==> !IsSpace(line[i]))
      invariant Words(line, 0) == tokens + Words(line, i)
    {
      var e := SkipWord(line, i);
      assert SkipSpaces(line, i) == i;
      tokens := tokens + [line[i..e]];
      SkipSpacesTwice(line, e);
      SkipSpacesStops(line, e);
      i := SkipSpaces(line, e);
    }
  }

  lemma SkipSpacesTwice(line: string, i: nat)
    requires i <= |line|
    ensures Words(line, SkipSpaces(line, i)) == Words(line, i)
  {
    SkipSpacesStops(line, i);
    assert SkipSpaces(line, SkipSpaces(line, i)) == SkipSpaces(line, i);
  }

  /** The inline branch of `parseAvailable`: the words of a line, unless it is blank. */
  method ParseInline(raw: string) returns (commands: seq<ParsedCommand>)
    ensures var line := TrimLineEnding(raw);
            commands == if line == [] then [] else [ParsedCommand(Words(line, 0), Inline)]
  {
    var line := raw;
    while line != [] && (line[|line| - 1] == '\n' || line[|line| - 1] == '\r')
      invariant TrimLineEnding(line) == TrimLineEnding(raw)
    {
      line := line[..|line| - 1];
    }
    commands := [];
    if line != [] {
      var tokens := ParseLine(line);
      commands := [ParsedCommand(tokens, Inline)];
    }
  }

  /** `parseAvailable`, which erases what it consumes from the front of the caller's buffer. */
  method ParseBuffer(buffer: string) returns (commands: seq<ParsedCommand>, leftover: string)
    ensures Parsed(commands, leftover) == ParseAvailable(buffer)
  {
    commands, leftover := [], buffer;
    while leftover != []
      invariant ParseAvailable(buffer) == After(commands, ParseAvailable(leftover))
      decreases |leftover|
    {
      var consumed, found;
      if leftover[0] == '*' {
        var f := ParseRespFrame(leftover);
        if f.Incomplete? {
          break;
        }
        consumed, found := f.consumed, [ParsedCommand(f.tokens, Resp)];
      } else {
        var newline := FindNewline(leftover, 0);
        if newline.None? {
          break;
        }
        consumed := newline.value + 1;
        found := ParseInline(leftover[..consumed]);
      }
      AfterTurn(commands, leftover, consumed, found);
      commands := commands + found;
      leftover := leftover[consumed..];
    }
  }

  function After(commands: seq<ParsedCommand>, rest: Parsed): Parsed {
    Parsed(commands + rest.commands, rest.leftover)
  }

  lemma AfterTurn(commands: seq<ParsedCommand>, buffer: string, consumed: nat, found: seq<ParsedCommand>)
    requires buffer != [] && NextTurn(buffer) == Took(consumed, found)
    ensures After(commands, ParseAvailable(buffer)) == After(commands + found, ParseAvailable(buffer[consumed..]))
  {
    var rest := ParseAvailable(buffer[consumed..]);
    assert commands + (found + rest.commands) == commands + found + rest.commands;
  }
}
