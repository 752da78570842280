/** The encoder of the append-only file (`encodeRespCommand`) against the request parser
    that reads the file back: round trip, and what a torn file yields. */
module RespCodec {
  import opened Text
  import opened CommandParser

  // ----- encoding ---------------------------------------------------------------------------

  function Bulk(token: string): string {
    "$" + (Show(|token|) + CRLF + (token + CRLF))
  }

  function Bulks(tokens: seq<string>): string {
    if tokens == [] then "" else Bulk(tokens[0]) + Bulks(tokens[1..])
  }

  function EncodeCommand(tokens: seq<string>): string {
    "*" + (Show(|tokens|) + CRLF + Bulks(tokens))
  }

  /** A log file: the encodings of its commands, one after the other. */
  function EncodeLog(log: seq<seq<string>>): string {
    if log == [] then "" else EncodeLog(log[..|log| - 1]) + EncodeCommand(log[|log| - 1])
  }

  /** Token lists a C++ process can hold: every size fits a signed 64-bit length line. */
  predicate Encodable(tokens: seq<string>) {
    |tokens| <= MAX_LL && forall i :: 0 <= i < |tokens| ==> |tokens[i]| <= MAX_LL
  }

  predicate EncodableLog(log: seq<seq<string>>) {
    forall i :: 0 <= i < |log| ==> Encodable(log[i])
  }

  function AsResp(log: seq<seq<string>>): (r: seq<ParsedCommand>)
    ensures |r| == |log| && forall i :: 0 <= i < |log| ==> r[i] == ParsedCommand(log[i], Resp)
  {
    seq(|log|, i requires 0 <= i < |log| => ParsedCommand(log[i], Resp))
  }

  // ----- reading one frame back ----------------------------------------------------------------

  predicate Holds(buffer: string, offset: nat, text: string) {
    offset + |text| <= |buffer| && buffer[offset..offset + |text|] == text
  }

  lemma HoldsParts(buffer: string, offset: nat, x: string, y: string)
    requires Holds(buffer, offset, x + y)
    ensures Holds(buffer, offset, x) && Holds(buffer, offset + |x|, y)
  {
    var w := buffer[offset..offset + |x + y|];
    assert w[..|x|] == x && w[|x|..] == y;
    assert buffer[offset..offset + |x|] == w[..|x|];
    assert buffer[offset + |x|..offset + |x| + |y|] == w[|x|..];
  }

  lemma {:induction false} FindCrlfAt(buffer: string, from: nat, at: nat)
    requires from <= at && at + 2 <= |buffer| && buffer[at] == '\r' && buffer[at + 1] == '\n'
    requires forall i :: from <= i < at ==> buffer[i] != '\r'
    ensures FindCrlf(buffer, from) == Some(at)
    decreases at - from
  {
    if from < at { FindCrlfAt(buffer, from + 1, at); }
  }

  lemma IntegerLineAt(buffer: string, offset: nat, n: nat)
    requires n <= MAX_LL && Holds(buffer, offset, Show(n) + CRLF)
    ensures IntegerLine(buffer, offset) == Some((n, offset + |Show(n)| + 2))
  {
    hide Show, ScanNumber;
    HoldsParts(buffer, offset, Show(n), CRLF);
    var e := offset + |Show(n)|;
    assert buffer[e] == buffer[e..e + 2][0] && buffer[e + 1] == buffer[e..e + 2][1];
    ShowHasNoLineEnd(n);
    forall i | offset <= i < e ensures buffer[i] != '\r' {
      assert buffer[i] == buffer[offset..e][i - offset];
    }
    FindCrlfAt(buffer, offset, e);
    ScanShow(n);
  }

  lemma ElementAt(buffer: string, offset: nat, token: string)
    requires |token| <= MAX_LL && Holds(buffer, offset, Bulk(token))
    ensures NextElement(buffer, offset) == Token(offset + |Bulk(token)|, token)
  {
    hide Show, IntegerLine;
    var line := Show(|token|) + CRLF;
    HoldsParts(buffer, offset, "$", line + (token + CRLF));
    assert buffer[offset] == buffer[offset..offset + 1][0];
    HoldsParts(buffer, offset + 1, line, token + CRLF);
    IntegerLineAt(buffer, offset + 1, |token|);
    var at := offset + 1 + |line|;
    HoldsParts(buffer, at, token, CRLF);
    var e := at + |token|;
    assert buffer[e] == buffer[e..e + 2][0] && buffer[e + 1] == buffer[e..e + 2][1];
  }

  lemma {:induction false} ElementsAt(buffer: string, offset: nat, tokens: seq<string>, parsed: seq<string>)
    requires Encodable(tokens) && Holds(buffer, offset, Bulks(tokens))
    ensures Elements(buffer, offset, |tokens|, parsed) == Complete(offset + |Bulks(tokens)|, parsed + tokens)
    decreases tokens
  {
    hide Bulk, NextElement;
    if tokens == [] {
      assert parsed + tokens == parsed;
    } else {
      HoldsParts(buffer, offset, Bulk(tokens[0]), Bulks(tokens[1..]));
      ElementAt(buffer, offset, tokens[0]);
      ElementsAt(buffer, offset + |Bulk(tokens[0])|, tokens[1..], parsed + [tokens[0]]);
      assert parsed + [tokens[0]] + tokens[1..] == parsed + tokens;
    }
  }

  /** An encoded command is one complete frame, whatever bytes follow it and whatever bytes
      its tokens contain; the parser returns those tokens and consumes exactly the frame. */
  lemma FrameRoundTrip(tokens: seq<string>, rest: string)
    requires Encodable(tokens)
    ensures RespFrame(EncodeCommand(tokens) + rest) == Complete(|EncodeCommand(tokens)|, tokens)
  {
    hide Show, IntegerLine, Elements, Bulks;
    var buffer := EncodeCommand(tokens) + rest;
    var line := Show(|tokens|) + CRLF;
    assert Holds(buffer, 0, "*" + (line + Bulks(tokens)));
    HoldsParts(buffer, 0, "*", line + Bulks(tokens));
    HoldsParts(buffer, 1, line, Bulks(tokens));
    IntegerLineAt(buffer, 1, |tokens|);
    ElementsAt(buffer, 1 + |line|, tokens, []);
    assert [] + tokens == tokens;
  }

  lemma ParseOneMore(tokens: seq<string>, rest: string)
    requires Encodable(tokens)
    ensures var r := ParseAvailable(rest);
            ParseAvailable(EncodeCommand(tokens) + rest) ==
            Parsed([ParsedCommand(tokens, Resp)] + r.commands, r.leftover)
  {
    hide RespFrame, Bulks, Show;
    FrameRoundTrip(tokens, rest);
    var buffer := EncodeCommand(tokens) + rest;
    assert buffer[0] == '*';
    assert buffer[|EncodeCommand(tokens)|..] == rest;
  }

  // ----- whole logs -------------------------------------------------------------------------------

  lemma IncompleteWaits(buffer: string)
    requires buffer != [] && buffer[0] == '*' && RespFrame(buffer).Incomplete?
    ensures ParseAvailable(buffer) == Parsed([], buffer)
  {
    hide RespFrame;
  }

  /** A proper prefix of a frame is not a frame: had the parser accepted it, more data could
      not have changed its mind. */
  lemma TornFrameIsIncomplete(whole: string, tokens: seq<string>, n: nat)
    requires 0 < n < |whole| && RespFrame(whole) == Complete(|whole|, tokens)
    ensures RespFrame(whole[..n]).Incomplete?
  {
    hide RespFrame;
    assert whole[..n] + whole[n..] == whole;
    if RespFrame(whole[..n]).Complete? {
      RespFrameStable(whole[..n], whole[n..]);
    }
  }

  lemma TornFrameWaits(tokens: seq<string>, n: nat)
    requires Encodable(tokens) && n < |EncodeCommand(tokens)|
    ensures ParseAvailable(EncodeCommand(tokens)[..n]) == Parsed([], EncodeCommand(tokens)[..n])
  {
    assert EncodeCommand(tokens)[0] == '*';
    hide EncodeCommand, RespFrame, NextTurn;
    var whole := EncodeCommand(tokens);
    if n > 0 {
      FrameRoundTrip(tokens, "");
      assert whole + "" == whole;
      TornFrameIsIncomplete(whole, tokens, n);
      IncompleteWaits(whole[..n]);
    }
  }

  /** Round trip of a log: the parser returns exactly the logged token lists, in order. */
  lemma {:induction false} LogRoundTrip(log: seq<seq<string>>)
    requires EncodableLog(log)
    ensures ParseAvailable(EncodeLog(log)) == Parsed(AsResp(log), [])
  {
    hide EncodeCommand, ParseAvailable;
    if log == [] {
      ParseNothing();
    } else {
      var last := |log| - 1;
      LogRoundTrip(log[..last]);
      AppendRoundTrip(EncodeLog(log[..last]), AsResp(log[..last]), log[last]);
      assert AsResp(log) == AsResp(log[..last]) + [ParsedCommand(log[last], Resp)];
    }
  }

  lemma ParseNothing()
    ensures ParseAvailable("") == Parsed([], [])
  {
  }

  lemma AppendRoundTrip(file: string, commands: seq<ParsedCommand>, tokens: seq<string>)
    requires Encodable(tokens) && ParseAvailable(file) == Parsed(commands, [])
    ensures ParseAvailable(file + EncodeCommand(tokens)) == Parsed(commands + [ParsedCommand(tokens, Resp)], [])
  {
    hide EncodeCommand, ParseAvailable;
    ParseNothing();
    ParseOneMore(tokens, "");
    var frame := EncodeCommand(tokens);
    assert frame + "" == frame && [] + frame == frame;
    ChunkInvariance(file, frame);
  }

  /** How many commands of `log` lie wholly within the first `n` bytes of its encoding. */
  function WholeCommands(log: seq<seq<string>>, n: nat): nat {
    if log == [] then 0
    else if n >= |EncodeLog(log)| then |log|
    else WholeCommands(log[..|log| - 1], n)
  }

  lemma {:induction false} WholeCommandsHolds(log: seq<seq<string>>, n: nat)
    ensures WholeCommands(log, n) <= |log|
    ensures var k := WholeCommands(log, n);
            && (|EncodeLog(log[..k])| <= n)
            && (k < |log| ==> n < |EncodeLog(log[..k + 1])|)
  {
    hide EncodeCommand;
    if log == [] {
      assert log[..0] == [];
    } else if n >= |EncodeLog(log)| {
      assert log[..|log|] == log;
    } else {
      var front := log[..|log| - 1];
      WholeCommandsHolds(front, n);
      var k := WholeCommands(front, n);
      assert front[..k] == log[..k];
      if k < |front| {
        assert front[..k + 1] == log[..k + 1];
      } else {
        assert log[..k + 1] == log;
      }
    }
  }

  /** Encodings of prefixes are prefixes of encodings. */
  lemma {:induction false} EncodeLogPrefix(log: seq<seq<string>>, k: nat)
    requires k <= |log|
    ensures |EncodeLog(log[..k])| <= |EncodeLog(log)| && EncodeLog(log)[..|EncodeLog(log[..k])|] == EncodeLog(log[..k])
  {
    hide EncodeCommand;
    if k == |log| {
      assert log[..k] == log;
    } else {
      var front := log[..|log| - 1];
      EncodeLogPrefix(front, k);
      assert front[..k] == log[..k];
      assert EncodeLog(log)[..|EncodeLog(front)|] == EncodeLog(front);
      var size := |EncodeLog(log[..k])|;
      assert EncodeLog(log)[..size] == EncodeLog(log)[..|EncodeLog(front)|][..size];
    }
  }

  /** Torn logs: of any byte prefix of a log, the parser returns exactly the commands whose
      frames are complete, and leaves the partial frame. */
  lemma TornLog(log: seq<seq<string>>, n: nat)
    requires EncodableLog(log) && n <= |EncodeLog(log)|
    ensures var k := WholeCommands(log, n);
            && k <= |log|
            && |EncodeLog(log[..k])| <= n
            && ParseAvailable(EncodeLog(log)[..n]) ==
               Parsed(AsResp(log[..k]), EncodeLog(log)[|EncodeLog(log[..k])|..n])
  {
    hide EncodeCommand, ParseAvailable;
    WholeCommandsHolds(log, n);
    var k := WholeCommands(log, n);
    var done := EncodeLog(log[..k]);
    EncodeLogPrefix(log, k);
    LogRoundTrip(log[..k]);
    var torn := EncodeLog(log)[|done|..n];
    assert EncodeLog(log)[..n] == done + torn;
    ChunkInvariance(done, torn);
    assert [] + torn == torn;
    TornTailWaits(log, k, n);
  }

  lemma TornTailWaits(log: seq<seq<string>>, k: nat, n: nat)
    requires EncodableLog(log) && k <= |log| && |EncodeLog(log[..k])| <= n <= |EncodeLog(log)|
    requires k < |log| ==> n < |EncodeLog(log[..k + 1])|
    ensures var torn := EncodeLog(log)[|EncodeLog(log[..k])|..n]; ParseAvailable(torn) == Parsed([], torn)
  {
    hide EncodeCommand, ParseAvailable;
    var done := EncodeLog(log[..k]);
    if k == |log| {
      assert log[..k] == log;
      assert EncodeLog(log)[|done|..n] == "";
      ParseNothing();
    } else {
      EncodeLogPrefix(log, k + 1);
      assert log[..k + 1][..k] == log[..k];
      var upTo := EncodeLog(log[..k + 1]);
      var frame := EncodeCommand(log[k]);
      assert upTo == done + frame;
      SliceOfPrefix(EncodeLog(log), |done|, n, |upTo|);
      assert upTo[|done|..n] == frame[..n - |done|];
      TornFrameWaits(log[k], n - |done|);
    }
  }

  // ----- the encoder of the source --------------------------------------------------------------------

  /** `encodeRespCommand`. */
  method EncodeRespCommand(tokens: seq<string>) returns (encoded: string)
    ensures encoded == EncodeCommand(tokens)
  {
    hide Show;
    encoded := "*" + Show(|tokens|) + "\r\n";
    var i := 0;
    while i < |tokens|
      invariant i <= |tokens|
      invariant encoded + Bulks(tokens[i..]) == EncodeCommand(tokens)
    {
      BulksStep(encoded, tokens, i);
      encoded := encoded + "$" + Show(|tokens[i]|) + "\r\n";
      encoded := encoded + tokens[i];
      encoded := encoded + "\r\n";
      i := i + 1;
    }
    assert encoded == encoded + Bulks([]);
  }

  lemma BulksStep(encoded: string, tokens: seq<string>, i: nat)
    requires i < |tokens|
    ensures encoded + Bulks(tokens[i..]) ==
            encoded + "$" + Show(|tokens[i]|) + "\r\n" + tokens[i] + "\r\n" + Bulks(tokens[i + 1..])
  {
    hide Show;
    assert tokens[i..][1..] == tokens[i + 1..];
    var tail := Bulks(tokens[i + 1..]);
    assert encoded + (Bulk(tokens[i]) + tail) ==
           encoded + "$" + Show(|tokens[i]|) + "\r\n" + tokens[i] + "\r\n" + tail;
  }
}
