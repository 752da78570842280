/** Which texts are numbers: blanks, a sign or none, and digits, as `strtoll`, `stoll` and
    `stoull` read them; and what the request parser makes of a length line that is no number. */
module Numbers {
  import opened Text
  import opened CommandParser
  import opened InlineRequests

  predicate IsSign(s: string) {
    s == "" || s == "+" || s == "-"
  }

  predicate AllDigits(s: string) {
    forall i :: 0 <= i < |s| ==> IsDigit(s[i])
  }

  /** Blanks, a sign or none, at least one digit, and then something that is no digit. */
  predicate Numeral(s: string, blanks: string, sign: string, digits: string, tail: string) {
    && s == blanks + sign + digits + tail
    && AllBlank(blanks) && IsSign(sign) && digits != [] && AllDigits(digits) && (tail == [] || !IsDigit(tail[0]))
  }

  function Denoted(sign: string, digits: string): int {
    var n: int := NatOf(digits);
    if sign == "-" then -n else n
  }

  // ----- scanning --------------------------------------------------------------------------------

  lemma {:induction false} SkipsDigits(s: string, i: nat, end: nat)
    requires i <= end <= |s| && AllDigits(s[i..end]) && (end == |s| || !IsDigit(s[end]))
    ensures SkipDigits(s, i) == end
    decreases end - i
  {
    if i < end {
      assert s[i..end][0] == s[i] && s[i..end][1..] == s[i + 1..end];
      SkipsDigits(s, i + 1, end);
    }
  }

  predicate SignAt(s: string, i: nat) {
    i < |s| && (s[i] == '-' || s[i] == '+')
  }

  lemma ScanAt(s: string, i: nat, j: nat, e: nat)
    requires i <= j < e <= |s| && SkipSpaces(s, 0) == i && j == (if SignAt(s, i) then i + 1 else i) &&
             SkipDigits(s, j) == e
    ensures ScanNumber(s) == Some(Scanned(SignAt(s, i) && s[i] == '-', NatOf(s[j..e]), e))
  {
    hide NatOf;
  }

  /** Where the parts of a numeral lie. */
  lemma PartsOf(s: string, blanks: string, sign: string, digits: string, tail: string)
    requires Numeral(s, blanks, sign, digits, tail)
    ensures var i, j := |blanks|, |blanks| + |sign|;
            && j + |digits| <= |s| && s[0..i] == blanks && s[j..j + |digits|] == digits
            && (j + |digits| == |s| || !IsDigit(s[j + |digits|]))
            && s[i] == (if sign == "" then digits[0] else sign[0])
    ensures AllBlank(blanks) && IsSign(sign) && digits != [] && AllDigits(digits)
  {
    hide AllBlank, AllDigits;
    Pieces(s, blanks + sign, digits, tail);
    assert s == blanks + (sign + digits + tail);
    assert s[0..|blanks|] == blanks;
    if tail != [] { assert s[|blanks + sign| + |digits|..][0] == tail[0]; }
  }

  lemma SignIs(sign: string, c: char, digits: string)
    requires IsSign(sign) && digits != [] && AllDigits(digits) && c == (if sign == "" then digits[0] else sign[0])
    ensures !IsBlank(c) && (sign == "-" <==> c == '-') && (sign == "" <==> c != '-' && c != '+')
    ensures |sign| == if sign == "" then 0 else 1
  {
    assert IsDigit(digits[0]);
  }

  /** A numeral scans to its sign and digits, and to the end of the digits. */
  lemma ScansNumeral(s: string, blanks: string, sign: string, digits: string, tail: string)
    requires Numeral(s, blanks, sign, digits, tail)
    ensures ScanNumber(s) == Some(Scanned(sign == "-", NatOf(digits), |blanks| + |sign| + |digits|))
  {
    hide NatOf, IsBlank, AllBlank, ScanNumber, AllDigits, IsDigit, Numeral, IsSign, SkipSpaces, SkipDigits;
    PartsOf(s, blanks, sign, digits, tail);
    var i, j := |blanks|, |blanks| + |sign|;
    SignIs(sign, s[i], digits);
    SkipsBlanks(s, 0, i);
    SkipsDigits(s, j, j + |digits|);
    ScanAt(s, i, j, j + |digits|);
  }

  lemma DigitsSkipped(s: string, j: nat)
    requires j <= |s|
    ensures AllDigits(s[j..SkipDigits(s, j)])
  {
  }

  lemma FourParts(s: string, i: nat, j: nat, e: nat)
    requires i <= j <= e <= |s|
    ensures s == s[0..i] + s[i..j] + s[j..e] + s[e..]
  {
  }

  lemma SignBetween(s: string, i: nat, j: nat)
    requires i <= j <= |s| && j == (if SignAt(s, i) then i + 1 else i)
    ensures IsSign(s[i..j])
  {
    if SignAt(s, i) { assert s[i..j] == [s[i]]; }
  }

  /** And only numerals scan. */
  lemma ScannedIsNumeral(s: string) returns (blanks: string, sign: string, digits: string, tail: string)
    requires ScanNumber(s).Some?
    ensures Numeral(s, blanks, sign, digits, tail)
  {
    hide NatOf;
    var i := SkipSpaces(s, 0);
    var j := if SignAt(s, i) then i + 1 else i;
    var e := SkipDigits(s, j);
    assert j < e && (e < |s| ==> !IsDigit(s[e]));
    hide ScanNumber, SkipSpaces, SkipDigits, AllBlank, AllDigits, IsSign, IsDigit;
    BlanksSkipped(s, 0);
    SignBetween(s, i, j);
    DigitsSkipped(s, j);
    FourParts(s, i, j, e);
    blanks, sign, digits, tail := s[0..i], s[i..j], s[j..e], s[e..];
    assert tail == [] || tail[0] == s[e];
  }

  // ----- whole texts -----------------------------------------------------------------------------

  /** The text is a numeral and nothing more. */
  ghost predicate IntegerText(s: string, n: int) {
    exists blanks, sign, digits :: Numeral(s, blanks, sign, digits, "") && n == Denoted(sign, digits)
  }

  lemma IntegerTextParses(s: string, blanks: string, sign: string, digits: string)
    requires Numeral(s, blanks, sign, digits, "")
    ensures ParseInteger(s) ==
            if MIN_LL <= Denoted(sign, digits) <= MAX_LL then Some(Denoted(sign, digits)) else None
  {
    assert |s| == |blanks| + |sign| + |digits|;
    hide ScanNumber, NatOf, Numeral;
    ScansNumeral(s, blanks, sign, digits, "");
  }

  lemma ParsedIsIntegerText(s: string)
    requires ParseInteger(s).Some?
    ensures IntegerText(s, ParseInteger(s).value) && MIN_LL <= ParseInteger(s).value <= MAX_LL
  {
    var blanks, sign, digits, tail := ScannedIsNumeral(s);
    assert |s| == |blanks| + |sign| + |digits| + |tail|;
    hide ScanNumber, NatOf, Numeral;
    ScansNumeral(s, blanks, sign, digits, tail);
    assert tail == "";
    IntegerTextParses(s, blanks, sign, digits);
  }

  /** `parseInteger` accepts exactly the integers of 64 bits, blanks in front and a sign allowed,
      and nothing after the digits. */
  lemma ParseIntegerIff(s: string, n: int)
    ensures ParseInteger(s) == Some(n) <==> IntegerText(s, n) && MIN_LL <= n <= MAX_LL
  {
    hide ParseInteger, Denoted, Numeral;
    if IntegerText(s, n) {
      var blanks, sign, digits :| Numeral(s, blanks, sign, digits, "") && n == Denoted(sign, digits);
      IntegerTextParses(s, blanks, sign, digits);
    }
    if ParseInteger(s).Some? { ParsedIsIntegerText(s); }
  }

  lemma {:induction false} LeadingZero(digits: string)
    ensures NatOf("0" + digits) == NatOf(digits)
  {
    if digits == [] {
      assert "0" + digits == "0" && "0"[..0] == [];
    } else {
      var n := |digits| - 1;
      LeadingZero(digits[..n]);
      assert ("0" + digits)[..n + 1] == "0" + digits[..n];
    }
  }

  /** One more digit is worth its own value, and makes the others worth ten times as much. */
  lemma OneMoreDigit(digits: string, d: nat)
    requires d < 10
    ensures NatOf(digits + [DigitChar(d)]) == 10 * NatOf(digits) + d
  {
    assert (digits + [DigitChar(d)])[..|digits|] == digits;
  }

  /** The value of a length line: the number, cut off at 64 bits, if nothing follows it or a NUL
      byte does; -1 for anything else. */
  lemma LineValueOf(s: string, blanks: string, sign: string, digits: string, tail: string)
    requires Numeral(s, blanks, sign, digits, tail)
    ensures LineValue(s) ==
            if tail != [] && tail[0] != '\0' then -1
            else if Denoted(sign, digits) > MAX_LL then MAX_LL
            else if Denoted(sign, digits) < MIN_LL then MIN_LL
            else Denoted(sign, digits)
  {
    PartsOf(s, blanks, sign, digits, tail);
    assert |s| == |blanks| + |sign| + |digits| + |tail|;
    assert tail != [] ==> s[|blanks + sign + digits|] == tail[0];
    hide ScanNumber, NatOf, Numeral;
    ScansNumeral(s, blanks, sign, digits, tail);
  }

  /** The text of a number: digits without a needless zero in front, and a minus sign if it is
      negative. */
  lemma ShowIsCanonical(n: nat)
    ensures Show(n) != [] && AllDigits(Show(n)) && NatOf(Show(n)) == n && (n > 0 ==> Show(n)[0] != '0')
    ensures n > 0 ==> Show(0 - n as int) == "-" + Show(n)
    ensures n == 0 ==> Show(n) == "0"
  {
    DecimalDenotes(n);
    if n > 0 { NoLeadingZero(n); }
  }

  lemma {:induction false} NoLeadingZero(n: nat)
    requires n > 0
    ensures Decimal(n)[0] != '0'
  {
    if n >= 10 {
      DecimalDenotes(n / 10);
      NoLeadingZero(n / 10);
    } else {
      assert DigitChar(n) != '0';
    }
  }

  /** The order of listings is the order of bytes: the first difference decides, and a prefix comes
      first. */
  lemma {:induction false} LeqIsByteOrder(a: string, b: string, k: nat)
    requires k <= |a| && k <= |b| && a[..k] == b[..k] && (k == |a| || k == |b| || a[k] != b[k])
    ensures Leq(a, b) <==> k == |a| || (k < |b| && a[k] < b[k])
    decreases k
  {
    if k > 0 {
      assert a[..k][0] == a[0] && b[..k][0] == b[0];
      assert a[..k][1..] == a[1..][..k - 1] && b[..k][1..] == b[1..][..k - 1];
      LeqIsByteOrder(a[1..], b[1..], k - 1);
    }
  }

  // ----- frames that make no sense ---------------------------------------------------------------

  lemma {:induction false} CrlfFound(before: string, line: string, rest: string, from: nat)
    requires '\r' !in line && |before| <= from <= |before| + |line|
    ensures FindCrlf(before + line + CRLF + rest, from) == Some(|before| + |line|)
    decreases |before| + |line| - from
  {
    var all := before + line + CRLF + rest;
    if from < |before| + |line| {
      assert all[from] == line[from - |before|];
      CrlfFound(before, line, rest, from + 1);
    } else {
      assert all[from] == '\r' && all[from + 1] == '\n';
    }
  }

  lemma IntegerLineOf(before: string, line: string, rest: string)
    requires '\r' !in line
    ensures IntegerLine(before + line + CRLF + rest, |before|) ==
            Some((LineValue(line), |before| + |line| + 2))
  {
    CrlfFound(before, line, rest, |before|);
    var all := before + line + CRLF + rest;
    Pieces(all, before, line, CRLF + rest);
    assert all == before + line + (CRLF + rest);
  }

  /** The text of a length line that is no number: it does not scan, or something follows the
      digits. */
  predicate NoNumber(line: string) {
    ScanNumber(line).None? || (ScanNumber(line).value.end < |line| && line[ScanNumber(line).value.end] != '\0')
  }

  lemma TakesFirst(frame: string, tokens: seq<string>, rest: string)
    requires frame != [] && frame[0] == '*' && RespFrame(frame + rest) == Complete(|frame|, tokens)
    ensures ParseAvailable(frame + rest) ==
            Parsed([ParsedCommand(tokens, Resp)] + ParseAvailable(rest).commands, ParseAvailable(rest).leftover)
  {
    hide RespFrame;
    assert (frame + rest)[0] == '*' && (frame + rest)[|frame|..] == rest;
  }

  /** A frame whose element count is no number is dropped with its line, as an empty request. */
  lemma BadCount(line: string, rest: string)
    requires '\r' !in line && NoNumber(line)
    ensures ParseAvailable("*" + line + CRLF + rest) ==
            Parsed([ParsedCommand([], Resp)] + ParseAvailable(rest).commands, ParseAvailable(rest).leftover)
  {
    hide ParseAvailable, IntegerLine, ScanNumber;
    var frame := "*" + line + CRLF;
    IntegerLineOf("*", line, rest);
    TakesFirst(frame, [], rest);
  }

  lemma CountLine(n: nat, rest: string)
    requires n <= MAX_LL
    ensures IntegerLine("*" + Show(n) + CRLF + rest, 1) == Some((n, |"*" + Show(n) + CRLF|))
  {
    ShowHasNoLineEnd(n);
    ScanShow(n);
    hide Show, ScanNumber, IntegerLine;
    IntegerLineOf("*", Show(n), rest);
  }

  /** A frame whose first element does not start with a dollar sign is dropped up to and with
      that byte. */
  lemma NoDollar(n: nat, c: char, rest: string)
    requires 0 < n <= MAX_LL && c != '$'
    ensures ParseAvailable("*" + Show(n) + CRLF + [c] + rest) ==
            Parsed([ParsedCommand([], Resp)] + ParseAvailable(rest).commands, ParseAvailable(rest).leftover)
  {
    hide ParseAvailable, IntegerLine, Show;
    var head := "*" + Show(n) + CRLF;
    CountLine(n, [c] + rest);
    assert head + [c] + rest == head + ([c] + rest);
    var buffer := head + [c] + rest;
    assert buffer[|head|] == c && NextElement(buffer, |head|) == Malformed(|head| + 1);
    TakesFirst(head + [c], [], rest);
  }

  /** An element of negative length is an empty token. */
  lemma NullElement(size: int, rest: string)
    requires MIN_LL <= size < 0
    ensures ParseAvailable("*1" + CRLF + "$" + Show(size) + CRLF + rest) ==
            Parsed([ParsedCommand([""], Resp)] + ParseAvailable(rest).commands, ParseAvailable(rest).leftover)
  {
    var head, line := "*1" + CRLF + "$", Show(size);
    assert Show(1) == "1";
    assert "*" + Show(1) + CRLF + ("$" + line + CRLF + rest) == head + line + CRLF + rest;
    CountLine(1, "$" + line + CRLF + rest);
    ShowHasNoLineEnd(size);
    ScanShow(size);
    hide ParseAvailable, IntegerLine, Show, ScanNumber;
    IntegerLineOf(head, line, rest);
    var frame := head + line + CRLF;
    assert frame + rest == head + line + CRLF + rest && (frame + rest)[4] == '$';
    assert NextElement(frame + rest, 4) == Token(|frame|, "");
    assert [] + [""] == [""];
    TakesFirst(frame, [""], rest);
  }

  lemma OneDropped(buffer: string, n: nat)
    requires buffer != [] && IntegerLine(buffer, 1) == Some((1, 4)) && NextElement(buffer, 4) == Malformed(n)
    ensures RespFrame(buffer) == Complete(n, [])
  {
    hide IntegerLine, NextElement;
  }

  lemma EndsElsewhere(buffer: string, at: nat, size: nat)
    requires |buffer| > at + size + 1 && at > 4 && buffer[4] == '$' && IntegerLine(buffer, 5) == Some((size, at))
    requires buffer[at + size] != '\r' || buffer[at + size + 1] != '\n'
    ensures NextElement(buffer, 4) == Malformed(at + size)
  {
    hide IntegerLine;
  }

  lemma BadEndFrame(head: string, line: string, data: string, more: string)
    requires head == "*1" + CRLF + "$" && '\r' !in line && LineValue(line) == |data| && Show(1) == "1"
    requires |more| >= 2 && (more[0] != '\r' || more[1] != '\n')
    ensures var frame := head + line + CRLF + data;
            frame != [] && frame[0] == '*' && RespFrame(frame + more) == Complete(|frame|, [])
  {
    hide IntegerLine, Show, LineValue, NextElement, RespFrame;
    var frame := head + line + CRLF + data;
    FrameParts(head, line, data, more);
    CountLine(1, "$" + line + CRLF + data + more);
    IntegerLineOf(head, line, data + more);
    EndsElsewhere(frame + more, |head + line| + 2, |data|);
    OneDropped(frame + more, |frame|);
  }

  /** An element that does not end where its length says is dropped up to that point, with its
      frame. */
  lemma BadEnd(data: string, more: string)
    requires |data| <= MAX_LL && |more| >= 2 && (more[0] != '\r' || more[1] != '\n')
    ensures ParseAvailable("*1" + CRLF + "$" + Show(|data|) + CRLF + data + more) ==
            Parsed([ParsedCommand([], Resp)] + ParseAvailable(more).commands, ParseAvailable(more).leftover)
  {
    assert Show(1) == "1";
    LengthLine(|data|);
    hide ParseAvailable, Show, LineValue, RespFrame;
    var head, line := "*1" + CRLF + "$", Show(|data|);
    BadEndFrame(head, line, data, more);
    TakesFirst(head + line + CRLF + data, [], more);
  }

  lemma LengthLine(n: nat)
    requires n <= MAX_LL
    ensures '\r' !in Show(n) && LineValue(Show(n)) == n
  {
    ShowHasNoLineEnd(n);
    ScanShow(n);
    hide Show, ScanNumber;
  }

  lemma FrameParts(head: string, line: string, data: string, more: string)
    requires head == "*1" + CRLF + "$"
    ensures var frame := head + line + CRLF + data; var at := |head + line| + 2;
            && frame + more == head + line + CRLF + (data + more)
            && frame + more == "*" + "1" + CRLF + ("$" + line + CRLF + data + more)
            && frame[0] == '*' && (frame + more)[4] == '$' && |frame| == at + |data|
            && (more != [] ==> (frame + more)[at + |data|] == more[0])
            && (|more| > 1 ==> (frame + more)[at + |data| + 1] == more[1])
  {
  }
}
