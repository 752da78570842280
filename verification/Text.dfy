/** Byte strings as the C++ code handles them: the decimal text that `std::to_string`
    writes, the readers `strtoll`, `stoll` and `stoull`, upper-casing, and sorting. */
module Text {

  datatype Option<+T> = None | Some(value: T)

  const MAX_LL: int := 0x7FFF_FFFF_FFFF_FFFF
  const MIN_LL: int := -0x8000_0000_0000_0000
  const MAX_ULL: int := 0xFFFF_FFFF_FFFF_FFFF

  const CRLF: string := "\r\n"
  const NL: string := "\n"

  lemma SliceOfPrefix<T>(s: seq<T>, from: nat, to: nat, size: nat)
    requires from <= to <= size <= |s|
    ensures s[..size][from..to] == s[from..to]
  {
  }

  predicate IsDigit(c: char) {
    '0' <= c <= '9'
  }

  /** `isspace` in the C locale: blank, and the five codes from tab to carriage return. */
  predicate IsSpace(c: char) {
    c == ' ' || 9 <= c as int <= 13
  }

  // ----- decimal text ---------------------------------------------------------------

  function DigitChar(d: nat): char
    requires d < 10
  {
    ('0' as int + d) as char
  }

  function DigitValue(c: char): nat {
    if IsDigit(c) then c as int - '0' as int else 0
  }

  function Decimal(n: nat): string {
    if n < 10 then [DigitChar(n)] else Decimal(n / 10) + [DigitChar(n % 10)]
  }

  /** `std::to_string` on integers. */
  function Show(n: int): string {
    if n < 0 then "-" + Decimal(-n) else Decimal(n)
  }

  /** The number a run of digits denotes. */
  function NatOf(s: string): nat {
    if s == [] then 0 else NatOf(s[..|s| - 1]) * 10 + DigitValue(s[|s| - 1])
  }

  lemma {:induction false} DecimalDenotes(n: nat)
    ensures Decimal(n) != []
    ensures forall i :: 0 <= i < |Decimal(n)| ==> IsDigit(Decimal(n)[i])
    ensures NatOf(Decimal(n)) == n
  {
    if n >= 10 {
      DecimalDenotes(n / 10);
      assert Decimal(n)[..|Decimal(n)| - 1] == Decimal(n / 10);
    } else {
      assert Decimal(n)[..0] == [];
      assert NatOf([]) == 0;
    }
  }

  // ----- strtoll, stoll, stoull -------------------------------------------------------

  function SkipSpaces(s: string, i: nat): (j: nat)
    requires i <= |s|
    ensures i <= j <= |s|
    decreases |s| - i
  {
    if i < |s| && IsSpace(s[i]) then SkipSpaces(s, i + 1) else i
  }

  function SkipDigits(s: string, i: nat): (j: nat)
    requires i <= |s|
    ensures i <= j <= |s|
    ensures forall k :: i <= k < j ==> IsDigit(s[k])
    ensures j < |s| ==> !IsDigit(s[j])
    decreases |s| - i
  {
    if i < |s| && IsDigit(s[i]) then SkipDigits(s, i + 1) else i
  }

  /** What a base-ten conversion finds: sign, magnitude, and where it stopped. */
  datatype Scanned = Scanned(negative: bool, magnitude: nat, end: nat)

  function ScanNumber(s: string): (r: Option<Scanned>)
    ensures r.Some? ==> 0 < r.value.end <= |s|
  {
    var i := SkipSpaces(s, 0);
    var signed := i < |s| && (s[i] == '-' || s[i] == '+');
    var j := if signed then i + 1 else i;
    var e := SkipDigits(s, j);
    if e == j then None else Some(Scanned(signed && s[i] == '-', NatOf(s[j..e]), e))
  }

  function SignedValue(n: Scanned): int {
    var m: int := n.magnitude;
    if n.negative then -m else m
  }

  /** `stoll(s, &consumed)`; None stands for either exception it throws. */
  function Stoll(s: string): Option<(int, nat)> {
    var n := ScanNumber(s);
    if n.None? || !(MIN_LL <= SignedValue(n.value) <= MAX_LL) then None
    else Some((SignedValue(n.value), n.value.end))
  }

  /** `stoull(s, &consumed)`: a minus sign is accepted and negates modulo 2^64. */
  function Stoull(s: string): (r: Option<(nat, nat)>)
    ensures r.Some? ==> r.value.0 <= MAX_ULL
  {
    var n := ScanNumber(s);
    if n.None? || n.value.magnitude > MAX_ULL then None
    else if n.value.negative && n.value.magnitude > 0 then
      Some((MAX_ULL + 1 - n.value.magnitude, n.value.end))
    else Some((n.value.magnitude, n.value.end))
  }

  /** A whole string read as a signed 64-bit integer (`parseInteger`, `parseIndex`). */
  function ParseInteger(s: string): Option<int> {
    var r := Stoll(s);
    if r.Some? && r.value.1 == |s| then Some(r.value.0) else None
  }

  /** `strtoll` on a C string: out-of-range values saturate. */
  function Saturate(n: int): int {
    if n < MIN_LL then MIN_LL else if n > MAX_LL then MAX_LL else n
  }

  /** Digits, with or without a minus sign in front, are scanned to the end. */
  lemma ScanDigits(digits: string, negative: bool)
    requires digits != [] && forall k :: 0 <= k < |digits| ==> IsDigit(digits[k])
    ensures var s := (if negative then "-" else "") + digits;
            ScanNumber(s) == Some(Scanned(negative, NatOf(digits), |s|))
  {
    var s, j := (if negative then "-" else "") + digits, if negative then 1 else 0;
    hide NatOf;
    assert SkipSpaces(s, 0) == 0;
    assert s[j..|s|] == digits;
  }

  /** Printing an integer and scanning it back returns it, and uses the whole text. */
  lemma ScanShow(n: int)
    ensures Show(n) != []
    ensures ScanNumber(Show(n)) == Some(Scanned(n < 0, if n < 0 then -n else n, |Show(n)|))
  {
    var m: nat := if n < 0 then -n else n;
    DecimalDenotes(m);
    hide ScanNumber, Decimal, NatOf;
    ScanDigits(Decimal(m), n < 0);
    assert "" + Decimal(m) == Decimal(m);
  }

  lemma StollShow(n: int)
    requires MIN_LL <= n <= MAX_LL
    ensures Stoll(Show(n)) == Some((n, |Show(n)|)) && ParseInteger(Show(n)) == Some(n)
  {
    ScanShow(n);
  }

  lemma StoullShow(n: nat)
    requires n <= MAX_ULL
    ensures Stoull(Show(n)) == Some((n, |Show(n)|))
  {
    ScanShow(n);
  }

  /** Decimal text holds none of the bytes that end a line. */
  lemma ShowHasNoLineEnd(n: int)
    ensures forall i :: 0 <= i < |Show(n)| ==> IsDigit(Show(n)[i]) || Show(n)[i] == '-'
    ensures '\r' !in Show(n) && '\n' !in Show(n)
  {
    DecimalDenotes(if n < 0 then -n else n);
  }

  // ----- upper-casing -----------------------------------------------------------------

  function UpperChar(c: char): char {
    if 'a' <= c <= 'z' then (c as int - 32) as char else c
  }

  function ToUpper(s: string): string {
    if s == [] then [] else [UpperChar(s[0])] + ToUpper(s[1..])
  }

  /** Text without lower-case letters is already upper-cased. */
  lemma {:induction false} AlreadyUpper(s: string)
    requires forall i :: 0 <= i < |s| ==> !('a' <= s[i] <= 'z')
    ensures ToUpper(s) == s
  {
    if s != [] {
      AlreadyUpper(s[1..]);
      assert s == [s[0]] + s[1..];
    }
  }

  // ----- ordering and sorting -----------------------------------------------------------

  /** `std::string::operator<=`: lexicographic, byte by byte. */
  predicate Leq(a: string, b: string) {
    a == [] || (b != [] && (a[0] < b[0] || (a[0] == b[0] && Leq(a[1..], b[1..]))))
  }

  lemma {:induction false} LeqTotal(a: string, b: string)
    ensures Leq(a, b) || Leq(b, a)
    decreases |a|
  {
    if a != [] && b != [] { LeqTotal(a[1..], b[1..]); }
  }

  lemma {:induction false} LeqAntisymmetric(a: string, b: string)
    requires Leq(a, b) && Leq(b, a)
    ensures a == b
    decreases |a|
  {
    if a != [] && b != [] {
      LeqAntisymmetric(a[1..], b[1..]);
      assert a == [a[0]] + a[1..] && b == [b[0]] + b[1..];
    }
  }

  lemma {:induction false} LeqTransitive(a: string, b: string, c: string)
    requires Leq(a, b) && Leq(b, c)
    ensures Leq(a, c)
    decreases |a|
  {
    if a != [] && b != [] && c != [] && a[0] == b[0] == c[0] {
      LeqTransitive(a[1..], b[1..], c[1..]);
    }
  }

  predicate IsLeast(x: string, s: set<string>) {
    x in s && forall y :: y in s ==> Leq(x, y)
  }

  lemma {:induction false} LeastExists(s: set<string>) returns (x: string)
    requires s != {}
    ensures IsLeast(x, s)
    decreases |s|
  {
    var a :| a in s;
    x := a;
    LeqTotal(a, a);
    if s != {a} {
      var rest := s - {a};
      var b := LeastExists(rest);
      LeqTotal(a, b);
      if Leq(a, b) {
        forall y | y in s ensures Leq(a, y) {
          if y != a { LeqTransitive(a, b, y); }
        }
      } else {
        x := b;
      }
    }
  }

  lemma LeastIsUnique(s: set<string>)
    ensures forall x, y :: IsLeast(x, s) && IsLeast(y, s) ==> x == y
  {
    forall x, y | IsLeast(x, s) && IsLeast(y, s) ensures x == y {
      LeqAntisymmetric(x, y);
    }
  }

  lemma HasLeast(s: set<string>)
    requires s != {}
    ensures exists x :: IsLeast(x, s)
  {
    var x := LeastExists(s);
  }

  /** The members of a set in ascending order (`std::sort` over the container's elements). */
  function Sorted(s: set<string>): seq<string>
    decreases |s|
  {
    if s == {} then []
    else
      HasLeast(s); LeastIsUnique(s);
      var x :| IsLeast(x, s);
      [x] + Sorted(s - {x})
  }

  lemma SortedUnfolds(s: set<string>) returns (x: string)
    requires s != {}
    ensures IsLeast(x, s) && Sorted(s) == [x] + Sorted(s - {x}) && |s - {x}| == |s| - 1
  {
    HasLeast(s); LeastIsUnique(s);
    x :| IsLeast(x, s);
  }

  lemma {:induction false} SortedMembers(s: set<string>)
    ensures |Sorted(s)| == |s| && forall x :: x in s <==> x in Sorted(s)
    decreases |s|
  {
    if s != {} {
      var x := SortedUnfolds(s);
      SortedMembers(s - {x});
    }
  }

  predicate Ascending(xs: seq<string>) {
    forall i, j :: 0 <= i < j < |xs| ==> Leq(xs[i], xs[j]) && xs[i] != xs[j]
  }

  lemma {:induction false} SortedAscends(s: set<string>)
    ensures Ascending(Sorted(s))
    decreases |s|
  {
    if s != {} {
      var x := SortedUnfolds(s);
      var rest := Sorted(s - {x});
      SortedAscends(s - {x});
      SortedMembers(s - {x});
      assert forall j :: 0 <= j < |rest| ==> rest[j] in rest;
    }
  }

  lemma {:induction false} FewerMembers(a: set<string>, b: set<string>)
    requires a <= b
    ensures |a| <= |b|
  {
    if a != {} {
      var x :| x in a;
      FewerMembers(a - {x}, b - {x});
    }
  }
}
