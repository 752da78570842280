/** The glob matcher behind KEYS and SCAN (`matchesPattern`): a greedy scan that remembers
    only the last star, against the recursive meaning of a glob pattern. */
module Glob {

  // ----- what a pattern means -----------------------------------------------------------------

  predicate Matches(v: string, p: string)
    decreases |p|, |v|
  {
    if p == [] then v == []
    else if p[0] == '*' then Matches(v, p[1..]) || (v != [] && Matches(v[1..], p))
    else v != [] && (p[0] == '?' || p[0] == v[0]) && Matches(v[1..], p[1..])
  }

  // ----- what the code computes ------------------------------------------------------------------

  predicate OnlyStars(p: string, pi: nat)
    requires pi <= |p|
    decreases |p| - pi
  {
    pi == |p| || (p[pi] == '*' && OnlyStars(p, pi + 1))
  }

  /** Positions the scan can be in; `star` is -1 while no star has been remembered. */
  predicate Scanning(v: string, p: string, vi: nat, pi: nat, star: int, mi: nat) {
    vi <= |v| && pi <= |p| && -1 <= star < pi && mi <= vi && (star >= 0 ==> p[star] == '*')
  }

  /** The scan from one of its positions to the end. The literal test comes before the star
      test, so a star in the pattern facing a star in the value is consumed as a literal. */
  predicate Scan(v: string, p: string, vi: nat, pi: nat, star: int, mi: nat)
    requires Scanning(v, p, vi, pi, star, mi)
    decreases |p| - star, |v| - mi, |v| - vi
  {
    if vi == |v| then OnlyStars(p, pi)
    else if pi < |p| && (p[pi] == '?' || p[pi] == v[vi]) then Scan(v, p, vi + 1, pi + 1, star, mi)
    else if pi < |p| && p[pi] == '*' then Scan(v, p, vi, pi + 1, pi, vi)
    else if star >= 0 then Scan(v, p, mi + 1, star + 1, star, mi + 1)
    else false
  }

  predicate MatchesPattern(v: string, p: string) {
    Scan(v, p, 0, 0, -1, 0)
  }

  // ----- soundness, for every value --------------------------------------------------------------

  lemma Tail(s: string, i: nat)
    requires i < |s|
    ensures s[i..] != [] && s[i..][0] == s[i] && s[i..][1..] == s[i + 1..]
  {
  }

  lemma {:induction false} StarsMatchNothing(p: string, pi: nat)
    requires pi <= |p|
    ensures OnlyStars(p, pi) == Matches([], p[pi..])
    decreases |p| - pi
  {
    if pi < |p| {
      Tail(p, pi);
      StarsMatchNothing(p, pi + 1);
    }
  }

  /** One step of the recursive meaning, at positions. */
  lemma MatchesAt(v: string, p: string, vi: nat, pi: nat)
    requires vi <= |v| && pi <= |p|
    ensures pi == |p| ==> Matches(v[vi..], p[pi..]) == (vi == |v|)
    ensures pi < |p| && p[pi] == '*' ==>
              Matches(v[vi..], p[pi..]) == (Matches(v[vi..], p[pi + 1..]) ||
                                            (vi < |v| && Matches(v[vi + 1..], p[pi..])))
    ensures pi < |p| && p[pi] != '*' ==>
              Matches(v[vi..], p[pi..]) == (vi < |v| && (p[pi] == '?' || p[pi] == v[vi]) &&
                                            Matches(v[vi + 1..], p[pi + 1..]))
  {
    if pi < |p| { Tail(p, pi); }
    if vi < |v| { Tail(v, vi); }
  }

  lemma {:induction false} ScanIsSound(v: string, p: string, vi: nat, pi: nat, star: int, mi: nat)
    requires Scanning(v, p, vi, pi, star, mi) && Scan(v, p, vi, pi, star, mi)
    ensures Matches(v[vi..], p[pi..]) || (star >= 0 && Matches(v[mi..], p[star..]))
    decreases |p| - star, |v| - mi, |v| - vi
  {
    hide Matches;
    if vi == |v| {
      StarsMatchNothing(p, pi);
      assert v[vi..] == [];
    } else if pi < |p| && (p[pi] == '?' || p[pi] == v[vi]) {
      ScanIsSound(v, p, vi + 1, pi + 1, star, mi);
      MatchesAt(v, p, vi, pi);
      MatchesAt(v, p, vi + 1, pi);
    } else if pi < |p| && p[pi] == '*' {
      ScanIsSound(v, p, vi, pi + 1, pi, vi);
      MatchesAt(v, p, vi, pi);
    } else {
      ScanIsSound(v, p, mi + 1, star + 1, star, mi + 1);
      MatchesAt(v, p, mi, star);
      MatchesAt(v, p, mi + 1, star);
    }
  }

  /** Whatever the matcher accepts does match. */
  lemma Sound(v: string, p: string)
    ensures MatchesPattern(v, p) ==> Matches(v, p)
  {
    if MatchesPattern(v, p) {
      ScanIsSound(v, p, 0, 0, -1, 0);
      assert v[0..] == v && p[0..] == p;
    }
  }

  // ----- completeness, for values without a star ---------------------------------------------------

  /** The `n` pattern characters from `pi` are not stars and match the value from `vi`. */
  predicate Aligned(v: string, vi: nat, p: string, pi: nat, n: nat) {
    vi + n <= |v| && pi + n <= |p| &&
    forall q :: pi <= q < pi + n ==> p[q] != '*' && (p[q] == '?' || p[q] == v[q - pi + vi])
  }

  lemma {:induction false} AlignedPeels(v: string, vi: nat, p: string, pi: nat, n: nat)
    requires Aligned(v, vi, p, pi, n)
    ensures Matches(v[vi..], p[pi..]) == Matches(v[vi + n..], p[pi + n..])
    decreases n
  {
    hide Matches;
    if n > 0 {
      MatchesAt(v, p, vi, pi);
      AlignedPeels(v, vi + 1, p, pi + 1, n - 1);
    }
  }

  /** A match must spend one value character on each of `n` leading non-star characters. */
  lemma {:induction false} NonStarsPeel(v: string, vi: nat, p: string, pi: nat, n: nat)
    requires vi <= |v| && pi + n <= |p| && (forall q :: pi <= q < pi + n ==> p[q] != '*')
    requires Matches(v[vi..], p[pi..])
    ensures vi + n <= |v| && Matches(v[vi + n..], p[pi + n..])
    decreases n
  {
    hide Matches;
    if n > 0 {
      MatchesAt(v, p, vi, pi);
      NonStarsPeel(v, vi + 1, p, pi + 1, n - 1);
    }
  }

  /** A star absorbs any number of characters in front of a match. */
  lemma {:induction false} StarAbsorbs(v: string, vi: nat, later: nat, p: string, pi: nat)
    requires vi <= later <= |v| && pi < |p| && p[pi] == '*'
    requires Matches(v[later..], p[pi..])
    ensures Matches(v[vi..], p[pi..])
    decreases later - vi
  {
    hide Matches;
    if vi < later {
      StarAbsorbs(v, vi + 1, later, p, pi);
      MatchesAt(v, p, vi, pi);
    }
  }

  /** A match through a star places the rest of the pattern at some later point. */
  lemma {:induction false} StarPlaces(v: string, vi: nat, p: string, pi: nat) returns (at: nat)
    requires vi <= |v| && pi < |p| && p[pi] == '*' && Matches(v[vi..], p[pi..])
    ensures vi <= at <= |v| && Matches(v[at..], p[pi + 1..])
    decreases |v| - vi
  {
    hide Matches;
    MatchesAt(v, p, vi, pi);
    if Matches(v[vi..], p[pi + 1..]) {
      at := vi;
    } else {
      at := StarPlaces(v, vi + 1, p, pi);
    }
  }

  /** Moving on to a later star loses nothing: the segment between the two stars was matched
      as early as it can be. */
  lemma EarliestSegmentSuffices(v: string, mi: nat, p: string, star: nat, n: nat)
    requires star < |p| && p[star] == '*' && Aligned(v, mi, p, star + 1, n)
    requires star + 1 + n < |p| && p[star + 1 + n] == '*'
    ensures Matches(v[mi..], p[star..]) == Matches(v[mi + n..], p[star + 1 + n..])
  {
    hide Matches;
    AlignedPeels(v, mi, p, star + 1, n);
    MatchesAt(v, p, mi, star);
    if Matches(v[mi..], p[star..]) {
      var at := StarPlaces(v, mi, p, star);
      NonStarsPeel(v, at, p, star + 1, n);
      StarAbsorbs(v, mi + n, at + n, p, star + 1 + n);
    }
  }

  /** The value is used up, the pattern is not: starting the segment later cannot help. */
  lemma LaterStartIsTooShort(v: string, mi: nat, p: string, star: nat, n: nat)
    requires star < |p| && p[star] == '*' && Aligned(v, mi, p, star + 1, n) && mi + n == |v|
    ensures Matches(v[mi..], p[star..]) == Matches(v[|v|..], p[star + 1 + n..])
  {
    hide Matches;
    AlignedPeels(v, mi, p, star + 1, n);
    MatchesAt(v, p, mi, star);
    if Matches(v[mi..], p[star..]) {
      var at := StarPlaces(v, mi, p, star);
      NonStarsPeel(v, at, p, star + 1, n);
    }
  }

  /** What the scan decides from a position: the match of the whole, or of everything from
      the last remembered star on. */
  predicate Goal(v: string, p: string, star: int, mi: nat)
    requires mi <= |v| && -1 <= star < |p|
  {
    if star < 0 then Matches(v[0..], p[0..]) else Matches(v[mi..], p[star..])
  }

  predicate Progress(v: string, p: string, vi: nat, pi: nat, star: int, mi: nat) {
    Scanning(v, p, vi, pi, star, mi) && star < |p| && pi - (star + 1) == vi - mi && (star < 0 ==> mi == 0) &&
    Aligned(v, mi, p, star + 1, vi - mi)
  }

  lemma AlignedGrows(v: string, vi: nat, p: string, pi: nat, n: nat)
    requires Aligned(v, vi, p, pi, n) && vi + n < |v| && pi + n < |p|
    requires p[pi + n] != '*' && (p[pi + n] == '?' || p[pi + n] == v[vi + n])
    ensures Aligned(v, vi, p, pi, n + 1)
  {
  }

  lemma {:induction false} ScanIsComplete(v: string, p: string, vi: nat, pi: nat, star: int, mi: nat)
    requires '*' !in v && p != [] && Progress(v, p, vi, pi, star, mi)
    ensures Scan(v, p, vi, pi, star, mi) == Goal(v, p, star, mi)
    decreases |p| - star, |v| - mi, |v| - vi
  {
    hide Matches, Aligned;
    AlignedPeels(v, mi, p, star + 1, vi - mi);
    if vi == |v| {
      StarsMatchNothing(p, pi);
      assert v[|v|..] == [];
      if star >= 0 { LaterStartIsTooShort(v, mi, p, star, vi - mi); }
    } else if pi < |p| && (p[pi] == '?' || p[pi] == v[vi]) {
      assert v[vi] in v;
      AlignedGrows(v, mi, p, star + 1, vi - mi);
      ScanIsComplete(v, p, vi + 1, pi + 1, star, mi);
    } else if pi < |p| && p[pi] == '*' {
      assert Aligned(v, vi, p, pi + 1, 0) by { AlignedNone(v, vi, p, pi + 1); }
      ScanIsComplete(v, p, vi, pi + 1, pi, vi);
      if star >= 0 { EarliestSegmentSuffices(v, mi, p, star, vi - mi); }
    } else {
      MatchesAt(v, p, vi, pi);
      if star >= 0 {
        MatchesAt(v, p, mi, star);
        AlignedNone(v, mi + 1, p, star + 1);
        ScanIsComplete(v, p, mi + 1, star + 1, star, mi + 1);
      }
    }
  }

  lemma AlignedNone(v: string, vi: nat, p: string, pi: nat)
    requires vi <= |v| && pi <= |p|
    ensures Aligned(v, vi, p, pi, 0)
  {
  }

  /** On values without a star the matcher decides exactly the meaning of the pattern. */
  lemma Complete(v: string, p: string)
    requires '*' !in v
    ensures MatchesPattern(v, p) == Matches(v, p)
  {
    if p == [] {
      assert Scan(v, p, 0, 0, -1, 0) == (v == []);
    } else {
      AlignedNone(v, 0, p, 0);
      ScanIsComplete(v, p, 0, 0, -1, 0);
      assert v[0..] == v && p[0..] == p;
    }
  }

  // ----- exactly which values are matched faithfully --------------------------------------------------

  function Questions(n: nat): (q: string)
    ensures |q| == n && forall i :: 0 <= i < n ==> q[i] == '?'
  {
    seq(n, _ => '?')
  }

  lemma {:induction false} ScanRunsOut(v: string, p: string, vi: nat)
    requires |p| == |v| + 1 && p[|v|] == '?' && vi <= |v|
    requires forall i :: 0 <= i < |v| ==> p[i] == '?' || p[i] == v[i]
    ensures !Scan(v, p, vi, vi, -1, 0)
    decreases |v| - vi
  {
    if vi < |v| { ScanRunsOut(v, p, vi + 1); }
  }

  /** A value with a star has a pattern that matches it and that the matcher rejects: its text
      up to the first star, that star, then one question mark per remaining character. */
  lemma StarredValueIsMissed(v: string) returns (p: string)
    requires '*' in v
    ensures Matches(v, p) && !MatchesPattern(v, p)
  {
    hide Matches, Aligned;
    var k := FirstStar(v);
    p := v[..k] + ("*" + Questions(|v| - k));
    ScanRunsOut(v, p, 0);
    AlignedWith(v, p, k);
    AlignedPeels(v, 0, p, 0, k);
    assert v[0..] == v && p[0..] == p;
    AlignedPeels(v, k, p, k + 1, |v| - k);
    MatchesAt(v, p, |v|, |p|);
    MatchesAt(v, p, k, k);
  }

  lemma AlignedWith(v: string, p: string, k: nat)
    requires k < |v| && p == v[..k] + ("*" + Questions(|v| - k)) && forall i :: 0 <= i < k ==> v[i] != '*'
    ensures Aligned(v, 0, p, 0, k) && Aligned(v, k, p, k + 1, |v| - k)
  {
  }

  lemma FirstStar(v: string) returns (k: nat)
    requires '*' in v
    ensures k < |v| && v[k] == '*' && forall i :: 0 <= i < k ==> v[i] != '*'
  {
    k := 0;
    while v[k] != '*'
      invariant k < |v| && forall i :: 0 <= i < k ==> v[i] != '*'
      invariant exists i :: k <= i < |v| && v[i] == '*'
      decreases |v| - k
    {
      k := k + 1;
    }
  }

  /** The matcher agrees with every pattern on a value if and only if the value has no star. */
  lemma ExactlyStarFreeValues(v: string)
    ensures (forall p :: MatchesPattern(v, p) == Matches(v, p)) <==> '*' !in v
  {
    if '*' in v {
      var p := StarredValueIsMissed(v);
      assert MatchesPattern(v, p) != Matches(v, p);
    } else {
      forall p ensures MatchesPattern(v, p) == Matches(v, p) { Complete(v, p); }
    }
  }

  // ----- the loop of the source -----------------------------------------------------------------------

  method MatchPattern(value: string, pattern: string) returns (matched: bool)
    ensures matched == MatchesPattern(value, pattern)
  {
    var valueIndex, patternIndex := 0, 0;
    var starIndex, matchIndex := -1, 0;
    while valueIndex < |value|
      invariant 0 <= valueIndex && 0 <= patternIndex && 0 <= matchIndex
      invariant Scanning(value, pattern, valueIndex, patternIndex, starIndex, matchIndex)
      invariant MatchesPattern(value, pattern) == Scan(value, pattern, valueIndex, patternIndex, starIndex, matchIndex)
      decreases |pattern| - starIndex, |value| - matchIndex, |value| - valueIndex
    {
      if patternIndex < |pattern| &&
         (pattern[patternIndex] == '?' || pattern[patternIndex] == value[valueIndex]) {
        valueIndex := valueIndex + 1;
        patternIndex := patternIndex + 1;
      } else if patternIndex < |pattern| && pattern[patternIndex] == '*' {
        starIndex := patternIndex;
        patternIndex := patternIndex + 1;
        matchIndex := valueIndex;
      } else if starIndex != -1 {
        patternIndex := starIndex + 1;
        matchIndex := matchIndex + 1;
        valueIndex := matchIndex;
      } else {
        return false;
      }
    }
    while patternIndex < |pattern| && pattern[patternIndex] == '*'
      invariant 0 <= patternIndex <= |pattern|
      invariant MatchesPattern(value, pattern) == OnlyStars(pattern, patternIndex)
    {
      patternIndex := patternIndex + 1;
    }
    return patternIndex == |pattern|;
  }
}
