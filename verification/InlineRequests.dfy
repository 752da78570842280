/** Inline requests: a line of words with blanks between them is one request with exactly those
    words, and whatever the line, nothing of it but blanks is lost. */
module InlineRequests {
  import opened Text
  import opened CommandParser

  // ----- lines of words --------------------------------------------------------------------------

  /** Blank, tab, line feed, vertical tab, form feed and carriage return. */
  predicate IsBlank(c: char) {
    c == ' ' || c == '\t' || c == '\n' || c == '\U{0B}' || c == '\U{0C}' || c == '\r'
  }

  lemma BlanksAreSpaces(c: char)
    ensures IsBlank(c) == IsSpace(c)
  {
    if 9 <= c as int <= 13 {
      assert c as int == 9 || c as int == 10 || c as int == 11 || c as int == 12 || c as int == 13;
      assert c == 9 as char || c == 10 as char || c == 11 as char || c == 12 as char || c == 13 as char;
    }
  }

  predicate AllBlank(s: string) {
    forall i :: 0 <= i < |s| ==> IsBlank(s[i])
  }

  predicate NoBlank(s: string) {
    forall i :: 0 <= i < |s| ==> !IsBlank(s[i])
  }

  predicate IsWord(w: string) {
    w != [] && NoBlank(w)
  }

  /** Words with blanks before, between and after them: between them at least one, so that each
      word is as long as it can be. */
  predicate Splits(blanks: seq<string>, words: seq<string>) {
    && |blanks| == |words| + 1
    && (forall i :: 0 <= i < |blanks| ==> AllBlank(blanks[i]))
    && (forall i :: 0 <= i < |words| ==> IsWord(words[i]))
    && (forall i :: 0 < i < |words| ==> blanks[i] != [])
  }

  /** The line they make. */
  function Spaced(blanks: seq<string>, words: seq<string>): string
    requires |blanks| == |words| + 1
  {
    if words == [] then blanks[0] else blanks[0] + words[0] + Spaced(blanks[1..], words[1..])
  }

  // ----- every such line is cut into its words ---------------------------------------------------

  lemma {:induction false} SkipsBlanks(line: string, i: nat, end: nat)
    requires i <= end <= |line| && AllBlank(line[i..end]) && (end == |line| || !IsBlank(line[end]))
    ensures SkipSpaces(line, i) == end
    decreases end - i
  {
    hide IsBlank;
    if i < |line| { BlanksAreSpaces(line[i]); }
    if i < end {
      assert line[i..end][0] == line[i] && line[i..end][1..] == line[i + 1..end];
      SkipsBlanks(line, i + 1, end);
    }
  }

  lemma {:induction false} SkipsWord(line: string, i: nat, end: nat)
    requires i <= end <= |line| && NoBlank(line[i..end]) && (end == |line| || IsBlank(line[end]))
    ensures SkipWord(line, i) == end
    decreases end - i
  {
    hide IsBlank;
    if i < |line| { BlanksAreSpaces(line[i]); }
    if i < end {
      assert line[i..end][0] == line[i] && line[i..end][1..] == line[i + 1..end];
      SkipsWord(line, i + 1, end);
    }
  }

  /** Blanks, then a word: the word comes first. */
  lemma FirstWord(line: string, i: nat, start: nat, end: nat)
    requires i <= start <= end <= |line| && AllBlank(line[i..start]) && IsWord(line[start..end])
    requires end == |line| || IsBlank(line[end])
    ensures Words(line, i) == [line[start..end]] + Words(line, end)
  {
    hide IsBlank;
    assert line[start..end][0] == line[start];
    SkipsBlanks(line, i, start);
    SkipsWord(line, start, end);
  }

  /** The three pieces of a line. */
  lemma Pieces(s: string, a: string, b: string, c: string)
    requires s == a + b + c
    ensures |s| == |a| + |b| + |c| && s[..|a|] == a && s[|a|..|a| + |b|] == b && s[|a| + |b|..] == c
  {
  }

  lemma PiecesFrom(line: string, i: nat, a: string, b: string, c: string)
    requires i <= |line| && line[i..] == a + b + c
    ensures |line| == i + |a| + |b| + |c| && line[i..i + |a|] == a
    ensures line[i + |a|..i + |a| + |b|] == b && line[i + |a| + |b|..] == c
  {
    var s := line[i..];
    Pieces(s, a, b, c);
    assert line[i..i + |a|] == s[..|a|];
    assert line[i + |a|..i + |a| + |b|] == s[|a|..|a| + |b|];
    assert line[i + |a| + |b|..] == s[|a| + |b|..];
  }

  lemma SpacedStartsBlank(blanks: seq<string>, words: seq<string>)
    requires Splits(blanks, words) && (words == [] || blanks[0] != [])
    ensures Spaced(blanks, words) == [] || IsBlank(Spaced(blanks, words)[0])
  {
    hide IsBlank;
  }

  lemma SplitsTail(blanks: seq<string>, words: seq<string>)
    requires Splits(blanks, words) && words != []
    ensures Splits(blanks[1..], words[1..]) && (words[1..] == [] || blanks[1..][0] != [])
    ensures AllBlank(blanks[0]) && IsWord(words[0])
  {
    hide IsWord, AllBlank;
  }

  lemma OnlyBlanksLeft(line: string, i: nat)
    requires i <= |line| && AllBlank(line[i..])
    ensures Words(line, i) == []
  {
    assert line[i..|line|] == line[i..];
    hide IsBlank;
    SkipsBlanks(line, i, |line|);
  }

  lemma NextWord(line: string, i: nat, blank: string, word: string, more: string)
    requires i <= |line| && line[i..] == blank + word + more
    requires AllBlank(blank) && IsWord(word) && (more == [] || IsBlank(more[0]))
    ensures var end := i + |blank| + |word|;
            end <= |line| && line[end..] == more && Words(line, i) == [word] + Words(line, end)
  {
    hide IsBlank, AllBlank, IsWord, Words;
    PiecesFrom(line, i, blank, word, more);
    var start, end := i + |blank|, i + |blank| + |word|;
    if more != [] { assert line[end..][0] == line[end]; }
    FirstWord(line, i, start, end);
  }

  lemma {:induction false} WordsFrom(line: string, i: nat, blanks: seq<string>, words: seq<string>)
    requires Splits(blanks, words) && i <= |line| && line[i..] == Spaced(blanks, words)
    ensures Words(line, i) == words
    decreases |words|
  {
    hide Words, AllBlank, IsWord, IsBlank;
    if words == [] {
      OnlyBlanksLeft(line, i);
    } else {
      SplitsTail(blanks, words);
      SpacedStartsBlank(blanks[1..], words[1..]);
      var more := Spaced(blanks[1..], words[1..]);
      assert line[i..] == blanks[0] + words[0] + more;
      hide Splits, Spaced;
      NextWord(line, i, blanks[0], words[0], more);
      WordsFrom(line, i + |blanks[0]| + |words[0]|, blanks[1..], words[1..]);
    }
  }

  /** A line of words is cut into exactly these words. */
  lemma WordsOfSpaced(blanks: seq<string>, words: seq<string>)
    requires Splits(blanks, words)
    ensures Words(Spaced(blanks, words), 0) == words
  {
    var line := Spaced(blanks, words);
    assert line[0..] == line;
    hide Splits, Words;
    WordsFrom(line, 0, blanks, words);
  }

  // ----- and every line is one -------------------------------------------------------------------

  lemma {:induction false} BlanksSkipped(line: string, i: nat)
    requires i <= |line|
    ensures AllBlank(line[i..SkipSpaces(line, i)])
    ensures SkipSpaces(line, i) < |line| ==> !IsBlank(line[SkipSpaces(line, i)])
    decreases |line| - i
  {
    hide IsBlank;
    if i < |line| { BlanksAreSpaces(line[i]); }
    if i < |line| && IsSpace(line[i]) {
      BlanksSkipped(line, i + 1);
      assert line[i..SkipSpaces(line, i)] == [line[i]] + line[i + 1..SkipSpaces(line, i)];
    }
  }

  lemma {:induction false} WordSkipped(line: string, i: nat)
    requires i <= |line|
    ensures NoBlank(line[i..SkipWord(line, i)])
    ensures SkipWord(line, i) < |line| ==> IsBlank(line[SkipWord(line, i)])
    decreases |line| - i
  {
    hide IsBlank;
    if i < |line| { BlanksAreSpaces(line[i]); }
    if i < |line| && !IsSpace(line[i]) {
      WordSkipped(line, i + 1);
      assert line[i..SkipWord(line, i)] == [line[i]] + line[i + 1..SkipWord(line, i)];
    }
  }

  lemma Cut(line: string, i: nat, start: nat, end: nat)
    requires i <= start <= end <= |line|
    ensures line[i..] == line[i..start] + line[start..end] + line[end..]
  {
  }

  lemma {:induction false} SplitFrom(line: string, i: nat) returns (blanks: seq<string>)
    requires i <= |line|
    ensures Splits(blanks, Words(line, i)) && Spaced(blanks, Words(line, i)) == line[i..]
    ensures i < |line| && IsBlank(line[i]) ==> blanks[0] != []
    decreases |line| - i
  {
    hide IsBlank;
    var start := SkipSpaces(line, i);
    BlanksSkipped(line, i);
    if i < |line| { BlanksAreSpaces(line[i]); }
    if start == |line| {
      assert line[i..|line|] == line[i..];
      blanks := [line[i..]];
    } else {
      var end := SkipWord(line, start);
      WordSkipped(line, start);
      BlanksAreSpaces(line[start]);
      var rest := SplitFrom(line, end);
      var words := Words(line, end);
      blanks := [line[i..start]] + rest;
      assert Words(line, i) == [line[start..end]] + words;
      hide AllBlank, NoBlank, Splits, Words;
      LongerSplit(line[i..start], line[start..end], rest, words);
      Cut(line, i, start, end);
    }
  }

  lemma LongerSplit(blank: string, word: string, blanks: seq<string>, words: seq<string>)
    requires AllBlank(blank) && IsWord(word) && |blanks| == |words| + 1
    requires Splits(blanks, words) && (words == [] || blanks[0] != [])
    ensures Splits([blank] + blanks, [word] + words)
    ensures Spaced([blank] + blanks, [word] + words) == blank + word + Spaced(blanks, words)
  {
    hide AllBlank, IsWord;
    assert ([blank] + blanks)[1..] == blanks && ([word] + words)[1..] == words;
  }

  /** Nothing is lost: any line is its words, in order, each as long as it can be, with blanks
      around them. */
  lemma EveryLineSplits(line: string) returns (blanks: seq<string>)
    ensures Splits(blanks, Words(line, 0)) && Spaced(blanks, Words(line, 0)) == line
  {
    blanks := SplitFrom(line, 0);
    assert line[0..] == line;
  }

  // ----- line ends -------------------------------------------------------------------------------

  /** The same blanks, with more after the last word. */
  function Longer(blanks: seq<string>, more: string): seq<string>
    requires blanks != []
  {
    blanks[..|blanks| - 1] + [blanks[|blanks| - 1] + more]
  }

  lemma LongerTail(blanks: seq<string>, more: string)
    requires |blanks| > 1
    ensures Longer(blanks, more)[0] == blanks[0] && Longer(blanks, more)[1..] == Longer(blanks[1..], more)
  {
  }

  lemma Regroup(a: string, b: string, c: string, d: string)
    ensures a + b + c + d == a + b + (c + d)
  {
  }

  lemma {:induction false} SpacedAtEnd(blanks: seq<string>, words: seq<string>, more: string)
    requires |blanks| == |words| + 1
    ensures Spaced(blanks, words) + more == Spaced(Longer(blanks, more), words)
    decreases |words|
  {
    if words != [] {
      LongerTail(blanks, more);
      hide Longer;
      SpacedAtEnd(blanks[1..], words[1..], more);
      Regroup(blanks[0], words[0], Spaced(blanks[1..], words[1..]), more);
    }
  }

  lemma LongerSplits(blanks: seq<string>, words: seq<string>, more: string)
    requires Splits(blanks, words) && AllBlank(more)
    ensures Splits(Longer(blanks, more), words)
  {
    hide IsBlank, IsWord;
  }

  lemma MoreBlanks(blanks: seq<string>, words: seq<string>, more: string)
    requires Splits(blanks, words) && AllBlank(more)
    ensures Words(Spaced(blanks, words) + more, 0) == words
  {
    assert |blanks| == |words| + 1;
    hide Splits, AllBlank, Spaced, Words, Longer;
    LongerSplits(blanks, words, more);
    SpacedAtEnd(blanks, words, more);
    WordsOfSpaced(Longer(blanks, more), words);
  }

  /** Blanks at the end make no difference. */
  lemma BlanksAtEnd(line: string, more: string)
    requires AllBlank(more)
    ensures Words(line + more, 0) == Words(line, 0)
  {
    hide Splits, AllBlank, Words;
    var blanks := EveryLineSplits(line);
    MoreBlanks(blanks, Words(line, 0), more);
  }

  predicate OnlyLineEnds(s: string) {
    forall i :: 0 <= i < |s| ==> s[i] == '\r' || s[i] == '\n'
  }

  /** Trimming line ends loses no word, and leaves nothing only if there was nothing else. */
  lemma {:induction false} TrimKeepsWords(line: string)
    ensures Words(TrimLineEnding(line), 0) == Words(line, 0)
    ensures TrimLineEnding(line) == [] <==> OnlyLineEnds(line)
  {
    var n := |line| - 1;
    if line != [] && (line[n] == '\n' || line[n] == '\r') {
      TrimKeepsWords(line[..n]);
      assert AllBlank([line[n]]) && line[..n] + [line[n]] == line;
      hide Words, AllBlank;
      BlanksAtEnd(line[..n], [line[n]]);
    }
  }

  // ----- requests --------------------------------------------------------------------------------

  /** A line end as clients send it. */
  predicate IsLineEnd(ending: string) {
    ending == "\r\n" || ending == "\n"
  }

  lemma EndingIsBlank(line: string, ending: string)
    requires IsLineEnd(ending)
    ensures AllBlank(ending) && OnlyLineEnds(line + ending) == OnlyLineEnds(line)
  {
    forall i | 0 <= i < |line| ensures (line + ending)[i] == line[i] {}
  }

  lemma LineFound(line: string, ending: string, rest: string)
    requires '\n' !in line && IsLineEnd(ending)
    ensures FindNewline(line + ending + rest, 0) == Some(|line + ending| - 1)
    ensures (line + ending + rest)[..|line + ending|] == line + ending
    ensures (line + ending + rest)[|line + ending|..] == rest
  {
    var text := if ending == "\n" then line else line + "\r";
    assert '\n' !in text && line + ending == text + NL;
    FindNewlineAt(text, rest, 0);
  }

  lemma LineTurn(line: string, ending: string, rest: string)
    requires '\n' !in line && IsLineEnd(ending) && (line == [] || line[0] != '*')
    ensures NextTurn(line + ending + rest) ==
            Took(|line + ending|, if OnlyLineEnds(line) then [] else [ParsedCommand(Words(line, 0), Inline)])
  {
    var whole := line + ending;
    assert (whole + rest)[0] != '*';
    LineFound(line, ending, rest);
    EndingIsBlank(line, ending);
    hide Words, TrimLineEnding, OnlyLineEnds, AllBlank, FindNewline;
    TrimKeepsWords(whole);
    BlanksAtEnd(line, ending);
  }

  /** A line that does not start with an asterisk is one request with the words of the line, and
      what follows the line is parsed as if it stood alone; only a line of nothing but line ends
      is no request. */
  lemma InlineRoundTrip(blanks: seq<string>, words: seq<string>, ending: string, rest: string)
    requires Splits(blanks, words) && IsLineEnd(ending) && '\n' !in Spaced(blanks, words)
    requires Spaced(blanks, words) == [] || Spaced(blanks, words)[0] != '*'
    ensures var line, after := Spaced(blanks, words), ParseAvailable(rest);
            var first := if words == [] && OnlyLineEnds(line) then [] else [ParsedCommand(words, Inline)];
            ParseAvailable(line + ending + rest) == Parsed(first + after.commands, after.leftover)
  {
    var line := Spaced(blanks, words);
    hide Spaced, Splits, NextTurn, Words, OnlyLineEnds;
    WordsOfSpaced(blanks, words);
    if words != [] { WordsAreNoLineEnds(blanks, words); }
    LineTurn(line, ending, rest);
    LineFound(line, ending, rest);
  }

  lemma WordsAreNoLineEnds(blanks: seq<string>, words: seq<string>)
    requires Splits(blanks, words) && words != []
    ensures !OnlyLineEnds(Spaced(blanks, words))
  {
    var line := Spaced(blanks, words);
    assert line[|blanks[0]|] == words[0][0] && !IsBlank(words[0][0]);
  }
}
