/** Strings the way the services see them: whitespace, line breaks, strip, splitlines and join. */
module Text {

  /** Characters that `str.isspace` accepts. */
  predicate IsSpace(c: char) {
    || '\U{0009}' <= c <= '\U{000D}'
    || '\U{001C}' <= c <= '\U{0020}'
    || c == '\U{0085}' || c == '\U{00A0}' || c == '\U{1680}'
    || '\U{2000}' <= c <= '\U{200A}'
    || c == '\U{2028}' || c == '\U{2029}' || c == '\U{202F}' || c == '\U{205F}' || c == '\U{3000}'
  }

  /** Characters at which `str.splitlines` ends a line; every one of them is whitespace. */
  predicate IsLineBreak(c: char) {
    || '\U{000A}' <= c <= '\U{000D}'
    || '\U{001C}' <= c <= '\U{001E}'
    || c == '\U{0085}' || c == '\U{2028}' || c == '\U{2029}'
  }

  /** The ends of a line, written out; a carriage return and a line feed together are one end. */
  const LINE_BREAKS: string :=
    "\n\r\U{000B}\U{000C}\U{001C}\U{001D}\U{001E}\U{0085}\U{2028}\U{2029}"

  /** Line breaks are exactly the listed characters, and whitespace; among ASCII characters so is the rest of it. */
  lemma CharacterClasses(c: char)
    ensures IsLineBreak(c) <==> c in LINE_BREAKS
    ensures IsLineBreak(c) ==> IsSpace(c)
    ensures c < '\U{0080}' ==> (IsSpace(c) <==> c in " \t\n\r\U{000B}\U{000C}\U{001C}\U{001D}\U{001E}\U{001F}")
  {
  }

  function Kept(c: char): string {
    if IsSpace(c) then "" else [c]
  }

  /** The text that remains when all whitespace is deleted. */
  function NonSpace(s: string): string {
    if s == "" then ""
    else Kept(s[0]) + NonSpace(s[1..])
  }

  function StripLeft(s: string): string {
    if s != "" && IsSpace(s[0]) then StripLeft(s[1..]) else s
  }

  function StripRight(s: string): string {
    if s != "" && IsSpace(s[|s| - 1]) then StripRight(s[..|s| - 1]) else s
  }

  function Strip(s: string): string {
    StripRight(StripLeft(s))
  }

  /** Position of the first line break, or the length when there is none. */
  function FirstBreak(s: string): (k: nat)
    ensures k <= |s|
    ensures k < |s| ==> IsLineBreak(s[k])
  {
    if s == "" || IsLineBreak(s[0]) then 0 else 1 + FirstBreak(s[1..])
  }

  /** A carriage return followed by a line feed is one break. */
  function BreakLength(s: string, k: nat): (n: nat)
    requires k < |s|
    ensures 1 <= n <= |s| - k
  {
    if s[k] == '\r' && k + 1 < |s| && s[k + 1] == '\n' then 2 else 1
  }

  function SplitLines(s: string): seq<string>
    decreases |s|
  {
    if s == "" then []
    else
      var k := FirstBreak(s);
      if k == |s| then [s] else [s[..k]] + SplitLines(s[k + BreakLength(s, k)..])
  }

  function Flatten<T>(parts: seq<seq<T>>): seq<T> {
    if parts == [] then [] else parts[0] + Flatten(parts[1..])
  }

  function Join(sep: string, parts: seq<string>): string {
    if parts == [] then ""
    else if |parts| == 1 then parts[0]
    else parts[0] + sep + Join(sep, parts[1..])
  }

  lemma {:induction false} FlattenConcat<T>(a: seq<seq<T>>, b: seq<seq<T>>)
    ensures Flatten(a + b) == Flatten(a) + Flatten(b)
  {
    if a == [] {
      assert a + b == b;
    } else {
      assert (a + b)[0] == a[0] && (a + b)[1..] == a[1..] + b;
      FlattenConcat(a[1..], b);
    }
  }

  lemma {:induction false} NonSpaceConcat(a: string, b: string)
    ensures NonSpace(a + b) == NonSpace(a) + NonSpace(b)
  {
    if a == "" {
      assert a + b == b;
    } else {
      hide Kept;
      assert (a + b)[0] == a[0] && (a + b)[1..] == a[1..] + b;
      NonSpaceConcat(a[1..], b);
      assert (Kept(a[0]) + NonSpace(a[1..])) + NonSpace(b) == Kept(a[0]) + (NonSpace(a[1..]) + NonSpace(b));
    }
  }

  lemma {:induction false} StripLeftKeepsText(s: string)
    ensures NonSpace(StripLeft(s)) == NonSpace(s) && |StripLeft(s)| <= |s|
    ensures StripLeft(s) != "" ==> !IsSpace(StripLeft(s)[0])
  {
    if s != "" && IsSpace(s[0]) {
      StripLeftKeepsText(s[1..]);
    }
  }

  lemma {:induction false} StripRightKeepsText(s: string)
    ensures NonSpace(StripRight(s)) == NonSpace(s) && |StripRight(s)| <= |s|
    ensures s != "" && !IsSpace(s[0]) ==> StripRight(s) != ""
  {
    if s != "" && IsSpace(s[|s| - 1]) {
      var front, last := s[..|s| - 1], s[|s| - 1..];
      assert s == front + last;
      NonSpaceConcat(front, last);
      StripRightKeepsText(front);
    }
  }

  /** Stripping only removes whitespace, and what is left is empty only when nothing else was there. */
  lemma StripKeepsText(s: string)
    ensures NonSpace(Strip(s)) == NonSpace(s)
    ensures |Strip(s)| <= |s|
    ensures Strip(s) == "" <==> NonSpace(s) == ""
  {
    StripLeftKeepsText(s);
    StripRightKeepsText(StripLeft(s));
    if Strip(s) != "" {
      assert StripLeft(s) != "";
      assert NonSpace(StripLeft(s)) != "";
    }
  }

  lemma BreakIsBlank(brk: string)
    requires |brk| == 1 || |brk| == 2
    requires IsLineBreak(brk[0]) && (|brk| == 2 ==> IsLineBreak(brk[1]))
    ensures NonSpace(brk) == ""
  {
    if |brk| == 2 {
      assert NonSpace(brk[1..]) == NonSpace(brk[1..][1..]);
    }
  }

  lemma {:induction false} SplitLinesKeepsText(s: string)
    ensures NonSpace(Flatten(SplitLines(s))) == NonSpace(s)
    decreases |s|
  {
    if s == "" {
      assert SplitLines(s) == [];
    } else {
      var k := FirstBreak(s);
      if k == |s| {
        assert SplitLines(s) == [s];
        assert Flatten([s]) == s;
      } else {
        var n := BreakLength(s, k);
        SplitLinesKeepsText(s[k + n..]);
        SplitLinesStep(s, k, n);
      }
    }
  }

  lemma SplitLinesUnfold(s: string, k: nat, n: nat)
    requires s != "" && k == FirstBreak(s) < |s| && n == BreakLength(s, k)
    ensures SplitLines(s) == [s[..k]] + SplitLines(s[k + n..])
  {
    hide IsLineBreak, FirstBreak, BreakLength;
    var rest := SplitLines(s[k + n..]);
    assert SplitLines(s) == [s[..k]] + rest;
  }

  lemma BreakCharacters(s: string, k: nat, n: nat)
    requires k == FirstBreak(s) < |s| && n == BreakLength(s, k)
    ensures n == 1 || (n == 2 && IsLineBreak(s[k + 1]))
    ensures IsLineBreak(s[k])
  {
    hide FirstBreak;
  }

  lemma ThreeParts(s: string, i: nat, j: nat)
    requires i <= j <= |s|
    ensures s == s[..i] + s[i..j] + s[j..]
  {
  }

  lemma SplitLinesStep(s: string, k: nat, n: nat)
    requires s != "" && k == FirstBreak(s) < |s| && n == BreakLength(s, k)
    requires NonSpace(Flatten(SplitLines(s[k + n..]))) == NonSpace(s[k + n..])
    ensures NonSpace(Flatten(SplitLines(s))) == NonSpace(s)
  {
    SplitLinesUnfold(s, k, n);
    BreakCharacters(s, k, n);
    ThreeParts(s, k, k + n);
    hide SplitLines, Flatten, NonSpace, IsLineBreak, FirstBreak, BreakLength;
    SplitStepKeepsText(s[..k], s[k..k + n], s[k + n..], SplitLines(s[k + n..]));
  }

  lemma ConcatAssoc<T>(a: seq<T>, b: seq<T>, c: seq<T>)
    ensures a + b + c == a + (b + c)
  {
  }

  lemma FlattenCons<T>(part: seq<T>, parts: seq<seq<T>>)
    ensures Flatten([part] + parts) == part + Flatten(parts)
  {
    assert ([part] + parts)[1..] == parts;
  }

  lemma SplitStepKeepsText(line: string, brk: string, rest: string, lines: seq<string>)
    requires |brk| == 1 || |brk| == 2
    requires IsLineBreak(brk[0]) && (|brk| == 2 ==> IsLineBreak(brk[1]))
    requires NonSpace(Flatten(lines)) == NonSpace(rest)
    ensures NonSpace(Flatten([line] + lines)) == NonSpace(line + brk + rest)
  {
    hide NonSpace, Flatten;
    NonSpaceConcat(line + brk, rest);
    NonSpaceConcat(line, brk);
    BreakIsBlank(brk);
    FlattenCons(line, lines);
    NonSpaceConcat(line, Flatten(lines));
  }

  // ---------- Where lines end ----------

  /** The text made of these lines, each followed by its break. */
  function Weave(lines: seq<string>, breaks: seq<string>): string
    requires |lines| == |breaks|
  {
    if lines == [] then "" else lines[0] + breaks[0] + Weave(lines[1..], breaks[1..])
  }

  predicate IsBreak(b: string) {
    b == "\r\n" || (|b| == 1 && b[0] in LINE_BREAKS)
  }

  predicate FreeOfBreaks(line: string) {
    forall c | c in line :: c != '\n' && c != '\r' && c !in LINE_BREAKS
  }

  /**
   * Lines without a break inside, each followed by one break, which the last line may lack unless it is empty. A
   * carriage return that ends a line has no line feed behind it.
   */
  predicate BrokenInto(lines: seq<string>, breaks: seq<string>) {
    && |lines| == |breaks|
    && (forall i | 0 <= i < |lines| :: FreeOfBreaks(lines[i]))
    && (forall i | 0 <= i < |lines| :: IsBreak(breaks[i]) || (i == |lines| - 1 && breaks[i] == "" && lines[i] != ""))
    && (forall i | 0 <= i < |lines| - 1 && breaks[i] == "\r" :: lines[i + 1] != "" || breaks[i + 1] != "\n")
  }

  /** The breaks at which the lines end. */
  function Breaks(s: string): (breaks: seq<string>)
    ensures |breaks| == |SplitLines(s)|
    decreases |s|
  {
    if s == "" then []
    else
      var k := FirstBreak(s);
      if k == |s| then [""]
      else [s[k..k + BreakLength(s, k)]] + Breaks(s[k + BreakLength(s, k)..])
  }

  lemma {:induction false} BeforeFirstBreak(s: string, i: nat)
    requires i < FirstBreak(s)
    ensures s[i] != '\n' && s[i] != '\r' && s[i] !in LINE_BREAKS
  {
    CharacterClasses(s[0]);
    if i > 0 {
      BeforeFirstBreak(s[1..], i - 1);
    }
  }

  lemma FirstLine(s: string)
    requires s != ""
    ensures FreeOfBreaks(s[..FirstBreak(s)])
  {
    forall c | c in s[..FirstBreak(s)] ensures c != '\n' && c != '\r' && c !in LINE_BREAKS {
      var i :| 0 <= i < FirstBreak(s) && s[i] == c;
      BeforeFirstBreak(s, i);
    }
  }

  lemma BreakAt(s: string, k: nat)
    requires k < |s| && s[k] in LINE_BREAKS
    ensures var b := s[k..k + BreakLength(s, k)];
      && IsBreak(b) && (b == "\r" && k + 1 < |s| ==> s[k + 1] != '\n')
  {
    hide LINE_BREAKS;
    var b := s[k..k + BreakLength(s, k)];
    assert b == if |b| == 2 then "\r\n" else [s[k]];
  }

  lemma FirstBreakIsListed(s: string)
    ensures FirstBreak(s) < |s| ==> s[FirstBreak(s)] in LINE_BREAKS
  {
    if FirstBreak(s) < |s| {
      CharacterClasses(s[FirstBreak(s)]);
    }
    hide FirstBreak, LINE_BREAKS, IsLineBreak;
  }

  lemma BreakIsBreak(s: string)
    requires FirstBreak(s) < |s|
    ensures var k := FirstBreak(s);
      var b := s[k..k + BreakLength(s, k)];
      && IsBreak(b) && (b == "\r" && k + 1 < |s| ==> s[k + 1] != '\n')
  {
    hide *;
    FirstBreakIsListed(s);
    BreakAt(s, FirstBreak(s));
  }

  /** Splitting gives lines without breaks that, with one break between neighbours, are the text. */
  lemma {:induction false} SplitLinesExact(s: string)
    ensures BrokenInto(SplitLines(s), Breaks(s)) && Weave(SplitLines(s), Breaks(s)) == s
    decreases |s|
  {
    if s != "" {
      var k := FirstBreak(s);
      FirstLine(s);
      if k == |s| {
        assert s[..k] == s;
        LastLine(s);
      } else {
        var rest := s[k + BreakLength(s, k)..];
        BreakIsBreak(s);
        SplitLinesExact(rest);
        if rest != "" {
          FeedComesFirst(SplitLines(rest), Breaks(rest));
        }
        hide FirstBreak, BreakLength, IsBreak, FreeOfBreaks;
        ThreeParts(s, k, k + BreakLength(s, k));
        ConsBroken(s[..k], s[k..k + BreakLength(s, k)], SplitLines(rest), Breaks(rest));
      }
    }
  }

  lemma LastLine(s: string)
    requires s != "" && FirstBreak(s) == |s| && FreeOfBreaks(s)
    ensures SplitLines(s) == [s] && Breaks(s) == [""]
    ensures BrokenInto([s], [""]) && Weave([s], [""]) == s
  {
    hide LINE_BREAKS, FreeOfBreaks, FirstBreak, BreakLength;
    assert [s][1..] == [] && [""][1..] == [];
    assert Weave([], []) == "";
  }

  lemma ConsBroken(line: string, brk: string, lines: seq<string>, breaks: seq<string>)
    requires FreeOfBreaks(line) && IsBreak(brk) && BrokenInto(lines, breaks)
    requires brk == "\r" && lines != [] ==> lines[0] != "" || breaks[0] != "\n"
    ensures BrokenInto([line] + lines, [brk] + breaks)
    ensures Weave([line] + lines, [brk] + breaks) == line + brk + Weave(lines, breaks)
  {
    hide FreeOfBreaks, IsBreak;
    var ls, bs := [line] + lines, [brk] + breaks;
    assert ls[1..] == lines && bs[1..] == breaks;
  }

  lemma FeedComesFirst(lines: seq<string>, breaks: seq<string>)
    requires |lines| == |breaks| > 0
    ensures lines[0] == "" && breaks[0] == "\n" ==> Weave(lines, breaks) != "" && Weave(lines, breaks)[0] == '\n'
  {
  }

  lemma TailIsFree(line: string)
    requires FreeOfBreaks(line) && line != ""
    ensures FreeOfBreaks(line[1..])
  {
    assert forall c | c in line[1..] :: c in line;
  }

  lemma {:induction false} FirstBreakAt(line: string, rest: string)
    requires FreeOfBreaks(line) && (rest != "" ==> rest[0] in LINE_BREAKS)
    ensures FirstBreak(line + rest) == |line|
  {
    var s := line + rest;
    if line == "" {
      assert s == rest;
      if rest != "" {
        CharacterClasses(rest[0]);
      }
    } else {
      CharacterClasses(line[0]);
      assert s[1..] == line[1..] + rest;
      TailIsFree(line);
      hide FreeOfBreaks, LINE_BREAKS;
      FirstBreakAt(line[1..], rest);
    }
  }

  /** No other lines and breaks make up the text: splitting undoes the weaving. */
  lemma {:induction false} SplitLinesUnique(lines: seq<string>, breaks: seq<string>)
    requires BrokenInto(lines, breaks)
    ensures SplitLines(Weave(lines, breaks)) == lines
  {
    if lines != [] {
      var line, brk, rest := lines[0], breaks[0], Weave(lines[1..], breaks[1..]);
      var s := line + brk + rest;
      if brk == "" {
        assert lines[1..] == [] && s == line + "" == line;
        FirstBreakAt(line, "");
        assert lines == [line];
      } else {
        assert brk[0] in LINE_BREAKS;
        assert s == line + (brk + rest);
        FirstBreakAt(line, brk + rest);
        BreakOfWeave(lines, breaks);
        SplitLinesUnique(lines[1..], breaks[1..]);
        assert s[|line| + |brk|..] == rest && s[..|line|] == line;
      }
    }
  }

  lemma BreakOfWeave(lines: seq<string>, breaks: seq<string>)
    requires BrokenInto(lines, breaks) && lines != [] && breaks[0] != ""
    ensures var s := Weave(lines, breaks);
      && |lines[0]| < |s| && BreakLength(s, |lines[0]|) == |breaks[0]|
  {
    var line, brk, rest := lines[0], breaks[0], Weave(lines[1..], breaks[1..]);
    var s := line + brk + rest;
    assert s[|line|] == brk[0];
    if brk == "\r" && rest != "" {
      assert lines[1..] != [];
      RestStarts(lines[1..], breaks[1..]);
    }
  }

  lemma RestStarts(lines: seq<string>, breaks: seq<string>)
    requires BrokenInto(lines, breaks) && lines != [] && (lines[0] != "" || breaks[0] != "\n")
    ensures Weave(lines, breaks) != "" && Weave(lines, breaks)[0] != '\n'
  {
    if lines[0] != "" {
      assert lines[0][0] in lines[0];
    } else if |breaks[0]| == 1 {
      assert breaks[0] == [breaks[0][0]];
    }
  }

  /** A line feed between neighbours. */
  function LineFeeds(n: nat): seq<string> {
    seq(n, i => if i < n - 1 then "\n" else "")
  }

  lemma {:induction false} JoinIsWeave(parts: seq<string>)
    ensures Join("\n", parts) == Weave(parts, LineFeeds(|parts|))
  {
    if |parts| == 1 {
      assert Weave(parts[1..], LineFeeds(1)[1..]) == "";
    } else if parts != [] {
      JoinIsWeave(parts[1..]);
      assert LineFeeds(|parts|)[1..] == LineFeeds(|parts| - 1);
    }
  }

  lemma {:induction false} JoinConcat(a: seq<string>, b: seq<string>)
    requires a != [] && b != []
    ensures Join("\n", a + b) == Join("\n", a) + "\n" + Join("\n", b)
  {
    assert (a + b)[0] == a[0] && (a + b)[1..] == a[1..] + b;
    if |a| > 1 {
      JoinConcat(a[1..], b);
    } else {
      assert a[1..] + b == b;
    }
  }

  /** A text with no line breaks but line feeds is its lines joined, apart from a line feed at its end. */
  lemma LineFeedText(s: string)
    requires forall c | c in s && c in LINE_BREAKS :: c == '\n'
    ensures var joined := Join("\n", SplitLines(s)); s == joined || s == joined + "\n"
  {
    SplitLinesExact(s);
    JoinIsWeave(SplitLines(s));
    LineFeedBreaks(SplitLines(s), Breaks(s));
  }

  lemma {:induction false} LineFeedBreaks(lines: seq<string>, breaks: seq<string>)
    requires BrokenInto(lines, breaks)
    requires forall c | c in Weave(lines, breaks) && c in LINE_BREAKS :: c == '\n'
    ensures var joined := Weave(lines, LineFeeds(|lines|));
      Weave(lines, breaks) == joined || Weave(lines, breaks) == joined + "\n"
  {
    if lines != [] {
      var s, rest := Weave(lines, breaks), Weave(lines[1..], breaks[1..]);
      forall c | c in rest && c in LINE_BREAKS ensures c == '\n' {
        assert c in s;
      }
      LineFeedBreaks(lines[1..], breaks[1..]);
      if breaks[0] != "" {
        assert breaks[0][0] in s && breaks[0][0] in LINE_BREAKS;
        assert breaks[0] == "\n";
      }
      if |lines| > 1 {
        assert LineFeeds(|lines|)[1..] == LineFeeds(|lines| - 1);
      }
    }
  }

  lemma NewlineIsBlank()
    ensures NonSpace("\n") == ""
  {
    assert NonSpace("") == "";
  }

  lemma {:induction false} JoinLinesKeepsText(parts: seq<string>)
    ensures NonSpace(Join("\n", parts)) == NonSpace(Flatten(parts))
  {
    if |parts| == 1 {
      assert Flatten(parts[1..]) == "";
      assert Flatten(parts) == parts[0];
    } else if parts != [] {
      JoinLinesKeepsText(parts[1..]);
      assert Join("\n", parts) == parts[0] + "\n" + Join("\n", parts[1..]);
      assert Flatten(parts) == parts[0] + Flatten(parts[1..]);
      hide NonSpace, Flatten, Join;
      NonSpaceConcat(parts[0] + "\n", Join("\n", parts[1..]));
      NonSpaceConcat(parts[0], "\n");
      NewlineIsBlank();
      NonSpaceConcat(parts[0], Flatten(parts[1..]));
    }
  }

  lemma {:induction false} StripLeftStarts(s: string)
    ensures StripLeft(s) != "" ==> !IsSpace(StripLeft(s)[0])
  {
    if s != "" && IsSpace(s[0]) {
      StripLeftStarts(s[1..]);
    }
  }

  lemma {:induction false} StripRightEnds(s: string)
    ensures StripRight(s) != "" ==> !IsSpace(StripRight(s)[|StripRight(s)| - 1]) && StripRight(s)[0] == s[0]
  {
    if s != "" && IsSpace(s[|s| - 1]) {
      StripRightEnds(s[..|s| - 1]);
    }
  }

  /** Stripping twice is stripping once. */
  lemma StripIdempotent(s: string)
    ensures Strip(Strip(s)) == Strip(s)
  {
    StripLeftStarts(s);
    StripRightEnds(StripLeft(s));
  }

  // ---------- What stripping takes away ----------

  /** Stripping cuts blanks off both ends, down to a character that is none. */
  lemma StripCutsEnds(s: string) returns (left: string, right: string)
    ensures s == left + Strip(s) + right && NonSpace(left) == "" && NonSpace(right) == ""
    ensures Strip(s) != "" ==> !IsSpace(Strip(s)[0]) && !IsSpace(Strip(s)[|Strip(s)| - 1])
  {
    hide IsSpace, NonSpace, StripLeft, StripRight;
    left := StripLeftCuts(s);
    right := StripRightCuts(StripLeft(s));
    StripLeftStarts(s);
    StripRightEnds(StripLeft(s));
    assert s == left + (Strip(s) + right) == left + Strip(s) + right;
  }

  lemma {:induction false} StripLeftCuts(s: string) returns (left: string)
    ensures s == left + StripLeft(s) && NonSpace(left) == ""
  {
    hide IsSpace;
    left := "";
    if s != "" && IsSpace(s[0]) {
      var more := StripLeftCuts(s[1..]);
      left := [s[0]] + more;
      assert left[1..] == more;
    }
  }

  lemma {:induction false} StripRightCuts(s: string) returns (right: string)
    ensures s == StripRight(s) + right && NonSpace(right) == ""
  {
    hide IsSpace;
    right := "";
    if s != "" && IsSpace(s[|s| - 1]) {
      var more := StripRightCuts(s[..|s| - 1]);
      var last := [s[|s| - 1]];
      right := more + last;
      assert s == s[..|s| - 1] + last;
      assert last[1..] == "";
      NonSpaceConcat(more, last);
    }
  }
}
