/**
 * The two regular expressions of the table-of-contents transform, written
 * out as scanners: `TOCRegexp`, which recognises a `{toc}` line, and
 * `TOCStartLevelRegexp`, which reads its `h2..h4` parameter. Both are
 * case-insensitive and `[ ]` in them is a single space character.
 */
module TocSyntax {
  import opened Wrappers
  import opened Text

  /** The optional `[<>]` of `TOCRegexp`: `>` floats the list right, `<` left. */
  datatype Side = NoSide | Right | Left

  /** A recognised `{toc}` line: its side marker (`$1`) and its parameter (`$2`). */
  datatype TocLine = TocLine(side: Side, param: Option<string>)

  /** The levels `TOCStartLevelRegexp` captures: `$1` and `$2`. */
  datatype LevelRange = LevelRange(start: Option<nat>, end: Option<nat>)

  /** Number of space characters in `c` from position `i` on. */
  function SpaceRun(c: string, i: nat): (n: nat)
    requires i <= |c|
    ensures i + n <= |c|
    ensures forall k :: i <= k < i + n ==> c[k] == ' '
    ensures i + n < |c| ==> c[i + n] != ' '
    decreases |c| - i
  {
    if i < |c| && c[i] == ' ' then 1 + SpaceRun(c, i + 1) else 0
  }

  /** `[ ]*\}[ ]*$` matches `c` from position `e` to its end. */
  predicate ClosesAt(c: string, e: nat)
    requires e <= |c|
  {
    var j := e + SpaceRun(c, e);
    j < |c| && c[j] == '}' && j + 1 + SpaceRun(c, j + 1) == |c|
  }

  /** The lazy `(.+?)`: the first end position at or after `from` where the closer matches. */
  function LazyEnd(c: string, from: nat): (r: Option<nat>)
    ensures r.Some? ==> from <= r.value <= |c| && ClosesAt(c, r.value)
    ensures r.Some? ==> forall e :: from <= e < r.value ==> !ClosesAt(c, e)
    ensures r.None? ==> forall e :: from <= e <= |c| ==> !ClosesAt(c, e)
    decreases |c| + 1 - from
  {
    if from > |c| then None
    else if ClosesAt(c, from) then Some(from)
    else LazyEnd(c, from + 1)
  }

  /** The lazy parameter that starts at `p` finds a closer after it. */
  predicate ParamCloses(c: string, p: nat) {
    LazyEnd(c, p + 1).Some?
  }

  /**
   * `[ ]+(.+?)` after `toc`, with at most `k` spaces taken: the greedy space
   * run is tried first and then shortened one space at a time, so the
   * parameter may start with a space. The result is where the parameter starts.
   */
  function SpacedParam(c: string, t: nat, k: nat): (r: Option<nat>)
    requires 1 <= k && t + k <= |c|
    ensures r.Some? ==> t < r.value <= t + k && ParamCloses(c, r.value)
    decreases k
  {
    if ParamCloses(c, t + k) then Some(t + k)
    else if k == 1 then None
    else SpacedParam(c, t, k - 1)
  }

  /**
   * The space run `SpacedParam` keeps is the longest of at most `k` spaces
   * after which the lazy parameter finds a closer, and it fails only when
   * there is none.
   */
  lemma {:induction false} SpacedParamLongest(c: string, t: nat, k: nat)
    requires 1 <= k && t + k <= |c|
    ensures SpacedParam(c, t, k).Some? ==> forall m :: SpacedParam(c, t, k).value < m <= t + k ==> !ParamCloses(c, m)
    ensures SpacedParam(c, t, k).None? ==> forall m :: t < m <= t + k ==> !ParamCloses(c, m)
    decreases k
  {
    if !ParamCloses(c, t + k) && k > 1 {
      SpacedParamLongest(c, t, k - 1);
    }
  }

  /** Where the lazy `(.+?)` that starts at `p` stops: the first position after `p` at which the closer matches. */
  function ParamEnd(c: string, p: nat): (e: nat)
    requires ParamCloses(c, p)
    ensures p < e <= |c| && ClosesAt(c, e)
    ensures forall e' :: p < e' < e ==> !ClosesAt(c, e')
  {
    LazyEnd(c, p + 1).value
  }

  /** The optional parameter group after `toc` at position `t`: where the parameter starts and ends. */
  function ParamSpan(c: string, t: nat): (r: Option<(nat, nat)>)
    requires t <= |c|
    ensures r.Some? ==> t < r.value.0 < r.value.1 <= |c| && ClosesAt(c, r.value.1)
    ensures r.Some? ==> forall e :: r.value.0 < e < r.value.1 ==> !ClosesAt(c, e)
    ensures r.Some? ==> (c[t] == ':' && r.value.0 == t + 1) || (c[t] == ' ' && r.value.0 <= t + SpaceRun(c, t))
  {
    if t < |c| && c[t] == ':' then
      if ParamCloses(c, t + 1) then Some((t + 1, ParamEnd(c, t + 1))) else None
    else if t < |c| && c[t] == ' ' then
      match SpacedParam(c, t, SpaceRun(c, t))
      case Some(p) => Some((p, ParamEnd(c, p)))
      case None => None
    else None
  }

  predicate IsTocWord(w: string) {
    |w| == 3 && (w[0] == 't' || w[0] == 'T') && (w[1] == 'o' || w[1] == 'O') && (w[2] == 'c' || w[2] == 'C')
  }

  function SideOf(c: char): Side {
    if c == '>' then Right else if c == '<' then Left else NoSide
  }

  /** `TOCRegexp` on one line `c` (without its newline); `None` when it does not match. */
  function ParseTocLine(c: string): (r: Option<TocLine>)
    ensures r.Some? ==> |c| >= 5 && c[0] == '{' && '}' in c
    ensures r.Some? && r.value.param.Some? ==> r.value.param.value != []
  {
    if c == [] || c[0] != '{' then None else AfterBrace(c, 1 + SpaceRun(c, 1))
  }

  /** The side marker and `toc` at position `i`, after `{` and the spaces that follow it. */
  function AfterBrace(c: string, i: nat): (r: Option<TocLine>)
    requires 1 <= i <= |c|
    ensures r.Some? ==> |c| >= i + 4 && '}' in c
    ensures r.Some? && r.value.param.Some? ==> r.value.param.value != []
  {
    var side := if i < |c| then SideOf(c[i]) else NoSide;
    var t0 := if side == NoSide then i else i + 1;
    if t0 + 3 > |c| || !IsTocWord(c[t0..t0 + 3]) then None
    else AfterToc(c, side, t0 + 3)
  }

  /** The rest of `TOCRegexp` once `{`, the side marker and `toc` are read and `t` is the next position. */
  function AfterToc(c: string, side: Side, t: nat): (r: Option<TocLine>)
    requires 1 <= t <= |c|
    ensures r.Some? ==> '}' in c
    ensures r.Some? && r.value.param.Some? ==> r.value.param.value != []
  {
    match ParamSpan(c, t)
    case Some((p, e)) =>
      var j := e + SpaceRun(c, e);
      assert c[j] in c;
      Some(TocLine(side, Some(c[p..e])))
    case None =>
      if ClosesAt(c, t) then
        var j := t + SpaceRun(c, t);
        assert c[j] in c;
        Some(TocLine(side, None))
      else None
  }

  predicate IsLevelDigit(c: char) { '1' <= c <= '6' }

  predicate IsH(c: char) { c == 'h' || c == 'H' }

  function DigitValue(c: char): (n: nat)
    requires IsLevelDigit(c)
    ensures 1 <= n <= 6 && DigitChar(n) == c
  {
    (c as int) - ('0' as int)
  }

  /** Number of `.` characters in `q` from position `i` on. */
  function DotRun(q: string, i: nat): (n: nat)
    requires i <= |q|
    ensures i + n <= |q|
    ensures forall k :: i <= k < i + n ==> q[k] == '.'
    ensures i + n < |q| ==> q[i + n] != '.'
    decreases |q| - i
  {
    if i < |q| && q[i] == '.' then 1 + DotRun(q, i + 1) else 0
  }

  /** The optional end level `(?:h?([1-6]))?$` on what follows the range symbol. */
  function EndLevel(tail: string): (r: Option<Option<nat>>)
    ensures r == Some(None) <==> tail == []
    ensures r.Some? && r.value.Some? ==>
      1 <= r.value.value <= 6 && tail[|tail| - 1] == DigitChar(r.value.value)
      && (|tail| == 1 || (|tail| == 2 && IsH(tail[0])))
  {
    if tail == [] then Some(None)
    else if |tail| == 1 && IsLevelDigit(tail[0]) then Some(Some(DigitValue(tail[0])))
    else if |tail| == 2 && IsH(tail[0]) && IsLevelDigit(tail[1]) then Some(Some(DigitValue(tail[1])))
    else None
  }

  /** `TOCStartLevelRegexp` on a parameter: `None` when it does not match. */
  function ParseLevels(q: string): (r: Option<LevelRange>)
    ensures r.Some? && r.value.start.Some? ==> 1 <= r.value.start.value <= 6
    ensures r.Some? && r.value.end.Some? ==> 1 <= r.value.end.value <= 6
  {
    var hasStart := |q| >= 2 && IsH(q[0]) && IsLevelDigit(q[1]);
    var start := if hasStart then Some(DigitValue(q[1])) else None;
    var i := if hasStart then 2 else 0;
    var dots := DotRun(q, i);
    var j := if dots >= 2 then i + dots else if i < |q| && q[i] == '-' then i + 1 else i;
    if j == i then None
    else match EndLevel(q[j..])
      case Some(end) => Some(LevelRange(start, end))
      case None => None
  }

  function SideMark(side: Side): string {
    match side
    case NoSide => ""
    case Right => ">"
    case Left => "<"
  }

  /** `{`, the side marker and `toc`. */
  function TocHeadText(side: Side): string {
    "{" + SideMark(side) + "toc"
  }

  /** The text of a `{toc}` line with the given side marker and a `:`-separated parameter. */
  function TocText(side: Side, param: Option<string>): string {
    TocHeadText(side) + (if param.Some? then ":" + param.value else "") + "}"
  }

  /** `n` copies of the character `ch`. */
  function Repeat(ch: char, n: nat): (r: string)
    ensures |r| == n && forall k :: 0 <= k < n ==> r[k] == ch
  {
    if n == 0 then [] else [ch] + Repeat(ch, n - 1)
  }

  /**
   * One way of writing a line that `TOCRegexp` matches: `{`, `lead` spaces,
   * the side marker, `toc` in any case, then either nothing or a separator
   * (`:` or one or more spaces) followed by a non-empty parameter, and last
   * `trail` spaces, `}` and `foot` spaces.
   */
  datatype TocSpelling = TocSpelling(lead: nat, side: Side, word: string, sep: string, param: Option<string>, trail: nat, foot: nat)

  predicate ValidTocSpelling(w: TocSpelling) {
    IsTocWord(w.word)
    && (w.param.None? ==> w.sep == [])
    && (w.param.Some? ==>
          w.param.value != []
          && (w.sep == ":" || (w.sep != [] && forall k :: 0 <= k < |w.sep| ==> w.sep[k] == ' ')))
  }

  function TocSpellingText(w: TocSpelling): string {
    HeadSpelling(w.lead, w.side) + w.word + TailSpelling(w.sep, w.param, w.trail, w.foot)
  }

  /** `{`, `lead` spaces and the side marker. */
  function HeadSpelling(lead: nat, side: Side): string {
    "{" + Repeat(' ', lead) + SideMark(side)
  }

  /** The separator and parameter, if any, then `trail` spaces, `}` and `foot` spaces. */
  function TailSpelling(sep: string, param: Option<string>, trail: nat, foot: nat): string {
    sep + (if param.Some? then param.value else "") + CloserSpelling(trail, foot)
  }

  function CloserSpelling(trail: nat, foot: nat): string {
    Repeat(' ', trail) + "}" + Repeat(' ', foot)
  }

  /** `c` is written as `w`, which carries the side marker and parameter of `l`. */
  predicate SpellsTocLine(w: TocSpelling, c: string, l: TocLine) {
    ValidTocSpelling(w) && TocSpellingText(w) == c && l == TocLine(w.side, w.param)
  }

  /**
   * One way of writing a parameter that `TOCStartLevelRegexp` matches: an
   * optional start level after `h` or `H`, the range symbol (`-` when `dots`
   * is 0, otherwise that many dots, at least two), and an optional end level,
   * with or without an `h` or `H` before it.
   */
  datatype LevelSpelling = LevelSpelling(startH: char, start: Option<nat>, dots: nat, endH: string, end: Option<nat>)

  predicate ValidLevelSpelling(w: LevelSpelling) {
    (w.start.Some? ==> IsH(w.startH) && 1 <= w.start.value <= 6)
    && (w.dots == 0 || w.dots >= 2)
    && (w.end.Some? ==> 1 <= w.end.value <= 6 && (w.endH == [] || (|w.endH| == 1 && IsH(w.endH[0]))))
    && (w.end.None? ==> w.endH == [])
  }

  /** An optional start level after `h` or `H`. */
  function StartText(startH: char, start: Option<nat>): string
    requires start.Some? ==> 1 <= start.value <= 6
  {
    if start.Some? then [startH, DigitChar(start.value)] else ""
  }

  /** The range symbol: `-` when `dots` is 0, otherwise that many dots. */
  function RangeText(dots: nat): string {
    if dots == 0 then "-" else Repeat('.', dots)
  }

  /** An optional end level, after `endH` (empty, `h` or `H`). */
  function EndText(endH: string, end: Option<nat>): string
    requires end.Some? ==> 1 <= end.value <= 6
  {
    if end.Some? then endH + [DigitChar(end.value)] else ""
  }

  function LevelSpellingText(w: LevelSpelling): string
    requires ValidLevelSpelling(w)
  {
    StartText(w.startH, w.start) + RangeText(w.dots) + EndText(w.endH, w.end)
  }

  /** `q` is written as `w`, which carries the levels of `r`. */
  predicate SpellsLevels(w: LevelSpelling, q: string, r: LevelRange) {
    ValidLevelSpelling(w) && LevelSpellingText(w) == q && r == LevelRange(w.start, w.end)
  }

  /** The text of a level parameter such as `h2..h4`, `..h3` or `h2..`. */
  function LevelText(start: Option<nat>, end: Option<nat>): string
    requires start.Some? ==> 1 <= start.value <= 6
    requires end.Some? ==> 1 <= end.value <= 6
  {
    LevelSpellingText(LevelSpelling('h', start, 2, if end.Some? then "h" else "", end))
  }

  /** `LazyEnd` stops at the first closing position. */
  lemma {:induction false} LazyEndAt(c: string, from: nat, e: nat)
    requires from <= e <= |c| && ClosesAt(c, e)
    requires forall e' :: from <= e' < e ==> !ClosesAt(c, e')
    ensures LazyEnd(c, from) == Some(e)
    decreases e - from
  {
    if from < e {
      LazyEndAt(c, from + 1, e);
    }
  }

  /** The closer cannot match inside a stretch without `}` that ends in a non-space character. */
  lemma NoCloserInside(c: string, lo: nat, hi: nat)
    requires lo <= hi <= |c| && 0 < hi && c[hi - 1] != ' '
    requires forall k :: lo <= k < hi ==> c[k] != '}'
    ensures forall e :: lo <= e < hi ==> !ClosesAt(c, e)
  {
    forall e | lo <= e < hi
      ensures !ClosesAt(c, e)
    {
      var j := e + SpaceRun(c, e);
      assert j <= hi - 1;
    }
  }

  /** A `{toc}` line written with a `:` parameter that has no `}` and does not end in a space reads back as written. */
  lemma TocTextRoundTrip(side: Side, param: Option<string>)
    requires param.Some? ==> param.value != [] && '}' !in param.value && param.value[|param.value| - 1] != ' '
    ensures ParseTocLine(TocText(side, param)) == Some(TocLine(side, param))
  {
    if param.Some? {
      ParamRoundTrip(side, param.value);
    } else {
      BareRoundTrip(side);
    }
  }

  lemma BareRoundTrip(side: Side)
    ensures ParseTocLine(TocText(side, None)) == Some(TocLine(side, None))
  {
    var w := TocSpelling(0, side, "toc", [], None, 0, 0);
    CanonicalSpelling(side, [], None);
    assert TocText(side, None) == TocHeadText(side) + [] + "" + "}";
    TocSpellingReadsBack(w);
  }

  lemma ParamRoundTrip(side: Side, q: string)
    requires q != [] && '}' !in q && q[|q| - 1] != ' '
    ensures ParseTocLine(TocText(side, Some(q))) == Some(TocLine(side, Some(q)))
  {
    var w := TocSpelling(0, side, "toc", ":", Some(q), 0, 0);
    CanonicalSpelling(side, ":", Some(q));
    assert TocText(side, Some(q)) == TocHeadText(side) + ":" + q + "}";
    TocSpellingReadsBack(w);
  }

  /**
   * A `{toc}` line whose parameter follows one or more spaces reads back as
   * written when the parameter holds no `}` and starts and ends with a
   * non-space: the greedy space run takes every space and the lazy
   * parameter runs up to the final `}`.
   */
  lemma SpacedRoundTrip(side: Side, n: nat, q: string)
    requires 1 <= n && q != [] && '}' !in q && q[0] != ' ' && q[|q| - 1] != ' '
    ensures ParseTocLine(TocHeadText(side) + Repeat(' ', n) + q + "}") == Some(TocLine(side, Some(q)))
  {
    var w := TocSpelling(0, side, "toc", Repeat(' ', n), Some(q), 0, 0);
    CanonicalSpelling(side, Repeat(' ', n), Some(q));
    TocSpellingReadsBack(w);
  }

  /** A spelling without extra spaces and with a lower-case `toc` is the line `TocHeadText` starts. */
  lemma CanonicalSpelling(side: Side, sep: string, param: Option<string>)
    ensures TocSpellingText(TocSpelling(0, side, "toc", sep, param, 0, 0))
      == TocHeadText(side) + sep + (if param.Some? then param.value else "") + "}"
  {
    assert Repeat(' ', 0) == [];
    assert HeadSpelling(0, side) == "{" + SideMark(side);
    assert CloserSpelling(0, 0) == "}";
  }

  /** With a parameter found after `toc`, the line reads as that parameter. */
  lemma AfterTocParam(c: string, side: Side, t: nat)
    requires 1 <= t <= |c| && ParamSpan(c, t).Some?
    ensures AfterToc(c, side, t) == Some(TocLine(side, Some(c[ParamSpan(c, t).value.0..ParamSpan(c, t).value.1])))
  {
  }

  /** When the lazy parameter closes after the whole space run, that run is kept. */
  lemma SpacedParamFirst(c: string, t: nat, n: nat)
    requires t < |c| && c[t] == ' ' && SpaceRun(c, t) == n && ParamCloses(c, t + n)
    ensures ParamSpan(c, t) == Some((t + n, ParamEnd(c, t + n)))
  {
    assert SpacedParam(c, t, n) == Some(t + n);
  }

  /** A level parameter written as `h<start>..h<end>`, either level optional, reads back as written. */
  lemma LevelTextRoundTrip(start: Option<nat>, end: Option<nat>)
    requires start.Some? ==> 1 <= start.value <= 6
    requires end.Some? ==> 1 <= end.value <= 6
    ensures ParseLevels(LevelText(start, end)) == Some(LevelRange(start, end))
  {
    LevelSpellingRoundTrip(LevelSpelling('h', start, 2, if end.Some? then "h" else "", end));
  }

  /**
   * Every way of writing a level parameter reads back as its levels: `h` or
   * `H`, `-` or any run of two or more dots, and an end level with or without
   * its `h`.
   */
  lemma LevelSpellingRoundTrip(w: LevelSpelling)
    requires ValidLevelSpelling(w)
    ensures ParseLevels(LevelSpellingText(w)) == Some(LevelRange(w.start, w.end))
  {
    var q := LevelSpellingText(w);
    var i := |StartText(w.startH, w.start)|;
    var j := i + |RangeText(w.dots)|;
    SpelledStart(q, w);
    SpelledRange(q, w, i);
    assert q[j..] == EndText(w.endH, w.end);
    EndLevelOfText(w.endH, w.end);
  }

  /** The scanner finds the start level exactly when the spelling has one. */
  lemma SpelledStart(q: string, w: LevelSpelling)
    requires ValidLevelSpelling(w) && q == LevelSpellingText(w)
    ensures (|q| >= 2 && IsH(q[0]) && IsLevelDigit(q[1])) <==> w.start.Some?
    ensures w.start.Some? ==> DigitValue(q[1]) == w.start.value
  {
    if w.start.Some? {
      assert q[0] == w.startH && q[1] == DigitChar(w.start.value);
      DigitValueOf(w.start.value);
    } else {
      assert q[0] == RangeText(w.dots)[0];
    }
  }

  /** The scanner reads the range symbol of the spelling and stops after it. */
  lemma SpelledRange(q: string, w: LevelSpelling, i: nat)
    requires ValidLevelSpelling(w) && q == LevelSpellingText(w) && i == |StartText(w.startH, w.start)|
    ensures i < |q|
    ensures w.dots == 0 ==> q[i] == '-' && DotRun(q, i) == 0
    ensures w.dots != 0 ==> DotRun(q, i) == w.dots
  {
    var j := i + |RangeText(w.dots)|;
    assert q[i..j] == RangeText(w.dots);
    assert q[i] == RangeText(w.dots)[0];
    if w.dots != 0 {
      assert forall k :: i <= k < j ==> q[k] == q[i..j][k - i];
      assert j < |q| ==> q[j] == EndText(w.endH, w.end)[0];
    }
  }

  /** The end level reads back from its spelling. */
  lemma EndLevelOfText(endH: string, end: Option<nat>)
    requires end.Some? ==> 1 <= end.value <= 6 && (endH == [] || (|endH| == 1 && IsH(endH[0])))
    ensures EndLevel(EndText(endH, end)) == Some(end)
  {
    if end.Some? {
      DigitValueOf(end.value);
    }
  }

  /** Every parameter the scanner accepts is a spelling of the levels it reads. */
  lemma ParseLevelsSound(q: string)
    requires ParseLevels(q).Some?
    ensures exists w :: SpellsLevels(w, q, ParseLevels(q).value)
  {
    var r := ParseLevels(q).value;
    var hasStart := |q| >= 2 && IsH(q[0]) && IsLevelDigit(q[1]);
    var i := if hasStart then 2 else 0;
    var dots := DotRun(q, i);
    var j := if dots >= 2 then i + dots else i + 1;
    assert EndLevel(q[j..]) == Some(r.end);
    var startH := if hasStart then q[0] else 'h';
    assert q[..i] == StartText(startH, r.start);
    var d := RangeSpelled(q, i, j);
    var endH := EndSpelled(q[j..]);
    SpellingOfLevelParts(q, r, LevelSpelling(startH, r.start, d, endH, r.end), i, j);
  }

  /** The range symbol the scanner reads between `i` and `j`. */
  lemma RangeSpelled(q: string, i: nat, j: nat) returns (dots: nat)
    requires i < j <= |q|
    requires DotRun(q, i) >= 2 ==> j == i + DotRun(q, i)
    requires DotRun(q, i) < 2 ==> q[i] == '-' && j == i + 1
    ensures (dots == 0 || dots >= 2) && q[i..j] == RangeText(dots)
  {
    if DotRun(q, i) >= 2 {
      dots := DotRun(q, i);
      assert q[i..j] == Repeat('.', dots);
    } else {
      dots := 0;
      assert q[i..j] == [q[i]];
    }
  }

  /** The end level the scanner reads, with the `h` or `H` written before it. */
  lemma EndSpelled(tail: string) returns (endH: string)
    requires EndLevel(tail).Some?
    ensures var end := EndLevel(tail).value;
      (end.Some? ==> endH == [] || (|endH| == 1 && IsH(endH[0])))
      && (end.None? ==> endH == []) && tail == EndText(endH, end)
  {
    endH := if |tail| == 2 then tail[..1] else [];
    if |tail| >= 1 {
      assert tail == endH + [tail[|tail| - 1]];
    }
  }

  /** A parameter made of spelled start, range and end pieces is spelled by their spelling. */
  lemma SpellingOfLevelParts(q: string, r: LevelRange, w: LevelSpelling, i: nat, j: nat)
    requires ValidLevelSpelling(w) && r == LevelRange(w.start, w.end) && i <= j <= |q|
    requires q[..i] == StartText(w.startH, w.start) && q[i..j] == RangeText(w.dots) && q[j..] == EndText(w.endH, w.end)
    ensures exists w' :: SpellsLevels(w', q, r)
  {
    assert q == q[..i] + q[i..j] + q[j..];
    assert SpellsLevels(w, q, r);
  }

  /** Every spelling of a `{toc}` line is accepted, whatever its case and spacing. */
  lemma TocSpellingAccepted(w: TocSpelling)
    requires ValidTocSpelling(w)
    ensures ParseTocLine(TocSpellingText(w)).Some?
  {
    var c, t := SpelledHeadRead(w);
    TailAccepted(c, w.side, t, w.sep, w.param, w.trail, w.foot);
  }

  /**
   * A spelling reads back its side marker and parameter when backtracking
   * cannot move the parameter's ends: the parameter holds no `}` and does
   * not end in a space, after spaces it does not start with one either, and
   * without a parameter at most one space precedes `}` (two would make a
   * one-space parameter).
   */
  lemma TocSpellingReadsBack(w: TocSpelling)
    requires ValidTocSpelling(w)
    requires w.param.None? ==> w.trail <= 1
    requires w.param.Some? ==> '}' !in w.param.value && w.param.value[|w.param.value| - 1] != ' '
    requires w.param.Some? && w.sep != ":" ==> w.param.value[0] != ' '
    ensures ParseTocLine(TocSpellingText(w)) == Some(TocLine(w.side, w.param))
  {
    var c, t := SpelledHeadRead(w);
    TailReadsBack(c, w.side, t, w.sep, w.param, w.trail, w.foot);
  }

  /** Whatever its spacing, a spelled tail after `toc` is accepted. */
  lemma TailAccepted(c: string, side: Side, t: nat, sep: string, param: Option<string>, trail: nat, foot: nat)
    requires 1 <= t <= |c| && c[t..] == TailSpelling(sep, param, trail, foot)
    requires param.None? ==> sep == []
    requires param.Some? ==> param.value != [] && (sep == ":" || (sep != [] && forall k :: 0 <= k < |sep| ==> sep[k] == ' '))
    ensures AfterToc(c, side, t).Some?
  {
    match param
    case None =>
      assert TailSpelling(sep, param, trail, foot) == CloserSpelling(trail, foot);
      CloserCloses(c, t, trail, foot);
      AfterTocCloses(c, side, t);
    case Some(q) =>
      ParamFound(c, t, sep, q, trail, foot);
      AfterTocParam(c, side, t);
  }

  /** After a spelled separator, a spelled parameter and a closer, some parameter is found. */
  lemma ParamFound(c: string, t: nat, sep: string, q: string, trail: nat, foot: nat)
    requires t <= |c| && c[t..] == TailSpelling(sep, Some(q), trail, foot)
    requires q != [] && (sep == ":" || (sep != [] && forall k :: 0 <= k < |sep| ==> sep[k] == ' '))
    ensures ParamSpan(c, t).Some?
  {
    if sep == ":" {
      ColonShapeOf(c, t, q, trail, foot);
      ParamClosesAt(c, t + 1, q, trail, foot);
    } else {
      SpacedShapeOf(c, t, sep, q, trail, foot);
      ParamClosesAt(c, t + |sep|, q, trail, foot);
      SpacedAccepted(c, t, |sep|);
    }
  }

  /** A spelled tail without backtracking ambiguity reads back its parameter. */
  lemma TailReadsBack(c: string, side: Side, t: nat, sep: string, param: Option<string>, trail: nat, foot: nat)
    requires 1 <= t <= |c| && c[t..] == TailSpelling(sep, param, trail, foot)
    requires param.None? ==> sep == [] && trail <= 1
    requires param.Some? ==> param.value != [] && (sep == ":" || (sep != [] && forall k :: 0 <= k < |sep| ==> sep[k] == ' '))
    requires param.Some? ==> '}' !in param.value && param.value[|param.value| - 1] != ' '
    requires param.Some? && sep != ":" ==> param.value[0] != ' '
    ensures AfterToc(c, side, t) == Some(TocLine(side, param))
  {
    match param
    case None =>
      assert TailSpelling(sep, param, trail, foot) == CloserSpelling(trail, foot);
      BareTail(c, t, trail, foot);
      AfterTocBare(c, side, t);
    case Some(q) =>
      ParamRead(c, t, sep, q, trail, foot);
      AfterTocParam(c, side, t);
  }

  /** The parameter found after a spelled separator is the spelled one. */
  lemma ParamRead(c: string, t: nat, sep: string, q: string, trail: nat, foot: nat)
    requires t <= |c| && c[t..] == TailSpelling(sep, Some(q), trail, foot)
    requires q != [] && (sep == ":" || (sep != [] && forall k :: 0 <= k < |sep| ==> sep[k] == ' '))
    requires '}' !in q && q[|q| - 1] != ' ' && (sep != ":" ==> q[0] != ' ')
    ensures ParamSpan(c, t).Some? && c[ParamSpan(c, t).value.0..ParamSpan(c, t).value.1] == q
  {
    if sep == ":" {
      ColonRead(c, t, q, trail, foot);
    } else {
      SpacedRead(c, t, sep, q, trail, foot);
    }
  }

  lemma ColonRead(c: string, t: nat, q: string, trail: nat, foot: nat)
    requires t <= |c| && c[t..] == TailSpelling(":", Some(q), trail, foot)
    requires q != [] && '}' !in q && q[|q| - 1] != ' '
    ensures ParamSpan(c, t).Some? && c[ParamSpan(c, t).value.0..ParamSpan(c, t).value.1] == q
  {
    ColonShapeOf(c, t, q, trail, foot);
    LazyParam(c, t + 1, q, trail, foot);
    ColonTail(c, t, q);
    SpanText(c, t, t + 1, t + 1 + |q|, q);
  }

  lemma SpacedRead(c: string, t: nat, sep: string, q: string, trail: nat, foot: nat)
    requires t <= |c| && c[t..] == TailSpelling(sep, Some(q), trail, foot)
    requires sep != [] && forall k :: 0 <= k < |sep| ==> sep[k] == ' '
    requires q != [] && '}' !in q && q[|q| - 1] != ' ' && q[0] != ' '
    ensures ParamSpan(c, t).Some? && c[ParamSpan(c, t).value.0..ParamSpan(c, t).value.1] == q
  {
    var p := SpacedFacts(c, t, sep, q, trail, foot);
    SpacedSpan(c, t, |sep|, p, p + |q|, q);
  }

  /** What `SpacedSpan` needs of a tail spelled with spaces before the parameter. */
  lemma SpacedFacts(c: string, t: nat, sep: string, q: string, trail: nat, foot: nat) returns (p: nat)
    requires t <= |c| && c[t..] == TailSpelling(sep, Some(q), trail, foot)
    requires sep != [] && forall k :: 0 <= k < |sep| ==> sep[k] == ' '
    requires q != [] && '}' !in q && q[|q| - 1] != ' ' && q[0] != ' '
    ensures p == t + |sep| && t < |c| && c[t] == ' ' && SpaceRun(c, t) == |sep|
    ensures ParamCloses(c, p) && ParamEnd(c, p) == p + |q|
    ensures p + |q| <= |c| && c[p..p + |q|] == q
  {
    p := t + |sep|;
    SpacedShapeOf(c, t, sep, q, trail, foot);
    LazyParam(c, p, q, trail, foot);
    SpaceRunIs(c, t, |sep|);
  }

  /** The parameter text of a found span. */
  lemma SpanText(c: string, t: nat, p: nat, e: nat, q: string)
    requires t <= |c| && p <= e <= |c| && ParamSpan(c, t) == Some((p, e)) && c[p..e] == q
    ensures ParamSpan(c, t).Some? && c[ParamSpan(c, t).value.0..ParamSpan(c, t).value.1] == q
  {
  }

  /** After the whole run of `n` spaces, a lazy parameter that closes is the one found. */
  lemma SpacedSpan(c: string, t: nat, n: nat, p: nat, e: nat, q: string)
    requires t < |c| && c[t] == ' ' && SpaceRun(c, t) == n && p == t + n
    requires ParamCloses(c, p) && ParamEnd(c, p) == e && e <= |c| && c[p..e] == q
    ensures ParamSpan(c, t).Some? && c[ParamSpan(c, t).value.0..ParamSpan(c, t).value.1] == q
  {
    SpacedParamFirst(c, t, n);
  }

  /** `n` spaces from `t` followed by a non-space are the whole space run. */
  lemma SpaceRunIs(c: string, t: nat, n: nat)
    requires t + n < |c| && c[t + n] != ' ' && forall k :: t <= k < t + n ==> c[k] == ' '
    ensures SpaceRun(c, t) == n
  {
  }

  /** `TOCRegexp` matches a line exactly when the line is some spelling of a `{toc}` line. */
  lemma TocLineLanguage(c: string)
    ensures ParseTocLine(c).Some? <==> exists w :: ValidTocSpelling(w) && TocSpellingText(w) == c
  {
    if ParseTocLine(c).Some? {
      ParseTocLineSound(c);
    }
    if exists w :: ValidTocSpelling(w) && TocSpellingText(w) == c {
      var w :| ValidTocSpelling(w) && TocSpellingText(w) == c;
      TocSpellingAccepted(w);
    }
  }

  /** The head of a spelling is read off its text: the rest is read from `t`, just after the `toc` word. */
  lemma SpelledHeadRead(w: TocSpelling) returns (c: string, t: nat)
    requires IsTocWord(w.word)
    ensures c == TocSpellingText(w) && 4 <= t < |c|
    ensures c[t..] == TailSpelling(w.sep, w.param, w.trail, w.foot)
    ensures ParseTocLine(c) == AfterToc(c, w.side, t)
  {
    c := TocSpellingText(w);
    var h := HeadSpelling(w.lead, w.side);
    var tail := TailSpelling(w.sep, w.param, w.trail, w.foot);
    t := |h| + 3;
    assert c == (h + w.word) + tail;
    assert c[..t] == h + w.word && c[t..] == tail;
    assert |tail| > 0 by {
      assert |CloserSpelling(w.trail, w.foot)| > 0;
    }
    var t0 := HeadShape(c, w.lead, w.side, w.word);
    HeadRead(c, w.lead, w.side, t0);
  }

  /** `{`, `lead` spaces, the side marker and a `toc` word ending at `t0 + 3` are read as that side marker. */
  lemma HeadRead(c: string, lead: nat, side: Side, t0: nat)
    requires 1 + lead < |c| && c[0] == '{' && SpaceRun(c, 1) == lead && SideOf(c[1 + lead]) == side
    requires t0 == (if side == NoSide then 1 + lead else 2 + lead)
    requires t0 + 3 <= |c| && IsTocWord(c[t0..t0 + 3])
    ensures ParseTocLine(c) == AfterToc(c, side, t0 + 3)
  {
    BraceRead(c, lead);
    SideRead(c, 1 + lead, side, t0);
  }

  /** `{` and `lead` spaces: the side marker is looked for just after them. */
  lemma BraceRead(c: string, lead: nat)
    requires 1 + lead <= |c| && c[0] == '{' && SpaceRun(c, 1) == lead
    ensures ParseTocLine(c) == AfterBrace(c, 1 + lead)
  {
  }

  /** The side marker at `i`, or none, then a `toc` word: the rest is read from just after the word. */
  lemma SideRead(c: string, i: nat, side: Side, t0: nat)
    requires 1 <= i < |c| && SideOf(c[i]) == side && t0 == (if side == NoSide then i else i + 1)
    requires t0 + 3 <= |c| && IsTocWord(c[t0..t0 + 3])
    ensures AfterBrace(c, i) == AfterToc(c, side, t0 + 3)
  {
  }

  /** The characters of a spelled head, as `AfterBrace` inspects them. */
  lemma HeadShape(c: string, lead: nat, side: Side, word: string) returns (t0: nat)
    requires IsTocWord(word)
    requires |HeadSpelling(lead, side)| + 3 <= |c| && c[..|HeadSpelling(lead, side)| + 3] == HeadSpelling(lead, side) + word
    ensures t0 == |HeadSpelling(lead, side)| && t0 + 3 <= |c|
    ensures c[0] == '{' && SpaceRun(c, 1) == lead && 1 + lead < |c|
    ensures SideOf(c[1 + lead]) == side
    ensures t0 == (if side == NoSide then 1 + lead else 2 + lead)
    ensures c[t0..t0 + 3] == word
  {
    var h := HeadSpelling(lead, side);
    t0 := |h|;
    var pre := c[..t0 + 3];
    assert h == "{" + Repeat(' ', lead) + SideMark(side);
    assert |SideMark(side)| == (if side == NoSide then 0 else 1);
    assert c[0] == pre[0] == h[0] == '{';
    forall k | 1 <= k < 1 + lead
      ensures c[k] == ' '
    {
      assert c[k] == pre[k] == h[k] == Repeat(' ', lead)[k - 1];
    }
    assert c[1 + lead] == pre[1 + lead];
    if side == NoSide {
      assert pre[1 + lead] == word[0];
    } else {
      assert pre[1 + lead] == h[1 + lead] == SideMark(side)[0];
    }
    assert c[t0..t0 + 3] == pre[t0..t0 + 3];
  }

  /** The closer spelled at `e` matches there, and nowhere after its `}`. */
  lemma CloserCloses(c: string, e: nat, trail: nat, foot: nat)
    requires e <= |c| && c[e..] == CloserSpelling(trail, foot)
    ensures |c| == e + trail + 1 + foot && c[e + trail] == '}'
    ensures forall k :: e <= k < e + trail ==> c[k] == ' '
    ensures ClosesAt(c, e)
    ensures forall k :: e + trail < k <= |c| ==> !ClosesAt(c, k)
  {
    var tl := c[e..];
    assert tl == Repeat(' ', trail) + ("}" + Repeat(' ', foot));
    forall k | e <= k < e + trail
      ensures c[k] == ' '
    {
      assert c[k] == tl[k - e];
    }
    assert c[e + trail] == tl[trail];
    forall k | e + trail < k < |c|
      ensures c[k] == ' '
    {
      assert c[k] == tl[k - e] == Repeat(' ', foot)[k - e - trail - 1];
    }
    assert SpaceRun(c, e) == trail;
    assert SpaceRun(c, e + trail + 1) == foot;
  }

  /** A parameter `q` starting at `p` and followed by a closer makes the lazy parameter close. */
  lemma ParamClosesAt(c: string, p: nat, q: string, trail: nat, foot: nat)
    requires p <= |c| && c[p..] == q + CloserSpelling(trail, foot) && q != []
    ensures ParamCloses(c, p)
  {
    assert c[p + |q|..] == c[p..][|q|..];
    CloserCloses(c, p + |q|, trail, foot);
  }

  /**
   * When the parameter holds no `}` and does not end in a space, the lazy
   * parameter stops exactly at its end.
   */
  lemma LazyParam(c: string, p: nat, q: string, trail: nat, foot: nat)
    requires p <= |c| && c[p..] == q + CloserSpelling(trail, foot)
    requires q != [] && '}' !in q && q[|q| - 1] != ' '
    ensures ParamCloses(c, p) && ParamEnd(c, p) == p + |q| && c[p..p + |q|] == q
  {
    var e := p + |q|;
    assert c[e..] == c[p..][|q|..];
    assert c[p..e] == c[p..][..|q|];
    CloserCloses(c, e, trail, foot);
    forall k | p + 1 <= k < e
      ensures c[k] != '}'
    {
      assert c[k] == q[k - p];
      assert q[k - p] in q;
    }
    assert c[e - 1] == q[|q| - 1];
    NoCloserInside(c, p + 1, e);
    LazyEndAt(c, p + 1, e);
  }

  /** The tail of a spelling with a `:` separator. */
  lemma ColonShapeOf(c: string, t: nat, q: string, trail: nat, foot: nat)
    requires t <= |c| && c[t..] == TailSpelling(":", Some(q), trail, foot)
    ensures t < |c| && c[t] == ':' && c[t + 1..] == q + CloserSpelling(trail, foot)
  {
    assert c[t..] == ":" + (q + CloserSpelling(trail, foot));
    assert c[t] == c[t..][0];
    assert c[t + 1..] == c[t..][1..];
  }

  /** The tail of a spelling with a run of spaces as its separator. */
  lemma SpacedShapeOf(c: string, t: nat, sep: string, q: string, trail: nat, foot: nat)
    requires t <= |c| && c[t..] == TailSpelling(sep, Some(q), trail, foot)
    requires sep != [] && forall k :: 0 <= k < |sep| ==> sep[k] == ' '
    requires q != []
    ensures t + |sep| < |c| && c[t] == ' ' && c[t + |sep|..] == q + CloserSpelling(trail, foot)
    ensures forall k :: t <= k < t + |sep| ==> c[k] == ' '
    ensures c[t + |sep|] == q[0]
  {
    var tl := c[t..];
    assert tl == sep + (q + CloserSpelling(trail, foot));
    forall k | t <= k < t + |sep|
      ensures c[k] == ' '
    {
      assert c[k] == tl[k - t] == sep[k - t];
    }
    assert c[t + |sep|..] == tl[|sep|..];
    assert c[t + |sep|] == tl[|sep|];
  }

  /** After `:`, a parameter that closes is taken. */
  lemma ColonTail(c: string, t: nat, q: string)
    requires t < |c| && c[t] == ':' && ParamCloses(c, t + 1) && ParamEnd(c, t + 1) == t + 1 + |q|
    ensures ParamSpan(c, t) == Some((t + 1, t + 1 + |q|))
  {
  }

  /** After a run of `n` or more spaces, a parameter that closes after `n` of them is found. */
  lemma SpacedAccepted(c: string, t: nat, n: nat)
    requires 1 <= n && t + n <= |c| && forall k :: t <= k < t + n ==> c[k] == ' '
    requires ParamCloses(c, t + n)
    ensures ParamSpan(c, t).Some?
  {
    var k := SpaceRun(c, t);
    assert n <= k;
    SpacedParamLongest(c, t, k);
  }

  /** Without a parameter and with at most one space before `}`, no parameter is found and the closer matches. */
  lemma BareTail(c: string, t: nat, trail: nat, foot: nat)
    requires t <= |c| && c[t..] == CloserSpelling(trail, foot) && trail <= 1
    ensures ParamSpan(c, t) == None && ClosesAt(c, t)
  {
    CloserCloses(c, t, trail, foot);
    if trail == 1 {
      assert SpaceRun(c, t) == 1;
      assert LazyEnd(c, t + 2) == None;
      assert SpacedParam(c, t, 1) == None;
    }
  }

  /** With the closer matching right after `toc`, the line is accepted. */
  lemma AfterTocCloses(c: string, side: Side, t: nat)
    requires 1 <= t <= |c| && ClosesAt(c, t)
    ensures AfterToc(c, side, t).Some?
  {
  }

  /** With no parameter found and the closer matching right after `toc`, the line has no parameter. */
  lemma AfterTocBare(c: string, side: Side, t: nat)
    requires 1 <= t <= |c| && ParamSpan(c, t) == None && ClosesAt(c, t)
    ensures AfterToc(c, side, t) == Some(TocLine(side, None))
  {
  }

  /** Every line the scanner accepts is a spelling of the side marker and parameter it reads. */
  lemma ParseTocLineSound(c: string)
    requires ParseTocLine(c).Some?
    ensures exists w :: SpellsTocLine(w, c, ParseTocLine(c).value)
  {
    var lead, side, t := AcceptedHead(c);
    var sep, param, trail, foot := AcceptedTail(c, side, t);
    SpellingOfParts(c, ParseTocLine(c).value, TocSpelling(lead, side, c[t - 3..t], sep, param, trail, foot), t);
  }

  /** A line made of a spelled head, a `toc` word and a spelled tail is spelled by their spelling. */
  lemma SpellingOfParts(c: string, l: TocLine, w: TocSpelling, t: nat)
    requires 4 <= t <= |c| && c[..t - 3] == HeadSpelling(w.lead, w.side) && w.word == c[t - 3..t]
    requires c[t..] == TailSpelling(w.sep, w.param, w.trail, w.foot)
    requires ValidTocSpelling(w) && l == TocLine(w.side, w.param)
    ensures exists w' :: SpellsTocLine(w', c, l)
  {
    assert c == c[..t - 3] + c[t - 3..t] + c[t..];
    assert SpellsTocLine(w, c, l);
  }

  /** An accepted line starts with `{`, spaces, the side marker and `toc`, and the rest is read from `t`. */
  lemma AcceptedHead(c: string) returns (lead: nat, side: Side, t: nat)
    requires ParseTocLine(c).Some?
    ensures 4 <= t <= |c| && c[..t - 3] == HeadSpelling(lead, side) && IsTocWord(c[t - 3..t])
    ensures ParseTocLine(c) == AfterToc(c, side, t)
  {
    var i := 1 + SpaceRun(c, 1);
    side := if i < |c| then SideOf(c[i]) else NoSide;
    var t0 := if side == NoSide then i else i + 1;
    t := t0 + 3;
    lead := i - 1;
    assert ParseTocLine(c) == AfterBrace(c, i);
    HeadSpelled(c, i, side, t0);
  }

  /** `{`, the spaces after it and the side marker, as the scanner reads them. */
  lemma HeadSpelled(c: string, i: nat, side: Side, t0: nat)
    requires c != [] && c[0] == '{' && 1 <= i <= t0 <= |c|
    requires forall k :: 1 <= k < i ==> c[k] == ' '
    requires side == NoSide ==> t0 == i
    requires side != NoSide ==> t0 == i + 1 && SideOf(c[i]) == side
    ensures c[..t0] == HeadSpelling(i - 1, side)
  {
    assert c[1..i] == Repeat(' ', i - 1);
    assert c[i..t0] == SideMark(side);
    assert c[..t0] == [c[0]] + c[1..i] + c[i..t0];
  }

  /** What an accepted line holds after `toc`: the separator and parameter, if any, then the closer. */
  lemma AcceptedTail(c: string, side: Side, t: nat) returns (sep: string, param: Option<string>, trail: nat, foot: nat)
    requires 1 <= t <= |c| && AfterToc(c, side, t).Some?
    ensures c[t..] == TailSpelling(sep, param, trail, foot)
    ensures AfterToc(c, side, t) == Some(TocLine(side, param))
    ensures param.None? ==> sep == []
    ensures param.Some? ==> param.value != [] && (sep == ":" || (sep != [] && forall k :: 0 <= k < |sep| ==> sep[k] == ' '))
  {
    match ParamSpan(c, t)
    case Some((p, e)) =>
      sep, param := c[t..p], Some(c[p..e]);
      SeparatorSpelled(c, t, p);
      trail, foot := CloserSpelled(c, e);
      SplitThree(c, t, p, e);
    case None =>
      sep, param := [], None;
      trail, foot := CloserSpelled(c, t);
  }

  /** The separator the scanner reads between `toc` and the parameter is `:` or a run of spaces. */
  lemma SeparatorSpelled(c: string, t: nat, p: nat)
    requires t < p <= |c|
    requires (c[t] == ':' && p == t + 1) || (c[t] == ' ' && p <= t + SpaceRun(c, t))
    ensures c[t..p] == ":" || (c[t..p] != [] && forall k :: 0 <= k < |c[t..p]| ==> c[t..p][k] == ' ')
  {
    if c[t] != ':' {
      forall k | 0 <= k < p - t
        ensures c[t..p][k] == ' '
      {
        assert c[t..p][k] == c[t + k];
      }
    }
  }

  lemma SplitThree(c: string, a: nat, b: nat, d: nat)
    requires a <= b <= d <= |c|
    ensures c[a..] == c[a..b] + c[b..d] + c[d..]
  {
  }

  /** What follows the parameter (or `toc`) when the closer matches at `e`. */
  lemma CloserSpelled(c: string, e: nat) returns (trail: nat, foot: nat)
    requires e <= |c| && ClosesAt(c, e)
    ensures c[e..] == CloserSpelling(trail, foot)
  {
    trail := SpaceRun(c, e);
    var j := e + trail;
    foot := |c| - j - 1;
    assert c[e..j] == Repeat(' ', trail);
    assert c[j + 1..] == Repeat(' ', foot);
    assert c[e..] == c[e..j] + [c[j]] + c[j + 1..];
  }

  lemma DigitValueOf(n: nat)
    requires 1 <= n <= 6
    ensures IsLevelDigit(DigitChar(n)) && DigitValue(DigitChar(n)) == n
  {
  }

  /** The greedy space run is shortened to let the lazy parameter start: two spaces before `}` leave a one-space parameter. */
  lemma TwoSpacesGiveSpaceParam()
    ensures ParseTocLine("{toc  }") == Some(TocLine(NoSide, Some(" ")))
  {
    var c := "{toc  }";
    assert SpaceRun(c, 1) == 0;
    assert c[1..4] == "toc";
    assert SpaceRun(c, 6) == 0 && SpaceRun(c, 7) == 0;
    assert SpaceRun(c, 4) == 2;
    assert LazyEnd(c, 7) == None;
    assert LazyEnd(c, 6) == Some(6);
    assert c[5..6] == " ";
  }

  /** One space before `}` is taken by the closer, and the line has no parameter. */
  lemma OneSpaceGivesNoParam()
    ensures ParseTocLine("{toc }") == Some(TocLine(NoSide, None))
  {
    var c := "{toc }";
    assert SpaceRun(c, 1) == 0;
    assert c[1..4] == "toc";
    assert SpaceRun(c, 4) == 1 && SpaceRun(c, 5) == 0 && SpaceRun(c, 6) == 0;
    assert LazyEnd(c, 6) == None;
  }

  /** A colon needs a parameter of at least one character. */
  lemma EmptyColonRejected()
    ensures ParseTocLine("{toc:}") == None
  {
    var c := "{toc:}";
    assert SpaceRun(c, 1) == 0;
    assert c[1..4] == "toc";
    assert LazyEnd(c, 6) == None;
  }

  /** The dash form of the range and the rejection of a single dot. */
  lemma LevelExamples()
    ensures ParseLevels("H2-4") == Some(LevelRange(Some(2), Some(4)))
    ensures ParseLevels("h2.h4") == None
    ensures ParseLevels("..") == Some(LevelRange(None, None))
  {
    assert DotRun("H2-4", 2) == 0;
    assert "H2-4"[3..] == "4";
    assert DotRun("h2.h4", 3) == 0;
    assert DotRun("h2.h4", 2) == 1;
    assert DotRun("..", 2) == 0;
    assert ".."[2..] == "";
  }
}
