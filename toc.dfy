/**
 * `BlueFeather::Parser#transform_toc`: every line that `TOCRegexp` matches is
 * replaced by an HTML list of the document's headers, and the warnings the
 * parameter or the header structure call for are appended to the render
 * state. Lines are matched one at a time; the newline of a matched line is
 * kept after the list.
 */
module Toc {
  import opened Wrappers
  import opened Text
  import opened TocSyntax

  /** A header BlueFeather collected: its level, anchor id and rendered content. */
  datatype Header = Header(level: nat, id: string, content: string)

  /** The levels to list and whether the parameter earns the "illegal TOC parameter" warning. */
  datatype Settings = Settings(start: nat, end: nat, badParam: bool)

  /** Lines 52-67: the level range a TOC parameter selects; 1 to 6 unless a level is given. */
  function LevelsFor(param: Option<string>): (s: Settings)
    ensures 1 <= s.start <= 6 && 1 <= s.end <= 6
    ensures s.badParam <==> param.Some? && (ParseLevels(param.value).None? || ParseLevels(param.value) == Some(LevelRange(None, None)))
    ensures s.badParam ==> s.start == 1 && s.end == 6
    ensures param.Some? && ParseLevels(param.value).Some? ==>
      var lv := ParseLevels(param.value).value;
      (lv.start.Some? ==> s.start == lv.start.value) && (lv.end.Some? ==> s.end == lv.end.value)
      && (lv.start.None? ==> s.start == 1) && (lv.end.None? ==> s.end == 6)
  {
    match param
    case None => Settings(1, 6, false)
    case Some(q) =>
      match ParseLevels(q)
      case None => Settings(1, 6, true)
      case Some(lv) =>
        if lv.start.None? && lv.end.None? then Settings(1, 6, true)
        else Settings(if lv.start.Some? then lv.start.value else 1, if lv.end.Some? then lv.end.value else 6, false)
  }

  function ParamWarning(q: string): string {
    "illegal TOC parameter - " + q + " (valid example: 'h2..h4')"
  }

  function StructureWarning(start: nat, first: nat): string {
    "illegal structure of headers - h" + NatToString(start) + " should be set before h" + NatToString(first)
  }

  /** Lines 56-71: the warnings one `{toc}` line adds, in order. */
  function TocWarnings(t: TocLine, headers: seq<Header>): (ws: seq<string>)
    ensures var s := LevelsFor(t.param);
      var deep := headers != [] && headers[0].level > s.start;
      |ws| == (if s.badParam then 1 else 0) + (if deep then 1 else 0)
      && (s.badParam ==> ws[0] == ParamWarning(t.param.value))
      && (deep ==> ws[|ws| - 1] == StructureWarning(s.start, headers[0].level))
  {
    var s := LevelsFor(t.param);
    (if s.badParam then [ParamWarning(t.param.value)] else [])
    + (if headers != [] && headers[0].level >= s.start + 1 then [StructureWarning(s.start, headers[0].level)] else [])
  }

  /**
   * What `$1` holds at line 76: the side marker when there is no parameter;
   * otherwise the start level of `TOCStartLevelRegexp`, or nothing when that
   * match failed, since the parameter match rebinds the match data.
   */
  function GroupOneAtClass(t: TocLine): Option<char> {
    match t.param
    case None => (match t.side case NoSide => None case Right => Some('>') case Left => Some('<'))
    case Some(q) =>
      if ParseLevels(q).Some? && |q| >= 2 && IsH(q[0]) && IsLevelDigit(q[1]) then Some(q[1]) else None
  }

  /** Lines 75-77: the class of the list. A side marker only takes effect on a line without a parameter. */
  function ListClass(t: TocLine): (r: string)
    ensures t.param.Some? ==> r == "toc"
    ensures t.param.None? ==> ((r == "toc right" <==> t.side == Right) && (r == "toc left" <==> t.side == Left)
      && (r == "toc" <==> t.side == NoSide))
  {
    var g := GroupOneAtClass(t);
    "toc" + (if g == Some('>') then " right" else "") + (if g == Some('<') then " left" else "")
  }

  predicate Listed(h: Header, start: nat, end: nat) {
    start <= h.level <= end
  }

  /** The list item of line 81. */
  function Item(h: Header): string {
    "<li class=\"heading" + NatToString(h.level) + "\"><a href=\"#" + h.id + "\">" + h.content + "</a></li>\n"
  }

  /** Lines 79-83: the items of the headers whose level is in range, in document order. */
  function Items(headers: seq<Header>, start: nat, end: nat): string
    decreases |headers|
  {
    if headers == [] then []
    else
      var last := headers[|headers| - 1];
      Items(headers[..|headers| - 1], start, end) + (if Listed(last, start, end) then Item(last) else [])
  }

  /** The headers that get an item, as an independent filter. */
  function Selected(headers: seq<Header>, start: nat, end: nat): (r: seq<Header>)
    ensures forall h :: h in r <==> h in headers && Listed(h, start, end)
  {
    if headers == [] then []
    else (if Listed(headers[0], start, end) then [headers[0]] else []) + Selected(headers[1..], start, end)
  }

  function ItemsOf(hs: seq<Header>): string {
    if hs == [] then [] else Item(hs[0]) + ItemsOf(hs[1..])
  }

  /** Lines 74-87: the text that replaces a `{toc}` line. */
  function TocList(t: TocLine, headers: seq<Header>): string {
    var s := LevelsFor(t.param);
    "\n\n<ul class=\"" + ListClass(t) + "\">" + Items(headers, s.start, s.end) + "</ul>" + "\n"
  }

  /** The text one line (with its newline) becomes. */
  function LineOut(l: string, headers: seq<Header>): string {
    var c := Chomp(l);
    match ParseTocLine(c)
    case Some(t) => TocList(t, headers) + l[|c|..]
    case None => l
  }

  function LineWarnings(l: string, headers: seq<Header>): seq<string> {
    match ParseTocLine(Chomp(l))
    case Some(t) => TocWarnings(t, headers)
    case None => []
  }

  /** The outputs of `f` on the lines, concatenated in line order. */
  function ConcatMap<T>(lines: seq<string>, f: string -> seq<T>): seq<T>
    decreases |lines|
  {
    if lines == [] then [] else ConcatMap(lines[..|lines| - 1], f) + f(lines[|lines| - 1])
  }

  /** `str.gsub(TOCRegexp) { ... }` over the lines of the text. */
  function Transformed(lines: seq<string>, headers: seq<Header>): string {
    ConcatMap(lines, l => LineOut(l, headers))
  }

  /** The warnings the whole text adds, in line order. */
  function Warned(lines: seq<string>, headers: seq<Header>): seq<string> {
    ConcatMap(lines, l => LineWarnings(l, headers))
  }

  /** The part of BlueFeather's render state the transform uses: the collected headers and the warnings list it appends to. */
  class RenderState {
    const headers: seq<Header>
    var warnings: seq<string>

    constructor(headers: seq<Header>)
      ensures this.headers == headers && warnings == []
    {
      this.headers := headers;
      warnings := [];
    }
  }

  /** Lines 74-87: builds the list text item by item. */
  method BuildList(t: TocLine, headers: seq<Header>) returns (ul: string)
    ensures ul == TocList(t, headers)
  {
    var s := LevelsFor(t.param);
    var items := "";
    for i := 0 to |headers|
      invariant items == Items(headers[..i], s.start, s.end)
    {
      var h := headers[i];
      if h.level >= s.start && h.level <= s.end {
        items := items + Item(h);
      }
      assert headers[..i + 1][..i] == headers[..i];
    }
    assert headers[..|headers|] == headers;
    ul := "\n\n<ul class=\"" + ListClass(t) + "\">" + items + "</ul>" + "\n";
  }

  lemma ConcatMapStep<T>(lines: seq<string>, i: nat, f: string -> seq<T>)
    requires i < |lines|
    ensures ConcatMap(lines[..i + 1], f) == ConcatMap(lines[..i], f) + f(lines[i])
  {
    assert lines[..i + 1][..i] == lines[..i];
  }

  /** The block of lines 51-89 applied to one line: its replacement text and the warnings it adds. */
  method TransformLine(l: string, headers: seq<Header>) returns (piece: string, ws: seq<string>)
    ensures piece == LineOut(l, headers) && ws == LineWarnings(l, headers)
  {
    var c := Chomp(l);
    match ParseTocLine(c) {
      case Some(t) =>
        var ul := BuildList(t, headers);
        piece := ul + l[|c|..];
        ws := TocWarnings(t, headers);
      case None =>
        piece, ws := l, [];
    }
  }

  /** `transform_toc(str, rs)`: returns the new text and appends to `rs.warnings`. */
  method TransformToc(str: string, rs: RenderState) returns (out: string)
    modifies rs
    ensures out == Transformed(Lines(str), rs.headers)
    ensures rs.warnings == old(rs.warnings) + Warned(Lines(str), rs.headers)
  {
    var lines := Lines(str);
    out := "";
    var i := 0;
    while i < |lines|
      invariant 0 <= i <= |lines|
      invariant out == Transformed(lines[..i], rs.headers)
      invariant rs.warnings == old(rs.warnings) + Warned(lines[..i], rs.headers)
    {
      var piece, ws := TransformLine(lines[i], rs.headers);
      out := out + piece;
      ConcatMapStep(lines, i, l => LineOut(l, rs.headers));
      ConcatMapStep(lines, i, l => LineWarnings(l, rs.headers));
      ConcatAssoc(old(rs.warnings), Warned(lines[..i], rs.headers), ws);
      rs.warnings := rs.warnings + ws;
      i := i + 1;
    }
    assert lines[..|lines|] == lines;
  }

  /** The filter keeps the document order: it distributes over concatenation. */
  lemma {:induction false} SelectedAppend(a: seq<Header>, b: seq<Header>, start: nat, end: nat)
    ensures Selected(a + b, start, end) == Selected(a, start, end) + Selected(b, start, end)
  {
    if a == [] {
      assert [] + b == b;
    } else {
      assert (a + b)[1..] == a[1..] + b;
      SelectedAppend(a[1..], b, start, end);
    }
  }

  /** A single header is kept exactly when it is listed. */
  lemma SelectedOne(h: Header, start: nat, end: nat)
    ensures Selected([h], start, end) == if Listed(h, start, end) then [h] else []
  {
  }

  lemma SelectedSnoc(hs: seq<Header>, h: Header, start: nat, end: nat)
    ensures Selected(hs + [h], start, end) == Selected(hs, start, end) + (if Listed(h, start, end) then [h] else [])
  {
    SelectedAppend(hs, [h], start, end);
    SelectedOne(h, start, end);
  }


  lemma {:induction false} ItemsOfSnoc(hs: seq<Header>, x: seq<Header>)
    ensures ItemsOf(hs + x) == ItemsOf(hs) + ItemsOf(x)
  {
    if hs == [] {
      assert [] + x == x;
    } else {
      assert (hs + x)[1..] == hs[1..] + x;
      ItemsOfSnoc(hs[1..], x);
    }
  }

  /** The list built item by item holds exactly the items of the headers in range, in document order. */
  lemma {:induction false} ItemsAreSelected(headers: seq<Header>, start: nat, end: nat)
    ensures Items(headers, start, end) == ItemsOf(Selected(headers, start, end))
    decreases |headers|
  {
    if headers != [] {
      var init := headers[..|headers| - 1];
      var last := headers[|headers| - 1];
      ItemsAreSelected(init, start, end);
      assert headers == init + [last];
      SelectedSnoc(init, last, start, end);
      ItemsOfSnoc(Selected(init, start, end), if Listed(last, start, end) then [last] else []);
      assert ItemsOf([last]) == Item(last);
    }
  }

  /** Without a parameter every header of level 1 to 6 is listed. */
  lemma {:induction false} DefaultListsAll(headers: seq<Header>)
    requires forall i :: 0 <= i < |headers| ==> 1 <= headers[i].level <= 6
    ensures Selected(headers, LevelsFor(None).start, LevelsFor(None).end) == headers
  {
    if headers != [] {
      DefaultListsAll(headers[1..]);
    }
  }

  lemma {:induction false} ConcatMapAppend<T>(a: seq<string>, b: seq<string>, f: string -> seq<T>)
    ensures ConcatMap(a + b, f) == ConcatMap(a, f) + ConcatMap(b, f)
    decreases |b|
  {
    if b == [] {
      assert a + b == a;
    } else {
      var init := b[..|b| - 1];
      ConcatMapAppend(a, init, f);
      assert (a + b)[..|a + b| - 1] == a + init;
    }
  }

  /** Transforming a text line by line composes: the lines of two texts are transformed independently. */
  lemma TransformedAppend(a: seq<string>, b: seq<string>, headers: seq<Header>)
    ensures Transformed(a + b, headers) == Transformed(a, headers) + Transformed(b, headers)
    ensures Warned(a + b, headers) == Warned(a, headers) + Warned(b, headers)
  {
    ConcatMapAppend(a, b, l => LineOut(l, headers));
    ConcatMapAppend(a, b, l => LineWarnings(l, headers));
  }

  lemma {:induction false} ConcatMapKeeps(lines: seq<string>, f: string -> string)
    requires forall i :: 0 <= i < |lines| ==> f(lines[i]) == lines[i]
    ensures ConcatMap(lines, f) == Flatten(lines)
    decreases |lines|
  {
    if lines != [] {
      var init := lines[..|lines| - 1];
      ConcatMapKeeps(init, f);
      assert lines == init + [lines[|lines| - 1]];
      FlattenAppend(init, lines[|lines| - 1]);
    }
  }

  lemma {:induction false} ConcatMapNothing<T>(lines: seq<string>, f: string -> seq<T>)
    requires forall i :: 0 <= i < |lines| ==> f(lines[i]) == []
    ensures ConcatMap(lines, f) == []
    decreases |lines|
  {
    if lines != [] {
      ConcatMapNothing(lines[..|lines| - 1], f);
    }
  }

  /** Lines that are not `{toc}` lines come out as they went in, and add no warnings. */
  lemma NoTocLinesUnchanged(lines: seq<string>, headers: seq<Header>)
    requires forall i :: 0 <= i < |lines| ==> ParseTocLine(Chomp(lines[i])).None?
    ensures Transformed(lines, headers) == Flatten(lines)
    ensures Warned(lines, headers) == []
  {
    ConcatMapKeeps(lines, l => LineOut(l, headers));
    ConcatMapNothing(lines, l => LineWarnings(l, headers));
  }

  /** A text without a `{toc}` line is returned unchanged and the warnings stay as they were. */
  lemma NoTocTextUnchanged(str: string, headers: seq<Header>)
    requires forall l :: l in Lines(str) ==> ParseTocLine(Chomp(l)).None?
    ensures Transformed(Lines(str), headers) == str
    ensures Warned(Lines(str), headers) == []
  {
    var lines := Lines(str);
    assert forall i :: 0 <= i < |lines| ==> lines[i] in lines;
    NoTocLinesUnchanged(lines, headers);
  }

  /**
   * A `{>toc}` line over a document whose first header is an h2: the line
   * becomes a right-floating list holding that header, followed by the
   * line's newline, and the structure warning is added.
   */
  lemma RightTocExample()
    ensures var headers := [Header(2, "x", "X")];
      Transformed(["{>toc}\n"], headers)
        == "\n\n<ul class=\"" + "toc right" + "\">" + Item(headers[0]) + "</ul>" + "\n" + "\n"
      && Warned(["{>toc}\n"], headers) == [StructureWarning(1, 2)]
  {
    var headers := [Header(2, "x", "X")];
    var l := "{>toc}\n";
    var t := TocLine(Right, None);
    RightTocParsed(l);
    TocLineOut(l, "{>toc}", t, headers);
    assert LevelsFor(None) == Settings(1, 6, false);
    assert Items(headers, 1, 6) == Item(headers[0]) by {
      assert headers[..0] == [];
    }
    assert l[6..] == "\n";
    var empty: seq<string> := [];
    assert [l][..0] == empty;
  }

  lemma RightTocParsed(l: string)
    requires l == "{>toc}\n"
    ensures Chomp(l) == "{>toc}" && ParseTocLine("{>toc}") == Some(TocLine(Right, None))
  {
    assert "{>toc}" == TocText(Right, None);
    TocTextRoundTrip(Right, None);
  }

  /** A `{toc}` line becomes its list followed by its newline, and adds its warnings. */
  lemma TocLineOut(l: string, c: string, t: TocLine, headers: seq<Header>)
    requires Chomp(l) == c && ParseTocLine(c) == Some(t)
    ensures LineOut(l, headers) == TocList(t, headers) + l[|c|..]
    ensures LineWarnings(l, headers) == TocWarnings(t, headers)
  {
  }

  /** A parameter `h<start>..h<end>` selects exactly that range, a missing level defaulting to 1 or 6; a bare `..` is refused with a warning. */
  lemma LevelParamSelectsRange(start: Option<nat>, end: Option<nat>)
    requires start.Some? ==> 1 <= start.value <= 6
    requires end.Some? ==> 1 <= end.value <= 6
    ensures var s := LevelsFor(Some(LevelText(start, end)));
      if start.None? && end.None? then s == Settings(1, 6, true)
      else s == Settings(if start.Some? then start.value else 1, if end.Some? then end.value else 6, false)
  {
    LevelTextRoundTrip(start, end);
  }
}
