/**
 * The section splitter of `WikiFormatter#extract_sections`: a line-by-line
 * state machine that tracks fenced code blocks, recognises hash and
 * underline headers, counts the headers of level 1 to 4 and sorts every line
 * into one of three buffers, `before`, `selected` and `after`, around the
 * `index`-th counted header.
 *
 * `Step` and `Scan` specify one step and a whole run; `ExtractSections` is
 * the loop itself, proved equal to `Extract`.
 */
module Sections {
  import opened Wrappers
  import opened Text

  datatype FenceState = Normal | InsideFence

  datatype Region = Before | Selected | After

  /** The only way the scan fails: an underline with no line before it to pop (`nil + line` in Ruby). */
  datatype SplitError = UnderlineWithoutText

  /** What a single line is, judged on its own text. */
  datatype LineKind = HashHeader(level: nat) | Underline(level: nat) | Plain

  datatype ScanState = ScanState(
    fence: FenceState,
    region: Region,
    headerCount: int,
    selectedLevel: int,
    before: seq<string>,
    selected: seq<string>,
    after: seq<string>)

  /** The three spans `extract_sections` returns, each stripped. */
  datatype Spans = Spans(before: string, selected: string, after: string)

  /** `line =~ /^(~~~|```)/` */
  predicate IsFenceLine(line: string) {
    StartsWith(line, "~~~") || StartsWith(line, "```")
  }

  /** Length of the run of `#` that starts the line. */
  function HashRun(line: string): (n: nat)
    ensures n <= |line|
    ensures forall k :: 0 <= k < n ==> line[k] == '#'
    ensures n < |line| ==> line[n] != '#'
  {
    if line != [] && line[0] == '#' then 1 + HashRun(line[1..]) else 0
  }

  /** `line.strip =~ /^c+$/`: the stripped line is a non-empty run of `c`. */
  predicate IsRule(line: string, c: char) {
    var t := Strip(line);
    t != [] && forall k :: 0 <= k < |t| ==> t[k] == c
  }

  /** The per-line level classification of lines 181-191. */
  function Classify(line: string): (k: LineKind)
    ensures k.HashHeader? <==> line != [] && line[0] == '#'
    ensures k.HashHeader? ==> 1 <= k.level <= |line|
    ensures k.Underline? ==> k.level in {1, 2}
  {
    if HashRun(line) > 0 then HashHeader(HashRun(line))
    else if IsRule(line, '=') then Underline(1)
    else if IsRule(line, '-') then Underline(2)
    else Plain
  }

  /**
   * What `Classify` decides, all cases: a `#` header's level is the length
   * of its leading `#` run, a stripped all-`=` line is a level-1 underline,
   * a stripped all-`-` line a level-2 one, and anything else is plain.
   */
  lemma ClassifyExact(line: string)
    ensures Classify(line).HashHeader? ==>
      (forall i :: 0 <= i < Classify(line).level ==> line[i] == '#')
      && (Classify(line).level < |line| ==> line[Classify(line).level] != '#')
    ensures Classify(line) == Underline(1) <==> !(line != [] && line[0] == '#') && IsRule(line, '=')
    ensures Classify(line) == Underline(2)
      <==> !(line != [] && line[0] == '#') && !IsRule(line, '=') && IsRule(line, '-')
    ensures Classify(line) == Plain
      <==> !(line != [] && line[0] == '#') && !IsRule(line, '=') && !IsRule(line, '-')
  {
  }

  /** The header level a line carries outside a fence, if any. */
  function LevelOf(line: string): Option<nat> {
    match Classify(line)
    case HashHeader(l) => Some(l)
    case Underline(l) => Some(l)
    case Plain => None
  }

  function Toggle(f: FenceState): FenceState {
    if f == InsideFence then Normal else InsideFence
  }

  /** The buffer the current region appends to (`eval(state)`). */
  function Active(st: ScanState): seq<string> {
    match st.region
    case Before => st.before
    case Selected => st.selected
    case After => st.after
  }

  function SetActive(st: ScanState, buf: seq<string>): ScanState {
    match st.region
    case Before => st.(before := buf)
    case Selected => st.(selected := buf)
    case After => st.(after := buf)
  }

  /** `eval("#{state} << line")` */
  function Append(st: ScanState, line: string): ScanState {
    SetActive(st, Active(st) + [line])
  }

  /**
   * Lines 181-191, for a line outside a fence: its header level, if any, and
   * for an underline the previous line popped off the active buffer and
   * prefixed to it. The state is returned with the pop applied.
   */
  function Rehome(st: ScanState, line: string): Result<(ScanState, string, Option<nat>), SplitError> {
    match Classify(line)
    case Plain => Ok((st, line, None))
    case HashHeader(level) => Ok((st, line, Some(level)))
    case Underline(level) =>
      var buf := Active(st);
      if buf == [] then Err(UnderlineWithoutText)
      else Ok((SetActive(st, buf[..|buf| - 1]), buf[|buf| - 1] + line, Some(level)))
  }

  /** Lines 192-202: what a header of the given level does to the count and the region. */
  function CountHeader(st: ScanState, level: Option<nat>, index: int): ScanState {
    if level.Some? && level.value <= 4 then
      var count := st.headerCount + 1;
      if st.region == Selected && st.selectedLevel >= level.value then
        st.(headerCount := count, region := After)
      else if count == index then
        st.(headerCount := count, region := Selected, selectedLevel := level.value)
      else
        st.(headerCount := count)
    else st
  }

  /**
   * Lines 177-203 of one iteration: the state and the (possibly re-homed)
   * line just before the line is appended to the active buffer.
   */
  function Prepare(st: ScanState, line: string, index: int): Result<(ScanState, string), SplitError> {
    if IsFenceLine(line) then Ok((st.(fence := Toggle(st.fence)), line))
    else if st.fence == InsideFence then Ok((st, line))
    else
      match Rehome(st, line)
      case Err(e) => Err(e)
      case Ok((popped, joined, level)) => Ok((CountHeader(popped, level, index), joined))
  }

  /** One iteration of the `each_line` loop. */
  function Step(st: ScanState, line: string, index: int): Result<ScanState, SplitError> {
    match Prepare(st, line, index)
    case Err(e) => Err(e)
    case Ok((next, l)) => Ok(Append(next, l))
  }

  const Initial := ScanState(Normal, Before, 0, 0, [], [], [])

  /** The state after the loop has consumed `lines`, or the error it raised. */
  function Scan(lines: seq<string>, index: int): Result<ScanState, SplitError> {
    if lines == [] then Ok(Initial)
    else
      match Scan(lines[..|lines| - 1], index)
      case Err(e) => Err(e)
      case Ok(st) => Step(st, lines[|lines| - 1], index)
  }

  function SpansOf(st: ScanState): Spans {
    Spans(Strip(Flatten(st.before)), Strip(Flatten(st.selected)), Strip(Flatten(st.after)))
  }

  /** `extract_sections(index)` as a function of the document text. */
  function Extract(text: string, index: int): Result<Spans, SplitError> {
    match Scan(Lines(text), index)
    case Err(e) => Err(e)
    case Ok(st) => Ok(SpansOf(st))
  }

  /** `eval(state).pop`: removes and returns the last line of the active buffer. */
  method PopActive(state: Region, before: seq<string>, selected: seq<string>, after: seq<string>)
    returns (top: string, before': seq<string>, selected': seq<string>, after': seq<string>)
    requires Active(ScanState(Normal, state, 0, 0, before, selected, after)) != []
    ensures state == Before ==> before == before' + [top] && selected' == selected && after' == after
    ensures state == Selected ==> selected == selected' + [top] && before' == before && after' == after
    ensures state == After ==> after == after' + [top] && before' == before && selected' == selected
  {
    before', selected', after' := before, selected, after;
    match state {
      case Before => top, before' := before[|before| - 1], before[..|before| - 1];
      case Selected => top, selected' := selected[|selected| - 1], selected[..|selected| - 1];
      case After => top, after' := after[|after| - 1], after[..|after| - 1];
    }
  }

  /** `eval("#{state} << line")`: appends the line to the active buffer. */
  method PushActive(state: Region, before: seq<string>, selected: seq<string>, after: seq<string>, line: string)
    returns (before': seq<string>, selected': seq<string>, after': seq<string>)
    ensures state == Before ==> before' == before + [line] && selected' == selected && after' == after
    ensures state == Selected ==> selected' == selected + [line] && before' == before && after' == after
    ensures state == After ==> after' == after + [line] && before' == before && selected' == selected
  {
    before', selected', after' := before, selected, after;
    match state {
      case Before => before' := before + [line];
      case Selected => selected' := selected + [line];
      case After => after' := after + [line];
    }
  }

  /** Lines 181-191 on the loop's variables, for a line outside a fence. */
  method RehomeLine(pre: FenceState, state: Region, headerCount: int, selectedLevel: int,
                    before0: seq<string>, selected0: seq<string>, after0: seq<string>, line0: string)
    returns (r: Result<(string, Option<nat>), SplitError>, before: seq<string>, selected: seq<string>, after: seq<string>)
    ensures match Rehome(ScanState(pre, state, headerCount, selectedLevel, before0, selected0, after0), line0)
            case Err(e) => r == Err(e)
            case Ok((st, line, level)) =>
              r == Ok((line, level)) && st == ScanState(pre, state, headerCount, selectedLevel, before, selected, after)
  {
    before, selected, after := before0, selected0, after0;
    match Classify(line0) {
      case HashHeader(n) =>
        r := Ok((line0, Some(n)));
      case Underline(n) =>
        if Active(ScanState(pre, state, headerCount, selectedLevel, before, selected, after)) == [] {
          r := Err(UnderlineWithoutText);
          return;
        }
        var top;
        top, before, selected, after := PopActive(state, before, selected, after);
        r := Ok((top + line0, Some(n)));
      case Plain =>
        r := Ok((line0, None));
    }
  }

  /** Lines 192-202 on the loop's variables: count a header of level 4 or less and move between regions. */
  method CountLevel(state0: Region, headerCount0: int, selectedLevel0: int, level: Option<nat>, index: int)
    returns (state: Region, headerCount: int, selectedLevel: int)
    ensures forall pre, b, s, a ::
      CountHeader(ScanState(pre, state0, headerCount0, selectedLevel0, b, s, a), level, index)
        == ScanState(pre, state, headerCount, selectedLevel, b, s, a)
  {
    state, headerCount, selectedLevel := state0, headerCount0, selectedLevel0;
    if level.Some? && level.value <= 4 {
      headerCount := headerCount + 1;
      if state == Selected && selectedLevel >= level.value {
        state := After;
      } else if headerCount == index {
        state := Selected;
        selectedLevel := level.value;
      }
    }
  }

  /**
   * One pass of the `each_line` block (lines 177-205) over the loop's
   * variables: the fence toggle, the header handling outside a fence and
   * the append to the active buffer.
   */
  method ScanLine(pre0: FenceState, state0: Region, headerCount0: int, selectedLevel0: int,
                  before0: seq<string>, selected0: seq<string>, after0: seq<string>,
                  line0: string, index: int)
    returns (r: Result<ScanState, SplitError>)
    ensures r == Step(ScanState(pre0, state0, headerCount0, selectedLevel0, before0, selected0, after0), line0, index)
  {
    var pre, state, headerCount, selectedLevel := pre0, state0, headerCount0, selectedLevel0;
    var before, selected, after, line := before0, selected0, after0, line0;
    if IsFenceLine(line) {
      pre := if pre == InsideFence then Normal else InsideFence;
    } else if pre == Normal {
      var rehomed;
      rehomed, before, selected, after := RehomeLine(pre, state, headerCount, selectedLevel, before, selected, after, line);
      if rehomed.Err? {
        return Err(rehomed.error);
      }
      var level;
      line, level := rehomed.value.0, rehomed.value.1;
      state, headerCount, selectedLevel := CountLevel(state, headerCount, selectedLevel, level, index);
    }
    assert Prepare(ScanState(pre0, state0, headerCount0, selectedLevel0, before0, selected0, after0), line0, index)
      == Ok((ScanState(pre, state, headerCount, selectedLevel, before, selected, after), line));
    before, selected, after := PushActive(state, before, selected, after, line);
    r := Ok(ScanState(pre, state, headerCount, selectedLevel, before, selected, after));
  }

  /** `WikiFormatter#extract_sections`. */
  method ExtractSections(text: string, index: int) returns (r: Result<Spans, SplitError>)
    ensures r == Extract(text, index)
  {
    var selected, before, after := [], [], [];
    var pre := Normal;
    var state := Before;
    var selectedLevel := 0;
    var headerCount := 0;
    var lines := Lines(text);
    var i := 0;
    while i < |lines|
      invariant 0 <= i <= |lines|
      invariant Scan(lines[..i], index) == Ok(ScanState(pre, state, headerCount, selectedLevel, before, selected, after))
    {
      assert lines[..i + 1][..i] == lines[..i];
      var next := ScanLine(pre, state, headerCount, selectedLevel, before, selected, after, lines[i], index);
      match next {
        case Err(e) =>
          ScanStaysFailed(lines, i + 1, index);
          assert lines[..|lines|] == lines;
          return Err(e);
        case Ok(st) =>
          pre, state, headerCount, selectedLevel := st.fence, st.region, st.headerCount, st.selectedLevel;
          before, selected, after := st.before, st.selected, st.after;
      }
      i := i + 1;
    }
    assert lines[..i] == lines;
    r := Ok(Spans(Strip(Flatten(before)), Strip(Flatten(selected)), Strip(Flatten(after))));
  }

  /** Once the loop has raised, every longer run raises as well. */
  lemma {:induction false} ScanStaysFailed(lines: seq<string>, n: nat, index: int)
    requires n <= |lines|
    requires Scan(lines[..n], index).Err?
    ensures Scan(lines, index) == Scan(lines[..n], index)
    decreases |lines| - n
  {
    if n < |lines| {
      assert lines[..n + 1][..n] == lines[..n];
      ScanStaysFailed(lines, n + 1, index);
    } else {
      assert lines[..n] == lines;
    }
  }
}

/** What the splitter promises: lossless partition, header counting, fences, monotone regions. */
module SectionProperties {
  import opened Wrappers
  import opened Text
  import opened Sections

  /** The three buffers joined back together, unstripped. */
  function Whole(st: ScanState): string {
    Flatten(st.before) + Flatten(st.selected) + Flatten(st.after)
  }

  function Rank(r: Region): nat {
    match r
    case Before => 0
    case Selected => 1
    case After => 2
  }

  /** Buffers of regions later than the active one are still empty. */
  predicate LaterEmpty(st: ScanState) {
    (st.region == Before ==> st.selected == [] && st.after == [])
    && (st.region == Selected ==> st.after == [])
  }

  /** How the region, the count and `index` relate, and which buffers are still empty. */
  predicate RegionInv(st: ScanState, index: int) {
    LaterEmpty(st)
    && st.headerCount >= 0
    && (st.region == Before ==> index < 1 || st.headerCount < index)
    && (st.region == Selected ==> 1 <= index <= st.headerCount && 1 <= st.selectedLevel <= 4)
    && (st.region == After ==> 1 <= index < st.headerCount)
  }

  /** The invariant of the scan after some lines (`started`) have been consumed. */
  predicate Inv(st: ScanState, index: int, started: bool) {
    RegionInv(st, index) && (started ==> Active(st) != [])
  }

  /** Fence state after the given lines, counting only fence lines. */
  function FenceAfter(lines: seq<string>): FenceState {
    if lines == [] then Normal
    else
      var prev := FenceAfter(lines[..|lines| - 1]);
      if IsFenceLine(lines[|lines| - 1]) then Toggle(prev) else prev
  }

  /** Whether the last line of `lines` is a header that the splitter counts. */
  predicate CountedAtEnd(lines: seq<string>)
    requires lines != []
  {
    var line := lines[|lines| - 1];
    !IsFenceLine(line) && FenceAfter(lines[..|lines| - 1]) == Normal
    && LevelOf(line).Some? && LevelOf(line).value <= 4
  }

  /** Number of lines that are headers of level 1 to 4 outside every fence. */
  function CountedHeaders(lines: seq<string>): nat {
    if lines == [] then 0
    else CountedHeaders(lines[..|lines| - 1]) + (if CountedAtEnd(lines) then 1 else 0)
  }

  /** The first line is an underline with nothing above it to pop. */
  predicate BareUnderlineFirst(lines: seq<string>) {
    lines != [] && !IsFenceLine(lines[0]) && Classify(lines[0]).Underline?
  }

  lemma FlattenPop(buf: seq<string>)
    requires buf != []
    ensures Flatten(buf[..|buf| - 1]) + buf[|buf| - 1] == Flatten(buf)
  {
    assert buf[..|buf| - 1] + [buf[|buf| - 1]] == buf;
    FlattenAppend(buf[..|buf| - 1], buf[|buf| - 1]);
  }

  lemma AppendWhole(st: ScanState, line: string)
    requires LaterEmpty(st)
    ensures Whole(Append(st, line)) == Whole(st) + line
  {
    FlattenAppend(Active(st), line);
  }

  lemma PopWhole(st: ScanState)
    requires LaterEmpty(st) && Active(st) != []
    ensures var buf := Active(st);
      Whole(SetActive(st, buf[..|buf| - 1])) + buf[|buf| - 1] == Whole(st)
  {
    FlattenPop(Active(st));
  }

  /** Counting a header and appending the line keep the invariant and append the line to the joined buffers. */
  lemma CountThenAppend(st: ScanState, level: Option<nat>, index: int, line: string)
    requires RegionInv(st, index)
    requires level.Some? ==> level.value >= 1
    ensures Inv(Append(CountHeader(st, level, index), line), index, true)
    ensures Whole(Append(CountHeader(st, level, index), line)) == Whole(st) + line
  {
    AppendWhole(CountHeader(st, level, index), line);
  }

  /** A step is the prepared state with the prepared line appended. */
  lemma StepIsAppend(st: ScanState, line: string, index: int)
    requires Step(st, line, index).Ok?
    ensures Prepare(st, line, index).Ok?
    ensures var (mid, l) := Prepare(st, line, index).value;
      Step(st, line, index).value == Append(mid, l)
  {
  }

  /** Appending leaves everything but the active buffer as it was. */
  lemma AppendKeeps(st: ScanState, line: string)
    ensures var next := Append(st, line);
      next.fence == st.fence && next.region == st.region && next.headerCount == st.headerCount
      && next.selectedLevel == st.selectedLevel && Active(next) == Active(st) + [line]
  {
  }

  /** What one step does to the fence state and to the header count. */
  lemma StepCounts(st: ScanState, line: string, index: int)
    requires Step(st, line, index).Ok?
    ensures var next := Step(st, line, index).value;
      next.fence == (if IsFenceLine(line) then Toggle(st.fence) else st.fence)
      && next.headerCount == st.headerCount
           + (if !IsFenceLine(line) && st.fence == Normal && LevelOf(line).Some? && LevelOf(line).value <= 4 then 1 else 0)
  {
    StepIsAppend(st, line, index);
    var (mid, l) := Prepare(st, line, index).value;
    AppendKeeps(mid, l);
    if !IsFenceLine(line) && st.fence == Normal {
      RehomeCounts(st, line);
      var (popped, joined, level) := Rehome(st, line).value;
      assert mid == CountHeader(popped, level, index);
      CountHeaderCounts(popped, level, index);
    }
  }

  lemma RehomeCounts(st: ScanState, line: string)
    requires Rehome(st, line).Ok?
    ensures var (popped, joined, level) := Rehome(st, line).value;
      level == LevelOf(line) && popped.headerCount == st.headerCount && popped.fence == st.fence
  {
    match Classify(line)
    case Underline(_) =>
    case HashHeader(_) =>
    case Plain =>
  }

  lemma CountHeaderCounts(st: ScanState, level: Option<nat>, index: int)
    ensures CountHeader(st, level, index).fence == st.fence
    ensures CountHeader(st, level, index).headerCount
      == st.headerCount + (if level.Some? && level.value <= 4 then 1 else 0)
  {
  }

  /** The pop under an underline moves the popped line into the joined line and changes nothing else. */
  lemma RehomeKeeps(st: ScanState, line: string, index: int)
    requires RegionInv(st, index)
    requires Rehome(st, line).Ok?
    ensures var (popped, joined, level) := Rehome(st, line).value;
      RegionInv(popped, index) && Whole(popped) + joined == Whole(st) + line
      && level == LevelOf(line) && (level.Some? ==> level.value >= 1)
      && popped.region == st.region && popped.headerCount == st.headerCount
      && popped.selectedLevel == st.selectedLevel && popped.fence == st.fence
  {
    RehomeCounts(st, line);
    RehomeFields(st, line, index);
    RehomeWhole(st, line);
  }

  lemma RehomeFields(st: ScanState, line: string, index: int)
    requires RegionInv(st, index)
    requires Rehome(st, line).Ok?
    ensures var (popped, _, level) := Rehome(st, line).value;
      RegionInv(popped, index) && (level.Some? ==> level.value >= 1)
      && popped.region == st.region && popped.selectedLevel == st.selectedLevel
  {
    match Classify(line)
    case Underline(_) =>
    case HashHeader(_) =>
    case Plain =>
  }

  lemma RehomeWhole(st: ScanState, line: string)
    requires LaterEmpty(st)
    requires Rehome(st, line).Ok?
    ensures var (popped, joined, _) := Rehome(st, line).value;
      Whole(popped) + joined == Whole(st) + line
  {
    RehomeJoins(st, line);
    if Classify(line).Underline? {
      var buf := Active(st);
      PopWhole(st);
      ConcatAssoc(Whole(SetActive(st, buf[..|buf| - 1])), buf[|buf| - 1], line);
    }
  }


  /** An underline takes the active buffer's last line off and prefixes it; any other line is kept as it is. */
  lemma RehomeJoins(st: ScanState, line: string)
    requires Rehome(st, line).Ok?
    ensures var (popped, joined, _) := Rehome(st, line).value;
      if Classify(line).Underline? then
        Active(st) != [] && joined == Active(st)[|Active(st)| - 1] + line
        && Active(popped) == Active(st)[..|Active(st)| - 1]
      else popped == st && joined == line
  {
  }

  /** One step keeps the invariant and appends exactly the consumed line to the joined buffers. */
  lemma StepKeepsInvariant(st: ScanState, line: string, index: int, started: bool)
    requires Inv(st, index, started)
    requires Step(st, line, index).Ok?
    ensures Inv(Step(st, line, index).value, index, true)
    ensures Whole(Step(st, line, index).value) == Whole(st) + line
  {
    StepIsAppend(st, line, index);
    if IsFenceLine(line) {
      CountThenAppend(st.(fence := Toggle(st.fence)), None, index, line);
    } else if st.fence == InsideFence {
      CountThenAppend(st, None, index, line);
    } else {
      RehomeKeeps(st, line, index);
      var (popped, joined, level) := Rehome(st, line).value;
      CountThenAppend(popped, level, index, joined);
    }
  }

  /** The invariant after any run, and the lossless partition of the consumed text. */
  lemma ScanKeepsInvariant(lines: seq<string>, index: int)
    requires Scan(lines, index).Ok?
    ensures Inv(Scan(lines, index).value, index, lines != [])
    ensures Whole(Scan(lines, index).value) == Flatten(lines)
  {
    ScanInv(lines, index);
    ScanWhole(lines, index);
  }

  lemma {:induction false} ScanInv(lines: seq<string>, index: int)
    requires Scan(lines, index).Ok?
    ensures Inv(Scan(lines, index).value, index, lines != [])
  {
    if lines != [] {
      var init := lines[..|lines| - 1];
      ScanInv(init, index);
      StepKeepsInvariant(Scan(init, index).value, lines[|lines| - 1], index, init != []);
    }
  }

  lemma {:induction false} ScanWhole(lines: seq<string>, index: int)
    requires Scan(lines, index).Ok?
    ensures Whole(Scan(lines, index).value) == Flatten(lines)
  {
    if lines != [] {
      var init := lines[..|lines| - 1];
      ScanWholeStep(lines, index);
      ScanWhole(init, index);
      FlattenSnoc(lines);
    }
  }

  /** The last line of `lines` lands, whole, at the end of the buffered text. */
  lemma ScanWholeStep(lines: seq<string>, index: int)
    requires lines != [] && Scan(lines, index).Ok?
    ensures Scan(lines[..|lines| - 1], index).Ok?
    ensures Whole(Scan(lines, index).value) == Whole(Scan(lines[..|lines| - 1], index).value) + lines[|lines| - 1]
  {
    var init := lines[..|lines| - 1];
    ScanInv(init, index);
    StepKeepsInvariant(Scan(init, index).value, lines[|lines| - 1], index, init != []);
  }



  /**
   * Lossless partition: the unstripped `before`, `selected` and `after`
   * buffers, joined in that order, give back the document, and the three
   * returned spans are their stripped joins.
   */
  lemma ExtractIsLossless(text: string, index: int)
    requires Scan(Lines(text), index).Ok?
    ensures var st := Scan(Lines(text), index).value;
      Flatten(st.before) + Flatten(st.selected) + Flatten(st.after) == text
      && Extract(text, index) == Ok(Spans(Strip(Flatten(st.before)), Strip(Flatten(st.selected)), Strip(Flatten(st.after))))
  {
    ScanKeepsInvariant(Lines(text), index);
  }

  /**
   * The scan raises exactly when the document opens with an underline line
   * (outside a fence): only then is the active buffer empty when it pops.
   */
  lemma {:induction false} ScanFailsIff(lines: seq<string>, index: int)
    ensures Scan(lines, index).Err? <==> BareUnderlineFirst(lines)
  {
    if lines == [] {
    } else if |lines| == 1 {
      assert lines[..0] == [];
    } else {
      var init := lines[..|lines| - 1];
      assert init[0] == lines[0];
      ScanFailsIff(init, index);
      if Scan(init, index).Ok? {
        ScanKeepsInvariant(init, index);
      }
    }
  }

  /** The count the scan keeps is the number of headers of level 1 to 4 outside fences. */
  lemma {:induction false} ScanCountsHeaders(lines: seq<string>, index: int)
    requires Scan(lines, index).Ok?
    ensures Scan(lines, index).value.fence == FenceAfter(lines)
    ensures Scan(lines, index).value.headerCount == CountedHeaders(lines)
  {
    if lines != [] {
      var init := lines[..|lines| - 1];
      ScanCountsHeaders(init, index);
      StepCounts(Scan(init, index).value, lines[|lines| - 1], index);
    }
  }

  /**
   * A fence line toggles the fence state, and neither it nor a line inside a
   * fence is taken as a header: count, region and selected level stay, and
   * the line is appended unchanged to the active buffer.
   */
  lemma FenceHidesHeaders(st: ScanState, line: string, index: int)
    requires IsFenceLine(line) || st.fence == InsideFence
    ensures Step(st, line, index).Ok?
    ensures var next := Step(st, line, index).value;
      next.headerCount == st.headerCount && next.region == st.region && next.selectedLevel == st.selectedLevel
      && Active(next) == Active(st) + [line]
      && next.fence == (if IsFenceLine(line) then Toggle(st.fence) else st.fence)
  {
  }

  /**
   * Region changes are monotone: `Before` never goes straight to `After`,
   * `Selected` is entered only when the count reaches `index`, left only for
   * `After` on a counted header no deeper than the selected one, deeper
   * headers stay inside, and `After` is final.
   */
  lemma StepRegion(st: ScanState, line: string, index: int, started: bool)
    requires Inv(st, index, started)
    requires Step(st, line, index).Ok?
    ensures var next := Step(st, line, index).value;
      Rank(st.region) <= Rank(next.region)
      && (st.region == After ==> next.region == After)
      && (st.region == Before ==> next.region != After)
      && (st.region != Selected && next.region == Selected ==>
            next.headerCount == index && Some(next.selectedLevel) == LevelOf(line))
      && (st.region == Selected && next.region == After ==>
            !IsFenceLine(line) && st.fence == Normal && LevelOf(line).Some? && LevelOf(line).value <= st.selectedLevel)
      && ((st.region == Selected && !IsFenceLine(line) && st.fence == Normal
           && LevelOf(line).Some? && LevelOf(line).value > st.selectedLevel) ==> next.region == Selected)
  {
    StepIsAppend(st, line, index);
    var (mid, l) := Prepare(st, line, index).value;
    AppendKeeps(mid, l);
    if !IsFenceLine(line) && st.fence == Normal {
      RehomeKeeps(st, line, index);
      var (popped, joined, level) := Rehome(st, line).value;
      assert mid == CountHeader(popped, level, index);
    }
  }

  /** Over a whole run, the region only moves forward, and `After` is never left. */
  lemma {:induction false} ScanRegionMonotone(lines: seq<string>, n: nat, index: int)
    requires n <= |lines|
    requires Scan(lines, index).Ok?
    ensures Scan(lines[..n], index).Ok?
    ensures Rank(Scan(lines[..n], index).value.region) <= Rank(Scan(lines, index).value.region)
    ensures Scan(lines[..n], index).value.region == After ==> Scan(lines, index).value.region == After
    decreases |lines| - n
  {
    if n == |lines| {
      assert lines[..n] == lines;
    } else {
      var init := lines[..|lines| - 1];
      assert init[..n] == lines[..n];
      ScanRegionMonotone(init, n, index);
      ScanKeepsInvariant(init, index);
      StepRegion(Scan(init, index).value, lines[|lines| - 1], index, init != []);
    }
  }

  /**
   * The scan stays in `before` exactly when `index` names no counted header;
   * then the selected and after buffers are empty.
   */
  lemma StaysBeforeIff(lines: seq<string>, index: int)
    requires Scan(lines, index).Ok?
    ensures var st := Scan(lines, index).value;
      (st.region == Before <==> index < 1 || index > CountedHeaders(lines))
      && (st.region == Before ==> st.selected == [] && st.after == [])
  {
    ScanKeepsInvariant(lines, index);
    ScanCountsHeaders(lines, index);
  }

  /** A missing section: everything is `before`, and the selected span is empty. */
  lemma MissingSection(text: string, index: int)
    requires Scan(Lines(text), index).Ok?
    requires index < 1 || index > CountedHeaders(Lines(text))
    ensures Extract(text, index) == Ok(Spans(Strip(text), "", ""))
  {
    var lines := Lines(text);
    MissingSectionSpans(lines, index);
  }

  lemma MissingSectionSpans(lines: seq<string>, index: int)
    requires Scan(lines, index).Ok?
    requires index < 1 || index > CountedHeaders(lines)
    ensures SpansOf(Scan(lines, index).value) == Spans(Strip(Flatten(lines)), "", "")
  {
    StaysBeforeIff(lines, index);
    ScanKeepsInvariant(lines, index);
    OnlyBefore(Scan(lines, index).value, Flatten(lines));
  }

  /**
   * The selected span can end up empty even though `index` names a counted
   * header: in `"A\n===\n===\n"` with index 1 the first underline makes
   * `A` the selected header, and the second pops it out of `selected` again
   * and appends it, with both underlines, to `after`.
   */
  lemma UnderlineEmptiesSelected(a: string, u: string)
    requires a == "A\n" && u == "===\n"
    ensures Scan([a, u, u], 1) == Ok(ScanState(Normal, After, 2, 1, [], [], [a + u + u]))
    ensures SpansOf(Scan([a, u, u], 1).value).selected == ""
  {
    PlainLine(a);
    RuleLine(u);
    HeaderTakenBack(a, u);
  }

  /** A plain line and the same underline twice, with index 1: the header is selected and then moved to `after`. */
  lemma HeaderTakenBack(a: string, u: string)
    requires !IsFenceLine(a) && Classify(a) == Plain
    requires !IsFenceLine(u) && Classify(u) == Underline(1)
    ensures Scan([a, u, u], 1) == Ok(ScanState(Normal, After, 2, 1, [], [], [a + u + u]))
  {
    var s1 := ScanState(Normal, Before, 0, 0, [a], [], []);
    var s2 := ScanState(Normal, Selected, 1, 1, [], [a + u], []);
    var s3 := ScanState(Normal, After, 2, 1, [], [], [a + u + u]);
    FirstLineStep(a);
    SelectingStep(a, u);
    DeselectingStep(a + u, u);
    ScanOfThree(a, u, u, 1, s1, s2, s3);
  }

  lemma FirstLineStep(a: string)
    requires !IsFenceLine(a) && Classify(a) == Plain
    ensures Step(Initial, a, 1) == Ok(ScanState(Normal, Before, 0, 0, [a], [], []))
  {
    StepPlainLine(Initial, a, 1);
    assert [] + [a] == [a];
  }

  /** The first underline, with index 1, makes the line before it the selected header. */
  lemma SelectingStep(a: string, u: string)
    requires !IsFenceLine(u) && Classify(u) == Underline(1)
    ensures Step(ScanState(Normal, Before, 0, 0, [a], [], []), u, 1) == Ok(ScanState(Normal, Selected, 1, 1, [], [a + u], []))
  {
    StepUnderlineLine(ScanState(Normal, Before, 0, 0, [a], [], []), u, 1, 1);
    Singleton(a);
    assert [] + [a + u] == [a + u];
  }

  /** A second underline of the same level ends the selected section and takes its header along. */
  lemma DeselectingStep(h: string, u: string)
    requires !IsFenceLine(u) && Classify(u) == Underline(1)
    ensures Step(ScanState(Normal, Selected, 1, 1, [], [h], []), u, 1) == Ok(ScanState(Normal, After, 2, 1, [], [], [h + u]))
  {
    StepUnderlineLine(ScanState(Normal, Selected, 1, 1, [], [h], []), u, 1, 1);
    Singleton(h);
    assert [] + [h + u] == [h + u];
  }

  lemma PlainLine(a: string)
    requires a == "A\n"
    ensures !IsFenceLine(a) && Classify(a) == Plain
  {
    assert TrimLeft(a) == a;
    assert TrimRight(a) == TrimRight(a[..1]) == a[..1];
  }

  lemma RuleLine(u: string)
    requires u == "===\n"
    ensures !IsFenceLine(u) && Classify(u) == Underline(1)
  {
    assert TrimLeft(u) == u;
    assert TrimRight(u) == TrimRight(u[..3]) == u[..3];
  }

  /** The scan of three lines is the three steps from the initial state. */
  lemma ScanOfThree(x: string, y: string, z: string, index: int, s1: ScanState, s2: ScanState, s3: ScanState)
    requires Step(Initial, x, index) == Ok(s1) && Step(s1, y, index) == Ok(s2) && Step(s2, z, index) == Ok(s3)
    ensures Scan([x, y, z], index) == Ok(s3)
  {
    assert [x][..0] == [];
    assert Scan([x], index) == Ok(s1);
    assert [x, y][..1] == [x];
    assert Scan([x, y], index) == Ok(s2);
    assert [x, y, z][..2] == [x, y];
  }

  lemma Singleton<T>(x: T)
    ensures [x][..0] == [] && [x][0] == x
  {
  }

  /** A plain line outside a fence is appended to the active buffer unchanged. */
  lemma StepPlainLine(st: ScanState, line: string, index: int)
    requires !IsFenceLine(line) && st.fence == Normal && Classify(line) == Plain
    ensures Step(st, line, index) == Ok(Append(st, line))
  {
  }

  /** An underline outside a fence takes the active buffer's last line with it and counts as a header. */
  lemma StepUnderlineLine(st: ScanState, line: string, index: int, level: nat)
    requires !IsFenceLine(line) && st.fence == Normal && Classify(line) == Underline(level) && Active(st) != []
    ensures var buf := Active(st);
      Step(st, line, index) == Ok(Append(CountHeader(SetActive(st, buf[..|buf| - 1]), Some(level), index), buf[|buf| - 1] + line))
  {
  }

  lemma OnlyBefore(st: ScanState, text: string)
    requires st.selected == [] && st.after == [] && Whole(st) == text
    ensures SpansOf(st) == Spans(Strip(text), "", "")
  {
    var b := Flatten(st.before);
    assert Flatten(st.selected) == [] && Flatten(st.after) == [];
    AppendNothing(b);
    AppendNothing(b + []);
  }
}
