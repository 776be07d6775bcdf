/**
 * `WikiFormatter#get_section` and `#update_section`: read one section with
 * a digest of its text, and replace it only if the caller's digest still
 * matches (optimistic concurrency). The MD5 digest is a parameter `md5`;
 * only equality of digests matters.
 */
module SectionEditor {
  import opened Wrappers
  import opened Text
  import opened Sections

  /** `Redmine::WikiFormatting::StaleSectionError`, and the splitter's own failure passed through. */
  datatype EditError = StaleSection | SplitFailed(cause: SplitError)

  /** `get_section(index)`: the selected span and its digest. */
  function GetSection(text: string, index: int, md5: string -> string): (r: Result<(string, string), SplitError>)
    ensures r.Ok? <==> Extract(text, index).Ok?
    ensures r.Err? ==> r.error == Extract(text, index).error
    ensures r.Ok? ==> r.value.0 == Extract(text, index).value.selected && r.value.1 == md5(r.value.0)
  {
    match Extract(text, index)
    case Err(e) => Err(e)
    case Ok(spans) => Ok((spans.selected, md5(spans.selected)))
  }

  /** ActiveSupport's `present?` on the optional `hash` argument (`nil` is not present). */
  predicate IsPresent(hash: Option<string>) {
    hash.Some? && !IsBlank(hash.value)
  }

  /** `Array#reject(&:blank?)` */
  function RejectBlank(parts: seq<string>): (kept: seq<string>)
    ensures |kept| <= |parts|
    ensures forall i :: 0 <= i < |kept| ==> !IsBlank(kept[i]) && kept[i] in parts
    ensures forall p :: p in parts && !IsBlank(p) ==> p in kept
  {
    if parts == [] then []
    else (if IsBlank(parts[0]) then [] else [parts[0]]) + RejectBlank(parts[1..])
  }

  /** `reject` keeps the order of the parts: it distributes over concatenation. */
  lemma {:induction false} RejectBlankAppend(a: seq<string>, b: seq<string>)
    ensures RejectBlank(a + b) == RejectBlank(a) + RejectBlank(b)
  {
    if a == [] {
      assert [] + b == b;
    } else {
      assert (a + b)[1..] == a[1..] + b;
      RejectBlankAppend(a[1..], b);
    }
  }

  /** A single part is kept exactly when it is not blank. */
  lemma RejectBlankOne(p: string)
    ensures RejectBlank([p]) == if IsBlank(p) then [] else [p]
  {
  }

  /** Line 162: the non-blank parts joined by a blank line. */
  function Reassemble(parts: seq<string>): string {
    Join(RejectBlank(parts), "\n\n")
  }

  /** Lines 158-162 once the document has been split: the staleness check, the substitution and the reassembly. */
  function Updated(spans: Spans, update: string, hash: Option<string>, md5: string -> string): Result<string, EditError> {
    if IsPresent(hash) && hash.value != md5(spans.selected) then Err(StaleSection)
    else Ok(Reassemble([spans.before, if IsBlank(spans.selected) then spans.selected else update, spans.after]))
  }

  /** `update_section(index, update, hash)` as a function of the document text. */
  function UpdateOutcome(text: string, index: int, update: string, hash: Option<string>, md5: string -> string)
    : Result<string, EditError>
  {
    match Extract(text, index)
    case Err(e) => Err(SplitFailed(e))
    case Ok(spans) => Updated(spans, update, hash, md5)
  }

  /** Lines 158-162 on the three spans: the staleness check, the substitution of `t[1]` and the reassembly. */
  method ReplaceSelected(spans: Spans, update: string, hash: Option<string>, md5: string -> string)
    returns (r: Result<string, EditError>)
    ensures r == Updated(spans, update, hash, md5)
  {
    var t := [spans.before, spans.selected, spans.after];
    if IsPresent(hash) && hash.value != md5(t[1]) {
      return Err(StaleSection);
    }
    if !IsBlank(t[1]) {
      t := t[1 := update];
      assert t == [spans.before, update, spans.after];
    }
    r := Ok(Reassemble(t));
  }

  /** `WikiFormatter#update_section`. */
  method UpdateSection(text: string, index: int, update: string, hash: Option<string>, md5: string -> string)
    returns (r: Result<string, EditError>)
    ensures r == UpdateOutcome(text, index, update, hash, md5)
  {
    var split := ExtractSections(text, index);
    match split {
      case Err(e) =>
        r := Err(SplitFailed(e));
      case Ok(spans) =>
        r := ReplaceSelected(spans, update, hash, md5);
    }
  }

  /** Writing the selected span back with its own digest reassembles the three spans. */
  lemma WriteBackSpans(spans: Spans, md5: string -> string)
    ensures Updated(spans, spans.selected, Some(md5(spans.selected)), md5)
      == Ok(Reassemble([spans.before, spans.selected, spans.after]))
  {
  }

  /**
   * On given spans, the update is stale exactly when a present digest
   * differs from the selected span's; when it is not stale, the digest plays
   * no part in the text written.
   */
  lemma StaleIffSpans(spans: Spans, update: string, hash: Option<string>, md5: string -> string)
    ensures Updated(spans, update, hash, md5) == Err(StaleSection)
      <==> IsPresent(hash) && hash.value != md5(spans.selected)
    ensures Updated(spans, update, hash, md5).Ok? ==> Updated(spans, update, hash, md5) == Updated(spans, update, None, md5)
  {
  }

  /** With a blank selected span the replacement text plays no part. */
  lemma BlankSpanIgnoresUpdate(spans: Spans, u1: string, u2: string, hash: Option<string>, md5: string -> string)
    requires IsBlank(spans.selected)
    ensures Updated(spans, u1, hash, md5) == Updated(spans, u2, hash, md5)
  {
  }

  /**
   * Writing back what `get_section` read, with its digest, succeeds and gives
   * the three spans of the document, blank ones dropped, joined by a blank line.
   */
  lemma ReadThenWriteBack(text: string, index: int, md5: string -> string)
    requires GetSection(text, index, md5).Ok?
    ensures var (section, digest) := GetSection(text, index, md5).value;
      var spans := Extract(text, index).value;
      UpdateOutcome(text, index, section, Some(digest), md5)
        == Ok(Reassemble([spans.before, spans.selected, spans.after]))
  {
    WriteBackSpans(Extract(text, index).value, md5);
  }

  /** The update fails as stale exactly when a present digest differs from the digest of the current section. */
  lemma StaleExactlyWhenDigestDiffers(text: string, index: int, update: string, hash: Option<string>, md5: string -> string)
    requires Extract(text, index).Ok?
    ensures UpdateOutcome(text, index, update, hash, md5) == Err(StaleSection)
      <==> IsPresent(hash) && hash.value != md5(Extract(text, index).value.selected)
  {
    StaleIffSpans(Extract(text, index).value, update, hash, md5);
  }

  /**
   * A digest read earlier is rejected once the section it was read from has
   * changed, provided the two texts have different digests.
   */
  lemma ChangedSectionIsStale(text: string, edited: string, index: int, update: string, md5: string -> string)
    requires GetSection(text, index, md5).Ok? && Extract(edited, index).Ok?
    requires !IsBlank(md5(Extract(text, index).value.selected))
    requires md5(Extract(edited, index).value.selected) != md5(Extract(text, index).value.selected)
    ensures UpdateOutcome(edited, index, update, Some(GetSection(text, index, md5).value.1), md5) == Err(StaleSection)
  {
    var digest := md5(Extract(text, index).value.selected);
    StaleIffSpans(Extract(edited, index).value, update, Some(digest), md5);
  }

  /** Without a digest (or with a blank one) no check is made and the update never fails as stale. */
  lemma NoDigestNoCheck(text: string, index: int, update: string, hash: Option<string>, md5: string -> string)
    requires !IsPresent(hash)
    ensures UpdateOutcome(text, index, update, hash, md5) != Err(StaleSection)
  {
    if Extract(text, index).Ok? {
      StaleIffSpans(Extract(text, index).value, update, hash, md5);
    }
  }

  /** When the section is missing or blank, the update is a no-op whatever the replacement text. */
  lemma BlankSectionIgnoresUpdate(text: string, index: int, u1: string, u2: string, hash: Option<string>, md5: string -> string)
    requires Extract(text, index).Ok? && IsBlank(Extract(text, index).value.selected)
    ensures UpdateOutcome(text, index, u1, hash, md5) == UpdateOutcome(text, index, u2, hash, md5)
  {
    BlankSpanIgnoresUpdate(Extract(text, index).value, u1, u2, hash, md5);
  }
}
