# redmine_markdown_extra_formatter, modelled in Dafny

This project models the text-processing core of `redmine_markdown_extra_formatter`.
The plugin is a Redmine wiki formatter built on BlueFeather (Markdown Extra).
The core lives in `lib/redmine_markdown_extra_formatter/wiki_formatter.rb` and
is modelled as four parts.

- **Section splitting** (`extract_sections`). This is a line-by-line state
  machine. Its state is the fence state (`~~~` / `` ``` ``), the region
  (`before`, `selected`, `after`), a header count and the selected header's
  level. ATX headers (`#`) and setext underlines (`===`, `---`) of level 1 to
  4 are counted. An underline takes the preceding line out of the buffer it
  was appended to. The result is the three buffers, each joined and
  stripped. Module `Sections` holds the scanner as a function (`Scan`) and
  as the imperative loop (`ExtractSections`). Module `SectionProperties`
  holds what is proved about it.
- **Section editing** (`get_section`, `update_section`). Module
  `SectionEditor` covers reading a section with its digest, the
  stale-digest check, replacing the selected span, and reassembling the
  non-blank spans with blank lines between them.
- **Inline macros** (`inline_macros`, `MACROS_RE`). In module `Macros` the
  regular expression is written out as a scanner (`TokenAt`, `MatchAt`). A
  left-to-right expansion (`Expand`) and the imperative loop
  (`InlineMacros`) are proved equal.
- **Table of contents** (`transform_toc`, `TOCRegexp`,
  `TOCStartLevelRegexp`). Module `TocSyntax` holds both regular
  expressions, written out with their backtracking. Module `Toc` holds the
  level settings, the warnings, the list HTML and a `RenderState` class.
  `TransformToc` appends to the class's `warnings` field.

Modules `Text` and `Wrappers` hold the Ruby string operations the core relies
on: `each_line`, `strip`, `blank?`, `split(',')`, `downcase`, `Array#join`
and `Integer#to_s`.

Source behaviour the model follows, including some that is easy to misread:

- Macro arguments are passed to the macro runner unstripped. The code's
  `.each(&:strip)` returns the original array (line 125).
- A runner that returns `nil` leaves the token in place (`|| all`, line 131).
- A setext underline on the first line outside a fence, when nothing has
  been buffered yet, makes `nil + line` fail (lines 184 and 187). The model
  returns `Err(UnderlineWithoutText)`.
- On a `{toc}` line with a parameter, `$1` at line 76 belongs to
  `TOCStartLevelRegexp`, not to `TOCRegexp`. So `{>toc:h2..h3}` gets the
  plain class `toc`. Only a line without a parameter can float right or
  left (`Toc.ListClass`).
- `{toc  }` (two spaces) has the parameter `" "`. The greedy `[ ]+` gives
  back a space so that `(.+?)` can match (`TocSyntax.TwoSpacesGiveSpaceParam`).
  The parameter warning follows.
- The selected span can be empty even though `index` names a counted
  header. In `"A\n===\n===\n"` with index 1, the second underline takes
  the selected header back out of `selected` and appends it to `after`
  (`SectionProperties.UnderlineEmptiesSelected`). The converse is proved
  for every text: an index that names no header leaves the
  selected span empty (`SectionProperties.MissingSection`).

## Model

| member | source | states |
|---|---|---|
| Text.Strip | lib/redmine_markdown_extra_formatter/wiki_formatter.rb:183 | `String#strip`: the result has no strip character at either end, and it is empty exactly when every character of the input is one |
| Text.StripIsInfix | lib/redmine_markdown_extra_formatter/wiki_formatter.rb:183 | `strip` removes only leading and trailing strip characters: the result is the input with some strip characters cut from the front and some from the back |
| Text.Lines | lib/redmine_markdown_extra_formatter/wiki_formatter.rb:175 | `each_line`: the lines concatenate back to the text, and every line but the last ends with its newline |
| Text.CommaPieces | lib/redmine_markdown_extra_formatter/wiki_formatter.rb:125 | the comma-separated pieces contain no comma, and joined with commas they give the text back |
| Text.DropTrailingEmpty | lib/redmine_markdown_extra_formatter/wiki_formatter.rb:125 | `split` drops only trailing empty pieces: the result is a prefix, its last piece is non-empty, and everything dropped is empty |
| Text.Downcase | lib/redmine_markdown_extra_formatter/wiki_formatter.rb:124 | `downcase` keeps the length and lowers each character |
| Sections.Classify | lib/redmine_markdown_extra_formatter/wiki_formatter.rb:181-191 | a line is a `#` header exactly when it starts with `#`, with level between 1 and its length; an underline is level 1 or 2 |
| Sections.ClassifyExact | lib/redmine_markdown_extra_formatter/wiki_formatter.rb:181-191 | the level of a `#` header is the length of the leading `#` run; a line whose strip is all `=` is a level-1 underline, one whose strip is all `-` (and not all `=`) a level-2 underline, and every other line without a leading `#` is plain, each as an if-and-only-if |
| Sections.RehomeLine | lib/redmine_markdown_extra_formatter/wiki_formatter.rb:181-191 | on the loop's variables, an underline pops the active buffer's last line and prefixes it, and fails when that buffer is empty; equal to `Rehome` |
| Sections.CountLevel | lib/redmine_markdown_extra_formatter/wiki_formatter.rb:192-202 | counting a header of level 4 or less and moving between regions, equal to `CountHeader` whatever the buffers hold |
| Sections.ScanLine | lib/redmine_markdown_extra_formatter/wiki_formatter.rb:175-205 | one iteration of the `each_line` block on the seven loop variables equals one `Step` of the scan |
| Sections.ExtractSections | lib/redmine_markdown_extra_formatter/wiki_formatter.rb:167-209 | the imperative splitter returns exactly `Extract(text, index)`, error included |
| Sections.ScanStaysFailed | lib/redmine_markdown_extra_formatter/wiki_formatter.rb:184-187 | once a line fails, the rest of the text does not change the outcome |
| SectionProperties.StepKeepsInvariant | lib/redmine_markdown_extra_formatter/wiki_formatter.rb:175-205 | one step keeps the region invariant: later buffers are empty, and the region agrees with the count and the index |
| SectionProperties.RehomeJoins | lib/redmine_markdown_extra_formatter/wiki_formatter.rb:183-188 | an underline takes the active buffer's last line off that buffer and is prefixed with it (`eval(state).pop + line`); any other line leaves the state and itself unchanged |
| SectionProperties.StepCounts | lib/redmine_markdown_extra_formatter/wiki_formatter.rb:177-194 | a fence line toggles the fence, and the count grows by one exactly for a line outside a fence whose header level is at most 4 |
| SectionProperties.ScanKeepsInvariant | lib/redmine_markdown_extra_formatter/wiki_formatter.rb:168-206 | over a whole run the invariant holds, and the three buffers together hold every line of the text in order |
| SectionProperties.ExtractIsLossless | lib/redmine_markdown_extra_formatter/wiki_formatter.rb:175-208 | before stripping, the before, selected and after spans concatenate to the original text |
| SectionProperties.ScanFailsIff | lib/redmine_markdown_extra_formatter/wiki_formatter.rb:183-188 | the splitter fails exactly when the document's first line is an underline that is not a fence line |
| SectionProperties.ScanCountsHeaders | lib/redmine_markdown_extra_formatter/wiki_formatter.rb:177-194 | the final fence state and header count equal an independent count of the header lines outside fences |
| SectionProperties.FenceHidesHeaders | lib/redmine_markdown_extra_formatter/wiki_formatter.rb:177-179 | a fence line and a line inside a fence never count as headers and are appended unchanged |
| SectionProperties.StepRegion | lib/redmine_markdown_extra_formatter/wiki_formatter.rb:195-200 | the region only moves forward and never goes from `before` straight to `after`; `selected` is entered only at the indexed header; it is left only for a header no deeper than the selected one; `after` is final |
| SectionProperties.ScanRegionMonotone | lib/redmine_markdown_extra_formatter/wiki_formatter.rb:195-200 | over a whole run the region of any prefix is no later than the final one |
| SectionProperties.StaysBeforeIff | lib/redmine_markdown_extra_formatter/wiki_formatter.rb:195-200 | the scan stays in `before` exactly when the index names no counted header, and then the other buffers are empty |
| SectionProperties.UnderlineEmptiesSelected | lib/redmine_markdown_extra_formatter/wiki_formatter.rb:181-202 | in `"A\n===\n===\n"` with index 1 the selected span is empty: the second underline takes the counted header out of `selected` and into `after` |
| SectionProperties.HeaderTakenBack | lib/redmine_markdown_extra_formatter/wiki_formatter.rb:181-202 | for a plain line followed by two level-1 underlines, the scan with index 1 counts two headers, keeps level 1 as the selected level, and ends in `after` with all three lines in the `after` buffer and the `before` and `selected` buffers empty |
| SectionProperties.MissingSection | lib/redmine_markdown_extra_formatter/wiki_formatter.rb:195-208 | with an index that names no header, the result is the stripped text followed by two empty spans |
| SectionEditor.RejectBlank | lib/redmine_markdown_extra_formatter/wiki_formatter.rb:162 | `reject(&:blank?)` keeps exactly the non-blank parts |
| SectionEditor.RejectBlankAppend | lib/redmine_markdown_extra_formatter/wiki_formatter.rb:162 | `reject` distributes over concatenation, so the kept parts stay in their order |
| SectionEditor.RejectBlankOne | lib/redmine_markdown_extra_formatter/wiki_formatter.rb:162 | a single part is kept exactly when it is not blank; with `RejectBlankAppend` this fixes the result, order and repeats included |
| SectionEditor.GetSection | lib/redmine_markdown_extra_formatter/wiki_formatter.rb:150-154 | `get_section` fails exactly when the splitter fails, with its error; otherwise it returns the splitter's selected span and the digest of exactly that text |
| SectionEditor.ReplaceSelected | lib/redmine_markdown_extra_formatter/wiki_formatter.rb:158-162 | on the three spans, the method equals `Updated`: stale check, substitution of a non-blank selected span, reassembly |
| SectionEditor.UpdateSection | lib/redmine_markdown_extra_formatter/wiki_formatter.rb:156-163 | `update_section` returns exactly `UpdateOutcome`, splitter failure included |
| SectionEditor.WriteBackSpans | lib/redmine_markdown_extra_formatter/wiki_formatter.rb:158-162 | writing the selected span back with its own digest reassembles the three spans |
| SectionEditor.StaleIffSpans | lib/redmine_markdown_extra_formatter/wiki_formatter.rb:158-160 | on given spans, the update is stale exactly when a present digest differs; when it is not stale, the text written is the one an update without a digest writes |
| SectionEditor.BlankSpanIgnoresUpdate | lib/redmine_markdown_extra_formatter/wiki_formatter.rb:161 | a blank selected span is never replaced |
| SectionEditor.ReadThenWriteBack | lib/redmine_markdown_extra_formatter/wiki_formatter.rb:150-163 | writing back what `get_section` returned, with its digest, succeeds and gives the non-blank spans joined by blank lines |
| SectionEditor.StaleExactlyWhenDigestDiffers | lib/redmine_markdown_extra_formatter/wiki_formatter.rb:158-160 | the update raises the stale-section error exactly when a present digest differs from the current section's |
| SectionEditor.ChangedSectionIsStale | lib/redmine_markdown_extra_formatter/wiki_formatter.rb:150-160 | a digest read before the section changed is rejected, provided the digests differ |
| SectionEditor.NoDigestNoCheck | lib/redmine_markdown_extra_formatter/wiki_formatter.rb:158 | without a present digest the update is never stale |
| SectionEditor.BlankSectionIgnoresUpdate | lib/redmine_markdown_extra_formatter/wiki_formatter.rb:161 | a missing or blank section makes the replacement text irrelevant |
| Macros.WordRun | lib/redmine_markdown_extra_formatter/wiki_formatter.rb:116 | `[\w]+` takes the whole leading run of word characters and stops at a non-word character |
| Macros.BraceIndex | lib/redmine_markdown_extra_formatter/wiki_formatter.rb:117 | `[^\}]*` stops at the first `}`, and none occurs before it |
| Macros.TokenAt | lib/redmine_markdown_extra_formatter/wiki_formatter.rb:114-119 | a recognised token is a prefix of the text that is exactly `{{` + name + optional `(args)` + `}}` (`MacroText`) with a non-empty word-character name and arguments without `}`; with `TokenOfMacroText` every such prefix is recognised |
| Macros.MatchAt | lib/redmine_markdown_extra_formatter/wiki_formatter.rb:112-120 | a match is a non-empty prefix of the text made of an optional `!` (exactly when `escaped`) followed by the token's text |
| Macros.InlineMacros | lib/redmine_markdown_extra_formatter/wiki_formatter.rb:122-137 | the `gsub!` loop returns exactly `Expand(text, run)` |
| Macros.Step | lib/redmine_markdown_extra_formatter/wiki_formatter.rb:123-135 | one scan step advances at least one character and appends one piece to the output, so that the output followed by the expansion of the rest still equals the earlier output followed by the expansion of the whole |
| Macros.TokenOfMacroText | lib/redmine_markdown_extra_formatter/wiki_formatter.rb:114-119 | `{{name}}` and `{{name(args)}}` are recognised in full, whatever follows |
| Macros.MacroIsReplaced | lib/redmine_markdown_extra_formatter/wiki_formatter.rb:123-135 | a token is replaced by the runner's answer for the lower-cased name and the comma-split arguments; `nil` keeps the token; an error gives the `flash error` fragment; the rest is expanded independently, so a replacement is never rescanned |
| Macros.EscapedMacroIsLiteral | lib/redmine_markdown_extra_formatter/wiki_formatter.rb:126-133 | `!{{...}}` becomes the token without its `!`, and the runner is not consulted |
| Macros.NoBraceUnchanged | lib/redmine_markdown_extra_formatter/wiki_formatter.rb:123-135 | text without `{` comes out unchanged |
| Macros.DeclinedMacrosKeepText | lib/redmine_markdown_extra_formatter/wiki_formatter.rb:126-131 | when the runner returns `nil` for everything, text without `!` comes out unchanged |
| Macros.SplitCommaRejoins | lib/redmine_markdown_extra_formatter/wiki_formatter.rb:125 | the argument list joined with commas, plus the dropped trailing commas, is the argument text |
| Macros.EscapedExample | lib/redmine_markdown_extra_formatter/wiki_formatter.rb:113-133 | `!{{foo(1,2)}}` expands to `{{foo(1,2)}}` |
| Macros.CallExample | lib/redmine_markdown_extra_formatter/wiki_formatter.rb:124-128 | `{{Foo( a ,b)}}` calls the runner with `foo` and `[" a ", "b"]` and is replaced by its answer |
| Macros.UnstrippedArgsExample | lib/redmine_markdown_extra_formatter/wiki_formatter.rb:125 | the arguments ` a ,b` are split but not stripped |
| TocSyntax.SpaceRun | lib/redmine_markdown_extra_formatter/wiki_formatter.rb:12 | `[ ]*` takes every space from a position and stops at a non-space |
| TocSyntax.LazyEnd | lib/redmine_markdown_extra_formatter/wiki_formatter.rb:22-27 | the lazy parameter ends at the first position from which the closer matches, and no earlier one does |
| TocSyntax.SpacedParam | lib/redmine_markdown_extra_formatter/wiki_formatter.rb:20-22 | the greedy `[ ]+` gives back spaces one at a time: the parameter it settles on starts after at least one space, within the run, and the lazy parameter from there reaches a closer |
| TocSyntax.SpacedParamLongest | lib/redmine_markdown_extra_formatter/wiki_formatter.rb:20-22 | backtracking keeps the longest space run after which the lazy parameter closes, and the match fails only when no run length lets it close |
| TocSyntax.ParamEnd | lib/redmine_markdown_extra_formatter/wiki_formatter.rb:22-27 | the lazy `(.+?)` takes at least one character and ends at the first position from which the closer matches |
| TocSyntax.ParamSpan | lib/redmine_markdown_extra_formatter/wiki_formatter.rb:16-23 | a parameter is found only after `:` (starting right after it) or after spaces (starting within the space run); it is non-empty, is followed by a matching closer, and no earlier end would close |
| TocSyntax.ParseTocLine | lib/redmine_markdown_extra_formatter/wiki_formatter.rb:10-28 | a matching line starts with `{` and contains `}`; a parameter, when present, is non-empty; `ParseTocLineSound` and `TocSpellingAccepted` fix exactly which lines match |
| TocSyntax.TocSpellingAccepted | lib/redmine_markdown_extra_formatter/wiki_formatter.rb:10-28 | every spelling of a `{toc}` line is accepted: any number of spaces after `{`, `toc` in any case, `:` or any run of spaces before a parameter, and spaces around `}` |
| TocSyntax.TocSpellingReadsBack | lib/redmine_markdown_extra_formatter/wiki_formatter.rb:10-28 | a spelling reads back its own side marker and parameter when backtracking cannot move the parameter's ends: the parameter holds no `}` and does not end in a space, after spaces it does not start with one, and without a parameter at most one space comes before `}` |
| TocSyntax.TocLineLanguage | lib/redmine_markdown_extra_formatter/wiki_formatter.rb:10-28 | a line matches exactly when it is some spelling of a `{toc}` line |
| TocSyntax.ParseTocLineSound | lib/redmine_markdown_extra_formatter/wiki_formatter.rb:10-28 | every line the parser accepts is spelled as `{`, spaces, an optional side marker, `toc` in any case, then either nothing or `:` or a run of spaces followed by a non-empty parameter, then spaces, `}` and spaces; the result carries that marker and parameter |
| TocSyntax.ParseLevels | lib/redmine_markdown_extra_formatter/wiki_formatter.rb:30-45 | captured start and end levels lie between 1 and 6; `ParseLevelsSound` and `LevelSpellingRoundTrip` fix exactly what is accepted |
| TocSyntax.ParseLevelsSound | lib/redmine_markdown_extra_formatter/wiki_formatter.rb:30-45 | every accepted parameter is spelled as an optional `h`/`H` start level, `-` or two or more dots, and an optional end level with an optional `h`/`H`, and the result carries those levels |
| TocSyntax.LevelSpellingRoundTrip | lib/redmine_markdown_extra_formatter/wiki_formatter.rb:30-45 | every such spelling, in any case and with `-` or any run of two or more dots, is accepted with the levels it spells |
| TocSyntax.EndLevel | lib/redmine_markdown_extra_formatter/wiki_formatter.rb:41-44 | an empty tail gives no end level; an accepted end level lies between 1 and 6 and is the tail's last digit, after at most one `h` or `H` |
| TocSyntax.LazyEndAt | lib/redmine_markdown_extra_formatter/wiki_formatter.rb:22 | the lazy match ends at the first position whose rest closes the line |
| TocSyntax.NoCloserInside | lib/redmine_markdown_extra_formatter/wiki_formatter.rb:25-27 | the closer cannot match inside a stretch without `}` that ends in a non-space |
| TocSyntax.TocTextRoundTrip | lib/redmine_markdown_extra_formatter/wiki_formatter.rb:10-28 | `{toc}`, `{>toc:P}` and `{<toc:P}` read back their side and parameter when P has no `}` and does not end in a space |
| TocSyntax.SpacedRoundTrip | lib/redmine_markdown_extra_formatter/wiki_formatter.rb:10-28 | a line `{toc P}`, `{>toc P}` or `{<toc P}` with one or more spaces before P reads back its side and P when P has no `}` and starts and ends with a non-space |
| TocSyntax.BareRoundTrip | lib/redmine_markdown_extra_formatter/wiki_formatter.rb:10-28 | a `{toc}` line without a parameter reads back its side marker |
| TocSyntax.ParamRoundTrip | lib/redmine_markdown_extra_formatter/wiki_formatter.rb:10-28 | a `{toc:P}` line reads back its side marker and P |
| TocSyntax.LevelTextRoundTrip | lib/redmine_markdown_extra_formatter/wiki_formatter.rb:30-45 | `hS..hE`, with either level optional, reads back as written |
| TocSyntax.TwoSpacesGiveSpaceParam | lib/redmine_markdown_extra_formatter/wiki_formatter.rb:20-27 | `{toc  }` has the parameter `" "` |
| TocSyntax.OneSpaceGivesNoParam | lib/redmine_markdown_extra_formatter/wiki_formatter.rb:20-27 | `{toc }` has no parameter |
| TocSyntax.EmptyColonRejected | lib/redmine_markdown_extra_formatter/wiki_formatter.rb:18-22 | `{toc:}` is not a TOC line |
| TocSyntax.LevelExamples | lib/redmine_markdown_extra_formatter/wiki_formatter.rb:30-45 | `H2-4` is levels 2 to 4; `h2.h4` does not match; `..` matches with no level |
| Toc.LevelsFor | lib/redmine_markdown_extra_formatter/wiki_formatter.rb:52-67 | levels stay in 1 to 6; the parameter warning is due exactly for a parameter that does not match or names no level; otherwise the given levels are used, defaulting to 1 and 6 |
| Toc.TocWarnings | lib/redmine_markdown_extra_formatter/wiki_formatter.rb:56-71 | one warning for a bad parameter, then one when the first header is deeper than the start level, with their texts |
| Toc.ListClass | lib/redmine_markdown_extra_formatter/wiki_formatter.rb:74-77 | with a parameter the class is `toc`; without one it is `toc right`, `toc left` or `toc` exactly for `>`, `<` or no marker |
| Toc.Selected | lib/redmine_markdown_extra_formatter/wiki_formatter.rb:79-83 | a header is listed exactly when it is in the document and its level is in range |
| Toc.SelectedAppend | lib/redmine_markdown_extra_formatter/wiki_formatter.rb:79-83 | the filter distributes over concatenation, so listed headers keep the document order |
| Toc.SelectedOne | lib/redmine_markdown_extra_formatter/wiki_formatter.rb:79-83 | a single header is kept exactly when its level is in range; with `SelectedAppend` this fixes the selection, order included |
| Toc.ItemsAreSelected | lib/redmine_markdown_extra_formatter/wiki_formatter.rb:79-83 | the item text built header by header is the items of the selected headers, in document order |
| Toc.DefaultListsAll | lib/redmine_markdown_extra_formatter/wiki_formatter.rb:52-53 | with the default range every header of level 1 to 6 is listed |
| Toc.BuildList | lib/redmine_markdown_extra_formatter/wiki_formatter.rb:74-87 | the list built with `<<` in a loop equals `TocList` |
| Toc.TransformLine | lib/redmine_markdown_extra_formatter/wiki_formatter.rb:51-89 | one line's replacement and warnings equal `LineOut` and `LineWarnings` |
| Toc.TransformToc | lib/redmine_markdown_extra_formatter/wiki_formatter.rb:49-90 | returns the line-wise transform of the text and appends exactly its warnings to `rs.warnings` |
| Toc.TransformedAppend | lib/redmine_markdown_extra_formatter/wiki_formatter.rb:51 | the transform and its warnings distribute over concatenated lines |
| Toc.NoTocLinesUnchanged | lib/redmine_markdown_extra_formatter/wiki_formatter.rb:51 | lines that are not TOC lines pass through unchanged and add no warning |
| Toc.NoTocTextUnchanged | lib/redmine_markdown_extra_formatter/wiki_formatter.rb:49-51 | a text without a TOC line is returned as it was, with no warning |
| Toc.TocLineOut | lib/redmine_markdown_extra_formatter/wiki_formatter.rb:51-89 | a TOC line becomes its list followed by its newline, and adds its warnings |
| Toc.RightTocExample | lib/redmine_markdown_extra_formatter/wiki_formatter.rb:49-89 | `{>toc}` over a document whose first header is an h2 gives a `toc right` list with that header, and the structure warning |
| Toc.LevelParamSelectsRange | lib/redmine_markdown_extra_formatter/wiki_formatter.rb:56-62 | `hS..hE` selects exactly that range, a missing level defaulting to 1 or 6; a bare `..` is refused with a warning |

## Left out

- `WikiFormatter#to_html`, `syntax_highlight` and the BlueFeather parser are not part of this model. They call Markdown and CodeRay code outside this repository. The `rescue` that wraps `to_html` is left out with it.
- `init.rb` (plugin registration) is not part of this model.
- `Digest::MD5.hexdigest` is a function parameter `md5`. Only the equality of digests matters to `update_section`.
- `@macros_runner` is a function parameter. Its value, `nil` or raised error is an `Ok(Some(_))`, `Ok(None)` or `Err(message)`. A `false` answer is not distinguished from `nil`.
- `@log.debug` (line 50) is left out. It is logging only.
- Text.Downcase: only ASCII letters are lowered. Ruby's `downcase` also maps non-ASCII letters, but macro names are `\w` (ASCII) here.
- Text.Strip: strips NUL and ASCII whitespace at both ends. Older Rubies keep a leading NUL.
- Text.Lines: `each_line` splits only at `"\n"`. `$` in `TOCRegexp` is likewise taken to end a line only before `"\n"`.
- Sections.ExtractSections: the three buffers are sequences of lines that the method reassigns. Ruby's `eval(state)` indirection is a `match` on the region.
- Encodings are left out. Strings are sequences of characters.
