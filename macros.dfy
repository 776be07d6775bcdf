/**
 * `WikiFormatter#inline_macros` and `MACROS_RE`: one left-to-right pass over
 * the text that replaces every `{{name}}` / `{{name(args)}}` token with what
 * the host's macro runner returns, and every escaped `!{{...}}` token with
 * itself minus the `!`. Replacement text is never scanned again.
 *
 * The regular expression is written out as a scanner over the text that
 * remains (`TokenAt`, `MatchAt`); the host callback `@macros_runner` is a
 * function parameter whose answer is a value (`Ok(Some(html))`), nil
 * (`Ok(None)`) or a raised error (`Err(message)`).
 */
module Macros {
  import opened Wrappers
  import opened Text

  /** The answer of the host's macro runner. */
  type MacroRunner = (string, seq<string>) -> Result<Option<string>, string>

  /** `\w` in a Ruby regular expression: ASCII letters, digits and underscore. */
  predicate IsWordChar(c: char) {
    ('a' <= c <= 'z') || ('A' <= c <= 'Z') || ('0' <= c <= '9') || c == '_'
  }

  /** Length of the run of word characters that starts `s`. */
  function WordRun(s: string): (n: nat)
    ensures n <= |s|
    ensures forall k :: 0 <= k < n ==> IsWordChar(s[k])
    ensures n < |s| ==> !IsWordChar(s[n])
  {
    if s != [] && IsWordChar(s[0]) then 1 + WordRun(s[1..]) else 0
  }

  /** Position of the first `}` in `s`, if any. */
  function BraceIndex(s: string): (r: Option<nat>)
    ensures r.Some? ==> r.value < |s| && s[r.value] == '}' && '}' !in s[..r.value]
    ensures r.None? ==> '}' !in s
  {
    if s == [] then None
    else if s[0] == '}' then Some(0)
    else match BraceIndex(s[1..]) {
      case None => None
      case Some(k) => assert s[..k + 1] == [s[0]] + s[1..][..k]; Some(k + 1)
    }
  }

  /** A token as the group `$2` of `MACROS_RE` captures it: its text, the name (`$3`) and the argument text (`$5`). */
  datatype Token = Token(all: string, name: string, args: Option<string>)

  /** A match of `MACROS_RE`: `escaped` is `$1`. */
  datatype MacroMatch = MacroMatch(escaped: bool, token: Token) {
    function Length(): nat { |token.all| + if escaped then 1 else 0 }
  }

  /**
   * `\{\{([\w]+)(\(([^\}]*)\))?\}\}` anchored at the start of `s`. The name
   * is the whole run of word characters; the arguments run from `(` to the
   * `)` just before the first `}`, which must open the closing `}}`.
   */
  function TokenAt(s: string): (r: Option<Token>)
    ensures r.Some? ==> 5 <= |r.value.all| <= |s| && r.value.all == s[..|r.value.all|]
    ensures r.Some? ==> r.value.name != [] && forall k :: 0 <= k < |r.value.name| ==> IsWordChar(r.value.name[k])
    ensures r.Some? && r.value.args.Some? ==> '}' !in r.value.args.value
    ensures r.Some? ==> r.value.all == MacroText(r.value.name, r.value.args) && WellFormed(r.value.name, r.value.args)
  {
    if |s| >= 2 && s[0] == '{' && s[1] == '{' then AfterName(s, 2 + WordRun(s[2..])) else None
  }

  /** The token once `{{` and the name `s[2..r]` are read: `}}` or an argument list must follow. */
  function AfterName(s: string, r: nat): (t: Option<Token>)
    requires 2 <= r <= |s| && forall k :: 2 <= k < r ==> IsWordChar(s[k])
    requires s[0] == '{' && s[1] == '{'
    ensures t.Some? ==> 5 <= |t.value.all| <= |s| && t.value.all == s[..|t.value.all|]
    ensures t.Some? ==> t.value.name == s[2..r] && r > 2
    ensures t.Some? && t.value.args.Some? ==> '}' !in t.value.args.value
    ensures t.Some? ==> t.value.all == MacroText(t.value.name, t.value.args)
  {
    if r == 2 then None
    else if r + 1 < |s| && s[r] == '}' && s[r + 1] == '}' then
      BareTokenText(s, r);
      Some(Token(s[..r + 2], s[2..r], None))
    else if r < |s| && s[r] == '(' then WithArgs(s, r)
    else None
  }

  /** The argument list opened by `s[r] == '('`: it ends at the `)` just before the first `}`, which opens `}}`. */
  function WithArgs(s: string, r: nat): (t: Option<Token>)
    requires 2 < r < |s| && s[r] == '('
    requires s[0] == '{' && s[1] == '{'
    ensures t.Some? ==> 5 <= |t.value.all| <= |s| && t.value.all == s[..|t.value.all|]
    ensures t.Some? ==> t.value.name == s[2..r]
    ensures t.Some? && t.value.args.Some? ==> '}' !in t.value.args.value
    ensures t.Some? ==> t.value.all == MacroText(t.value.name, t.value.args)
  {
    match BraceIndex(s[r + 1..]) {
      case None => None
      case Some(k) =>
        var j := r + 1 + k;
        if k >= 1 && s[j - 1] == ')' && j + 1 < |s| && s[j + 1] == '}' then
          assert s[r + 1..j - 1] == s[r + 1..][..k - 1];
          ArgsTokenText(s, r, j);
          Some(Token(s[..j + 2], s[2..r], Some(s[r + 1..j - 1])))
        else None
    }
  }

  /** `{{`, the name `s[2..r]` and `}}` make up the text of a token without arguments. */
  lemma BareTokenText(s: string, r: nat)
    requires 2 <= r && r + 1 < |s|
    requires s[0] == '{' && s[1] == '{' && s[r] == '}' && s[r + 1] == '}'
    ensures s[..r + 2] == MacroText(s[2..r], None)
  {
    assert s[..r + 2] == s[..2] + s[2..r] + s[r..r + 2];
  }

  /** `{{`, the name `s[2..r]`, `(`, the arguments `s[r + 1..j - 1]`, `)` and `}}` make up the text of a token. */
  lemma ArgsTokenText(s: string, r: nat, j: nat)
    requires 2 <= r && r + 1 <= j - 1 && j + 1 < |s|
    requires s[0] == '{' && s[1] == '{' && s[r] == '(' && s[j - 1] == ')' && s[j] == '}' && s[j + 1] == '}'
    ensures s[..j + 2] == MacroText(s[2..r], Some(s[r + 1..j - 1]))
  {
    assert s[..j + 2] == s[..2] + s[2..r] + s[r..r + 1] + s[r + 1..j - 1] + s[j - 1..j] + s[j..j + 2];
  }

  /** `MACROS_RE` anchored at the start of `s`: an optional `!` and then a token. */
  function MatchAt(s: string): (m: Option<MacroMatch>)
    ensures m.Some? ==> 0 < m.value.Length() <= |s|
    ensures m.Some? ==> s[..m.value.Length()] == (if m.value.escaped then "!" else "") + m.value.token.all
  {
    if s != [] && s[0] == '!' && TokenAt(s[1..]).Some? then
      assert s[..1 + |TokenAt(s[1..]).value.all|] == [s[0]] + s[1..][..|TokenAt(s[1..]).value.all|];
      Some(MacroMatch(true, TokenAt(s[1..]).value))
    else if TokenAt(s).Some? then Some(MacroMatch(false, TokenAt(s).value))
    else None
  }

  /** The `flash error` fragment of line 130. */
  function ErrorDiv(macro: string, message: string): string {
    "<div class=\"flash error\">Error executing the <strong>" + macro + "</strong> macro (" + message + ")</div>"
  }

  /** `($5 || '').split(',')`: the argument list, not stripped. */
  function ArgList(args: Option<string>): seq<string> {
    SplitComma(if args.Some? then args.value else "")
  }

  /** The block of lines 123-135: what one match is replaced with. */
  function Replacement(m: MacroMatch, run: MacroRunner): string {
    if m.escaped then m.token.all
    else
      var macro := Downcase(m.token.name);
      match run(macro, ArgList(m.token.args))
      case Ok(Some(html)) => html
      case Ok(None) => m.token.all
      case Err(message) => ErrorDiv(macro, message)
  }

  /** What the scan emits at the start of `s`: the replacement of a match there, or the first character. */
  function Piece(s: string, run: MacroRunner): string
    requires s != []
  {
    match MatchAt(s)
    case Some(m) => Replacement(m, run)
    case None => [s[0]]
  }

  /** How far the scan advances from the start of `s`. */
  function MatchLen(s: string): (n: nat)
    requires s != []
    ensures 0 < n <= |s|
  {
    match MatchAt(s)
    case Some(m) => m.Length()
    case None => 1
  }

  /** `text.gsub!(MACROS_RE) { ... }`: matches are replaced left to right and the scan resumes after each match. */
  function Expand(s: string, run: MacroRunner): string
    decreases |s|
  {
    if s == [] then [] else Piece(s, run) + Expand(s[MatchLen(s)..], run)
  }

  /** `WikiFormatter#inline_macros`. */
  method InlineMacros(text: string, run: MacroRunner) returns (out: string)
    ensures out == Expand(text, run)
  {
    out := [];
    var rest := text;
    while rest != []
      invariant out + Expand(rest, run) == Expand(text, run)
      decreases |rest|
    {
      var n;
      out, n := Step(out, rest, run);
      rest := rest[n..];
    }
  }

  /** One step of the scan: the output with the next piece appended, and how far the scan advances. */
  method Step(done: string, s: string, run: MacroRunner) returns (out: string, n: nat)
    requires s != []
    ensures 0 < n <= |s|
    ensures out + Expand(s[n..], run) == done + Expand(s, run)
  {
    match MatchAt(s) {
      case Some(m) =>
        out, n := done + Replacement(m, run), m.Length();
      case None =>
        out, n := done + [s[0]], 1;
    }
    ExpandFirst(s, run);
    ConcatAssoc(done, Piece(s, run), Expand(s[n..], run));
  }


  /** The text of a macro token: `{{name}}` or `{{name(args)}}`. */
  function MacroText(name: string, args: Option<string>): string {
    "{{" + name + (if args.Some? then "(" + args.value + ")" else "") + "}}"
  }

  /** A name made of word characters, and argument text without `}`: what `MACROS_RE` accepts. */
  predicate WellFormed(name: string, args: Option<string>) {
    name != [] && (forall k :: 0 <= k < |name| ==> IsWordChar(name[k]))
    && (args.Some? ==> '}' !in args.value)
  }

  lemma {:induction false} WordRunOf(name: string, tail: string)
    requires forall k :: 0 <= k < |name| ==> IsWordChar(name[k])
    requires tail != [] && !IsWordChar(tail[0])
    ensures WordRun(name + tail) == |name|
  {
    if name != [] {
      assert (name + tail)[1..] == name[1..] + tail;
      WordRunOf(name[1..], tail);
    }
  }

  lemma {:induction false} BraceIndexOf(a: string, tail: string)
    requires '}' !in a
    requires tail != [] && tail[0] == '}'
    ensures BraceIndex(a + tail) == Some(|a|)
  {
    if a == [] {
      assert a + tail == tail;
    } else {
      assert a[0] in a;
      assert (a + tail)[1..] == a[1..] + tail;
      assert forall c :: c in a[1..] ==> c in a;
      BraceIndexOf(a[1..], tail);
    }
  }

  /** A well-formed macro token at the start of the text is recognised in full, whatever follows it. */
  lemma TokenOfMacroText(name: string, args: Option<string>, rest: string)
    requires WellFormed(name, args)
    ensures TokenAt(MacroText(name, args) + rest) == Some(Token(MacroText(name, args), name, args))
  {
    if args.Some? {
      TokenWithArgs(name, args.value, rest);
    } else {
      TokenWithoutArgs(name, rest);
    }
  }

  lemma TokenWithoutArgs(name: string, rest: string)
    requires WellFormed(name, None)
    ensures TokenAt(MacroText(name, None) + rest) == Some(Token(MacroText(name, None), name, None))
  {
    var s := MacroText(name, None) + rest;
    var r := 2 + |name|;
    assert s[..r] == "{{" + name && s[r..] == "}}" + rest by {
      assert s == ("{{" + name) + ("}}" + rest);
    }
    NameAt(s, name);
    assert s[..r + 2] == MacroText(name, None);
  }

  lemma TokenWithArgs(name: string, a: string, rest: string)
    requires WellFormed(name, Some(a))
    ensures TokenAt(MacroText(name, Some(a)) + rest) == Some(Token(MacroText(name, Some(a)), name, Some(a)))
  {
    var s := MacroText(name, Some(a)) + rest;
    var r := 2 + |name|;
    assert s[..r] == "{{" + name && s[r..] == "(" + a + ")}}" + rest by {
      assert s == ("{{" + name) + ("(" + a + ")}}" + rest);
    }
    NameAt(s, name);
    ArgsOfMacroText(name, a, rest);
  }

  /** After `{{` the name is the whole run of word characters. */
  lemma NameAt(s: string, name: string)
    requires |s| > 2 + |name| && s[..2 + |name|] == "{{" + name
    requires forall k :: 0 <= k < |name| ==> IsWordChar(name[k])
    requires !IsWordChar(s[2 + |name|])
    ensures TokenAt(s) == AfterName(s, 2 + |name|)
    ensures s[2..2 + |name|] == name
  {
    var r := 2 + |name|;
    assert s[0] == '{' && s[1] == '{' by {
      assert s[..r][0] == '{' && s[..r][1] == '{';
    }
    assert s[2..r] == name by {
      assert s[2..r] == s[..r][2..];
    }
    assert s[2..] == name + s[r..];
    WordRunOf(name, s[r..]);
  }

  lemma ArgsOfMacroText(name: string, a: string, rest: string)
    requires WellFormed(name, Some(a))
    ensures var s := MacroText(name, Some(a)) + rest;
      s[0] == '{' && s[1] == '{' && s[2 + |name|] == '(' && WithArgs(s, 2 + |name|) == Some(Token(MacroText(name, Some(a)), s[2..2 + |name|], Some(a)))
  {
    var s := MacroText(name, Some(a)) + rest;
    var r := 2 + |name|;
    assert s[0] == '{' && s[1] == '{';
    assert s[r] == '(' && s[r + 1..] == (a + ")") + ("}}" + rest) by {
      assert s == ("{{" + name + "(") + ((a + ")") + ("}}" + rest));
    }
    assert s[..r + |a| + 4] == MacroText(name, Some(a));
    ArgsAt(s, r, a, "}}" + rest);
  }

  /** The argument list `a` between `s[r] == '('` and the `)}}` that follows it. */
  lemma ArgsAt(s: string, r: nat, a: string, tail: string)
    requires 2 < r < |s| && s[0] == '{' && s[1] == '{' && s[r] == '('
    requires s[r + 1..] == (a + ")") + tail
    requires |tail| >= 2 && tail[0] == '}' && tail[1] == '}'
    requires '}' !in a
    ensures WithArgs(s, r) == Some(Token(s[..r + |a| + 4], s[2..r], Some(a)))
  {
    var j := r + 1 + |a| + 1;
    assert '}' !in a + ")";
    BraceIndexOf(a + ")", tail);
    assert s[j - 1] == ')' && s[j] == '}' && s[j + 1] == '}' by {
      assert s[r + 1..][|a|] == ')' && s[r + 1..][|a| + 1] == '}' && s[r + 1..][|a| + 2] == '}';
    }
    assert s[r + 1..j - 1] == a by {
      assert s[r + 1..j - 1] == s[r + 1..][..|a|];
    }
  }

  /**
   * An unescaped token is replaced by the runner's answer for the lower-cased
   * name and the unstripped comma-split arguments; a nil answer keeps the
   * token, an error gives the `flash error` fragment. The rest of the text is
   * expanded on its own, so the replacement is never rescanned.
   */
  lemma MacroIsReplaced(name: string, args: Option<string>, rest: string, run: MacroRunner)
    requires WellFormed(name, args)
    ensures Expand(MacroText(name, args) + rest, run)
      == (match run(Downcase(name), ArgList(args))
          case Ok(Some(html)) => html
          case Ok(None) => MacroText(name, args)
          case Err(message) => ErrorDiv(Downcase(name), message))
         + Expand(rest, run)
  {
    var s := MacroText(name, args) + rest;
    TokenOfMacroText(name, args, rest);
    assert s[0] == '{';
    var m := MacroMatch(false, Token(MacroText(name, args), name, args));
    assert MatchAt(s) == Some(m);
    assert s[m.Length()..] == rest;
  }

  /** An escaped token is copied without its `!` and without calling the runner. */
  lemma EscapedMacroIsLiteral(name: string, args: Option<string>, rest: string, run: MacroRunner)
    requires WellFormed(name, args)
    ensures Expand("!" + MacroText(name, args) + rest, run) == MacroText(name, args) + Expand(rest, run)
  {
    var s := "!" + MacroText(name, args) + rest;
    assert s[1..] == MacroText(name, args) + rest;
    TokenOfMacroText(name, args, rest);
    var m := MacroMatch(true, Token(MacroText(name, args), name, args));
    assert MatchAt(s) == Some(m);
    assert s[m.Length()..] == rest;
  }

  /** Text without `{` holds no token and comes out unchanged. */
  lemma {:induction false} NoBraceUnchanged(s: string, run: MacroRunner)
    requires '{' !in s
    ensures Expand(s, run) == s
  {
    if s != [] {
      assert s[0] != '{';
      if s[0] == '!' && |s| > 1 { assert s[1] in s; }
      assert MatchAt(s).None?;
      assert forall c :: c in s[1..] ==> c in s;
      NoBraceUnchanged(s[1..], run);
    }
  }

  /** When the runner answers nil for every macro, text without `!` comes out unchanged. */
  lemma {:induction false} DeclinedMacrosKeepText(s: string, run: MacroRunner)
    requires forall n, a :: run(n, a) == Ok(None)
    requires '!' !in s
    ensures Expand(s, run) == s
    decreases |s|
  {
    if s != [] {
      var n := MatchLen(s);
      NoBangSuffix(s, n);
      assert s[0] != '!' by { assert s[0] in s; }
      DeclinedMacrosKeepText(s[n..], run);
      DeclinedPiece(s, run);
      ExpandFirst(s, run);
      SplitAt(s, n);
    }
  }

  lemma ExpandFirst(s: string, run: MacroRunner)
    requires s != []
    ensures Expand(s, run) == Piece(s, run) + Expand(s[MatchLen(s)..], run)
  {
  }

  lemma NoBangSuffix(s: string, n: nat)
    requires n <= |s|
    requires '!' !in s
    ensures '!' !in s[n..]
  {
    assert forall c :: c in s[n..] ==> c in s;
  }

  lemma DeclinedPiece(s: string, run: MacroRunner)
    requires forall n, a :: run(n, a) == Ok(None)
    requires s != [] && s[0] != '!'
    ensures Piece(s, run) == s[..MatchLen(s)]
  {
    match MatchAt(s) {
      case Some(m) =>
        assert !m.escaped;
        assert run(Downcase(m.token.name), ArgList(m.token.args)) == Ok(None);
      case None =>
    }
  }

  /** Ruby's `split(',')` drops the trailing empty pieces and nothing else: joining the pieces back gives the text up to its trailing commas. */
  lemma SplitCommaRejoins(s: string)
    ensures var pieces := SplitComma(s);
      var dropped := |CommaPieces(s)| - |pieces|;
      (pieces != [] ==> s == Join(pieces, ",") + Commas(dropped))
      && (pieces == [] ==> s == Commas(dropped - 1))
  {
    var ps := CommaPieces(s);
    var r := SplitComma(s);
    AllEmpty(ps[|r|..]);
    assert ps == r + ps[|r|..];
    JoinEmptyTail(r, |ps| - |r|);
  }

  function Commas(n: int): string
    decreases n
  {
    if n <= 0 then [] else "," + Commas(n - 1)
  }

  function Empties(n: nat): seq<string> {
    if n == 0 then [] else [""] + Empties(n - 1)
  }

  lemma {:induction false} AllEmpty(t: seq<string>)
    requires forall i :: 0 <= i < |t| ==> t[i] == []
    ensures t == Empties(|t|)
  {
    if t != [] {
      AllEmpty(t[1..]);
    }
  }

  lemma {:induction false} JoinEmptyTail(r: seq<string>, n: nat)
    ensures r != [] ==> Join(r + Empties(n), ",") == Join(r, ",") + Commas(n)
    ensures r == [] && n > 0 ==> Join(Empties(n), ",") == Commas(n - 1)
    decreases |r|, n
  {
    if r == [] {
      if n > 1 {
        JoinEmptyTail([], n - 1);
        assert Empties(n)[1..] == Empties(n - 1);
      }
    } else if |r| == 1 {
      if n > 0 {
        JoinEmptyTail([], n);
        assert (r + Empties(n))[1..] == Empties(n);
        assert Join(Empties(n), ",") == Commas(n - 1);
      } else {
        assert r + Empties(0) == r;
      }
    } else {
      JoinEmptyTail(r[1..], n);
      assert (r + Empties(n))[1..] == r[1..] + Empties(n);
    }
  }

  /** `!{{foo(1,2)}}` is printed as the literal `{{foo(1,2)}}`. */
  lemma EscapedExample(s: string, run: MacroRunner)
    requires s == "!{{foo(1,2)}}"
    ensures Expand(s, run) == "{{foo(1,2)}}"
  {
    FooText();
    EscapedMacroIsLiteral("foo", Some("1,2"), "", run);
    NoBraceUnchanged("", run);
  }

  lemma FooText()
    ensures WellFormed("foo", Some("1,2"))
    ensures MacroText("foo", Some("1,2")) == "{{foo(1,2)}}"
    ensures "!" + MacroText("foo", Some("1,2")) + "" == "!{{foo(1,2)}}"
  {
    assert '}' !in "1,2";
  }

  /** `{{Foo( a ,b)}}` calls the runner with `foo` and the unstripped arguments `" a "` and `"b"`. */
  lemma CallExample(run: MacroRunner)
    requires run("foo", [" a ", "b"]) == Ok(Some("X"))
    ensures Expand("{{Foo( a ,b)}}", run) == "X"
  {
    assert WellFormed("Foo", Some(" a ,b")) by {
      assert '}' !in " a ,b";
    }
    assert "{{Foo( a ,b)}}" == MacroText("Foo", Some(" a ,b")) + "";
    assert Downcase("Foo") == "foo";
    UnstrippedArgsExample();
    MacroIsReplaced("Foo", Some(" a ,b"), "", run);
    NoBraceUnchanged("", run);
  }

  /** The argument text ` a ,b` is split at the comma and neither piece is stripped. */
  lemma UnstrippedArgsExample()
    ensures ArgList(Some(" a ,b")) == [" a ", "b"]
  {
    assert CommaPieces("b") == ["b"];
    assert ",b"[1..] == "b";
    assert CommaPieces(",b") == ["", "b"];
    assert " ,b"[1..] == ",b";
    assert [' '] + "" == " ";
    assert CommaPieces(" ,b") == [" ", "b"];
    assert "a ,b"[1..] == " ,b";
    assert ['a'] + " " == "a ";
    assert CommaPieces("a ,b") == ["a ", "b"];
    assert " a ,b"[1..] == "a ,b";
    assert [' '] + "a " == " a ";
    assert CommaPieces(" a ,b") == [" a ", "b"];
  }
}
