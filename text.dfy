/**
 * The handful of Ruby string operations the formatter relies on, written out
 * character by character: `String#strip`, ActiveSupport's `blank?`,
 * `String#each_line`, `Array#join`, `String#split(',')` and ASCII `downcase`.
 */
module Text {

  /** Characters removed by Ruby's `String#strip`: NUL and the ASCII whitespace. */
  predicate IsStripSpace(c: char) {
    c == '\0' || c == ' ' || c == '\t' || c == '\n' || c == '\r' || c == '\U{000B}' || c == '\U{000C}'
  }

  /** Characters of the POSIX class `[[:space:]]`, which ActiveSupport's `blank?` uses (Unicode White_Space). */
  predicate IsBlankSpace(c: char) {
    ('\t' <= c <= '\r') || c == ' ' || c == '\U{0085}' || c == '\U{00A0}' || c == '\U{1680}'
    || ('\U{2000}' <= c <= '\U{200A}') || c == '\U{2028}' || c == '\U{2029}' || c == '\U{202F}'
    || c == '\U{205F}' || c == '\U{3000}'
  }

  /** ActiveSupport's `String#blank?`: empty or made only of whitespace. */
  predicate IsBlank(s: string) {
    forall i :: 0 <= i < |s| ==> IsBlankSpace(s[i])
  }

  function TrimLeft(s: string): (r: string)
    ensures |r| <= |s| && r == s[|s| - |r|..]
    ensures r != [] ==> !IsStripSpace(r[0])
    ensures forall i :: 0 <= i < |s| - |r| ==> IsStripSpace(s[i])
  {
    if s != [] && IsStripSpace(s[0]) then TrimLeft(s[1..]) else s
  }

  function TrimRight(s: string): (r: string)
    ensures |r| <= |s| && r == s[..|r|]
    ensures r != [] ==> !IsStripSpace(r[|r| - 1])
    ensures forall i :: |r| <= i < |s| ==> IsStripSpace(s[i])
  {
    if s != [] && IsStripSpace(s[|s| - 1]) then TrimRight(s[..|s| - 1]) else s
  }

  /** `r` is `s` with only strip-whitespace removed: the first `i` characters and everything after `r`. */
  predicate IsStripOf(s: string, i: nat, r: string) {
    i + |r| <= |s| && r == s[i..i + |r|]
    && (forall k :: 0 <= k < i ==> IsStripSpace(s[k]))
    && (forall k :: i + |r| <= k < |s| ==> IsStripSpace(s[k]))
  }

  /** Ruby's `String#strip`: the longest infix whose ends are not strip-whitespace. */
  function Strip(s: string): (r: string)
    ensures r != [] ==> !IsStripSpace(r[0]) && !IsStripSpace(r[|r| - 1])
    ensures r == [] <==> forall i :: 0 <= i < |s| ==> IsStripSpace(s[i])
  {
    TrimAllIff(s);
    TrimRight(TrimLeft(s))
  }

  /** `strip` removes only leading and trailing strip characters: the result is an infix of the input. */
  lemma StripIsInfix(s: string)
    ensures exists i: nat :: IsStripOf(s, i, Strip(s))
  {
    TrimInfix(s);
    assert IsStripOf(s, |s| - |TrimLeft(s)|, Strip(s));
  }

  lemma TrimInfix(s: string)
    ensures IsStripOf(s, |s| - |TrimLeft(s)|, TrimRight(TrimLeft(s)))
  {
    InfixOf(s, |s| - |TrimLeft(s)|, TrimLeft(s), TrimRight(TrimLeft(s)));
  }

  /** Cutting strip characters off the front of `s` to get `l`, then off the back of `l` to get `r`. */
  lemma InfixOf(s: string, i: nat, l: string, r: string)
    requires i <= |s| && l == s[i..] && |r| <= |l| && r == l[..|r|]
    requires forall k :: 0 <= k < i ==> IsStripSpace(s[k])
    requires forall k :: |r| <= k < |l| ==> IsStripSpace(l[k])
    ensures IsStripOf(s, i, r)
  {
    TakeOfDrop(s, i, |r|);
    forall k | i + |r| <= k < |s|
      ensures IsStripSpace(s[k])
    {
      assert s[k] == l[k - i];
    }
  }


  lemma TakeOfDrop(s: string, i: nat, n: nat)
    requires i + n <= |s|
    ensures s[i..][..n] == s[i..i + n]
  {
  }

  lemma TrimAllIff(s: string)
    ensures TrimRight(TrimLeft(s)) == [] <==> forall i :: 0 <= i < |s| ==> IsStripSpace(s[i])
  {
    var l := TrimLeft(s);
    if l != [] {
      assert l[0] == s[|s| - |l|];
    }
  }




  /** `Array#join` with no separator. */
  function Flatten(parts: seq<string>): string {
    if parts == [] then [] else parts[0] + Flatten(parts[1..])
  }

  lemma {:induction false} FlattenAppend(parts: seq<string>, x: string)
    ensures Flatten(parts + [x]) == Flatten(parts) + x
  {
    if parts == [] {
      assert [] + [x] == [x];
    } else {
      assert (parts + [x])[1..] == parts[1..] + [x];
      FlattenAppend(parts[1..], x);
    }
  }

  lemma FlattenSnoc(parts: seq<string>)
    requires parts != []
    ensures Flatten(parts) == Flatten(parts[..|parts| - 1]) + parts[|parts| - 1]
  {
    assert parts[..|parts| - 1] + [parts[|parts| - 1]] == parts;
    FlattenAppend(parts[..|parts| - 1], parts[|parts| - 1]);
  }

  lemma SplitAt(s: string, n: nat)
    requires n <= |s|
    ensures s[..n] + s[n..] == s
  {
  }

  lemma ConcatAssoc<T>(a: seq<T>, b: seq<T>, c: seq<T>)
    ensures (a + b) + c == a + (b + c)
  {
  }

  lemma AppendNothing(s: string)
    ensures s + [] == s
  {
  }

  /** `Array#join(sep)`. */
  function Join(parts: seq<string>, sep: string): string {
    if parts == [] then []
    else if |parts| == 1 then parts[0]
    else parts[0] + sep + Join(parts[1..], sep)
  }

  /** Length of the first line of `s` as `each_line` cuts it: up to and including the first newline. */
  function LineLength(s: string): (n: nat)
    requires s != []
    ensures 1 <= n <= |s|
    ensures forall k :: 0 <= k < n - 1 ==> s[k] != '\n'
    ensures n < |s| ==> s[n - 1] == '\n'
  {
    if s[0] == '\n' || |s| == 1 then 1 else 1 + LineLength(s[1..])
  }

  /** A line as `each_line` yields it: non-empty, with a newline at most as its last character. */
  predicate IsLine(l: string) {
    l != [] && forall k :: 0 <= k < |l| - 1 ==> l[k] != '\n'
  }

  /** Ruby's `String#each_line` with the default separator. */
  function Lines(s: string): (ls: seq<string>)
    ensures Flatten(ls) == s
    ensures forall i :: 0 <= i < |ls| ==> IsLine(ls[i])
    ensures forall i :: 0 <= i < |ls| - 1 ==> IsLine(ls[i]) && ls[i][|ls[i]| - 1] == '\n'
    decreases |s|
  {
    if s == [] then []
    else
      var n := LineLength(s);
      var rest := Lines(s[n..]);
      assert s[..n] + s[n..] == s;
      assert ([s[..n]] + rest)[1..] == rest;
      [s[..n]] + rest
  }

  /** The text of a line without its line terminator. */
  function Chomp(l: string): (c: string)
    ensures c + (if l != [] && l[|l| - 1] == '\n' then "\n" else "") == l
  {
    if l != [] && l[|l| - 1] == '\n' then l[..|l| - 1] else l
  }

  predicate IsAsciiUpper(c: char) { 'A' <= c <= 'Z' }

  function LowerChar(c: char): char {
    if IsAsciiUpper(c) then (c as int + 32) as char else c
  }

  /** `String#downcase` restricted to ASCII, which is all a macro name can hold. */
  function Downcase(s: string): (r: string)
    ensures |r| == |s|
    ensures forall i :: 0 <= i < |s| ==> r[i] == LowerChar(s[i])
  {
    if s == [] then [] else [LowerChar(s[0])] + Downcase(s[1..])
  }

  /** The pieces of `s` between commas, empty pieces included (always at least one piece). */
  function CommaPieces(s: string): (ps: seq<string>)
    ensures |ps| >= 1
    ensures forall i :: 0 <= i < |ps| ==> ',' !in ps[i]
    ensures Join(ps, ",") == s
  {
    if s == [] then [""]
    else
      var rest := CommaPieces(s[1..]);
      if s[0] == ',' then
        assert s == [','] + s[1..];
        assert ([""] + rest)[1..] == rest;
        [""] + rest
      else
        assert s == [s[0]] + s[1..];
        var first := [s[0]] + rest[0];
        assert (if |rest| == 1 then first else first + "," + Join(rest[1..], ",")) == s;
        [first] + rest[1..]
  }

  /** Drops the empty strings at the end of `ps`. */
  function DropTrailingEmpty(ps: seq<string>): (r: seq<string>)
    ensures |r| <= |ps| && r == ps[..|r|]
    ensures r != [] ==> r[|r| - 1] != []
    ensures forall i :: |r| <= i < |ps| ==> ps[i] == []
  {
    if ps == [] || ps[|ps| - 1] != [] then ps else DropTrailingEmpty(ps[..|ps| - 1])
  }

  /** Ruby's `String#split(',')`: trailing empty fields are suppressed, so `"".split(',')` is `[]`. */
  function SplitComma(s: string): seq<string> {
    DropTrailingEmpty(CommaPieces(s))
  }

  function DigitChar(d: nat): char
    requires d < 10
  {
    ['0','1','2','3','4','5','6','7','8','9'][d]
  }

  /** `Integer#to_s` for a non-negative integer. */
  function NatToString(n: nat): (s: string)
    ensures s != []
  {
    if n < 10 then [DigitChar(n)] else NatToString(n / 10) + [DigitChar(n % 10)]
  }

  predicate StartsWith(s: string, prefix: string) {
    |prefix| <= |s| && s[..|prefix|] == prefix
  }
}
