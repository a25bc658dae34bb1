/** Expansion of $-placeholders in replacement templates (placeholderRx and its callback). */
module Placeholders {

  /** A piece of a template: one ordinary character, or a placeholder given by its digits. */
  datatype Token = Literal(c: char) | Placeholder(digits: string)

  predicate IsDigit(c: char) { '0' <= c <= '9' }
  predicate IsNonzeroDigit(c: char) { '1' <= c <= '9' }

  /** The length of the longest prefix matching [1-9]*. */
  function Run(s: string): (n: nat)
    ensures n <= |s|
    ensures forall i :: 0 <= i < n ==> IsNonzeroDigit(s[i])
    ensures n < |s| ==> !IsNonzeroDigit(s[n])
  {
    if s == "" || !IsNonzeroDigit(s[0]) then 0 else 1 + Run(s[1..])
  }

  /** Leftmost, longest, non-overlapping matches of \$[0-9][1-9]*. */
  function Tokens(s: string): seq<Token> {
    if s == "" then []
    else if s[0] == '$' && |s| > 1 && IsDigit(s[1]) then
      var n := Run(s[2..]);
      [Placeholder(s[1..2 + n])] + Tokens(s[2 + n..])
    else [Literal(s[0])] + Tokens(s[1..])
  }

  function Spelling(t: Token): string {
    match t
    case Literal(c) => [c]
    case Placeholder(digits) => "$" + digits
  }

  function Text(ts: seq<Token>): string {
    if ts == [] then "" else Spelling(ts[0]) + Text(ts[1..])
  }

  const MAX_INT := 0x7FFF_FFFF_FFFF_FFFF

  predicate Digits(s: string) {
    forall i :: 0 <= i < |s| ==> IsDigit(s[i])
  }

  function Value(digits: string): nat
    requires Digits(digits)
  {
    if digits == "" then 0
    else 10 * Value(digits[..|digits| - 1]) + DigitValue(digits[|digits| - 1])
  }

  function DigitValue(c: char): nat
    requires IsDigit(c)
  {
    c as int - '0' as int
  }

  datatype ParsedInt = Int(value: nat) | Overflow

  /** strconv.Atoi on a string of digits. */
  function Atoi(digits: string): ParsedInt
    requires Digits(digits)
  {
    if Value(digits) <= MAX_INT then Int(Value(digits)) else Overflow
  }

  predicate ValidToken(t: Token) {
    t.Placeholder? ==> ValidPlaceholder(t.digits)
  }

  predicate ValidPlaceholder(digits: string) {
    && digits != ""
    && IsDigit(digits[0])
    && forall i :: 1 <= i < |digits| ==> IsNonzeroDigit(digits[i])
  }

  function Expansion(t: Token, captures: seq<string>): string
    requires ValidToken(t)
  {
    match t
    case Literal(c) => [c]
    case Placeholder(digits) =>
      match Atoi(digits)
      case Int(idx) => if idx < |captures| then captures[idx] else "$" + digits
      case Overflow => "$" + digits
  }

  function ExpandTokens(ts: seq<Token>, captures: seq<string>): string
    requires forall i :: 0 <= i < |ts| ==> ValidToken(ts[i])
  {
    if ts == [] then "" else Expansion(ts[0], captures) + ExpandTokens(ts[1..], captures)
  }

  lemma {:induction false} TokensAreValid(s: string)
    ensures forall i :: 0 <= i < |Tokens(s)| ==> ValidToken(Tokens(s)[i])
  {
    if s == "" {
    } else if s[0] == '$' && |s| > 1 && IsDigit(s[1]) {
      var n := Run(s[2..]);
      TokensAreValid(s[2 + n..]);
      var d := s[1..2 + n];
      assert forall i :: 1 <= i < |d| ==> d[i] == s[2..][i - 1];
    } else {
      TokensAreValid(s[1..]);
    }
  }

  /** The replacement text for one target field. */
  function Expand(template: string, captures: seq<string>): string {
    TokensAreValid(template);
    ExpandTokens(Tokens(template), captures)
  }

  /** Tokenizing loses nothing. */
  lemma {:induction false} TokensAreLossless(s: string)
    ensures Text(Tokens(s)) == s
  {
    if s == "" {
    } else if s[0] == '$' && |s| > 1 && IsDigit(s[1]) {
      var n := Run(s[2..]);
      TokensAreLossless(s[2 + n..]);
      assert s == "$" + s[1..2 + n] + s[2 + n..];
    } else {
      TokensAreLossless(s[1..]);
    }
  }

  /** No token can be extended to the right: a placeholder is not followed by another digit
      from 1 to 9, and a dollar sign that stands for itself is not followed by a digit. */
  ghost predicate Maximal(ts: seq<Token>) {
    && (forall i :: 0 <= i < |ts| ==> ValidToken(ts[i]))
    && (forall i :: 0 <= i < |ts| - 1 && ts[i].Placeholder? && ts[i + 1].Literal? ==> !IsNonzeroDigit(ts[i + 1].c))
    && (forall i :: 0 <= i < |ts| - 1 && ts[i] == Literal('$') && ts[i + 1].Literal? ==> !IsDigit(ts[i + 1].c))
  }

  lemma TextHead(ts: seq<Token>)
    requires ts != []
    ensures Text(ts) != "" && Text(ts)[0] == if ts[0].Literal? then ts[0].c else '$'
  {
  }

  lemma RunIs(s: string, n: nat)
    requires n <= |s| && (forall i :: 0 <= i < n ==> IsNonzeroDigit(s[i])) && (n < |s| ==> !IsNonzeroDigit(s[n]))
    ensures Run(s) == n
  {
    var m := Run(s);
    assert !(m < n);
    assert !(n < m);
  }

  lemma TokensOfLiteral(c: char, rest: string)
    requires c == '$' && rest != "" ==> !IsDigit(rest[0])
    ensures Tokens([c] + rest) == [Literal(c)] + Tokens(rest)
  {
    assert ([c] + rest)[1..] == rest;
  }

  lemma TokensOfPlaceholder(digits: string, rest: string)
    requires ValidPlaceholder(digits) && (rest != "" ==> !IsNonzeroDigit(rest[0]))
    ensures Tokens("$" + digits + rest) == [Placeholder(digits)] + Tokens(rest)
  {
    hide Run, IsNonzeroDigit;
    var s, n := "$" + digits + rest, |digits| - 1;
    assert s[1] == digits[0];
    RunAfter(digits, rest);
    assert s[2..] == digits[1..] + rest;
    assert s[1..2 + n] == digits && s[2 + n..] == rest;
  }

  lemma RunAfter(digits: string, rest: string)
    requires ValidPlaceholder(digits) && (rest != "" ==> !IsNonzeroDigit(rest[0]))
    ensures Run(digits[1..] + rest) == |digits| - 1
  {
    RunIs(digits[1..] + rest, |digits| - 1);
  }

  /** There is only one maximal tokenization of a template. */
  lemma {:induction false} TokensAreUnique(ts: seq<Token>)
    requires Maximal(ts)
    ensures Tokens(Text(ts)) == ts
  {
    hide Tokens;
    if ts == [] {
      assert Tokens("") == [] by { NoTokens(); }
    } else {
      var rest := Text(ts[1..]);
      TokensAreUnique(ts[1..]);
      if |ts| > 1 {
        TextHead(ts[1..]);
      }
      match ts[0]
      case Literal(c) => TokensOfLiteral(c, rest);
      case Placeholder(digits) => TokensOfPlaceholder(digits, rest);
    }
  }

  /** What follows the first token does not extend it. */
  lemma FirstToken(s: string) returns (t: Token, rest: string)
    requires s != ""
    ensures Tokens(s) == [t] + Tokens(rest) && |rest| < |s|
    ensures t.Placeholder? && rest != "" ==> !IsNonzeroDigit(rest[0])
    ensures t == Literal('$') && rest != "" ==> !IsDigit(rest[0])
  {
    if s[0] == '$' && |s| > 1 && IsDigit(s[1]) {
      var n := Run(s[2..]);
      t, rest := Placeholder(s[1..2 + n]), s[2 + n..];
    } else {
      t, rest := Literal(s[0]), s[1..];
    }
  }

  lemma MaximalBefore(t: Token, ts: seq<Token>)
    requires ValidToken(t) && Maximal(ts)
    requires ts != [] && ts[0].Literal? && t.Placeholder? ==> !IsNonzeroDigit(ts[0].c)
    requires ts != [] && ts[0].Literal? && t == Literal('$') ==> !IsDigit(ts[0].c)
    ensures Maximal([t] + ts)
  {
    hide ValidToken, IsDigit, IsNonzeroDigit;
    var all := [t] + ts;
    forall i | 0 <= i < |all| - 1
      ensures all[i + 1] == ts[i] && (i > 0 ==> all[i] == ts[i - 1])
    {
    }
    assert |all| > 1 ==> all[1] == ts[0];
  }

  /** Every template has one. */
  lemma {:induction false} TokensAreMaximal(s: string)
    ensures Maximal(Tokens(s)) && Text(Tokens(s)) == s
    decreases |s|
  {
    hide IsDigit, IsNonzeroDigit;
    TokensAreLossless(s);
    TokensAreValid(s);
    if s == "" {
      NoTokens();
    } else {
      var t, rest := FirstToken(s);
      hide Tokens, Maximal;
      TokensAreMaximal(rest);
      if Tokens(rest) != [] {
        TextHead(Tokens(rest));
      }
      assert Tokens(s)[0] == t;
      MaximalBefore(t, Tokens(rest));
    }
  }

  lemma NoTokens()
    ensures Tokens("") == []
  {
  }

  function Concat(pieces: seq<string>): string {
    if pieces == [] then "" else pieces[0] + Concat(pieces[1..])
  }

  lemma {:induction false} ConcatAppend(a: seq<string>, b: seq<string>)
    ensures Concat(a + b) == Concat(a) + Concat(b)
    ensures forall p :: Concat([p]) == p
  {
    assert forall p: string :: [p][1..] == [];
    if a == [] {
      assert a + b == b;
    } else {
      assert (a + b)[0] == a[0] && (a + b)[1..] == a[1..] + b;
      ConcatAppend(a[1..], b);
    }
  }

  /** What becomes of one token: its capture if there is one, and otherwise its own text. */
  predicate IsPiece(t: Token, captures: seq<string>, piece: string)
    requires ValidToken(t)
  {
    if t.Placeholder? && Value(t.digits) < |captures| then piece == captures[Value(t.digits)]
    else piece == Spelling(t)
  }

  /** Expansion replaces every token of the template by itself, and what is inserted is not
      looked at again. */
  lemma {:induction false} ExpandsPieceByPiece(ts: seq<Token>, captures: seq<string>) returns (pieces: seq<string>)
    requires Maximal(ts) && |captures| <= MAX_INT
    ensures |pieces| == |ts| && forall i :: 0 <= i < |ts| ==> IsPiece(ts[i], captures, pieces[i])
    ensures Expand(Text(ts), captures) == Concat(pieces)
  {
    TokensAreUnique(ts);
    pieces := PiecesOf(ts, captures);
  }

  lemma {:induction false} PiecesOf(ts: seq<Token>, captures: seq<string>) returns (pieces: seq<string>)
    requires |captures| <= MAX_INT && forall i :: 0 <= i < |ts| ==> ValidToken(ts[i])
    ensures |pieces| == |ts| && forall i :: 0 <= i < |ts| ==> IsPiece(ts[i], captures, pieces[i])
    ensures ExpandTokens(ts, captures) == Concat(pieces)
  {
    hide Expansion, IsPiece;
    if ts == [] {
      pieces := [];
    } else {
      assert ValidToken(ts[0]);
      var rest := PiecesOf(ts[1..], captures);
      OnePiece(ts[0], captures);
      pieces := [Expansion(ts[0], captures)] + rest;
      assert pieces[1..] == rest;
    }
  }

  lemma OnePiece(t: Token, captures: seq<string>)
    requires ValidToken(t) && |captures| <= MAX_INT
    ensures IsPiece(t, captures, Expansion(t, captures))
  {
    if t.Placeholder? {
      OverflowIsOutOfRange(t, captures);
    }
  }

  /** A template without applicable placeholders is kept verbatim. */
  lemma {:induction false} OutOfRangeStaysVerbatim(ts: seq<Token>, captures: seq<string>)
    requires forall i :: 0 <= i < |ts| ==> ValidToken(ts[i])
    requires forall i :: 0 <= i < |ts| && ts[i].Placeholder? ==>
      Digits(ts[i].digits) && Value(ts[i].digits) >= |captures|
    ensures ExpandTokens(ts, captures) == Text(ts)
  {
    if ts != [] {
      assert ValidToken(ts[0]);
      OutOfRangeStaysVerbatim(ts[1..], captures);
    }
  }

  /** A template without a dollar sign is kept. */
  lemma {:induction false} PlainTextStays(s: string, captures: seq<string>)
    requires '$' !in s
    ensures Expand(s, captures) == s
  {
    if s != "" {
      PlainTextStays(s[1..], captures);
      assert Tokens(s) == [Literal(s[0])] + Tokens(s[1..]);
      assert s == [s[0]] + s[1..];
    }
  }

  /** An index too large for an int is in particular out of range, so the two error
      branches of the callback are one. */
  lemma OverflowIsOutOfRange(t: Token, captures: seq<string>)
    requires ValidToken(t) && t.Placeholder? && |captures| <= MAX_INT
    ensures Expansion(t, captures) == if Value(t.digits) < |captures| then captures[Value(t.digits)] else Spelling(t)
  {
  }

  /** $10 is not the tenth group but the first, followed by a zero. */
  lemma TenIsOneThenZero(captures: seq<string>)
    requires |captures| >= 2
    ensures Expand("$10", captures) == captures[1] + "0"
  {
    var ts := [Placeholder("1"), Literal('0')];
    assert Text(ts[1..][1..]) == "" && Text(ts[1..]) == "0" && Text(ts) == "$10";
    TokensAreUnique(ts);
    assert Value("1") == 1 by { assert "1"[..0] == ""; }
    assert ExpandTokens(ts[1..][1..], captures) == "";
    assert ExpandTokens(ts[1..], captures) == "0";
  }
}
