/** The string primitives the service relies on, in JavaScript's terms:
    `trim`, `split(/\s+/)`, `toLowerCase`, `includes`, `reverse`, and the
    leftmost-match rule by which `String.prototype.match` finds a pattern.
    Strings are sequences of `char`. */
module Text {
  import opened Common

  /** The characters `trim` removes and the regular-expression class `\s`
      matches: the WhiteSpace and LineTerminator code points of ECMAScript. */
  predicate IsWhitespace(c: char) {
    || c == '\t' || c == '\n' || c == '\U{B}' || c == '\U{C}' || c == '\r' || c == ' '
    || c == '\U{A0}' || c == '\U{1680}' || '\U{2000}' <= c <= '\U{200A}'
    || c == '\U{2028}' || c == '\U{2029}' || c == '\U{202F}' || c == '\U{205F}'
    || c == '\U{3000}' || c == '\U{FEFF}'
  }

  /** Every character of `s` is whitespace (the empty string included). */
  predicate IsBlank(s: string) {
    forall i :: 0 <= i < |s| ==> IsWhitespace(s[i])
  }

  /** `s` without its leading whitespace. */
  function TrimStart(s: string): (r: string)
    ensures |r| <= |s| && r == s[|s| - |r|..]
    ensures IsBlank(s[..|s| - |r|])
    ensures r == [] || !IsWhitespace(r[0])
  {
    if s != [] && IsWhitespace(s[0]) then TrimStart(s[1..]) else s
  }

  /** `s` without its trailing whitespace. */
  function TrimEnd(s: string): (r: string)
    ensures |r| <= |s| && r == s[..|r|]
    ensures IsBlank(s[|r|..])
    ensures r == [] || !IsWhitespace(r[|r| - 1])
  {
    if s != [] && IsWhitespace(s[|s| - 1]) then TrimEnd(s[..|s| - 1]) else s
  }

  /** `s.trim()`. */
  function Trim(s: string): string {
    TrimEnd(TrimStart(s))
  }

  /** Trimming leaves nothing exactly when the string is all whitespace, and
      otherwise leaves a string that neither starts nor ends with whitespace. */
  lemma TrimBlank(s: string)
    ensures Trim(s) == [] <==> IsBlank(s)
    ensures Trim(s) != [] ==> !IsWhitespace(Trim(s)[0]) && !IsWhitespace(Trim(s)[|Trim(s)| - 1])
  {
    var t := TrimStart(s);
    assert s == s[..|s| - |t|] + t;
    if Trim(s) == [] {
      assert IsBlank(t[0..]);
      assert t[0..] == t;
      assert t == [];
      assert s == s[..|s| - |t|];
    }
    if Trim(s) != [] {
      assert Trim(s)[0] == t[0];
    }
  }

  /** ASCII case folding: the part of `toLowerCase` this model keeps. */
  function LowerChar(c: char): char {
    if 'A' <= c <= 'Z' then (c as int + 32) as char else c
  }

  /** `s.toLowerCase()`, character by character. */
  function Lower(s: string): (r: string)
    ensures |r| == |s|
    ensures forall i :: 0 <= i < |s| ==> r[i] == LowerChar(s[i])
  {
    seq(|s|, i requires 0 <= i < |s| => LowerChar(s[i]))
  }

  /** `a` and `b` are equal once both are case-folded. */
  predicate EqualsIgnoringCase(a: string, b: string) {
    |a| == |b| && forall i :: 0 <= i < |a| ==> LowerChar(a[i]) == LowerChar(b[i])
  }

  /** `s.split('').reverse().join('')`. */
  function Reverse(s: string): (r: string)
    ensures |r| == |s|
    ensures forall i :: 0 <= i < |s| ==> r[i] == s[|s| - 1 - i]
  {
    if s == [] then [] else Reverse(s[1..]) + [s[0]]
  }

  /** `s.split(/\s+/)`: the pieces between maximal runs of whitespace. A
      leading or trailing run yields an empty first or last piece, and the
      empty string yields one empty piece. */
  function SplitWhitespace(s: string): (r: seq<string>)
    ensures |r| >= 1
    decreases |s|
  {
    if s == [] then [[]]
    else if IsWhitespace(s[0]) then [[]] + SplitWhitespace(TrimStart(s[1..]))
    else
      var rest := SplitWhitespace(s[1..]);
      [[s[0]] + rest[0]] + rest[1..]
  }

  /** When `s` does not end in whitespace, every piece after the first is
      non-empty; when it does not start with whitespace either, so is the
      first. */
  lemma {:induction false} SplitPiecesNonEmpty(s: string)
    requires s != [] && !IsWhitespace(s[|s| - 1])
    ensures forall k :: 1 <= k < |SplitWhitespace(s)| ==> SplitWhitespace(s)[k] != []
    ensures !IsWhitespace(s[0]) ==> SplitWhitespace(s)[0] != []
    decreases |s|
  {
    if IsWhitespace(s[0]) {
      var t := TrimStart(s[1..]);
      assert |s| > 1;
      assert s[1..][|s| - 2] == s[|s| - 1];
      if t == [] {
        assert false;
      }
      assert t[|t| - 1] == s[|s| - 1];
      SplitPiecesNonEmpty(t);
    } else if |s| > 1 {
      assert s[1..][|s| - 2] == s[|s| - 1];
      SplitPiecesNonEmpty(s[1..]);
    }
  }

  /** A string without whitespace is one piece. */
  lemma {:induction false} SplitWithoutWhitespace(s: string)
    requires forall i :: 0 <= i < |s| ==> !IsWhitespace(s[i])
    ensures SplitWhitespace(s) == [s]
    decreases |s|
  {
    if s != [] {
      SplitWithoutWhitespace(s[1..]);
      assert [s[0]] + s[1..] == s;
    }
  }

  /** The least position `k` with `from <= k < n` at which `at` holds: the
      position at which a regular-expression search reports its match. */
  function Leftmost(n: nat, at: nat -> bool, from: nat): (r: Option<nat>)
    ensures r.Some? ==> from <= r.value < n && at(r.value)
    ensures forall k: nat :: from <= k < n && (r.None? || k < r.value) ==> !at(k)
    decreases n - from
  {
    if from >= n then None
    else if at(from) then Some(from)
    else Leftmost(n, at, from + 1)
  }

  /** A search from the start reports the least position that qualifies. */
  lemma LeftmostIsLeast(n: nat, at: nat -> bool)
    ensures forall k: nat :: k < n && at(k) && (forall j: nat :: j < k ==> !at(j)) ==> Leftmost(n, at, 0) == Some(k)
  {
  }

  /** `lit` occurs in `s` starting at position `k`. */
  predicate LiteralAt(s: string, lit: string, k: nat) {
    k + |lit| <= |s| && s[k..k + |lit|] == lit
  }

  /** The positions at which `t` occurs in `s`. */
  function LiteralMatcher(s: string, t: string): nat -> bool {
    (k: nat) => LiteralAt(s, t, k)
  }

  /** `s.includes(t)`. */
  predicate Includes(s: string, t: string) {
    Leftmost(|s| + 1, LiteralMatcher(s, t), 0).Some?
  }

  /** `t` is included in `s` exactly when it occurs at some position. */
  lemma IncludesMeaning(s: string, t: string)
    ensures Includes(s, t) <==> exists k: nat :: LiteralAt(s, t, k)
  {
    var at := LiteralMatcher(s, t);
    assert forall k: nat :: at(k) == LiteralAt(s, t, k);
    LeftmostIsLeast(|s| + 1, at);
    if exists k: nat :: LiteralAt(s, t, k) {
      var k: nat :| LiteralAt(s, t, k);
      assert k < |s| + 1;
    }
  }

  /** A one-character `includes` is a membership test. */
  lemma IncludesChar(s: string, c: char)
    ensures Includes(s, [c]) <==> c in s
  {
    IncludesMeaning(s, [c]);
    if c in s {
      var k :| 0 <= k < |s| && s[k] == c;
      assert LiteralAt(s, [c], k);
    }
    if Includes(s, [c]) {
      var k: nat :| LiteralAt(s, [c], k);
      assert s[k] == s[k..k + 1][0];
    }
  }

  predicate IsDigit(c: char) {
    '0' <= c <= '9'
  }

  /** The longest prefix of `s` made of decimal digits. */
  function LeadingDigits(s: string): (r: string)
    ensures |r| <= |s| && r == s[..|r|]
    ensures forall i :: 0 <= i < |r| ==> IsDigit(r[i])
    ensures |r| == |s| || !IsDigit(s[|r|])
  {
    if s != [] && IsDigit(s[0]) then [s[0]] + LeadingDigits(s[1..]) else []
  }

  function DigitValue(c: char): nat {
    if IsDigit(c) then c as int - '0' as int else 0
  }

  /** The number a string of decimal digits spells. */
  function DecimalValue(ds: string): nat {
    if ds == [] then 0 else DecimalValue(ds[..|ds| - 1]) * 10 + DigitValue(ds[|ds| - 1])
  }

  /** `lit` followed by at least one digit occurs at position `k` of `s`. */
  predicate NumberAt(s: string, lit: string, k: nat) {
    LiteralAt(s, lit, k) && k + |lit| < |s| && IsDigit(s[k + |lit|])
  }

  /** The positions at which `lit` followed by a digit occurs. */
  function NumberMatcher(s: string, lit: string): nat -> bool {
    (k: nat) => NumberAt(s, lit, k)
  }

  /** The number captured by `(\d+)` in `s.match(/<lit>(\d+)/)`: at the
      leftmost occurrence of `lit` followed by a digit, all the digits that
      follow (the greedy `\d+`), read in base ten. */
  function FindNumberAfter(s: string, lit: string): Option<nat> {
    var at := NumberMatcher(s, lit);
    assert forall k: nat :: at(k) == NumberAt(s, lit, k);
    match Leftmost(|s|, at, 0)
    case None => None
    case Some(k) => Some(DecimalValue(LeadingDigits(s[k + |lit|..])))
  }

  /** A number is found exactly when `lit` is followed by a digit somewhere,
      and it is the one at the leftmost such place. */
  lemma FindNumberAfterMeaning(s: string, lit: string)
    ensures FindNumberAfter(s, lit).None? <==> forall k: nat :: !NumberAt(s, lit, k)
    ensures forall k: nat ::
              NumberAt(s, lit, k) && (forall j: nat :: j < k ==> !NumberAt(s, lit, j))
              ==> FindNumberAfter(s, lit) == Some(DecimalValue(LeadingDigits(s[k + |lit|..])))
  {
    NumberFound(s, lit);
    forall k: nat | NumberAt(s, lit, k) && (forall j: nat :: j < k ==> !NumberAt(s, lit, j))
      ensures FindNumberAfter(s, lit) == Some(DecimalValue(LeadingDigits(s[k + |lit|..])))
    {
      NumberAtLeftmost(s, lit, k);
    }
  }

  lemma NumberFound(s: string, lit: string)
    ensures FindNumberAfter(s, lit).None? <==> forall k: nat :: !NumberAt(s, lit, k)
  {
    var at := NumberMatcher(s, lit);
    assert forall k: nat :: at(k) == NumberAt(s, lit, k);
  }

  lemma NumberAtLeftmost(s: string, lit: string, k: nat)
    requires NumberAt(s, lit, k) && forall j: nat :: j < k ==> !NumberAt(s, lit, j)
    ensures FindNumberAfter(s, lit) == Some(DecimalValue(LeadingDigits(s[k + |lit|..])))
  {
    var at := NumberMatcher(s, lit);
    assert forall k: nat :: at(k) == NumberAt(s, lit, k);
    var r := Leftmost(|s|, at, 0);
    assert at(k) && k < |s|;
    assert r.Some? && r.value <= k;
    assert at(r.value);
  }

  /** A literal with a character that does not occur in `s` is not in `s`. */
  lemma MissingCharacter(s: string, t: string, i: nat)
    requires i < |t| && t[i] !in s
    ensures !Includes(s, t)
    ensures FindNumberAfter(s, t) == None
  {
    forall k: nat | k + |t| <= |s|
      ensures !LiteralAt(s, t, k)
    {
      assert s[k..k + |t|][i] == s[k + i];
    }
    FindNumberAfterMeaning(s, t);
    IncludesMeaning(s, t);
  }

  /** Without digits there is no number to find. */
  lemma NoDigits(s: string, lit: string)
    requires forall i :: 0 <= i < |s| ==> !IsDigit(s[i])
    ensures FindNumberAfter(s, lit) == None
  {
    FindNumberAfterMeaning(s, lit);
  }

  lemma {:induction false} LeadingDigitsThen(d: string, rest: string)
    requires forall i :: 0 <= i < |d| ==> IsDigit(d[i])
    requires rest == [] || !IsDigit(rest[0])
    ensures LeadingDigits(d + rest) == d
  {
    if d != [] {
      LeadingDigitsThen(d[1..], rest);
      assert (d + rest)[1..] == d[1..] + rest;
    }
  }

  /** After a prefix without the first character of `lit`, `lit` followed by
      the digits `d` and then a non-digit: the number found is `d`'s. */
  lemma FirstNumber(prefix: string, lit: string, d: string, rest: string)
    requires lit != [] && lit[0] !in prefix
    requires d != [] && forall i :: 0 <= i < |d| ==> IsDigit(d[i])
    requires rest == [] || !IsDigit(rest[0])
    ensures FindNumberAfter(prefix + lit + (d + rest), lit) == Some(DecimalValue(d))
  {
    var tail := d + rest;
    var s := prefix + lit + tail;
    var k := |prefix|;
    assert s[..k] == prefix;
    assert s[k..k + |lit|] == lit;
    assert s[k + |lit|..] == tail;
    assert tail[0] == d[0];
    LeadingDigitsThen(d, rest);
    assert NumberAt(s, lit, k);
    FindNumberAfterMeaning(s, lit);
    forall j: nat | j < k
      ensures !NumberAt(s, lit, j)
    {
      assert s[j] == prefix[j];
    }
  }

  /** The first position at or after `j` that is not whitespace, or `|s|`. */
  function SkipWhitespace(s: string, j: nat): (e: nat)
    requires j <= |s|
    ensures j <= e <= |s|
    ensures forall i :: j <= i < e ==> IsWhitespace(s[i])
    ensures e == |s| || !IsWhitespace(s[e])
    decreases |s| - j
  {
    if j < |s| && IsWhitespace(s[j]) then SkipWhitespace(s, j + 1) else j
  }
}
