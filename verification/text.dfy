/**
 * String helpers shared by the backend (Python) and the popup (JavaScript)
 * models: substring search, splitting and joining, whitespace trimming,
 * ASCII lower-casing and decimal rendering of natural numbers.
 *
 * Characters are Unicode scalar values; the regular-expression classes
 * `\w` and `\d` and lower-casing are modelled over ASCII.
 */
module Text {

  datatype Option<T> = None | Some(value: T)

  /** `\w` over ASCII: letters, digits and the underscore. */
  predicate IsWordChar(c: char) {
    ('a' <= c <= 'z') || ('A' <= c <= 'Z') || ('0' <= c <= '9') || c == '_'
  }

  predicate IsDigit(c: char) {
    '0' <= c <= '9'
  }

  predicate IsUpper(c: char) {
    'A' <= c <= 'Z'
  }

  function LowerChar(c: char): char {
    if IsUpper(c) then (c as int + 32) as char else c
  }

  /** ASCII lower-casing, character by character: upper-case letters become lower-case, all else is kept. */
  function Lower(s: string): (r: string)
    ensures |r| == |s|
    ensures forall i :: 0 <= i < |r| ==> !IsUpper(r[i])
    ensures forall i :: 0 <= i < |s| && !IsUpper(s[i]) ==> r[i] == s[i]
    ensures forall i :: 0 <= i < |s| && IsUpper(s[i]) ==> r[i] as int == s[i] as int + ('a' as int - 'A' as int)
  {
    seq(|s|, i requires 0 <= i < |s| => LowerChar(s[i]))
  }

  /** `t` occurs in `s` starting at index `i`. */
  predicate OccursAt(s: string, t: string, i: int) {
    0 <= i && i + |t| <= |s| && s[i..i + |t|] == t
  }

  /** Leftmost occurrence of `t` in `s` at or after `from`. */
  function FindFrom(s: string, t: string, from: nat): (r: Option<nat>)
    decreases |s| - from
    ensures r.Some? ==> from <= r.value && OccursAt(s, t, r.value)
    ensures r.Some? ==> forall j :: from <= j < r.value ==> !OccursAt(s, t, j)
    ensures r.None? ==> forall j :: from <= j ==> !OccursAt(s, t, j)
  {
    if from + |t| > |s| then None
    else if s[from..from + |t|] == t then Some(from)
    else FindFrom(s, t, from + 1)
  }

  /** Python's `t in s` and JavaScript's `s.includes(t)`. */
  function Contains(s: string, t: string): (b: bool)
    ensures b <==> exists i :: OccursAt(s, t, i)
  {
    FindFrom(s, t, 0).Some?
  }

  function StartsWith(s: string, t: string): bool {
    |t| <= |s| && s[..|t|] == t
  }

  function EndsWith(s: string, t: string): bool {
    |t| <= |s| && s[|s| - |t|..] == t
  }

  /** Python's `sep.join(parts)`, JavaScript's `parts.join(sep)`. */
  function Join(parts: seq<string>, sep: string): string
    decreases |parts|
  {
    if |parts| == 0 then ""
    else if |parts| == 1 then parts[0]
    else parts[0] + sep + Join(parts[1..], sep)
  }

  /** An occurrence in `u` is an occurrence in `u + v`. */
  lemma ContainsAppend(u: string, v: string, t: string)
    requires Contains(u, t)
    ensures Contains(u + v, t)
  {
    var i :| OccursAt(u, t, i);
    assert (u + v)[i..i + |t|] == u[i..i + |t|];
    assert OccursAt(u + v, t, i);
  }

  lemma ContainsEnd(u: string, t: string)
    ensures Contains(u + t, t)
  {
    assert OccursAt(u + t, t, |u|);
  }

  /** An occurrence inside a prefix `s[..i]` is an occurrence in `s`. */
  lemma OccursInPrefix(s: string, t: string, i: nat, j: int)
    requires i <= |s| && OccursAt(s[..i], t, j)
    ensures OccursAt(s, t, j)
  {
    assert s[..i][j..j + |t|] == s[j..j + |t|];
  }

  /** An occurrence with none before it is the one the search finds. */
  lemma FirstOccurrence(s: string, t: string, i: nat)
    requires OccursAt(s, t, i)
    requires forall j :: 0 <= j < i ==> !OccursAt(s, t, j)
    ensures FindFrom(s, t, 0) == Some(i)
  {
  }

  /**
   * JavaScript's `s.split(sep)` for a non-empty separator: the pieces
   * between the leftmost non-overlapping occurrences of `sep`. Each cut is
   * at the first occurrence after the previous one: in a piece followed by
   * the separator, the first occurrence is the one that ends the piece.
   */
  function Split(s: string, sep: string): (parts: seq<string>)
    requires sep != ""
    decreases |s|
    ensures |parts| >= 1
    ensures forall k :: 0 <= k < |parts| ==> !Contains(parts[k], sep)
    ensures forall k :: 0 <= k < |parts| - 1 ==> FindFrom(parts[k] + sep, sep, 0) == Some(|parts[k]|)
    ensures Join(parts, sep) == s
  {
    match FindFrom(s, sep, 0)
    case None => [s]
    case Some(i) =>
      var head := s[..i];
      var rest := Split(s[i + |sep|..], sep);
      assert !Contains(head, sep) by {
        forall j | OccursAt(head, sep, j) ensures false {
          OccursInPrefix(s, sep, i, j);
        }
      }
      assert s == head + sep + s[i + |sep|..];
      assert FindFrom(head + sep, sep, 0) == Some(|head|) by {
        assert head + sep == s[..i + |sep|];
        forall j | 0 <= j < i ensures !OccursAt(head + sep, sep, j) {
          if OccursAt(head + sep, sep, j) {
            OccursInPrefix(s, sep, i + |sep|, j);
          }
        }
        FirstOccurrence(head + sep, sep, i);
      }
      [head] + rest
  }

  /** JavaScript's white space and line terminators (String.prototype.trim). */
  predicate IsSpace(c: char) {
    c == ' ' || c == '\t' || c == '\n' || c == '\r' || c == '\U{000B}' || c == '\U{000C}'
    || c == '\U{00A0}' || c == '\U{1680}' || ('\U{2000}' <= c <= '\U{200A}')
    || c == '\U{2028}' || c == '\U{2029}' || c == '\U{202F}' || c == '\U{205F}'
    || c == '\U{3000}' || c == '\U{FEFF}'
  }

  /** Every character of `s` is white space (the empty string included). */
  predicate Blank(s: string) {
    forall i :: 0 <= i < |s| ==> IsSpace(s[i])
  }

  /** Where the white space that starts at `i` ends. */
  function SkipSpace(s: string, i: nat): (a: nat)
    requires i <= |s|
    decreases |s| - i
    ensures i <= a <= |s|
    ensures forall k :: i <= k < a ==> IsSpace(s[k])
    ensures a < |s| ==> !IsSpace(s[a])
  {
    if i < |s| && IsSpace(s[i]) then SkipSpace(s, i + 1) else i
  }

  /** Where the white space that ends at `j`, but not before `a`, starts. */
  function SkipSpaceBack(s: string, a: nat, j: nat): (b: nat)
    requires a <= j <= |s|
    decreases j
    ensures a <= b <= j
    ensures forall k :: b <= k < j ==> IsSpace(s[k])
    ensures a < b ==> !IsSpace(s[b - 1])
  {
    if a < j && IsSpace(s[j - 1]) then SkipSpaceBack(s, a, j - 1) else j
  }

  /** How many white-space characters `s` starts with. */
  function LeadingSpace(s: string): (n: nat)
    ensures n <= |s|
    ensures forall k :: 0 <= k < n ==> IsSpace(s[k])
  {
    SkipSpace(s, 0)
  }

  /**
   * JavaScript's `s.trim()`: the slice of `s` left once the white space at
   * both ends is removed.
   */
  function Trim(s: string): (r: string)
    ensures LeadingSpace(s) + |r| <= |s|
    ensures r == s[LeadingSpace(s)..LeadingSpace(s) + |r|]
    ensures forall k :: LeadingSpace(s) + |r| <= k < |s| ==> IsSpace(s[k])
    ensures r != "" ==> !IsSpace(r[0]) && !IsSpace(r[|r| - 1])
    ensures r == "" <==> Blank(s)
  {
    var a := SkipSpace(s, 0);
    var b := SkipSpaceBack(s, a, |s|);
    assert b == a ==> Blank(s);
    s[a..b]
  }

  /** Decimal digit for `d < 10`. */
  function DigitChar(d: nat): (c: char)
    requires d < 10
    ensures IsDigit(c)
  {
    ('0' as int + d) as char
  }

  /** The value of a digit character. */
  function DigitValue(c: char): int {
    c as int - '0' as int
  }

  /** The number a string of decimal digits denotes, most significant digit first. */
  function DecimalValue(r: string): int {
    if r == [] then 0 else 10 * DecimalValue(r[..|r| - 1]) + DigitValue(r[|r| - 1])
  }

  /**
   * Python's `str(n)` for a natural number: the decimal numeral of `n`,
   * with no leading zero.
   */
  function NatToString(n: nat): (r: string)
    ensures |r| >= 1
    ensures n < 10 <==> |r| == 1
    ensures forall i :: 0 <= i < |r| ==> IsDigit(r[i])
    ensures DecimalValue(r) == n
    ensures |r| > 1 ==> r[0] != '0'
  {
    if n < 10 then [DigitChar(n)] else NatToString(n / 10) + [DigitChar(n % 10)]
  }

  /** Distinct numbers render to distinct decimal strings. */
  lemma NatToStringInjective(m: nat, n: nat)
    requires NatToString(m) == NatToString(n)
    ensures m == n
  {
  }
}
