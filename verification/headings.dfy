/**
 * The heading heuristic shared by the backend and the popup: the regular
 * expression `\b(key points|highlights|summary|conclusion|findings|results)\b`
 * searched in a lower-cased string, and the two classifiers built on it.
 */
module Headings {
  import opened Text

  /** The alternatives of the heading pattern, in the pattern's order. */
  const Keywords: seq<string> :=
    ["key points", "highlights", "summary", "conclusion", "findings", "results"]

  /**
   * `\b k \b` matches `s` at `p`. Every keyword begins and ends with a word
   * character, so each `\b` holds exactly when the neighbouring character is
   * missing or is not a word character.
   */
  predicate WholeWordAt(s: string, k: string, p: int) {
    OccursAt(s, k, p)
    && (p == 0 || !IsWordChar(s[p - 1]))
    && (p + |k| == |s| || !IsWordChar(s[p + |k|]))
  }

  /** Leftmost whole-word occurrence of `k` in `s` at or after `from`. */
  function FindWholeWord(s: string, k: string, from: nat): (r: Option<nat>)
    decreases |s| - from
    ensures r.Some? ==> from <= r.value && WholeWordAt(s, k, r.value)
    ensures r.Some? ==> forall p :: from <= p < r.value ==> !WholeWordAt(s, k, p)
    ensures r.None? ==> forall p :: from <= p ==> !WholeWordAt(s, k, p)
  {
    if from + |k| > |s| then None
    else if WholeWordAt(s, k, from) then Some(from)
    else FindWholeWord(s, k, from + 1)
  }

  /** Some keyword of `ks` occurs in `s` as a whole word. */
  function AnyWholeWord(s: string, ks: seq<string>): (b: bool)
    decreases |ks|
    ensures b <==> exists i, p :: 0 <= i < |ks| && WholeWordAt(s, ks[i], p)
  {
    if ks == [] then false
    else if FindWholeWord(s, ks[0], 0).Some? then true
    else
      var b := AnyWholeWord(s, ks[1..]);
      assert forall i, p :: 0 < i < |ks| && WholeWordAt(s, ks[i], p) ==> WholeWordAt(s, ks[1..][i - 1], p);
      b
  }

  /** `re.search(pattern, s)` succeeds: the pattern matches somewhere in `s`. */
  predicate HasKeyword(s: string) {
    AnyWholeWord(s, Keywords)
  }

  /**
   * Backend sub-heading rule for a sentence after the first: shorter than 60
   * characters, and ending with a colon or naming a keyword in its
   * lower-cased form.
   */
  predicate IsHeadingSentence(s: string) {
    |s| < 60 && (EndsWith(s, ":") || HasKeyword(Lower(s)))
  }

  /**
   * Popup sub-heading rule for a trimmed line: the same test without the
   * length limit, the `/i` flag playing the part of lower-casing.
   */
  predicate IsSubheadingLine(t: string) {
    EndsWith(t, ":") || HasKeyword(Lower(t))
  }

  /** Each keyword is non-empty and starts and ends with a word character. */
  lemma KeywordEnds(i: nat)
    requires i < |Keywords|
    ensures Keywords[i] != ""
    ensures IsWordChar(Keywords[i][0]) && IsWordChar(Keywords[i][|Keywords[i]| - 1])
  {
  }

  /** A character that lower-cases to a word character is not white space. */
  lemma LowerWordCharNotSpace(c: char)
    requires IsWordChar(LowerChar(c))
    ensures !IsSpace(c)
  {
  }

  /** Lower-casing commutes with slicing. */
  lemma LowerSlice(s: string, a: nat, b: nat)
    requires a <= b <= |s|
    ensures Lower(s[a..b]) == Lower(s)[a..b]
  {
  }

  /** A character that is not white space lies inside the trimmed slice. */
  lemma InsideTrim(s: string, q: nat)
    requires q < |s| && !IsSpace(s[q])
    ensures LeadingSpace(s) <= q < LeadingSpace(s) + |Trim(s)|
  {
  }

  /** A whole-word match inside a slice is a whole-word match of the slice. */
  lemma WholeWordInSlice(t: string, k: string, p: int, a: nat, b: nat, u: string)
    requires a <= p && p + |k| <= b <= |t| && u == t[a..b]
    requires WholeWordAt(t, k, p)
    ensures WholeWordAt(u, k, p - a)
  {
    forall q | 0 <= q < |k|
      ensures u[p - a + q] == k[q]
    {
      assert u[p - a + q] == t[p + q];
      assert t[p..p + |k|][q] == t[p + q];
    }
    assert u[p - a..p - a + |k|] == k;
  }

  /** A match of a word that starts and ends with word characters lies inside the trimmed slice. */
  lemma MatchInsideTrim(s: string, k: string, p: int)
    requires k != "" && IsWordChar(k[0]) && IsWordChar(k[|k| - 1])
    requires OccursAt(Lower(s), k, p)
    ensures LeadingSpace(s) <= p && p + |k| <= LeadingSpace(s) + |Trim(s)|
  {
    var ls := Lower(s);
    assert ls[p] == k[0] by {
      assert ls[p..p + |k|][0] == ls[p];
    }
    assert ls[p + |k| - 1] == k[|k| - 1] by {
      assert ls[p..p + |k|][|k| - 1] == ls[p + |k| - 1];
    }
    LowerWordCharNotSpace(s[p]);
    LowerWordCharNotSpace(s[p + |k| - 1]);
    InsideTrim(s, p);
    InsideTrim(s, p + |k| - 1);
  }

  /**
   * A whole-word match of a word that starts and ends with word characters
   * survives trimming, shifted by the leading white space.
   */
  lemma WholeWordAfterTrim(s: string, k: string, p: int)
    requires k != "" && IsWordChar(k[0]) && IsWordChar(k[|k| - 1])
    requires WholeWordAt(Lower(s), k, p)
    ensures WholeWordAt(Lower(Trim(s)), k, p - LeadingSpace(s))
  {
    var a, r := LeadingSpace(s), Trim(s);
    MatchInsideTrim(s, k, p);
    var b := a + |r|;
    assert Lower(r) == Lower(s)[a..b] by {
      assert r == s[a..b];
      LowerSlice(s, a, b);
    }
    WholeWordInSlice(Lower(s), k, p, a, b, Lower(r));
  }

  /**
   * A backend heading sentence still passes the popup's line test once the
   * popup has trimmed it: the colon ends the sentence, and a keyword match
   * starts and ends with word characters, so trimming cuts neither.
   */
  lemma TrimmedHeadingIsSubheadingLine(s: string)
    requires IsHeadingSentence(s)
    ensures Trim(s) != "" && IsSubheadingLine(Trim(s))
  {
    var a, r := LeadingSpace(s), Trim(s);
    if EndsWith(s, ":") {
      assert !IsSpace(s[|s| - 1]);
      assert a + |r| == |s|;
      assert r[|r| - 1] == s[|s| - 1];
      assert EndsWith(r, ":");
    } else {
      var i, p :| 0 <= i < |Keywords| && WholeWordAt(Lower(s), Keywords[i], p);
      KeywordAfterTrim(s, i, p);
    }
  }

  /** A keyword matched as a whole word is still matched after trimming. */
  lemma KeywordAfterTrim(s: string, i: nat, p: int)
    requires i < |Keywords| && WholeWordAt(Lower(s), Keywords[i], p)
    ensures Trim(s) != "" && HasKeyword(Lower(Trim(s)))
  {
    KeywordEnds(i);
    WholeWordAfterTrim(s, Keywords[i], p);
  }
}
