// Character classes and the string operations of JavaScript that the
// server and the client apply to request fields: `trim`, `toLowerCase`
// (ASCII letters only), the first-occurrence `replace` used to strip the
// "Bearer " prefix, and the regular-expression validators of the User
// schema (card number, expiry, email).

module Text {
  import opened Wrappers

  /** `\d` in a JavaScript regular expression without the `u` flag: ASCII digits only. */
  predicate IsDigit(c: char) { '0' <= c <= '9' }

  predicate IsAsciiUpper(c: char) { 'A' <= c <= 'Z' }

  predicate IsAsciiLetter(c: char) { 'a' <= c <= 'z' || IsAsciiUpper(c) }

  /** `\w`: ASCII letters, digits and underscore. */
  predicate IsWordChar(c: char) { IsAsciiLetter(c) || IsDigit(c) || c == '_' }

  /** The class `[\w-]` of the email pattern. */
  predicate IsWordOrHyphen(c: char) { IsWordChar(c) || c == '-' }

  function DigitValue(c: char): (r: nat)
    requires IsDigit(c)
    ensures r < 10
  {
    c as int - '0' as int
  }

  predicate AllDigits(s: string) { forall k :: 0 <= k < |s| ==> IsDigit(s[k]) }

  // ---------------------------------------------------------------------------
  // toLowerCase
  // ---------------------------------------------------------------------------

  function LowerChar(c: char): char {
    if IsAsciiUpper(c) then (c as int + 32) as char else c
  }

  /** `String.prototype.toLowerCase`, restricted to the ASCII letters. */
  function Lower(s: string): (r: string)
    ensures |r| == |s|
    ensures forall k :: 0 <= k < |r| ==> !IsAsciiUpper(r[k])
    ensures forall k :: 0 <= k < |r| ==> (r[k] == s[k] <==> !IsAsciiUpper(s[k]))
  {
    seq(|s|, k requires 0 <= k < |s| => LowerChar(s[k]))
  }

  /** Lower-casing twice is lower-casing once. */
  lemma LowerIdempotent(s: string)
    ensures Lower(Lower(s)) == Lower(s)
  {
    var r := Lower(s);
    assert forall k :: 0 <= k < |r| ==> LowerChar(r[k]) == r[k];
  }

  lemma LowerSlice(s: string, i: nat, j: nat)
    requires i <= j <= |s|
    ensures Lower(s)[i..j] == Lower(s[i..j])
  {
  }

  /** Lower-casing keeps every character class the validators look at. */
  lemma LowerCharClasses(c: char)
    ensures IsDigit(LowerChar(c)) == IsDigit(c)
    ensures IsAsciiLetter(LowerChar(c)) == IsAsciiLetter(c)
    ensures IsWordOrHyphen(LowerChar(c)) == IsWordOrHyphen(c)
    ensures (LowerChar(c) == '.') == (c == '.')
    ensures (LowerChar(c) == '@') == (c == '@')
    ensures IsWhiteSpace(LowerChar(c)) == IsWhiteSpace(c)
  {
  }

  // ---------------------------------------------------------------------------
  // trim
  // ---------------------------------------------------------------------------

  /**
   * The WhiteSpace and LineTerminator code points that
   * `String.prototype.trim` removes (ECMAScript, section 22.1.3.32).
   */
  predicate IsWhiteSpace(c: char) {
    c == ' ' || c == '\t' || c == '\n' || c == '\r' || c == '\U{0B}' || c == '\U{0C}'
    || c == '\U{A0}' || c == '\U{1680}' || ('\U{2000}' <= c <= '\U{200A}')
    || c == '\U{2028}' || c == '\U{2029}' || c == '\U{202F}' || c == '\U{205F}'
    || c == '\U{3000}' || c == '\U{FEFF}'
  }

  predicate AllWhite(s: string) { forall k :: 0 <= k < |s| ==> IsWhiteSpace(s[k]) }

  /** The first position at or after `i` that is not white space (or `|s|`). */
  function ContentStart(s: string, i: nat): (lo: nat)
    requires i <= |s|
    ensures i <= lo <= |s|
    ensures forall k :: i <= k < lo ==> IsWhiteSpace(s[k])
    ensures lo == |s| || !IsWhiteSpace(s[lo])
    decreases |s| - i
  {
    if i < |s| && IsWhiteSpace(s[i]) then ContentStart(s, i + 1) else i
  }

  /** Walking back from `j` towards `lo`, the position just after the last character that is not white space. */
  function ContentEnd(s: string, lo: nat, j: nat): (hi: nat)
    requires lo <= j <= |s|
    ensures lo <= hi <= j
    ensures forall k :: hi <= k < j ==> IsWhiteSpace(s[k])
    ensures hi == lo || !IsWhiteSpace(s[hi - 1])
  {
    if j > lo && IsWhiteSpace(s[j - 1]) then ContentEnd(s, lo, j - 1) else j
  }

  /** Neither starts nor ends with white space. */
  predicate Trimmed(s: string) {
    |s| == 0 || (!IsWhiteSpace(s[0]) && !IsWhiteSpace(s[|s| - 1]))
  }

  /**
   * `String.prototype.trim`: drops the white space at both ends, so the
   * result neither starts nor ends with white space.
   */
  function Trim(s: string): (r: string)
    ensures |r| <= |s|
    ensures Trimmed(r)
  {
    var lo := ContentStart(s, 0);
    var hi := ContentEnd(s, lo, |s|);
    s[lo..hi]
  }

  /** What trim removed is white space, and what it kept is one contiguous piece of the input. */
  lemma TrimShape(s: string)
    ensures var r := Trim(s);
      exists lo :: 0 <= lo <= |s| - |r| && r == s[lo..lo + |r|] && AllWhite(s[..lo]) && AllWhite(s[lo + |r|..])
  {
    var lo := ContentStart(s, 0);
    var hi := ContentEnd(s, lo, |s|);
    assert Trim(s) == s[lo..hi];
    assert AllWhite(s[..lo]);
    assert AllWhite(s[hi..]);
  }

  /** The strings trim leaves alone are exactly those without white space at either end. */
  lemma TrimmedFixpoint(s: string)
    ensures Trimmed(s) <==> Trim(s) == s
  {
    if Trimmed(s) && |s| > 0 {
      assert ContentStart(s, 0) == 0;
      assert ContentEnd(s, 0, |s|) == |s|;
      assert s[0..|s|] == s;
    }
  }

  /** Trimming a trimmed string changes nothing. */
  lemma TrimIdempotent(s: string)
    ensures Trim(Trim(s)) == Trim(s)
  {
    TrimmedFixpoint(Trim(s));
  }

  /** A string without white space is its own trim. */
  lemma TrimNoWhite(s: string)
    requires forall k :: 0 <= k < |s| ==> !IsWhiteSpace(s[k])
    ensures Trim(s) == s
  {
    TrimmedFixpoint(s);
  }

  /** Trim gives the empty string exactly for input made only of white space. */
  lemma TrimBlank(s: string)
    ensures Trim(s) == "" <==> AllWhite(s)
  {
    var lo := ContentStart(s, 0);
    var hi := ContentEnd(s, lo, |s|);
    assert |Trim(s)| == hi - lo;
  }

  // ---------------------------------------------------------------------------
  // replace(pattern, '') with a string pattern: the first occurrence only
  // ---------------------------------------------------------------------------

  predicate OccursAt(s: string, pat: string, i: int) {
    0 <= i && i + |pat| <= |s| && s[i..i + |pat|] == pat
  }

  /** The first position at or after `from` where `pat` occurs in `s`. */
  function IndexOfFrom(s: string, pat: string, from: nat): (r: Option<nat>)
    requires from <= |s|
    ensures r.Some? ==> from <= r.value && OccursAt(s, pat, r.value)
    ensures r.Some? ==> forall i :: from <= i < r.value ==> !OccursAt(s, pat, i)
    ensures r.None? ==> forall i :: from <= i ==> !OccursAt(s, pat, i)
    decreases |s| - from
  {
    if from + |pat| > |s| then None
    else if OccursAt(s, pat, from) then Some(from)
    else IndexOfFrom(s, pat, from + 1)
  }

  /** `s.replace(pat, '')`: deletes the first occurrence of `pat`, if any. */
  function RemoveFirst(s: string, pat: string): (r: string)
    ensures r == s || |r| == |s| - |pat|
  {
    match IndexOfFrom(s, pat, 0)
    case None => s
    case Some(i) => s[..i] + s[i + |pat|..]
  }

  /** Removing a prefix that is there gives back the rest of the string. */
  lemma RemoveFirstPrefix(pat: string, t: string)
    ensures RemoveFirst(pat + t, pat) == t
  {
    assert OccursAt(pat + t, pat, 0) by {
      assert (pat + t)[0..|pat|] == pat;
    }
    assert (pat + t)[|pat|..] == t;
  }

  /** A string without the pattern is left alone. */
  lemma RemoveFirstAbsent(s: string, pat: string)
    requires forall i :: !OccursAt(s, pat, i)
    ensures RemoveFirst(s, pat) == s
  {
  }

  // ---------------------------------------------------------------------------
  // Regular-expression validators of the User schema
  // ---------------------------------------------------------------------------

  predicate IsGroupSeparator(k: int) { k == 4 || k == 9 || k == 14 }

  /** From offset `k` on, a hyphen at each group separator and a digit everywhere else. */
  predicate CardCharsFrom(s: string, k: nat)
    requires k <= |s|
    decreases |s| - k
  {
    k == |s| || ((if IsGroupSeparator(k) then s[k] == '-' else IsDigit(s[k])) && CardCharsFrom(s, k + 1))
  }

  /** `/^\d{4}-\d{4}-\d{4}-\d{4}$/`, read left to right over its 19 characters. */
  predicate IsCardNumber(s: string) {
    |s| == 19 && CardCharsFrom(s, 0)
  }

  lemma {:induction false} CardCharsFromAll(s: string, k: nat)
    requires k <= |s|
    ensures CardCharsFrom(s, k) <==>
      (forall j :: k <= j < |s| && IsGroupSeparator(j) ==> s[j] == '-')
      && (forall j :: k <= j < |s| && !IsGroupSeparator(j) ==> IsDigit(s[j]))
    decreases |s| - k
  {
    if k < |s| {
      CardCharsFromAll(s, k + 1);
    }
  }

  /**
   * Position by position: a card number has 19 characters, hyphens at
   * offsets 4, 9 and 14 and a digit everywhere else.
   */
  lemma CardNumberPositions(s: string)
    ensures IsCardNumber(s) <==>
      |s| == 19
      && (forall k :: 0 <= k < 19 && IsGroupSeparator(k) ==> s[k] == '-')
      && (forall k :: 0 <= k < 19 && !IsGroupSeparator(k) ==> IsDigit(s[k]))
  {
    CardCharsFromAll(s, 0);
  }

  predicate IsFourDigits(g: string) { |g| == 4 && AllDigits(g) }

  /** The regular expression's own reading: four groups of four digits joined by hyphens. */
  lemma CardNumberGroups(s: string)
    ensures IsCardNumber(s) <==>
      |s| == 19 && s[4] == '-' && s[9] == '-' && s[14] == '-'
      && IsFourDigits(s[0..4]) && IsFourDigits(s[5..9]) && IsFourDigits(s[10..14]) && IsFourDigits(s[15..19])
  {
    CardNumberPositions(s);
    if |s| == 19 {
      if forall k :: 0 <= k < 19 && !IsGroupSeparator(k) ==> IsDigit(s[k]) {
        forall k | 0 <= k < 4
          ensures IsDigit(s[0..4][k]) && IsDigit(s[5..9][k]) && IsDigit(s[10..14][k]) && IsDigit(s[15..19][k])
        {
          assert !IsGroupSeparator(k) && !IsGroupSeparator(k + 5) && !IsGroupSeparator(k + 10) && !IsGroupSeparator(k + 15);
          assert s[0..4][k] == s[k] && s[5..9][k] == s[k + 5] && s[10..14][k] == s[k + 10] && s[15..19][k] == s[k + 15];
        }
      }
      if s[4] == '-' && s[9] == '-' && s[14] == '-'
        && IsFourDigits(s[0..4]) && IsFourDigits(s[5..9]) && IsFourDigits(s[10..14]) && IsFourDigits(s[15..19])
      {
        forall k | 0 <= k < 19 && !IsGroupSeparator(k) ensures IsDigit(s[k]) {
          if k < 4 { assert s[0..4][k] == s[k]; }
          else if k < 9 { assert s[5..9][k - 5] == s[k]; }
          else if k < 14 { assert s[10..14][k - 10] == s[k]; }
          else { assert s[15..19][k - 15] == s[k]; }
        }
      }
    }
  }

  /** `/^(0[1-9]|1[0-2])\/([0-9]{2})$/` (the client's `\d{2}` is the same class). */
  predicate IsExpiry(s: string) {
    |s| == 5 && s[2] == '/' && IsDigit(s[3]) && IsDigit(s[4])
    && ((s[0] == '0' && '1' <= s[1] <= '9') || (s[0] == '1' && '0' <= s[1] <= '2'))
  }

  /** The month written in the first two characters of an `MM/YY` string. */
  function ExpiryMonth(s: string): (m: int)
    requires |s| >= 2 && IsDigit(s[0]) && IsDigit(s[1])
    ensures 0 <= m <= 99
  {
    10 * DigitValue(s[0]) + DigitValue(s[1])
  }

  /** An expiry is `MM/YY` with two-digit fields and a month between 1 and 12. */
  lemma ExpiryMonthRange(s: string)
    ensures IsExpiry(s) <==>
      |s| == 5 && IsDigit(s[0]) && IsDigit(s[1]) && s[2] == '/' && IsDigit(s[3]) && IsDigit(s[4])
      && 1 <= ExpiryMonth(s) <= 12
  {
  }

  /** `[\w-]+(\.[\w-]+)*`: non-empty runs of `[\w-]` separated by single dots. */
  predicate IsDotAtoms(t: string) {
    |t| > 0 && t[0] != '.' && t[|t| - 1] != '.'
    && (forall k :: 0 <= k < |t| ==> IsWordOrHyphen(t[k]) || t[k] == '.')
    && (forall k :: 0 <= k < |t| - 1 ==> t[k] == '.' ==> t[k + 1] != '.')
  }

  /** `[a-zA-Z]{2,7}` */
  predicate IsTopLevel(t: string) {
    2 <= |t| <= 7 && forall k :: 0 <= k < |t| ==> IsAsciiLetter(t[k])
  }

  /** The dot at `j` ends the labelled parts and starts the top-level part. */
  predicate DomainSplit(t: string, j: int) {
    0 < j < |t| && t[j] == '.' && IsDotAtoms(t[..j]) && IsTopLevel(t[j + 1..])
  }

  /** `([\w-]+\.)+[a-zA-Z]{2,7}`: at least one labelled part, a dot, then the top-level part. */
  predicate IsDomain(t: string) {
    exists j :: 0 < j < |t| && DomainSplit(t, j)
  }

  /** The `@` at `i` separates a local part from a domain. */
  predicate EmailSplit(s: string, i: int) {
    0 <= i < |s| && s[i] == '@' && IsDotAtoms(s[..i]) && IsDomain(s[i + 1..])
  }

  /** `/^[\w-]+(\.[\w-]+)*@([\w-]+\.)+[a-zA-Z]{2,7}$/` */
  predicate IsEmail(s: string) {
    exists i :: 0 <= i < |s| && EmailSplit(s, i)
  }

  /** Neither `@` nor white space belongs to `[\w-]` or is a dot. */
  lemma DotAtomsClean(t: string)
    requires IsDotAtoms(t) || IsTopLevel(t)
    ensures forall k :: 0 <= k < |t| ==> t[k] != '@' && !IsWhiteSpace(t[k])
  {
  }

  /** An accepted email contains exactly one `@` and no white space. */
  lemma EmailShape(s: string)
    requires IsEmail(s)
    ensures forall k :: 0 <= k < |s| ==> !IsWhiteSpace(s[k])
    ensures exists i :: 0 <= i < |s| && s[i] == '@' && forall k :: 0 <= k < |s| && k != i ==> s[k] != '@'
  {
    var i :| 0 <= i < |s| && EmailSplit(s, i);
    assert s[i] == '@' && IsDotAtoms(s[..i]) && IsDomain(s[i + 1..]);
    DotAtomsClean(s[..i]);
    DomainClean(s[i + 1..]);
    forall k | 0 <= k < |s| && k != i ensures s[k] != '@' && !IsWhiteSpace(s[k]) {
      if k < i {
        assert s[..i][k] == s[k];
      } else {
        assert s[i + 1..][k - i - 1] == s[k];
      }
    }
  }

  lemma DomainClean(t: string)
    requires IsDomain(t)
    ensures forall k :: 0 <= k < |t| ==> t[k] != '@' && !IsWhiteSpace(t[k])
  {
    var j :| 0 < j < |t| && DomainSplit(t, j);
    assert t[j] == '.' && IsDotAtoms(t[..j]) && IsTopLevel(t[j + 1..]);
    DotAtomsClean(t[..j]);
    DotAtomsClean(t[j + 1..]);
    forall k | 0 <= k < |t| ensures t[k] != '@' && !IsWhiteSpace(t[k]) {
      if k < j {
        assert t[..j][k] == t[k];
      } else if k > j {
        assert t[j + 1..][k - j - 1] == t[k];
      }
    }
  }

  lemma DotAtomsLower(t: string)
    ensures IsDotAtoms(Lower(t)) == IsDotAtoms(t)
  {
    var u := Lower(t);
    forall k | 0 <= k < |t| ensures u[k] == LowerChar(t[k]) {
    }
    forall k | 0 <= k < |t| ensures (IsWordOrHyphen(u[k]) || u[k] == '.') == (IsWordOrHyphen(t[k]) || t[k] == '.')
      && (u[k] == '.') == (t[k] == '.') {
      LowerCharClasses(t[k]);
    }
  }

  lemma TopLevelLower(t: string)
    ensures IsTopLevel(Lower(t)) == IsTopLevel(t)
  {
    var u := Lower(t);
    forall k | 0 <= k < |t| ensures IsAsciiLetter(u[k]) == IsAsciiLetter(t[k]) {
      LowerCharClasses(t[k]);
    }
  }

  lemma DomainSplitLower(t: string, j: int)
    ensures DomainSplit(Lower(t), j) == DomainSplit(t, j)
  {
    if 0 < j < |t| {
      var u := Lower(t);
      LowerCharClasses(t[j]);
      LowerSlice(t, 0, j);
      LowerSlice(t, j + 1, |t|);
      assert u[..j] == u[0..j] && t[..j] == t[0..j];
      assert u[j + 1..] == u[j + 1..|t|] && t[j + 1..] == t[j + 1..|t|];
      DotAtomsLower(t[..j]);
      TopLevelLower(t[j + 1..]);
    }
  }

  lemma DomainLower(t: string)
    ensures IsDomain(Lower(t)) == IsDomain(t)
  {
    if IsDomain(t) {
      var j :| DomainSplit(t, j);
      DomainSplitLower(t, j);
    }
    if IsDomain(Lower(t)) {
      var j :| DomainSplit(Lower(t), j);
      DomainSplitLower(t, j);
    }
  }

  /**
   * The schema lower-cases the email before validating it; lower-casing
   * never changes whether the pattern accepts.
   */
  lemma EmailLower(s: string)
    ensures IsEmail(Lower(s)) == IsEmail(s)
  {
    if IsEmail(s) {
      var i :| EmailSplit(s, i);
      EmailSplitLower(s, i);
    }
    if IsEmail(Lower(s)) {
      var i :| EmailSplit(Lower(s), i);
      EmailSplitLower(s, i);
    }
  }

  lemma EmailSplitLower(s: string, i: int)
    ensures EmailSplit(Lower(s), i) == EmailSplit(s, i)
  {
    if 0 <= i < |s| {
      var u := Lower(s);
      LowerCharClasses(s[i]);
      LowerSlice(s, 0, i);
      LowerSlice(s, i + 1, |s|);
      assert u[..i] == u[0..i] && s[..i] == s[0..i];
      assert u[i + 1..] == u[i + 1..|s|] && s[i + 1..] == s[i + 1..|s|];
      DotAtomsLower(s[..i]);
      DomainLower(s[i + 1..]);
    }
  }
}
