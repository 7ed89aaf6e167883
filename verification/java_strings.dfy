/** The two `java.lang.String` operations the upload check relies on:
    `toLowerCase()` restricted to ASCII letters, and `trim()`, which removes
    every leading and trailing character whose code is at most U+0020. */
module JavaStrings {

  predicate IsUpper(c: char) {
    'A' <= c <= 'Z'
  }

  function LowerChar(c: char): (r: char)
    ensures !IsUpper(r)
    ensures IsUpper(c) ==> r as int == c as int + 32
    ensures !IsUpper(c) ==> r == c
  {
    if IsUpper(c) then (c as int + 32) as char else c
  }

  /** `s.toLowerCase()` on ASCII letters; every other character is kept. */
  function ToLowerCase(s: string): (r: string)
    ensures |r| == |s|
    ensures forall i :: 0 <= i < |s| ==> r[i] == LowerChar(s[i])
  {
    seq(|s|, i requires 0 <= i < |s| => LowerChar(s[i]))
  }

  /** Lowercasing leaves no upper-case letter behind, so doing it twice is
      doing it once. */
  lemma ToLowerCaseIdempotent(s: string)
    ensures forall i :: 0 <= i < |s| ==> !IsUpper(ToLowerCase(s)[i])
    ensures ToLowerCase(ToLowerCase(s)) == ToLowerCase(s)
  {
  }

  /** A string with no upper-case letter is its own lower-case form. */
  lemma ToLowerCaseOfLower(s: string)
    requires forall i :: 0 <= i < |s| ==> !IsUpper(s[i])
    ensures ToLowerCase(s) == s
  {
  }

  /** ASCII case-insensitive equality, stated character by character. */
  predicate EqualsIgnoreCase(a: string, b: string) {
    |a| == |b| && forall i :: 0 <= i < |a| ==> LowerChar(a[i]) == LowerChar(b[i])
  }

  /** Two strings have the same lower-case form exactly when they are equal
      up to the case of their letters. */
  lemma SameLowerCaseIff(a: string, b: string)
    ensures ToLowerCase(a) == ToLowerCase(b) <==> EqualsIgnoreCase(a, b)
  {
    if EqualsIgnoreCase(a, b) {
      assert forall i :: 0 <= i < |a| ==> ToLowerCase(a)[i] == ToLowerCase(b)[i];
    }
    if ToLowerCase(a) == ToLowerCase(b) {
      assert forall i :: 0 <= i < |a| ==> LowerChar(a[i]) == ToLowerCase(b)[i];
    }
  }

  /** The characters `trim()` removes: U+0000 through U+0020. */
  predicate IsTrimmable(c: char) {
    c <= ' '
  }

  /** First index at or after `st` holding a character `trim()` keeps. */
  function SkipLeading(s: string, st: nat): (r: nat)
    requires st <= |s|
    ensures st <= r <= |s|
    ensures forall i :: st <= i < r ==> IsTrimmable(s[i])
    ensures r < |s| ==> !IsTrimmable(s[r])
    decreases |s| - st
  {
    if st < |s| && IsTrimmable(s[st]) then SkipLeading(s, st + 1) else st
  }

  /** End (exclusive) of `s[st..len]` once trailing trimmable characters are
      dropped. */
  function SkipTrailing(s: string, st: nat, len: nat): (r: nat)
    requires st <= len <= |s|
    ensures st <= r <= len
    ensures forall i :: r <= i < len ==> IsTrimmable(s[i])
    ensures st < r ==> !IsTrimmable(s[r - 1])
    decreases len - st
  {
    if st < len && IsTrimmable(s[len - 1]) then SkipTrailing(s, st, len - 1) else len
  }

  /** `s.trim()`: both loops of the JDK implementation, leading first. */
  function Trim(s: string): (r: string)
    ensures |r| <= |s|
    ensures |r| > 0 ==> !IsTrimmable(r[0]) && !IsTrimmable(r[|r| - 1])
  {
    var st := SkipLeading(s, 0);
    s[st..SkipTrailing(s, st, |s|)]
  }

  /** What is trimmed away is trimmable, and what is kept is a slice of the
      original. */
  lemma TrimIsSlice(s: string)
    ensures exists st, en ::
              && 0 <= st <= en <= |s|
              && Trim(s) == s[st..en]
              && (forall i :: 0 <= i < st ==> IsTrimmable(s[i]))
              && (forall i :: en <= i < |s| ==> IsTrimmable(s[i]))
  {
    var st := SkipLeading(s, 0);
    var en := SkipTrailing(s, st, |s|);
    assert Trim(s) == s[st..en];
  }

  /** `s.trim().isEmpty()` holds exactly when every character of `s` is at
      most U+0020. */
  lemma TrimEmptyIff(s: string)
    ensures |Trim(s)| == 0 <==> forall i :: 0 <= i < |s| ==> IsTrimmable(s[i])
  {
    var st := SkipLeading(s, 0);
    var en := SkipTrailing(s, st, |s|);
    if forall i :: 0 <= i < |s| ==> IsTrimmable(s[i]) {
      assert st == |s|;
    }
    if |Trim(s)| == 0 {
      assert en == st;
      assert st == |s|;
    }
  }
}
