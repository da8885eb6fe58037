/**
 * The two string operations the account manager relies on: Rust's `str::trim`
 * (strips Unicode `White_Space` characters at both ends) and SQLite's built-in
 * `LOWER`, which folds only the 26 ASCII capitals.
 */
module Text {

  /** Rust's `char::is_whitespace`: the Unicode `White_Space` property. */
  predicate IsWhitespace(c: char)
  {
    || ('\U{9}' <= c <= '\U{D}')
    || c == ' '
    || c == '\U{85}'
    || c == '\U{A0}'
    || c == '\U{1680}'
    || ('\U{2000}' <= c <= '\U{200A}')
    || c == '\U{2028}'
    || c == '\U{2029}'
    || c == '\U{202F}'
    || c == '\U{205F}'
    || c == '\U{3000}'
  }

  /** `s` with its leading whitespace removed. */
  function TrimStart(s: string): (r: string)
    ensures |r| <= |s| && r == s[|s| - |r|..]
    ensures r == [] || !IsWhitespace(r[0])
    ensures forall i | 0 <= i < |s| - |r| :: IsWhitespace(s[i])
  {
    if s == [] || !IsWhitespace(s[0]) then s else TrimStart(s[1..])
  }

  /** `s` with its trailing whitespace removed. */
  function TrimEnd(s: string): (r: string)
    ensures |r| <= |s| && r == s[..|r|]
    ensures r == [] || !IsWhitespace(r[|r| - 1])
    ensures forall i | |r| <= i < |s| :: IsWhitespace(s[i])
  {
    if s == [] || !IsWhitespace(s[|s| - 1]) then s else TrimEnd(s[..|s| - 1])
  }

  /** Rust's `str::trim`. */
  function Trim(s: string): (r: string)
  {
    TrimEnd(TrimStart(s))
  }

  /** A string that is already trimmed: no whitespace at either end. */
  predicate IsTrimmed(s: string)
  {
    s == [] || (!IsWhitespace(s[0]) && !IsWhitespace(s[|s| - 1]))
  }

  /** The result of trimming is trimmed, and it is the part of the input left after the leading whitespace. */
  lemma TrimIsTrimmedInfix(s: string)
    ensures IsTrimmed(Trim(s))
    ensures Trim(s) <= TrimStart(s) && TrimStart(s) == s[|s| - |TrimStart(s)|..]
  {
    var t := TrimStart(s);
    var r := TrimEnd(t);
    if r != [] {
      assert r[0] == t[0];
    }
  }

  /** Trimming twice is the same as trimming once. */
  lemma {:induction false} TrimIdempotent(s: string)
    ensures Trim(Trim(s)) == Trim(s)
  {
    TrimIsTrimmedInfix(s);
    TrimmedIsFixpoint(Trim(s));
  }

  /** A trimmed string is left unchanged by `Trim`. */
  lemma TrimmedIsFixpoint(s: string)
    requires IsTrimmed(s)
    ensures Trim(s) == s
  {
    assert TrimStart(s) == s;
  }

  /** `Trim(s)` is empty exactly when every character of `s` is whitespace. */
  lemma {:induction false} TrimEmptyIffAllWhitespace(s: string)
    ensures Trim(s) == [] <==> forall i | 0 <= i < |s| :: IsWhitespace(s[i])
  {
    var t := TrimStart(s);
    if t == [] {
    } else {
      assert !IsWhitespace(t[0]);
      assert s[|s| - |t|] == t[0];
      assert TrimEnd(t) != [];
    }
  }

  /** SQLite's `LOWER` on one character (no ICU: ASCII capitals only). */
  function LowerChar(c: char): char
  {
    if 'A' <= c <= 'Z' then (c as int + 32) as char else c
  }

  /** SQLite's `LOWER` on a string. */
  function Lower(s: string): (r: string)
  {
    seq(|s|, i requires 0 <= i < |s| => LowerChar(s[i]))
  }

  /** Two names that SQLite's `LOWER(a) = LOWER(b)` considers the same. */
  predicate SameIgnoringCase(a: string, b: string)
  {
    Lower(a) == Lower(b)
  }

  /** Names that differ only in ASCII case clash, and strings of different lengths never do. */
  lemma SameIgnoringCaseFacts(a: string)
    ensures forall b :: SameIgnoringCase(a, b) ==> |a| == |b|
    ensures SameIgnoringCase(a, Lower(a))
  {
    forall b | SameIgnoringCase(a, b) ensures |a| == |b| {
      assert |Lower(a)| == |Lower(b)|;
    }
    assert Lower(Lower(a)) == Lower(a);
  }
}
