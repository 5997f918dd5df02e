/**
 * The PHP string functions the criteria and the component rely on:
 * `trim` with its default character list, `strtolower` on ASCII letters,
 * and the truthiness of a string in a condition.
 */
module PhpStrings {

  /** The characters `trim` strips by default: space, tab, line feed,
      carriage return, NUL and vertical tab. */
  predicate IsTrimmable(c: char) {
    c == ' ' || c == '\t' || c == '\n' || c == '\r' || c == '\0' || c == '\U{B}'
  }

  predicate AllTrimmable(s: string) {
    forall i :: 0 <= i < |s| ==> IsTrimmable(s[i])
  }

  /** `ltrim`: drops the trimmable prefix. */
  function TrimLeft(s: string): string {
    if s != [] && IsTrimmable(s[0]) then TrimLeft(s[1..]) else s
  }

  /** `rtrim`: drops the trimmable suffix. */
  function TrimRight(s: string): string {
    if s != [] && IsTrimmable(s[|s| - 1]) then TrimRight(s[..|s| - 1]) else s
  }

  /** `ltrim` keeps a suffix that starts with a kept character, and what it
      drops is all trimmable. */
  lemma {:induction false} TrimLeftShape(s: string)
    ensures |TrimLeft(s)| <= |s| && TrimLeft(s) == s[|s| - |TrimLeft(s)|..]
    ensures AllTrimmable(s[..|s| - |TrimLeft(s)|])
    ensures TrimLeft(s) == [] || !IsTrimmable(TrimLeft(s)[0])
  {
    if s != [] && IsTrimmable(s[0]) {
      TrimLeftShape(s[1..]);
      var r := TrimLeft(s[1..]);
      assert s[..|s| - |r|] == [s[0]] + s[1..][..|s| - 1 - |r|];
    }
  }

  /** `rtrim` keeps a prefix that ends with a kept character, and what it
      drops is all trimmable. */
  lemma {:induction false} TrimRightShape(s: string)
    ensures |TrimRight(s)| <= |s| && TrimRight(s) == s[..|TrimRight(s)|]
    ensures AllTrimmable(s[|TrimRight(s)|..])
    ensures TrimRight(s) == [] || !IsTrimmable(TrimRight(s)[|TrimRight(s)| - 1])
  {
    if s != [] && IsTrimmable(s[|s| - 1]) {
      TrimRightShape(s[..|s| - 1]);
      var r := TrimRight(s[..|s| - 1]);
      assert s[|r|..] == s[..|s| - 1][|r|..] + [s[|s| - 1]];
    }
  }

  /** `trim`: drops both; what is left is `s` without an all-trimmable
      prefix and an all-trimmable suffix, and it neither starts nor ends with
      a trimmable character. */
  function Trim(s: string): (r: string)
    ensures |r| <= |s|
    ensures exists i :: (0 <= i <= |s| - |r| && r == s[i..i + |r|]
                         && AllTrimmable(s[..i]) && AllTrimmable(s[i + |r|..]))
    ensures r == [] || (!IsTrimmable(r[0]) && !IsTrimmable(r[|r| - 1]))
  {
    var t := TrimRight(s);
    TrimRightShape(s);
    TrimLeftShape(t);
    var r := TrimLeft(t);
    var i := |t| - |r|;
    assert r == s[i..i + |r|] && AllTrimmable(s[..i]) by {
      assert s[..i] == t[..i];
    }
    r
  }

  /** `strtolower` on one character: only `A`..`Z` change. */
  function LowerChar(c: char): (r: char)
    ensures 'A' <= c <= 'Z' ==> 'a' <= r <= 'z' && r as int - c as int == 'a' as int - 'A' as int
    ensures !('A' <= c <= 'Z') ==> r == c
  {
    if 'A' <= c <= 'Z' then (c as int - 'A' as int + 'a' as int) as char else c
  }

  /** `strtolower`: same length, no upper-case ASCII letter left, and every
      other character kept. */
  function Lower(s: string): (r: string)
    ensures |r| == |s|
    ensures forall i :: 0 <= i < |r| ==> !('A' <= r[i] <= 'Z')
    ensures forall i :: 0 <= i < |r| ==> r[i] == s[i] || 'A' <= s[i] <= 'Z'
    ensures forall i :: 0 <= i < |r| && 'A' <= s[i] <= 'Z' ==> r[i] as int == s[i] as int + 32
  {
    seq(|s|, i requires 0 <= i < |s| => LowerChar(s[i]))
  }

  /** The key normalisation of the criteria: `strtolower(trim($field))`. The
      result has no upper-case ASCII letter and no trimmable character at
      either end. */
  function Normalize(s: string): (r: string)
    ensures |r| <= |s|
    ensures forall i :: 0 <= i < |r| ==> !('A' <= r[i] <= 'Z')
    ensures r == [] || (!IsTrimmable(r[0]) && !IsTrimmable(r[|r| - 1]))
  {
    Lower(Trim(s))
  }

  /** Whether a string is true in a PHP condition: the empty string and "0"
      are false, every other one-character string and every longer string is
      true. */
  function Truthy(s: string): (b: bool)
    ensures s == [] ==> !b
    ensures |s| == 1 ==> (b <==> s[0] != '0')
    ensures |s| >= 2 ==> b
  {
    s != "" && s != "0"
  }

  lemma LowerKeepsTrimmable(c: char)
    ensures IsTrimmable(LowerChar(c)) == IsTrimmable(c)
  {
  }

  lemma {:induction false} TrimLeftLower(s: string)
    ensures TrimLeft(Lower(s)) == Lower(TrimLeft(s))
    decreases |s|
  {
    if s != [] {
      LowerKeepsTrimmable(s[0]);
      assert Lower(s)[1..] == Lower(s[1..]);
      TrimLeftLower(s[1..]);
    }
  }

  lemma {:induction false} TrimRightLower(s: string)
    ensures TrimRight(Lower(s)) == Lower(TrimRight(s))
    decreases |s|
  {
    if s != [] {
      LowerKeepsTrimmable(s[|s| - 1]);
      assert Lower(s)[..|s| - 1] == Lower(s[..|s| - 1]);
      TrimRightLower(s[..|s| - 1]);
    }
  }

  /** Trimming commutes with lower-casing, since no letter is trimmable. */
  lemma TrimLower(s: string)
    ensures Trim(Lower(s)) == Lower(Trim(s))
  {
    TrimRightLower(s);
    TrimLeftLower(TrimRight(s));
  }

  lemma LowerTwice(s: string)
    ensures Lower(Lower(s)) == Lower(s)
  {
  }

  lemma TrimTwice(s: string)
    ensures Trim(Trim(s)) == Trim(s)
  {
    var r := TrimRight(s);
    var t := TrimLeft(r);
    TrimRightShape(s);
    TrimLeftShape(r);
    // t is a suffix of r, so it ends where r ends: with a non-trimmable character (or is empty)
    assert t == [] || t[|t| - 1] == r[|r| - 1];
    assert TrimRight(t) == t;
  }

  /** A normalised name is a fixed point of the normalisation. */
  lemma NormalizeIdempotent(s: string)
    ensures Normalize(Normalize(s)) == Normalize(s)
  {
    TrimLower(Trim(s));
    TrimTwice(s);
    LowerTwice(Trim(s));
  }

  /** A name that is already in normal form, with no upper-case ASCII letter
      and no trimmable character at either end, is kept as it is. */
  lemma NormalizeFixedPoint(s: string)
    requires forall i :: 0 <= i < |s| ==> !('A' <= s[i] <= 'Z')
    requires s == [] || (!IsTrimmable(s[0]) && !IsTrimmable(s[|s| - 1]))
    ensures Normalize(s) == s
  {
    assert TrimRight(s) == s;
    assert TrimLeft(s) == s;
    assert Lower(s) == s;
  }

  /** Names that differ only in letter case normalise alike. */
  lemma NormalizeIgnoresCase(s: string, t: string)
    requires Lower(s) == Lower(t)
    ensures Normalize(s) == Normalize(t)
  {
    TrimLower(s);
    TrimLower(t);
    LowerTwice(Trim(s));
    LowerTwice(Trim(t));
  }

  lemma {:induction false} TrimLeftDropsPadding(pre: string, s: string)
    requires AllTrimmable(pre)
    ensures TrimLeft(pre + s) == TrimLeft(s)
    decreases |pre|
  {
    if pre != [] {
      var whole := pre + s;
      assert IsTrimmable(whole[0]) by {
        assert whole[0] == pre[0];
      }
      assert whole[1..] == pre[1..] + s;
      assert AllTrimmable(pre[1..]);
      TrimLeftDropsPadding(pre[1..], s);
    } else {
      assert pre + s == s;
    }
  }

  lemma {:induction false} TrimRightDropsPadding(s: string, post: string)
    requires AllTrimmable(post)
    ensures TrimRight(s + post) == TrimRight(s)
    decreases |post|
  {
    if post != [] {
      var whole, shorter := s + post, s + post[..|post| - 1];
      assert IsTrimmable(whole[|whole| - 1]) by {
        assert whole[|whole| - 1] == post[|post| - 1];
      }
      assert whole[..|whole| - 1] == shorter;
      assert AllTrimmable(post[..|post| - 1]);
      TrimRightDropsPadding(s, post[..|post| - 1]);
    } else {
      assert s + post == s;
    }
  }

  lemma {:induction false} TrimRightUnderPrefix(pre: string, s: string)
    ensures TrimRight(s) != [] ==> TrimRight(pre + s) == pre + TrimRight(s)
    ensures TrimRight(s) == [] ==> TrimRight(pre + s) == TrimRight(pre)
    decreases |s|
  {
    if s != [] && IsTrimmable(s[|s| - 1]) {
      assert (pre + s)[..|pre + s| - 1] == pre + s[..|s| - 1];
      TrimRightUnderPrefix(pre, s[..|s| - 1]);
    } else if s == [] {
      assert pre + s == pre;
    }
  }

  /** Surrounding whitespace does not change the normalised name. */
  lemma NormalizeIgnoresPadding(pre: string, s: string, post: string)
    requires AllTrimmable(pre) && AllTrimmable(post)
    ensures Normalize(pre + s + post) == Normalize(s)
  {
    TrimRightDropsPadding(pre + s, post);
    TrimRightUnderPrefix(pre, s);
    if TrimRight(s) == [] {
      TrimRightDropsPadding([], pre);
      assert [] + pre == pre;
    } else {
      TrimLeftDropsPadding(pre, TrimRight(s));
    }
  }
}
