/** String primitives the registration validator relies on, stated over
    Dafny strings (sequences of Unicode scalar values). */
module Text {

  /** The ECMAScript WhiteSpace and LineTerminator code points: exactly the
      characters `String.prototype.trim` strips and the regex class `\s`
      matches (space separators as of Unicode 6.3 and later). */
  predicate IsWhitespace(c: char) {
    || c == '\t' || c == '\n' || c == '\U{000B}' || c == '\U{000C}' || c == '\r'
    || c == ' ' || c == '\U{00A0}' || c == '\U{1680}'
    || ('\U{2000}' <= c <= '\U{200A}')
    || c == '\U{2028}' || c == '\U{2029}' || c == '\U{202F}' || c == '\U{205F}'
    || c == '\U{3000}' || c == '\U{FEFF}'
  }

  predicate AllWhitespace(s: string) {
    forall i :: 0 <= i < |s| ==> IsWhitespace(s[i])
  }

  predicate NoWhitespace(s: string) {
    forall i :: 0 <= i < |s| ==> !IsWhitespace(s[i])
  }

  /** Drops leading whitespace. */
  function TrimStart(s: string): (r: string)
    ensures |r| <= |s|
  {
    if s != [] && IsWhitespace(s[0]) then TrimStart(s[1..]) else s
  }

  /** What `TrimStart` removes is whitespace, and what it keeps is the rest
      of the string, starting with a character that is not. */
  lemma {:induction false} TrimStartSpec(s: string)
    ensures var r := TrimStart(s);
      r == s[|s| - |r|..] && AllWhitespace(s[..|s| - |r|])
      && (r == [] || !IsWhitespace(r[0]))
  {
    if s != [] && IsWhitespace(s[0]) {
      TrimStartSpec(s[1..]);
      var r := TrimStart(s);
      var n := |s| - |r|;
      assert forall i :: 1 <= i < n ==> s[..n][i] == s[1..][..n - 1][i - 1];
    }
  }

  /** Drops trailing whitespace. */
  function TrimEnd(s: string): (r: string)
    ensures |r| <= |s|
  {
    if s != [] && IsWhitespace(s[|s| - 1]) then TrimEnd(s[..|s| - 1]) else s
  }

  /** What `TrimEnd` removes is whitespace, and what it keeps is the start
      of the string, ending with a character that is not. */
  lemma {:induction false} TrimEndSpec(s: string)
    ensures var r := TrimEnd(s);
      r == s[..|r|] && AllWhitespace(s[|r|..])
      && (r == [] || !IsWhitespace(r[|r| - 1]))
  {
    if s != [] && IsWhitespace(s[|s| - 1]) {
      var t := s[..|s| - 1];
      TrimEndSpec(t);
      var r := TrimEnd(s);
      assert s[|r|..] == t[|r|..] + [s[|s| - 1]];
    }
  }

  /** `String.prototype.trim`. */
  function Trim(s: string): (r: string)
    ensures |r| <= |s|
  {
    TrimEnd(TrimStart(s))
  }

  /** `Trim` keeps one contiguous piece of the string, the whitespace on
      either side of it is dropped, and the piece neither starts nor ends
      with whitespace. */
  lemma TrimSpec(s: string)
    ensures var r := Trim(s);
      (r == [] || (!IsWhitespace(r[0]) && !IsWhitespace(r[|r| - 1])))
      && (exists i :: 0 <= i <= |s| - |r| && r == s[i..i + |r|]
            && AllWhitespace(s[..i]) && AllWhitespace(s[i + |r|..]))
  {
    var t := TrimStart(s);
    var r := Trim(s);
    TrimStartSpec(s);
    TrimEndSpec(t);
    var i := |s| - |t|;
    assert r == s[i..i + |r|];
    assert s[i + |r|..] == t[|r|..];
    if r != [] {
      assert r[0] == t[0];
    }
  }

  /** Trimming yields the empty string exactly when the string is all
      whitespace (the empty string included). */
  lemma TrimEmptyIff(s: string)
    ensures Trim(s) == [] <==> AllWhitespace(s)
  {
    var t := TrimStart(s);
    TrimStartSpec(s);
    TrimEndSpec(t);
    if Trim(s) == [] {
      // all of t is trailing whitespace, yet t does not start with any
      assert AllWhitespace(t[0..]);
      assert t == [];
      assert s[..|s|] == s;
    }
  }

  /** `String.prototype.indexOf` for one character. */
  function IndexOf(s: string, c: char): (r: int)
    ensures -1 <= r < |s|
  {
    if s == [] then -1
    else if s[0] == c then 0
    else
      var k := IndexOf(s[1..], c);
      if k < 0 then -1 else k + 1
  }

  /** `IndexOf` finds the first position holding `c`, and -1 exactly when
      there is none. */
  lemma {:induction false} IndexOfSpec(s: string, c: char)
    ensures var r := IndexOf(s, c);
      (r == -1 <==> c !in s) && (0 <= r ==> s[r] == c && c !in s[..r])
  {
    if s != [] && s[0] != c {
      IndexOfSpec(s[1..], c);
      var k := IndexOf(s[1..], c);
      assert s == [s[0]] + s[1..];
      if 0 <= k {
        assert s[..k + 1] == [s[0]] + s[1..][..k];
      }
    }
  }

  /** `s.split(c)[0]`. */
  function Before(s: string, c: char): (r: string)
    ensures |r| <= |s|
  {
    var k := IndexOf(s, c);
    if k < 0 then s else s[..k]
  }

  /** `Before` gives the text before the first `c`, or all of `s` when `c`
      does not occur. */
  lemma BeforeSpec(s: string, c: char)
    ensures var r := Before(s, c);
      r == s[..|r|] && c !in r && (|r| < |s| ==> s[|r|] == c)
  {
    IndexOfSpec(s, c);
  }

  /** Splitting at the first `c`: whatever follows it does not matter. */
  lemma {:induction false} BeforeFirst(a: string, c: char, b: string)
    requires c !in a
    ensures Before(a + [c] + b, c) == a
  {
    var s := a + [c] + b;
    var r := Before(s, c);
    BeforeSpec(s, c);
    assert s[|a|] == c;
    assert forall i :: 0 <= i < |a| ==> s[i] == a[i];
    assert forall i :: 0 <= i < |r| ==> r[i] == s[i];
    assert |r| == |a|;
    assert r == s[..|a|] == a;
  }

  /** A string without `c` is kept whole. */
  lemma BeforeWithout(s: string, c: char)
    requires c !in s
    ensures Before(s, c) == s
  {
    BeforeSpec(s, c);
  }

  /** An ASCII decimal digit: the regex class `[0-9]`; `\D` is its complement. */
  predicate IsDigit(c: char) {
    '0' <= c <= '9'
  }

  /** `s.replace(/\D/g, '')`: the digits of `s`, in order. */
  function DigitsOnly(s: string): (r: string)
    ensures |r| <= |s|
  {
    if s == [] then []
    else (if IsDigit(s[0]) then [s[0]] else []) + DigitsOnly(s[1..])
  }

  /** Every character `DigitsOnly` keeps is a digit. */
  lemma {:induction false} DigitsOnlyAllDigits(s: string)
    ensures forall i :: 0 <= i < |DigitsOnly(s)| ==> IsDigit(DigitsOnly(s)[i])
  {
    if s != [] {
      DigitsOnlyAllDigits(s[1..]);
    }
  }

  /** Each digit occurs in `DigitsOnly(s)` as often as in `s`, and nothing
      else occurs there. */
  lemma {:induction false} DigitsOnlyCounts(s: string, c: char)
    ensures multiset(DigitsOnly(s))[c] == if IsDigit(c) then multiset(s)[c] else 0
  {
    if s != [] {
      assert s == [s[0]] + s[1..];
      DigitsOnlyCounts(s[1..], c);
    }
  }

  /** Deleting non-digits distributes over concatenation, so characters
      other than digits never affect what remains. */
  lemma {:induction false} DigitsOnlyAppend(a: string, b: string)
    ensures DigitsOnly(a + b) == DigitsOnly(a) + DigitsOnly(b)
  {
    if a != [] {
      var head := if IsDigit(a[0]) then [a[0]] else [];
      assert (a + b)[0] == a[0];
      assert (a + b)[1..] == a[1..] + b;
      assert DigitsOnly(a + b) == head + DigitsOnly(a[1..] + b);
      DigitsOnlyAppend(a[1..], b);
      assert DigitsOnly(a) == head + DigitsOnly(a[1..]);
      assert head + (DigitsOnly(a[1..]) + DigitsOnly(b)) == (head + DigitsOnly(a[1..])) + DigitsOnly(b);
    } else {
      assert a + b == b;
    }
  }

  /** A string without digits contributes nothing. */
  lemma {:induction false} DigitsOnlyOfNonDigits(p: string)
    requires forall i :: 0 <= i < |p| ==> !IsDigit(p[i])
    ensures DigitsOnly(p) == []
  {
    if p != [] {
      DigitsOnlyOfNonDigits(p[1..]);
    }
  }

  /** A string of digits is its own digit string. */
  lemma {:induction false} DigitsOnlyOfDigits(d: string)
    requires forall i :: 0 <= i < |d| ==> IsDigit(d[i])
    ensures DigitsOnly(d) == d
  {
    if d != [] {
      DigitsOnlyOfDigits(d[1..]);
      assert d == [d[0]] + d[1..];
    }
  }

  /** The JavaScript `.length` of `s`: the number of UTF-16 code units, one
      per code point in the Basic Multilingual Plane and two (a surrogate
      pair) for every other code point. */
  function Utf16Length(s: string): (n: nat)
    ensures |s| <= n <= 2 * |s|
  {
    if s == [] then 0
    else (if s[0] as int <= 0xFFFF then 1 else 2) + Utf16Length(s[1..])
  }

  /** The JavaScript length is the sequence length exactly when every code
      point lies in the Basic Multilingual Plane. */
  lemma {:induction false} Utf16LengthBmp(s: string)
    ensures Utf16Length(s) == |s| <==> forall i :: 0 <= i < |s| ==> s[i] as int <= 0xFFFF
  {
    if s != [] {
      Utf16LengthBmp(s[1..]);
      assert forall i :: 1 <= i < |s| ==> s[i] == s[1..][i - 1];
    }
  }
}
