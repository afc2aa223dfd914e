/** The two regular expressions of the registration validator, each given
    twice: once as the language the pattern denotes and once as the direct
    check the validator evaluates, with a lemma that the two agree. */
module Patterns {
  import opened Text

  /** The class `[^\s@]`. */
  predicate Plain(c: char) {
    !IsWhitespace(c) && c != '@'
  }

  /** `[^\s@]+`: a non-empty run of plain characters. */
  predicate PlainRun(t: string) {
    |t| > 0 && forall i :: 0 <= i < |t| ==> Plain(t[i])
  }

  /** The strings `/^[^\s@]+@[^\s@]+\.[^\s@]+$/` matches: a plain run, an
      `@` at position `i`, a plain run, a `.` at position `j`, a plain run. */
  ghost predicate MatchesEmailPattern(s: string) {
    exists i, j :: 0 <= i < j < |s| && s[i] == '@' && s[j] == '.'
      && PlainRun(s[..i]) && PlainRun(s[i + 1..j]) && PlainRun(s[j + 1..])
  }

  /** A `.` somewhere other than the first or last position. */
  predicate DotInside(d: string) {
    exists k :: 0 < k < |d| - 1 && d[k] == '.'
  }

  /** The address-shape check as evaluated: no whitespace anywhere, exactly
      one `@`, a non-empty part before it, and a domain after it holding a
      `.` that is neither its first nor its last character. */
  predicate EmailShapeOk(s: string) {
    NoWhitespace(s) &&
    var at := IndexOf(s, '@');
    0 < at && '@' !in s[at + 1..] && DotInside(s[at + 1..])
  }

  /** The direct check accepts exactly the strings the pattern matches.
      The pattern takes the string untrimmed: surrounding spaces fail it. */
  lemma EmailShapeMatchesPattern(s: string)
    ensures EmailShapeOk(s) <==> MatchesEmailPattern(s)
  {
    if EmailShapeOk(s) {
      EmailShapeSound(s);
    }
    if MatchesEmailPattern(s) {
      EmailShapeComplete(s);
    }
  }

  lemma EmailShapeSound(s: string)
    requires EmailShapeOk(s)
    ensures MatchesEmailPattern(s)
  {
    var i := IndexOf(s, '@');
    IndexOfSpec(s, '@');
    var d := s[i + 1..];
    var k :| 0 < k < |d| - 1 && d[k] == '.';
    var j := i + 1 + k;
    var local, left, right := s[..i], s[i + 1..j], s[j + 1..];
    assert PlainRun(local) by {
      forall t | 0 <= t < |local| ensures Plain(local[t]) {
        assert local[t] in s[..i];
      }
    }
    assert PlainRun(left) by {
      forall t | 0 <= t < |left| ensures Plain(left[t]) {
        assert left[t] == d[t];
      }
    }
    assert PlainRun(right) by {
      forall t | 0 <= t < |right| ensures Plain(right[t]) {
        assert right[t] == d[k + 1 + t];
      }
    }
    assert s[i] == '@' && s[j] == '.';
  }

  lemma EmailShapeComplete(s: string)
    requires MatchesEmailPattern(s)
    ensures EmailShapeOk(s)
  {
    var i, j :| 0 <= i < j < |s| && s[i] == '@' && s[j] == '.'
      && PlainRun(s[..i]) && PlainRun(s[i + 1..j]) && PlainRun(s[j + 1..]);
    var local, left, right := s[..i], s[i + 1..j], s[j + 1..];
    assert NoWhitespace(s) by {
      forall t | 0 <= t < |s| ensures !IsWhitespace(s[t]) {
        if t < i {
          assert s[t] == local[t];
        } else if i < t < j {
          assert s[t] == left[t - i - 1];
        } else if j < t {
          assert s[t] == right[t - j - 1];
        }
      }
    }
    var at := IndexOf(s, '@');
    IndexOfSpec(s, '@');
    assert s[i] in s;
    assert forall t :: 0 <= t < i ==> local[t] == s[t];
    assert forall t :: 0 <= t < at ==> s[..at][t] == s[t];
    assert at == i;
    var d := s[i + 1..];
    assert '@' !in d by {
      forall t | 0 <= t < |d| ensures d[t] != '@' {
        if t < j - i - 1 {
          assert d[t] == left[t];
        } else if t > j - i - 1 {
          assert d[t] == right[t - (j - i)];
        }
      }
    }
    assert d[j - i - 1] == '.';
  }

  /** The check split at the first `@`: an address passes exactly when its
      local part is non-empty, no character is whitespace, no second `@`
      follows and the domain has a `.` strictly inside it. */
  lemma {:induction false} EmailShapeOfParts(local: string, domain: string)
    requires '@' !in local
    ensures EmailShapeOk(local + "@" + domain) <==>
              |local| > 0 && NoWhitespace(local + "@" + domain)
              && '@' !in domain && DotInside(domain)
  {
    var s := local + "@" + domain;
    var at := IndexOf(s, '@');
    IndexOfSpec(s, '@');
    assert s[|local|] == '@';
    assert forall i :: 0 <= i < |local| ==> s[i] == local[i];
    assert forall i :: 0 <= i < at ==> s[..at][i] == s[i];
    assert at == |local|;
    assert s[at + 1..] == domain;
  }

  /** Several dots in the domain are fine. */
  lemma EmailAcceptsSeveralDots()
    ensures EmailShapeOk("a@b.c.d")
  {
    var s := "a@b.c.d";
    assert s == "a" + "@" + "b.c.d";
    EmailShapeOfParts("a", "b.c.d");
    assert "b.c.d"[1] == '.';
    assert NoWhitespace(s);
  }

  /** Sample addresses that pass. */
  lemma EmailExamplesAccepted()
    ensures EmailShapeOk("a@b.co") && EmailShapeOk("ana@x.com")
  {
    assert EmailShapeOk("a@b.co") by {
      var s := "a@b.co";
      assert s == "a" + "@" + "b.co";
      EmailShapeOfParts("a", "b.co");
      assert "b.co"[1] == '.';
    }
    assert EmailShapeOk("ana@x.com") by {
      var s := "ana@x.com";
      assert s == "ana" + "@" + "x.com";
      EmailShapeOfParts("ana", "x.com");
      assert "x.com"[1] == '.';
    }
  }

  /** Sample addresses that fail: surrounding whitespace is not trimmed
      before the check, and a missing `@`, an empty domain or a domain
      without an inner dot are refused. */
  lemma EmailExamplesRejected()
    ensures !EmailShapeOk(" a@b.co")
    ensures !EmailShapeOk("foo") && !EmailShapeOk("foo@") && !EmailShapeOk("foo@bar")
  {
    assert " a@b.co"[0] == ' ';
    assert '@' !in "foo";
    EmailShapeOfParts("foo", "");
    assert "foo@" == "foo" + "@" + "";
    EmailShapeOfParts("foo", "bar");
    assert "foo@bar" == "foo" + "@" + "bar";
  }

  /** `/^[0-9]{10,}$/`: ten or more characters, all digits. */
  predicate MatchesPhonePattern(t: string) {
    |t| >= 10 && forall i :: 0 <= i < |t| ==> IsDigit(t[i])
  }

  /** Applied to what is left of a phone number once every non-digit is
      deleted, the pattern asks only for at least ten digits. */
  lemma PhonePatternOnDigits(s: string)
    ensures MatchesPhonePattern(DigitsOnly(s)) <==> |DigitsOnly(s)| >= 10
  {
    DigitsOnlyAllDigits(s);
  }
}
