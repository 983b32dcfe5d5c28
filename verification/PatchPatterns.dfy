/** What the patterns of utils/check-style.py match, for all lines and not only for printed ones. */
module PatchPatterns {
  import opened Basics
  import opened PatchText
  import R = PatchRoundTrip

  /** A prefix and `(.*)$` match exactly the prefix and a text without line breaks, with or without one at the end. */
  lemma AfterExact(s: string, prefix: string, t: string)
    ensures After(s, prefix) == Some(t) <==> '\n' !in t && (s == prefix + t || s == prefix + t + "\n")
  {
    if Starts(s, prefix) {
      assert s == prefix + s[|prefix|..];
      RestExact(s[|prefix|..], t);
      if s == prefix + t || s == prefix + t + "\n" {
        assert s[|prefix|..] == t || s[|prefix|..] == t + "\n";
      }
      if s[|prefix|..] == t + "\n" {
        assert s == prefix + t + "\n";
      }
    } else {
      NoPrefix(s, prefix, t);
      NoPrefix(s, prefix, t + "\n");
      assert prefix + t + "\n" == prefix + (t + "\n");
    }
  }

  lemma NoPrefix(s: string, prefix: string, t: string)
    requires !Starts(s, prefix)
    ensures s != prefix + t
  {
    assert (prefix + t)[..|prefix|] == prefix;
  }

  lemma RestExact(s: string, t: string)
    ensures Rest(s) == Some(t) <==> '\n' !in t && (s == t || s == t + "\n")
  {
    if s != [] {
      var front, last := s[..|s| - 1], s[|s| - 1];
      assert s == front + [last];
      if s == t + "\n" {
        assert front == t;
      }
    }
  }

  predicate Digits(d: string) {
    d != [] && forall c | c in d :: IsDigit(c)
  }

  function SideForm(token: string, a: string, b: string, rest: string): string {
    token + (a + ("," + (b + rest)))
  }

  /** The pattern of a chunk header: "@@ -", two numbers with a comma between, " +", two more, " @@", and anything after
      that. */
  ghost predicate HeaderLine(s: string, a: string, b: string, c: string, d: string, tail: string) {
    && Digits(a) && Digits(b) && Digits(c) && Digits(d)
    && s == SideForm("@@ -", a, b, SideForm(" +", c, d, " @@" + tail))
  }

  /** A line is read as a chunk header exactly if it starts as one, whatever follows the second "@@". */
  lemma HeaderExact(s: string, h: Header)
    ensures ReadHeader(s) == Some(h) <==>
      exists a, b, c, d, tail :: HeaderLine(s, a, b, c, d, tail) && h == Header(Value(a), Value(b), Value(c), Value(d))
  {
    if ReadHeader(s) == Some(h) {
      var a, b, c, d, tail := HeaderParts(s);
      assert HeaderLine(s, a, b, c, d, tail);
    }
    if a, b, c, d, tail :| HeaderLine(s, a, b, c, d, tail) && h == Header(Value(a), Value(b), Value(c), Value(d)) {
      HeaderMade(s, a, b, c, d, tail);
    }
  }

  lemma HeaderParts(s: string) returns (a: string, b: string, c: string, d: string, tail: string)
    requires ReadHeader(s).Some?
    ensures HeaderLine(s, a, b, c, d, tail)
    ensures ReadHeader(s) == Some(Header(Value(a), Value(b), Value(c), Value(d)))
  {
    var rest, end;
    a, b, rest := SideParts(s, "@@ -");
    c, d, end := SideParts(rest, " +");
    tail := Opened(end, " @@");
  }

  lemma Opened(s: string, prefix: string) returns (tail: string)
    requires Starts(s, prefix)
    ensures s == prefix + tail
  {
    tail := s[|prefix|..];
  }

  lemma HeaderMade(s: string, a: string, b: string, c: string, d: string, tail: string)
    requires HeaderLine(s, a, b, c, d, tail)
    ensures ReadHeader(s) == Some(Header(Value(a), Value(b), Value(c), Value(d)))
  {
    var end := " @@" + tail;
    var rest := SideForm(" +", c, d, end);
    assert rest[0] == ' ' && end[0] == ' ';
    SideMade("@@ -", a, b, rest);
    SideMade(" +", c, d, end);
    assert end[..3] == " @@";
  }

  lemma Expected(token: string, rest: string)
    ensures Expect(token + rest, token) == Some(rest)
  {
    assert (token + rest)[..|token|] == token && (token + rest)[|token|..] == rest;
  }

  lemma Numbered(a: string, rest: string)
    requires Digits(a) && rest != [] && !IsDigit(rest[0])
    ensures Number(a + rest) == Some((Value(a), rest))
  {
    R.LeadingOf(a, rest);
    assert (a + rest)[..|a|] == a && (a + rest)[|a|..] == rest;
  }

  /** The parts of a line that starts with the token, a number, a comma and a number. */
  lemma SideParts(s: string, token: string) returns (a: string, b: string, rest: string)
    requires Side(s, token).Some?
    ensures Digits(a) && Digits(b) && s == SideForm(token, a, b, rest)
    ensures Side(s, token) == Some((Value(a), Value(b), rest))
  {
    var s1 := s[|token|..];
    a := s1[..Leading(s1)];
    var s2 := s1[Leading(s1)..];
    var s3 := s2[1..];
    b, rest := s3[..Leading(s3)], s3[Leading(s3)..];
    assert s3 == b + rest;
    assert s2 == "," + s3;
    assert s1 == a + s2;
    assert s == token + s1;
  }

  lemma SideMade(token: string, a: string, b: string, rest: string)
    requires Digits(a) && Digits(b) && rest != [] && !IsDigit(rest[0])
    ensures Side(SideForm(token, a, b, rest), token) == Some((Value(a), Value(b), rest))
  {
    var s3 := b + rest;
    var s2 := "," + s3;
    Expected(token, a + s2);
    assert s2[0] == ',';
    Numbered(a, s2);
    Expected(",", s3);
    Numbered(b, rest);
  }

  /** Printed numbers have no leading zero. */
  lemma {:induction false} NoLeadingZero(n: nat)
    ensures Decimal(n)[0] == '0' <==> n == 0
    ensures n < 10 ==> |Decimal(n)| == 1
  {
    if n >= 10 {
      NoLeadingZero(n / 10);
      assert Decimal(n)[0] == Decimal(n / 10)[0];
    }
  }
}
