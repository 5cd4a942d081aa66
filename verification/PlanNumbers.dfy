/**
  The reader's number pattern accepts exactly the numbers of section 6 of
  RFC 8259, and takes each apart into the parts it was printed from.
*/
module PlanNumbers {
  import opened Wrappers
  import opened Utf8
  import opened JsonSyntax
  import opened PlanParsing

  lemma {:induction false} DigitsOf(s: Text, rest: Text)
    requires AllDigits(s)
    requires rest == [] || !IsDigit(rest[0])
    ensures Digits(s + rest) == |s|
  {
    if s == [] {
      assert s + rest == rest;
    } else {
      assert (s + rest)[1..] == s[1..] + rest;
      DigitsOf(s[1..], rest);
    }
  }

  lemma ExponentRoundTrip(e: Exponent)
    requires ExponentOk(e)
    ensures ParseExponent(PrintExponent(e)) == Some(e)
    ensures PrintExponent(e) == [] || PrintExponent(e)[0] in "eE"
  {
    if e.Exponent? {
      var s := PrintExponent(e);
      DigitsOf(e.digits, []);
      assert e.digits + [] == e.digits;
      if e.sign == "" {
        assert s[1..] == e.digits;
        assert IsDigit(s[1]);
      } else {
        assert s[1] == e.sign[0] && s[2..] == e.digits;
        assert [s[1]] == e.sign;
      }
    }
  }

  lemma FractionRoundTrip(n: NumberParts)
    requires AllDigits(n.fraction) && ExponentOk(n.exponent)
    ensures ParseFraction(n.minus, n.whole, PrintFraction(n)) == Some(n)
    ensures PrintFraction(n) == [] || !IsDigit(PrintFraction(n)[0])
  {
    var e := PrintExponent(n.exponent);
    ExponentRoundTrip(n.exponent);
    hide ParseExponent, PrintExponent, ExponentOk, Digits, AllDigits;
    if n.fraction == [] {
      assert [] + e == e;
    } else {
      DigitsOf(n.fraction, e);
      Dotted(n.fraction, e);
    }
  }

  lemma Dotted(f: Text, e: Text)
    ensures var s := (['.'] + f) + e;
            s[0] == '.' && s[1..] == f + e && s[1..1 + |f|] == f && s[1 + |f|..] == e
  {
  }

  lemma WholeRoundTrip(n: NumberParts)
    requires NumberOk(n)
    ensures ParseWhole(n.minus, n.whole + PrintFraction(n)) == Some(n)
  {
    FractionRoundTrip(n);
    hide ParseFraction, PrintFraction, ExponentOk;
    var f := PrintFraction(n);
    var t := n.whole + f;
    assert t[0] == n.whole[0];
    DigitsOf(n.whole, f);
    assert t[..|n.whole|] == n.whole && t[|n.whole|..] == f;
  }

  lemma ParsePrintNumber(n: NumberParts)
    requires NumberOk(n)
    ensures ParseNumber(PrintNumber(n)) == Some(n)
  {
    WholeRoundTrip(n);
    hide ParseWhole, PrintFraction, ExponentOk;
    var t := n.whole + PrintFraction(n);
    assert t[0] == n.whole[0] && IsDigit(t[0]);
    if n.minus {
      assert (['-'] + t)[1..] == t;
    }
  }

  lemma ParsedExponent(s: Text)
    requires ParseExponent(s).Some?
    ensures var e := ParseExponent(s).value; ExponentOk(e) && PrintExponent(e) == s
  {
    if s != [] {
      var e := ParseExponent(s).value;
      assert e.digits == e.digits[..|e.digits|];
      assert s == [e.e] + e.sign + e.digits;
    }
  }

  lemma ParsedFraction(minus: bool, whole: Text, s: Text)
    requires ParseFraction(minus, whole, s).Some?
    ensures var n := ParseFraction(minus, whole, s).value;
            && AllDigits(n.fraction) && ExponentOk(n.exponent)
            && n.minus == minus && n.whole == whole
            && PrintFraction(n) == s
  {
    hide ParseExponent, PrintExponent, ExponentOk;
    if s != [] && s[0] == '.' {
      var n := Digits(s[1..]);
      ParsedExponent(s[1 + n..]);
      assert s[1..][..n] == s[1..1 + n];
      assert s == (['.'] + s[1..1 + n]) + s[1 + n..];
    } else {
      ParsedExponent(s);
      assert [] + s == s;
    }
  }

  lemma WholeRead(s: Text)
    requires WholeLength(s) != 0
    ensures WholeOk(s[..WholeLength(s)])
  {
    assert s[..WholeLength(s)][0] == s[0];
  }

  lemma ParsedWhole(minus: bool, s: Text)
    requires ParseWhole(minus, s).Some?
    ensures var n := ParseWhole(minus, s).value;
            NumberOk(n) && n.minus == minus && n.whole + PrintFraction(n) == s
  {
    hide ParseFraction, PrintFraction, WholeLength, WholeOk, ExponentOk, AllDigits;
    var n := WholeLength(s);
    WholeRead(s);
    ParsedFraction(minus, s[..n], s[n..]);
    assert s == s[..n] + s[n..];
  }

  lemma PrintParsedNumber(s: Text)
    requires ParseNumber(s).Some?
    ensures NumberOk(ParseNumber(s).value) && PrintNumber(ParseNumber(s).value) == s
  {
    hide ParseWhole, PrintFraction, NumberOk;
    if s != [] && s[0] == '-' {
      ParsedWhole(true, s[1..]);
      assert s == ['-'] + s[1..];
    } else {
      ParsedWhole(false, s);
    }
  }

  /** A token is a number to the reader exactly when RFC 8259 can print it. */
  lemma NumberPattern(token: Text)
    ensures ParseNumber(token).Some? <==> exists n :: NumberOk(n) && PrintNumber(n) == token
  {
    if ParseNumber(token).Some? {
      PrintParsedNumber(token);
    }
    forall n | NumberOk(n) && PrintNumber(n) == token
      ensures ParseNumber(token).Some?
    {
      ParsePrintNumber(n);
    }
  }

  predicate IsNumberChar(c: char) {
    IsDigit(c) || c in "+-.eE"
  }

  predicate NumberChars(s: Text) {
    forall i | 0 <= i < |s| :: IsNumberChar(s[i])
  }

  /** What scanning a word needs of it: no delimiter inside, and no first
      character that opens another kind of value. */
  predicate WordLike(token: Text) {
    && token != []
    && token[0] != QUOTE && token[0] != '{' && token[0] != '['
    && forall i | 0 <= i < |token| :: token[i] !in DELIMITERS
  }

  lemma FractionChars(n: NumberParts)
    requires NumberOk(n)
    ensures NumberChars(PrintFraction(n))
  {
  }

  lemma NumberIsWordLike(n: NumberParts)
    requires NumberOk(n)
    ensures WordLike(PrintNumber(n))
  {
    FractionChars(n);
    assert NumberChars(n.whole);
    assert NumberChars(PrintNumber(n));
  }

  lemma WordIsWordLike(token: Text)
    requires WordOk(token)
    ensures WordLike(token)
  {
    if token !in WORDS {
      var n :| NumberOk(n) && PrintNumber(n) == token;
      NumberIsWordLike(n);
    }
  }
}
