/** What the regular expression dumpNumber matches, by its parts. */
module NumberSyntax {
  import opened Text
  import opened ValuesAutomaton

  predicate Digits(s: string) {
    forall k :: 0 <= k < |s| ==> IsDigit(s[k])
  }

  predicate Sign(s: string) {
    s == "" || IsSign(s)
  }

  /** Nothing, or an e, a sign that may be missing, and digits. */
  ghost predicate Exponent(s: string) {
    s == "" || exists sign: string, digits: string :: IsExponentOf(s, sign, digits)
  }

  predicate IsExponentOf(s: string, sign: string, digits: string) {
    s != "" && (s[0] == 'e' || s[0] == 'E') && s[1..] == sign + digits && Sign(sign) && digits != "" && Digits(digits)
  }

  /** The parts of a number: digits on one side of the point at least, and a fraction only after it. */
  datatype Parts = Parts(sign: string, whole: string, point: bool, fraction: string, exponent: string) {
    function Text(): string {
      sign + (whole + (if point then "." else "") + fraction) + exponent
    }

    ghost predicate Valid() {
      && Sign(sign) && Digits(whole) && Digits(fraction) && Exponent(exponent)
      && (whole != "" || fraction != "") && (fraction != "" ==> point)
    }
  }

  lemma {:induction false} DigitsEndIs(w: string, i: nat, e: nat)
    requires i <= e <= |w| && (forall k :: i <= k < e ==> IsDigit(w[k])) && (e < |w| ==> !IsDigit(w[e]))
    ensures DigitsEnd(w, i) == e
    decreases e - i
  {
    if i < e {
      DigitsEndIs(w, i + 1, e);
    }
  }

  lemma DigitsBetween(w: string, i: nat, e: nat)
    requires i <= e <= |w|
    ensures Digits(w[i..e]) <==> forall k :: i <= k < e ==> IsDigit(w[k])
  {
    if Digits(w[i..e]) {
      forall k | i <= k < e ensures IsDigit(w[k]) {
        assert w[i..e][k - i] == w[k];
      }
    }
  }

  // -------------------------------------------------- from a number to its parts

  lemma ExponentHasParts(w: string, m: nat)
    requires m < |w| && IsExponent(w, m)
    ensures Exponent(w[m..])
  {
    var d := if m + 1 < |w| && (w[m + 1] == '+' || w[m + 1] == '-') then m + 2 else m + 1;
    var s := w[m..];
    assert s[1..] == w[m + 1..d] + w[d..];
    if d == m + 1 {
      assert w[m + 1..d] == "";
    } else {
      assert w[m + 1..d] == [w[m + 1]];
    }
    DigitsBetween(w, d, |w|);
    assert w[d..|w|] == w[d..];
    assert IsExponentOf(s, w[m + 1..d], w[d..]);
  }

  lemma MantissaHasParts(w: string, s: nat) returns (whole: string, point: bool, fraction: string)
    requires s <= |w| && MantissaEnd(w, s) > s
    ensures w[s..MantissaEnd(w, s)] == whole + (if point then "." else "") + fraction
    ensures Digits(whole) && Digits(fraction) && (whole != "" || fraction != "") && (fraction != "" ==> point)
  {
    var d, m := DigitsEnd(w, s), MantissaEnd(w, s);
    whole, point := w[s..d], m > d;
    fraction := if point then w[d + 1..m] else "";
    DigitsBetween(w, s, d);
    if point {
      DigitsBetween(w, d + 1, m);
      assert w[s..m] == w[s..d] + [w[d]] + w[d + 1..m];
    } else {
      assert w[s..m] == whole + "" + fraction;
    }
  }

  lemma NumberHasParts(w: string) returns (p: Parts)
    requires IsNumber(w)
    ensures p.Valid() && w == p.Text()
  {
    var s := if |w| > 0 && (w[0] == '+' || w[0] == '-') then 1 else 0;
    var m := MantissaEnd(w, s);
    var whole, point, fraction := MantissaHasParts(w, s);
    assert m == |w| ==> w[m..] == "";
    p := Parts(w[..s], whole, point, fraction, w[m..]);
    if m < |w| {
      ExponentHasParts(w, m);
    }
    hide Exponent, MantissaEnd, IsExponent, Digits;
    if s == 0 {
      assert w[..s] == "";
    } else {
      assert w[..s] == [w[0]];
    }
    Concatenated(w, s, m);
  }

  lemma Concatenated(w: string, s: nat, m: nat)
    requires s <= m <= |w|
    ensures w == w[..s] + w[s..m] + w[m..]
  {
  }

  // -------------------------------------------------- from the parts to the number

  lemma PartsExponent(w: string, m: nat)
    requires m < |w| && Exponent(w[m..])
    ensures IsExponent(w, m)
  {
    var s := w[m..];
    var sign, digits :| IsExponentOf(s, sign, digits);
    var d := m + 1 + |sign|;
    assert s[1..] == w[m + 1..];
    assert w[d..] == w[m + 1..][|sign|..] == digits;
    assert w[d] == digits[0];
    if sign != "" {
      assert w[m + 1] == w[m + 1..][0] == sign[0];
    } else {
      assert d == m + 1;
    }
    assert w[d..|w|] == w[d..];
    DigitsBetween(w, d, |w|);
    DigitsEndIs(w, d, |w|);
  }

  lemma PartsMantissa(w: string, s: nat, m: nat, whole: string, point: bool, fraction: string)
    requires s <= m <= |w| && w[s..m] == whole + (if point then "." else "") + fraction
    requires Digits(whole) && Digits(fraction) && (whole != "" || fraction != "") && (fraction != "" ==> point)
    requires m < |w| ==> !IsDigit(w[m]) && w[m] != '.'
    ensures MantissaEnd(w, s) == m > s
  {
    var d := s + |whole|;
    var t := w[s..m];
    assert w[s..d] == t[..|whole|] == whole;
    DigitsBetween(w, s, d);
    if point {
      assert w[d] == t[|whole|] == '.';
      assert w[d + 1..m] == t[|whole| + 1..] == fraction;
      DigitsBetween(w, d + 1, m);
      DigitsEndIs(w, d + 1, m);
    } else {
      assert d == m;
    }
    DigitsEndIs(w, s, d);
  }

  /** Where the parts stand in the word. */
  lemma PartsStand(sign: string, mantissa: string, exponent: string)
    requires mantissa != ""
    ensures var w := sign + mantissa + exponent;
            var s, m := |sign|, |sign| + |mantissa|;
            && w[s..m] == mantissa && w[m..] == exponent && w[s] == mantissa[0]
            && (sign != "" ==> w[0] == sign[0]) && (exponent != "" ==> w[m] == exponent[0])
  {
  }

  lemma PartsAreNumber(p: Parts)
    requires p.Valid()
    ensures IsNumber(p.Text())
  {
    hide Digits, Exponent, MantissaEnd, IsExponent;
    var w := p.Text();
    var mantissa := p.whole + (if p.point then "." else "") + p.fraction;
    var s := |p.sign|;
    var m := s + |mantissa|;
    PartsStand(p.sign, mantissa, p.exponent);
    MantissaStarts(p.whole, p.point, p.fraction);
    if m < |w| {
      PartsExponent(w, m);
      ExponentStarts(p.exponent);
    }
    PartsMantissa(w, s, m, p.whole, p.point, p.fraction);
  }

  lemma MantissaStarts(whole: string, point: bool, fraction: string)
    requires Digits(whole) && (whole != "" || fraction != "") && (fraction != "" ==> point)
    ensures var m := whole + (if point then "." else "") + fraction;
            m != "" && m[0] != '+' && m[0] != '-'
  {
  }

  lemma ExponentStarts(e: string)
    requires Exponent(e) && e != ""
    ensures e[0] == 'e' || e[0] == 'E'
  {
  }

  /** A word is a number exactly when it has a sign that may be missing, digits, a fraction that may
      be missing and an exponent that may be missing. */
  lemma NumberIsItsParts(w: string)
    ensures IsNumber(w) <==> exists p: Parts :: p.Valid() && w == p.Text()
  {
    if IsNumber(w) {
      var p := NumberHasParts(w);
    }
    if p: Parts :| p.Valid() && w == p.Text() {
      PartsAreNumber(p);
    }
  }
}
