/** Token amounts as text: `formatTokenAmount` and its inverse on requests, `toBaseUnits`. */
module TokenAmounts {
  import opened Texts

  const ZERO: CodeUnit := 0x30
  const DOT: CodeUnit := 0x2E
  const REQUEST_DECIMALS := 6

  predicate AllDigits(t: Text) { forall i :: 0 <= i < |t| ==> IsDigit(t[i]) }

  function Zeros(n: nat): (t: Text)
    ensures |t| == n && forall i :: 0 <= i < n ==> t[i] == ZERO
  {
    seq(n, _ => ZERO)
  }

  function PadStart(t: Text, n: nat): Text { if |t| >= n then t else Zeros(n - |t|) + t }

  function PadEnd(t: Text, n: nat): Text { if |t| >= n then t else t + Zeros(n - |t|) }

  /** `replace(/0+$/, "")`. */
  function TrimZeros(t: Text): Text {
    if t != [] && t[|t| - 1] == ZERO then TrimZeros(t[..|t| - 1]) else t
  }

  function FormatTokenAmount(amount: Text, decimals: nat): Text {
    if decimals == 0 then amount
    else
      var padded := PadStart(amount, decimals + 1);
      var cut := |padded| - decimals;
      var fraction := TrimZeros(padded[cut..]);
      if fraction == [] then padded[..cut] else padded[..cut] + [DOT] + fraction
  }

  /** The piece in front of the first dot. */
  function FirstPiece(t: Text): Text {
    if t == [] || t[0] == DOT then [] else [t[0]] + FirstPiece(t[1..])
  }

  /** The piece between the first dot and the next. */
  function SecondPiece(t: Text): Text {
    if t == [] then [] else if t[0] == DOT then FirstPiece(t[1..]) else SecondPiece(t[1..])
  }

  /** `BigInt(t).toString()` for a string of digits. */
  function Canonical(t: Text): Text
    requires AllDigits(t)
  {
    Decimal(Value(t))
  }

  /** `amountPattern`: up to 18 digits without a leading zero, and up to 6 decimals. */
  predicate AmountPattern(t: Text) {
    var integer, fraction := FirstPiece(t), SecondPiece(t);
    && AllDigits(integer) && AllDigits(fraction)
    && 1 <= |integer| <= 18 && (|integer| > 1 ==> integer[0] != ZERO)
    && (t == integer || (t == integer + [DOT] + fraction && 1 <= |fraction| <= REQUEST_DECIMALS))
  }

  function ToBaseUnits(t: Text): Text
    requires AllDigits(FirstPiece(t)) && AllDigits(SecondPiece(t))
  {
    Canonical(FirstPiece(t) + PadEnd(SecondPiece(t), REQUEST_DECIMALS))
  }

  // ------------------------------------------------------------------ splitting

  lemma {:induction false} NoDot(t: Text)
    requires AllDigits(t)
    ensures FirstPiece(t) == t && SecondPiece(t) == []
  {
    if t != [] {
      NoDot(t[1..]);
      assert t == [t[0]] + t[1..];
    }
  }

  lemma {:induction false} OneDot(integer: Text, fraction: Text)
    requires AllDigits(integer) && AllDigits(fraction)
    ensures FirstPiece(integer + [DOT] + fraction) == integer && SecondPiece(integer + [DOT] + fraction) == fraction
  {
    var t := integer + [DOT] + fraction;
    if integer == [] {
      assert t[1..] == fraction;
      NoDot(fraction);
    } else {
      assert t[1..] == integer[1..] + [DOT] + fraction;
      OneDot(integer[1..], fraction);
      assert integer == [integer[0]] + integer[1..];
    }
  }

  // ------------------------------------------------------------------ padding and trimming

  lemma {:induction false} TrimRestores(t: Text)
    ensures |TrimZeros(t)| <= |t| && t == TrimZeros(t) + Zeros(|t| - |TrimZeros(t)|)
    ensures TrimZeros(t) != [] ==> TrimZeros(t)[|TrimZeros(t)| - 1] != ZERO
  {
    if t != [] && t[|t| - 1] == ZERO {
      var init := t[..|t| - 1];
      TrimRestores(init);
      assert t == init + [ZERO];
      assert Zeros(|t| - |TrimZeros(t)|) == Zeros(|init| - |TrimZeros(init)|) + [ZERO];
    }
  }

  lemma {:induction false} LeadingZeros(n: nat, t: Text)
    requires AllDigits(t)
    ensures AllDigits(Zeros(n) + t) && Value(Zeros(n) + t) == Value(t)
    decreases |t| + n
  {
    var s := Zeros(n) + t;
    if t != [] {
      LeadingZeros(n, t[..|t| - 1]);
      assert s[..|s| - 1] == Zeros(n) + t[..|t| - 1];
    } else if n > 0 {
      LeadingZeros(n - 1, []);
      assert s[..|s| - 1] == Zeros(n - 1) + [];
    } else {
      assert s == [];
    }
  }

  /** Restoring the trimmed zeros gives the padded digits back. */
  lemma PadRestores(t: Text)
    requires |t| == REQUEST_DECIMALS
    ensures PadEnd(TrimZeros(t), REQUEST_DECIMALS) == t
  {
    TrimRestores(t);
    assert Zeros(0) == [];
  }

  /** The digits of an amount, padded to one integer digit at least. */
  function Padded(n: nat): Text { PadStart(Decimal(n), REQUEST_DECIMALS + 1) }

  lemma PaddedIsAmount(n: nat)
    ensures AllDigits(Padded(n)) && Value(Padded(n)) == n && |Padded(n)| > REQUEST_DECIMALS
    ensures |Padded(n)| > REQUEST_DECIMALS + 1 ==> Padded(n)[0] != ZERO
  {
    ValueOfDecimal(n);
    LeadingZeros(if |Decimal(n)| < 7 then 7 - |Decimal(n)| else 0, Decimal(n));
  }

  lemma SplitsAgain(integer: Text, fraction: Text)
    requires AllDigits(integer) && AllDigits(fraction)
    ensures var t := if fraction == [] then integer else integer + [DOT] + fraction; FirstPiece(t) == integer && SecondPiece(t) == fraction
  {
    NoDot(integer);
    OneDot(integer, fraction);
  }

  lemma TrimmedDigits(t: Text)
    requires AllDigits(t)
    ensures AllDigits(TrimZeros(t))
  {
    TrimRestores(t);
    var s := TrimZeros(t);
    assert forall i :: 0 <= i < |s| ==> s[i] == (s + Zeros(|t| - |s|))[i];
  }

  /** The two pieces of a formatted amount. */
  lemma FormattedPieces(n: nat)
    ensures var t, cut := FormatTokenAmount(Decimal(n), REQUEST_DECIMALS), |Padded(n)| - REQUEST_DECIMALS;
      && FirstPiece(t) == Padded(n)[..cut] && SecondPiece(t) == TrimZeros(Padded(n)[cut..])
      && AllDigits(FirstPiece(t)) && AllDigits(SecondPiece(t))
      && t == (if SecondPiece(t) == [] then FirstPiece(t) else FirstPiece(t) + [DOT] + SecondPiece(t))
  {
    PaddedIsAmount(n);
    var cut := |Padded(n)| - REQUEST_DECIMALS;
    TrimmedDigits(Padded(n)[cut..]);
    SplitsAgain(Padded(n)[..cut], TrimZeros(Padded(n)[cut..]));
  }

  // ------------------------------------------------------------------ the round trip

  /** Reading a formatted amount gives the base units back, whatever the amount. */
  lemma FormatReads(n: nat)
    ensures var t := FormatTokenAmount(Decimal(n), REQUEST_DECIMALS);
      && AllDigits(FirstPiece(t)) && AllDigits(SecondPiece(t))
      && ToBaseUnits(t) == Decimal(n)
  {
    FormattedPieces(n);
    PaddedIsAmount(n);
    var cut := |Padded(n)| - REQUEST_DECIMALS;
    PadRestores(Padded(n)[cut..]);
    assert Padded(n)[..cut] + Padded(n)[cut..] == Padded(n);
  }

  /** A formatted amount is one a request may contain exactly when it has at most 24 digits. */
  lemma FormatMatchesPattern(n: nat)
    ensures AmountPattern(FormatTokenAmount(Decimal(n), REQUEST_DECIMALS)) <==> |Decimal(n)| <= 24
  {
    FormattedPieces(n);
    PaddedIsAmount(n);
    var cut := |Padded(n)| - REQUEST_DECIMALS;
    TrimRestores(Padded(n)[cut..]);
    assert cut > 1 ==> Padded(n)[..cut][0] == Padded(n)[0];
  }

  lemma {:induction false} DecimalOfValue(t: Text)
    requires AllDigits(t) && t != [] && (|t| > 1 ==> t[0] != ZERO)
    ensures Decimal(Value(t)) == t
    decreases |t|
  {
    var init := t[..|t| - 1];
    if init == [] {
      assert Value(init) == 0;
    } else {
      if |init| > 1 { assert init[0] == t[0]; }
      DecimalOfValue(init);
      ValuePositive(init);
      assert t == init + [t[|t| - 1]];
    }
  }

  lemma {:induction false} ValuePositive(t: Text)
    requires AllDigits(t) && t != [] && t[0] != ZERO
    ensures Value(t) > 0
    decreases |t|
  {
    if |t| > 1 { ValuePositive(t[..|t| - 1]); }
  }

  /** Leading zeros in front of the canonical digits, or of a single last zero. */
  lemma {:induction false} StripZeros(t: Text) returns (k: nat)
    requires AllDigits(t) && t != []
    ensures k < |t| && t == Zeros(k) + t[k..] && (|t[k..]| > 1 ==> t[k..][0] != ZERO)
    decreases |t|
  {
    if |t| > 1 && t[0] == ZERO {
      var rest := StripZeros(t[1..]);
      k := rest + 1;
      assert t[1..][rest..] == t[k..];
      assert t == [ZERO] + t[1..] && Zeros(k) == [ZERO] + Zeros(rest);
    } else {
      k := 0;
      assert Zeros(0) == [] && t[0..] == t;
    }
  }

  /** Digits of the padded length, or longer without a leading zero, are the padded digits of their value. */
  lemma PaddedOfValue(t: Text)
    requires AllDigits(t) && |t| > REQUEST_DECIMALS && (|t| > REQUEST_DECIMALS + 1 ==> t[0] != ZERO)
    ensures Padded(Value(t)) == t
  {
    var k := StripZeros(t);
    LeadingZeros(k, t[k..]);
    DecimalOfValue(t[k..]);
  }

  lemma {:induction false} TrimsZeros(t: Text, n: nat)
    ensures TrimZeros(t + Zeros(n)) == TrimZeros(t)
    decreases n
  {
    if n == 0 {
      assert t + Zeros(0) == t;
    } else {
      TrimsZeros(t, n - 1);
      var s := t + Zeros(n);
      assert s[..|s| - 1] == t + Zeros(n - 1);
    }
  }

  /** The other way round: formatting what a request says drops only the trailing zeros of its decimals. */
  lemma RequestFormats(t: Text)
    requires AmountPattern(t)
    ensures var fraction := TrimZeros(SecondPiece(t));
      FormatTokenAmount(ToBaseUnits(t), REQUEST_DECIMALS) == if fraction == [] then FirstPiece(t) else FirstPiece(t) + [DOT] + fraction
  {
    var integer, fraction := FirstPiece(t), PadEnd(SecondPiece(t), REQUEST_DECIMALS);
    var digits := integer + fraction;
    Fraction(t);
    assert digits[0] == integer[0];
    PaddedOfValue(digits);
    assert digits[..|integer|] == integer && digits[|integer|..] == fraction;
  }

  lemma Fraction(t: Text)
    requires AmountPattern(t)
    ensures |PadEnd(SecondPiece(t), REQUEST_DECIMALS)| == REQUEST_DECIMALS
    ensures TrimZeros(PadEnd(SecondPiece(t), REQUEST_DECIMALS)) == TrimZeros(SecondPiece(t))
  {
    if t == FirstPiece(t) { NoDot(t); }
    TrimsZeros(SecondPiece(t), REQUEST_DECIMALS - |SecondPiece(t)|);
  }
}
