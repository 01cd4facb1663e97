// The exact decimal parser of wallet amounts: which texts denote an amount,
// which amount, and that printing and parsing are inverse.
module ZecAmount {
  import opened Common
  import opened Text

  const U64_MAX: int := 0xFFFF_FFFF_FFFF_FFFF
  const ZATS_PER_ZEC: int := 100_000_000

  datatype AmountError = NotEightDecimals | OutOfRange

  /** `"".join(text.split())`. */
  function RemoveSpace(s: string): string {
    if s == "" then ""
    else if IsSpace(s[0]) then RemoveSpace(s[1..])
    else [s[0]] + RemoveSpace(s[1..])
  }

  function DigitRun(s: string): (n: nat)
    ensures n <= |s|
    ensures forall i :: 0 <= i < n ==> IsDigit(s[i])
    ensures n < |s| ==> !IsDigit(s[n])
  {
    if s == "" || !IsDigit(s[0]) then 0 else 1 + DigitRun(s[1..])
  }

  predicate FullMatch(s: string) {
    var n := DigitRun(s);
    && 0 < n
    && n + 9 <= |s|
    && s[n] == '.'
    && AllDigits(s[n + 1..n + 9])
    && AllLetters(s[n + 9..])
  }

  function ZecToZats(text: string): Result<nat, AmountError> {
    var compact := RemoveSpace(text);
    if !FullMatch(compact) then Err(NotEightDecimals) else
      var n := DigitRun(compact);
      var zats := Value(compact[..n]) * ZATS_PER_ZEC + Value(compact[n + 1..n + 9]);
      if zats <= U64_MAX then Ok(zats) else Err(OutOfRange)
  }

  // --------------------------------------------------------- what it accepts

  // One way to read a text as an amount: digits, a point, eight digits, a ticker.
  ghost predicate Reads(s: string, whole: string, frac: string, ticker: string) {
    && s == whole + "." + frac + ticker
    && whole != "" && AllDigits(whole)
    && |frac| == 8 && AllDigits(frac)
    && AllLetters(ticker)
  }

  ghost predicate HasReading(s: string) {
    exists whole, frac, ticker :: Reads(s, whole, frac, ticker)
  }

  lemma ReadingIsUnique(s: string, whole: string, frac: string, ticker: string)
    requires Reads(s, whole, frac, ticker)
    ensures FullMatch(s) && DigitRun(s) == |whole|
    ensures s[..|whole|] == whole && s[|whole| + 1..|whole| + 9] == frac && s[|whole| + 9..] == ticker
  {
    var n := DigitRun(s);
    assert s[|whole|] == '.';
    assert forall i :: 0 <= i < |whole| ==> s[i] == whole[i];
    assert s[..|whole|] == whole;
    assert s[|whole| + 1..|whole| + 9] == frac;
    assert s[|whole| + 9..] == ticker;
  }

  /** Every reading decides the result: the amount it denotes, or out of range. */
  lemma ReadingDecides(text: string, whole: string, frac: string, ticker: string)
    requires Reads(RemoveSpace(text), whole, frac, ticker)
    ensures var zats := Value(whole) * ZATS_PER_ZEC + Value(frac);
      ZecToZats(text) == if zats <= U64_MAX then Ok(zats) else Err(OutOfRange)
  {
    ReadingIsUnique(RemoveSpace(text), whole, frac, ticker);
  }

  lemma MatchIsReading(s: string)
    ensures FullMatch(s) <==> HasReading(s)
  {
    if FullMatch(s) {
      var n := DigitRun(s);
      assert s == s[..n] + "." + s[n + 1..n + 9] + s[n + 9..];
      assert Reads(s, s[..n], s[n + 1..n + 9], s[n + 9..]);
    }
    if whole, frac, ticker :| Reads(s, whole, frac, ticker) {
      ReadingIsUnique(s, whole, frac, ticker);
    }
  }

  /** A text is rejected for its shape exactly when it has no reading. */
  lemma ShapeErrorIff(text: string)
    ensures ZecToZats(text) == Err(NotEightDecimals) <==> !HasReading(RemoveSpace(text))
  {
    hide FullMatch, HasReading;
    MatchIsReading(RemoveSpace(text));
  }

  // -------------------------------------------------------------- round trip

  // The last `width` digits of `n`, with leading zeros.
  function Padded(n: nat, width: nat): (s: string)
    ensures |s| == width
    decreases width
  {
    if width == 0 then "" else Padded(n / 10, width - 1) + [Digit(n % 10)]
  }

  function Pow10(k: nat): nat {
    if k == 0 then 1 else 10 * Pow10(k - 1)
  }

  function Show(zats: nat): string {
    Decimal(zats / ZATS_PER_ZEC) + "." + Padded(zats % ZATS_PER_ZEC, 8)
  }

  lemma {:induction false} PaddedDenotes(n: nat, width: nat)
    requires n < Pow10(width)
    ensures AllDigits(Padded(n, width)) && Value(Padded(n, width)) == n
    decreases width
  {
    if width > 0 {
      PaddedDenotes(n / 10, width - 1);
      ValueSnoc(Padded(n / 10, width - 1), n % 10);
    }
  }

  lemma EightDigits()
    ensures Pow10(8) == ZATS_PER_ZEC
  {
    assert Pow10(4) == 10_000;
    assert Pow10(6) == 1_000_000;
  }

  /** Printed with any white space inside and any ticker behind it, an amount
      parses back; one above 64 bits is rejected as out of range. */
  lemma RoundTrip(zats: nat, ticker: string, text: string)
    requires AllLetters(ticker)
    requires RemoveSpace(text) == Show(zats) + ticker
    ensures ZecToZats(text) == if zats <= U64_MAX then Ok(zats) else Err(OutOfRange)
  {
    hide ZecToZats, RemoveSpace, Decimal, Padded, Value, Pow10;
    var whole, frac := zats / ZATS_PER_ZEC, zats % ZATS_PER_ZEC;
    EightDigits();
    DecimalDenotes(whole);
    PaddedDenotes(frac, 8);
    ReadingDecides(text, Decimal(whole), Padded(frac, 8), ticker);
  }

  lemma ConcatAssociates(a: string, b: string, c: string)
    ensures a + (b + c) == a + b + c
  {
  }

  lemma {:induction false} RemoveSpaceConcat(a: string, b: string)
    ensures RemoveSpace(a + b) == RemoveSpace(a) + RemoveSpace(b)
  {
    hide IsSpace;
    if a == "" {
      assert a + b == b;
    } else {
      RemoveSpaceConcat(a[1..], b);
      assert (a + b)[0] == a[0] && (a + b)[1..] == a[1..] + b;
      ConcatAssociates([a[0]], RemoveSpace(a[1..]), RemoveSpace(b));
    }
  }

  lemma CompactDecides(s: string, t: string)
    requires RemoveSpace(s) == RemoveSpace(t)
    ensures ZecToZats(s) == ZecToZats(t)
  {
  }

  /** White space may be inserted anywhere without changing the result. */
  lemma SpaceIsIgnored(a: string, space: string, b: string)
    requires forall i :: 0 <= i < |space| ==> IsSpace(space[i])
    ensures ZecToZats(a + space + b) == ZecToZats(a + b)
  {
    hide IsSpace, RemoveSpace, ZecToZats;
    RemoveSpaceConcat(a + space, b);
    RemoveSpaceConcat(a, space);
    RemoveSpaceConcat(a, b);
    OnlySpace(space);
    assert RemoveSpace(a) + "" == RemoveSpace(a);
    CompactDecides(a + space + b, a + b);
  }

  lemma {:induction false} OnlySpace(space: string)
    requires forall i :: 0 <= i < |space| ==> IsSpace(space[i])
    ensures RemoveSpace(space) == ""
  {
    if space != "" {
      OnlySpace(space[1..]);
    }
  }

  lemma {:induction false} NoSpace(s: string)
    requires forall i :: 0 <= i < |s| ==> !IsSpace(s[i])
    ensures RemoveSpace(s) == s
  {
    if s != "" {
      NoSpace(s[1..]);
    }
  }

  /** The plain printed form is one of the texts the round trip covers. */
  lemma PlainRoundTrip(zats: nat, ticker: string)
    requires AllLetters(ticker)
    ensures ZecToZats(Show(zats) + ticker) == if zats <= U64_MAX then Ok(zats) else Err(OutOfRange)
  {
    hide ZecToZats, Value, Decimal, Padded, Pow10, RemoveSpace;
    var s := Show(zats) + ticker;
    EightDigits();
    DecimalDenotes(zats / ZATS_PER_ZEC);
    PaddedDenotes(zats % ZATS_PER_ZEC, 8);
    forall i | 0 <= i < |s| ensures !IsSpace(s[i]) {
      assert IsDigit(s[i]) || s[i] == '.' || IsLetter(s[i]);
    }
    NoSpace(s);
    RoundTrip(zats, ticker, s);
  }
}
