// The bech32m checksum of a lowercase address (BIP 350): what it detects, and
// how many checksums it accepts. The register is 30 bits, six 5-bit symbols.
module Bech32m {
  type Word = bv30

  const CHARSET: string := "qpzry9x8gf2tvdw0s3jn54khce6mua7l"
  const BECH32M: Word := 0x2BC830A3
  const GENERATORS: seq<Word> := [0x3B6A57B2, 0x26508E6D, 0x1EA119FA, 0x3D4233DD, 0x2A1462B3]

  // ---------------------------------------------------------- the register

  function Xor(a: Word, b: Word): Word {
    a ^ b
  }

  function Shift(check: Word): Word {
    (check & 0x1FFFFFF) << 5
  }

  function High(check: Word): Word {
    check >> 25
  }

  predicate Bit(high: Word, bit: nat)
    requires bit < 5
  {
    (high >> bit) & 1 != 0
  }

  function Tap(high: Word, bit: nat): Word
    requires bit < 5
  {
    if Bit(high, bit) then GENERATORS[bit] else 0
  }

  /** What the lowest `n` of the five bits shifted out feed back. */
  function Feedback(high: Word, n: nat): Word
    requires n <= 5
    decreases n
  {
    if n == 0 then 0 else Xor(Feedback(high, n - 1), Tap(high, n - 1))
  }

  function Push(check: Word, value: Word): Word {
    Xor(Xor(Shift(check), value), Feedback(High(check), 5))
  }

  function PushAll(check: Word, values: seq<Word>): Word
    decreases |values|
  {
    if values == [] then check else Push(PushAll(check, values[..|values| - 1]), values[|values| - 1])
  }

  // ------------------------------------------------------------- linearity

  lemma XorAssociates(a: Word, b: Word, c: Word)
    ensures Xor(Xor(a, b), c) == Xor(a, Xor(b, c))
  {
  }

  lemma XorCommutes(a: Word, b: Word)
    ensures Xor(a, b) == Xor(b, a)
  {
  }

  lemma Interchange(a: Word, b: Word, c: Word, d: Word)
    ensures Xor(Xor(a, b), Xor(c, d)) == Xor(Xor(a, c), Xor(b, d))
  {
    hide Xor;
    XorAssociates(a, b, Xor(c, d));
    XorAssociates(b, c, d);
    XorCommutes(b, c);
    XorAssociates(c, b, d);
    XorAssociates(a, c, Xor(b, d));
  }

  lemma RawBitXor(a: Word, b: Word)
    ensures ((a ^ b) & 1 != 0) == ((a & 1 != 0) != (b & 1 != 0))
  {
  }

  lemma ShiftXor(a: Word, b: Word, bit: nat)
    requires bit < 5
    ensures (a ^ b) >> bit == (a >> bit) ^ (b >> bit)
  {
    if bit == 0 {
    } else if bit == 1 {
    } else if bit == 2 {
    } else if bit == 3 {
    } else {
    }
  }

  lemma BitXor(a: Word, b: Word, bit: nat)
    requires bit < 5
    ensures Bit(Xor(a, b), bit) == (Bit(a, bit) != Bit(b, bit))
  {
    ShiftXor(a, b, bit);
    RawBitXor(a >> bit, b >> bit);
  }

  lemma XorSame(a: Word)
    ensures Xor(a, a) == 0 && Xor(a, 0) == a && Xor(0, a) == a
  {
  }

  lemma TapLinear(a: Word, b: Word, bit: nat)
    requires bit < 5
    ensures Tap(Xor(a, b), bit) == Xor(Tap(a, bit), Tap(b, bit))
  {
    hide Xor, Bit;
    BitXor(a, b, bit);
    XorSame(GENERATORS[bit]);
    XorSame(0);
  }

  lemma {:induction false} FeedbackLinear(a: Word, b: Word, n: nat)
    requires n <= 5
    ensures Feedback(Xor(a, b), n) == Xor(Feedback(a, n), Feedback(b, n))
    decreases n
  {
    hide Xor, Tap;
    if n == 0 {
      XorSame(0);
    } else {
      FeedbackLinear(a, b, n - 1);
      TapLinear(a, b, n - 1);
      Interchange(Feedback(a, n - 1), Feedback(b, n - 1), Tap(a, n - 1), Tap(b, n - 1));
    }
  }

  lemma ShiftLinear(a: Word, b: Word)
    ensures Shift(Xor(a, b)) == Xor(Shift(a), Shift(b))
    ensures High(Xor(a, b)) == Xor(High(a), High(b))
  {
  }

  /** Pushing is linear: the difference of two registers evolves by itself. */
  lemma PushLinear(a: Word, b: Word, u: Word, v: Word)
    ensures Push(Xor(a, b), Xor(u, v)) == Xor(Push(a, u), Push(b, v))
  {
    hide Xor, Shift, High, Feedback;
    ShiftLinear(a, b);
    FeedbackLinear(High(a), High(b), 5);
    Interchange(Shift(a), Shift(b), u, v);
    Interchange(Xor(Shift(a), u), Xor(Shift(b), v), Feedback(High(a), 5), Feedback(High(b), 5));
  }

  function XorAll(us: seq<Word>, vs: seq<Word>): (ws: seq<Word>)
    requires |us| == |vs|
    ensures |ws| == |us|
    ensures forall i :: 0 <= i < |us| ==> ws[i] == Xor(us[i], vs[i])
  {
    seq(|us|, i requires 0 <= i < |us| => Xor(us[i], vs[i]))
  }

  lemma {:induction false} PushAllLinear(a: Word, b: Word, us: seq<Word>, vs: seq<Word>)
    requires |us| == |vs|
    ensures PushAll(Xor(a, b), XorAll(us, vs)) == Xor(PushAll(a, us), PushAll(b, vs))
    decreases |us|
  {
    hide Xor, Push;
    if us != [] {
      var n := |us| - 1;
      PushAllLinear(a, b, us[..n], vs[..n]);
      assert XorAll(us, vs)[..n] == XorAll(us[..n], vs[..n]);
      PushLinear(PushAll(a, us[..n]), PushAll(b, vs[..n]), us[n], vs[n]);
    } else {
      assert vs == [] && XorAll(us, vs) == [];
    }
  }

  // One turn of the inner loop of the checksum.
  lemma FoldTap(shifted: Word, high: Word, bit: nat)
    requires bit < 5
    ensures Xor(shifted, Feedback(high, bit + 1))
         == if Bit(high, bit) then Xor(Xor(shifted, Feedback(high, bit)), GENERATORS[bit])
            else Xor(shifted, Feedback(high, bit))
  {
    hide Xor, Bit;
    XorAssociates(shifted, Feedback(high, bit), Tap(high, bit));
    XorSame(Xor(shifted, Feedback(high, bit)));
  }

  // ------------------------------------------------------------- detection

  lemma FeedbackSum(h: Word)
    ensures Feedback(h, 5) == Xor(Xor(Xor(Xor(Tap(h, 0), Tap(h, 1)), Tap(h, 2)), Tap(h, 3)), Tap(h, 4))
    ensures h == 0 ==> Feedback(h, 5) == 0
  {
    assert Feedback(h, 0) == 0;
    assert Feedback(h, 1) == Tap(h, 0) by { XorSame(Tap(h, 0)); }
    assert Feedback(h, 2) == Xor(Tap(h, 0), Tap(h, 1));
    assert Feedback(h, 3) == Xor(Xor(Tap(h, 0), Tap(h, 1)), Tap(h, 2));
    assert Feedback(h, 4) == Xor(Xor(Xor(Tap(h, 0), Tap(h, 1)), Tap(h, 2)), Tap(h, 3));
    if h == 0 {
      XorSame(0);
    }
  }

  // The feedback of a nonzero symbol shows in the low symbol, so nothing is lost.
  lemma PushKeepsDifference(a: Word)
    requires Push(a, 0) == 0
    ensures a == 0
  {
    FeedbackSum(High(a));
  }

  function Limit(k: nat): Word
    requires k <= 5
  {
    if k == 0 then 1 else if k == 1 then 0x20 else if k == 2 then 0x400
    else if k == 3 then 0x8000 else if k == 4 then 0x100000 else 0x2000000
  }

  // Six pushes into an empty register only line the symbols up.
  lemma PushSmall(check: Word, value: Word)
    requires check < 0x2000000 && value < 32
    ensures Push(check, value) == (check << 5) | value
  {
    FeedbackSum(High(check));
    assert High(check) == 0;
  }

  lemma PushSmallBound(check: Word, value: Word, k: nat)
    requires k <= 5 && check < Limit(k) && value < 32
    ensures k < 5 ==> Push(check, value) < Limit(k + 1)
    ensures Push(check, value) == 0 ==> check == 0 && value == 0
  {
    PushSmall(check, value);
  }

  lemma {:induction false} PushAllConcat(check: Word, us: seq<Word>, vs: seq<Word>)
    ensures PushAll(check, us + vs) == PushAll(PushAll(check, us), vs)
    decreases |vs|
  {
    hide Push;
    if vs == [] {
      assert us + vs == us;
    } else {
      var n := |vs| - 1;
      PushAllConcat(check, us, vs[..n]);
      assert (us + vs)[..|us| + n] == us + vs[..n];
    }
  }

  predicate AllZero(values: seq<Word>) {
    forall i :: 0 <= i < |values| ==> values[i] == 0
  }

  predicate AllSymbols(values: seq<Word>) {
    forall i :: 0 <= i < |values| ==> values[i] < 32
  }

  lemma PushZero()
    ensures Push(0, 0) == 0
  {
    PushSmall(0, 0);
  }

  lemma {:induction false} ZerosLoseNothing(check: Word, values: seq<Word>)
    requires AllZero(values)
    ensures PushAll(check, values) == 0 <==> check == 0
    decreases |values|
  {
    hide Push;
    if values != [] {
      var n := |values| - 1;
      ZerosLoseNothing(check, values[..n]);
      PushZero();
      if PushAll(check, values) == 0 {
        PushKeepsDifference(PushAll(check, values[..n]));
      }
    }
  }

  lemma {:induction false} SixSymbolsShow(values: seq<Word>)
    requires |values| <= 6 && AllSymbols(values)
    ensures |values| <= 5 ==> PushAll(0, values) < Limit(|values|)
    ensures PushAll(0, values) == 0 ==> AllZero(values)
    decreases |values|
  {
    hide Push, Limit;
    if values == [] {
      LimitOfNothing();
    } else {
      var n := |values| - 1;
      var front := values[..n];
      assert AllSymbols(front) && values[n] < 32;
      SixSymbolsShow(front);
      PushSmallBound(PushAll(0, front), values[n], n);
      if PushAll(0, values) == 0 {
        assert forall i :: 0 <= i < n ==> values[i] == front[i];
      }
    }
  }

  lemma LimitOfNothing()
    ensures 0 < Limit(0)
  {
  }

  predicate AgreeOutside<T(==)>(us: seq<T>, vs: seq<T>, low: nat, high: nat) {
    && |us| == |vs|
    && low <= high <= |us|
    && forall i :: 0 <= i < |us| && !(low <= i < high) ==> us[i] == vs[i]
  }

  // A difference confined to six consecutive symbols reaches the final register.
  lemma WindowShows(values: seq<Word>, low: nat, high: nat)
    requires low <= high <= |values| && high - low <= 6
    requires AllZero(values[..low]) && AllZero(values[high..])
    requires AllSymbols(values[low..high])
    requires PushAll(0, values) == 0
    ensures AllZero(values)
  {
    hide Push, PushAll;
    var first, window, last := values[..low], values[low..high], values[high..];
    assert values == (first + window) + last;
    PushAllConcat(0, first + window, last);
    ZerosLoseNothing(PushAll(0, first + window), last);
    PushAllConcat(0, first, window);
    ZerosLoseNothing(0, first);
    assert PushAll(0, first) == 0 && PushAll(0, window) == 0;
    SixSymbolsShow(window);
    assert AllZero(window);
    forall i | 0 <= i < |values| ensures values[i] == 0 {
      assert values[i] == if i < low then first[i] else if i < high then window[i - low] else last[i - high];
    }
  }

  lemma XorSmall(a: Word, b: Word)
    ensures a < 32 && b < 32 ==> Xor(a, b) < 32
    ensures Xor(a, b) == 0 <==> a == b
  {
  }

  /** Two value lists of one length that differ only inside six consecutive
      symbols never leave the register in the same state. */
  lemma WindowDetected(us: seq<Word>, vs: seq<Word>, low: nat, high: nat)
    requires AgreeOutside(us, vs, low, high) && high - low <= 6
    requires forall i :: low <= i < high ==> us[i] < 32 && vs[i] < 32
    requires PushAll(1, us) == PushAll(1, vs)
    ensures us == vs
  {
    hide Xor, PushAll;
    var ds := XorAll(us, vs);
    forall i | 0 <= i < |us|
      ensures ds[i] == 0 <==> us[i] == vs[i]
      ensures low <= i < high ==> ds[i] < 32
    {
      XorSmall(us[i], vs[i]);
    }
    PushAllLinear(1, 1, us, vs);
    XorSame(1);
    XorSame(PushAll(1, us));
    WindowShows(ds, low, high);
  }

  // --------------------------------------------------------- construction

  function Drop(word: Word): Word {
    word >> 5
  }

  function Low(word: Word): Word {
    word & 31
  }

  function Unpack(word: Word): (values: seq<Word>)
    ensures |values| == 6
  {
    var e := Drop(word);
    var d := Drop(e);
    var c := Drop(d);
    var b := Drop(c);
    [Drop(b), Low(b), Low(c), Low(d), Low(e), Low(word)]
  }

  lemma PushAllSnoc(check: Word, values: seq<Word>, value: Word)
    ensures PushAll(check, values + [value]) == Push(PushAll(check, values), value)
  {
    assert (values + [value])[..|values|] == values;
  }

  lemma PushNothing(check: Word)
    ensures PushAll(check, []) == check
  {
  }

  // Six pushes into an empty register, naming every state it passes.
  lemma PushChain(a: Word, b: Word, c: Word, d: Word, e: Word, f: Word, p: Word, q: Word, r: Word, s: Word, t: Word)
    requires Push(0, a) == a && Push(a, b) == p && Push(p, c) == q && Push(q, d) == r && Push(r, e) == s
    requires Push(s, f) == t
    ensures PushAll(0, [a, b, c, d, e, f]) == t
  {
    hide Push, PushAll;
    PushNothing(0);
    PushAllSnoc(0, [], a);
    PushAllSnoc(0, [a], b);
    PushAllSnoc(0, [a, b], c);
    PushAllSnoc(0, [a, b, c], d);
    PushAllSnoc(0, [a, b, c, d], e);
    PushAllSnoc(0, [a, b, c, d, e], f);
    assert [a] + [b] == [a, b] && [] + [a] == [a];
    assert [a, b] + [c] == [a, b, c];
    assert [a, b, c] + [d] == [a, b, c, d];
    assert [a, b, c, d] + [e] == [a, b, c, d, e];
    assert [a, b, c, d, e] + [f] == [a, b, c, d, e, f];
  }

  lemma Rejoin(word: Word)
    ensures Low(word) < 32
    ensures Push(Drop(word), Low(word)) == word
  {
    PushSmall(Drop(word), Low(word));
  }

  lemma TopSymbol(word: Word)
    ensures Drop(Drop(Drop(Drop(Drop(word))))) < 32
  {
  }

  lemma PushSymbol(value: Word)
    requires value < 32
    ensures Push(0, value) == value
  {
    PushSmall(0, value);
  }

  lemma UnpackPushes(word: Word)
    ensures AllSymbols(Unpack(word))
    ensures PushAll(0, Unpack(word)) == word
  {
    hide Push, PushAll, Drop, Low;
    var e := Drop(word);
    var d := Drop(e);
    var c := Drop(d);
    var b := Drop(c);
    var a := Drop(b);
    TopSymbol(word);
    PushSymbol(a);
    Rejoin(b);
    Rejoin(c);
    Rejoin(d);
    Rejoin(e);
    Rejoin(word);
    PushChain(a, Low(b), Low(c), Low(d), Low(e), Low(word), b, c, d, e, word);
  }

  const SIX_ZEROS: seq<Word> := [0, 0, 0, 0, 0, 0]

  /** The six symbols that bring the register from `check` to the constant. */
  function Closing(check: Word): (values: seq<Word>)
    ensures |values| == 6
  {
    Unpack(Xor(PushAll(check, SIX_ZEROS), BECH32M))
  }

  lemma ClosingCloses(check: Word)
    ensures AllSymbols(Closing(check))
    ensures PushAll(check, Closing(check)) == BECH32M
  {
    hide Xor, PushAll, Unpack;
    var rest := PushAll(check, SIX_ZEROS);
    UnpackPushes(Xor(rest, BECH32M));
    PushAllLinear(check, 0, SIX_ZEROS, Closing(check));
    XorSame(check);
    XorZeros(SIX_ZEROS, Closing(check));
    XorAssociates(rest, rest, BECH32M);
    XorSame(rest);
    XorSame(BECH32M);
  }

  lemma XorZeros(zeros: seq<Word>, values: seq<Word>)
    requires |zeros| == |values| && AllZero(zeros)
    ensures XorAll(zeros, values) == values
  {
    hide Xor;
    forall i | 0 <= i < |values| ensures XorAll(zeros, values)[i] == values[i] {
      XorSame(values[i]);
    }
  }
}
