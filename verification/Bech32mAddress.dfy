// `bech32m_ok`: which strings are accepted, that the nested loops compute the
// register of module Bech32m, and what the checksum guarantees about addresses.
module Bech32mAddress {
  import opened Text
  import opened Bech32m

  // ------------------------------------------------------------- alphabets

  predicate IsPlain(c: char) {
    'a' <= c <= 'z' || IsDigit(c)
  }

  predicate AllPlain(s: string) {
    forall i :: 0 <= i < |s| ==> IsPlain(s[i])
  }

  predicate AllCharset(s: string) {
    forall i :: 0 <= i < |s| ==> s[i] in CHARSET
  }

  // `str.index`: the first position of a character.
  function IndexOf(s: string, c: char): (k: nat)
    requires c in s
    ensures k < |s| && s[k] == c
    ensures c !in s[..k]
  {
    if s[0] == c then 0 else 1 + IndexOf(s[1..], c)
  }

  function SymbolOf(c: char): (value: Word)
    requires c in CHARSET
  {
    IndexOf(CHARSET, c) as Word
  }

  function CharOf(value: Word): (c: char)
    requires value < 32
  {
    CHARSET[value as int]
  }

  lemma SmallWord(k: nat)
    requires k < 32
    ensures (k as Word) < 32
    ensures (k as Word) as int == k
  {
    var small := k as bv5;
    assert small as int == k;
  }

  lemma SymbolIsSmall(c: char)
    requires c in CHARSET
    ensures SymbolOf(c) < 32
  {
    SmallWord(IndexOf(CHARSET, c));
  }

  lemma SymbolDetermines(c: char, d: char)
    requires c in CHARSET && d in CHARSET
    ensures SymbolOf(c) == SymbolOf(d) ==> c == d
  {
    SmallWord(IndexOf(CHARSET, c));
    SmallWord(IndexOf(CHARSET, d));
  }

  // The position of each character, read off the table.
  ghost function Rank(c: char): int {
    match c
    case 'q' => 0 case 'p' => 1 case 'z' => 2 case 'r' => 3 case 'y' => 4 case '9' => 5 case 'x' => 6 case '8' => 7
    case 'g' => 8 case 'f' => 9 case '2' => 10 case 't' => 11
    case 'v' => 12 case 'd' => 13 case 'w' => 14 case '0' => 15
    case 's' => 16 case '3' => 17 case 'j' => 18 case 'n' => 19
    case '5' => 20 case '4' => 21 case 'k' => 22 case 'h' => 23
    case 'c' => 24 case 'e' => 25 case '6' => 26 case 'm' => 27
    case 'u' => 28 case 'a' => 29 case '7' => 30 case 'l' => 31
    case _ => -1
  }

  lemma RankAt(k: nat)
    requires k < 32
    ensures Rank(CHARSET[k]) == k
  {
  }

  lemma CharHasSymbol(value: Word)
    requires value < 32
    ensures CharOf(value) in CHARSET && SymbolOf(CharOf(value)) == value
  {
    hide Rank;
    RankAt(value as int);
    RankAt(IndexOf(CHARSET, CharOf(value)));
  }

  lemma CharsetIsPlain(c: char)
    requires c in CHARSET
    ensures IsPlain(c) && c != '1'
  {
  }

  // ------------------------------------------------------------- acceptance

  /** Where `rpartition("1")` splits: the last separator, or -1 without one. */
  function LastOne(s: string): (k: int)
    ensures -1 <= k < |s|
    ensures k >= 0 ==> s[k] == '1'
    ensures forall i :: k < i < |s| ==> s[i] != '1'
  {
    if s == "" then -1
    else if s[|s| - 1] == '1' then |s| - 1
    else LastOne(s[..|s| - 1])
  }

  function Classes(hrp: string): (values: seq<Word>)
    requires AllPlain(hrp)
    ensures |values| == |hrp|
  {
    seq(|hrp|, i requires 0 <= i < |hrp| => (hrp[i] as int / 32) as Word)
  }

  function Letters(hrp: string): (values: seq<Word>)
    requires AllPlain(hrp)
    ensures |values| == |hrp|
  {
    seq(|hrp|, i requires 0 <= i < |hrp| => (hrp[i] as int % 32) as Word)
  }

  function Symbols(data: string): (values: seq<Word>)
    requires AllCharset(data)
    ensures |values| == |data|
    ensures forall i :: 0 <= i < |data| ==> values[i] == SymbolOf(data[i])
  {
    seq(|data|, i requires 0 <= i < |data| => SymbolOf(data[i]))
  }

  /** The human-readable part, expanded as the checksum reads it. */
  function Expand(hrp: string): (values: seq<Word>)
    requires AllPlain(hrp)
    ensures |values| == 2 * |hrp| + 1
  {
    Classes(hrp) + [0] + Letters(hrp)
  }

  predicate AcceptsParts(hrp: string, data: string, expected: string) {
    && hrp != ""
    && hrp == expected
    && |data| >= 6
    && AllPlain(hrp)
    && AllCharset(data)
    && PushAll(1, Expand(hrp) + Symbols(data)) == BECH32M
  }

  predicate Accepts(address: string, expected: string) {
    var k := LastOne(address);
    && AllPlain(address)
    && 0 <= k
    && AcceptsParts(address[..k], address[k + 1..], expected)
  }

  // ------------------------------------------------------------- the loops

  // One value enters the register; the inner loop folds in what five bits feed back.
  method Absorb(check: Word, value: Word) returns (next: Word)
    ensures next == Push(check, value)
  {
    hide Xor, Bit, Shift, High, Tap;
    var high := High(check);
    next := Xor(Shift(check), value);
    ghost var shifted := next;
    XorSame(shifted);
    for bit := 0 to 5
      invariant next == Xor(shifted, Feedback(high, bit))
    {
      FoldTap(shifted, high, bit);
      if Bit(high, bit) {
        next := Xor(next, GENERATORS[bit]);
      }
    }
  }

  method Checksum(values: seq<Word>) returns (check: Word)
    ensures check == PushAll(1, values)
  {
    hide Push;
    check := 1;
    for n := 0 to |values|
      invariant check == PushAll(1, values[..n])
    {
      PushAllSnoc(1, values[..n], values[n]);
      assert values[..n + 1] == values[..n] + [values[n]];
      check := Absorb(check, values[n]);
    }
    assert values[..|values|] == values;
  }

  method ChecksumOk(address: string, expected: string) returns (ok: bool)
    ensures ok == Accepts(address, expected)
  {
    hide PushAll, Expand, Symbols, IsPlain;
    for i := 0 to |address|
      invariant AllPlain(address[..i])
    {
      if !IsPlain(address[i]) {
        return false;
      }
    }
    assert address[..|address|] == address;
    var k := LastOne(address);
    if k < 0 {
      return false;
    }
    var hrp, data := address[..k], address[k + 1..];
    if hrp == "" || hrp != expected || |data| < 6 {
      return false;
    }
    for i := 0 to |data|
      invariant AllCharset(data[..i])
    {
      if data[i] !in CHARSET {
        return false;
      }
    }
    assert data[..|data|] == data;
    var check := Checksum(Expand(hrp) + Symbols(data));
    return check == BECH32M;
  }

  // ------------------------------------------------------------ guarantees

  lemma SymbolsAreSmall(data: string)
    requires AllCharset(data)
    ensures AllSymbols(Symbols(data))
  {
    forall i | 0 <= i < |data| ensures Symbols(data)[i] < 32 {
      SymbolIsSmall(data[i]);
    }
  }

  lemma SymbolsDetermine(x: string, y: string)
    requires AllCharset(x) && AllCharset(y)
    requires Symbols(x) == Symbols(y)
    ensures x == y
  {
    hide SymbolOf;
    assert |x| == |y|;
    forall i | 0 <= i < |x| ensures x[i] == y[i] {
      assert Symbols(x)[i] == SymbolOf(x[i]) && Symbols(y)[i] == SymbolOf(y[i]);
      SymbolDetermines(x[i], y[i]);
    }
  }

  // Data parts that agree outside a window of six and lead to one register are equal.
  lemma DataDetected(prefix: seq<Word>, x: string, y: string, low: nat, high: nat)
    requires AllCharset(x) && AllCharset(y)
    requires AgreeOutside(x, y, low, high) && high - low <= 6
    requires PushAll(1, prefix + Symbols(x)) == PushAll(1, prefix + Symbols(y))
    ensures x == y
  {
    hide PushAll, SymbolOf;
    var us, vs := prefix + Symbols(x), prefix + Symbols(y);
    var n := |prefix|;
    SymbolsAreSmall(x);
    SymbolsAreSmall(y);
    WindowDetected(us, vs, n + low, n + high);
    assert us[n..] == Symbols(x) && vs[n..] == Symbols(y);
    SymbolsDetermine(x, y);
  }

  lemma AcceptedSplit(a: string, expected: string)
    requires Accepts(a, expected)
    ensures |expected| < |a| && a[..|expected| + 1] == expected + "1"
    ensures AcceptsParts(expected, a[|expected| + 1..], expected)
  {
    hide AcceptsParts;
    var k := LastOne(a);
    AcceptedPrefix(a[..k], a[k + 1..], expected);
    assert a[..k + 1] == a[..k] + [a[k]];
  }

  lemma AcceptedPrefix(hrp: string, data: string, expected: string)
    requires AcceptsParts(hrp, data, expected)
    ensures hrp == expected
  {
  }

  lemma AcceptedRegister(data: string, expected: string)
    requires AcceptsParts(expected, data, expected)
    ensures AllPlain(expected) && AllCharset(data)
    ensures PushAll(1, Expand(expected) + Symbols(data)) == BECH32M
  {
  }

  /** No two accepted addresses of one prefix and one length differ only
      inside six consecutive characters. */
  lemma NeighboursAreTheSame(a: string, b: string, expected: string, low: nat, high: nat)
    requires Accepts(a, expected) && Accepts(b, expected)
    requires AgreeOutside(a, b, low, high) && high - low <= 6
    ensures a == b
  {
    hide Accepts, AcceptsParts, Expand, Symbols, PushAll;
    AcceptedSplit(a, expected);
    AcceptedSplit(b, expected);
    AcceptedRegister(a[|expected| + 1..], expected);
    AcceptedRegister(b[|expected| + 1..], expected);
    var start := |expected| + 1;
    var l := if low < start then 0 else low - start;
    var h := if high < start then 0 else high - start;
    DataDetected(Expand(expected), a[start..], b[start..], l, h);
    assert a == a[..start] + a[start..] && b == b[..start] + b[start..];
  }

  function Chars(values: seq<Word>): (s: string)
    requires AllSymbols(values)
    ensures |s| == |values|
    ensures forall i :: 0 <= i < |s| ==> s[i] == CharOf(values[i])
  {
    seq(|values|, i requires 0 <= i < |values| => CharOf(values[i]))
  }

  lemma CharsHaveSymbols(values: seq<Word>)
    requires AllSymbols(values)
    ensures AllCharset(Chars(values)) && Symbols(Chars(values)) == values
  {
    hide CharOf, SymbolOf;
    forall i | 0 <= i < |values|
      ensures Chars(values)[i] in CHARSET
      ensures SymbolOf(Chars(values)[i]) == values[i]
    {
      CharHasSymbol(values[i]);
    }
  }

  lemma LastOneIs(s: string, k: nat)
    requires k < |s| && s[k] == '1' && forall i :: k < i < |s| ==> s[i] != '1'
    ensures LastOne(s) == k
  {
    hide LastOne;
  }

  lemma AroundOne(hrp: string, data: string)
    ensures var s := hrp + "1" + data;
      && |s| == |hrp| + 1 + |data| && s[|hrp|] == '1'
      && s[..|hrp|] == hrp && s[|hrp| + 1..] == data
  {
  }

  lemma SplitAt(hrp: string, data: string)
    requires '1' !in data
    ensures LastOne(hrp + "1" + data) == |hrp|
    ensures (hrp + "1" + data)[..|hrp|] == hrp
    ensures (hrp + "1" + data)[|hrp| + 1..] == data
  {
    hide LastOne;
    var s := hrp + "1" + data;
    AroundOne(hrp, data);
    forall i | |hrp| < i < |s| ensures s[i] != '1' {
      assert s[i] == data[i - |hrp| - 1];
    }
    LastOneIs(s, |hrp|);
  }

  lemma AcceptsWhole(hrp: string, data: string)
    requires AllPlain(hrp) && '1' !in data
    ensures Accepts(hrp + "1" + data, hrp) <==> AllPlain(data) && AcceptsParts(hrp, data, hrp)
  {
    hide AcceptsParts;
    var s := hrp + "1" + data;
    SplitAt(hrp, data);
    assert forall i :: 0 <= i < |data| ==> data[i] == s[|hrp| + 1 + i];
  }

  // An address by its characters, and the register its values lead to.
  ghost predicate ReadsAs(address: string, expected: string, data: string) {
    && address == expected + "1" + data
    && expected != "" && |data| >= 6
    && (forall c :: c in expected ==> c in "abcdefghijklmnopqrstuvwxyz0123456789")
    && (forall c :: c in data ==> c in "qpzry9x8gf2tvdw0s3jn54khce6mua7l")
    && AllPlain(expected) && AllCharset(data)
    && PushAll(1, Expand(expected) + Symbols(data)) == 0x2BC830A3
  }

  lemma PlainMeans(s: string)
    ensures AllPlain(s) <==> forall c :: c in s ==> c in "abcdefghijklmnopqrstuvwxyz0123456789"
  {
    forall i | 0 <= i < |s| ensures IsPlain(s[i]) <==> s[i] in "abcdefghijklmnopqrstuvwxyz0123456789" {
      assert s[i] in s;
      PlainLetters(s[i]);
    }
    forall c | c in s && AllPlain(s) ensures c in "abcdefghijklmnopqrstuvwxyz0123456789" {
      PlainLetters(c);
    }
  }

  lemma PlainLetters(c: char)
    ensures IsPlain(c) <==> c in "abcdefghijklmnopqrstuvwxyz0123456789"
  {
  }

  /** An address is accepted for a prefix exactly when it is that prefix of lowercase
      letters and digits, the separator and at least six characters of the alphabet,
      whose values lead the register to the constant of BIP 350. */
  lemma AcceptsIff(address: string, expected: string)
    ensures Accepts(address, expected) <==> exists data :: ReadsAs(address, expected, data)
  {
    hide PushAll, Expand, Symbols, IsPlain;
    PlainMeans(expected);
    if Accepts(address, expected) {
      var k := LastOne(address);
      assert address == expected + "1" + address[k + 1..];
      assert ReadsAs(address, expected, address[k + 1..]);
    }
    if data :| ReadsAs(address, expected, data) {
      CharsetData(data);
      AcceptsWhole(expected, data);
    }
  }

  function Suffix(hrp: string, payload: string): (suffix: string)
    requires AllPlain(hrp) && AllCharset(payload)
    ensures |suffix| == 6
  {
    ClosingCloses(PushAll(1, Expand(hrp) + Symbols(payload)));
    Chars(Closing(PushAll(1, Expand(hrp) + Symbols(payload))))
  }

  lemma CharsetData(data: string)
    requires AllCharset(data)
    ensures AllPlain(data) && '1' !in data
  {
    forall i | 0 <= i < |data| ensures IsPlain(data[i]) && data[i] != '1' {
      CharsetIsPlain(data[i]);
    }
  }

  lemma SuffixIsAccepted(hrp: string, payload: string)
    requires hrp != "" && AllPlain(hrp) && AllCharset(payload)
    ensures Accepts(hrp + "1" + (payload + Suffix(hrp, payload)), hrp)
  {
    hide PushAll, SymbolOf, CharOf, Closing, Expand, IsPlain;
    var front := Expand(hrp) + Symbols(payload);
    var check := PushAll(1, front);
    ClosingCloses(check);
    var suffix := Suffix(hrp, payload);
    CharsHaveSymbols(Closing(check));
    var data := payload + suffix;
    assert AllCharset(data);
    CharsetData(data);
    assert Expand(hrp) + Symbols(data) == front + Closing(check) by {
      assert Symbols(data) == Symbols(payload) + Symbols(suffix);
    }
    PushAllConcat(1, front, Closing(check));
    AcceptsWhole(hrp, data);
  }

  /** For every prefix and payload exactly one six-character checksum is accepted. */
  lemma ExactlyOneSuffix(hrp: string, payload: string, suffix: string)
    requires hrp != "" && AllPlain(hrp) && AllCharset(payload) && |suffix| == 6
    ensures Accepts(hrp + "1" + (payload + suffix), hrp) <==> suffix == Suffix(hrp, payload)
  {
    hide Accepts, Suffix, AllPlain, AllCharset;
    SuffixIsAccepted(hrp, payload);
    var a := hrp + "1" + (payload + suffix);
    var b := hrp + "1" + (payload + Suffix(hrp, payload));
    if Accepts(a, hrp) {
      var low := |hrp| + 1 + |payload|;
      NeighboursAreTheSame(a, b, hrp, low, low + 6);
      assert suffix == a[low..] && Suffix(hrp, payload) == b[low..];
    }
  }
}
