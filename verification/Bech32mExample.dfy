// Known addresses: the checksum of BIP 350 told from the older one of BIP 173, and
// an address that holds the whole alphabet.
module Bech32mExample {
  import opened Bech32m
  import opened Bech32mAddress

  // The register from the front, one value at a time.
  function Feed(check: Word, values: seq<Word>): Word
    decreases |values|
  {
    if values == [] then check else Feed(Push(check, values[0]), values[1..])
  }

  lemma {:induction false} FeedIsPushAll(check: Word, values: seq<Word>)
    ensures PushAll(check, values) == Feed(check, values)
    decreases |values|
  {
    hide Push;
    if values != [] {
      assert values == [values[0]] + values[1..];
      PushAllConcat(check, [values[0]], values[1..]);
      PushOne(check, values[0]);
      FeedIsPushAll(Push(check, values[0]), values[1..]);
    }
  }

  lemma PushOne(check: Word, value: Word)
    ensures PushAll(check, [value]) == Push(check, value)
  {
    hide Push;
    assert [value][..0] == [];
  }

  // The registers of a run from `check`, each one push after the one before.
  ghost predicate Registers(values: seq<Word>, registers: seq<Word>) {
    && |registers| == |values| + 1
    && forall i :: 0 <= i < |values| ==> registers[i + 1] == Push(registers[i], values[i])
  }

  lemma {:induction false} RegistersFeed(values: seq<Word>, registers: seq<Word>)
    requires Registers(values, registers)
    ensures Feed(registers[0], values) == registers[|values|]
    decreases |values|
  {
    hide Push;
    if values != [] {
      RegistersFeed(values[1..], registers[1..]);
    }
  }

  // ------------------------------------------------------- reading an address

  // A data part whose characters stand at these places of the alphabet.
  predicate Spells(data: string, values: seq<Word>) {
    |data| == |values| && forall i :: 0 <= i < |data| ==> values[i] < 32 && data[i] == CharOf(values[i])
  }

  lemma SpelledSymbols(data: string, values: seq<Word>)
    requires Spells(data, values)
    ensures AllCharset(data) && AllPlain(data) && '1' !in data && Symbols(data) == values
  {
    hide SymbolOf, CharOf, IsPlain;
    forall i | 0 <= i < |data|
      ensures data[i] in CHARSET && IsPlain(data[i]) && data[i] != '1' && SymbolOf(data[i]) == values[i]
    {
      CharHasSymbol(values[i]);
      CharsetIsPlain(data[i]);
    }
  }

  // An address is accepted exactly when its values lead to the constant of BIP 350.
  lemma AcceptedByValues(hrp: string, data: string, expanded: seq<Word>, values: seq<Word>)
    requires hrp != "" && AllPlain(hrp) && Expand(hrp) == expanded
    requires Spells(data, values) && |data| >= 6
    ensures Accepts(hrp + "1" + data, hrp) <==> Feed(1, expanded + values) == 0x2BC830A3
  {
    hide Accepts, PushAll, Expand, Symbols, Feed, Spells;
    SpelledSymbols(data, values);
    FeedIsPushAll(1, expanded + values);
    AcceptsWhole(hrp, data);
  }

  // ------------------------------------------------- the empty payload under "a"

  lemma ExpandedA()
    ensures Expand("a") == [3, 0, 1]
  {
  }

  lemma SpelledShort()
    ensures Spells("lqfn3a", [31, 0, 9, 19, 17, 29]) && Spells("2uel5l", [10, 28, 25, 31, 20, 31])
  {
  }

  lemma NewSteps()
    ensures Push(1, 3) == 0x23
    ensures Push(0x23, 0) == 0x460
    ensures Push(0x460, 1) == 0x8C01
    ensures Push(0x8C01, 31) == 0x11803F
    ensures Push(0x11803F, 0) == 0x23007E0
    ensures Push(0x23007E0, 9) == 0x3D6AABBB
    ensures Push(0x3D6AABBB, 19) == 0x2F2B18A
    ensures Push(0x2F2B18A, 17) == 0x253C66E3
    ensures Push(0x253C66E3, 29) == 0x2BC830A3
  {
  }

  lemma OldSteps()
    ensures Push(0x8C01, 10) == 0x11802A
    ensures Push(0x11802A, 28) == 0x230055C
    ensures Push(0x230055C, 25) == 0x3D6AFC2B
    ensures Push(0x3D6AFC2B, 31) == 0x2F84386
    ensures Push(0x2F84386, 20) == 0x24622766
    ensures Push(0x24622766, 31) == 1
  {
  }

  /** With the checksum of BIP 350 it is accepted, with the older one it is not. */
  lemma OnlyTheNewChecksum()
    ensures Accepts("a1lqfn3a", "a")
    ensures !Accepts("a12uel5l", "a")
  {
    hide Accepts, Expand, Spells, Feed, Push;
    ExpandedA();
    SpelledShort();
    NewSteps();
    OldSteps();
    var next, before := [3, 0, 1] + [31, 0, 9, 19, 17, 29], [3, 0, 1] + [10, 28, 25, 31, 20, 31];
    RegistersFeed(next, [1, 0x23, 0x460, 0x8C01, 0x11803F, 0x23007E0, 0x3D6AABBB, 0x2F2B18A, 0x253C66E3, 0x2BC830A3]);
    RegistersFeed(before, [1, 0x23, 0x460, 0x8C01, 0x11802A, 0x230055C, 0x3D6AFC2B, 0x2F84386, 0x24622766, 1]);
    AcceptedByValues("a", "lqfn3a", [3, 0, 1], [31, 0, 9, 19, 17, 29]);
    AcceptedByValues("a", "2uel5l", [3, 0, 1], [10, 28, 25, 31, 20, 31]);
    assert "a" + "1" + "lqfn3a" == "a1lqfn3a" && "a" + "1" + "2uel5l" == "a12uel5l";
  }

  // ------------------------------------------------------ the alphabet reversed

  lemma FeedConcat(check: Word, us: seq<Word>, vs: seq<Word>)
    ensures Feed(check, us + vs) == Feed(Feed(check, us), vs)
  {
    hide Feed, PushAll;
    FeedIsPushAll(check, us + vs);
    FeedIsPushAll(check, us);
    FeedIsPushAll(Feed(check, us), vs);
    PushAllConcat(check, us, vs);
  }

  lemma SpellsConcat(a: string, b: string, us: seq<Word>, vs: seq<Word>)
    requires Spells(a, us) && Spells(b, vs)
    ensures Spells(a + b, us + vs)
  {
    hide CharOf;
  }

  const CLASSES: seq<Word> := [3, 3, 3, 3, 3, 3, 0]
  const LETTERS: seq<Word> := [1, 2, 3, 4, 5, 6]
  const FIRST: seq<Word> := [31, 30, 29, 28, 27, 26, 25, 24]
  const SECOND: seq<Word> := [23, 22, 21, 20, 19, 18, 17, 16]
  const THIRD: seq<Word> := [15, 14, 13, 12, 11, 10, 9, 8]
  const FOURTH: seq<Word> := [7, 6, 5, 4, 3, 2, 1, 0]
  const CHECKSUM: seq<Word> := [2, 13, 17, 3, 4, 6]

  lemma ExpandedAbcdef()
    ensures Expand("abcdef") == CLASSES + LETTERS
  {
    assert Classes("abcdef") + [0] == CLASSES;
    assert Letters("abcdef") == LETTERS;
  }

  lemma Steps0()
    ensures Push(1, 3) == 0x23
    ensures Push(0x23, 3) == 0x463
    ensures Push(0x463, 3) == 0x8C63
    ensures Push(0x8C63, 3) == 0x118C63
    ensures Push(0x118C63, 3) == 0x2318C63
    ensures Push(0x2318C63, 3) == 0x3D5BDBD1
    ensures Push(0x3D5BDBD1, 0) == 0x4DCBCD9
  {
  }

  lemma Fed0()
    ensures Feed(1, CLASSES) == 0x4DCBCD9
  {
    hide Push, Feed;
    Steps0();
    RegistersFeed(CLASSES, [1, 0x23, 0x463, 0x8C63, 0x118C63, 0x2318C63, 0x3D5BDBD1, 0x4DCBCD9]);
  }

  lemma Steps1()
    ensures Push(0x4DCBCD9, 1) == 0x3DC7154C
    ensures Push(0x3DC7154C, 2) == 0x17456F7B
    ensures Push(0x17456F7B, 3) == 0x8D50561
    ensures Push(0x8D50561, 4) == 0x401B5DE
    ensures Push(0x401B5DE, 5) == 0x266635A8
    ensures Push(0x266635A8, 6) == 0x3BE80E6A
  {
  }

  lemma Fed1()
    ensures Feed(0x4DCBCD9, LETTERS) == 0x3BE80E6A
  {
    hide Push, Feed;
    Steps1();
    RegistersFeed(LETTERS, [0x4DCBCD9, 0x3DC7154C, 0x17456F7B, 0x8D50561, 0x401B5DE, 0x266635A8, 0x3BE80E6A]);
  }

  lemma Steps2()
    ensures Push(0x3BE80E6A, 31) == 0xF9CD279
    ensures Push(0xF9CD279, 30) == 0x30018F1B
    ensures Push(0x30018F1B, 29) == 0x1767B213
    ensures Push(0x1767B213, 28) == 0xC8EA87E
    ensures Push(0xC8EA87E, 27) == 0x2924984C
    ensures Push(0x2924984C, 26) == 0x102672D3
    ensures Push(0x102672D3, 25) == 0x398C69A4
    ensures Push(0x398C69A4, 24) == 0x387A7C0C
  {
  }

  lemma Fed2()
    ensures Feed(0x3BE80E6A, FIRST) == 0x387A7C0C
  {
    hide Push, Feed;
    Steps2();
    RegistersFeed(FIRST, [0x3BE80E6A, 0xF9CD279, 0x30018F1B, 0x1767B213, 0xC8EA87E, 0x2924984C, 0x102672D3,
      0x398C69A4, 0x387A7C0C]);
  }

  lemma Steps3()
    ensures Push(0x387A7C0C, 23) == 0x6B8C903
    ensures Push(0x6B8C903, 22) == 0xA23F9A9
    ensures Push(0xA23F9A9, 21) == 0x21B47B7D
    ensures Push(0x21B47B7D, 20) == 0x1C9B0D07
    ensures Push(0x1C9B0D07, 19) == 0x16D204B9
    ensures Push(0x16D204B9, 18) == 0x3A387D30
    ensures Push(0x3A387D30, 17) == 0x3592B937
    ensures Push(0x3592B937, 16) == 0x351F9F3
  {
  }

  lemma Fed3()
    ensures Feed(0x387A7C0C, SECOND) == 0x351F9F3
  {
    hide Push, Feed;
    Steps3();
    RegistersFeed(SECOND, [0x387A7C0C, 0x6B8C903, 0xA23F9A9, 0x21B47B7D, 0x1C9B0D07, 0x16D204B9, 0x3A387D30,
      0x3592B937, 0x351F9F3]);
  }

  lemma Steps4()
    ensures Push(0x351F9F3, 15) == 0x115569DD
    ensures Push(0x115569DD, 14) == 0x17EF0873
    ensures Push(0x17EF0873, 13) == 0x1D99E46F
    ensures Push(0x1D99E46F, 12) == 0x368F29A6
    ensures Push(0x368F29A6, 11) == 0x1B89BC7A
    ensures Push(0x1B89BC7A, 10) == 0x29BEF2DF
    ensures Push(0x29BEF2DF, 9) == 0x36B20A0
    ensures Push(0x36B20A0, 8) == 0x160E43BA
  {
  }

  lemma Fed4()
    ensures Feed(0x351F9F3, THIRD) == 0x160E43BA
  {
    hide Push, Feed;
    Steps4();
    RegistersFeed(THIRD, [0x351F9F3, 0x115569DD, 0x17EF0873, 0x1D99E46F, 0x368F29A6, 0x1B89BC7A, 0x29BEF2DF,
      0x36B20A0, 0x160E43BA]);
  }

  lemma Steps5()
    ensures Push(0x160E43BA, 7) == 0x21B09D45
    ensures Push(0x21B09D45, 6) == 0x1C07CA15
    ensures Push(0x1C07CA15, 5) == 0x54AE6EF
    ensures Push(0x54AE6EF, 4) == 0xF0C5389
    ensures Push(0xF0C5389, 3) == 0x2211B106
    ensures Push(0x2211B106, 2) == 0x134815C3
    ensures Push(0x134815C3, 1) == 0x2F2ADC0E
    ensures Push(0x2F2ADC0E, 0) == 0xCD42356
  {
  }

  lemma Fed5()
    ensures Feed(0x160E43BA, FOURTH) == 0xCD42356
  {
    hide Push, Feed;
    Steps5();
    RegistersFeed(FOURTH, [0x160E43BA, 0x21B09D45, 0x1C07CA15, 0x54AE6EF, 0xF0C5389, 0x2211B106, 0x134815C3,
      0x2F2ADC0E, 0xCD42356]);
  }

  lemma Steps6()
    ensures Push(0xCD42356, 2) == 0x2275FD55
    ensures Push(0x2275FD55, 13) == 0x1FC19FAC
    ensures Push(0x1FC19FAC, 17) == 0x6EA0669
    ensures Push(0x6EA0669, 3) == 0x7A14FC
    ensures Push(0x7A14FC, 4) == 0xF429F84
    ensures Push(0xF429F84, 6) == 0x2BC830A3
  {
  }

  lemma Fed6()
    ensures Feed(0xCD42356, CHECKSUM) == 0x2BC830A3
  {
    hide Push, Feed;
    Steps6();
    RegistersFeed(CHECKSUM, [0xCD42356, 0x2275FD55, 0x1FC19FAC, 0x6EA0669, 0x7A14FC, 0xF429F84, 0x2BC830A3]);
  }

  lemma Spelled0()
    ensures Spells("l7aum6ec", FIRST)
  {
  }

  lemma Spelled1()
    ensures Spells("hk45nj3s", SECOND)
  {
  }

  lemma Spelled2()
    ensures Spells("0wdvt2fg", THIRD)
  {
  }

  lemma Spelled3()
    ensures Spells("8x9yrzpq", FOURTH)
  {
  }

  lemma Spelled4()
    ensures Spells("zd3ryx", CHECKSUM)
  {
  }

  const DATA: string := "l7aum6ec" + "hk45nj3s" + "0wdvt2fg" + "8x9yrzpq" + "zd3ryx"

  lemma SpelledData()
    ensures Spells(DATA, FIRST + SECOND + THIRD + FOURTH + CHECKSUM)
  {
    hide Spells;
    Spelled0();
    Spelled1();
    Spelled2();
    Spelled3();
    Spelled4();
    SpellsConcat("l7aum6ec", "hk45nj3s", FIRST, SECOND);
    SpellsConcat("l7aum6ec" + "hk45nj3s", "0wdvt2fg", FIRST + SECOND, THIRD);
    SpellsConcat("l7aum6ec" + "hk45nj3s" + "0wdvt2fg", "8x9yrzpq", FIRST + SECOND + THIRD, FOURTH);
    SpellsConcat("l7aum6ec" + "hk45nj3s" + "0wdvt2fg" + "8x9yrzpq", "zd3ryx",
      FIRST + SECOND + THIRD + FOURTH, CHECKSUM);
  }

  lemma FedData()
    ensures Feed(1, CLASSES + LETTERS + FIRST + SECOND + THIRD + FOURTH + CHECKSUM) == 0x2BC830A3
  {
    hide Feed;
    Fed0();
    Fed1();
    Fed2();
    Fed3();
    Fed4();
    Fed5();
    Fed6();
    FeedConcat(1, CLASSES, LETTERS);
    FeedConcat(1, CLASSES + LETTERS, FIRST);
    FeedConcat(1, CLASSES + LETTERS + FIRST, SECOND);
    FeedConcat(1, CLASSES + LETTERS + FIRST + SECOND, THIRD);
    FeedConcat(1, CLASSES + LETTERS + FIRST + SECOND + THIRD, FOURTH);
    FeedConcat(1, CLASSES + LETTERS + FIRST + SECOND + THIRD + FOURTH, CHECKSUM);
  }

  lemma Regroup(a: seq<Word>, b: seq<Word>, c: seq<Word>, d: seq<Word>, e: seq<Word>, f: seq<Word>)
    ensures a + b + c + d + e + f == a + (b + c + d + e + f)
  {
  }

  /** A plain prefix, the whole alphabet from its end, and the checksum: every
      character counts for its own place. */
  lemma WholeAlphabetAccepted()
    ensures Accepts("abcdef" + "1" + DATA, "abcdef")
  {
    hide Accepts, Expand, Spells, Feed;
    ExpandedAbcdef();
    SpelledData();
    FedData();
    Regroup(CLASSES + LETTERS, FIRST, SECOND, THIRD, FOURTH, CHECKSUM);
    AcceptedByValues("abcdef", DATA, CLASSES + LETTERS, FIRST + SECOND + THIRD + FOURTH + CHECKSUM);
  }
}
