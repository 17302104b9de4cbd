/** BIP-350's own test vectors, section "Test vectors for Bech32m": the constants, the
    alphabet and the order of everything are the standard's. */
module Bip350 {
  import opened Wrappers
  import opened Checksum
  import opened Bech32m
  import PrefixErrors

  // --- The empty payload under "a" -----------------------------------------

  const TAIL: seq<nat> := [31, 0, 9, 19, 17, 29]

  lemma ExpandedA()
    ensures HrpExpand("a") == [3, 0, 1]
  {
    PrefixErrors.ExpandExact("a");
    hide HrpExpand;
    var e := HrpExpand("a");
    assert e[0] as int == 3 && e[1] == 0 && e[2] as int == 1;
    PrefixErrors.SameWord(e[0], 3);
    PrefixErrors.SameWord(e[2], 1);
  }

  lemma ResidueOfA()
    ensures Polymod(1, [3, 0, 1, 31, 0, 9, 19, 17, 29]) == BECH32M_CONST
  {
  }

  lemma Literals()
    ensures ToWord(31) == 31 && ToWord(0) == 0 && ToWord(9) == 9 && ToWord(19) == 19
    ensures ToWord(17) == 17 && ToWord(29) == 29
  {
  }

  lemma TailWords()
    ensures Symbolic(TAIL) && Words(TAIL) == [31, 0, 9, 19, 17, 29]
  {
    Literals();
    hide ToWord;
  }

  lemma NothingSymbolic()
    ensures Symbolic([])
  {
  }

  lemma ChecksumOfA()
    ensures CreateChecksum("a", []) == TAIL
  {
    ExpandedA();
    ResidueOfA();
    TailWords();
    NothingSymbolic();
    hide Polymod, HrpExpand, CreateChecksum, Words, Symbolic;
    ChecksumExact("a", [], TAIL);
    assert [] + TAIL == TAIL;
    assert HrpExpand("a") + Words(TAIL) == [3, 0, 1, 31, 0, 9, 19, 17, 29];
  }

  lemma PackedNothing(d: seq<Byte>)
    ensures Packed(d) == [] <==> d == []
  {
    hide Packed, Unpacked;
    PackedExact([], d);
    PackedExact([], []);
    assert Unpacked([]) == Some([]) by { UnpackedNothing(); }
  }

  lemma UnpackedNothing()
    ensures Unpacked([]) == Some([])
  {
  }

  lemma TailChars()
    ensures Symbolic(TAIL) && Chars(TAIL) == "lqfn3a"
  {
  }

  lemma EmptyUnderA()
    ensures Encode("a", []) == "a1lqfn3a"
  {
    ChecksumOfA();
    PackedNothing([]);
    TailChars();
    hide CreateChecksum, Packed, Chars, Symbolic;
    assert [] + TAIL == TAIL;
    assert "a" + "1" + "lqfn3a" == "a1lqfn3a";
  }

  lemma Folds()
    ensures GoodHrp("a")
    ensures Lower("a1lqfn3a") == "a1lqfn3a" == Lower("A1LQFN3A") && Upper("A1LQFN3A") == "A1LQFN3A"
    ensures Lower("A12UEL5L") == "a12uel5l"
  {
  }

  /** The shortest vector decodes, in either case, and the classic bech32 vector for
      the same payload does not. */
  lemma EmptyVectors()
    ensures Decode("a", "a1lqfn3a") == Some([]) && Decode("a", "A1LQFN3A") == Some([])
    ensures Decode("a", "A12UEL5L") == None
  {
    EmptyUnderA();
    Folds();
    hide Encode, Decode, Lower, Upper, GoodHrp;
    DecodeExact("a", "a1lqfn3a", []);
    DecodeExact("a", "A1LQFN3A", []);
    if Decode("a", "A12UEL5L").Some? {
      var d := Decode("a", "A12UEL5L").value;
      DecodeExact("a", "A12UEL5L", d);
      ShortEncoding(d);
    }
  }

  lemma ShortEncoding(d: seq<Byte>)
    requires |Encode("a", d)| == 8
    ensures d == []
  {
    hide CreateChecksum, Packed, Chars;
    PackedNothing(d);
  }
}
