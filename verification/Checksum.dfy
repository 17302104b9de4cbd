/** The BCH checksum behind bech32 and bech32m: BIP-173's `polymod` on 30-bit
    words, and the facts about it that hold at every length.

    The checksum is linear over XOR, and stepping it with a zero symbol is
    injective.  Everything the codec promises rests on those two facts: the six
    checksum symbols are the only ones that verify, and no corruption confined
    to six neighbouring symbols ever goes unnoticed. */
module Checksum {
  type Word = bv30

  // --- XOR -----------------------------------------------------------------

  /** XOR under a name of its own, so that proofs about long sums are carried
      out from the group laws below instead of bit by bit. */
  function Plus(a: Word, b: Word): Word { a ^ b }

  lemma PlusLaws(a: Word, b: Word)
    ensures Plus(a, b) == a ^ b == Plus(b, a)
    ensures Plus(a, 0) == a && Plus(a, a) == 0
  {
  }

  lemma XorAssociative(a: Word, b: Word, c: Word, ab: Word, bc: Word)
    requires ab == a ^ b && bc == b ^ c
    ensures ab ^ c == a ^ bc
  {
  }

  lemma PlusAssociative(a: Word, b: Word, c: Word)
    ensures Plus(Plus(a, b), c) == Plus(a, Plus(b, c))
  {
    hide Plus;
    PlusLaws(a, b);
    PlusLaws(b, c);
    PlusLaws(Plus(a, b), c);
    PlusLaws(a, Plus(b, c));
    XorAssociative(a, b, c, Plus(a, b), Plus(b, c));
  }

  lemma PlusRegroup(a: Word, b: Word, c: Word, d: Word)
    ensures Plus(Plus(a, b), Plus(c, d)) == Plus(Plus(a, c), Plus(b, d))
  {
    hide Plus;
    PlusAssociative(a, b, Plus(c, d));
    PlusAssociative(b, c, d);
    PlusLaws(b, c);
    PlusAssociative(c, b, d);
    PlusAssociative(a, c, Plus(b, d));
  }

  lemma PlusCancel(a: Word, b: Word, c: Word)
    ensures Plus(Plus(a, c), Plus(b, c)) == Plus(a, b)
    ensures Plus(Plus(a, b), b) == a && Plus(a, Plus(a, b)) == b
  {
    hide Plus;
    PlusRegroup(a, c, b, c);
    PlusLaws(c, c);
    PlusLaws(Plus(a, b), 0);
    PlusAssociative(a, b, b);
    PlusLaws(b, b);
    PlusLaws(a, 0);
    PlusAssociative(a, a, b);
    PlusLaws(a, a);
    PlusLaws(0, b);
    PlusLaws(b, 0);
  }

  lemma PlusZero(a: Word, b: Word)
    ensures Plus(a, b) == 0 <==> a == b
  {
    hide Plus;
    PlusCancel(a, b, 0);
    PlusLaws(b, 0);
    PlusLaws(0, b);
    PlusLaws(a, a);
  }

  // --- One step ------------------------------------------------------------

  function Tap(c: Word, bit: Word, generator: Word): Word {
    if c & bit != 0 then generator else 0
  }

  function Shift(c: Word): Word { (c & 0x1ffffff) << 5 }

  /** The state after a zero symbol: shift in five zero bits and fold the five
      bits shifted out back in through BIP-173's generator. */
  function Advance(c: Word): Word {
    Plus(Plus(Plus(Plus(Plus(Shift(c),
      Tap(c, 0x2000000, 0x3b6a57b2)),
      Tap(c, 0x4000000, 0x26508e6d)),
      Tap(c, 0x8000000, 0x1ea119fa)),
      Tap(c, 0x10000000, 0x3d4233dd)),
      Tap(c, 0x20000000, 0x2a1462b3))
  }

  /** BIP-173's `polymod`, started from state `c`. */
  function Polymod(c: Word, values: seq<Word>): Word
    decreases |values|
  {
    if |values| == 0 then c else Polymod(Plus(Advance(c), values[0]), values[1..])
  }

  function AdvanceBy(c: Word, n: nat): Word
    decreases n
  {
    if n == 0 then c else AdvanceBy(Advance(c), n - 1)
  }

  // --- Linearity -----------------------------------------------------------

  lemma TapLinear(a: Word, b: Word, bit: Word, g: Word)
    requires (Plus(a, b) & bit != 0) == ((a & bit != 0) != (b & bit != 0))
    ensures Tap(Plus(a, b), bit, g) == Plus(Tap(a, bit, g), Tap(b, bit, g))
  {
    PlusLaws(g, 0);
    PlusLaws(0, g);
    PlusLaws(0, 0);
  }

  lemma ShiftLinear(a: Word, b: Word)
    ensures Shift(Plus(a, b)) == Plus(Shift(a), Shift(b))
    ensures (Plus(a, b) & 0x2000000 != 0) == ((a & 0x2000000 != 0) != (b & 0x2000000 != 0))
    ensures (Plus(a, b) & 0x4000000 != 0) == ((a & 0x4000000 != 0) != (b & 0x4000000 != 0))
    ensures (Plus(a, b) & 0x8000000 != 0) == ((a & 0x8000000 != 0) != (b & 0x8000000 != 0))
    ensures (Plus(a, b) & 0x10000000 != 0) == ((a & 0x10000000 != 0) != (b & 0x10000000 != 0))
    ensures (Plus(a, b) & 0x20000000 != 0) == ((a & 0x20000000 != 0) != (b & 0x20000000 != 0))
  {
  }

  lemma AdvanceLinear(a: Word, b: Word)
    ensures Advance(Plus(a, b)) == Plus(Advance(a), Advance(b))
  {
    hide Tap, Plus, Shift;
    ShiftLinear(a, b);
    TapLinear(a, b, 0x2000000, 0x3b6a57b2);
    TapLinear(a, b, 0x4000000, 0x26508e6d);
    TapLinear(a, b, 0x8000000, 0x1ea119fa);
    TapLinear(a, b, 0x10000000, 0x3d4233dd);
    TapLinear(a, b, 0x20000000, 0x2a1462b3);
    var p1, q1 := Plus(Shift(a), Tap(a, 0x2000000, 0x3b6a57b2)), Plus(Shift(b), Tap(b, 0x2000000, 0x3b6a57b2));
    var p2, q2 := Plus(p1, Tap(a, 0x4000000, 0x26508e6d)), Plus(q1, Tap(b, 0x4000000, 0x26508e6d));
    var p3, q3 := Plus(p2, Tap(a, 0x8000000, 0x1ea119fa)), Plus(q2, Tap(b, 0x8000000, 0x1ea119fa));
    var p4, q4 := Plus(p3, Tap(a, 0x10000000, 0x3d4233dd)), Plus(q3, Tap(b, 0x10000000, 0x3d4233dd));
    PlusRegroup(Shift(a), Shift(b), Tap(a, 0x2000000, 0x3b6a57b2), Tap(b, 0x2000000, 0x3b6a57b2));
    PlusRegroup(p1, q1, Tap(a, 0x4000000, 0x26508e6d), Tap(b, 0x4000000, 0x26508e6d));
    PlusRegroup(p2, q2, Tap(a, 0x8000000, 0x1ea119fa), Tap(b, 0x8000000, 0x1ea119fa));
    PlusRegroup(p3, q3, Tap(a, 0x10000000, 0x3d4233dd), Tap(b, 0x10000000, 0x3d4233dd));
    PlusRegroup(p4, q4, Tap(a, 0x20000000, 0x2a1462b3), Tap(b, 0x20000000, 0x2a1462b3));
  }

  /** Feeding two states the same symbols changes only what the states
      themselves contribute to the difference. */
  lemma {:induction false} PolymodDifference(x: Word, y: Word, values: seq<Word>)
    ensures Plus(Polymod(x, values), Polymod(y, values)) == AdvanceBy(Plus(x, y), |values|)
    decreases |values|
  {
    hide Advance, Plus;
    if |values| > 0 {
      var v := values[0];
      AdvanceLinear(x, y);
      PlusCancel(Advance(x), Advance(y), v);
      PolymodDifference(Plus(Advance(x), v), Plus(Advance(y), v), values[1..]);
    }
  }

  lemma {:induction false} PolymodAppend(c: Word, a: seq<Word>, b: seq<Word>)
    ensures Polymod(c, a + b) == Polymod(Polymod(c, a), b)
    decreases |a|
  {
    hide Advance, Plus;
    if |a| == 0 {
      assert a + b == b;
    } else {
      assert (a + b)[1..] == a[1..] + b;
      PolymodAppend(Plus(Advance(c), a[0]), a[1..], b);
    }
  }

  // --- Injectivity of the zero-symbol step ---------------------------------

  lemma KernelWords(c: Word, p1: Word, p2: Word, p3: Word, p4: Word)
    requires p1 == ((c & 0x1ffffff) << 5) ^ (if c & 0x2000000 != 0 then 0x3b6a57b2 else 0)
    requires p2 == p1 ^ (if c & 0x4000000 != 0 then 0x26508e6d else 0)
    requires p3 == p2 ^ (if c & 0x8000000 != 0 then 0x1ea119fa else 0)
    requires p4 == p3 ^ (if c & 0x10000000 != 0 then 0x3d4233dd else 0)
    requires p4 ^ (if c & 0x20000000 != 0 then 0x2a1462b3 else 0) == 0
    ensures c == 0
  {
  }

  lemma AdvanceKernel(c: Word)
    ensures Advance(c) == 0 <==> c == 0
  {
    if Advance(c) == 0 {
      hide Plus;
      var p1 := Plus(Shift(c), Tap(c, 0x2000000, 0x3b6a57b2));
      var p2 := Plus(p1, Tap(c, 0x4000000, 0x26508e6d));
      var p3 := Plus(p2, Tap(c, 0x8000000, 0x1ea119fa));
      var p4 := Plus(p3, Tap(c, 0x10000000, 0x3d4233dd));
      PlusLaws(Shift(c), Tap(c, 0x2000000, 0x3b6a57b2));
      PlusLaws(p1, Tap(c, 0x4000000, 0x26508e6d));
      PlusLaws(p2, Tap(c, 0x8000000, 0x1ea119fa));
      PlusLaws(p3, Tap(c, 0x10000000, 0x3d4233dd));
      PlusLaws(p4, Tap(c, 0x20000000, 0x2a1462b3));
      KernelWords(c, p1, p2, p3, p4);
    } else {
      AdvanceSmall(0);
    }
  }

  lemma AdvanceSmall(c: Word)
    requires c < 0x2000000
    ensures Advance(c) == c << 5
  {
    hide Plus;
    assert c & 0x1ffffff == c && c & 0x2000000 == 0 && c & 0x4000000 == 0 && c & 0x8000000 == 0
        && c & 0x10000000 == 0 && c & 0x20000000 == 0;
    PlusLaws(Shift(c), 0);
  }

  /** A non-zero state never decays to zero, however many zero symbols follow. */
  lemma {:induction false} NonZeroPersists(c: Word, n: nat)
    ensures AdvanceBy(c, n) == 0 <==> c == 0
    decreases n
  {
    hide Advance;
    if n > 0 {
      AdvanceKernel(c);
      NonZeroPersists(Advance(c), n - 1);
    }
  }

  // --- Six symbols ---------------------------------------------------------

  /** Six 5-bit symbols laid end to end. */
  function Pack(s: seq<Word>): Word
    requires |s| == 6
  {
    PackWords(s[0], s[1], s[2], s[3], s[4], s[5])
  }

  function PackWords(s0: Word, s1: Word, s2: Word, s3: Word, s4: Word, s5: Word): Word {
    (s0 << 25) | (s1 << 20) | (s2 << 15) | (s3 << 10) | (s4 << 5) | s5
  }

  predicate Symbols(s: seq<Word>) {
    forall i | 0 <= i < |s| :: s[i] < 32
  }

  /** The low 5 bits of a word. */
  function Symbol(w: Word): Word { w & 31 }

  /** The six symbols of a word, most significant first. */
  function Unpack(w: Word): (s: seq<Word>)
    ensures |s| == 6
  {
    [Symbol(w >> 25), Symbol(w >> 20), Symbol(w >> 15), Symbol(w >> 10), Symbol(w >> 5), Symbol(w)]
  }

  lemma PackUnpack(w: Word)
    ensures Pack(Unpack(w)) == w
  {
    assert PackWords((w >> 25) & 31, (w >> 20) & 31, (w >> 15) & 31, (w >> 10) & 31, (w >> 5) & 31, w & 31) == w;
  }

  lemma UnpackPackWords(s0: Word, s1: Word, s2: Word, s3: Word, s4: Word, s5: Word)
    requires s0 < 32 && s1 < 32 && s2 < 32 && s3 < 32 && s4 < 32 && s5 < 32
    ensures var w := PackWords(s0, s1, s2, s3, s4, s5);
            && (w >> 25) & 31 == s0 && (w >> 20) & 31 == s1 && (w >> 15) & 31 == s2
            && (w >> 10) & 31 == s3 && (w >> 5) & 31 == s4 && w & 31 == s5
  {
  }

  lemma UnpackPack(s: seq<Word>)
    requires |s| == 6 && Symbols(s)
    ensures Unpack(Pack(s)) == s
  {
    hide PackWords;
    UnpackPackWords(s[0], s[1], s[2], s[3], s[4], s[5]);
  }

  function ShiftIn(c: Word, v: Word): Word { (c << 5) ^ v }

  lemma ShiftInWords(c: Word, v: Word)
    ensures ShiftIn(c, v) == (c << 5) ^ v
  {
  }

  lemma SixFits(s0: Word, s1: Word, s2: Word, s3: Word, s4: Word, s5: Word,
                c2: Word, c3: Word, c4: Word, c5: Word)
    requires s0 < 32 && s1 < 32 && s2 < 32 && s3 < 32 && s4 < 32 && s5 < 32
    requires c2 == ShiftIn(s0, s1) && c3 == ShiftIn(c2, s2) && c4 == ShiftIn(c3, s3) && c5 == ShiftIn(c4, s4)
    ensures s0 < 0x2000000 && c2 < 0x2000000 && c3 < 0x2000000 && c4 < 0x2000000 && c5 < 0x2000000
    ensures ShiftIn(c5, s5) == PackWords(s0, s1, s2, s3, s4, s5)
  {
    hide ShiftIn, PackWords;
    ShiftInWords(s0, s1);
    ShiftInWords(c2, s2);
    ShiftInWords(c3, s3);
    ShiftInWords(c4, s4);
    ShiftInWords(c5, s5);
    SixFitsWords(s0, s1, s2, s3, s4, s5, c2, c3, c4, c5);
  }

  lemma SixFitsWords(s0: Word, s1: Word, s2: Word, s3: Word, s4: Word, s5: Word,
                     c2: Word, c3: Word, c4: Word, c5: Word)
    requires s0 < 32 && s1 < 32 && s2 < 32 && s3 < 32 && s4 < 32 && s5 < 32
    requires c2 == (s0 << 5) ^ s1 && c3 == (c2 << 5) ^ s2 && c4 == (c3 << 5) ^ s3 && c5 == (c4 << 5) ^ s4
    ensures c2 < 0x2000000 && c3 < 0x2000000 && c4 < 0x2000000 && c5 < 0x2000000
    ensures (c5 << 5) ^ s5 == PackWords(s0, s1, s2, s3, s4, s5)
  {
  }

  lemma PolymodUnroll(c: Word, s: seq<Word>)
    requires |s| == 6
    ensures var c1 := Plus(Advance(c), s[0]);
            var c2 := Plus(Advance(c1), s[1]);
            var c3 := Plus(Advance(c2), s[2]);
            var c4 := Plus(Advance(c3), s[3]);
            var c5 := Plus(Advance(c4), s[4]);
            Polymod(c, s) == Plus(Advance(c5), s[5])
  {
    hide Advance, Plus;
    assert s[1..][1..] == s[2..] && s[2..][1..] == s[3..] && s[3..][1..] == s[4..] && s[4..][1..] == s[5..];
    var c1 := Plus(Advance(c), s[0]);
    var c2 := Plus(Advance(c1), s[1]);
    var c3 := Plus(Advance(c2), s[2]);
    var c4 := Plus(Advance(c3), s[3]);
    var c5 := Plus(Advance(c4), s[4]);
    calc {
      Polymod(c, s);
      Polymod(c1, s[1..]);
      Polymod(c2, s[2..]);
      Polymod(c3, s[3..]);
      Polymod(c4, s[4..]);
      Polymod(c5, s[5..]);
      Polymod(Plus(Advance(c5), s[5]), s[5..][1..]);
      Plus(Advance(c5), s[5]);
    }
  }

  /** From a clear state six symbols are simply shifted in: nothing wraps. */
  lemma PolymodSix(s: seq<Word>)
    requires |s| == 6 && Symbols(s)
    ensures Polymod(0, s) == Pack(s)
  {
    hide Advance, Plus, PackWords, Polymod, ShiftIn;
    PolymodUnroll(0, s);
    var c2 := ShiftIn(s[0], s[1]);
    var c3 := ShiftIn(c2, s[2]);
    var c4 := ShiftIn(c3, s[3]);
    var c5 := ShiftIn(c4, s[4]);
    SixFits(s[0], s[1], s[2], s[3], s[4], s[5], c2, c3, c4, c5);
    StepSmall(0, s[0]);
    StepSmall(s[0], s[1]);
    StepSmall(c2, s[2]);
    StepSmall(c3, s[3]);
    StepSmall(c4, s[4]);
    StepSmall(c5, s[5]);
  }

  lemma StepSmall(c: Word, v: Word)
    requires c < 0x2000000
    ensures Plus(Advance(c), v) == ShiftIn(c, v)
    ensures c == 0 ==> Plus(Advance(c), v) == v
  {
    hide Advance, Plus;
    AdvanceSmall(c);
    PlusLaws(Advance(c), v);
    PlusLaws(v, 0);
    PlusLaws(0, v);
  }

  const SIX_ZEROS: seq<Word> := [0, 0, 0, 0, 0, 0]

  // --- The checksum symbols and their uniqueness ---------------------------

  /** Finishing with six symbols instead of six zeros just XORs them in. */
  lemma SixAfter(c: Word, s: seq<Word>)
    requires |s| == 6 && Symbols(s)
    ensures Polymod(c, s) == Plus(Polymod(c, SIX_ZEROS), Pack(s))
  {
    hide Advance, Plus, Pack;
    PolymodDifference(c, 0, s);
    PolymodDifference(c, 0, SIX_ZEROS);
    PolymodSix(s);
    PolymodSix(SIX_ZEROS);
    assert Pack(SIX_ZEROS) == 0 by { PackZeros(); }
    var p, z := Polymod(c, s), Polymod(c, SIX_ZEROS);
    assert Plus(p, Pack(s)) == Plus(z, 0);
    PlusLaws(z, 0);
    PlusCancel(p, Pack(s), 0);
  }

  lemma PackZeros()
    ensures Pack(SIX_ZEROS) == 0
  {
  }

  /** Exactly one choice of six symbols brings a message to a given residue:
      the ones read off the message followed by six zeros. */
  lemma ChecksumUnique(c: Word, target: Word, s: seq<Word>)
    requires |s| == 6 && Symbols(s)
    ensures Polymod(c, s) == target <==> s == Unpack(Plus(Polymod(c, SIX_ZEROS), target))
  {
    hide Advance, Plus, Pack, Unpack;
    var z := Polymod(c, SIX_ZEROS);
    SixAfter(c, s);
    UnpackPack(s);
    PackUnpack(Plus(z, target));
    PlusCancel(z, Pack(s), 0);
    PlusCancel(z, target, 0);
  }

  // --- Burst errors --------------------------------------------------------

  lemma WindowChangesResidue(m: Word, a: seq<Word>, b: seq<Word>)
    requires |a| == |b| == 6 && Symbols(a) && Symbols(b) && a != b
    ensures Polymod(m, a) != Polymod(m, b)
  {
    hide Advance, Plus, Pack, Unpack, Polymod;
    var z := Polymod(m, SIX_ZEROS);
    SixAfter(m, a);
    SixAfter(m, b);
    UnpackPack(a);
    UnpackPack(b);
    PlusCancel(z, Pack(a), 0);
    PlusCancel(z, Pack(b), 0);
  }

  /** Two messages that differ, and only inside one window of six symbols, never
      share a residue, whatever surrounds the window and however long it is. */
  lemma BurstChangesResidue(c: Word, before: seq<Word>, a: seq<Word>, b: seq<Word>, after: seq<Word>)
    requires |a| == |b| == 6 && Symbols(a) && Symbols(b) && a != b
    ensures Polymod(c, before + a + after) != Polymod(c, before + b + after)
  {
    hide Polymod;
    PolymodAppend(c, before, a);
    PolymodAppend(c, before + a, after);
    PolymodAppend(c, before, b);
    PolymodAppend(c, before + b, after);
    var m := Polymod(c, before);
    WindowChangesResidue(m, a, b);
    DifferenceSurvives(Polymod(m, a), Polymod(m, b), after);
  }

  lemma DifferenceSurvives(x: Word, y: Word, after: seq<Word>)
    requires x != y
    ensures Polymod(x, after) != Polymod(y, after)
  {
    hide Advance, Plus;
    PolymodDifference(x, y, after);
    PlusZero(x, y);
    PlusZero(Polymod(x, after), Polymod(y, after));
    NonZeroPersists(Plus(x, y), |after|);
  }
}
