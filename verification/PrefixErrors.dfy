/** The checksum protects the prefix too: a string whose prefix was rewritten, as a
    certificate's amount would be, no longer decodes. */
module PrefixErrors {
  import opened Wrappers
  import opened Checksum
  import opened Bech32m

  predicate Ascii(s: string) {
    forall i | 0 <= i < |s| :: s[i] as int < 128
  }

  // --- What a character contributes ----------------------------------------

  lemma {:induction false} CountTo(v: nat) returns (w: Word)
    requires v < 128
    ensures w as int == v && w < 128
    decreases v
  {
    w := 0;
    if v > 0 {
      var u := CountTo(v - 1);
      NextWord(u);
      w := u + 1;
    }
  }

  lemma NextWord(u: Word)
    requires u as int < 127
    ensures (u + 1) as int == u as int + 1 && u + 1 < 128
  {
  }

  lemma WordAgain(w: Word)
    ensures (w as int) as Word == w
  {
  }

  lemma WordOf(v: nat)
    requires v < 128
    ensures v as Word < 128 && (v as Word) as int == v
  {
    var w := CountTo(v);
    WordAgain(w);
  }

  lemma WordHalves(w: Word)
    requires w < 128
    ensures (w >> 5) as int == (w as int) / 32 && (w & 31) as int == (w as int) % 32
    ensures w >> 5 < 32 && w & 31 < 32
  {
  }

  lemma Halves(c: char)
    requires c as int < 128
    ensures HighBits(c) as int == c as int / 32 && LowBits(c) as int == c as int % 32
    ensures HighBits(c) < 32 && LowBits(c) < 32
  {
    WordOf(c as int);
    WordHalves((c as int) as Word);
  }

  /** BIP-173's expansion of a prefix, in plain arithmetic: what each character is
      above multiples of 32, a zero, and what it is below them. */
  lemma ExpandExact(hrp: string)
    requires Ascii(hrp)
    ensures var e, n := HrpExpand(hrp), |hrp|;
            && |e| == 2 * n + 1 && e[n] == 0
            && forall i | 0 <= i < n :: e[i] as int == hrp[i] as int / 32 && e[n + 1 + i] as int == hrp[i] as int % 32
  {
    hide HighBits, LowBits;
    forall i | 0 <= i < |hrp|
      ensures HighBits(hrp[i]) as int == hrp[i] as int / 32 && LowBits(hrp[i]) as int == hrp[i] as int % 32
    {
      Halves(hrp[i]);
    }
  }

  lemma ExpandAt(hrp: string, i: nat)
    requires Ascii(hrp) && i < 2 * |hrp| + 1
    ensures |HrpExpand(hrp)| == 2 * |hrp| + 1
    ensures HrpExpand(hrp)[i] as int == if i < |hrp| then hrp[i] as int / 32
                                        else if i == |hrp| then 0
                                        else hrp[i - |hrp| - 1] as int % 32
  {
    ExpandExact(hrp);
    hide HrpExpand;
    var e, n := HrpExpand(hrp), |hrp|;
    if n < i {
      assert e[i] == e[n + 1 + (i - n - 1)];
    }
  }

  lemma ExpandSymbols(hrp: string)
    requires Ascii(hrp)
    ensures Symbols(HrpExpand(hrp))
  {
    hide HighBits, LowBits;
    forall i | 0 <= i < |hrp| ensures HighBits(hrp[i]) < 32 && LowBits(hrp[i]) < 32 {
      Halves(hrp[i]);
    }
  }

  // --- A rewritten prefix --------------------------------------------------

  /** The prefixes have the same length and differ, but only among six neighbouring
      characters. */
  predicate Rewritten(hrp: string, other: string, k: nat) {
    && |other| == |hrp| && other != hrp && Ascii(hrp) && Ascii(other)
    && forall i | 0 <= i < |hrp| && (i < k || k + 6 <= i) :: other[i] == hrp[i]
  }

  /** Digits became digits, small letters small letters. */
  predicate SameHigh(hrp: string, other: string)
    requires |other| == |hrp|
  {
    forall i | 0 <= i < |hrp| :: other[i] as int / 32 == hrp[i] as int / 32
  }

  /** Every character moved by a multiple of 32. */
  predicate SameLow(hrp: string, other: string)
    requires |other| == |hrp|
  {
    forall i | 0 <= i < |hrp| :: other[i] as int % 32 == hrp[i] as int % 32
  }

  lemma WindowDiffers(c: Word, a: seq<Word>, b: seq<Word>, k: nat)
    requires |a| == |b| && k + 6 <= |a| && a != b && Symbols(a) && Symbols(b)
    requires forall i | 0 <= i < |a| && (i < k || k + 6 <= i) :: a[i] == b[i]
    ensures Polymod(c, a) != Polymod(c, b)
  {
    hide Polymod;
    var before, after := a[..k], a[k + 6..];
    assert b[..k] == before && b[k + 6..] == after;
    assert a == before + a[k..k + 6] + after && b == before + b[k..k + 6] + after;
    BurstChangesResidue(c, before, a[k..k + 6], b[k..k + 6], after);
  }

  lemma SameWord(v: Word, w: Word)
    ensures v as int == w as int ==> v == w
  {
    WordAgain(v);
    WordAgain(w);
  }

  /** Where the window of the difference begins in the expansions. */
  function WindowAt(hrp: string, other: string, k: nat): nat
    requires |other| == |hrp|
  {
    if SameHigh(hrp, other) then |hrp| + 1 + k else k
  }

  lemma ExpansionsAgree(hrp: string, other: string, k: nat, i: nat)
    requires Rewritten(hrp, other, k) && (SameHigh(hrp, other) || SameLow(hrp, other)) && i < 2 * |hrp| + 1
    requires i < WindowAt(hrp, other, k) || WindowAt(hrp, other, k) + 6 <= i
    ensures |HrpExpand(hrp)| == |HrpExpand(other)| == 2 * |hrp| + 1 && HrpExpand(hrp)[i] == HrpExpand(other)[i]
  {
    hide HrpExpand;
    ExpandExact(hrp);
    ExpandExact(other);
    ExpandAt(hrp, i);
    ExpandAt(other, i);
    SameWord(HrpExpand(hrp)[i], HrpExpand(other)[i]);
  }

  lemma ExpansionsDiffer(hrp: string, other: string, k: nat)
    requires Rewritten(hrp, other, k)
    ensures HrpExpand(hrp) != HrpExpand(other)
  {
    hide HrpExpand;
    ExpandExact(hrp);
    ExpandExact(other);
    var i :| 0 <= i < |hrp| && other[i] != hrp[i];
    var e, f := HrpExpand(hrp), HrpExpand(other);
    assert e[i] as int != f[i] as int || e[|hrp| + 1 + i] as int != f[|hrp| + 1 + i] as int;
  }

  /** The same symbols never have one residue under both prefixes. */
  lemma RewrittenResidue(hrp: string, other: string, k: nat, data: seq<Word>)
    requires Rewritten(hrp, other, k) && (SameHigh(hrp, other) || SameLow(hrp, other))
    requires Symbols(data) && |data| >= 6
    ensures Residue(hrp, data) != Residue(other, data)
  {
    ExpandSymbols(hrp);
    ExpandSymbols(other);
    ExpansionsDiffer(hrp, other, k);
    var e, f := HrpExpand(hrp), HrpExpand(other);
    var m := WindowAt(hrp, other, k);
    assert k < |hrp|;
    forall i | 0 <= i < 2 * |hrp| + 1 && (i < m || m + 6 <= i) ensures e[i] == f[i] {
      ExpansionsAgree(hrp, other, k, i);
    }
    assert |e| == |f| == 2 * |hrp| + 1;
    hide HrpExpand, WindowAt, Rewritten, SameHigh, SameLow, Polymod;
    FollowedBy(1, e, f, data, m);
  }

  lemma FollowedBy(c: Word, e: seq<Word>, f: seq<Word>, data: seq<Word>, m: nat)
    requires |e| == |f| && m + 6 <= |e| + |data| && e != f && Symbols(e) && Symbols(f) && Symbols(data)
    requires forall i | 0 <= i < |e| && (i < m || m + 6 <= i) :: e[i] == f[i]
    ensures Polymod(c, e + data) != Polymod(c, f + data)
  {
    hide Polymod;
    assert e == (e + data)[..|e|] && f == (f + data)[..|e|];
    WindowDiffers(c, e + data, f + data, m);
  }

  lemma RewrittenChecksum(hrp: string, other: string, k: nat, data: seq<nat>)
    requires Rewritten(hrp, other, k) && (SameHigh(hrp, other) || SameLow(hrp, other)) && Symbolic(data)
    ensures CreateChecksum(hrp, data) != CreateChecksum(other, data)
  {
    var tail := CreateChecksum(hrp, data);
    ChecksumExact(hrp, data, tail);
    ChecksumExact(other, data, tail);
    WordsSymbols(data + tail);
    hide Residue, CreateChecksum, Words, Rewritten, SameHigh, SameLow;
    RewrittenResidue(hrp, other, k, Words(data + tail));
  }

  /** Replacing characters of an encoded string's prefix, within six neighbours and
      digits by digits, small letters by small letters, always makes decoding fail,
      whatever prefix is asked for and however long the string is. */
  lemma PrefixDetected(hrp: string, other: string, k: nat, d: seq<Byte>, asked: string)
    requires Rewritten(hrp, other, k) && (SameHigh(hrp, other) || SameLow(hrp, other)) && Lower(other) == other
    ensures |Encode(hrp, d)| >= |hrp|
    ensures Decode(asked, other + Encode(hrp, d)[|hrp|..]) == None
  {
    hide Decode, CreateChecksum, Chars, Lower, Upper, Printable, Packed, Rewritten, SameHigh, SameLow;
    var values := Packed(d);
    var part := Chars(values + CreateChecksum(hrp, values));
    IndicesOfChars(values + CreateChecksum(hrp, values));
    CharsetPlain(part);
    var t := other + Encode(hrp, d)[|hrp|..];
    assert t == other + "1" + part;
    match Decode(asked, t)
    case None =>
    case Some(d') =>
      DecodeExact(asked, t, d');
      LowerParts(other, part);
      SameParts(other, part, asked, d');
      RewrittenChecksum(hrp, other, k, values);
      SameSymbols(values, CreateChecksum(hrp, values), Packed(d'), CreateChecksum(other, Packed(d')));
  }

  lemma LowerParts(a: string, b: string)
    requires Lower(a) == a && Lower(b) == b
    ensures Lower(a + "1" + b) == a + "1" + b
  {
    var s := a + "1" + b;
    forall i | 0 <= i < |s| ensures LowerChar(s[i]) == s[i] {
      if i < |a| {
        assert Lower(a)[i] == LowerChar(a[i]);
      } else if i > |a| {
        assert Lower(b)[i - |a| - 1] == LowerChar(b[i - |a| - 1]);
      }
    }
  }

  /** A string is an encoding under one prefix only: the one before its separator. */
  lemma SameParts(hrp: string, part: string, asked: string, d: seq<Byte>)
    requires InCharset(part) && hrp + "1" + part == Encode(asked, d)
    ensures asked == hrp && part == Chars(Packed(d) + CreateChecksum(hrp, Packed(d)))
  {
    hide CreateChecksum, Chars, Packed, LastOne;
    var theirs := Chars(Packed(d) + CreateChecksum(asked, Packed(d)));
    IndicesOfChars(Packed(d) + CreateChecksum(asked, Packed(d)));
    CharsetPlain(part);
    CharsetPlain(theirs);
    LastOneAt(hrp, part);
    LastOneAt(asked, theirs);
    assert hrp == (hrp + "1" + part)[..|hrp|] && asked == (asked + "1" + theirs)[..|asked|];
    assert part == (hrp + "1" + part)[|hrp| + 1..] && theirs == (asked + "1" + theirs)[|asked| + 1..];
  }

  lemma SameSymbols(a: seq<nat>, x: seq<nat>, b: seq<nat>, y: seq<nat>)
    requires Symbolic(a) && Symbolic(x) && Symbolic(b) && Symbolic(y) && |x| == |y| == 6
    requires Symbolic(a + x) && Symbolic(b + y) && Chars(a + x) == Chars(b + y)
    ensures a == b && x == y
  {
    hide Chars;
    IndicesOfChars(a + x);
    IndicesOfChars(b + y);
    assert a == (a + x)[..|a|] && b == (b + y)[..|b|];
    assert x == (a + x)[|a|..] && y == (b + y)[|b|..];
  }

  /** So a certificate's amount cannot be rewritten: whatever the parser makes of the
      new prefix, the string is no certificate. */
  lemma AmountDetected(parse: string -> Option<nat>, hrp: string, other: string, k: nat, signature: seq<Byte>)
    requires Rewritten(hrp, other, k) && (SameHigh(hrp, other) || SameLow(hrp, other)) && Lower(other) == other
    ensures |Encode(hrp, signature)| >= |hrp|
    ensures DecodeCs1(parse, other + Encode(hrp, signature)[|hrp|..]) == None
  {
    hide Encode, Decode, DecodeCs1, Lower, LastOne, Rewritten, SameHigh, SameLow;
    PrefixDetected(hrp, other, k, signature, "");
    var t := other + Encode(hrp, signature)[|hrp|..];
    forall asked ensures Decode(asked, t) == None {
      PrefixDetected(hrp, other, k, signature, asked);
    }
    Cs1Decodes(parse, t);
  }
}
