/** The mint's bech32m codec (BIP-350, section "Bech32m") without BIP-173's
    90-character cap: encode, decode, and the fixed-length and amount-carrying
    wrappers over them. */
module Bech32m {
  import opened Wrappers
  import opened Checksum
  import opened Regroup

  const BECH32M_CONST: Word := 0x2BC830A3
  const CHARSET: string := "qpzry9x8gf2tvdw0s3jn54khce6mua7l"

  type Byte = b: int | 0 <= b < 256

  // --- The alphabet --------------------------------------------------------

  /** `CHARSET.find(c)`. */
  function Find(c: char): (r: int)
    ensures r == -1 <==> c !in CHARSET
    ensures r != -1 ==> 0 <= r < 32 && CHARSET[r] == c
  {
    FindFrom(c, 0)
  }

  function FindFrom(c: char, i: nat): (r: int)
    requires i <= |CHARSET|
    ensures r == -1 <==> c !in CHARSET[i..]
    ensures r != -1 ==> i <= r < |CHARSET| && CHARSET[r] == c
    decreases |CHARSET| - i
  {
    if i == |CHARSET| then -1
    else if CHARSET[i] == c then i
    else
      assert CHARSET[i..] == [CHARSET[i]] + CHARSET[i + 1..];
      FindFrom(c, i + 1)
  }

  function Chars(symbols: seq<nat>): (s: string)
    requires Symbolic(symbols)
    ensures |s| == |symbols|
  {
    seq(|symbols|, i requires 0 <= i < |symbols| => CHARSET[symbols[i]])
  }

  predicate Symbolic(symbols: seq<nat>) {
    forall i | 0 <= i < |symbols| :: symbols[i] < 32
  }

  function Indices(s: string): (symbols: seq<nat>)
    requires InCharset(s)
    ensures |symbols| == |s| && Symbolic(symbols)
  {
    seq(|s|, i requires 0 <= i < |s| => assert s[i] in s; Find(s[i]) as nat)
  }

  predicate InCharset(s: string) {
    forall c | c in s :: c in CHARSET
  }

  // --- The checksum over symbols -------------------------------------------

  function HighBits(c: char): Word { (c as int) as Word >> 5 }

  function LowBits(c: char): Word { (c as int) as Word & 31 }

  /** BIP-173's `hrp_expand`: the high bits of every character, a zero, the low
      bits of every character. */
  function HrpExpand(hrp: string): seq<Word> {
    seq(|hrp|, i requires 0 <= i < |hrp| => HighBits(hrp[i]))
    + [0]
    + seq(|hrp|, i requires 0 <= i < |hrp| => LowBits(hrp[i]))
  }

  function ToWord(v: nat): Word
    requires v < 32
  {
    v as Word
  }

  function Words(symbols: seq<nat>): (ws: seq<Word>)
    requires Symbolic(symbols)
    ensures |ws| == |symbols|
  {
    seq(|symbols|, i requires 0 <= i < |symbols| => ToWord(symbols[i]))
  }

  /** The residue of a message under an HRP. */
  function Residue(hrp: string, data: seq<Word>): Word {
    Polymod(1, HrpExpand(hrp) + data)
  }

  function SymbolOf(w: Word): nat { Symbol(w) as int }

  function CreateChecksum(hrp: string, data: seq<nat>): (c: seq<nat>)
    requires Symbolic(data)
    ensures |c| == 6 && Symbolic(c)
  {
    SixSymbols(Plus(Residue(hrp, Words(data) + SIX_ZEROS), BECH32M_CONST))
  }

  function SixSymbols(w: Word): (c: seq<nat>)
    ensures |c| == 6 && Symbolic(c)
  {
    SymbolSmall(w >> 25); SymbolSmall(w >> 20); SymbolSmall(w >> 15);
    SymbolSmall(w >> 10); SymbolSmall(w >> 5); SymbolSmall(w);
    [SymbolOf(w >> 25), SymbolOf(w >> 20), SymbolOf(w >> 15), SymbolOf(w >> 10), SymbolOf(w >> 5), SymbolOf(w)]
  }

  lemma SymbolSmall(w: Word)
    ensures SymbolOf(w) < 32
  {
    assert w & 31 < 32;
  }

  predicate VerifyChecksum(hrp: string, data: seq<nat>)
    requires Symbolic(data)
  {
    Residue(hrp, Words(data)) == BECH32M_CONST
  }

  // --- encode and decode ---------------------------------------------------

  /** The 5-bit symbols of a byte string. */
  function Packed(data: seq<Byte>): (symbols: seq<nat>)
    ensures Fits(symbols, 5) && Symbolic(symbols)
    ensures ConvertBits(data, 8, 5, true) == Some(symbols)
  {
    ByteFits(data);
    PaddedMeaning(data, 8, 5);
    var symbols := ConvertBits(data, 8, 5, true).value;
    SymbolFits(symbols);
    symbols
  }

  function Encode(hrp: string, data: seq<Byte>): string {
    var values := Packed(data);
    hrp + "1" + Chars(values + CreateChecksum(hrp, values))
  }

  predicate Printable(s: string) {
    forall c | c in s :: 33 <= c as int <= 126
  }

  /** Python's lower() and upper(), on ASCII. */
  function LowerChar(c: char): char {
    if 'A' <= c <= 'Z' then c - 'A' + 'a' else c
  }

  function UpperChar(c: char): char {
    if 'a' <= c <= 'z' then c - 'a' + 'A' else c
  }

  function Lower(s: string): (r: string)
    ensures |r| == |s|
  {
    seq(|s|, i requires 0 <= i < |s| => LowerChar(s[i]))
  }

  function Upper(s: string): (r: string)
    ensures |r| == |s|
  {
    seq(|s|, i requires 0 <= i < |s| => UpperChar(s[i]))
  }

  /** `s.rfind("1")`. */
  function LastOne(s: string): (r: int)
    ensures -1 <= r < |s| && (r >= 0 ==> s[r] == '1')
    ensures forall k | r < k < |s| :: s[k] != '1'
    decreases |s|
  {
    if |s| == 0 then -1
    else
      var n := |s| - 1;
      if s[n] == '1' then n else LastOne(s[..n])
  }

  function Decode(hrp: string, s: string): Option<seq<Byte>> {
    if !Printable(s) then None
    else if Lower(s) != s && Upper(s) != s then None
    else DecodeFolded(hrp, Lower(s))
  }

  /** The rest of decode, once the string is lowercase. */
  function DecodeFolded(hrp: string, l: string): Option<seq<Byte>> {
    var pos := LastOne(l);
    if pos < 1 || pos + 7 > |l| then None
    else
      var foundHrp, part := l[..pos], l[pos + 1..];
      if foundHrp != hrp || !InCharset(part) then None
      else
        var data := Indices(part);
        if !VerifyChecksum(foundHrp, data) then None
        else Unpacked(data[..|data| - 6])
  }

  function Unpacked(symbols: seq<nat>): Option<seq<Byte>>
    requires Symbolic(symbols)
  {
    match ConvertBits(symbols, 5, 8, false)
    case None => None
    case Some(bytes) =>
      SymbolFits(symbols);
      UnpaddedMeaning(symbols, 5, 8);
      ByteFits(bytes);
      Some(bytes)
  }

  // --- Conversions ---------------------------------------------------------

  lemma ByteFits(values: seq<nat>)
    ensures Fits(values, 8) <==> forall i | 0 <= i < |values| :: values[i] < 256
  {
    assert Pow2(8) == 256 by { assert Pow2(4) == 16; }
  }

  lemma SymbolFits(values: seq<nat>)
    ensures Fits(values, 5) <==> Symbolic(values)
  {
    assert Pow2(5) == 32 by { assert Pow2(3) == 8; }
  }

  /** The position of a character of CHARSET, spelled out. */
  function Rank(c: char): int {
    if c == 'q' then 0
    else if c == 'p' then 1
    else if c == 'z' then 2
    else if c == 'r' then 3
    else if c == 'y' then 4
    else if c == '9' then 5
    else if c == 'x' then 6
    else if c == '8' then 7
    else if c == 'g' then 8
    else if c == 'f' then 9
    else if c == '2' then 10
    else if c == 't' then 11
    else if c == 'v' then 12
    else if c == 'd' then 13
    else if c == 'w' then 14
    else if c == '0' then 15
    else if c == 's' then 16
    else if c == '3' then 17
    else if c == 'j' then 18
    else if c == 'n' then 19
    else if c == '5' then 20
    else if c == '4' then 21
    else if c == 'k' then 22
    else if c == 'h' then 23
    else if c == 'c' then 24
    else if c == 'e' then 25
    else if c == '6' then 26
    else if c == 'm' then 27
    else if c == 'u' then 28
    else if c == 'a' then 29
    else if c == '7' then 30
    else if c == 'l' then 31
    else -1
  }

  lemma FindInverse(v: nat)
    requires v < 32
    ensures CHARSET[v] in CHARSET && Find(CHARSET[v]) == v
  {
    var r := Find(CHARSET[v]);
    RankOf(v);
    RankOf(r);
  }

  lemma RankOf(v: nat)
    requires v < 32
    ensures Rank(CHARSET[v]) == v
  {
    if v < 16 { RankLow(v); } else { RankHigh(v); }
  }

  lemma RankLow(v: nat)
    requires 0 <= v < 16
    ensures Rank(CHARSET[v]) == v
  {
    if v == 0 { assert CHARSET[0] == 'q'; }
    else if v == 1 { assert CHARSET[1] == 'p'; }
    else if v == 2 { assert CHARSET[2] == 'z'; }
    else if v == 3 { assert CHARSET[3] == 'r'; }
    else if v == 4 { assert CHARSET[4] == 'y'; }
    else if v == 5 { assert CHARSET[5] == '9'; }
    else if v == 6 { assert CHARSET[6] == 'x'; }
    else if v == 7 { assert CHARSET[7] == '8'; }
    else if v == 8 { assert CHARSET[8] == 'g'; }
    else if v == 9 { assert CHARSET[9] == 'f'; }
    else if v == 10 { assert CHARSET[10] == '2'; }
    else if v == 11 { assert CHARSET[11] == 't'; }
    else if v == 12 { assert CHARSET[12] == 'v'; }
    else if v == 13 { assert CHARSET[13] == 'd'; }
    else if v == 14 { assert CHARSET[14] == 'w'; }
    else if v == 15 { assert CHARSET[15] == '0'; }
  }

  lemma RankHigh(v: nat)
    requires 16 <= v < 32
    ensures Rank(CHARSET[v]) == v
  {
    if v == 16 { assert CHARSET[16] == 's'; }
    else if v == 17 { assert CHARSET[17] == '3'; }
    else if v == 18 { assert CHARSET[18] == 'j'; }
    else if v == 19 { assert CHARSET[19] == 'n'; }
    else if v == 20 { assert CHARSET[20] == '5'; }
    else if v == 21 { assert CHARSET[21] == '4'; }
    else if v == 22 { assert CHARSET[22] == 'k'; }
    else if v == 23 { assert CHARSET[23] == 'h'; }
    else if v == 24 { assert CHARSET[24] == 'c'; }
    else if v == 25 { assert CHARSET[25] == 'e'; }
    else if v == 26 { assert CHARSET[26] == '6'; }
    else if v == 27 { assert CHARSET[27] == 'm'; }
    else if v == 28 { assert CHARSET[28] == 'u'; }
    else if v == 29 { assert CHARSET[29] == 'a'; }
    else if v == 30 { assert CHARSET[30] == '7'; }
    else if v == 31 { assert CHARSET[31] == 'l'; }
  }

  lemma WordOfSymbol(v: nat)
    requires v < 32
    ensures ToWord(v) < 32 && SymbolOf(ToWord(v)) == v
  {
    var w := v as Word;
    assert w as int == v;
    assert w < 32;
    LowMask(w);
  }

  lemma LowMask(w: Word)
    ensures w < 32 ==> w & 31 == w
  {
  }

  lemma WordOfSymbolOf(w: Word)
    ensures SymbolOf(w) < 32 && ToWord(SymbolOf(w)) == Symbol(w)
  {
    var m := w & 31;
    assert m < 32;
    assert (m as int) as Word == m;
  }

  lemma IndicesOfChars(symbols: seq<nat>)
    requires Symbolic(symbols)
    ensures InCharset(Chars(symbols)) && Indices(Chars(symbols)) == symbols
  {
    var s := Chars(symbols);
    forall i | 0 <= i < |s| ensures s[i] in CHARSET && Find(s[i]) == symbols[i] {
      FindInverse(symbols[i]);
    }
  }

  lemma CharsOfIndices(s: string)
    requires InCharset(s)
    ensures Chars(Indices(s)) == s
  {
    forall i | 0 <= i < |s| ensures Chars(Indices(s))[i] == s[i] {
      assert s[i] in s;
    }
  }

  /** CHARSET is printable, lowercase, and has no separator in it. */
  lemma CharsetPlain(s: string)
    requires InCharset(s)
    ensures Printable(s) && Lower(s) == s && '1' !in s
  {
    forall c | c in s ensures 33 <= c as int <= 126 && LowerChar(c) == c && c != '1' {
      assert c in CHARSET;
    }
  }

  lemma WordsAppend(a: seq<nat>, b: seq<nat>)
    requires Symbolic(a) && Symbolic(b)
    ensures Symbolic(a + b) && Words(a + b) == Words(a) + Words(b)
  {
  }

  lemma WordsInjective(a: seq<nat>, b: seq<nat>)
    requires Symbolic(a) && Symbolic(b) && Words(a) == Words(b)
    ensures a == b
  {
    forall i | 0 <= i < |a| ensures a[i] == b[i] {
      WordOfSymbol(a[i]);
      WordOfSymbol(b[i]);
      assert Words(a)[i] == Words(b)[i];
    }
  }

  lemma WordsSymbols(a: seq<nat>)
    requires Symbolic(a)
    ensures Symbols(Words(a))
  {
    forall i | 0 <= i < |a| ensures Words(a)[i] < 32 {
      WordOfSymbol(a[i]);
    }
  }

  // --- The checksum verifies exactly one way -------------------------------

  lemma WordsOfSix(w: Word)
    ensures Words(SixSymbols(w)) == Unpack(w)
  {
    hide ToWord, SymbolOf, Symbol;
    WordOfSymbolOf(w >> 25);
    WordOfSymbolOf(w >> 20);
    WordOfSymbolOf(w >> 15);
    WordOfSymbolOf(w >> 10);
    WordOfSymbolOf(w >> 5);
    WordOfSymbolOf(w);
  }

  lemma ChecksumWords(hrp: string, data: seq<nat>)
    requires Symbolic(data)
    ensures Words(CreateChecksum(hrp, data)) == Unpack(Plus(Residue(hrp, Words(data) + SIX_ZEROS), BECH32M_CONST))
  {
    hide Plus, Residue, Words, SixSymbols, Unpack;
    WordsOfSix(Plus(Residue(hrp, Words(data) + SIX_ZEROS), BECH32M_CONST));
  }

  /** Six trailing symbols pass verification if and only if they are the ones
      `_create_checksum` produces. */
  lemma ChecksumExact(hrp: string, data: seq<nat>, tail: seq<nat>)
    requires Symbolic(data) && Symbolic(tail) && |tail| == 6
    ensures Symbolic(data + tail)
    ensures VerifyChecksum(hrp, data + tail) <==> tail == CreateChecksum(hrp, data)
  {
    hide Plus, Unpack, Polymod, HrpExpand, CreateChecksum, Words;
    WordsAppend(data, tail);
    WordsSymbols(tail);
    var head := HrpExpand(hrp) + Words(data);
    var c := Polymod(1, head);
    ResidueAppend(hrp, Words(data), Words(tail));
    ResidueAppend(hrp, Words(data), SIX_ZEROS);
    ChecksumUnique(c, BECH32M_CONST, Words(tail));
    ChecksumWords(hrp, data);
    if VerifyChecksum(hrp, data + tail) {
      WordsInjective(tail, CreateChecksum(hrp, data));
    }
  }

  lemma ResidueAppend(hrp: string, a: seq<Word>, b: seq<Word>)
    ensures Residue(hrp, a + b) == Polymod(Residue(hrp, a), b)
  {
    hide Polymod;
    assert HrpExpand(hrp) + (a + b) == HrpExpand(hrp) + a + b;
    PolymodAppend(1, HrpExpand(hrp) + a, b);
  }

  // --- Decoding is exactly the inverse of encoding -------------------------

  lemma LastOneAt(hrp: string, part: string)
    requires '1' !in part
    ensures LastOne(hrp + "1" + part) == |hrp|
  {
    hide *;
    Separated(hrp, part);
    LastOneIs(hrp + "1" + part, |hrp|);
  }

  lemma Separated(hrp: string, part: string)
    requires '1' !in part
    ensures var l := hrp + "1" + part;
            |hrp| < |l| && l[|hrp|] == '1' && forall k | |hrp| < k < |l| :: l[k] != '1'
  {
    var l := hrp + "1" + part;
    forall k | |hrp| < k < |l| ensures l[k] == part[k - |hrp| - 1] {
    }
  }

  lemma LastOneIs(l: string, n: nat)
    requires n < |l| && l[n] == '1' && forall k | n < k < |l| :: l[k] != '1'
    ensures LastOne(l) == n
  {
    hide LastOne;
    assert !(LastOne(l) < n) && !(n < LastOne(l));
  }

  /** Packing symbols and unpacking them, at the level of `encode`/`decode`. */
  lemma PackedExact(symbols: seq<nat>, d: seq<Byte>)
    requires Symbolic(symbols)
    ensures Unpacked(symbols) == Some(d) <==> symbols == Packed(d)
  {
    hide ConvertBits;
    SymbolFits(symbols);
    ByteFits(d);
    PackingInverse(d, symbols);
  }

  lemma FoldedExact(hrp: string, l: string, d: seq<Byte>)
    ensures DecodeFolded(hrp, l) == Some(d) <==> |hrp| >= 1 && l == Encode(hrp, d)
  {
    hide *;
    if |hrp| >= 1 && l == Encode(hrp, d) {
      FoldedDecodes(hrp, d);
    }
    if DecodeFolded(hrp, l) == Some(d) {
      FoldedEncodes(hrp, l, d);
    }
  }

  lemma FoldedDecodes(hrp: string, d: seq<Byte>)
    requires |hrp| >= 1
    ensures DecodeFolded(hrp, Encode(hrp, d)) == Some(d)
  {
    hide Unpacked, Packed, CreateChecksum, VerifyChecksum, Indices, Chars, LastOne;
    var packed := Packed(d);
    var symbols := packed + CreateChecksum(hrp, packed);
    var l := hrp + "1" + Chars(symbols);
    IndicesOfChars(symbols);
    CharsetPlain(Chars(symbols));
    LastOneAt(hrp, Chars(symbols));
    assert l[..|hrp|] == hrp && l[|hrp| + 1..] == Chars(symbols);
    ChecksumExact(hrp, packed, CreateChecksum(hrp, packed));
    assert symbols[..|symbols| - 6] == packed;
    PackedExact(packed, d);
  }

  lemma FoldedEncodes(hrp: string, l: string, d: seq<Byte>)
    requires DecodeFolded(hrp, l) == Some(d)
    ensures |hrp| >= 1 && l == Encode(hrp, d)
  {
    hide Unpacked, Packed, CreateChecksum, VerifyChecksum, Indices, Chars, LastOne;
    var pos := LastOne(l);
    var part := l[pos + 1..];
    var data := Indices(part);
    var values, tail := data[..|data| - 6], data[|data| - 6..];
    assert data == values + tail;
    PackedExact(values, d);
    ChecksumExact(hrp, values, tail);
    CharsOfIndices(part);
    assert l == l[..pos] + "1" + part;
  }

  predicate GoodHrp(hrp: string) {
    |hrp| >= 1 && Printable(hrp) && Lower(hrp) == hrp
  }

  lemma LowerPrintable(s: string)
    ensures Printable(Lower(s)) <==> Printable(s)
    ensures Lower(Lower(s)) == Lower(s)
  {
    forall i | 0 <= i < |s| ensures LowerChar(s[i]) in Lower(s) && s[i] in s {
      assert Lower(s)[i] == LowerChar(s[i]);
    }
  }

  lemma EncodePlain(hrp: string, d: seq<Byte>)
    ensures Printable(Encode(hrp, d)) <==> Printable(hrp)
    ensures Lower(Encode(hrp, d)) == Encode(hrp, d) <==> Lower(hrp) == hrp
  {
    hide Packed, CreateChecksum;
    var packed := Packed(d);
    var symbols := packed + CreateChecksum(hrp, packed);
    var part := Chars(symbols);
    IndicesOfChars(symbols);
    CharsetPlain(part);
    var e := hrp + "1" + part;
    assert forall c :: c in e <==> c in hrp || c == '1' || c in part;
    assert Lower(e) == Lower(hrp) + "1" + part;
    assert Lower(hrp) == (Lower(hrp) + "1" + part)[..|hrp|] && hrp == e[..|hrp|];
  }

  /** Decoding returns `d` for exactly the strings that spell `encode(hrp, d)` in
      one case, upper or lower, under a usable HRP: at every length, nothing
      else decodes, and nothing decodes two ways. */
  lemma DecodeExact(hrp: string, s: string, d: seq<Byte>)
    ensures Decode(hrp, s) == Some(d) <==>
              GoodHrp(hrp) && (Lower(s) == s || Upper(s) == s) && Lower(s) == Encode(hrp, d)
  {
    hide Encode, DecodeFolded, Lower, Upper, Printable;
    FoldedExact(hrp, Lower(s), d);
    LowerPrintable(s);
    EncodePlain(hrp, d);
  }

  /** Every byte string comes back from its encoding, for exactly the usable
      HRPs: non-empty, printable ASCII, no capital letter. */
  lemma RoundTrip(hrp: string, d: seq<Byte>)
    ensures Decode(hrp, Encode(hrp, d)) == if GoodHrp(hrp) then Some(d) else None
  {
    hide Encode, Decode, Lower, Upper, Printable;
    var e := Encode(hrp, d);
    EncodePlain(hrp, d);
    DecodeExact(hrp, e, d);
    match Decode(hrp, e)
    case None =>
    case Some(d') => DecodeExact(hrp, e, d');
  }

  /** No two pairs of HRP and payload share an encoding, digits `1` in the HRP
      included. */
  lemma EncodeInjective(hrp: string, d: seq<Byte>, hrp': string, d': seq<Byte>)
    requires Encode(hrp, d) == Encode(hrp', d')
    ensures hrp == hrp' && d == d'
  {
    hide Packed, CreateChecksum, LastOne, Chars;
    var x, x' := Packed(d), Packed(d');
    var t, t' := Chars(x + CreateChecksum(hrp, x)), Chars(x' + CreateChecksum(hrp', x'));
    IndicesOfChars(x + CreateChecksum(hrp, x));
    IndicesOfChars(x' + CreateChecksum(hrp', x'));
    CharsetPlain(t);
    CharsetPlain(t');
    LastOneAt(hrp, t);
    LastOneAt(hrp', t');
    assert hrp == (hrp + "1" + t)[..|hrp|] && hrp' == (hrp' + "1" + t')[..|hrp'|];
    assert t == (hrp + "1" + t)[|hrp| + 1..] && t' == (hrp' + "1" + t')[|hrp'| + 1..];
    assert x == (x + CreateChecksum(hrp, x))[..|x|] && x' == (x' + CreateChecksum(hrp', x'))[..|x'|];
    PackedExact(x, d);
    PackedExact(x, d');
  }

  // --- Error detection -----------------------------------------------------

  /** Corrupting any run of up to six neighbouring data symbols into other
      CHARSET symbols is always noticed, however long the string is. */
  lemma BurstDetected(hrp: string, d: seq<Byte>, t: string, p: nat)
    requires var e := Encode(hrp, d);
             && |t| == |e| && |hrp| + 1 <= p && p + 6 <= |e|
             && t[..p] == e[..p] && t[p + 6..] == e[p + 6..]
             && InCharset(t[p..p + 6]) && t != e
    ensures Decode(hrp, t) == None
  {
    hide Encode, Decode, Lower, Upper, Printable;
    match Decode(hrp, t)
    case None =>
    case Some(d') =>
      DecodeExact(hrp, t, d');
      EncodePlain(hrp, d);
      LowerSplice(Encode(hrp, d), t, p);
      TwoCodewords(hrp, d, d', p);
  }

  lemma LowerSplice(e: string, t: string, p: nat)
    requires |t| == |e| && p + 6 <= |e| && t[..p] == e[..p] && t[p + 6..] == e[p + 6..]
    requires InCharset(t[p..p + 6]) && Lower(e) == e
    ensures Lower(t) == t
  {
    CharsetPlain(t[p..p + 6]);
    forall i | 0 <= i < |t| ensures LowerChar(t[i]) == t[i] {
      if i < p {
        assert t[i] == t[..p][i] == e[..p][i];
      } else if i < p + 6 {
        assert t[i] == t[p..p + 6][i - p];
        assert Lower(t[p..p + 6])[i - p] == t[p..p + 6][i - p];
      } else {
        assert t[i] == t[p + 6..][i - p - 6] == e[p + 6..][i - p - 6];
      }
      assert Lower(e)[i] == LowerChar(e[i]);
    }
  }

  /** Two encodings under one HRP that agree outside a window of six symbols
      agree inside it. */
  lemma TwoCodewords(hrp: string, d: seq<Byte>, d': seq<Byte>, p: nat)
    requires var e, e' := Encode(hrp, d), Encode(hrp, d');
             && |e| == |e'| && |hrp| + 1 <= p && p + 6 <= |e| && e[..p] == e'[..p] && e[p + 6..] == e'[p + 6..]
    ensures Encode(hrp, d) == Encode(hrp, d')
  {
    hide Packed, CreateChecksum, Chars, VerifyChecksum;
    var v, v' := Packed(d), Packed(d');
    var x, x' := v + CreateChecksum(hrp, v), v' + CreateChecksum(hrp, v');
    ChecksumExact(hrp, v, CreateChecksum(hrp, v));
    ChecksumExact(hrp, v', CreateChecksum(hrp, v'));
    var k := p - |hrp| - 1;
    TailsAgree(hrp + "1", Chars(x), Chars(x'), k);
    SymbolsAgree(x, x', k);
    WindowVerifies(hrp, x, x', k);
  }

  lemma TailsAgree(h: string, c: string, c': string, k: nat)
    requires |c| == |c'| && k + 6 <= |c|
    requires (h + c)[..|h| + k] == (h + c')[..|h| + k] && (h + c)[|h| + k + 6..] == (h + c')[|h| + k + 6..]
    ensures c[..k] == c'[..k] && c[k + 6..] == c'[k + 6..]
  {
    assert c[..k] == (h + c)[..|h| + k][|h|..] && c'[..k] == (h + c')[..|h| + k][|h|..];
    assert c[k + 6..] == (h + c)[|h| + k + 6..] && c'[k + 6..] == (h + c')[|h| + k + 6..];
  }

  lemma SymbolsAgree(x: seq<nat>, x': seq<nat>, k: nat)
    requires Symbolic(x) && Symbolic(x') && |x| == |x'| && k + 6 <= |x|
    requires Chars(x)[..k] == Chars(x')[..k] && Chars(x)[k + 6..] == Chars(x')[k + 6..]
    ensures x[..k] == x'[..k] && x[k + 6..] == x'[k + 6..]
  {
    IndicesOfChars(x);
    IndicesOfChars(x');
    var c, c' := Chars(x), Chars(x');
    forall i | 0 <= i < |x| && (i < k || k + 6 <= i) ensures x[i] == x'[i] {
      assert c[i] == c'[i] by {
        if i < k {
          assert c[i] == c[..k][i] && c'[i] == c'[..k][i];
        } else {
          assert c[i] == c[k + 6..][i - k - 6] && c'[i] == c'[k + 6..][i - k - 6];
        }
      }
      assert Indices(c)[i] == Indices(c')[i];
    }
  }

  lemma WindowVerifies(hrp: string, x: seq<nat>, x': seq<nat>, k: nat)
    requires Symbolic(x) && Symbolic(x') && |x| == |x'| && k + 6 <= |x|
    requires x[..k] == x'[..k] && x[k + 6..] == x'[k + 6..]
    requires VerifyChecksum(hrp, x) && VerifyChecksum(hrp, x')
    ensures x == x'
  {
    hide Polymod, HrpExpand, Words;
    var a, b, c := x[..k], x[k..k + 6], x[k + 6..];
    var b' := x'[k..k + 6];
    assert x == a + b + c && x' == a + b' + c;
    if b != b' {
      WindowResidue(hrp, a, b, b', c);
    }
  }

  lemma WindowResidue(hrp: string, a: seq<nat>, b: seq<nat>, b': seq<nat>, c: seq<nat>)
    requires Symbolic(a) && Symbolic(b) && Symbolic(b') && Symbolic(c) && |b| == |b'| == 6 && b != b'
    ensures Symbolic(a + b + c) && Symbolic(a + b' + c)
    ensures Residue(hrp, Words(a + b + c)) != Residue(hrp, Words(a + b' + c))
  {
    hide Polymod, HrpExpand, Words;
    WordsAppend(a, b);
    WordsAppend(a + b, c);
    WordsAppend(a, b');
    WordsAppend(a + b', c);
    WordsSymbols(b);
    WordsSymbols(b');
    if Words(b) == Words(b') {
      WordsInjective(b, b');
    }
    var before := HrpExpand(hrp) + Words(a);
    assert HrpExpand(hrp) + (Words(a) + Words(b) + Words(c)) == before + Words(b) + Words(c);
    assert HrpExpand(hrp) + (Words(a) + Words(b') + Words(c)) == before + Words(b') + Words(c);
    BurstChangesResidue(1, before, Words(b), Words(b'), Words(c));
  }

  // --- The wrappers --------------------------------------------------------

  /** `_fixed_length_codec`'s encoder: an error for any other length. */
  function EncodeFixed(hrp: string, length: nat, data: seq<Byte>): Result<string, string> {
    if |data| != length then Err("wrong payload length") else Ok(Encode(hrp, data))
  }

  function DecodeFixed(hrp: string, length: nat, s: string): Option<seq<Byte>> {
    match Decode(hrp, s)
    case None => None
    case Some(data) => if |data| == length then Some(data) else None
  }

  /** A fixed-length codec accepts exactly the spellings of what its encoder
      produces. */
  lemma FixedExact(hrp: string, length: nat, s: string, d: seq<Byte>)
    requires GoodHrp(hrp)
    ensures DecodeFixed(hrp, length, s) == Some(d) <==>
              EncodeFixed(hrp, length, d) == Ok(Lower(s)) && (Lower(s) == s || Upper(s) == s)
  {
    hide Encode, Decode, Lower, Upper;
    DecodeExact(hrp, s, d);
  }

  /** `cs1`: a 65-byte signature under an HRP that spells its amount.  How an
      amount is spelled is BOLT 11's business: `spell` and `parse` stand for it. */
  function EncodeCs1(spell: nat -> string, amount: nat, signature: seq<Byte>): Result<string, string> {
    if |signature| != 65 then Err("wrong payload length") else Ok(Encode("cs" + spell(amount), signature))
  }

  function DecodeCs1(parse: string -> Option<nat>, s: string): Option<(nat, seq<Byte>)> {
    if !Printable(s) then None
    else if Lower(s) != s && Upper(s) != s then None
    else
      var l := Lower(s);
      var pos := LastOne(l);
      if pos < 1 || pos + 7 > |l| then None
      else
        var foundHrp, part := l[..pos], l[pos + 1..];
        if !("cs" <= foundHrp) || !InCharset(part) then None
        else
          match parse(foundHrp[2..])
          case None => None
          case Some(amount) =>
            var data := Indices(part);
            if !VerifyChecksum(foundHrp, data) then None
            else
              match Unpacked(data[..|data| - 6])
              case None => None
              case Some(bytes) =>
                if |bytes| != 65 || bytes[64] > 3 then None else Some((amount, bytes))
  }

  /** decode_cs1 is decode under whatever HRP the string itself carries. */
  lemma Cs1Decodes(parse: string -> Option<nat>, s: string)
    ensures DecodeCs1(parse, s) ==
      var pos := LastOne(Lower(s));
      if pos < 1 then None
      else
        var hrp := Lower(s)[..pos];
        if !("cs" <= hrp) || parse(hrp[2..]) == None then None
        else
          match Decode(hrp, s)
          case None => None
          case Some(d) => if |d| == 65 && d[64] <= 3 then Some((parse(hrp[2..]).value, d)) else None
  {
    hide Unpacked, VerifyChecksum, Indices, LastOne, Lower, Upper, Printable, InCharset;
  }

  /** A certificate reads back its own amount and signature, provided its
      recovery id is 0 to 3, and nothing at all otherwise. */
  lemma Cs1RoundTrip(spell: nat -> string, parse: string -> Option<nat>, amount: nat, signature: seq<Byte>)
    requires parse(spell(amount)) == Some(amount)
    requires Printable(spell(amount)) && Lower(spell(amount)) == spell(amount)
    requires |signature| == 65
    ensures DecodeCs1(parse, EncodeCs1(spell, amount, signature).value) ==
            if signature[64] <= 3 then Some((amount, signature)) else None
  {
    hide Decode, DecodeCs1, Packed, CreateChecksum, Chars;
    var hrp := "cs" + spell(amount);
    assert hrp[2..] == spell(amount);
    assert GoodHrp(hrp) by {
      assert forall i | 0 <= i < |hrp| :: LowerChar(hrp[i]) == hrp[i] by {
        forall i | 2 <= i < |hrp| ensures LowerChar(hrp[i]) == hrp[i] {
          assert Lower(spell(amount))[i - 2] == spell(amount)[i - 2];
        }
      }
    }
    var packed := Packed(signature);
    var symbols := packed + CreateChecksum(hrp, packed);
    var s := hrp + "1" + Chars(symbols);
    IndicesOfChars(symbols);
    CharsetPlain(Chars(symbols));
    LastOneAt(hrp, Chars(symbols));
    assert s[..|hrp|] == hrp;
    EncodePlain(hrp, signature);
    RoundTrip(hrp, signature);
    Cs1Decodes(parse, s);
  }

  /** What a string carries before its last separator, if it has one. */
  function Prefix(l: string): string {
    if LastOne(l) < 0 then "" else l[..LastOne(l)]
  }

  /** Whatever decode_cs1 reads is spelled by the encoding of the signature under
      the prefix it carries, which parses to the amount. */
  lemma Cs1Canonical(parse: string -> Option<nat>, s: string, amount: nat, signature: seq<Byte>)
    requires DecodeCs1(parse, s) == Some((amount, signature))
    ensures |signature| == 65 && signature[64] <= 3
    ensures var hrp := Prefix(Lower(s));
            "cs" <= hrp && parse(hrp[2..]) == Some(amount) && Lower(s) == Encode(hrp, signature)
  {
    hide Decode, DecodeCs1, Encode, Lower, LastOne;
    Cs1Decodes(parse, s);
    DecodeExact(Prefix(Lower(s)), s, signature);
  }

  /** Certificates that read the same are the same, up to case, if and only if they
      carry the same prefix: an amount may have more spellings than one. */
  lemma Cs1Unique(parse: string -> Option<nat>, s: string, t: string)
    requires DecodeCs1(parse, s).Some? && DecodeCs1(parse, t) == DecodeCs1(parse, s)
    ensures Lower(t) == Lower(s) <==> Prefix(Lower(t)) == Prefix(Lower(s))
  {
    hide Decode, DecodeCs1, Encode, Lower, Prefix;
    var (amount, signature) := DecodeCs1(parse, s).value;
    Cs1Canonical(parse, s, amount, signature);
    Cs1Canonical(parse, t, amount, signature);
  }
}

