/** `convertbits`, the regrouping of BIP-173: an accumulator that takes in
    `from`-bit values and hands out `to`-bit ones.

    What it means is stated on bit strings: the output spells the same bits as
    the input, padded with zeros, or with a short all-zero tail dropped. */
module Regroup {
  import opened Wrappers

  // --- Powers of two and bit strings ---------------------------------------

  function Pow2(n: nat): (p: nat)
    ensures p >= 1
  {
    if n == 0 then 1 else 2 * Pow2(n - 1)
  }

  function ShiftRight(v: nat, n: nat): nat {
    QuotientNonNegative(v, Pow2(n));
    v / Pow2(n)
  }

  lemma QuotientNonNegative(v: nat, d: nat)
    requires d >= 1
    ensures v / d >= 0
  {
    var q := v / d;
    assert v == q * d + v % d;
    Multiple(q, d);
  }

  function ShiftLeft(v: nat, n: nat): nat { v * Pow2(n) }

  /** The low `n` bits of `v`, as a number. */
  function Low(v: nat, n: nat): (r: nat)
    ensures r < Pow2(n)
  {
    v % Pow2(n)
  }

  /** The low `n` bits of `v`, most significant first. */
  function ToBits(v: nat, n: nat): (b: seq<bool>)
    ensures |b| == n
    decreases n
  {
    if n == 0 then [] else ToBits(v / 2, n - 1) + [v % 2 == 1]
  }

  /** The bits of a list of `w`-bit values, end to end. */
  function Spell(values: seq<nat>, w: nat): (b: seq<bool>)
    ensures |b| == |values| * w
    decreases |values|
  {
    if |values| == 0 then []
    else
      var n := |values| - 1;
      assert |values| * w == n * w + w;
      Spell(values[..n], w) + ToBits(values[n], w)
  }

  predicate Fits(values: seq<nat>, w: nat) {
    forall i | 0 <= i < |values| :: values[i] < Pow2(w)
  }

  predicate AllZero(b: seq<bool>) {
    forall i | 0 <= i < |b| :: !b[i]
  }

  // --- Arithmetic of bit strings -------------------------------------------

  lemma Multiple(k: int, d: int)
    requires d >= 1
    ensures k >= 1 ==> k * d >= d
    ensures k <= -1 ==> k * d <= -d
  {
    if k >= 1 {
      assert (k - 1) * d >= 0;
    } else if k <= -1 {
      assert (-k - 1) * d >= 0;
    }
  }

  lemma DivUnique(v: int, d: int, q: int, r: int)
    requires d >= 1 && v == q * d + r && 0 <= r < d
    ensures v / d == q && v % d == r
  {
    var q', r' := v / d, v % d;
    var k := q - q';
    assert v == q' * d + r';
    assert k * d == q * d - q' * d;
    Multiple(k, d);
  }

  lemma HalfDiv(v: nat, p: nat)
    requires p >= 1
    ensures v / 2 / p == v / (2 * p)
    ensures v % (2 * p) / 2 == v / 2 % p && v % (2 * p) % 2 == v % 2
  {
    var q, r := v / 2 / p, v / 2 % p;
    assert v / 2 == q * p + r;
    var rest := 2 * r + v % 2;
    assert 2 * (q * p) == q * (2 * p);
    DivUnique(v, 2 * p, q, rest);
  }

  lemma OneBit(v: nat, n: nat)
    requires n > 0
    ensures ToBits(v, n) == ToBits(v / 2, n - 1) + [v % 2 == 1]
    ensures ShiftRight(v, n) == ShiftRight(v / 2, n - 1)
    ensures Low(v, n) / 2 == Low(v / 2, n - 1) && Low(v, n) % 2 == v % 2
  {
    HalfDiv(v, Pow2(n - 1));
  }

  lemma {:induction false} ToBitsSplit(v: nat, n: nat, m: nat)
    ensures ToBits(v, n + m) == ToBits(ShiftRight(v, m), n) + ToBits(v, m)
    decreases m
  {
    if m == 0 {
      assert ShiftRight(v, 0) == v;
    } else {
      hide *;
      ToBitsSplit(v / 2, n, m - 1);
      OneBit(v, n + m);
      OneBit(v, m);
      AppendAssociative(ToBits(ShiftRight(v, m), n), ToBits(v / 2, m - 1), [v % 2 == 1]);
    }
  }

  lemma AppendAssociative<T>(a: seq<T>, b: seq<T>, c: seq<T>)
    ensures a + b + c == a + (b + c)
  {
  }

  lemma {:induction false} ToBitsLow(v: nat, n: nat, k: nat)
    requires n <= k
    ensures ToBits(Low(v, k), n) == ToBits(v, n)
    decreases n
  {
    if n > 0 {
      hide *;
      OneBit(v, k);
      OneBit(v, n);
      OneBit(Low(v, k), n);
      ToBitsLow(v / 2, n - 1, k - 1);
    } else {
      assert ToBits(v, 0) == [];
    }
  }

  /** Appending an `m`-bit value to an accumulator appends its bits. */
  lemma ToBitsJoin(acc: nat, v: nat, n: nat, m: nat)
    requires v < Pow2(m)
    ensures ToBits(ShiftLeft(acc, m) + v, n + m) == ToBits(acc, n) + ToBits(v, m)
  {
    var x := ShiftLeft(acc, m) + v;
    DivUnique(x, Pow2(m), acc, v);
    assert ShiftRight(x, m) == acc && Low(x, m) == v;
    hide *;
    ToBitsSplit(x, n, m);
    ToBitsLow(x, m, m);
  }

  lemma {:induction false} ToBitsInjective(v: nat, u: nat, n: nat)
    requires v < Pow2(n) && u < Pow2(n) && ToBits(v, n) == ToBits(u, n)
    ensures v == u
    decreases n
  {
    if n > 0 {
      var a, b := ToBits(v, n), ToBits(u, n);
      assert ToBits(v / 2, n - 1) == a[..n - 1] && ToBits(u / 2, n - 1) == b[..n - 1];
      assert a[n - 1] == b[n - 1];
      ToBitsInjective(v / 2, u / 2, n - 1);
    }
  }

  lemma {:induction false} ZeroBits(v: nat, n: nat)
    requires v < Pow2(n)
    ensures AllZero(ToBits(v, n)) <==> v == 0
    decreases n
  {
    if n > 0 {
      ZeroBits(v / 2, n - 1);
      AllZeroAppend(ToBits(v / 2, n - 1), [v % 2 == 1]);
      var last := [v % 2 == 1];
      assert AllZero(last) <==> !last[0];
    }
  }

  lemma AllZeroAppend(a: seq<bool>, b: seq<bool>)
    ensures AllZero(a + b) <==> AllZero(a) && AllZero(b)
  {
    if AllZero(a + b) {
      assert forall i | 0 <= i < |a| :: a[i] == (a + b)[i];
      assert forall i | 0 <= i < |b| :: b[i] == (a + b)[|a| + i];
    }
  }

  lemma SplitAppend<T>(a: seq<T>, b: seq<T>, c: seq<T>, d: seq<T>)
    requires |a| == |c| && a + b == c + d
    ensures a == c && b == d
  {
    assert a == (a + b)[..|a|] && c == (c + d)[..|c|];
    assert b == (a + b)[|a|..] && d == (c + d)[|c|..];
  }

  lemma {:induction false} SpellInjective(a: seq<nat>, b: seq<nat>, w: nat)
    requires |a| == |b| && Fits(a, w) && Fits(b, w) && Spell(a, w) == Spell(b, w)
    ensures a == b
    decreases |a|
  {
    if |a| > 0 {
      hide ToBits, Pow2;
      var n := |a| - 1;
      SplitAppend(Spell(a[..n], w), ToBits(a[n], w), Spell(b[..n], w), ToBits(b[n], w));
      SpellInjective(a[..n], b[..n], w);
      ToBitsInjective(a[n], b[n], w);
    }
  }

  // --- convertbits ---------------------------------------------------------

  /** The accumulator, the number of bits in it not handed out yet, and the
      values handed out so far. */
  datatype State = State(acc: nat, bits: nat, ret: seq<nat>)

  /** The inner loop: hand out `to`-bit values while there are enough bits. */
  function Drain(s: State, to: nat): (t: State)
    requires to > 0
    ensures t.bits < to
    decreases s.bits
  {
    if s.bits < to then s
    else
      var bits := s.bits - to;
      Drain(State(s.acc, bits, s.ret + [Low(ShiftRight(s.acc, bits), to)]), to)
  }

  function Take(s: State, v: nat, from: nat, to: nat): (t: State)
    requires from > 0 && to > 0
    ensures t.bits < to
  {
    Drain(State(Low(ShiftLeft(s.acc, from) + v, from + to - 1), s.bits + from, s.ret), to)
  }

  /** The outer loop: None if some value does not fit in `from` bits. */
  function Feed(data: seq<nat>, from: nat, to: nat): (r: Option<State>)
    requires from > 0 && to > 0
    ensures r.Some? ==> r.value.bits < to
    decreases |data|
  {
    if |data| == 0 then Some(State(0, 0, []))
    else
      var n := |data| - 1;
      match Feed(data[..n], from, to)
      case None => None
      case Some(s) => if ShiftRight(data[n], from) != 0 then None else Some(Take(s, data[n], from, to))
  }

  function ConvertBits(data: seq<nat>, from: nat, to: nat, pad: bool): Option<seq<nat>>
    requires from > 0 && to > 0
  {
    match Feed(data, from, to)
    case None => None
    case Some(s) =>
      var tail := Low(ShiftLeft(s.acc, to - s.bits), to);
      if pad then Some(if s.bits > 0 then s.ret + [tail] else s.ret)
      else if s.bits >= from || tail != 0 then None
      else Some(s.ret)
  }

  // --- What it computes ----------------------------------------------------

  /** The bits a state stands for: those handed out and those still held. */
  ghost function Meaning(s: State, to: nat): seq<bool> {
    Spell(s.ret, to) + ToBits(s.acc, s.bits)
  }

  lemma SpellAppend(values: seq<nat>, v: nat, w: nat)
    ensures Spell(values + [v], w) == Spell(values, w) + ToBits(v, w)
  {
    assert (values + [v])[..|values|] == values;
  }

  lemma {:induction false} DrainMeaning(s: State, to: nat)
    requires to > 0 && Fits(s.ret, to)
    ensures var t := Drain(s, to);
            Meaning(t, to) == Meaning(s, to) && t.bits < to && Fits(t.ret, to)
    decreases s.bits
  {
    hide Meaning, Fits, Low, ShiftRight;
    if s.bits >= to {
      var bits := s.bits - to;
      var t := State(s.acc, bits, s.ret + [Low(ShiftRight(s.acc, bits), to)]);
      HandOut(s, to);
      DrainMeaning(t, to);
    }
  }

  /** Handing out one value moves its bits from the accumulator to the output. */
  lemma HandOut(s: State, to: nat)
    requires 0 < to <= s.bits && Fits(s.ret, to)
    ensures var bits := s.bits - to;
            var t := State(s.acc, bits, s.ret + [Low(ShiftRight(s.acc, bits), to)]);
            Meaning(t, to) == Meaning(s, to) && Fits(t.ret, to)
  {
    hide ToBits, Pow2, Spell, Low, ShiftRight;
    var bits := s.bits - to;
    var v := Low(ShiftRight(s.acc, bits), to);
    ToBitsSplit(s.acc, to, bits);
    ToBitsLow(ShiftRight(s.acc, bits), to, to);
    SpellAppend(s.ret, v, to);
    AppendAssociative(Spell(s.ret, to), ToBits(v, to), ToBits(s.acc, bits));
  }

  lemma TakeMeaning(s: State, v: nat, from: nat, to: nat)
    requires from > 0 && to > 0 && s.bits < to && Fits(s.ret, to) && v < Pow2(from)
    ensures var t := Take(s, v, from, to);
            Meaning(t, to) == Meaning(s, to) + ToBits(v, from) && t.bits < to && Fits(t.ret, to)
  {
    hide ToBits, Pow2, Spell, Drain, Low, ShiftLeft, Fits;
    var acc := ShiftLeft(s.acc, from) + v;
    var t := State(Low(acc, from + to - 1), s.bits + from, s.ret);
    ToBitsLow(acc, s.bits + from, from + to - 1);
    ToBitsJoin(s.acc, v, s.bits, from);
    AppendAssociative(Spell(s.ret, to), ToBits(s.acc, s.bits), ToBits(v, from));
    DrainMeaning(t, to);
  }

  lemma {:induction false} FeedMeaning(data: seq<nat>, from: nat, to: nat)
    requires from > 0 && to > 0
    ensures Feed(data, from, to).Some? <==> Fits(data, from)
    ensures Feed(data, from, to).Some? ==>
              var s := Feed(data, from, to).value;
              Meaning(s, to) == Spell(data, from) && s.bits < to && Fits(s.ret, to)
    decreases |data|
  {
    hide ToBits, Take, Pow2, ShiftRight;
    if |data| > 0 {
      var n := |data| - 1;
      FeedMeaning(data[..n], from, to);
      SmallShift(data[n], from);
      if Feed(data[..n], from, to).Some? && data[n] < Pow2(from) {
        TakeMeaning(Feed(data[..n], from, to).value, data[n], from, to);
      }
    }
  }

  lemma SmallShift(v: nat, n: nat)
    ensures ShiftRight(v, n) == 0 <==> v < Pow2(n)
  {
    if v < Pow2(n) {
      DivUnique(v, Pow2(n), 0, v);
    }
  }

  /** The last, zero-filled group holds exactly the bits still held. */
  lemma TailMeaning(s: State, to: nat)
    requires s.bits < to
    ensures var tail := Low(ShiftLeft(s.acc, to - s.bits), to);
            && tail < Pow2(to)
            && ToBits(tail, to) == ToBits(s.acc, s.bits) + ToBits(0, to - s.bits)
            && (tail == 0 <==> AllZero(ToBits(s.acc, s.bits)))
  {
    var m := to - s.bits;
    var tail := Low(ShiftLeft(s.acc, m), to);
    ToBitsLow(ShiftLeft(s.acc, m), to, to);
    ToBitsJoin(s.acc, 0, s.bits, m);
    ZeroBits(tail, to);
    ZeroBits(0, m);
    AllZeroAppend(ToBits(s.acc, s.bits), ToBits(0, m));
  }

  /** With padding: the same bits, then fewer than `to` zeros. */
  lemma PaddedMeaning(data: seq<nat>, from: nat, to: nat)
    requires from > 0 && to > 0 && Fits(data, from)
    ensures var b := Spell(data, from);
            var r := ConvertBits(data, from, to, true);
            && r.Some? && Fits(r.value, to)
            && |b| <= |Spell(r.value, to)| < |b| + to
            && Spell(r.value, to)[..|b|] == b && AllZero(Spell(r.value, to)[|b|..])
  {
    hide ToBits, Pow2, Spell, Feed, Low, ShiftLeft, ShiftRight;
    FeedMeaning(data, from, to);
    var s := Feed(data, from, to).value;
    var b := Spell(data, from);
    TailMeaning(s, to);
    if s.bits > 0 {
      var tail := Low(ShiftLeft(s.acc, to - s.bits), to);
      var zeros := ToBits(0, to - s.bits);
      SpellAppend(s.ret, tail, to);
      ZeroBits(0, to - s.bits);
      AppendAssociative(Spell(s.ret, to), ToBits(s.acc, s.bits), zeros);
      assert Spell(s.ret + [tail], to) == b + zeros;
    } else {
      assert Spell(s.ret, to) == b;
    }
  }

  /** Packing bytes into 5-bit symbols and unpacking them again are inverse, in
      both directions: whatever unpacks is exactly what packs. */
  lemma PackingInverse(bytes: seq<nat>, symbols: seq<nat>)
    requires Fits(bytes, 8) && Fits(symbols, 5)
    ensures ConvertBits(bytes, 8, 5, true) == Some(symbols) <==> ConvertBits(symbols, 5, 8, false) == Some(bytes)
  {
    hide *;
    if ConvertBits(bytes, 8, 5, true) == Some(symbols) {
      PackedUnpacks(bytes, symbols);
    }
    if ConvertBits(symbols, 5, 8, false) == Some(bytes) {
      UnpackedPacks(bytes, symbols);
    }
  }

  lemma PackedUnpacks(bytes: seq<nat>, symbols: seq<nat>)
    requires Fits(bytes, 8) && Fits(symbols, 5) && ConvertBits(bytes, 8, 5, true) == Some(symbols)
    ensures ConvertBits(symbols, 5, 8, false) == Some(bytes)
  {
    hide *;
    PaddedMeaning(bytes, 8, 5);
    UnpaddedMeaning(symbols, 5, 8);
    var b, c := Spell(bytes, 8), Spell(symbols, 5);
    WholeBytes(|bytes|, |c|);
    var unpacked := ConvertBits(symbols, 5, 8, false).value;
    assert Spell(unpacked, 8) == b;
    assert |unpacked| == |bytes|;
    SpellInjective(unpacked, bytes, 8);
  }

  lemma UnpackedPacks(bytes: seq<nat>, symbols: seq<nat>)
    requires Fits(bytes, 8) && Fits(symbols, 5) && ConvertBits(symbols, 5, 8, false) == Some(bytes)
    ensures ConvertBits(bytes, 8, 5, true) == Some(symbols)
  {
    hide *;
    PaddedMeaning(bytes, 8, 5);
    UnpaddedMeaning(symbols, 5, 8);
    var packed := ConvertBits(bytes, 8, 5, true).value;
    var b, c, p := Spell(bytes, 8), Spell(symbols, 5), Spell(packed, 5);
    WholeBytes(|bytes|, |c|);
    assert |packed| == |symbols|;
    AllZeroUnique(p[|b|..], c[|b|..]);
    assert p == p[..|b|] + p[|b|..] && c == c[..|b|] + c[|b|..];
    SpellInjective(packed, symbols, 5);
  }

  lemma WholeBytes(n: nat, bits: nat)
    ensures n * 8 <= bits < n * 8 + 8 <==> bits / 8 * 8 == n * 8
  {
  }

  lemma AllZeroUnique(a: seq<bool>, b: seq<bool>)
    requires |a| == |b| && AllZero(a) && AllZero(b)
    ensures a == b
  {
  }

  /** Without padding: refused exactly when the bits left over would not be a
      short run of zeros; otherwise the same bits without that run. */
  lemma UnpaddedMeaning(data: seq<nat>, from: nat, to: nat)
    requires from > 0 && to > 0 && Fits(data, from)
    ensures var b := Spell(data, from);
            var whole := |b| / to * to;
            var r := ConvertBits(data, from, to, false);
            && 0 <= whole <= |b|
            && (r.Some? <==> |b| - whole < from && AllZero(b[whole..]))
            && (r.Some? ==> Fits(r.value, to) && Spell(r.value, to) == b[..whole])
  {
    hide ToBits, Pow2, Spell, Feed, Low, ShiftLeft, ShiftRight;
    FeedMeaning(data, from, to);
    var s := Feed(data, from, to).value;
    TailMeaning(s, to);
    var b := Spell(data, from);
    DivUnique(|b|, to, |s.ret|, s.bits);
    assert b[..|s.ret| * to] == Spell(s.ret, to);
    assert b[|s.ret| * to..] == ToBits(s.acc, s.bits);
  }
}
