/** Mint fees: what is withheld, the search for the advertised minimum, and the
    largest note a payment can mint.  Amounts are in msat. */
module Fees {
  import opened Wrappers

  datatype Settings = Settings(baseFee: nat, feePpm: nat, minSendable: nat, maxSendable: nat, minMint: nat) {
    /** The bounds the configuration enforces. */
    predicate Valid() {
      feePpm <= 100_000 && 1 <= minSendable <= maxSendable
    }
  }

  const WALK_CAP := 100_000

  function RawFee(s: Settings, amount: nat): nat {
    s.baseFee + amount * s.feePpm / 1_000_000
  }

  /** Rounded up to a whole sat; `/` rounds towards minus infinity here, as
      Python's `//` does. */
  function MintFee(s: Settings, amount: nat): int {
    var fee: int := RawFee(s, amount);
    -(-fee / 1000) * 1000
  }

  function Net(s: Settings, amount: nat): int {
    amount - MintFee(s, amount)
  }

  /** The pay callback's amount checks, in order; what is left is credited. */
  function PayCallbackNet(s: Settings, amount: int): Result<int, string> {
    if amount < s.minSendable then Err("Amount too low.")
    else if amount > s.maxSendable then Err("Amount too high.")
    else if Net(s, amount) < s.minMint then Err("Amount too low to mint a note")
    else Ok(Net(s, amount))
  }

  function MaxMintable(s: Settings): int {
    Net(s, s.maxSendable)
  }

  // --- How the fee grows ---------------------------------------------------

  /** The fee is the least whole number of sats covering the raw fee, so never
      less than the flat base fee. */
  lemma FeeRounding(s: Settings, amount: nat)
    ensures MintFee(s, amount) % 1000 == 0
    ensures s.baseFee <= RawFee(s, amount) <= MintFee(s, amount) < RawFee(s, amount) + 1000
  {
    assert amount * s.feePpm >= 0;
  }

  lemma RawGrowth(s: Settings, amount: nat, more: nat)
    requires s.feePpm <= 100_000
    ensures RawFee(s, amount) <= RawFee(s, amount + more) <= RawFee(s, amount) + more / 10 + 1
  {
    var p, q := amount * s.feePpm, more * s.feePpm;
    assert (amount + more) * s.feePpm == p + q;
    assert 0 <= q <= more * 100_000;
    assert p >= 0;
    assert (p + q) / 1_000_000 <= p / 1_000_000 + q / 1_000_000 + 1;
    assert q / 1_000_000 <= more / 10;
  }

  /** Within any stretch of 9 sats the fee moves by at most one sat. */
  lemma FeeGrowth(s: Settings, amount: nat, more: nat)
    requires s.feePpm <= 100_000
    ensures MintFee(s, amount) <= MintFee(s, amount + more)
    ensures more <= 9000 ==> MintFee(s, amount + more) <= MintFee(s, amount) + 1000
    ensures MintFee(s, amount + more) <= MintFee(s, amount) + more / 10 + 1000
  {
    RawGrowth(s, amount, more);
    FeeRounding(s, amount);
    FeeRounding(s, amount + more);
  }

  /** The fee moves by whole sats, by one at most over less than a sat, and never by
      more than the amount itself does over a sat or more. */
  lemma FeeSteps(s: Settings, amount: nat, more: nat)
    requires s.feePpm <= 100_000
    ensures var step := MintFee(s, amount + more) - MintFee(s, amount);
            && (step == 0 || step >= 1000)
            && (more < 1000 ==> step <= 1000)
            && (more >= 1000 ==> step <= more)
  {
    FeeGrowth(s, amount, more);
    FeeRounding(s, amount);
    FeeRounding(s, amount + more);
    hide MintFee, RawFee;
    WholeSats(MintFee(s, amount), MintFee(s, amount + more));
  }

  lemma WholeSats(a: int, b: int)
    requires a % 1000 == 0 && b % 1000 == 0 && a <= b
    ensures a == b || b >= a + 1000
  {
  }

  /** Without fees an accepted amount is credited whole. */
  lemma FreeOfFees(s: Settings, amount: nat)
    requires s.baseFee == 0 && s.feePpm == 0 && s.minSendable <= amount <= s.maxSendable && s.minMint <= amount
    ensures PayCallbackNet(s, amount) == Ok(amount)
  {
  }

  // --- The walk to the advertised minimum ----------------------------------

  function Start(s: Settings): nat {
    if s.minSendable >= s.minMint then s.minSendable else s.minMint
  }

  /** The amounts the walk looks at. */
  function Grid(s: Settings, k: nat): nat { Start(s) + 1000 * k }

  lemma {:induction false} NetOnGrid(s: Settings, j: nat, k: nat)
    requires s.feePpm <= 100_000 && j <= k
    ensures Net(s, Grid(s, j)) <= Net(s, Grid(s, k))
    decreases k
  {
    if j < k {
      NetOnGrid(s, j, k - 1);
      FeeGrowth(s, Grid(s, k - 1), 1000);
    }
  }

  /** The amount the walk is looking for: the first on the grid, within the cap,
      whose net clears the mint floor. */
  ghost predicate Advertised(s: Settings, a: nat) {
    exists k: nat :: k < WALK_CAP && a == Grid(s, k) && FirstClear(s, k)
  }

  ghost predicate FirstClear(s: Settings, k: nat) {
    && Net(s, Grid(s, k)) >= s.minMint
    && forall j: nat | j < k :: Net(s, Grid(s, j)) < s.minMint
  }

  lemma AdvertisedUnique(s: Settings, a: nat, b: nat)
    requires Advertised(s, a) && Advertised(s, b)
    ensures a == b
  {
    var j: nat :| j < WALK_CAP && a == Grid(s, j) && FirstClear(s, j);
    var k: nat :| k < WALK_CAP && b == Grid(s, k) && FirstClear(s, k);
    assert !(j < k) && !(k < j);
  }

  /** `_min_sendable_msat`: the one amount to advertise, or an error if there is
      none. */
  method MinSendable(s: Settings) returns (r: Result<nat, string>)
    ensures forall a: nat :: Advertised(s, a) <==> r == Ok(a)
  {
    var amount := Start(s);
    for i := 0 to WALK_CAP
      invariant amount == Grid(s, i)
      invariant forall j: nat | j < i :: Net(s, Grid(s, j)) < s.minMint
    {
      if Net(s, amount) >= s.minMint {
        assert FirstClear(s, i) && Advertised(s, amount);
        forall a: nat | Advertised(s, a) ensures a == amount {
          AdvertisedUnique(s, a, amount);
        }
        return Ok(amount);
      }
      amount := amount + 1000;
    }
    return Err("minSendable walk did not terminate");
  }

  /** The walk is over within `n` steps exactly when the grid point `n` steps up
      clears the floor. */
  lemma WalkExact(s: Settings, n: nat)
    requires s.Valid()
    ensures (exists k: nat :: k <= n && FirstClear(s, k)) <==> Net(s, Grid(s, n)) >= s.minMint
  {
    if Net(s, Grid(s, n)) >= s.minMint {
      var k := FirstClearing(s, n);
    } else {
      forall k: nat | k <= n ensures Net(s, Grid(s, k)) < s.minMint {
        NetOnGrid(s, k, n);
      }
    }
  }

  /** The cap is hit exactly when its very last grid point still falls short. */
  lemma CapExact(s: Settings)
    requires s.Valid()
    ensures (exists a: nat :: Advertised(s, a)) <==> Net(s, Grid(s, WALK_CAP - 1)) >= s.minMint
  {
    WalkExact(s, WALK_CAP - 1);
    hide Net;
    if k: nat :| k <= WALK_CAP - 1 && FirstClear(s, k) {
      assert Advertised(s, Grid(s, k));
    }
  }

  lemma {:induction false} FirstClearing(s: Settings, last: nat) returns (k: nat)
    requires Net(s, Grid(s, last)) >= s.minMint
    ensures k <= last && FirstClear(s, k)
  {
    k := 0;
    while Net(s, Grid(s, k)) < s.minMint
      invariant k <= last
      invariant forall j: nat | j < k :: Net(s, Grid(s, j)) < s.minMint
      decreases last - k
    {
      k := k + 1;
    }
  }

  /** The walk is short: about one step per 900 msat of fee at the start.  So the
      cap can only be hit when the base fee and a tenth of the floor together come
      to some ninety million msat. */
  lemma WalkBound(s: Settings, steps: nat)
    requires s.Valid() && 900 * steps >= s.baseFee + Start(s) / 10 + 999
    ensures Net(s, Grid(s, steps)) >= s.minMint
    ensures steps < WALK_CAP ==> exists a: nat :: Advertised(s, a) && a <= Grid(s, steps)
  {
    var a := Grid(s, steps);
    FeeRounding(s, a);
    RawBound(s, a);
    hide MintFee, RawFee;
    if steps < WALK_CAP {
      var k := FirstClearing(s, steps);
      assert Advertised(s, Grid(s, k));
    }
  }

  /** Valid settings can hit it: under a 10% fee and a floor of 10^9 msat the walk
      gives up with nothing found. */
  lemma CapCanBeHit()
    ensures var s := Settings(0, 100_000, 1, 2_000_000_000, 1_000_000_000);
            s.Valid() && forall a: nat :: !Advertised(s, a)
  {
    var s := Settings(0, 100_000, 1, 2_000_000_000, 1_000_000_000);
    assert Grid(s, WALK_CAP - 1) == 1_099_999_000;
    assert Net(s, 1_099_999_000) == 989_999_000;
    CapExact(s);
  }

  lemma RawBound(s: Settings, amount: nat)
    requires s.feePpm <= 100_000
    ensures RawFee(s, amount) <= s.baseFee + amount / 10
  {
    assert amount * s.feePpm <= amount * 100_000;
  }

  /** The advertised minimum is itself payable. */
  lemma AdvertisedAccepted(s: Settings, a: nat)
    requires s.Valid() && Advertised(s, a) && a <= s.maxSendable
    ensures PayCallbackNet(s, a) == Ok(Net(s, a))
  {
  }

  /** No payment two sats or more below it would have been accepted. */
  lemma AdvertisedNearLeast(s: Settings, a: nat, amount: nat)
    requires s.Valid() && Advertised(s, a) && PayCallbackNet(s, amount).Ok?
    ensures a < amount + 2000
  {
    FeeRounding(s, amount);
    var past := amount - Start(s);
    var k: nat := if past % 1000 == 0 then past / 1000 else past / 1000 + 2;
    FeeSteps(s, amount, Grid(s, k) - amount);
    assert Net(s, Grid(s, k)) >= s.minMint;
    hide Net, MintFee;
    var j: nat :| j < WALK_CAP && a == Grid(s, j) && FirstClear(s, j);
    assert j <= k;
  }

  /** What the advertised minimum nets beyond the mint floor. */
  function Slack(s: Settings, a: nat): int { Net(s, a) - s.minMint }

  /** Between the advertised minimum and the maximum an amount is refused exactly
      when it is so close above the minimum that the slack does not make up for a
      step of the fee in between. */
  lemma RefusedExact(s: Settings, a: nat, amount: nat)
    requires s.Valid() && Advertised(s, a) && a <= amount <= s.maxSendable
    ensures PayCallbackNet(s, amount).Err? <==> amount - a < 1000 - Slack(s, a) && MintFee(s, amount) > MintFee(s, a)
  {
    hide MintFee;
    FeeSteps(s, a, amount - a);
  }

  ghost predicate AllAccepted(s: Settings, a: nat) {
    forall amount: nat | a <= amount <= s.maxSendable :: PayCallbackNet(s, amount).Ok?
  }

  /** Nothing from the advertised minimum to the maximum is refused exactly when
      the slack is 999 msat or more, or the fee does not step on the stretch the
      slack leaves uncovered. */
  lemma NoGapExact(s: Settings, a: nat)
    requires s.Valid() && Advertised(s, a) && a <= s.maxSendable
    ensures AllAccepted(s, a) <==>
              || Slack(s, a) >= 999
              || MintFee(s, Min(a + 999 - Slack(s, a), s.maxSendable)) == MintFee(s, a)
  {
    hide MintFee, Net, PayCallbackNet;
    if Slack(s, a) < 999 {
      assert Slack(s, a) >= 0;
      var last: nat := Min(a + 999 - Slack(s, a), s.maxSendable);
      FeeGrowth(s, a, last - a);
      RefusedExact(s, a, last);
      forall amount: nat | a <= amount <= s.maxSendable
        ensures MintFee(s, last) == MintFee(s, a) ==> PayCallbackNet(s, amount).Ok?
      {
        RefusedExact(s, a, amount);
        if amount <= last {
          FeeGrowth(s, a, amount - a);
          FeeGrowth(s, amount, last - amount);
        }
      }
    } else {
      forall amount: nat | a <= amount <= s.maxSendable ensures PayCallbackNet(s, amount).Ok? {
        RefusedExact(s, a, amount);
        FeeGrowth(s, a, amount - a);
      }
    }
  }

  function Min(a: int, b: int): int { if a <= b then a else b }

  function Max(a: int, b: int): int { if a >= b then a else b }

  /** One sat or more above the advertised minimum nothing is refused. */
  lemma AcceptedAbove(s: Settings, a: nat, amount: nat)
    requires s.Valid() && Advertised(s, a) && a <= amount <= s.maxSendable
    requires amount == a || amount >= a + 1000
    ensures PayCallbackNet(s, amount).Ok?
  {
    hide MintFee;
    RefusedExact(s, a, amount);
  }

  /** In between an amount can still be refused: with a 10% fee and a 9-sat
      floor the advertised minimum is 10000 msat, yet 10010 nets too little. */
  lemma GapAboveMinimum()
    ensures var s := Settings(0, 100_000, 10_000, 1_000_000, 9_000);
            s.Valid() && Advertised(s, 10_000) && PayCallbackNet(s, 10_010).Err?
  {
    var s := Settings(0, 100_000, 10_000, 1_000_000, 9_000);
    assert Grid(s, 0) == 10_000 && Net(s, 10_000) == 9_000;
    assert FirstClear(s, 0);
  }

  // --- The largest mintable note -------------------------------------------

  /** No payment that is accepted mints more than the amount does. */
  ghost predicate MintsMost(s: Settings, net: int) {
    forall a: int | PayCallbackNet(s, a).Ok? :: PayCallbackNet(s, a).value <= net
  }

  /** If paying the maximum is accepted, what it nets is the most any accepted
      payment nets exactly when the fee does not step on the last 999 msat that
      may be sent.  If it is refused, every accepted payment nets more. */
  lemma MaxMintableExact(s: Settings)
    requires s.Valid()
    ensures if PayCallbackNet(s, s.maxSendable).Ok? then
              MintsMost(s, MaxMintable(s))
              <==> MintFee(s, Max(s.minSendable, s.maxSendable - 999)) == MintFee(s, s.maxSendable)
            else
              forall a: int | PayCallbackNet(s, a).Ok? :: PayCallbackNet(s, a).value > MaxMintable(s)
  {
    hide MintFee;
    var top: nat := s.maxSendable;
    var b: nat := Max(s.minSendable, top - 999);
    FeeSteps(s, b, top - b);
    if MintFee(s, b) != MintFee(s, top) && PayCallbackNet(s, top).Ok? {
      assert PayCallbackNet(s, b) == Ok(Net(s, b)) && Net(s, b) > Net(s, top);
    } else if PayCallbackNet(s, top).Ok? {
      forall a: int | PayCallbackNet(s, a).Ok? ensures Net(s, a) <= Net(s, top) {
        FeeSteps(s, a, top - a);
        if a >= b {
          FeeSteps(s, b, a - b);
        }
      }
    }
  }

  /** It is never off by a whole sat. */
  lemma MaxMintableWithinASat(s: Settings, a: nat)
    requires s.Valid() && a <= s.maxSendable
    ensures Net(s, a) < MaxMintable(s) + 1000
  {
    FeeGrowth(s, a, s.maxSendable - a);
  }

  /** Under a 10% fee paying 10009 msat mints 9009, paying the maximum of 10010
      only 8010, and both are accepted. */
  lemma MaxMintableCanBeBeaten()
    ensures var s := Settings(0, 100_000, 1, 10_010, 0);
            && s.Valid() && MaxMintable(s) == 8_010
            && PayCallbackNet(s, 10_010) == Ok(8_010) && PayCallbackNet(s, 10_009) == Ok(9_009)
  {
  }
}
