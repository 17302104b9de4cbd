/** What a payment is worth: every invoice the mint issues, over every run, is credited
    its payment less exactly the advertised fee. */
module Pricing {
  import opened Wrappers
  import opened BurnKeys
  import opened Ledger
  import opened LedgerInvariant
  import opened LedgerExact
  import opened Redeem
  import opened Protocol
  import opened ProtocolInvariant
  import opened Runs
  import opened Conservation
  import opened Outcomes
  import Fees

  /** `fee` is the least whole number of sats that covers the base fee and the
      proportional one together. */
  predicate Withheld(s: Fees.Settings, gross: int, fee: int) {
    var exact := s.baseFee + gross * s.feePpm / 1_000_000;
    fee % 1000 == 0 && exact <= fee < exact + 1000
  }

  lemma WithheldUnique(s: Fees.Settings, gross: int, fee: int, other: int)
    requires Withheld(s, gross, fee) && Withheld(s, gross, other)
    ensures fee == other
  {
    SatsUnique(s.baseFee + gross * s.feePpm / 1_000_000, fee, other);
  }

  lemma SatsUnique(exact: int, a: int, b: int)
    requires a % 1000 == 0 && b % 1000 == 0 && exact <= a < exact + 1000 && exact <= b < exact + 1000
    ensures a == b
  {
  }

  lemma NetWithholds(s: Fees.Settings, amount: nat)
    ensures Withheld(s, amount, amount - Fees.Net(s, amount))
  {
    Fees.FeeRounding(s, amount);
  }

  // --- Asking for an invoice -----------------------------------------------

  /** The payment is within range and nets enough for a note. */
  predicate Payable(s: Fees.Settings, amount: int, net: int) {
    s.minSendable <= amount <= s.maxSendable && s.minMint <= net && Withheld(s, amount, amount - net)
  }

  lemma CallbackExact(s: Fees.Settings, amount: int, net: int)
    ensures Fees.PayCallbackNet(s, amount) == Ok(net) <==> Payable(s, amount, net)
  {
    if amount >= s.minSendable {
      NetWithholds(s, amount);
      var own := Fees.Net(s, amount);
      hide Withheld, Fees.Net;
      if Withheld(s, amount, amount - net) {
        WithheldUnique(s, amount, amount - net, amount - own);
      }
    }
  }

  /** An invoice is issued exactly while the mint is not winding down, for a payable
      amount and a mint that can be recorded; it asks for the whole amount and will
      credit the payment less the fee. */
  lemma InvoiceExact(p: Policy, w: World, h: Hash, amount: int, noteId: Option<NoteId>, share: Option<string>, net: int)
    requires Withheld(p.fees, amount, amount - net)
    ensures var w' := RequestInvoiceStep(p, w, h, amount, noteId, share);
            if !p.sunset && Payable(p.fees, amount, net) && h !in w.db.mints && noteId.Some? != share.Some?
               && (noteId.Some? ==> Unused(w.db, noteId.value))
            then w' == w.(db := w.db.(mints := w.db.mints[h := Mint(net, false, noteId, share)]),
                          gross := w.gross[h := amount])
            else w' == w
  {
    CallbackExact(p.fees, amount, net);
    CreateMintExact(w.db, h, net, noteId, share);
    hide Payable, Withheld, Unused, CreateMint, Fees.PayCallbackNet, NewlySpent;
    match Fees.PayCallbackNet(p.fees, amount)
    case Err(_) =>
    case Ok(n) =>
      CallbackExact(p.fees, amount, n);
      PayableWithholds(p.fees, amount, n);
      WithheldUnique(p.fees, amount, amount - n, amount - net);
      if CreateMint(w.db, h, net, noteId, share).Ok? {
        CreateMintShape(w.db, h, net, noteId, share);
        NoneSpent(w.db, CreateMint(w.db, h, net, noteId, share).value);
      }
  }

  lemma PayableWithholds(s: Fees.Settings, amount: int, net: int)
    requires Payable(s, amount, net)
    ensures Withheld(s, amount, amount - net)
  {
  }

  // --- Over whole runs -----------------------------------------------------

  /** The mint on file for `h` will credit what its invoice asks for, less the fee. */
  predicate PricedAt(s: Fees.Settings, w: World, h: Hash)
    requires h in w.db.mints
  {
    h in w.gross && Payable(s, w.gross[h], w.db.mints[h].amount)
  }

  ghost predicate AllPriced(s: Fees.Settings, w: World) {
    forall h | h in w.db.mints :: PricedAt(s, w, h)
  }

  /** Only asking for an invoice adds a mint or changes what one asks for. */
  predicate MintsKept(w: World, w': World) {
    w'.gross == w.gross && w'.db.mints.Keys == w.db.mints.Keys
  }

  lemma KeptByName(p: Policy, derive: Derive, w: World, e: Event)
    requires NameEvent(e) && Consistent(w) && Enabled(p, derive, w, e)
    ensures MintsKept(w, Apply(p, derive, w, e))
  {
    NameShape(p, derive, w, e);
    assert Inv(w.db) && Owned(w.db, w.now);
    hide Inv, Owned, Consistent, Advances, Apply, Enabled, NameDb, NewlySpent;
    if NameDb(w, e).Ok? {
      NameKeeps(w, e);
    }
  }

  lemma KeptByNote(p: Policy, derive: Derive, w: World, e: Event)
    requires NoteEvent(e) && !e.RequestInvoice? && Enabled(p, derive, w, e)
    ensures MintsKept(w, Apply(p, derive, w, e))
  {
    hide NewlySpent, Mutate, InternalTransfer, SettleMint, SettleEnds, Free, SomeSpent;
    match e
    case Settle(h) => SettleShape(w.db, h, derive);
    case Exchange(req, seenSpent) => MutateMints(p, w.db, req, seenSpent);
    case TransferTo(username, amount, id) => TransferMints(p, w.db, username, amount, id, derive);
  }

  lemma MutateMints(p: Policy, db: Db, req: Request, seenSpent: bool)
    requires |req.ids| >= 1
    ensures Mutate(p, db, req, seenSpent).db.mints == db.mints
  {
    hide BurnKey, Swap, Value;
    forall ids, outs | Swap(db, ids, outs, None).Ok? ensures Swap(db, ids, outs, None).value.mints == db.mints {
      SwapMints(db, ids, outs, None);
    }
  }

  lemma TransferMints(p: Policy, db: Db, username: string, amount: int, id: NoteId, derive: Derive)
    requires Free(db, id) ==> ClaimEnds(db, username, derive)
    ensures InternalTransfer(p, db, username, amount, id, derive).db.mints == db.mints
  {
    hide BurnKey, Swap, ClaimEnds;
    if InternalTransfer(p, db, username, amount, id, derive).claim.Some? {
      var claim := ClaimIndex(db, username, derive).value;
      SwapMints(claim.db, [id], [Output(claim.id, amount)], Some(username));
    }
  }

  lemma KeptByTask(p: Policy, derive: Derive, w: World, e: Event)
    requires TaskEvent(e) || ReconEvent(e)
    requires Consistent(w) && Enabled(p, derive, w, e)
    ensures MintsKept(w, Apply(p, derive, w, e))
  {
    hide *;
    if TaskEvent(e) {
      TaskGross(p, derive, w, e);
    } else {
      ReconGross(p, derive, w, e);
    }
    if Telling(e) {
      var h, made := ToldOf(p, derive, w, e);
      OutcomeDb(p, derive, w, e, h, made);
      ResolvedMints(w.db, w.melted[h].id, h, made);
    } else {
      UntoldDb(p, derive, w, e);
    }
    MintsKeptIs(w, Apply(p, derive, w, e));
  }

  lemma ResolvedMints(db: Db, id: NoteId, h: Hash, made: bool)
    requires id in db.notes && h in db.melts
    ensures Resolved(db, id, h, made).mints == db.mints
  {
  }

  lemma MintsKeptIs(w: World, w': World)
    ensures w'.gross == w.gross && w'.db.mints.Keys == w.db.mints.Keys <==> MintsKept(w, w')
  {
  }

  lemma TaskGross(p: Policy, derive: Derive, w: World, e: Event)
    requires TaskEvent(e) && Enabled(p, derive, w, e)
    ensures Apply(p, derive, w, e).gross == w.gross
  {
    OutcomeTasks(w, [w.tasks[e.t].id], w.tasks[e.t].h);
    hide Finalized, GivenUp, MayAnswer, Registry.Ended;
  }

  lemma ReconGross(p: Policy, derive: Derive, w: World, e: Event)
    requires ReconEvent(e) && Enabled(p, derive, w, e)
    ensures Apply(p, derive, w, e).gross == w.gross
  {
    hide Finalized, GivenUp, Skipped, MayAnswer, IsSnapshot;
    if e.Resolve? {
      OutcomeTasks(Past(w), w.recon[0].ids, w.recon[0].h);
    }
  }

  lemma KeptByMelt(w: World, id: NoteId, h: Hash, amount: int, pr: string)
    ensures MintsKept(w, MeltStep(w, id, h, amount, pr))
  {
    MeltExact(w, id, h, amount, pr);
    hide MeltStep, Meltable, PayableFee, Foreign;
  }

  lemma StepKeepsMints(p: Policy, derive: Derive, w: World, e: Event)
    requires Consistent(w) && Enabled(p, derive, w, e) && !e.RequestInvoice?
    ensures MintsKept(w, Apply(p, derive, w, e))
  {
    hide Consistent, Apply, Enabled, MeltStep;
    if NameEvent(e) {
      KeptByName(p, derive, w, e);
    } else if NoteEvent(e) {
      KeptByNote(p, derive, w, e);
    } else if TaskEvent(e) || ReconEvent(e) {
      KeptByTask(p, derive, w, e);
    } else {
      KeptByRest(p, derive, w, e);
    }
  }

  lemma KeptByRest(p: Policy, derive: Derive, w: World, e: Event)
    requires e.MeltInto? || e.Payer? || e.Source? || e.Tick? || e.Restart?
    requires Consistent(w) && Enabled(p, derive, w, e)
    ensures MintsKept(w, Apply(p, derive, w, e))
  {
    hide Consistent, MeltStep;
    if e.MeltInto? {
      KeptByMelt(w, e.id, e.h, e.amount, e.pr);
    }
  }

  lemma StepPriced(p: Policy, derive: Derive, w: World, e: Event)
    requires Consistent(w) && Enabled(p, derive, w, e) && AllPriced(p.fees, w)
    ensures AllPriced(p.fees, Apply(p, derive, w, e))
  {
    hide Consistent, Advances, Apply, Enabled;
    var w' := Apply(p, derive, w, e);
    if e.RequestInvoice? {
      InvoicePriced(p, w, e.h, e.amount, e.noteId, e.share);
      InvoiceIs(p, derive, w, e);
    } else {
      StepConsistent(p, derive, w, e);
      StepKeepsMints(p, derive, w, e);
      SameAmounts(w, w');
      forall h | h in w'.db.mints ensures PricedAt(p.fees, w', h) {
        assert PricedAt(p.fees, w, h);
      }
    }
  }

  lemma InvoiceIs(p: Policy, derive: Derive, w: World, e: Event)
    requires e.RequestInvoice? && Enabled(p, derive, w, e)
    ensures Apply(p, derive, w, e) == RequestInvoiceStep(p, w, e.h, e.amount, e.noteId, e.share)
  {
    hide RequestInvoiceStep;
  }

  lemma SameAmounts(w: World, w': World)
    requires Advances(w.db, w'.db)
    ensures forall h | h in w.db.mints :: h in w'.db.mints && w'.db.mints[h].amount == w.db.mints[h].amount
  {
  }

  lemma InvoicePriced(p: Policy, w: World, h: Hash, amount: int, noteId: Option<NoteId>, share: Option<string>)
    requires AllPriced(p.fees, w)
    ensures AllPriced(p.fees, RequestInvoiceStep(p, w, h, amount, noteId, share))
  {
    var w' := RequestInvoiceStep(p, w, h, amount, noteId, share);
    hide NewlySpent, CreateMint, Fees.PayCallbackNet, Payable, AllPriced;
    if w' != w {
      var net := Fees.PayCallbackNet(p.fees, amount).value;
      CallbackExact(p.fees, amount, net);
      CreateMintShape(w.db, h, net, noteId, share);
      NewPriced(p.fees, w, w', h, amount, Mint(net, false, noteId, share));
    }
  }

  lemma NewPriced(s: Fees.Settings, w: World, w': World, h: Hash, amount: int, m: Mint)
    requires AllPriced(s, w) && h !in w.db.mints && Payable(s, amount, m.amount)
    requires w'.db.mints == w.db.mints[h := m] && w'.gross == w.gross[h := amount]
    ensures AllPriced(s, w')
  {
    hide Payable;
    forall g | g in w'.db.mints ensures PricedAt(s, w', g) {
      assert g != h ==> PricedAt(s, w, g);
    }
  }

  lemma {:induction false} RunPriced(p: Policy, derive: Derive, w: World, es: seq<Event>, w': World)
    requires Consistent(w) && AllPriced(p.fees, w) && Run(p, derive, w, es, w')
    ensures AllPriced(p.fees, w')
    decreases |es|
  {
    hide Consistent, Advances, Enabled, Apply, AllPriced;
    if es != [] {
      StepConsistent(p, derive, w, es[0]);
      StepPriced(p, derive, w, es[0]);
      RunPriced(p, derive, Apply(p, derive, w, es[0]), es[1..], w');
    }
  }

  /** In every reachable state, what the invoice of a mint asks for and what the mint
      credits differ by the least whole number of sats that covers the base fee and
      the proportional fee together. */
  lemma MintPricedExactly(p: Policy, derive: Derive, es: seq<Event>, w: World, h: Hash)
    requires Run(p, derive, START, es, w) && h in w.db.mints
    ensures h in w.gross
    ensures var gross := w.gross[h];
            var fee := gross - w.db.mints[h].amount;
            && p.fees.minSendable <= gross <= p.fees.maxSendable && w.db.mints[h].amount >= p.fees.minMint
            && fee % 1000 == 0
            && 0 <= fee - (p.fees.baseFee + gross * p.fees.feePpm / 1_000_000) < 1000
  {
    StartOk();
    RunPriced(p, derive, START, es, w);
    assert PricedAt(p.fees, w, h);
  }

  /** When a paid invoice settles, exactly one note comes of it, new and worth the
      payment less that fee, under the id the mint named or the next unused one of its
      username's share; nothing else about any note changes. */
  lemma SettledNote(p: Policy, derive: Derive, es: seq<Event>, w: World, h: Hash) returns (id: NoteId)
    requires Run(p, derive, START, es, w) && Enabled(p, derive, w, Settle(h))
    requires h in w.db.mints && !w.db.mints[h].minted
    requires PicksNote(w.db, h) ==> w.db.mints[h].username.value in w.db.users
    ensures h in w.gross && Withheld(p.fees, w.gross[h], w.gross[h] - w.db.mints[h].amount) && id !in w.db.notes
    ensures var db' := Apply(p, derive, w, Settle(h)).db;
            && db'.notes == w.db.notes[id := Note(w.db.mints[h].amount, false, false, None)]
            && CreditsMint(w.db, h, derive, db', id)
  {
    MintPricedExactly(p, derive, es, w, h);
    ReachableInv(p, derive, es, w);
    SettleIs(p, derive, w, h);
    hide *;
    id := SettleCredits(w, h, derive);
    WithheldIs(p.fees, w.gross[h], w.gross[h] - w.db.mints[h].amount);
  }

  lemma WithheldIs(s: Fees.Settings, gross: int, fee: int)
    ensures Withheld(s, gross, fee) <==>
              fee % 1000 == 0 && 0 <= fee - (s.baseFee + gross * s.feePpm / 1_000_000) < 1000
  {
  }

  lemma ReachableInv(p: Policy, derive: Derive, es: seq<Event>, w: World)
    requires Run(p, derive, START, es, w)
    ensures Inv(w.db) && Owned(w.db, w.now)
  {
    StartOk();
    RunConsistent(p, derive, START, es, w);
  }

  lemma SettleIs(p: Policy, derive: Derive, w: World, h: Hash)
    requires Enabled(p, derive, w, Settle(h))
    ensures SettleEnds(w.db, h, derive) && Apply(p, derive, w, Settle(h)) == SettleStep(derive, w, h)
  {
    hide SettleEnds, SettleStep;
  }

  lemma SettleCredits(w: World, h: Hash, derive: Derive) returns (id: NoteId)
    requires Inv(w.db) && SettleEnds(w.db, h, derive) && h in w.db.mints && !w.db.mints[h].minted
    requires PicksNote(w.db, h) ==> w.db.mints[h].username.value in w.db.users
    ensures var db' := SettleStep(derive, w, h).db;
            && id !in w.db.notes && db'.notes == w.db.notes[id := Note(w.db.mints[h].amount, false, false, None)]
            && CreditsMint(w.db, h, derive, db', id)
  {
    InvMintRow(w.db, h);
    SettleExact(w.db, h, derive);
    hide SettleMint, Inv, CreditsShare, NewlySpent, SettleEnds;
    id :| CreditsMint(w.db, h, derive, SettleMint(w.db, h, derive).value.db, id);
  }
}
