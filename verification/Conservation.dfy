/** Conservation: with a fixed base fee, what the outstanding notes are worth, one
    base fee each included, and what has been paid out by melts, never exceeds what
    was paid in.  A reserved note whose payment has landed counts as paid out. */
module Conservation {
  import opened Wrappers
  import opened BurnKeys
  import opened Ledger
  import opened LedgerInvariant
  import opened Redeem
  import opened Protocol
  import opened ProtocolInvariant
  import opened ProtocolSafety
  import opened Runs
  import opened Totals
  import Fees

  // --- The books -----------------------------------------------------------

  predicate PaidOut(pays: map<Hash, Pay>, n: Note) {
    n.pending && n.hash.Some? && n.hash.value in pays && pays[n.hash.value].Landed?
  }

  predicate Outstanding(pays: map<Hash, Pay>, n: Note) {
    !n.spent && !PaidOut(pays, n)
  }

  /** Every outstanding note's amount and base fee. */
  function Worth(base: int, notes: map<NoteId, Note>, pays: map<Hash, Pay>): map<NoteId, int> {
    map id | id in notes && Outstanding(pays, notes[id]) :: notes[id].amount + base
  }

  /** What each landed melt paid out. */
  function Melted(melted: map<Hash, Reservation>, pays: map<Hash, Pay>): map<Hash, int> {
    map h | h in melted && h in pays && pays[h].Landed? :: melted[h].amount
  }

  /** What was paid for each mint that has been credited. */
  function Collected(mints: map<Hash, Mint>, gross: map<Hash, int>): map<Hash, int> {
    map h | h in mints && mints[h].minted && h in gross :: gross[h]
  }

  ghost predicate Balanced(base: int, w: World) {
    Total(Worth(base, w.db.notes, w.pays)) + Total(Melted(w.melted, w.pays)) <= Total(Collected(w.db.mints, w.gross))
  }

  /** A mint credits no more than its invoice asks for less one base fee, and only
      once it is paid. */
  predicate MintPriced(base: int, w: World, h: Hash)
    requires h in w.db.mints
  {
    var m := w.db.mints[h];
    h in w.gross && 0 <= m.amount && m.amount + base <= w.gross[h] && (m.minted ==> h in w.paidIn)
  }

  predicate Priced(base: int, w: World) {
    && (forall h | h in w.db.mints :: MintPriced(base, w, h))
    && NoDebts(w.db.notes)
  }

  predicate NoDebts(notes: map<NoteId, Note>) {
    forall id | id in notes :: notes[id].amount >= 0
  }

  ghost predicate Conserved(base: int, w: World) { Balanced(base, w) && Priced(base, w) }

  lemma SameBooks(base: int, w: World, w': World)
    requires Conserved(base, w)
    requires Worth(base, w'.db.notes, w'.pays) == Worth(base, w.db.notes, w.pays)
    requires Melted(w'.melted, w'.pays) == Melted(w.melted, w.pays)
    requires w'.db.mints == w.db.mints && w'.gross == w.gross && w.paidIn <= w'.paidIn && NoDebts(w'.db.notes)
    ensures Conserved(base, w')
  {
    hide Worth, Melted, Collected;
    forall h | h in w'.db.mints ensures MintPriced(base, w', h) {
      assert MintPriced(base, w, h);
    }
  }

  // --- Burning and crediting -----------------------------------------------

  lemma {:induction false} BurnedWorth(base: int, db: Db, ids: seq<NoteId>, pays: map<Hash, Pay>)
    requires NoDuplicates(ids) && AllFree(db, ids)
    ensures OnFile(db, ids)
    ensures Total(Worth(base, Burned(db.notes, ids), pays))
         == Total(Worth(base, db.notes, pays)) - Value(db, ids) - |ids| * base
    decreases |ids|
  {
    if |ids| == 0 {
      assert Burned(db.notes, ids) == db.notes;
    } else {
      var n := |ids| - 1;
      BurnedWorth(base, db, ids[..n], pays);
      BurnedLast(base, db, ids, pays);
      TotalAt(Worth(base, Burned(db.notes, ids[..n]), pays), ids[n]);
      OneMore(n, |ids|, base);
    }
  }

  lemma BurnedLast(base: int, db: Db, ids: seq<NoteId>, pays: map<Hash, Pay>)
    requires |ids| > 0 && NoDuplicates(ids) && AllFree(db, ids)
    ensures var n := |ids| - 1;
            var before := Worth(base, Burned(db.notes, ids[..n]), pays);
            && ids[n] in before && before[ids[n]] == db.notes[ids[n]].amount + base
            && Worth(base, Burned(db.notes, ids), pays) == before - {ids[n]}
  {
    var n := |ids| - 1;
    assert Free(db, ids[n]);
    NoDuplicatesLast(ids);
    assert ids == ids[..n] + [ids[n]];
    hide NoDuplicates, AllFree;
    forall id ensures id in ids <==> id in ids[..n] || id == ids[n] {
    }
  }

  function OutSum(outs: seq<Output>): int
    decreases |outs|
  {
    if |outs| == 0 then 0 else OutSum(outs[..|outs| - 1]) + outs[|outs| - 1].amount
  }

  lemma {:induction false} CreditedWorth(base: int, notes: map<NoteId, Note>, outs: seq<Output>, pays: map<Hash, Pay>)
    requires NoDuplicates(OutputIds(outs)) && forall i | 0 <= i < |outs| :: outs[i].id !in notes
    ensures Total(Worth(base, Credited(notes, outs), pays))
         == Total(Worth(base, notes, pays)) + OutSum(outs) + |outs| * base
    decreases |outs|
  {
    if |outs| > 0 {
      var n := |outs| - 1;
      LastOutput(notes, outs);
      hide Worth, NoDuplicates;
      CreditedWorth(base, notes, outs[..n], pays);
      FreshWorth(base, Credited(notes, outs[..n]), outs[n].id, outs[n].amount, pays);
      OneMore(n, |outs|, base);
    }
  }

  lemma LastOutput(notes: map<NoteId, Note>, outs: seq<Output>)
    requires |outs| > 0 && NoDuplicates(OutputIds(outs)) && forall i | 0 <= i < |outs| :: outs[i].id !in notes
    ensures NoDuplicates(OutputIds(outs[..|outs| - 1])) && outs[|outs| - 1].id !in Credited(notes, outs[..|outs| - 1])
  {
    var n := |outs| - 1;
    assert OutputIds(outs[..n]) == OutputIds(outs)[..n];
    NoDuplicatesLast(OutputIds(outs));
    CreditedOld(notes, outs[..n], outs[n].id);
  }

  lemma FreshWorth(base: int, notes: map<NoteId, Note>, id: NoteId, amount: int, pays: map<Hash, Pay>)
    requires id !in notes
    ensures Total(Worth(base, notes[id := Fresh(amount)], pays)) == Total(Worth(base, notes, pays)) + amount + base
  {
    assert Worth(base, notes[id := Fresh(amount)], pays) == Worth(base, notes, pays)[id := amount + base];
    TotalPut(Worth(base, notes, pays), id, amount + base);
  }

  /** A swap changes what the notes are worth by exactly its outputs less its
      inputs, base fees included. */
  lemma SwapWorth(base: int, db: Db, ids: seq<NoteId>, outs: seq<Output>, recipient: Option<string>,
                  pays: map<Hash, Pay>)
    requires Swap(db, ids, outs, recipient).Ok?
    ensures OnFile(db, ids)
    ensures Total(Worth(base, Swap(db, ids, outs, recipient).value.notes, pays))
         == Total(Worth(base, db.notes, pays)) - Value(db, ids) - |ids| * base + OutSum(outs) + |outs| * base
  {
    hide BurnKey, Credited, Burned, Worth;
    BurnedWorth(base, db, ids, pays);
    forall i | 0 <= i < |outs| ensures outs[i].id !in Burned(db.notes, ids) {
      SwapOutput(db, ids, outs, recipient, i);
      BurnedKeys(db.notes, ids);
    }
    CreditedWorth(base, Burned(db.notes, ids), outs, pays);
  }

  lemma BurnedKeys(notes: map<NoteId, Note>, ids: seq<NoteId>)
    ensures Burned(notes, ids).Keys == notes.Keys
  {
  }

  lemma SwapNoDebts(db: Db, ids: seq<NoteId>, outs: seq<Output>, recipient: Option<string>)
    requires Swap(db, ids, outs, recipient).Ok? && NoDebts(db.notes)
    requires forall i | 0 <= i < |outs| :: outs[i].amount >= 0
    ensures NoDebts(Swap(db, ids, outs, recipient).value.notes)
  {
    hide BurnKey, Credited, Burned;
    var notes := Swap(db, ids, outs, recipient).value.notes;
    forall id | id in notes ensures notes[id].amount >= 0 {
      SwapNotes(db, ids, outs, recipient, id);
      if id in OutputIds(outs) {
        var i :| 0 <= i < |outs| && OutputIds(outs)[i] == id;
        SwapOutput(db, ids, outs, recipient, i);
      }
    }
  }

  lemma {:induction false} ValuePositive(db: Db, ids: seq<NoteId>)
    requires OnFile(db, ids) && NoDebts(db.notes)
    ensures Value(db, ids) >= 0
    decreases |ids|
  {
    if |ids| > 0 {
      ValuePositive(db, ids[..|ids| - 1]);
    }
  }

  lemma OutSums(a: Output, b: Output)
    ensures OutSum([a]) == a.amount && OutSum([a, b]) == a.amount + b.amount
  {
    assert [a, b][..1] == [a] && [a][..0] == [];
  }

  // --- Each step keeps the books -------------------------------------------

  /** A transaction that issues no more than it burns. */
  ghost predicate Frugal(base: int, w: World, db: Db) {
    && Total(Worth(base, db.notes, w.pays)) <= Total(Worth(base, w.db.notes, w.pays))
    && NoDebts(db.notes) && db.mints == w.db.mints
  }

  lemma FrugalConserves(base: int, w: World, db: Db)
    requires Conserved(base, w) && Frugal(base, w, db)
    ensures Conserved(base, Transacted(w, db))
  {
    hide Worth, Melted, Collected, NewlySpent, NoDebts;
    var w' := Transacted(w, db);
    forall h | h in w'.db.mints ensures MintPriced(base, w', h) {
      assert MintPriced(base, w, h);
    }
  }

  lemma SwapFrugal(base: int, w: World, db: Db, ids: seq<NoteId>, outs: seq<Output>, recipient: Option<string>)
    requires Swap(db, ids, outs, recipient).Ok? && db.notes == w.db.notes && db.mints == w.db.mints
    requires NoDebts(db.notes) && forall i | 0 <= i < |outs| :: outs[i].amount >= 0
    requires OnFile(db, ids) && OutSum(outs) + |outs| * base <= Value(db, ids) + |ids| * base
    ensures Frugal(base, w, Swap(db, ids, outs, recipient).value)
  {
    SwapMints(db, ids, outs, recipient);
    hide Worth, Swap, NoDebts;
    SwapWorth(base, db, ids, outs, recipient, w.pays);
    SwapNoDebts(db, ids, outs, recipient);
  }

  lemma SwapMints(db: Db, ids: seq<NoteId>, outs: seq<Output>, recipient: Option<string>)
    requires Swap(db, ids, outs, recipient).Ok?
    ensures Swap(db, ids, outs, recipient).value.mints == db.mints
  {
    hide BurnKey;
  }

  lemma SameFrugal(base: int, w: World)
    requires NoDebts(w.db.notes)
    ensures Frugal(base, w, w.db)
  {
  }

  lemma MutateFrugal(p: Policy, w: World, req: Request, seenSpent: bool)
    requires NoDebts(w.db.notes) && |req.ids| >= 1
    ensures Frugal(p.fees.baseFee, w, Mutate(p, w.db, req, seenSpent).db)
  {
    var db', base := Mutate(p, w.db, req, seenSpent).db, p.fees.baseFee;
    if db' == w.db {
      SameFrugal(base, w);
    } else {
      MutationConserves(p, w.db, req);
      ValuePositive(w.db, req.ids);
      if req.amount.Some? {
        SplitFrugal(p, w, req);
      } else {
        MergeFrugal(p, w, req);
      }
    }
  }

  lemma SplitFrugal(p: Policy, w: World, req: Request)
    requires NoDebts(w.db.notes) && |req.ids| >= 1 && OnFile(w.db, req.ids)
    requires req.p1.Some? && req.amount.Some? && req.p2.Some?
    ensures Frugal(p.fees.baseFee, w, SplitNotes(p, w.db, req).db)
  {
    hide Swap, Frugal, NoDebts, Value;
    var base, amount := p.fees.baseFee, req.amount.value;
    var change := Value(w.db, req.ids) - amount - base;
    var a, b := Output(req.p1.value, amount), Output(req.p2.value, change);
    SameFrugal(base, w);
    if SplitNotes(p, w.db, req).reply.Minted? {
      MutationConserves(p, w.db, req);
      OutSums(a, b);
      SwapFrugal(base, w, w.db, req.ids, [a, b], None);
    }
  }

  lemma MergeFrugal(p: Policy, w: World, req: Request)
    requires NoDebts(w.db.notes) && |req.ids| >= 1 && OnFile(w.db, req.ids) && req.p1.Some?
    ensures Frugal(p.fees.baseFee, w, MergeNotes(p, w.db, req).db)
  {
    var base, n := p.fees.baseFee, |req.ids|;
    var out := Output(req.p1.value, Merged(Value(w.db, req.ids), n, base));
    SameFrugal(base, w);
    ValuePositive(w.db, req.ids);
    MergedEven(Value(w.db, req.ids), n, base);
    MergeShape(p, w.db, req);
    OutSums(out, out);
    hide MergeNotes, Merged, Swap, Frugal, NoDebts, Value, OutSum;
    if MergeNotes(p, w.db, req).db != w.db {
      SwapFrugal(base, w, w.db, req.ids, [out], None);
    }
  }

  function Merged(value: int, n: int, base: int): int { value + (n - 1) * base }

  lemma MergedEven(value: int, n: nat, base: nat)
    requires n >= 1
    ensures Merged(value, n, base) + 1 * base == value + n * base && Merged(value, n, base) >= value
  {
    OneMore(n - 1, n, base);
    assert (n - 1) * base >= 0;
  }

  lemma MergeShape(p: Policy, db: Db, req: Request)
    requires |req.ids| >= 1 && OnFile(db, req.ids) && req.p1.Some?
    ensures var out := Output(req.p1.value, Merged(Value(db, req.ids), |req.ids|, p.fees.baseFee));
            var r := MergeNotes(p, db, req);
            r.db == db || Swap(db, req.ids, [out], None) == Ok(r.db)
  {
    hide Swap, Value;
  }

  lemma TransferFrugal(p: Policy, w: World, username: string, amount: int, id: NoteId, derive: Derive)
    requires NoDebts(w.db.notes) && (Free(w.db, id) ==> ClaimEnds(w.db, username, derive))
    ensures Frugal(p.fees.baseFee, w, InternalTransfer(p, w.db, username, amount, id, derive).db)
  {
    var r := InternalTransfer(p, w.db, username, amount, id, derive);
    SameFrugal(p.fees.baseFee, w);
    if r.claim.Some? {
      hide Swap, Frugal, BurnKey, NoDebts;
      TransferSwaps(w.db, [id], username, amount, derive);
      var claim := ClaimIndex(w.db, username, derive).value;
      var out := Output(claim.id, amount);
      OutSums(out, out);
      assert [id][..0] == [];
      assert Value(claim.db, [id]) == w.db.notes[id].amount;
      assert claim.db.mints == w.db.mints;
      SwapFrugal(p.fees.baseFee, w, claim.db, [id], [out], Some(username));
    }
  }

  lemma PayFeeFrugal(base: nat, w: World, id: NoteId, h: Hash, amount: int)
    requires NoDebts(w.db.notes) && PayFeeWithNotes(w.db, [id], h, amount, w.now).Ok?
    ensures Frugal(base, w, PayFeeWithNotes(w.db, [id], h, amount, w.now).value.0)
  {
    hide SettleFee, Worth;
    SettleFeeShape(w.db, h, w.now);
    BurnedWorth(base, w.db, [id], w.pays);
    ValuePositive(w.db, [id]);
  }

  lemma SettleConserves(base: int, w: World, h: Hash, derive: Derive)
    requires Conserved(base, w) && Inv(w.db) && SettleEnds(w.db, h, derive) && h in w.paidIn
    ensures Conserved(base, SettleStep(derive, w, h))
  {
    SettleShape(w.db, h, derive);
    hide Conserved, Inv, SettleMint, SettleEnds, NewlySpent;
    if SettleMint(w.db, h, derive).Ok? {
      var db := SettleMint(w.db, h, derive).value.db;
      if db == w.db {
        assert NewlySpent(w.db, db) == {} by { SameDb(w); }
      } else {
        CreditedFirst(w.db, h, derive);
        CreditConserves(base, w, Transacted(w, db), h, db.mints[h].noteId.value);
      }
    }
  }

  /** Settling either changes nothing or marks its mint as credited. */
  lemma SettleShape(db: Db, h: Hash, derive: Derive)
    requires SettleEnds(db, h, derive)
    ensures SettleMint(db, h, derive).Ok? ==>
              var db' := SettleMint(db, h, derive).value.db;
              || db' == db
              || (&& h in db.mints && !db.mints[h].minted && h in db'.mints
                  && db'.mints == db.mints[h := db.mints[h].(minted := true, noteId := db'.mints[h].noteId)])
  {
  }

  lemma CreditConserves(base: int, w: World, w': World, h: Hash, id: NoteId)
    requires Conserved(base, w) && h in w.db.mints && !w.db.mints[h].minted && h in w.paidIn
    requires id !in w.db.notes && w'.db.notes == w.db.notes[id := Fresh(w.db.mints[h].amount)]
    requires w'.db.mints == w.db.mints[h := w.db.mints[h].(minted := true, noteId := Some(id))]
    requires w'.pays == w.pays && w'.melted == w.melted && w'.gross == w.gross && w'.paidIn == w.paidIn
    ensures Conserved(base, w')
  {
    assert MintPriced(base, w, h);
    hide Worth, Melted, Collected;
    FreshWorth(base, w.db.notes, id, w.db.mints[h].amount, w.pays);
    CreditedCollected(w.db.mints, w.gross, h, w'.db.mints[h]);
    forall g | g in w'.db.mints ensures MintPriced(base, w', g) {
      assert MintPriced(base, w, g);
    }
  }

  lemma CreditedCollected(mints: map<Hash, Mint>, gross: map<Hash, int>, h: Hash, m: Mint)
    requires h in mints && !mints[h].minted && h in gross && m.minted
    ensures Total(Collected(mints[h := m], gross)) == Total(Collected(mints, gross)) + gross[h]
  {
    assert Collected(mints[h := m], gross) == Collected(mints, gross)[h := gross[h]];
    TotalPut(Collected(mints, gross), h, gross[h]);
  }

  // --- Melts ---------------------------------------------------------------

  lemma NewMeltBooks(base: int, w: World, w': World, id: NoteId, h: Hash, amount: int)
    requires Conserved(base, w) && Free(w.db, id) && h !in w.pays
    requires w'.db.notes == w.db.notes[id := w.db.notes[id].(pending := true, hash := Some(h))]
    requires w'.pays == w.pays[h := Unsent] && w'.melted == w.melted[h := Reservation(id, amount)]
    requires w'.db.mints == w.db.mints && w'.gross == w.gross && w'.paidIn == w.paidIn
    ensures Conserved(base, w')
  {
    hide Worth, Melted, Collected;
    UnsentWorth(base, w.db.notes, w.pays, id, h);
    UnsentMelted(w.melted, w.pays, Reservation(id, amount), h);
    SameBooks(base, w, w');
  }

  lemma UnsentMelted(melted: map<Hash, Reservation>, pays: map<Hash, Pay>, r: Reservation, h: Hash)
    requires h !in pays
    ensures Melted(melted[h := r], pays[h := Unsent]) == Melted(melted, pays)
  {
  }

  lemma UnsentWorth(base: int, notes: map<NoteId, Note>, pays: map<Hash, Pay>, id: NoteId, h: Hash)
    requires h !in pays && id in notes && !notes[id].pending
    ensures Worth(base, notes[id := notes[id].(pending := true, hash := Some(h))], pays[h := Unsent])
         == Worth(base, notes, pays)
  {
  }

  lemma MeltConserves(base: nat, w: World, id: NoteId, h: Hash, amount: int, pr: string)
    requires Conserved(base, w) && w.pays.Keys == w.db.melts.Keys
    ensures Conserved(base, MeltStep(w, id, h, amount, pr))
  {
    MeltShape(w, id, h, amount, pr);
    if MeltAccepted(w, id, h, amount) {
      MarkedNotes(w.db, id, h, pr);
      MarkedMints(w.db, id, h, pr);
      hide Conserved, MeltStep, MarkPending, RecordMelt, Reserved, Spent, Holds;
      NewMeltBooks(base, w, MeltStep(w, id, h, amount, pr), id, h, amount);
    } else if MeltStep(w, id, h, amount, pr) != w {
      hide MeltStep, Balanced, PayFeeWithNotes;
      PayFeeFrugal(base, w, id, h, amount);
      FrugalConserves(base, w, PayFeeWithNotes(w.db, [id], h, amount, w.now).value.0);
    }
  }

  lemma MarkedMints(db: Db, id: NoteId, h: Hash, pr: string)
    requires MarkPending(db, [id], h).Ok?
    ensures RecordMelt(MarkPending(db, [id], h).value, h, pr).mints == db.mints
  {
  }

  /** Burning the note of a landed melt changes nothing: it was paid out already. */
  lemma FinalizedBooks(base: int, w: World, ids: seq<NoteId>, h: Hash)
    requires Conserved(base, w) && MeltsSafe(w) && Owing(w, h) && w.pays[h].Landed?
    requires forall id | id in ids :: MeltOf(w.melted, h, id)
    ensures Conserved(base, Finalized(w, ids, h))
  {
    assert Covered(w, h);
    var w' := Finalized(w, ids, h);
    forall id | id in ids && id in w.db.notes ensures !Outstanding(w.pays, w.db.notes[id]) {
      assert MeltOf(w.melted, h, id);
    }
    assert Worth(base, w'.db.notes, w'.pays) == Worth(base, w.db.notes, w.pays);
    hide Worth, Melted, MeltsSafe;
    SameBooks(base, w, w');
  }

  /** Releasing notes reserved for a payment that will never land changes nothing. */
  lemma GivenUpBooks(base: int, w: World, ids: seq<NoteId>, h: Hash)
    requires Conserved(base, w) && LifeCycle(w.db.notes) && MayAnswer(w, h, Some(false))
    requires forall id, g | id in ids && Reserved(w.db, id, g) :: g == h
    ensures Conserved(base, GivenUp(w, ids, h))
  {
    hide CallLive;
    var w' := GivenUp(w, ids, h);
    SameLanded(base, w, w'.pays, h);
    forall id | id in ids && id in w.db.notes ensures w.db.notes[id].spent || Outstanding(w.pays, w.db.notes[id]) {
      assert Stage(w.db.notes[id]);
      if w.db.notes[id].pending {
        assert Reserved(w.db, id, w.db.notes[id].hash.value);
      }
    }
    assert Worth(base, w'.db.notes, w.pays) == Worth(base, w.db.notes, w.pays);
    SameLandedNotes(base, w'.db.notes, w.pays, w'.pays, h);
    hide Worth, Melted;
    SameBooks(base, w, w');
  }

  lemma SameLanded(base: int, w: World, pays: map<Hash, Pay>, h: Hash)
    requires pays.Keys == w.pays.Keys && h in pays && !w.pays[h].Landed? && !pays[h].Landed?
    requires forall g | g in pays && g != h :: pays[g] == w.pays[g]
    ensures Melted(w.melted, pays) == Melted(w.melted, w.pays)
  {
  }

  lemma SameLandedNotes(base: int, notes: map<NoteId, Note>, pays: map<Hash, Pay>, pays': map<Hash, Pay>, h: Hash)
    requires pays'.Keys == pays.Keys && h in pays && !pays[h].Landed? && !pays'[h].Landed?
    requires forall g | g in pays && g != h :: pays'[g] == pays[g]
    ensures Worth(base, notes, pays') == Worth(base, notes, pays)
  {
  }

  /** A payment lands: its note stops being outstanding and its amount is out. */
  lemma LandedBooks(base: nat, w: World, h: Hash)
    requires Conserved(base, w) && LifeCycle(w.db.notes) && HistoryOk(w) && MeltsSafe(w)
    requires h in w.pays && w.pays[h].InFlight?
    ensures Conserved(base, w.(pays := w.pays[h := Landed]))
  {
    var pays := w.pays[h := Landed];
    assert Owing(w, h) && Covered(w, h);
    var id, amount := w.melted[h].id, w.melted[h].amount;
    assert Holds(w.db.notes, id, amount);
    forall j | j in w.db.notes && j != id ensures w.db.notes[j].pending ==> w.db.notes[j].hash != Some(h) {
      assert Stage(w.db.notes[j]);
      assert MeltOf(w.melted, h, id) && (Reserved(w.db, j, h) ==> MeltOf(w.melted, h, j));
    }
    LandedWorth(base, w.db.notes, w.pays, id, h);
    LandedMelted(w.melted, w.pays, h);
    hide Worth, Melted, HistoryOk, MeltsSafe, LifeCycle;
    var w' := w.(pays := pays);
    forall g | g in w'.db.mints ensures MintPriced(base, w', g) {
      assert MintPriced(base, w, g);
    }
  }

  lemma LandedWorth(base: int, notes: map<NoteId, Note>, pays: map<Hash, Pay>, id: NoteId, h: Hash)
    requires id in notes && notes[id].pending && !notes[id].spent && notes[id].hash == Some(h)
    requires h in pays && pays[h].InFlight?
    requires forall j | j in notes && j != id && notes[j].pending :: notes[j].hash != Some(h)
    ensures Total(Worth(base, notes, pays[h := Landed])) == Total(Worth(base, notes, pays)) - notes[id].amount - base
  {
    var before := Worth(base, notes, pays);
    assert id in before;
    assert Worth(base, notes, pays[h := Landed]) == before - {id};
    TotalAt(before, id);
  }

  lemma LandedMelted(melted: map<Hash, Reservation>, pays: map<Hash, Pay>, h: Hash)
    requires h in melted && h in pays && pays[h].InFlight?
    ensures Total(Melted(melted, pays[h := Landed])) == Total(Melted(melted, pays)) + melted[h].amount
  {
    assert Melted(melted, pays[h := Landed]) == Melted(melted, pays)[h := melted[h].amount];
    TotalPut(Melted(melted, pays), h, melted[h].amount);
  }

  // --- Every step, every run -----------------------------------------------

  lemma TaskBooks(p: Policy, derive: Derive, w: World, e: Event)
    requires TaskEvent(e) && Consistent(w) && Safe(w) && Enabled(p, derive, w, e)
    requires Conserved(p.fees.baseFee, w)
    ensures Conserved(p.fees.baseFee, Apply(p, derive, w, e))
  {
    var base := p.fees.baseFee;
    hide Consistent, Safe, Conserved, MayAnswer, Finalized, GivenUp, Ended, Moved;
    match e
    case Begin(t) => MovedBooks(base, w, t, Calling);
    case PayRaises(t) => MovedBooks(base, w, t, Confirming(CONFIRMATION_TRIES));
    case PaySucceeds(t) => PaidBooks(base, w, t);
    case Confirm(t, answer) =>
      match answer
      case Some(true) =>
        AnsweredTrue(w, w.tasks[t].h);
        PaidBooks(base, w, t);
      case Some(false) => UnpaidBooks(base, w, t);
      case None =>
        if w.tasks[t].phase.left == 1 {
          EndedBooks(base, w, t);
        } else {
          MovedBooks(base, w, t, Confirming(w.tasks[t].phase.left - 1));
        }
  }

  lemma MovedBooks(base: int, w: World, t: nat, phase: Phase)
    requires Conserved(base, w) && t in w.tasks
    ensures Conserved(base, Moved(w, t, phase))
  {
    hide Worth, Melted, Collected, NoDebts;
    SameBooks(base, w, Moved(w, t, phase));
  }

  lemma EndedBooks(base: int, w: World, t: nat)
    requires Conserved(base, w) && t in w.tasks
    ensures Conserved(base, Ended(w, t))
  {
    hide Worth, Melted, Collected, NoDebts;
    SameBooks(base, w, Ended(w, t));
  }

  lemma PaidBooks(base: int, w: World, t: nat)
    requires Consistent(w) && Safe(w) && Conserved(base, w)
    requires t in w.tasks && w.tasks[t].h in w.pays && w.pays[w.tasks[t].h].Landed?
    ensures var task := w.tasks[t]; Finalized(w, [task.id], task.h).tasks == w.tasks
                                    && Conserved(base, Ended(Finalized(w, [task.id], task.h), t))
  {
    var task := w.tasks[t];
    assert MeltOf(w.melted, task.h, task.id);
    LandedOwing(w, task.h);
    hide *;
    assert forall id | id in [task.id] :: MeltOf(w.melted, task.h, id);
    PaidEnds(w, t);
    SafeMelts(w);
    FinalizedBooks(base, w, [task.id], task.h);
    EndedBooks(base, Finalized(w, [task.id], task.h), t);
  }

  lemma LandedOwing(w: World, h: Hash)
    requires HistoryOk(w) && h in w.pays && w.pays[h].Landed?
    ensures Owing(w, h)
  {
  }

  lemma SafeMelts(w: World)
    requires Safe(w)
    ensures MeltsSafe(w)
  {
  }

  lemma UnpaidBooks(base: int, w: World, t: nat)
    requires Consistent(w) && Safe(w) && Conserved(base, w)
    requires t in w.tasks && w.tasks[t].phase.Confirming? && MayAnswer(w, w.tasks[t].h, Some(false))
    ensures var task := w.tasks[t]; GivenUp(w, [task.id], task.h).tasks == w.tasks
                                    && Conserved(base, Ended(GivenUp(w, [task.id], task.h), t))
  {
    var task := w.tasks[t];
    assert Reserved(w.db, task.id, task.h) && LifeCycle(w.db.notes);
    assert forall id, g | id in [task.id] && Reserved(w.db, id, g) :: g == task.h;
    hide *;
    OneAttempt(w, t);
    UnpaidEnds(w, t);
    GivenUpBooks(base, w, [task.id], task.h);
    EndedBooks(base, GivenUp(w, [task.id], task.h), t);
  }

  lemma ReconBooks(p: Policy, derive: Derive, w: World, e: Event)
    requires ReconEvent(e) && Consistent(w) && Safe(w) && Enabled(p, derive, w, e) && Fenced(w, e)
    requires Conserved(p.fees.baseFee, w)
    ensures Conserved(p.fees.baseFee, Apply(p, derive, w, e))
  {
    hide Consistent, Safe, Conserved, IsSnapshot, MayAnswer, Skipped, ResolveStep, Fenced;
    match e
    case Snapshot(order) => RegroupedBooks(p.fees.baseFee, w, Skipped(w.inFlight, order));
    case Resolve(answer) => ResolveBooks(p.fees.baseFee, w, answer);
  }

  lemma RegroupedBooks(base: int, w: World, recon: seq<Entry>)
    requires Conserved(base, w)
    ensures Conserved(base, w.(recon := recon))
  {
    hide Worth, Melted, Collected, NoDebts;
    SameBooks(base, w, w.(recon := recon));
  }

  lemma ResolveBooks(base: int, w: World, answer: Option<bool>)
    requires Consistent(w) && Safe(w) && Conserved(base, w) && w.recon != []
    requires MayAnswer(w, w.recon[0].h, answer) && Fenced(w, Resolve(answer))
    ensures Conserved(base, ResolveStep(w, answer))
  {
    var e := w.recon[0];
    assert EntryOk(w, e);
    FencedReserved(w, e);
    assert LifeCycle(w.db.notes);
    hide Inv, Owned, Safe, TasksOk, ReconOk, LifeCycle, Reserved, Finalized, GivenUp;
    hide Skipped, ReservedElsewhere, Conserved;
    RegroupedBooks(base, w, Past(w).recon);
    PastSafe(w);
    SafeMelts(Past(w));
    match answer
    case None =>
    case Some(true) =>
      LandedOwing(w, e.h);
      FinalizedBooks(base, Past(w), e.ids, e.h);
    case Some(false) => GivenUpBooks(base, Past(w), e.ids, e.h);
  }

  lemma NameBooks(p: Policy, derive: Derive, w: World, e: Event)
    requires NameEvent(e) && Inv(w.db) && Owned(w.db, w.now) && Enabled(p, derive, w, e)
    requires Conserved(p.fees.baseFee, w)
    ensures Conserved(p.fees.baseFee, Apply(p, derive, w, e))
  {
    NameShape(p, derive, w, e);
    hide Inv, Owned, Advances, Apply, Enabled, NameDb, NewlySpent, Conserved;
    if NameDb(w, e).Ok? {
      NameKeeps(w, e);
      SameNotesFrugal(p.fees.baseFee, w, NameDb(w, e).value);
      FrugalConserves(p.fees.baseFee, w, NameDb(w, e).value);
    }
  }

  lemma SameNotesFrugal(base: int, w: World, db: Db)
    requires Conserved(base, w) && db.notes == w.db.notes && db.mints == w.db.mints
    ensures Frugal(base, w, db)
  {
  }

  lemma RequestBooks(p: Policy, w: World, h: Hash, amount: int, noteId: Option<NoteId>, share: Option<string>)
    requires Conserved(p.fees.baseFee, w)
    ensures Conserved(p.fees.baseFee, RequestInvoiceStep(p, w, h, amount, noteId, share))
  {
    hide NewlySpent, CreateMint, Fees.PayCallbackNet, Conserved;
    var w' := RequestInvoiceStep(p, w, h, amount, noteId, share);
    if w' != w {
      var net := Fees.PayCallbackNet(p.fees, amount).value;
      CreateMintShape(w.db, h, net, noteId, share);
      NetCoversBase(p.fees, amount);
      NewMintBooks(p.fees.baseFee, w, w', h, amount, Mint(net, false, noteId, share));
    }
  }

  lemma NetCoversBase(s: Fees.Settings, amount: int)
    ensures Fees.PayCallbackNet(s, amount).Ok? ==>
              0 <= Fees.PayCallbackNet(s, amount).value && Fees.PayCallbackNet(s, amount).value + s.baseFee <= amount
  {
    if amount >= s.minSendable {
      Fees.FeeRounding(s, amount);
    }
  }

  lemma NewMintBooks(base: int, w: World, w': World, h: Hash, amount: int, m: Mint)
    requires Conserved(base, w) && h !in w.db.mints && !m.minted && 0 <= m.amount && m.amount + base <= amount
    requires w'.db.mints == w.db.mints[h := m] && w'.gross == w.gross[h := amount]
    requires w'.db.notes == w.db.notes && w'.pays == w.pays && w'.melted == w.melted && w'.paidIn == w.paidIn
    ensures Conserved(base, w')
  {
    assert Collected(w'.db.mints, w'.gross) == Collected(w.db.mints, w.gross);
    hide Worth, Melted, Collected, NoDebts;
    forall g | g in w'.db.mints ensures MintPriced(base, w', g) {
      assert g != h ==> MintPriced(base, w, g);
    }
  }

  lemma NoteBooks(p: Policy, derive: Derive, w: World, e: Event)
    requires NoteEvent(e) && Inv(w.db) && Enabled(p, derive, w, e) && Conserved(p.fees.baseFee, w)
    ensures Conserved(p.fees.baseFee, Apply(p, derive, w, e))
  {
    var base := p.fees.baseFee;
    assert NoDebts(w.db.notes);
    hide Inv, Conserved, NoDebts, Mutate, InternalTransfer, NewlySpent, RequestInvoiceStep, SettleStep, Frugal;
    match e
    case RequestInvoice(h, amount, noteId, share) => RequestBooks(p, w, h, amount, noteId, share);
    case Settle(h) => SettleConserves(base, w, h, derive);
    case Exchange(req, seenSpent) =>
      MutateFrugal(p, w, req, seenSpent);
      FrugalConserves(base, w, Mutate(p, w.db, req, seenSpent).db);
    case TransferTo(username, amount, id) =>
      TransferFrugal(p, w, username, amount, id, derive);
      FrugalConserves(base, w, InternalTransfer(p, w.db, username, amount, id, derive).db);
  }

  lemma OutsideBooks(base: int, w: World, now: int, paidIn: set<Hash>)
    requires Conserved(base, w) && w.paidIn <= paidIn
    ensures Conserved(base, w.(now := now, paidIn := paidIn))
  {
    hide Worth, Melted, Collected, NoDebts;
    SameBooks(base, w, w.(now := now, paidIn := paidIn));
  }

  lemma SourceBooks(base: nat, w: World, h: Hash, status: Pay)
    requires Consistent(w) && Safe(w) && Conserved(base, w) && h in w.pays && SourceMay(w.pays[h], status)
    ensures Conserved(base, w.(pays := w.pays[h := status]))
  {
    assert LifeCycle(w.db.notes);
    hide Inv, Owned, HistoryOk, TasksOk, ReconOk, MeltsSafe, HoldsReserved, LifeCycle;
    if status.Landed? {
      LandedBooks(base, w, h);
    } else {
      var w' := w.(pays := w.pays[h := status]);
      SameLanded(base, w, w'.pays, h);
      SameLandedNotes(base, w.db.notes, w.pays, w'.pays, h);
      hide Worth, Melted;
      SameBooks(base, w, w');
    }
  }

  lemma RestartBooks(base: int, w: World)
    requires Conserved(base, w)
    ensures Conserved(base, w.(tasks := map[], inFlight := map[], recon := []))
  {
    hide Worth, Melted, Collected, NoDebts;
    SameBooks(base, w, w.(tasks := map[], inFlight := map[], recon := []));
  }

  lemma StepConserves(p: Policy, derive: Derive, w: World, e: Event)
    requires Consistent(w) && Safe(w) && Enabled(p, derive, w, e) && Fenced(w, e) && Conserved(p.fees.baseFee, w)
    ensures Conserved(p.fees.baseFee, Apply(p, derive, w, e))
  {
    var base := p.fees.baseFee;
    assert Inv(w.db) && Owned(w.db, w.now) && w.pays.Keys == w.db.melts.Keys;
    hide Consistent, Inv, Owned, Safe, Conserved, Fenced, MeltStep;
    if NameEvent(e) {
      NameBooks(p, derive, w, e);
    } else if NoteEvent(e) {
      NoteBooks(p, derive, w, e);
    } else if TaskEvent(e) {
      TaskBooks(p, derive, w, e);
    } else if ReconEvent(e) {
      ReconBooks(p, derive, w, e);
    } else {
      match e
      case MeltInto(id, h, amount, pr) => MeltConserves(base, w, id, h, amount, pr);
      case Payer(h) => OutsideBooks(base, w, w.now, w.paidIn + {h});
      case Source(h, status) => SourceBooks(base, w, h, status);
      case Tick(later) => OutsideBooks(base, w, later, w.paidIn);
      case Restart => RestartBooks(base, w);
    }
  }

  lemma {:induction false} RunConserves(p: Policy, derive: Derive, w: World, es: seq<Event>, w': World)
    requires Consistent(w) && Safe(w) && Conserved(p.fees.baseFee, w) && FencedRun(p, derive, w, es, w')
    ensures Conserved(p.fees.baseFee, w')
    decreases |es|
  {
    hide Consistent, Safe, Conserved, Fenced, Advances, Enabled, Apply;
    if es != [] {
      StepConsistent(p, derive, w, es[0]);
      StepSafe(p, derive, w, es[0]);
      StepConserves(p, derive, w, es[0]);
      RunConserves(p, derive, Apply(p, derive, w, es[0]), es[1..], w');
    }
  }

  /** The amounts of the outstanding notes. */
  function Amounts(notes: map<NoteId, Note>, pays: map<Hash, Pay>): map<NoteId, int> {
    map id | id in notes && Outstanding(pays, notes[id]) :: notes[id].amount
  }

  /** Every mint invoice that was paid, credited or not. */
  function PaidIn(w: World): map<Hash, int> {
    map h | h in w.db.mints && h in w.gross && h in w.paidIn :: w.gross[h]
  }

  /** In every state a fenced run reaches: what is outstanding, a base fee for each
      outstanding note, and what melts have paid out, is covered by what was paid
      in. */
  lemma {:induction false} ConservationHolds(p: Policy, derive: Derive, es: seq<Event>, w: World)
    requires FencedRun(p, derive, START, es, w)
    ensures var amounts := Amounts(w.db.notes, w.pays);
            Total(amounts) + |amounts| * p.fees.baseFee + Total(Melted(w.melted, w.pays)) <= Total(PaidIn(w))
  {
    hide *;
    StartOk();
    StartBooks(p.fees.baseFee);
    RunConserves(p, derive, START, es, w);
    WorthIsRaised(p.fees.baseFee, w);
    CollectedIsPaid(p.fees.baseFee, w);
    ConservedBalances(p.fees.baseFee, w);
  }

  lemma ConservedBalances(base: int, w: World)
    requires Conserved(base, w)
    ensures Balanced(base, w)
  {
  }

  lemma WorthIsRaised(base: int, w: World)
    ensures var amounts := Amounts(w.db.notes, w.pays);
            Total(Worth(base, w.db.notes, w.pays)) == Total(amounts) + |amounts| * base
  {
    var amounts := Amounts(w.db.notes, w.pays);
    assert Worth(base, w.db.notes, w.pays) == Raised(amounts, base);
    hide Worth, Amounts;
    TotalRaised(amounts, base);
  }

  lemma CollectedIsPaid(base: nat, w: World)
    requires Conserved(base, w)
    ensures Total(Collected(w.db.mints, w.gross)) <= Total(PaidIn(w))
  {
    hide Balanced;
    forall h | h in w.db.mints ensures MintPriced(base, w, h) {
    }
    TotalGrows(Collected(w.db.mints, w.gross), PaidIn(w));
  }

  lemma StartBooks(base: int)
    ensures Conserved(base, START)
  {
    assert Worth(base, START.db.notes, START.pays) == map[];
    assert Melted(START.melted, START.pays) == map[];
    assert Collected(START.db.mints, START.gross) == map[];
  }
}
