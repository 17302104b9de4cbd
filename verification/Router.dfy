/** The router over the store: the callbacks and the stretches of background code
    that run between two awaits, each proved to be the protocol step it stands for. */
module Router {
  import opened Wrappers
  import opened BurnKeys
  import opened Ledger
  import opened LedgerInvariant
  import opened Redeem
  import opened Protocol
  import opened ProtocolInvariant
  import opened Store
  import Registry

  /** These notes are spent for good and the melt is settled; nothing else changed. */
  ghost predicate PaidOff(before: Db, after: Db, ids: seq<NoteId>, h: Hash) {
    && after.notes.Keys == before.notes.Keys && after.melts.Keys == before.melts.Keys
    && (forall id | id in before.notes :: after.notes[id] ==
          if id in ids then Note(before.notes[id].amount, true, false, None) else before.notes[id])
    && (forall g | g in before.melts :: after.melts[g] == Melt(before.melts[g].pr, g == h || before.melts[g].settled))
    && after == before.(notes := after.notes, melts := after.melts)
  }

  /** These notes are no longer reserved; nothing else changed. */
  ghost predicate GivenBack(before: Db, after: Db, ids: seq<NoteId>) {
    && after.notes.Keys == before.notes.Keys
    && (forall id | id in before.notes :: after.notes[id] ==
          if id in ids then Note(before.notes[id].amount, before.notes[id].spent, false, None) else before.notes[id])
    && after == before.(notes := after.notes)
  }

  /** What an outcome makes of a melt's notes: none leaves the tables as they are. */
  ghost predicate Acted(before: Db, after: Db, ids: seq<NoteId>, h: Hash, completed: Option<bool>) {
    match completed
    case None => after == before
    case Some(true) => PaidOff(before, after, ids, h)
    case Some(false) => GivenBack(before, after, ids)
  }

  class Service {
    const store: NoteStore
    var inFlight: Registry.Counts

    constructor (store: NoteStore)
      ensures this.store == store && inFlight == map[]
    {
      this.store := store;
      inFlight := map[];
    }

    /** The world's tables and registry are this service's. */
    ghost predicate Pictures(w: World)
      reads this, store
    {
      w.db == store.Tables() && w.inFlight == inFlight
    }

    /** One attempt more on `h`, and as many as before on every other hash. */
    method TrackMeltStart(h: Hash)
      modifies this
      ensures Tracked(h) == old(Tracked(h)) + 1 && forall g | g != h :: Tracked(g) == old(Tracked(g))
      ensures inFlight == Registry.Started(old(inFlight), h)
    {
      var tracked := if h in inFlight then inFlight[h] else 0;
      inFlight := inFlight[h := tracked + 1];
    }

    /** One attempt less on `h`, which is forgotten with its last, and as many as
        before on every other hash. */
    method TrackMeltEnd(h: Hash)
      modifies this
      ensures Tracked(h) == if old(Tracked(h)) > 0 then old(Tracked(h)) - 1 else 0
      ensures (h in inFlight ==> Tracked(h) > 0) && forall g | g != h :: Tracked(g) == old(Tracked(g))
      ensures inFlight == Registry.Ended(old(inFlight), h)
    {
      var tracked: int := if h in inFlight then inFlight[h] else 0;
      var remaining := tracked - 1;
      if remaining > 0 {
        inFlight := inFlight[h := remaining];
      } else {
        inFlight := inFlight - {h};
      }
    }

    /** The number of attempts counted on a hash. */
    function Tracked(h: Hash): nat
      reads this
    {
      if h in inFlight then inFlight[h] else 0
    }

    // --- Redeeming ---------------------------------------------------------

    /** Rotate, split and merge. */
    method Exchange(p: Policy, req: Request, seenSpent: bool) returns (reply: Reply)
      requires |req.ids| >= 1
      modifies store
      ensures Mutate(p, old(store.Tables()), req, seenSpent) == Response(reply, store.Tables())
    {
      hide BurnKey, Swapped, Value, Answers, Recorded;
      if |req.ids| > p.maxK1s {
        return Refused("Too many k1s");
      }
      if p.sunset && req.amount.Some? {
        return Refused("splitting is disabled");
      }
      if req.p1.None? {
        return Refused("missing p1");
      }
      if req.amount.Some? && req.p2.None? {
        return Refused("missing p2");
      }
      if !OnFile(store.Tables(), req.ids) {
        return Refused("Invalid or already spent k1.");
      }
      var burn := store.FindBurn(req.ids);
      assert burn == FindBurn(store.Tables(), req.ids);
      if burn.Some? && Answers(burn.value, req) {
        return Recorded(burn.value);
      }
      if seenSpent {
        return Refused("already in use");
      }
      var total := Total(req.ids);
      if req.amount.Some? {
        var amount := req.amount.value;
        if !(0 < amount < total) {
          return Refused("amount out of range");
        }
        var beforeFee := total - amount;
        if beforeFee < p.fees.baseFee {
          return Refused("insufficient value");
        }
        var change := beforeFee - p.fees.baseFee;
        if change < 1 {
          return Refused("insufficient value");
        }
        reply := Mint([Output(req.p1.value, amount), Output(req.p2.value, change)], req.ids);
      } else {
        var refund := (|req.ids| - 1) * p.fees.baseFee;
        reply := Mint([Output(req.p1.value, total + refund)], req.ids);
      }
    }

    method Total(ids: seq<NoteId>) returns (total: int)
      requires OnFile(store.Tables(), ids)
      ensures total == Value(store.Tables(), ids)
    {
      total := 0;
      for i := 0 to |ids|
        invariant total == Value(store.Tables(), ids[..i])
      {
        assert ids[..i + 1][..i] == ids[..i];
        total := total + store.notes[ids[i]].amount;
      }
      assert ids[..|ids|] == ids;
    }

    method Mint(outs: seq<Output>, ids: seq<NoteId>) returns (reply: Reply)
      requires 1 <= |outs| <= 2
      modifies store
      ensures Swapped(old(store.Tables()), ids, outs) == Response(reply, store.Tables())
    {
      hide Ledger.Swap;
      var e := store.Swap(ids, outs);
      if e.Some? {
        return Refused("refused");
      }
      return Minted(outs[0], if |outs| > 1 then Some(outs[1]) else None);
    }

    /** Paying a registered address with a note. */
    method Transfer(p: Policy, username: string, amount: int, id: NoteId, derive: Derive)
      returns (reply: TransferReply)
      requires Free(store.Tables(), id) ==> ClaimEnds(store.Tables(), username, derive)
      modifies store
      ensures var r := InternalTransfer(p, old(store.Tables()), username, amount, id, derive);
              reply == r.reply && store.Tables() == r.db
    {
      hide BurnKey, Ledger.Transfer;
      if amount < p.floor || amount > p.fees.maxSendable {
        return TransferRefused("Amount outside what this address accepts.");
      }
      if id !in store.notes {
        return TransferRefused("Invalid or already spent k1.");
      }
      var burn := store.FindBurn([id]);
      assert burn == FindBurn(store.Tables(), [id]);
      if burn.Some? && burn.value.recipient == Some(username) && burn.value.amount == amount {
        return Transferred;
      }
      if store.notes[id].spent {
        return TransferRefused("already in use");
      }
      if store.notes[id].pending {
        return TransferRefused("pending");
      }
      if amount != store.notes[id].amount {
        return TransferRefused("amount must be the note's full value");
      }
      var credited := store.TransferToUsername([id], username, amount, derive);
      return if credited.Ok? then Transferred else TransferRefused("refused");
    }

    // --- Melting -----------------------------------------------------------

    /** The melt path of the redeem callback, from the verified k1 to the reply:
        nothing in it awaits. */
    method Melt(id: NoteId, h: Hash, amount: int, pr: string, now: int, ghost w: World) returns (scheduled: bool)
      requires Pictures(w) && w.now == now
      modifies this, store
      ensures Pictures(MeltStep(w, id, h, amount, pr))
      ensures scheduled <==> MeltStep(w, id, h, amount, pr).nextTask == w.nextTask + 1
    {
      hide PayFeeWithNotes, Ledger.MarkPending;
      if id !in store.notes || store.notes[id].spent || amount != store.notes[id].amount {
        return false;
      }
      if h in store.fees {
        if pr != store.fees[h].pr {
          return false;
        }
        var paid := store.PayAddressFeeWithNotes([id], h, amount, now);
        return false;
      }
      if h in store.mints || h in store.melts {
        return false;
      }
      var e := store.MarkPending([id], h);
      if e.Some? {
        return false;
      }
      TrackMeltStart(h);
      store.RecordMelt(h, pr);
      return true;
    }

    /** pay_invoice returned: the note is burned, and the attempt is over. */
    method PaymentMade(id: NoteId, h: Hash, ghost w: World, ghost t: nat)
      requires Pictures(w) && t in w.tasks && w.tasks[t].id == id && w.tasks[t].h == h
      modifies this, store
      ensures PaidOff(old(store.Tables()), store.Tables(), [id], h)
      ensures Pictures(Ended(Finalized(w, [id], h), t))
    {
      store.FinalizeMelt([id]);
      store.MarkMeltSettled(h);
      TrackMeltEnd(h);
    }

    /** pay_invoice raised, and this is what asking for the outcome came to: an
        answer to any of the tries, or none to the last. */
    method PaymentConfirmed(id: NoteId, h: Hash, completed: Option<bool>, ghost w: World, ghost t: nat)
      requires Pictures(w) && t in w.tasks && w.tasks[t].id == id && w.tasks[t].h == h
      requires w.tasks[t].phase.Confirming? && w.tasks[t].phase.left >= 1
      requires completed == None ==> w.tasks[t].phase.left == 1
      modifies this, store
      ensures Acted(old(store.Tables()), store.Tables(), [id], h, completed)
      ensures Pictures(ConfirmStep(w, t, completed))
    {
      match completed
      case None => TrackMeltEnd(h);
      case Some(true) => PaymentMade(id, h, w, t);
      case Some(false) =>
        store.Restore([id]);
        TrackMeltEnd(h);
    }

    /** Asks until there is an answer: at once, and after each delay. */
    method ConfirmPayment(ask: nat -> Option<bool>, delays: seq<nat>) returns (r: Option<bool>, asked: nat)
      ensures 1 <= asked <= 1 + |delays| && r == ask(asked - 1)
      ensures forall i: nat | i < asked - 1 :: ask(i) == None
      ensures r == None ==> asked == 1 + |delays|
    {
      r, asked := None, 0;
      for i := 0 to 1 + |delays|
        invariant asked == i && r == None
        invariant forall j: nat | j < i :: ask(j) == None
      {
        r, asked := ask(i), i + 1;
        if r.Some? {
          return;
        }
      }
    }

    /** The reconciler passes over groups whose attempt is live. */
    method NextGroup(todo: seq<Entry>) returns (rest: seq<Entry>)
      ensures |rest| <= |todo| && rest == todo[|todo| - |rest|..] && (rest != [] ==> rest[0].h !in inFlight)
      ensures forall i | 0 <= i < |todo| - |rest| :: todo[i].h in inFlight
      ensures rest == Skipped(inFlight, todo)
    {
      var k := 0;
      while k < |todo| && todo[k].h in inFlight
        invariant k <= |todo| && Passed(inFlight, todo) == k + Passed(inFlight, todo[k..])
      {
        assert todo[k..][1..] == todo[k + 1..];
        k := k + 1;
      }
      return todo[k..];
    }

    /** One group of the reconciler, once its payment's outcome is known. */
    method ReconcileGroup(e: Entry, completed: Option<bool>, ghost w: World)
      requires Pictures(w) && w.recon != [] && w.recon[0] == e
      modifies store
      ensures Acted(old(store.Tables()), store.Tables(), e.ids, e.h, completed)
      ensures Pictures(ResolveStep(w, completed))
    {
      ResolvedTables(w, completed);
      ActedTables(store.Tables(), e.ids, e.h);
      hide ResolveStep, Ledger.FinalizeMelt, Ledger.MarkMeltSettled, Ledger.Restore, PaidOff, GivenBack;
      match completed
      case None =>
      case Some(true) =>
        store.FinalizeMelt(e.ids);
        store.MarkMeltSettled(e.h);
      case Some(false) => store.Restore(e.ids);
    }
  }

  lemma ResolvedTables(w: World, completed: Option<bool>)
    requires w.recon != []
    ensures var w', e := ResolveStep(w, completed), w.recon[0];
            && w'.inFlight == w.inFlight
            && w'.db == match completed
                        case None => w.db
                        case Some(true) => MarkMeltSettled(FinalizeMelt(w.db, e.ids), e.h)
                        case Some(false) => Restore(w.db, e.ids)
  {
    hide Skipped, CallLive, FinalizeMelt, MarkMeltSettled, Restore;
  }

  lemma ActedTables(db: Db, ids: seq<NoteId>, h: Hash)
    ensures PaidOff(db, MarkMeltSettled(FinalizeMelt(db, ids), h), ids, h)
    ensures GivenBack(db, Restore(db, ids), ids)
  {
  }

  /** The groups of pending_melts, in any order, are a snapshot. */
  lemma GroupsAreSnapshot(w: World, grouped: map<Hash, seq<NoteId>>, order: seq<Entry>)
    requires LifeCycle(w.db.notes)
    requires forall h | h in grouped :: grouped[h] != []
    requires forall id, h :: Reserved(w.db, id, h) <==> h in grouped && id in grouped[h]
    requires DistinctPayments(order) && forall h :: h in grouped <==> exists i :: 0 <= i < |order| && order[i].h == h
    requires forall i | 0 <= i < |order| ::
               order[i].h in grouped && order[i].ids == grouped[order[i].h] && order[i].quiet == !TaskOn(w, order[i].h)
    ensures IsSnapshot(w, order)
  {
    hide TaskOn, DistinctPayments;
    forall id | id in w.db.notes && w.db.notes[id].pending && w.db.notes[id].hash.Some?
      ensures exists i :: 0 <= i < |order| && Some(order[i].h) == w.db.notes[id].hash
    {
      assert Stage(w.db.notes[id]);
      assert Reserved(w.db, id, w.db.notes[id].hash.value);
    }
  }
}
