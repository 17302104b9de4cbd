/** What becomes of a melt once its outcome is known, step by step and over whole
    runs: a payment that was made burns its note and goes on record, one that was not
    gives the note back. */
module Outcomes {
  import opened Wrappers
  import opened BurnKeys
  import opened Ledger
  import opened LedgerInvariant
  import opened LedgerExact
  import opened Redeem
  import opened Protocol
  import opened ProtocolInvariant
  import opened Runs
  import Registry

  // --- Asking for a melt ---------------------------------------------------

  /** The note is there to melt, whole. */
  predicate Meltable(db: Db, id: NoteId, amount: int) {
    Free(db, id) && db.notes[id].amount == amount
  }

  /** The invoice is this mint's own fee invoice and still wanted. */
  predicate PayableFee(db: Db, h: Hash, amount: int, pr: string, now: int) {
    && h in db.fees && db.fees[h].pr == pr && !db.fees[h].paid && now < db.fees[h].expires
    && db.fees[h].amount == amount && Vacant(db, db.fees[h].username, now, Some(h))
  }

  /** The invoice is nobody's the mint knows of. */
  predicate Foreign(db: Db, h: Hash) {
    h !in db.fees && h !in db.mints && h !in db.melts
  }

  /** Exactly what a melt request does: into the mint's own payable fee invoice it
      burns the note, into a foreign one it reserves it and schedules one payment, and
      anything else changes nothing. */
  lemma MeltExact(w: World, id: NoteId, h: Hash, amount: int, pr: string)
    ensures var w' := MeltStep(w, id, h, amount, pr);
            if Meltable(w.db, id, amount) && PayableFee(w.db, h, amount, pr, w.now) then
              var f := w.db.fees[h];
              && w'.db == w.db.(notes := w.db.notes[id := Note(amount, true, false, w.db.notes[id].hash)],
                                fees := w.db.fees[h := f.(paid := true)],
                                users := w.db.users[f.username := User(f.cx1, 0)])
              && w' == w.(db := w'.db, exchanged := w.exchanged + {id})
            else if Meltable(w.db, id, amount) && Foreign(w.db, h) then
              w' == w.(db := w.db.(notes := w.db.notes[id := Note(amount, false, true, Some(h))],
                                   melts := w.db.melts[h := Melt(pr, false)]),
                       inFlight := Registry.Started(w.inFlight, h),
                       tasks := w.tasks[w.nextTask := Task(id, h, Scheduled)],
                       nextTask := w.nextTask + 1,
                       pays := w.pays[h := Unsent],
                       melted := w.melted[h := Reservation(id, amount)])
            else w' == w
  {
    PayFeeDoes(w.db, [id], h, amount, w.now);
    OneFree(w.db, id);
    MeltShape(w, id, h, amount, pr);
    ReserveExact(w.db, id, h, pr);
    hide PayFeeWithNotes, Vacant, MarkPending, RecordMelt, NoDuplicates, AllFree;
  }

  // --- Its outcome ---------------------------------------------------------

  /** The event tells that the payment `h` was made, or was not. */
  predicate Tells(w: World, e: Event, h: Hash, made: bool) {
    match e
    case PaySucceeds(t) => made && t in w.tasks && w.tasks[t].h == h
    case Confirm(t, answer) => answer == Some(made) && t in w.tasks && w.tasks[t].h == h
    case Resolve(answer) => answer == Some(made) && w.recon != [] && w.recon[0].h == h
    case _ => false
  }

  /** What the tables are once the melt of `h` is over: its note burned and the melt
      on record as settled, or its note no longer reserved. */
  function Resolved(db: Db, id: NoteId, h: Hash, made: bool): Db
    requires id in db.notes && h in db.melts
  {
    var n := db.notes[id];
    if made then
      db.(notes := db.notes[id := Note(n.amount, true, false, None)],
          melts := db.melts[h := Melt(db.melts[h].pr, true)])
    else db.(notes := db.notes[id := Note(n.amount, n.spent, false, None)])
  }

  lemma FinalizedDb(w: World, ids: seq<NoteId>, id: NoteId, h: Hash)
    requires id in ids && id in w.db.notes && h in w.db.melts && forall i | i in ids :: i == id
    ensures Finalized(w, ids, h).db == Resolved(w.db, id, h, true)
    ensures GivenUp(w, ids, h).db == Resolved(w.db, id, h, false)
    ensures Finalized(w, ids, h).tasks == GivenUp(w, ids, h).tasks == w.tasks
  {
    OutcomeExact(w.db, ids, id, h);
    hide CallLive, FinalizeMelt, MarkMeltSettled, Restore;
  }

  /** The melt of a payment being asked about is on file, with its note. */
  lemma MeltOnFile(w: World, h: Hash, id: NoteId)
    requires HistoryOk(w) && MeltOf(w.melted, h, id)
    ensures h in w.melted && w.melted[h].id == id && id in w.db.notes && h in w.db.melts
  {
    assert Holds(w.db.notes, w.melted[h].id, w.melted[h].amount);
  }

  lemma AskedIs(w: World, h: Hash)
    requires Consistent(w) && w.recon != [] && w.recon[0].h == h
    ensures h in w.melted && w.melted[h].id in w.recon[0].ids && forall i | i in w.recon[0].ids :: i == w.melted[h].id
  {
    assert EntryOk(w, w.recon[0]);
    assert MeltOf(w.melted, h, w.recon[0].ids[0]);
  }

  lemma OutcomeDb(p: Policy, derive: Derive, w: World, e: Event, h: Hash, made: bool)
    requires Consistent(w) && Enabled(p, derive, w, e) && Tells(w, e, h, made)
    ensures h in w.melted && w.melted[h].id in w.db.notes && h in w.db.melts
    ensures Apply(p, derive, w, e).db == Resolved(w.db, w.melted[h].id, h, made)
  {
    hide Inv, Owned, AttemptsOk, ReconOk, MayAnswer, Finalized, GivenUp, Resolved, HistoryOk;
    if e.Resolve? {
      AskedIs(w, h);
      MeltOnFile(w, h, w.melted[h].id);
      FinalizedDb(Past(w), w.recon[0].ids, w.melted[h].id, h);
    } else {
      var task := w.tasks[e.t];
      assert MeltOf(w.melted, h, task.id);
      MeltOnFile(w, h, task.id);
      FinalizedDb(w, [task.id], task.id, h);
    }
  }

  /** When the outcome of a payment is learned, by whatever way, just its note and its
      row change: the note of one that was made is spent and its melt settled, the
      note of one that was not is free again. */
  lemma OutcomeStep(p: Policy, derive: Derive, w: World, e: Event, h: Hash, made: bool)
    requires Consistent(w) && Enabled(p, derive, w, e) && Tells(w, e, h, made)
    ensures h in w.melted && w.melted[h].id in w.db.notes && h in w.db.melts
    ensures var id, db' := w.melted[h].id, Apply(p, derive, w, e).db;
            && db' == Resolved(w.db, id, h, made)
            && id in db'.notes && !db'.notes[id].pending && h in db'.melts
            && if made then db'.notes[id].spent && db'.melts[h].settled
               else db'.melts == w.db.melts && (Free(db', id) <==> !w.db.notes[id].spent)
  {
    hide Consistent, Enabled, Apply, Tells;
    OutcomeDb(p, derive, w, e, h, made);
  }

  /** The event tells the outcome of some payment. */
  predicate Telling(e: Event) {
    e.PaySucceeds? || (e.Confirm? && e.answer.Some?) || (e.Resolve? && e.answer.Some?)
  }

  lemma ToldOf(p: Policy, derive: Derive, w: World, e: Event) returns (h: Hash, made: bool)
    requires Enabled(p, derive, w, e) && Telling(e)
    ensures Tells(w, e, h, made)
  {
    h, made := if e.Resolve? then w.recon[0].h else w.tasks[e.t].h, e.PaySucceeds? || e.answer.value;
  }

  lemma NotTelling(w: World, e: Event, h: Hash, made: bool)
    requires !Telling(e)
    ensures !Tells(w, e, h, made)
  {
  }

  /** Until an outcome is learned a background payment and the reconciler leave the
      tables alone. */
  lemma UntoldDb(p: Policy, derive: Derive, w: World, e: Event)
    requires (TaskEvent(e) || ReconEvent(e)) && Enabled(p, derive, w, e) && !Telling(e)
    ensures Apply(p, derive, w, e).db == w.db
  {
    hide MayAnswer, IsSnapshot, Finalized, GivenUp, Skipped, Ended, Moved;
    if TaskEvent(e) {
      forall phase ensures Moved(w, e.t, phase).db == w.db && Ended(w, e.t).db == w.db {
        TaskOnly(w, e.t, phase);
      }
    }
  }

  predicate Settled(w: World, h: Hash) {
    h in w.db.melts && w.db.melts[h].settled
  }

  /** A melt goes on record as settled by being told of, and not otherwise. */
  lemma SettledStep(p: Policy, derive: Derive, w: World, e: Event, h: Hash)
    requires Consistent(w) && Enabled(p, derive, w, e)
    ensures Settled(Apply(p, derive, w, e), h) <==> Settled(w, h) || Tells(w, e, h, true)
  {
    hide *;
    if TaskEvent(e) || ReconEvent(e) {
      ToldStep(p, derive, w, e, h);
    } else {
      OtherMelts(p, derive, w, e, h);
      assert !Telling(e) by { NeverTelling(e); }
      NotTelling(w, e, h, true);
      StepConsistent(p, derive, w, e);
      StaysSettled(w, Apply(p, derive, w, e), h);
    }
  }

  lemma NeverTelling(e: Event)
    requires !TaskEvent(e) && !ReconEvent(e)
    ensures !Telling(e)
  {
  }

  lemma StaysSettled(w: World, w': World, h: Hash)
    requires Advances(w.db, w'.db)
    ensures Settled(w, h) ==> Settled(w', h)
  {
  }

  lemma ToldStep(p: Policy, derive: Derive, w: World, e: Event, h: Hash)
    requires (TaskEvent(e) || ReconEvent(e)) && Consistent(w) && Enabled(p, derive, w, e)
    ensures Settled(Apply(p, derive, w, e), h) <==> Settled(w, h) || Tells(w, e, h, true)
  {
    hide *;
    SettledIs(w, h);
    SettledIs(Apply(p, derive, w, e), h);
    if Telling(e) {
      var g, made := ToldOf(p, derive, w, e);
      OutcomeStep(p, derive, w, e, g, made);
      ToldOnce(w, e, g, made, h);
      ResolvedMelts(w.db, w.melted[g].id, g, made, h);
    } else {
      UntoldDb(p, derive, w, e);
      NotTelling(w, e, h, true);
    }
  }

  lemma SettledIs(w: World, h: Hash)
    ensures Settled(w, h) <==> h in w.db.melts && w.db.melts[h].settled
  {
  }

  /** An event tells of one payment, one thing. */
  lemma ToldOnce(w: World, e: Event, g: Hash, made: bool, h: Hash)
    requires Tells(w, e, g, made)
    ensures Tells(w, e, h, true) <==> h == g && made
  {
  }

  lemma ResolvedMelts(db: Db, id: NoteId, g: Hash, made: bool, h: Hash)
    requires id in db.notes && g in db.melts
    ensures var melts := Resolved(db, id, g, made).melts;
            (h in melts && melts[h].settled) <==> (h in db.melts && db.melts[h].settled) || (h == g && made)
  {
  }

  /** No other step settles a melt. */
  lemma OtherMelts(p: Policy, derive: Derive, w: World, e: Event, h: Hash)
    requires !TaskEvent(e) && !ReconEvent(e) && Consistent(w) && Enabled(p, derive, w, e)
    ensures Settled(Apply(p, derive, w, e), h) ==> Settled(w, h)
  {
    assert Inv(w.db) && Owned(w.db, w.now);
    hide Consistent, Inv, Owned, Advances, NewlySpent;
    if NameEvent(e) {
      hide Apply, Enabled, NameDb;
      NameShape(p, derive, w, e);
      if NameDb(w, e).Ok? {
        NameKeeps(w, e);
      }
    } else if NoteEvent(e) {
      hide Apply, Enabled;
      NoteStepDb(p, derive, w, e);
    } else if e.MeltInto? {
      hide MeltStep, Meltable, PayableFee;
      MeltExact(w, e.id, e.h, e.amount, e.pr);
    }
  }

  // --- How long a reservation, an attempt and a group last -----------------

  /** A reservation lasts until the outcome of a payment from its note is learned. */
  lemma ReservationStep(p: Policy, derive: Derive, w: World, e: Event, id: NoteId, h: Hash)
    requires Consistent(w) && Enabled(p, derive, w, e) && Reserved(w.db, id, h)
    requires forall g, made | Tells(w, e, g, made) :: !MeltOf(w.melted, g, id)
    ensures Reserved(Apply(p, derive, w, e).db, id, h)
  {
    hide *;
    if Telling(e) {
      var g, made := ToldOf(p, derive, w, e);
      OutcomeDb(p, derive, w, e, g, made);
      ResolvedReserved(w, g, made, id, h);
    } else if TaskEvent(e) || ReconEvent(e) {
      UntoldDb(p, derive, w, e);
    } else {
      OtherReserved(p, derive, w, e, id, h);
    }
  }

  lemma ResolvedReserved(w: World, g: Hash, made: bool, id: NoteId, h: Hash)
    requires g in w.melted && w.melted[g].id in w.db.notes && g in w.db.melts && !MeltOf(w.melted, g, id)
    requires Reserved(w.db, id, h)
    ensures Reserved(Resolved(w.db, w.melted[g].id, g, made), id, h)
  {
  }

  lemma OtherReserved(p: Policy, derive: Derive, w: World, e: Event, id: NoteId, h: Hash)
    requires !TaskEvent(e) && !ReconEvent(e) && Consistent(w) && Enabled(p, derive, w, e) && Reserved(w.db, id, h)
    ensures Reserved(Apply(p, derive, w, e).db, id, h)
  {
    assert Inv(w.db) && Owned(w.db, w.now);
    hide Consistent, Inv, Owned, Advances, NewlySpent, Bystander;
    if NameEvent(e) {
      hide Apply, Enabled, NameDb;
      NameShape(p, derive, w, e);
      if NameDb(w, e).Ok? {
        NameKeeps(w, e);
      }
    } else if NoteEvent(e) {
      hide Apply, Enabled;
      NoteStepDb(p, derive, w, e);
      BystanderReserved(w.db, Apply(p, derive, w, e).db, id, h);
    } else if e.MeltInto? {
      hide MeltStep;
      MeltReserved(w, e.id, e.h, e.amount, e.pr, id, h);
    }
  }

  lemma MeltReserved(w: World, id: NoteId, h: Hash, amount: int, pr: string, i: NoteId, g: Hash)
    requires Reserved(w.db, i, g)
    ensures Reserved(MeltStep(w, id, h, amount, pr).db, i, g)
  {
    MeltExact(w, id, h, amount, pr);
    hide MeltStep, PayableFee, Foreign;
  }

  /** An attempt is inside pay_invoice once begun; if that raises its outcome is asked
      for six times at most, at once and after each of five delays; it is over with
      the first answer, with the last raise, or when the payment returns. */
  lemma AttemptStep(p: Policy, derive: Derive, w: World, e: Event)
    requires TaskEvent(e) && Enabled(p, derive, w, e)
    ensures var tasks, task := Apply(p, derive, w, e).tasks, w.tasks[e.t];
            match e
            case Begin(t) => tasks == w.tasks[t := Task(task.id, task.h, Calling)]
            case PayRaises(t) => tasks == w.tasks[t := Task(task.id, task.h, Confirming(6))]
            case Confirm(t, None) =>
              tasks == if task.phase.left > 1 then w.tasks[t := Task(task.id, task.h, Confirming(task.phase.left - 1))]
                       else w.tasks - {t}
            case _ => tasks == w.tasks - {e.t}
  {
    var task := w.tasks[e.t];
    OutcomeTasks(w, [task.id], task.h);
    hide MayAnswer, Finalized, GivenUp, Registry.Ended;
  }

  lemma OutcomeTasks(w: World, ids: seq<NoteId>, h: Hash)
    ensures Finalized(w, ids, h).tasks == GivenUp(w, ids, h).tasks == w.tasks
    ensures Finalized(w, ids, h).recon == GivenUp(w, ids, h).recon == w.recon
    ensures Finalized(w, ids, h).gross == GivenUp(w, ids, h).gross == w.gross
  {
    hide CallLive, FinalizeMelt, MarkMeltSettled, Restore;
  }

  /** The groups left are those from the first on that no attempt is live on. */
  ghost predicate FromFirstIdle(w: World, todo: seq<Entry>, rest: seq<Entry>) {
    exists k :: 0 <= k <= |todo| && LiveUpTo(w, todo, k) && rest == todo[k..]
  }

  predicate LiveUpTo(w: World, todo: seq<Entry>, k: int)
    requires 0 <= k <= |todo|
  {
    (forall i | 0 <= i < k :: TaskOn(w, todo[i].h)) && (k < |todo| ==> !TaskOn(w, todo[k].h))
  }

  lemma SkipsLive(w: World, todo: seq<Entry>)
    requires AttemptsOk(w.tasks, w.nextTask, w.inFlight)
    ensures FromFirstIdle(w, todo, Skipped(w.inFlight, todo))
  {
    var k := Passed(w.inFlight, todo);
    hide AttemptsOk, TaskOn, Passed;
    forall h ensures h in w.inFlight <==> TaskOn(w, h) {
      UncountedIdle(w, h);
    }
    assert LiveUpTo(w, todo, k);
  }

  lemma PastRecon(w: World, answer: Option<bool>)
    requires w.recon != []
    ensures ResolveStep(w, answer).recon == Skipped(w.inFlight, w.recon[1..])
  {
    OutcomeTasks(Past(w), w.recon[0].ids, w.recon[0].h);
    hide Finalized, GivenUp, Skipped;
  }

  lemma AttemptsCounted(w: World)
    requires Consistent(w)
    ensures AttemptsOk(w.tasks, w.nextTask, w.inFlight)
  {
  }

  /** The reconciler takes the groups in order, and passes over just those with a live
      attempt; whatever it hears of one, the next is up. */
  lemma ReconcilerStep(p: Policy, derive: Derive, w: World, e: Event)
    requires ReconEvent(e) && Consistent(w) && Enabled(p, derive, w, e)
    ensures e.Resolve? ==> w.recon != []
    ensures FromFirstIdle(w, if e.Snapshot? then e.order else w.recon[1..], Apply(p, derive, w, e).recon)
  {
    AttemptsCounted(w);
    hide *;
    if e.Snapshot? {
      SnapshotIs(p, derive, w, e.order);
      SkipsLive(w, e.order);
    } else {
      ReconEither(e);
      ResolveIs(p, derive, w, e.answer);
      PastRecon(w, e.answer);
      SkipsLive(w, w.recon[1..]);
    }
  }

  lemma ReconEither(e: Event)
    requires ReconEvent(e)
    ensures e.Snapshot? || e.Resolve?
  {
  }

  /** What the world outside does, and a restart: no table changes, and a restart
      forgets the attempts, the registry and the groups. */
  lemma OutsideStep(p: Policy, derive: Derive, w: World, e: Event)
    requires Enabled(p, derive, w, e) && (e.Payer? || e.Source? || e.Tick? || e.Restart?)
    ensures Apply(p, derive, w, e) ==
            match e
            case Payer(h) => w.(paidIn := w.paidIn + {h})
            case Source(h, status) => w.(pays := w.pays[h := status])
            case Tick(later) => w.(now := later)
            case _ => w.(tasks := map[], inFlight := map[], recon := [])
  {
  }

  // --- Usernames -----------------------------------------------------------

  /** What each step about a username does to the tables, and when it does anything:
      registering and holding need a vacant name and a new share key, a payment needs
      the name vacant but for its own hold, however late, and moving to a new share
      needs the name registered. */
  lemma NameStep(p: Policy, derive: Derive, w: World, e: Event)
    requires NameEvent(e) && Enabled(p, derive, w, e)
    ensures var db, db' := w.db, Apply(p, derive, w, e).db;
            match e
            case RegisterName(u, cx1) =>
              db' == if Vacant(db, u, w.now, None) && ShareKey(cx1) !in db.accepted
                     then db.(users := db.users[u := User(cx1, 0)], accepted := db.accepted + {ShareKey(cx1)}) else db
            case HoldName(h, pr, u, cx1, amount, expires) =>
              db' == if Vacant(db, u, w.now, None) && ShareKey(cx1) !in db.accepted && h !in db.fees
                     then db.(fees := db.fees[h := Fee(pr, u, cx1, amount, expires, false)],
                              accepted := db.accepted + {ShareKey(cx1)}) else db
            case SettleName(h) =>
              if h in db.fees && !db.fees[h].paid then
                var f := db.fees[h];
                db' == db.(fees := db.fees[h := f.(paid := true)],
                           users := if Vacant(db, f.username, w.now, Some(h))
                                    then db.users[f.username := User(f.cx1, 0)] else db.users)
              else db' == db
            case UpdateName(u, cx1) =>
              db' == if u in db.users && ShareKey(cx1) !in db.accepted
                     then db.(users := db.users[u := User(cx1, 0)], accepted := db.accepted + {ShareKey(cx1)}) else db
            case DeleteName(u) => db' == db.(users := db.users - {u})
            case _ => true
  {
    hide ShareKey, Vacant, Register, Hold, SettleFee, Update, NewlySpent;
    match e
    case RegisterName(u, cx1) => RegisterExact(w.db, u, cx1, ShareKey(cx1), w.now);
    case HoldName(h, pr, u, cx1, amount, expires) =>
      HoldExact(w.db, h, pr, u, cx1, ShareKey(cx1), amount, expires, w.now, w.now);
    case SettleName(h) => SettleFeeExact(w.db, h, w.now);
    case UpdateName(u, cx1) => UpdateExact(w.db, u, cx1, ShareKey(cx1));
    case DeleteName(u) =>
  }

  // --- Over whole runs -----------------------------------------------------

  /** Somewhere in the course of these events it is told that `h` was paid. */
  ghost predicate ToldPaid(p: Policy, derive: Derive, w: World, es: seq<Event>, h: Hash)
    decreases |es|
  {
    && es != [] && Enabled(p, derive, w, es[0])
    && (Tells(w, es[0], h, true) || ToldPaid(p, derive, Apply(p, derive, w, es[0]), es[1..], h))
  }

  lemma {:induction false} SettledOverRun(p: Policy, derive: Derive, w: World, es: seq<Event>, w': World, h: Hash)
    requires Consistent(w) && Run(p, derive, w, es, w')
    ensures Settled(w', h) <==> Settled(w, h) || ToldPaid(p, derive, w, es, h)
    decreases |es|
  {
    hide Consistent, Advances, Enabled, Apply, Tells, Settled;
    if es != [] {
      StepConsistent(p, derive, w, es[0]);
      SettledStep(p, derive, w, es[0], h);
      SettledOverRun(p, derive, Apply(p, derive, w, es[0]), es[1..], w', h);
    }
  }

  /** A melt is on record as settled exactly if, at some point of the run, it was told
      that its payment was made; from then on its note is spent. */
  lemma SettledExact(p: Policy, derive: Derive, es: seq<Event>, w: World, h: Hash)
    requires Run(p, derive, START, es, w)
    ensures Settled(w, h) <==> ToldPaid(p, derive, START, es, h)
    ensures ToldPaid(p, derive, START, es, h) ==>
              && h in w.melted && w.melted[h].id in w.db.notes
              && var n := w.db.notes[w.melted[h].id]; n.spent && !n.pending && n.hash == None
  {
    StartOk();
    SettledOverRun(p, derive, START, es, w, h);
    RunConsistent(p, derive, START, es, w);
    hide Run, ToldPaid;
    if Settled(w, h) {
      assert Spent(w.db.notes, w.melted[h].id);
      assert Stage(w.db.notes[w.melted[h].id]);
    }
  }
}
