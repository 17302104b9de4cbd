/** No value is both paid out and back in circulation, as long as the reconciler
    restores nothing that has been reserved anew since its snapshot. */
module ProtocolSafety {
  import opened Wrappers
  import opened BurnKeys
  import opened Ledger
  import opened LedgerInvariant
  import opened Redeem
  import opened Protocol
  import opened ProtocolInvariant
  import Registry

  // --- Transactions that are not part of a melt ----------------------------

  lemma BystanderSafe(w: World, db: Db)
    requires Consistent(w) && Safe(w) && Advances(w.db, db) && Bystander(w.db, db)
    ensures Safe(Transacted(w, db))
  {
    hide Inv, Owned, TasksOk, ReconOk, Advances;
    forall id, h ensures Reserved(w.db, id, h) <==> Reserved(db, id, h) {
      BystanderReserved(w.db, db, id, h);
    }
    BystanderMelts(w, db);
    SameReserved(w, Transacted(w, db));
  }

  lemma SameReserved(w: World, w': World)
    requires HoldsReserved(w) && w'.tasks == w.tasks && w'.recon == w.recon
    requires forall id, h :: Reserved(w.db, id, h) <==> Reserved(w'.db, id, h)
    ensures HoldsReserved(w')
  {
    hide Reserved;
    forall e: Entry ensures StillReserved(w.db, e) <==> StillReserved(w'.db, e) {
    }
  }

  lemma BystanderMelts(w: World, db: Db)
    requires HistoryOk(w) && MeltsSafe(w) && Advances(w.db, db) && Bystander(w.db, db)
    requires forall id, h :: Reserved(w.db, id, h) <==> Reserved(db, id, h)
    ensures MeltsSafe(Transacted(w, db))
  {
    hide MintsAdvance, BurnsAdvance, FeesAdvance, MeltsAdvance, HistoryOk;
    var w' := Transacted(w, db);
    forall h ensures Covered(w', h) && (Owing(w, h) ==> w.melted[h].id !in NewlySpent(w.db, db)) {
      assert Covered(w, h);
      if Owing(w, h) {
        var id := w.melted[h].id;
        assert Reserved(w.db, id, h) ==> Pending(w.db, id);
      }
    }
  }

  // --- A new melt ----------------------------------------------------------

  lemma MeltSafe(w: World, id: NoteId, h: Hash, amount: int, pr: string)
    requires HistoryOk(w) && Safe(w) && MeltAccepted(w, id, h, amount)
    ensures Safe(MeltStep(w, id, h, amount, pr))
  {
    MarkedNotes(w.db, id, h, pr);
    MeltShape(w, id, h, amount, pr);
    assert !Spent(w.db.notes, id) && forall g :: !Reserved(w.db, id, g);
    assert h !in w.melted && h !in w.givenUp && id !in w.exchanged;
    hide Reserved, Spent, MeltStep, MarkPending, RecordMelt, HistoryOk, Safe;
    NewMeltSafe(w, MeltStep(w, id, h, amount, pr), id, h, amount);
  }

  lemma NewMeltSafe(w: World, w': World, id: NoteId, h: Hash, amount: int)
    requires Safe(w) && h !in w.melted && h !in w.givenUp && id !in w.exchanged
    requires !Spent(w.db.notes, id) && forall g :: !Reserved(w.db, id, g)
    requires w'.melted == w.melted[h := Reservation(id, amount)] && w'.pays == w.pays[h := Unsent]
    requires w'.tasks == w.tasks[w.nextTask := Task(id, h, Scheduled)]
    requires w'.givenUp == w.givenUp && w'.exchanged == w.exchanged && w'.recon == w.recon
    requires forall i, g :: Reserved(w'.db, i, g) <==> (i == id && g == h) || (i != id && Reserved(w.db, i, g))
    requires forall i: NoteId :: Spent(w'.db.notes, i) <==> Spent(w.db.notes, i)
    ensures Safe(w')
  {
    hide Reserved, Spent;
    forall g ensures Covered(w', g) && (Owing(w, g) ==> w.melted[g].id != id) {
      assert Covered(w, g);
    }
    forall e: Entry | StillReserved(w.db, e) ensures StillReserved(w'.db, e) {
    }
  }

  // --- Attempts ------------------------------------------------------------

  lemma MovedSafe(w: World, t: nat, phase: Phase)
    requires Safe(w) && t in w.tasks
    ensures Safe(Moved(w, t, phase))
  {
    hide Reserved;
    SameMelts(w, Moved(w, t, phase));
  }

  lemma EndedSafe(w: World, t: nat)
    requires Safe(w) && t in w.tasks
    ensures Safe(Ended(w, t))
  {
    hide Reserved;
    SameMelts(w, Ended(w, t));
  }

  lemma SameMelts(w: World, w': World)
    requires MeltsSafe(w) && w'.db == w.db && w'.pays == w.pays && w'.melted == w.melted
    requires w'.givenUp == w.givenUp && w'.exchanged == w.exchanged
    ensures MeltsSafe(w')
  {
    forall h ensures Covered(w', h) && (Owing(w', h) <==> Owing(w, h)) {
      assert Covered(w, h);
    }
  }

  // --- Outcomes ------------------------------------------------------------

  /** Nothing but its note's reservation is tied to the payment any more. */
  ghost predicate Untouched(w: World, h: Hash) {
    && !TaskOn(w, h)
    && (forall i | 0 <= i < |w.recon| && w.recon[i].quiet :: w.recon[i].h != h)
  }

  lemma ReleasedHolds(w: World, w': World, ids: seq<NoteId>, h: Hash)
    requires HoldsReserved(w) && Untouched(w, h) && w'.tasks == w.tasks && w'.recon == w.recon
    requires forall id, g :: g != h && Reserved(w.db, id, g) ==> Reserved(w'.db, id, g)
    ensures HoldsReserved(w')
  {
    hide Reserved;
    forall e: Entry | e.h != h && StillReserved(w.db, e) ensures StillReserved(w'.db, e) {
    }
  }

  /** A melt's note is reserved for no other payment while the melt stands. */
  lemma ReservedOnce(w: World, h: Hash, g: Hash)
    requires MeltsSafe(w) && Owing(w, h) && g != h
    ensures !Reserved(w.db, w.melted[h].id, g)
  {
    assert Covered(w, h);
  }

  lemma FinalizedSafe(w: World, ids: seq<NoteId>, h: Hash)
    requires HistoryOk(w) && Safe(w) && h in w.pays && w.pays[h].Landed? && Untouched(w, h)
    requires |ids| >= 1 && forall id | id in ids :: MeltOf(w.melted, h, id)
    ensures Safe(Finalized(w, ids, h))
  {
    FinalizedNotes(w.db, ids, h);
    assert Owing(w, h) && MeltOf(w.melted, h, ids[0]) && ids[0] in w.db.notes;
    hide Untouched, HistoryOk, MarkMeltSettled, FinalizeMelt, Reserved, Spent;
    var w' := Finalized(w, ids, h);
    forall id, g | g != h && Reserved(w.db, id, g) ensures Reserved(w'.db, id, g) {
      ReservedOnce(w, h, g);
      assert id in ids ==> MeltOf(w.melted, h, id);
    }
    ReleasedHolds(w, w', ids, h);
    BurnedMelts(w, w', ids, h);
  }

  lemma BurnedMelts(w: World, w': World, ids: seq<NoteId>, h: Hash)
    requires MeltsSafe(w) && Owing(w, h) && w.pays[h].Landed? && w.melted[h].id in ids
    requires w'.pays == w.pays && w'.melted == w.melted && w'.givenUp == w.givenUp && w'.exchanged == w.exchanged
    requires forall id, g :: g != h && Reserved(w.db, id, g) ==> Reserved(w'.db, id, g)
    requires forall id: NoteId :: Spent(w.db.notes, id) || (id in w.db.notes && id in ids) ==> Spent(w'.db.notes, id)
    requires w.melted[h].id in w.db.notes
    ensures MeltsSafe(w')
  {
    hide Reserved, Spent;
    forall g ensures Covered(w', g) && (Owing(w', g) <==> Owing(w, g)) {
      assert Covered(w, g);
    }
  }

  lemma GivenUpSafe(w: World, ids: seq<NoteId>, h: Hash)
    requires HistoryOk(w) && Safe(w) && MayAnswer(w, h, Some(false)) && Untouched(w, h)
    requires forall id, g | id in ids && Reserved(w.db, id, g) :: g == h
    ensures Safe(GivenUp(w, ids, h))
  {
    RestoredNotes(w.db, ids);
    hide Untouched, HistoryOk, Restore, Reserved, Spent, CallLive;
    var w' := GivenUp(w, ids, h);
    assert w'.melted == w.melted && w'.exchanged == w.exchanged && w'.givenUp == w.givenUp + {h};
    assert w'.tasks == w.tasks && w'.recon == w.recon && w'.db == Restore(w.db, ids);
    assert w'.pays.Keys == w.pays.Keys && forall g | g in w.pays && g != h :: w'.pays[g] == w.pays[g];
    hide GivenUp, HoldsReserved, MeltsSafe, MayAnswer;
    ReleasedHolds(w, w', ids, h);
    ReleasedMelts(w, w', h);
  }

  lemma ReleasedMelts(w: World, w': World, h: Hash)
    requires MeltsSafe(w) && w'.melted == w.melted && w'.exchanged == w.exchanged && w'.givenUp == w.givenUp + {h}
    requires w'.pays.Keys == w.pays.Keys && forall g | g in w.pays && g != h :: w'.pays[g] == w.pays[g]
    requires forall id, g :: g != h && Reserved(w.db, id, g) ==> Reserved(w'.db, id, g)
    requires forall id: NoteId :: Spent(w.db.notes, id) ==> Spent(w'.db.notes, id)
    ensures MeltsSafe(w')
  {
    hide Reserved, Spent;
    forall g ensures Covered(w', g) && (Owing(w', g) ==> g != h && Owing(w, g)) {
      assert Covered(w, g);
    }
  }

  /** An attempt that ends with an outcome leaves its payment untouched. */
  lemma EndedUntouched(w: World, t: nat)
    requires TasksOk(w) && ReconOk(w) && t in w.tasks
    ensures Untouched(Ended(w, t), w.tasks[t].h)
  {
    hide Registry.Agrees, Registry.Ended;
    var h := w.tasks[t].h;
    assert TaskOn(w, h);
    forall i | 0 <= i < |w.recon| && w.recon[i].quiet ensures w.recon[i].h != h {
      assert EntryOk(w, w.recon[i]);
    }
  }

  lemma PaidSafe(w: World, t: nat)
    requires Consistent(w) && Safe(w) && t in w.tasks && w.tasks[t].h in w.pays && w.pays[w.tasks[t].h].Landed?
    ensures var task := w.tasks[t]; Finalized(w, [task.id], task.h).tasks == w.tasks
                                    && Safe(Ended(Finalized(w, [task.id], task.h), t))
  {
    hide *;
    PaidEnds(w, t);
    EndedTask(w, t);
    EndedSafe(w, t);
    FinalizedSafe(Ended(w, t), [w.tasks[t].id], w.tasks[t].h);
  }

  /** What is left when an attempt on a payment ends. */
  lemma EndedTask(w: World, t: nat)
    requires Consistent(w) && t in w.tasks
    ensures var task, w' := w.tasks[t], Ended(w, t);
            && HistoryOk(w') && Untouched(w', task.h)
            && w'.db == w.db && w'.pays == w.pays
            && forall id | id in [task.id] :: MeltOf(w'.melted, task.h, id)
  {
    hide Inv, Owned, AttemptsOk, Untouched, Reserved, Spent, Holds;
    EndedUntouched(w, t);
  }

  lemma PaidEnds(w: World, t: nat)
    requires t in w.tasks
    ensures var task := w.tasks[t];
            && Finalized(w, [task.id], task.h).tasks == w.tasks
            && Ended(Finalized(w, [task.id], task.h), t) == Finalized(Ended(w, t), [task.id], task.h)
  {
    hide MarkMeltSettled, FinalizeMelt, Registry.Ended;
  }

  lemma UnpaidSafe(w: World, t: nat)
    requires Consistent(w) && Safe(w) && t in w.tasks && w.tasks[t].phase.Confirming?
    requires MayAnswer(w, w.tasks[t].h, Some(false))
    ensures var task := w.tasks[t]; GivenUp(w, [task.id], task.h).tasks == w.tasks
                                    && Safe(Ended(GivenUp(w, [task.id], task.h), t))
  {
    assert Reserved(w.db, w.tasks[t].id, w.tasks[t].h);
    assert forall g | Reserved(w.db, w.tasks[t].id, g) :: g == w.tasks[t].h;
    assert MayAnswer(Ended(w, t), w.tasks[t].h, Some(false));
    hide *;
    OneAttempt(w, t);
    UnpaidEnds(w, t);
    EndedTask(w, t);
    EndedSafe(w, t);
    GivenUpSafe(Ended(w, t), [w.tasks[t].id], w.tasks[t].h);
  }

  lemma UnpaidEnds(w: World, t: nat)
    requires t in w.tasks && !CallLive(w, w.tasks[t].h)
    ensures var task := w.tasks[t];
            && GivenUp(w, [task.id], task.h).tasks == w.tasks
            && Ended(GivenUp(w, [task.id], task.h), t) == GivenUp(Ended(w, t), [task.id], task.h)
  {
    EndedCalls(w, t);
    hide Restore, Registry.Ended, CallLive;
  }

  lemma EndedCalls(w: World, t: nat)
    requires t in w.tasks && !CallLive(w, w.tasks[t].h)
    ensures !CallLive(Ended(w, t), w.tasks[t].h)
  {
  }

  // --- The reconciler ------------------------------------------------------

  lemma SkippedSafe(w: World, todo: seq<Entry>)
    requires Safe(w) && forall i | 0 <= i < |todo| && todo[i].quiet :: StillReserved(w.db, todo[i])
    ensures Safe(w.(recon := Skipped(w.inFlight, todo)))
  {
    hide Reserved, StillReserved, Passed;
    SameMelts(w, w.(recon := Skipped(w.inFlight, todo)));
  }

  lemma SnapshotSafe(w: World, order: seq<Entry>)
    requires Safe(w) && IsSnapshot(w, order)
    ensures Safe(w.(recon := Skipped(w.inFlight, order)))
  {
    hide Reserved, Skipped;
    SkippedSafe(w, order);
  }

  lemma PastSafe(w: World)
    requires Safe(w) && w.recon != []
    ensures Safe(Past(w))
  {
    hide Reserved, StillReserved, Skipped;
    SkippedSafe(w, w.recon[1..]);
  }

  lemma LaterPayments(groups: seq<Entry>, k: nat)
    requires DistinctPayments(groups) && 0 < k <= |groups|
    ensures forall i | 0 <= i < |groups[k..]| :: groups[k..][i].h != groups[0].h
  {
  }

  lemma PastUntouched(w: World)
    requires ReconOk(w) && w.recon != []
    ensures Untouched(Past(w), w.recon[0].h)
  {
    var k := Passed(w.inFlight, w.recon[1..]);
    LaterPayments(w.recon, k + 1);
    hide Passed, EntryOk, DistinctPayments;
    assert Past(w).recon == w.recon[k + 1..];
    SameEntries(w, Past(w));
  }

  lemma ResolveSafe(w: World, answer: Option<bool>)
    requires Consistent(w) && Safe(w) && w.recon != []
    requires MayAnswer(w, w.recon[0].h, answer) && Fenced(w, Resolve(answer))
    ensures Safe(ResolveStep(w, answer))
  {
    var e := w.recon[0];
    assert EntryOk(w, e);
    FencedReserved(w, e);
    hide Inv, Owned, Safe, TasksOk, Untouched, Reserved, Finalized, GivenUp, Skipped, ReservedElsewhere;
    PastSafe(w);
    PastUntouched(w);
    PastConsistent(w);
    match answer
    case None =>
    case Some(true) => FinalizedSafe(Past(w), e.ids, e.h);
    case Some(false) => GivenUpSafe(Past(w), e.ids, e.h);
  }

  lemma FencedReserved(w: World, e: Entry)
    ensures ReservedElsewhere(w.db, e) <==> exists id, g :: id in e.ids && g != e.h && Reserved(w.db, id, g)
  {
    if ReservedElsewhere(w.db, e) {
      var id :| id in e.ids && id in w.db.notes && TakenBy(w.db.notes[id], e.h);
      assert Reserved(w.db, id, w.db.notes[id].hash.value);
    }
  }

  /** A group no attempt was live on when the snapshot was taken needs no fence. */
  lemma QuietIsFenced(w: World, answer: Option<bool>)
    requires Safe(w) && (w.recon != [] ==> w.recon[0].quiet)
    ensures Fenced(w, Resolve(answer))
  {
    if w.recon != [] {
      assert StillReserved(w.db, w.recon[0]);
      FencedReserved(w, w.recon[0]);
    }
  }

  /** The fence is exactly what safety needs: in any safe state, restoring the
      group keeps every melt covered if and only if none of its notes is reserved
      for another payment. */
  lemma FenceExact(w: World)
    requires Consistent(w) && Safe(w) && w.recon != [] && MayAnswer(w, w.recon[0].h, Some(false))
    ensures MeltsSafe(ResolveStep(w, Some(false))) <==> !ReservedElsewhere(w.db, w.recon[0])
  {
    var e := w.recon[0];
    FencedReserved(w, e);
    if ReservedElsewhere(w.db, e) {
      var id, g :| id in e.ids && g != e.h && Reserved(w.db, id, g);
      StaleRestore(w, id, g);
    } else {
      ResolveSafe(w, Some(false));
    }
  }

  /** Restoring a stale group frees a note whose payment is still to come. */
  lemma StaleRestore(w: World, id: NoteId, g: Hash)
    requires Consistent(w) && w.recon != [] && id in w.recon[0].ids && g != w.recon[0].h && Reserved(w.db, id, g)
    ensures !Covered(ResolveStep(w, Some(false)), g)
    ensures Free(ResolveStep(w, Some(false)).db, id)
  {
    hide Inv, Owned, TasksOk, ReconOk, Skipped, CallLive;
    assert MeltOf(w.melted, g, id);
  }

  // --- Every step ----------------------------------------------------------

  lemma SourceSafe(w: World, h: Hash, status: Pay)
    requires Safe(w) && h in w.pays && SourceMay(w.pays[h], status)
    ensures Safe(w.(pays := w.pays[h := status]))
  {
    hide Reserved, Spent;
    var w' := w.(pays := w.pays[h := status]);
    forall g ensures Covered(w', g) && (Owing(w', g) <==> Owing(w, g)) {
      assert Covered(w, g);
    }
  }

  lemma TaskSafe(p: Policy, derive: Derive, w: World, e: Event)
    requires TaskEvent(e) && Consistent(w) && Safe(w) && Enabled(p, derive, w, e)
    ensures Safe(Apply(p, derive, w, e))
  {
    hide Consistent, Safe, MayAnswer, Finalized, GivenUp, Ended, Moved;
    match e
    case Begin(t) => MovedSafe(w, t, Calling);
    case PayRaises(t) => MovedSafe(w, t, Confirming(CONFIRMATION_TRIES));
    case PaySucceeds(t) => PaidSafe(w, t);
    case Confirm(t, answer) =>
      match answer
      case Some(true) =>
        AnsweredTrue(w, w.tasks[t].h);
        PaidSafe(w, t);
      case Some(false) => UnpaidSafe(w, t);
      case None =>
        if w.tasks[t].phase.left == 1 {
          EndedSafe(w, t);
        } else {
          MovedSafe(w, t, Confirming(w.tasks[t].phase.left - 1));
        }
  }

  lemma ReconSafe(p: Policy, derive: Derive, w: World, e: Event)
    requires ReconEvent(e) && Consistent(w) && Safe(w) && Enabled(p, derive, w, e) && Fenced(w, e)
    ensures Safe(Apply(p, derive, w, e))
  {
    hide Consistent, Safe, IsSnapshot, MayAnswer, Skipped, ResolveStep, Fenced;
    match e
    case Snapshot(order) => SnapshotSafe(w, order);
    case Resolve(answer) => ResolveSafe(w, answer);
  }

  lemma NameSafe(p: Policy, derive: Derive, w: World, e: Event)
    requires NameEvent(e) && Consistent(w) && Safe(w) && Enabled(p, derive, w, e)
    ensures Safe(Apply(p, derive, w, e))
  {
    NameShape(p, derive, w, e);
    assert Inv(w.db) && Owned(w.db, w.now);
    hide Inv, Owned, Safe, Consistent, Advances, Apply, Enabled, NameDb, Bystander, NewlySpent;
    if NameDb(w, e).Ok? {
      NameKeeps(w, e);
      SameNotesBystander(w.db, NameDb(w, e).value);
      BystanderSafe(w, NameDb(w, e).value);
    }
  }

  lemma NoteSafe(p: Policy, derive: Derive, w: World, e: Event)
    requires NoteEvent(e) && Consistent(w) && Safe(w) && Enabled(p, derive, w, e)
    ensures Safe(Apply(p, derive, w, e))
  {
    assert Inv(w.db) && Owned(w.db, w.now);
    hide Inv, Owned, Safe, Consistent, Advances, Apply, Enabled, Bystander, NewlySpent;
    NoteStepDb(p, derive, w, e);
    var w' := Apply(p, derive, w, e);
    BystanderSafe(w, w'.db);
    OutsideSafe(Transacted(w, w'.db), w.now, w.paidIn, w'.gross);
  }

  lemma OutsideSafe(w: World, now: int, paidIn: set<Hash>, gross: map<Hash, int>)
    requires Safe(w)
    ensures Safe(w.(now := now, paidIn := paidIn, gross := gross))
  {
    hide Reserved;
    SameMelts(w, w.(now := now, paidIn := paidIn, gross := gross));
  }

  lemma MeltIntoSafe(w: World, id: NoteId, h: Hash, amount: int, pr: string)
    requires Consistent(w) && Safe(w)
    ensures Safe(MeltStep(w, id, h, amount, pr))
  {
    hide Inv, Owned, HistoryOk, TasksOk, ReconOk, Safe, Advances, MeltStep;
    hide PayFeeWithNotes, NewlySpent, Bystander, MarkPending, RecordMelt;
    MeltShape(w, id, h, amount, pr);
    if MeltAccepted(w, id, h, amount) {
      MeltSafe(w, id, h, amount, pr);
    } else if MeltStep(w, id, h, amount, pr) != w {
      PayFeeKeeps(w.db, [id], h, amount, w.now);
      PayFeeBystander(w.db, [id], h, amount, w.now);
      BystanderSafe(w, PayFeeWithNotes(w.db, [id], h, amount, w.now).value.0);
    }
  }

  lemma RestartSafe(w: World)
    requires Safe(w)
    ensures Safe(w.(tasks := map[], inFlight := map[], recon := []))
  {
    SameMelts(w, w.(tasks := map[], inFlight := map[], recon := []));
  }

  /** Safety is kept by every step, granted the fence where the reconciler
      restores. */
  lemma StepSafe(p: Policy, derive: Derive, w: World, e: Event)
    requires Consistent(w) && Safe(w) && Enabled(p, derive, w, e) && Fenced(w, e)
    ensures Safe(Apply(p, derive, w, e))
  {
    hide Consistent, Safe, Fenced, MeltStep;
    if NameEvent(e) {
      NameSafe(p, derive, w, e);
    } else if NoteEvent(e) {
      NoteSafe(p, derive, w, e);
    } else if TaskEvent(e) {
      TaskSafe(p, derive, w, e);
    } else if ReconEvent(e) {
      ReconSafe(p, derive, w, e);
    } else {
      match e
      case MeltInto(id, h, amount, pr) => MeltIntoSafe(w, id, h, amount, pr);
      case Payer(h) => OutsideSafe(w, w.now, w.paidIn + {h}, w.gross);
      case Source(h, status) => SourceSafe(w, h, status);
      case Tick(later) => OutsideSafe(w, later, w.paidIn, w.gross);
      case Restart => RestartSafe(w);
    }
  }
}
