/** What every step of the protocol keeps, whatever the reconciler restores. */
module ProtocolInvariant {
  import opened Wrappers
  import opened BurnKeys
  import opened Ledger
  import opened LedgerInvariant
  import opened Redeem
  import opened Protocol
  import Registry
  import Fees

  // --- Transactions that are not part of a melt ----------------------------

  predicate Pending(db: Db, id: NoteId) {
    id in db.notes && db.notes[id].pending
  }

  /** The transaction leaves every reserved note, and the melts table, alone. */
  ghost predicate Bystander(a: Db, b: Db) {
    && b.melts == a.melts
    && forall id: NoteId | Pending(a, id) || Pending(b, id) ::
         id in a.notes && id in b.notes && a.notes[id] == b.notes[id]
  }

  lemma BystanderReserved(a: Db, b: Db, id: NoteId, h: Hash)
    requires Bystander(a, b)
    ensures Reserved(a, id, h) <==> Reserved(b, id, h)
  {
    assert Reserved(a, id, h) ==> Pending(a, id);
    assert Reserved(b, id, h) ==> Pending(b, id);
  }

  lemma BystanderConsistent(w: World, db: Db)
    requires Consistent(w) && Inv(db) && Owned(db, w.now) && Advances(w.db, db) && Bystander(w.db, db)
    ensures Consistent(Transacted(w, db))
  {
    hide Inv, Owned, Reserved, AttemptsOk, EntryOk;
    forall id, h ensures Reserved(w.db, id, h) <==> Reserved(db, id, h) {
      BystanderReserved(w.db, db, id, h);
    }
    BystanderHistory(w, db);
    SameTasks(w, Transacted(w, db));
  }

  lemma BystanderHistory(w: World, db: Db)
    requires HistoryOk(w) && Advances(w.db, db) && db.melts == w.db.melts
    requires forall id, h :: Reserved(w.db, id, h) <==> Reserved(db, id, h)
    ensures HistoryOk(Transacted(w, db))
  {
    hide Reserved, MintsAdvance, BurnsAdvance, FeesAdvance;
    forall id | Spent(w.db.notes, id) ensures Spent(db.notes, id) {
    }
  }

  /** Attempts and the reconciler's groups say nothing about the tables. */
  lemma SameTasks(w: World, w': World)
    requires TasksOk(w) && ReconOk(w)
    requires w'.tasks == w.tasks && w'.nextTask == w.nextTask && w'.inFlight == w.inFlight
    requires w'.melted == w.melted && w'.recon == w.recon
    ensures TasksOk(w') && ReconOk(w')
  {
    hide AttemptsOk, TaskOn, EntryOk;
    SameEntries(w, w');
  }

  // --- Each such transaction is a bystander --------------------------------

  lemma SameNotesBystander(a: Db, b: Db)
    requires b.notes == a.notes && b.melts == a.melts
    ensures Bystander(a, b)
  {
  }

  lemma CreditBystander(a: Db, b: Db, id: NoteId, amount: int)
    requires id !in a.notes && b.notes == a.notes[id := Fresh(amount)] && b.melts == a.melts
    ensures Bystander(a, b)
  {
  }

  lemma SwapBystander(db: Db, ids: seq<NoteId>, outs: seq<Output>, recipient: Option<string>)
    requires Swap(db, ids, outs, recipient).Ok?
    ensures Bystander(db, Swap(db, ids, outs, recipient).value)
  {
    hide BurnKey, Credited, Burned;
    var db' := Swap(db, ids, outs, recipient).value;
    forall id: NoteId | Pending(db, id) || Pending(db', id)
      ensures id in db.notes && id in db'.notes && db.notes[id] == db'.notes[id]
    {
      SwapNotes(db, ids, outs, recipient, id);
      FreeInputs(db, ids, id);
      if id in OutputIds(outs) {
        var i :| 0 <= i < |outs| && OutputIds(outs)[i] == id;
        SwapOutput(db, ids, outs, recipient, i);
      }
    }
  }

  lemma MutateBystander(p: Policy, db: Db, req: Request, seenSpent: bool)
    requires Inv(db) && |req.ids| >= 1
    ensures var db' := Mutate(p, db, req, seenSpent).db;
            Inv(db') && Advances(db, db') && Bystander(db, db') && db'.users == db.users && db'.fees == db.fees
  {
    hide Inv, Advances, BurnKey, Bystander, Swap;
    var db' := Mutate(p, db, req, seenSpent).db;
    if db' == db {
      NothingUndone(db);
      SameNotesBystander(db, db);
    } else if req.amount.Some? {
      var amount := req.amount.value;
      var change := Value(db, req.ids) - amount - p.fees.baseFee;
      SwappedBystander(db, req.ids, [Output(req.p1.value, amount), Output(req.p2.value, change)]);
    } else {
      SwappedBystander(db, req.ids, [Output(req.p1.value, Value(db, req.ids) + (|req.ids| - 1) * p.fees.baseFee)]);
    }
  }

  lemma SwappedBystander(db: Db, ids: seq<NoteId>, outs: seq<Output>)
    requires Inv(db) && 1 <= |outs| <= 2
    ensures var db' := Swapped(db, ids, outs).db;
            Inv(db') && Advances(db, db') && Bystander(db, db') && db'.users == db.users && db'.fees == db.fees
  {
    hide Inv, Advances, BurnKey, Bystander;
    if Swap(db, ids, outs, None).Ok? {
      SwapKeeps(db, ids, outs, None);
      SwapBystander(db, ids, outs, None);
    } else {
      NothingUndone(db);
      SameNotesBystander(db, db);
    }
  }

  lemma SettleBystander(db: Db, h: Hash, derive: Derive, now: int)
    requires Inv(db) && Owned(db, now) && SettleEnds(db, h, derive) && SettleMint(db, h, derive).Ok?
    ensures var db' := SettleMint(db, h, derive).value.db;
            Inv(db') && Advances(db, db') && Bystander(db, db') && Owned(db', now)
  {
    hide Inv, Advances, Bystander;
    var db' := SettleMint(db, h, derive).value.db;
    SettleKeeps(db, h, derive);
    if h in db.mints && !db.mints[h].minted && (db.mints[h].noteId.Some? || db.mints[h].username.Some?) {
      CreditedFirst(db, h, derive);
      CreditBystander(db, db', db'.mints[h].noteId.value, db.mints[h].amount);
    } else {
      SameNotesBystander(db, db);
    }
  }

  lemma TransferBystander(p: Policy, db: Db, username: string, amount: int, id: NoteId, derive: Derive, now: int)
    requires Inv(db) && Owned(db, now) && (Free(db, id) ==> ClaimEnds(db, username, derive))
    ensures var db' := InternalTransfer(p, db, username, amount, id, derive).db;
            Inv(db') && Advances(db, db') && Bystander(db, db') && Owned(db', now)
  {
    hide Inv, Advances, Bystander, BurnKey, Swap;
    var r := InternalTransfer(p, db, username, amount, id, derive);
    if r.claim.Some? {
      TransferKeeps(db, [id], username, amount, derive);
      TransferSwaps(db, [id], username, amount, derive);
      var claim := ClaimIndex(db, username, derive).value;
      SwapBystander(claim.db, [id], [Output(claim.id, amount)], Some(username));
      BystanderSameNotes(db, claim.db, r.db);
      OwnersSame(db, r.db, now);
    } else {
      NothingUndone(db);
      SameNotesBystander(db, db);
    }
  }

  lemma TransferSwaps(db: Db, ids: seq<NoteId>, username: string, amount: int, derive: Derive)
    requires ClaimEnds(db, username, derive) && Transfer(db, ids, username, amount, derive).Ok?
    ensures ClaimIndex(db, username, derive).Ok?
    ensures var claim := ClaimIndex(db, username, derive).value;
            var db' := Transfer(db, ids, username, amount, derive).value.db;
            && claim.db.notes == db.notes && claim.db.melts == db.melts
            && Swap(claim.db, ids, [Output(claim.id, amount)], Some(username)) == Ok(db')
            && db'.users.Keys == db.users.Keys && db'.fees == db.fees
  {
    hide BurnKey;
  }

  lemma BystanderSameNotes(a: Db, b: Db, c: Db)
    requires a.notes == b.notes && a.melts == b.melts && Bystander(b, c)
    ensures Bystander(a, c)
  {
    forall id: NoteId ensures Pending(a, id) <==> Pending(b, id) {
    }
  }

  lemma OwnersSame(a: Db, b: Db, now: int)
    requires Owned(a, now) && b.users.Keys == a.users.Keys && b.fees == a.fees
    ensures Owned(b, now)
  {
  }

  lemma PayFeeBystander(db: Db, ids: seq<NoteId>, h: Hash, total: int, now: int)
    requires PayFeeWithNotes(db, ids, h, total, now).Ok?
    ensures Bystander(db, PayFeeWithNotes(db, ids, h, total, now).value.0)
  {
    hide SettleFee;
    SettleFeeShape(db, h, now);
    var db' := PayFeeWithNotes(db, ids, h, total, now).value.0;
    forall id: NoteId | Pending(db, id) || Pending(db', id)
      ensures id in db.notes && id in db'.notes && db.notes[id] == db'.notes[id]
    {
      FreeInputs(db, ids, id);
    }
  }

  // --- What reserving, burning and releasing change ------------------------

  /** What a reservation changes, note by note. */
  lemma MarkedNotes(db: Db, id: NoteId, h: Hash, pr: string)
    requires MarkPending(db, [id], h).Ok?
    ensures Free(db, id)
    ensures var db' := RecordMelt(MarkPending(db, [id], h).value, h, pr);
            && db'.notes == db.notes[id := db.notes[id].(pending := true, hash := Some(h))]
            && (forall i, g :: Reserved(db', i, g) <==> (i == id && g == h) || (i != id && Reserved(db, i, g)))
            && (forall i :: Spent(db'.notes, i) <==> Spent(db.notes, i))
            && (forall i, amount :: Holds(db'.notes, i, amount) <==> Holds(db.notes, i, amount))
            && (h !in db.melts ==> db'.melts == db.melts[h := Melt(pr, false)])
  {
    FreeInputs(db, [id], id);
    assert id in [id];
    var db' := RecordMelt(MarkPending(db, [id], h).value, h, pr);
    assert db'.notes == db.notes[id := db.notes[id].(pending := true, hash := Some(h))];
  }

  lemma RestoredNotes(db: Db, ids: seq<NoteId>)
    ensures var db' := Restore(db, ids);
            && (forall id, h :: Reserved(db', id, h) <==> id !in ids && Reserved(db, id, h))
            && (forall id: string :: Spent(db'.notes, id) <==> Spent(db.notes, id))
            && (forall id, amount :: Holds(db'.notes, id, amount) <==> Holds(db.notes, id, amount))
  {
  }

  lemma FinalizedNotes(db: Db, ids: seq<NoteId>, h: Hash)
    ensures var db' := MarkMeltSettled(FinalizeMelt(db, ids), h);
            && (forall id, g :: Reserved(db', id, g) <==> id !in ids && Reserved(db, id, g))
            && (forall id: NoteId :: Spent(db'.notes, id) <==> id in db.notes && (id in ids || Spent(db.notes, id)))
            && (forall id, amount :: Holds(db'.notes, id, amount) <==> Holds(db.notes, id, amount))
            && db'.melts.Keys == db.melts.Keys
            && forall g | g in db'.melts :: db'.melts[g].settled <==> g == h || db.melts[g].settled
  {
  }

  // --- The steps of a melt -------------------------------------------------

  predicate MeltAccepted(w: World, id: NoteId, h: Hash, amount: int) {
    && id in w.db.notes && !w.db.notes[id].spent && amount == w.db.notes[id].amount
    && h !in w.db.fees && h !in w.db.mints && h !in w.db.melts && MarkPending(w.db, [id], h).Ok?
  }

  /** A melt that is not turned away either pays an address fee or reserves its
      note and schedules a payment. */
  lemma MeltShape(w: World, id: NoteId, h: Hash, amount: int, pr: string)
    ensures var w' := MeltStep(w, id, h, amount, pr);
            if MeltAccepted(w, id, h, amount) then
              w' == w.(db := RecordMelt(MarkPending(w.db, [id], h).value, h, pr),
                       inFlight := Registry.Started(w.inFlight, h),
                       tasks := w.tasks[w.nextTask := Task(id, h, Scheduled)],
                       nextTask := w.nextTask + 1,
                       pays := w.pays[h := Unsent],
                       melted := w.melted[h := Reservation(id, amount)])
            else
              w' == w || (var r := PayFeeWithNotes(w.db, [id], h, amount, w.now);
                          r.Ok? && w' == Transacted(w, r.value.0) && amount == w.db.notes[id].amount)
  {
    hide MarkPending, PayFeeWithNotes, Transacted, RecordMelt;
  }

  lemma MeltAdvances(w: World, id: NoteId, h: Hash, pr: string)
    requires Inv(w.db) && Owned(w.db, w.now) && MarkPending(w.db, [id], h).Ok?
    ensures var db' := RecordMelt(MarkPending(w.db, [id], h).value, h, pr);
            Inv(db') && Owned(db', w.now) && Advances(w.db, db')
  {
    hide Inv, Advances;
    var db1 := MarkPending(w.db, [id], h).value;
    MarkPendingKeeps(w.db, [id], h);
    MeltRowsKeep(db1, h, pr);
    AdvancesTransitive(w.db, db1, RecordMelt(db1, h, pr));
  }

  lemma MeltConsistent(w: World, id: NoteId, h: Hash, amount: int, pr: string)
    requires Consistent(w) && MeltAccepted(w, id, h, amount)
    ensures Consistent(MeltStep(w, id, h, amount, pr))
  {
    hide Inv, Owned, Advances, HistoryOk, TasksOk, ReconOk, MarkPending, RecordMelt, MeltStep;
    MeltShape(w, id, h, amount, pr);
    MeltAdvances(w, id, h, pr);
    MeltHistory(w, id, h, amount, pr);
    MeltTasks(w, id, h, amount, pr);
  }

  lemma MeltHistory(w: World, id: NoteId, h: Hash, amount: int, pr: string)
    requires HistoryOk(w) && MeltAccepted(w, id, h, amount)
    ensures HistoryOk(MeltStep(w, id, h, amount, pr))
  {
    MarkedNotes(w.db, id, h, pr);
    MeltShape(w, id, h, amount, pr);
    assert Holds(w.db.notes, id, amount);
    hide HistoryOk, Reserved, Spent, Holds, MeltStep, MarkPending, RecordMelt;
    var w' := MeltStep(w, id, h, amount, pr);
    NewMeltHistory(w, w', id, h, amount, pr);
  }

  lemma NewMeltHistory(w: World, w': World, id: NoteId, h: Hash, amount: int, pr: string)
    requires HistoryOk(w) && h !in w.db.melts && Holds(w.db.notes, id, amount)
    requires w'.melted == w.melted[h := Reservation(id, amount)] && w'.pays == w.pays[h := Unsent]
    requires w'.db.melts == w.db.melts[h := Melt(pr, false)]
    requires w'.givenUp == w.givenUp && w'.exchanged == w.exchanged
    requires forall i, g :: Reserved(w'.db, i, g) <==> (i == id && g == h) || (i != id && Reserved(w.db, i, g))
    requires forall i :: Spent(w'.db.notes, i) <==> Spent(w.db.notes, i)
    requires forall i, a :: Holds(w'.db.notes, i, a) <==> Holds(w.db.notes, i, a)
    ensures HistoryOk(w')
  {
    hide Reserved, Spent, Holds;
    forall g | g in w'.melted ensures Holds(w'.db.notes, w'.melted[g].id, w'.melted[g].amount) {
      assert g != h ==> Holds(w.db.notes, w.melted[g].id, w.melted[g].amount);
    }
    forall i, g | Reserved(w'.db, i, g) ensures MeltOf(w'.melted, g, i) && g !in w'.givenUp {
      assert g != h ==> Reserved(w.db, i, g);
    }
  }

  lemma MeltTasks(w: World, id: NoteId, h: Hash, amount: int, pr: string)
    requires HistoryOk(w) && TasksOk(w) && ReconOk(w) && MeltAccepted(w, id, h, amount)
    ensures TasksOk(MeltStep(w, id, h, amount, pr)) && ReconOk(MeltStep(w, id, h, amount, pr))
  {
    MeltShape(w, id, h, amount, pr);
    assert h !in w.melted;
    hide MeltStep, MarkPending, HistoryOk, TasksOk, ReconOk, RecordMelt, Registry.Started;
    NewTask(w, MeltStep(w, id, h, amount, pr), Task(id, h, Scheduled), amount);
  }

  lemma NewTask(w: World, w': World, task: Task, amount: int)
    requires TasksOk(w) && ReconOk(w) && task.h !in w.melted
    requires w'.melted == w.melted[task.h := Reservation(task.id, amount)] && w'.recon == w.recon
    requires w'.tasks == w.tasks[w.nextTask := task] && w'.nextTask == w.nextTask + 1
    requires w'.inFlight == Registry.Started(w.inFlight, task.h)
    ensures TasksOk(w') && ReconOk(w')
  {
    hide AttemptsOk, Registry.Started, ReconOk;
    forall t | t in w.tasks ensures w.tasks[t].h != task.h && MeltOf(w'.melted, w.tasks[t].h, w.tasks[t].id) {
      assert MeltOf(w.melted, w.tasks[t].h, w.tasks[t].id);
    }
    AttemptStarts(w.tasks, w.nextTask, w.inFlight, task);
    MeltRecon(w, w', task);
  }

  lemma MeltRecon(w: World, w': World, task: Task)
    requires AttemptsOk(w.tasks, w.nextTask, w.inFlight) && ReconOk(w) && task.h !in w.melted
    requires w'.tasks == w.tasks[w.nextTask := task] && w'.recon == w.recon
    requires forall h | h in w.melted :: h in w'.melted && w'.melted[h] == w.melted[h]
    ensures ReconOk(w')
  {
    hide Registry.Agrees;
    forall t | t in w.tasks ensures t in w'.tasks && w'.tasks[t] == w.tasks[t] {
    }
    forall e | EntryOk(w, e) ensures EntryOk(w', e) && (!TaskOn(w, e.h) ==> !TaskOn(w', e.h)) {
      assert MeltOf(w.melted, e.h, e.ids[0]);
      forall id | id in e.ids ensures MeltOf(w'.melted, e.h, id) {
        assert MeltOf(w.melted, e.h, id);
      }
    }
  }

  // --- Attempts ------------------------------------------------------------

  lemma AttemptStarts(tasks: map<nat, Task>, nextTask: nat, inFlight: Registry.Counts, task: Task)
    requires AttemptsOk(tasks, nextTask, inFlight)
    requires forall t | t in tasks :: tasks[t].h != task.h
    ensures AttemptsOk(tasks[nextTask := task], nextTask + 1, Registry.Started(inFlight, task.h))
  {
    hide Registry.Agrees, Registry.Started;
    assert Attempts(tasks[nextTask := task]) == Attempts(tasks)[nextTask := task.h];
    Registry.StartAgrees(inFlight, Attempts(tasks), nextTask, task.h);
  }

  lemma AttemptMoves(tasks: map<nat, Task>, nextTask: nat, inFlight: Registry.Counts, t: nat, phase: Phase)
    requires AttemptsOk(tasks, nextTask, inFlight) && t in tasks
    ensures AttemptsOk(tasks[t := tasks[t].(phase := phase)], nextTask, inFlight)
  {
    hide Registry.Agrees;
    assert Attempts(tasks[t := tasks[t].(phase := phase)]) == Attempts(tasks);
  }

  lemma AttemptEnds(tasks: map<nat, Task>, nextTask: nat, inFlight: Registry.Counts, t: nat)
    requires AttemptsOk(tasks, nextTask, inFlight) && t in tasks
    ensures AttemptsOk(tasks - {t}, nextTask, Registry.Ended(inFlight, tasks[t].h))
  {
    hide Registry.Agrees, Registry.Ended;
    assert Attempts(tasks - {t}) == Attempts(tasks) - {t};
    Registry.EndAgrees(inFlight, Attempts(tasks), t);
  }

  lemma MovedConsistent(w: World, t: nat, phase: Phase)
    requires Consistent(w) && t in w.tasks
    ensures Consistent(Moved(w, t, phase))
  {
    hide Inv, Owned, AttemptsOk;
    var w' := Moved(w, t, phase);
    AttemptMoves(w.tasks, w.nextTask, w.inFlight, t, phase);
    forall h ensures TaskOn(w', h) ==> TaskOn(w, h) {
    }
    FewerTasks(w, w');
  }

  lemma EndedConsistent(w: World, t: nat)
    requires Consistent(w) && t in w.tasks
    ensures Consistent(Ended(w, t))
  {
    hide Inv, Owned, AttemptsOk;
    AttemptEnds(w.tasks, w.nextTask, w.inFlight, t);
    forall h ensures TaskOn(Ended(w, t), h) ==> TaskOn(w, h) {
    }
    FewerTasks(w, Ended(w, t));
  }

  lemma FewerTasks(w: World, w': World)
    requires ReconOk(w) && w'.recon == w.recon && w'.melted == w.melted
    requires forall h :: TaskOn(w', h) ==> TaskOn(w, h)
    ensures ReconOk(w')
  {
    hide TaskOn;
    forall e | EntryOk(w, e) ensures EntryOk(w', e) {
    }
  }

  lemma RestartConsistent(w: World)
    requires Consistent(w)
    ensures Consistent(w.(tasks := map[], inFlight := map[], recon := []))
  {
    hide Inv, Owned;
    forall h ensures Registry.On(Attempts(map[]), h) == {} {
    }
  }

  // --- Outcomes ------------------------------------------------------------

  /** A melt's note may be burned once its payment has landed. */
  lemma FinalizedConsistent(w: World, ids: seq<NoteId>, h: Hash)
    requires Consistent(w) && h in w.pays && w.pays[h].Landed?
    requires |ids| >= 1 && forall id | id in ids :: MeltOf(w.melted, h, id)
    ensures Consistent(Finalized(w, ids, h)) && Advances(w.db, Finalized(w, ids, h).db)
  {
    hide Inv, Owned, AttemptsOk, EntryOk, Advances, HistoryOk;
    FinalizedHistory(w, ids, h);
    FinalizedLedger(w, ids, h);
    SameTasks(w, Finalized(w, ids, h));
  }

  lemma FinalizedLedger(w: World, ids: seq<NoteId>, h: Hash)
    requires Inv(w.db) && Owned(w.db, w.now)
    ensures var db' := Finalized(w, ids, h).db; Inv(db') && Owned(db', w.now) && Advances(w.db, db')
  {
    hide Inv, Advances;
    var db1 := FinalizeMelt(w.db, ids);
    FinalizeKeeps(w.db, ids);
    MeltRowsKeep(db1, h, "");
    AdvancesTransitive(w.db, db1, MarkMeltSettled(db1, h));
  }

  lemma FinalizedHistory(w: World, ids: seq<NoteId>, h: Hash)
    requires HistoryOk(w) && h in w.pays && w.pays[h].Landed?
    requires |ids| >= 1 && forall id | id in ids :: MeltOf(w.melted, h, id)
    ensures HistoryOk(Finalized(w, ids, h))
  {
    FinalizedNotes(w.db, ids, h);
    hide Reserved, MarkMeltSettled, FinalizeMelt;
    var w' := Finalized(w, ids, h);
    assert MeltOf(w.melted, h, ids[0]);
    assert Holds(w.db.notes, ids[0], w.melted[h].amount);
    forall g | g in w.melted ensures Holds(w'.db.notes, w.melted[g].id, w.melted[g].amount) {
      assert Holds(w.db.notes, w.melted[g].id, w.melted[g].amount);
    }
    hide Holds;
    assert Spent(w'.db.notes, w.melted[h].id);
  }

  lemma GivenUpConsistent(w: World, ids: seq<NoteId>, h: Hash)
    requires Consistent(w) && MayAnswer(w, h, Some(false)) && !CallLive(w, h)
    requires |ids| >= 1 && forall id | id in ids :: MeltOf(w.melted, h, id)
    ensures Consistent(GivenUp(w, ids, h)) && Advances(w.db, GivenUp(w, ids, h).db)
  {
    hide Inv, Owned, AttemptsOk, EntryOk, Advances, HistoryOk, CallLive;
    GivenUpHistory(w, ids, h);
    RestoreKeeps(w.db, ids);
    RestoredOwners(w.db, ids, w.now);
    SameTasks(w, GivenUp(w, ids, h));
  }

  lemma RestoredOwners(db: Db, ids: seq<NoteId>, now: int)
    requires Owned(db, now)
    ensures Owned(Restore(db, ids), now)
  {
  }

  lemma GivenUpHistory(w: World, ids: seq<NoteId>, h: Hash)
    requires HistoryOk(w) && MayAnswer(w, h, Some(false)) && !CallLive(w, h)
    requires |ids| >= 1 && forall id | id in ids :: MeltOf(w.melted, h, id)
    ensures HistoryOk(GivenUp(w, ids, h))
  {
    RestoredNotes(w.db, ids);
    assert Restore(w.db, ids).melts == w.db.melts;
    assert MeltOf(w.melted, h, ids[0]);
    hide Reserved, Restore, Spent, Holds, CallLive;
    var w' := GivenUp(w, ids, h);
    forall id, g | Reserved(w'.db, id, g) ensures MeltOf(w'.melted, g, id) && g !in w'.givenUp {
      assert Reserved(w.db, id, g);
    }
  }

  // --- The reconciler ------------------------------------------------------

  lemma SnapshotConsistent(w: World, order: seq<Entry>)
    requires Consistent(w) && IsSnapshot(w, order)
    ensures Consistent(w.(recon := Skipped(w.inFlight, order)))
  {
    hide Inv, Owned, AttemptsOk, TaskOn, Skipped;
    forall i | 0 <= i < |order| ensures EntryOk(w, order[i]) {
      forall id | id in order[i].ids ensures MeltOf(w.melted, order[i].h, id) {
        assert Reserved(w.db, id, order[i].h);
      }
    }
    hide Reserved, Spent, Holds;
    SkippedOk(w, order);
  }

  /** The groups left over are as good as the groups there were, and no attempt is
      live on the first. */
  lemma SkippedOk(w: World, todo: seq<Entry>)
    requires AttemptsOk(w.tasks, w.nextTask, w.inFlight)
    requires DistinctPayments(todo) && forall i | 0 <= i < |todo| :: EntryOk(w, todo[i])
    ensures ReconOk(w.(recon := Skipped(w.inFlight, todo)))
  {
    hide AttemptsOk, TaskOn, EntryOk, Passed, DistinctPayments;
    var k, rest := Passed(w.inFlight, todo), Skipped(w.inFlight, todo);
    DistinctSuffix(todo, k);
    if rest != [] {
      UncountedIdle(w, rest[0].h);
    }
    SameEntries(w, w.(recon := rest));
  }

  lemma DistinctSuffix(groups: seq<Entry>, k: nat)
    requires DistinctPayments(groups) && k <= |groups|
    ensures DistinctPayments(groups[k..])
  {
  }

  lemma SameEntries(w: World, w': World)
    requires w'.tasks == w.tasks && w'.melted == w.melted
    ensures forall h :: TaskOn(w', h) <==> TaskOn(w, h)
    ensures forall e :: EntryOk(w', e) <==> EntryOk(w, e)
  {
    forall h ensures TaskOn(w', h) <==> TaskOn(w, h) {
    }
    hide TaskOn;
  }

  lemma UncountedIdle(w: World, h: Hash)
    requires AttemptsOk(w.tasks, w.nextTask, w.inFlight)
    ensures h in w.inFlight <==> TaskOn(w, h)
  {
    assert Registry.AgreesAt(w.inFlight, Attempts(w.tasks), h);
    if TaskOn(w, h) {
      var t :| t in w.tasks && w.tasks[t].h == h;
      assert t in Registry.On(Attempts(w.tasks), h);
    } else {
      assert Registry.On(Attempts(w.tasks), h) == {};
    }
  }

  lemma PastConsistent(w: World)
    requires Consistent(w) && w.recon != []
    ensures Consistent(Past(w))
  {
    hide Inv, Owned, AttemptsOk, TaskOn, Skipped, EntryOk, Reserved, Spent, Holds;
    DistinctSuffix(w.recon, 1);
    SkippedOk(w, w.recon[1..]);
  }

  // --- The world outside ---------------------------------------------------

  lemma SourceConsistent(w: World, h: Hash, status: Pay)
    requires Consistent(w) && h in w.pays && SourceMay(w.pays[h], status)
    ensures Consistent(w.(pays := w.pays[h := status]))
  {
    hide Inv, Owned, AttemptsOk, EntryOk, Reserved, Spent, Holds;
    SameTasks(w, w.(pays := w.pays[h := status]));
  }

  lemma TickConsistent(w: World, later: int)
    requires Consistent(w) && w.now <= later
    ensures Consistent(w.(now := later))
  {
    hide Inv, Owned, AttemptsOk, EntryOk, Reserved, Spent, Holds;
    LaterKeepsOwners(w.db, w.now, later);
    SameTasks(w, w.(now := later));
  }

  lemma PayerConsistent(w: World, paidIn: set<Hash>, gross: map<Hash, int>)
    requires Consistent(w)
    ensures Consistent(w.(paidIn := paidIn, gross := gross))
  {
    hide Inv, Owned, AttemptsOk, EntryOk, Reserved, Spent, Holds;
    SameTasks(w, w.(paidIn := paidIn, gross := gross));
  }

  // --- Every step ----------------------------------------------------------

  /** Events that only change usernames and address fees. */
  predicate NameEvent(e: Event) {
    e.RegisterName? || e.HoldName? || e.SettleName? || e.UpdateName? || e.DeleteName?
  }

  function NameDb(w: World, e: Event): Result<Db, Error>
    requires NameEvent(e)
  {
    match e
    case RegisterName(username, cx1) => Register(w.db, username, cx1, ShareKey(cx1), w.now)
    case HoldName(h, pr, username, cx1, amount, expires) =>
      Hold(w.db, h, pr, username, cx1, ShareKey(cx1), amount, expires, w.now)
    case SettleName(h) => Ok(SettleFee(w.db, h, w.now).db)
    case UpdateName(username, cx1) => Update(w.db, username, cx1, ShareKey(cx1))
    case DeleteName(username) => Ok(Delete(w.db, username))
  }

  lemma NameKeeps(w: World, e: Event)
    requires NameEvent(e) && Inv(w.db) && Owned(w.db, w.now) && NameDb(w, e).Ok?
    ensures var db := NameDb(w, e).value;
            && Inv(db) && Owned(db, w.now) && Advances(w.db, db)
            && db.notes == w.db.notes && db.melts == w.db.melts && db.mints == w.db.mints
  {
    hide Inv, Owned, Advances, ShareKey, Taken;
    match e
    case RegisterName(username, cx1) => RegisterKeeps(w.db, username, cx1, ShareKey(cx1), w.now);
    case HoldName(h, pr, username, cx1, amount, expires) =>
      HoldKeeps(w.db, h, pr, username, cx1, ShareKey(cx1), amount, expires, w.now);
    case SettleName(h) => SettleFeeShape(w.db, h, w.now); SettleFeeKeeps(w.db, h, w.now);
    case UpdateName(username, cx1) => UpdateKeeps(w.db, username, cx1, ShareKey(cx1), w.now);
    case DeleteName(username) => DeleteKeeps(w.db, username, w.now);
  }

  /** Events that issue, credit or exchange notes without reserving any. */
  predicate NoteEvent(e: Event) {
    e.RequestInvoice? || e.Settle? || e.Exchange? || e.TransferTo?
  }

  lemma NoteStepDb(p: Policy, derive: Derive, w: World, e: Event)
    requires NoteEvent(e) && Inv(w.db) && Owned(w.db, w.now) && Enabled(p, derive, w, e)
    ensures var w' := Apply(p, derive, w, e);
            && Inv(w'.db) && Owned(w'.db, w.now) && Advances(w.db, w'.db) && Bystander(w.db, w'.db)
            && w' == Transacted(w, w'.db).(gross := w'.gross)
  {
    hide Inv, Owned, Advances, Bystander, Mutate, InternalTransfer, SettleMint, CreateMint, NewlySpent;
    hide Fees.PayCallbackNet;
    var w' := Apply(p, derive, w, e);
    if w' == w {
      SameDb(w);
    } else {
      match e
      case RequestInvoice(h, amount, noteId, share) =>
        var net := Fees.PayCallbackNet(p.fees, amount).value;
        CreateMintKeeps(w.db, h, net, noteId, share);
        CreateMintShape(w.db, h, net, noteId, share);
        SameNotesBystander(w.db, w'.db);
        OwnersSame(w.db, w'.db, w.now);
      case Settle(h) => SettleBystander(w.db, h, derive, w.now);
      case Exchange(req, seenSpent) =>
        MutateBystander(p, w.db, req, seenSpent);
        OwnersSame(w.db, w'.db, w.now);
      case TransferTo(username, amount, id) => TransferBystander(p, w.db, username, amount, id, derive, w.now);
    }
  }

  lemma SameDb(w: World)
    ensures Advances(w.db, w.db) && Bystander(w.db, w.db) && w == Transacted(w, w.db)
  {
    NothingUndone(w.db);
    assert NewlySpent(w.db, w.db) == {};
  }

  lemma NoneSpent(a: Db, b: Db)
    requires b.notes == a.notes
    ensures NewlySpent(a, b) == {}
  {
  }

  lemma CreateMintShape(db: Db, h: Hash, amount: int, noteId: Option<NoteId>, username: Option<string>)
    requires CreateMint(db, h, amount, noteId, username).Ok?
    ensures var db' := CreateMint(db, h, amount, noteId, username).value;
            h !in db.mints && db' == db.(mints := db.mints[h := Mint(amount, false, noteId, username)])
  {
  }

  lemma TransactedKeeps(w: World, w': World)
    requires Consistent(w) && Inv(w'.db) && Owned(w'.db, w.now) && Advances(w.db, w'.db) && Bystander(w.db, w'.db)
    requires w' == Transacted(w, w'.db).(gross := w'.gross)
    ensures Consistent(w')
  {
    hide Consistent, Inv, Owned, Advances, Bystander, NewlySpent;
    BystanderConsistent(w, w'.db);
    PayerConsistent(Transacted(w, w'.db), w.paidIn, w'.gross);
  }

  lemma MeltKeeps(w: World, id: NoteId, h: Hash, amount: int, pr: string)
    requires Consistent(w)
    ensures var w' := MeltStep(w, id, h, amount, pr); Consistent(w') && Advances(w.db, w'.db)
  {
    hide Inv, Owned, Advances, HistoryOk, TasksOk, ReconOk, MeltStep;
    hide PayFeeWithNotes, NewlySpent, Bystander, MarkPending, RecordMelt;
    var w' := MeltStep(w, id, h, amount, pr);
    MeltShape(w, id, h, amount, pr);
    if MeltAccepted(w, id, h, amount) {
      MeltAdvances(w, id, h, pr);
      MeltConsistent(w, id, h, amount, pr);
    } else if w' == w {
      SameDb(w);
    } else {
      PayFeeKeeps(w.db, [id], h, amount, w.now);
      PayFeeBystander(w.db, [id], h, amount, w.now);
      TransactedKeeps(w, w');
    }
  }

  predicate TaskEvent(e: Event) {
    e.Begin? || e.PaySucceeds? || e.PayRaises? || e.Confirm?
  }

  lemma TaskKeeps(p: Policy, derive: Derive, w: World, e: Event)
    requires TaskEvent(e) && Consistent(w) && Enabled(p, derive, w, e)
    ensures var w' := Apply(p, derive, w, e); Consistent(w') && Advances(w.db, w'.db)
  {
    hide Consistent, Advances, MayAnswer, Finalized, GivenUp, Ended, Moved;
    var task := w.tasks[e.t];
    SameDb(w);
    match e
    case Begin(t) =>
      MovedConsistent(w, t, Calling);
      TaskOnly(w, t, Calling);
    case PayRaises(t) =>
      MovedConsistent(w, t, Confirming(CONFIRMATION_TRIES));
      TaskOnly(w, t, Confirming(CONFIRMATION_TRIES));
    case PaySucceeds(t) => PaidKeeps(w, t);
    case Confirm(t, answer) =>
      match answer
      case Some(true) =>
        AnsweredTrue(w, task.h);
        PaidKeeps(w, t);
      case Some(false) =>
        OneAttempt(w, t);
        UnpaidKeeps(w, t);
      case None =>
        if task.phase.left == 1 {
          EndedConsistent(w, t);
          TaskOnly(w, t, Calling);
        } else {
          MovedConsistent(w, t, Confirming(task.phase.left - 1));
          TaskOnly(w, t, Confirming(task.phase.left - 1));
        }
  }

  /** Once an attempt asks for the outcome, no call for its payment is live. */
  lemma OneAttempt(w: World, t: nat)
    requires Consistent(w) && t in w.tasks && w.tasks[t].phase.Confirming?
    ensures !CallLive(w, w.tasks[t].h)
  {
    hide Inv, Owned, HistoryOk, ReconOk, Registry.Agrees;
  }

  lemma AnsweredTrue(w: World, h: Hash)
    requires MayAnswer(w, h, Some(true))
    ensures h in w.pays && w.pays[h].Landed?
  {
  }

  lemma PaidKeeps(w: World, t: nat)
    requires Consistent(w) && t in w.tasks && w.tasks[t].h in w.pays && w.pays[w.tasks[t].h].Landed?
    ensures var paid := Finalized(w, [w.tasks[t].id], w.tasks[t].h);
            paid.tasks == w.tasks && Consistent(Ended(paid, t)) && Advances(w.db, Ended(paid, t).db)
  {
    var task := w.tasks[t];
    assert MeltOf(w.melted, task.h, task.id);
    hide Inv, Owned, HistoryOk, TasksOk, ReconOk, Advances, MarkMeltSettled, FinalizeMelt;
    FinalizedConsistent(w, [task.id], task.h);
    hide Finalized;
    EndedConsistent(Finalized(w, [task.id], task.h), t);
  }

  lemma UnpaidKeeps(w: World, t: nat)
    requires Consistent(w) && t in w.tasks && MayAnswer(w, w.tasks[t].h, Some(false)) && !CallLive(w, w.tasks[t].h)
    ensures var lost := GivenUp(w, [w.tasks[t].id], w.tasks[t].h);
            lost.tasks == w.tasks && Consistent(Ended(lost, t)) && Advances(w.db, Ended(lost, t).db)
  {
    var task := w.tasks[t];
    assert MeltOf(w.melted, task.h, task.id);
    hide Consistent, Advances, GivenUp, MayAnswer, Ended;
    GivenUpConsistent(w, [task.id], task.h);
    GivenUpTasks(w, [task.id], task.h);
    EndedConsistent(GivenUp(w, [task.id], task.h), t);
    TaskOnly(GivenUp(w, [task.id], task.h), t, Calling);
  }

  lemma GivenUpTasks(w: World, ids: seq<NoteId>, h: Hash)
    ensures GivenUp(w, ids, h).tasks == w.tasks
  {
    hide Restore, CallLive;
  }

  lemma TaskOnly(w: World, t: nat, phase: Phase)
    requires t in w.tasks
    ensures Moved(w, t, phase).db == w.db && Ended(w, t).db == w.db
  {
  }

  predicate ReconEvent(e: Event) {
    e.Snapshot? || e.Resolve?
  }

  lemma ReconKeeps(p: Policy, derive: Derive, w: World, e: Event)
    requires ReconEvent(e) && Consistent(w) && Enabled(p, derive, w, e)
    ensures var w' := Apply(p, derive, w, e); Consistent(w') && Advances(w.db, w'.db)
  {
    hide Consistent, Advances, IsSnapshot, MayAnswer, Skipped, ResolveStep;
    SameDb(w);
    match e
    case Snapshot(order) => SnapshotConsistent(w, order);
    case Resolve(answer) => ResolveKeeps(w, answer);
  }

  lemma ResolveKeeps(w: World, answer: Option<bool>)
    requires Consistent(w) && w.recon != [] && MayAnswer(w, w.recon[0].h, answer)
    ensures var w' := ResolveStep(w, answer); Consistent(w') && Advances(w.db, w'.db)
  {
    var e := w.recon[0];
    assert EntryOk(w, e) && !CallLive(Past(w), e.h);
    hide CallLive, Inv, Owned, HistoryOk, TasksOk, ReconOk, Advances, Finalized, GivenUp, Skipped;
    SameDb(w);
    PastConsistent(w);
    match answer
    case None =>
    case Some(true) => FinalizedConsistent(Past(w), e.ids, e.h);
    case Some(false) => GivenUpConsistent(Past(w), e.ids, e.h);
  }

  /** The tables keep their invariant, undo nothing, and agree with the payments,
      the live attempts and the registry, in every step whatsoever. */
  lemma StepConsistent(p: Policy, derive: Derive, w: World, e: Event)
    requires Consistent(w) && Enabled(p, derive, w, e)
    ensures var w' := Apply(p, derive, w, e); Consistent(w') && Advances(w.db, w'.db)
  {
    hide Consistent, Advances, Apply, Enabled;
    if NameEvent(e) {
      NameStepKeeps(p, derive, w, e);
    } else if NoteEvent(e) {
      NoteStepKeeps(p, derive, w, e);
    } else if TaskEvent(e) {
      TaskKeeps(p, derive, w, e);
    } else if ReconEvent(e) {
      ReconKeeps(p, derive, w, e);
    } else {
      OtherKeeps(p, derive, w, e);
    }
  }

  lemma NameStepKeeps(p: Policy, derive: Derive, w: World, e: Event)
    requires NameEvent(e) && Consistent(w) && Enabled(p, derive, w, e)
    ensures var w' := Apply(p, derive, w, e); Consistent(w') && Advances(w.db, w'.db)
  {
    NameShape(p, derive, w, e);
    hide Inv, Owned, HistoryOk, TasksOk, ReconOk, Advances, Apply, Enabled, NameDb, Bystander, NewlySpent;
    SameDb(w);
    if NameDb(w, e).Ok? {
      NameKeeps(w, e);
      SameNotesBystander(w.db, NameDb(w, e).value);
      TransactedKeeps(w, Apply(p, derive, w, e));
    }
  }

  lemma NameShape(p: Policy, derive: Derive, w: World, e: Event)
    requires NameEvent(e) && Enabled(p, derive, w, e)
    ensures Apply(p, derive, w, e) == if NameDb(w, e).Ok? then Transacted(w, NameDb(w, e).value) else w
  {
    hide Register, Hold, SettleFee, Update, Delete, NewlySpent, ShareKey;
  }

  lemma NoteStepKeeps(p: Policy, derive: Derive, w: World, e: Event)
    requires NoteEvent(e) && Consistent(w) && Enabled(p, derive, w, e)
    ensures var w' := Apply(p, derive, w, e); Consistent(w') && Advances(w.db, w'.db)
  {
    hide Inv, Owned, HistoryOk, TasksOk, ReconOk, Advances, Apply, Enabled, Bystander, Transacted;
    NoteStepDb(p, derive, w, e);
    TransactedKeeps(w, Apply(p, derive, w, e));
  }

  lemma OtherKeeps(p: Policy, derive: Derive, w: World, e: Event)
    requires e.MeltInto? || e.Payer? || e.Source? || e.Tick? || e.Restart?
    requires Consistent(w) && Enabled(p, derive, w, e)
    ensures var w' := Apply(p, derive, w, e); Consistent(w') && Advances(w.db, w'.db)
  {
    hide Consistent, Advances, MeltStep;
    SameDb(w);
    match e
    case MeltInto(id, h, amount, pr) => MeltKeeps(w, id, h, amount, pr);
    case Payer(h) => PayerConsistent(w, w.paidIn + {h}, w.gross);
    case Source(h, status) => SourceConsistent(w, h, status);
    case Tick(later) => TickConsistent(w, later);
    case Restart => RestartConsistent(w);
  }
}
