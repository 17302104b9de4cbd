/** Whole runs of the mint, from the empty tables on: the theorems. */
module Runs {
  import opened Wrappers
  import opened BurnKeys
  import opened Ledger
  import opened LedgerInvariant
  import opened Redeem
  import opened Protocol
  import opened ProtocolInvariant
  import opened ProtocolSafety
  import Registry

  /** The events `es`, each possible when it happens, lead from `w` to `w'`. */
  ghost predicate Run(p: Policy, derive: Derive, w: World, es: seq<Event>, w': World)
    decreases |es|
  {
    if es == [] then w' == w
    else Enabled(p, derive, w, es[0]) && Run(p, derive, Apply(p, derive, w, es[0]), es[1..], w')
  }

  /** As Run, and the reconciler never restores a note that has been reserved anew
      since its snapshot. */
  ghost predicate FencedRun(p: Policy, derive: Derive, w: World, es: seq<Event>, w': World)
    decreases |es|
  {
    if es == [] then w' == w
    else Enabled(p, derive, w, es[0]) && Fenced(w, es[0])
         && FencedRun(p, derive, Apply(p, derive, w, es[0]), es[1..], w')
  }

  lemma StartOk()
    ensures Consistent(START) && Safe(START)
  {
    EmptyInv(0);
    forall h ensures Registry.On(Attempts(map[]), h) == {} {
    }
  }

  lemma {:induction false} RunConsistent(p: Policy, derive: Derive, w: World, es: seq<Event>, w': World)
    requires Consistent(w) && Run(p, derive, w, es, w')
    ensures Consistent(w') && Advances(w.db, w'.db)
    decreases |es|
  {
    hide Consistent, Advances, Enabled, Apply;
    if es == [] {
      NothingUndone(w.db);
    } else {
      var next := Apply(p, derive, w, es[0]);
      StepConsistent(p, derive, w, es[0]);
      RunConsistent(p, derive, next, es[1..], w');
      AdvancesTransitive(w.db, next.db, w'.db);
    }
  }

  lemma {:induction false} RunSafe(p: Policy, derive: Derive, w: World, es: seq<Event>, w': World)
    requires Consistent(w) && Safe(w) && FencedRun(p, derive, w, es, w')
    ensures Consistent(w') && Safe(w')
    decreases |es|
  {
    hide Consistent, Safe, Fenced, Advances, Enabled, Apply;
    if es != [] {
      StepConsistent(p, derive, w, es[0]);
      StepSafe(p, derive, w, es[0]);
      RunSafe(p, derive, Apply(p, derive, w, es[0]), es[1..], w');
    }
  }

  // --- Melts are safe ------------------------------------------------------

  /** A payment that has landed or can still land. */
  predicate CanLand(w: World, h: Hash) {
    h in w.pays && !w.pays[h].Dead?
  }

  /** In every state a fenced run reaches, a note whose payment has landed or can
      still land is reserved for it, or spent because it landed; no two such
      payments share a note; and none was exchanged for other notes. */
  lemma MeltSafety(p: Policy, derive: Derive, es: seq<Event>, w: World)
    requires FencedRun(p, derive, START, es, w)
    ensures forall h | CanLand(w, h) ::
              && h in w.melted
              && var id := w.melted[h].id;
                 && (Reserved(w.db, id, h) || (w.pays[h].Landed? && Spent(w.db.notes, id)))
                 && id !in w.exchanged
                 && forall g | CanLand(w, g) && g in w.melted && w.melted[g].id == id :: g == h
  {
    StartOk();
    RunSafe(p, derive, START, es, w);
    forall h | CanLand(w, h) ensures Owing(w, h) && Covered(w, h) {
    }
  }

  // --- The fence is exactly what runs need ---------------------------------

  /** Every melt is covered in every state the events lead through. */
  ghost predicate SafeThroughout(p: Policy, derive: Derive, w: World, es: seq<Event>)
    decreases |es|
  {
    && MeltsSafe(w)
    && (es != [] ==> Enabled(p, derive, w, es[0]) && SafeThroughout(p, derive, Apply(p, derive, w, es[0]), es[1..]))
  }

  /** A run keeps every melt covered throughout if and only if the fence is kept
      throughout. */
  lemma {:induction false} FencedRunExact(p: Policy, derive: Derive, w: World, es: seq<Event>, w': World)
    requires Consistent(w) && Safe(w) && Run(p, derive, w, es, w')
    ensures SafeThroughout(p, derive, w, es) <==> FencedRun(p, derive, w, es, w')
    decreases |es|
  {
    SafeCovers(w);
    hide Consistent, Safe, MeltsSafe, Fenced, Advances, Enabled, Apply;
    if es != [] {
      var next := Apply(p, derive, w, es[0]);
      StepConsistent(p, derive, w, es[0]);
      if Fenced(w, es[0]) {
        StepSafe(p, derive, w, es[0]);
        FencedRunExact(p, derive, next, es[1..], w');
      } else {
        UnfencedStep(p, derive, w, es[0]);
      }
    }
  }

  lemma SafeCovers(w: World)
    requires Safe(w)
    ensures MeltsSafe(w)
  {
  }

  /** A step without its fence leaves some melt uncovered at once. */
  lemma UnfencedStep(p: Policy, derive: Derive, w: World, e: Event)
    requires Consistent(w) && Safe(w) && Enabled(p, derive, w, e) && !Fenced(w, e)
    ensures !MeltsSafe(Apply(p, derive, w, e))
  {
    assert e == Resolve(Some(false)) && w.recon != [] && ReservedElsewhere(w.db, w.recon[0]);
    assert MayAnswer(w, w.recon[0].h, Some(false));
    hide Consistent, Safe, MeltsSafe, MayAnswer, ReservedElsewhere, ResolveStep;
    ResolveIs(p, derive, w, Some(false));
    FenceExact(w);
  }

  // --- Runs that need no fence ---------------------------------------------

  /** No group that was idle at the snapshot comes before one that was not. */
  predicate Tame(order: seq<Entry>) {
    forall i, j | 0 <= i < j < |order| && order[i].quiet :: order[j].quiet
  }

  ghost predicate TameRun(p: Policy, derive: Derive, w: World, es: seq<Event>, w': World) {
    Run(p, derive, w, es, w') && forall i | 0 <= i < |es| :: es[i].Snapshot? ==> Tame(es[i].order)
  }

  predicate AllQuiet(w: World) {
    forall i | 0 <= i < |w.recon| :: w.recon[i].quiet
  }

  lemma TameSnapshot(w: World, order: seq<Entry>)
    requires AttemptsOk(w.tasks, w.nextTask, w.inFlight) && IsSnapshot(w, order) && Tame(order)
    ensures AllQuiet(w.(recon := Skipped(w.inFlight, order)))
  {
    hide AttemptsOk, TaskOn, Passed, Reserved, DistinctPayments;
    var k, rest := Passed(w.inFlight, order), Skipped(w.inFlight, order);
    if rest != [] {
      UncountedIdle(w, rest[0].h);
      assert order[k].quiet;
    }
  }

  lemma TameStep(p: Policy, derive: Derive, w: World, e: Event)
    requires Consistent(w) && AllQuiet(w) && Enabled(p, derive, w, e) && (e.Snapshot? ==> Tame(e.order))
    ensures AllQuiet(Apply(p, derive, w, e))
  {
    hide *;
    if e.Resolve? {
      ResolveIs(p, derive, w, e.answer);
      ResolvedQuiet(w, e.answer);
    } else if e.Snapshot? {
      SnapshotIs(p, derive, w, e.order);
      TameSnapshot(w, e.order);
    } else {
      OtherRecon(p, derive, w, e);
      StaysQuiet(w, Apply(p, derive, w, e));
    }
  }

  lemma ResolveIs(p: Policy, derive: Derive, w: World, answer: Option<bool>)
    requires Enabled(p, derive, w, Resolve(answer))
    ensures w.recon != [] && Apply(p, derive, w, Resolve(answer)) == ResolveStep(w, answer)
  {
    hide ResolveStep, MayAnswer;
  }

  lemma SnapshotIs(p: Policy, derive: Derive, w: World, order: seq<Entry>)
    requires Consistent(w) && Enabled(p, derive, w, Snapshot(order))
    ensures AttemptsOk(w.tasks, w.nextTask, w.inFlight) && IsSnapshot(w, order)
    ensures Apply(p, derive, w, Snapshot(order)) == w.(recon := Skipped(w.inFlight, order))
  {
    hide Inv, Owned, HistoryOk, ReconOk, AttemptsOk, IsSnapshot, Skipped;
  }

  lemma ResolvedQuiet(w: World, answer: Option<bool>)
    requires AllQuiet(w) && w.recon != []
    ensures AllQuiet(ResolveStep(w, answer))
  {
    ResolvedRecon(w, answer);
    hide ResolveStep;
  }

  lemma StaysQuiet(w: World, w': World)
    requires AllQuiet(w) && (w'.recon == w.recon || w'.recon == [])
    ensures AllQuiet(w')
  {
  }

  lemma ResolvedRecon(w: World, answer: Option<bool>)
    requires w.recon != []
    ensures exists k :: 1 <= k <= |w.recon| && ResolveStep(w, answer).recon == w.recon[k..]
  {
    hide Passed, MarkMeltSettled, FinalizeMelt, Restore, CallLive;
    var k := Passed(w.inFlight, w.recon[1..]);
    assert w.recon[1..][k..] == w.recon[k + 1..];
  }

  lemma OtherRecon(p: Policy, derive: Derive, w: World, e: Event)
    requires Consistent(w) && Enabled(p, derive, w, e) && !e.Resolve? && !e.Snapshot?
    ensures var w' := Apply(p, derive, w, e); w'.recon == w.recon || w'.recon == []
  {
    assert Inv(w.db) && Owned(w.db, w.now);
    hide Consistent, Inv, Owned, Advances, Bystander, NewlySpent;
    if NameEvent(e) {
      hide Apply, Enabled;
      NameShape(p, derive, w, e);
    } else if NoteEvent(e) {
      hide Apply, Enabled;
      NoteStepDb(p, derive, w, e);
    } else if e.MeltInto? {
      hide MeltStep;
      MeltShape(w, e.id, e.h, e.amount, e.pr);
    } else if TaskEvent(e) {
      TaskRecon(p, derive, w, e);
    }
  }

  lemma TaskRecon(p: Policy, derive: Derive, w: World, e: Event)
    requires TaskEvent(e) && Enabled(p, derive, w, e)
    ensures Apply(p, derive, w, e).recon == w.recon
  {
    hide MarkMeltSettled, FinalizeMelt, Restore, CallLive, Registry.Ended, MayAnswer;
  }

  /** If no snapshot puts an idle group before a live one, as when it has just one
      group, the fence is never needed. */
  lemma {:induction false} TameRunSafe(p: Policy, derive: Derive, w: World, es: seq<Event>, w': World)
    requires Consistent(w) && Safe(w) && AllQuiet(w) && TameRun(p, derive, w, es, w')
    ensures FencedRun(p, derive, w, es, w') && Safe(w')
    decreases |es|
  {
    hide Consistent, Safe, Advances, Enabled, Apply, Tame;
    if es != [] {
      var next := Apply(p, derive, w, es[0]);
      if es[0].Resolve? {
        QuietIsFenced(w, es[0].answer);
      }
      StepConsistent(p, derive, w, es[0]);
      StepSafe(p, derive, w, es[0]);
      TameStep(p, derive, w, es[0]);
      forall i | 0 <= i < |es| - 1 && es[1..][i].Snapshot? ensures Tame(es[1..][i].order) {
        assert es[1..][i] == es[i + 1];
      }
      TameRunSafe(p, derive, next, es[1..], w');
    }
  }

  // --- What every reachable state satisfies --------------------------------

  /** The registry is exact at every await: a payment is in it exactly while an
      attempt on it is live, and then once. */
  lemma RegistryExact(p: Policy, derive: Derive, es: seq<Event>, w: World, h: Hash)
    requires Run(p, derive, START, es, w)
    ensures h in w.inFlight <==> TaskOn(w, h)
    ensures h in w.inFlight ==> w.inFlight[h] == 1
  {
    StartOk();
    RunConsistent(p, derive, START, es, w);
    assert AttemptsOk(w.tasks, w.nextTask, w.inFlight);
    hide Consistent, Run, AttemptsOk;
    UncountedIdle(w, h);
    CountedOnce(w, h);
  }

  lemma CountedOnce(w: World, h: Hash)
    requires AttemptsOk(w.tasks, w.nextTask, w.inFlight)
    ensures TaskOn(w, h) && h in w.inFlight ==> w.inFlight[h] == 1
  {
    if TaskOn(w, h) {
      var t :| t in w.tasks && w.tasks[t].h == h;
      assert Registry.AgreesAt(w.inFlight, Attempts(w.tasks), h);
      assert Registry.On(Attempts(w.tasks), h) == {t};
    }
  }

  /** At every await a reserved note's payment is on file, and is its own. */
  lemma ReservationOnFile(p: Policy, derive: Derive, es: seq<Event>, w: World, id: NoteId, h: Hash)
    requires Run(p, derive, START, es, w) && Reserved(w.db, id, h)
    ensures h in w.db.melts && h in w.pays && MeltOf(w.melted, h, id)
  {
    StartOk();
    RunConsistent(p, derive, START, es, w);
  }

  /** A melt recorded as settled was paid, and its note is gone for good. */
  lemma SettledIsPaid(p: Policy, derive: Derive, es: seq<Event>, w: World, h: Hash)
    requires Run(p, derive, START, es, w) && h in w.db.melts && w.db.melts[h].settled
    ensures h in w.pays && w.pays[h].Landed? && h in w.melted && Spent(w.db.notes, w.melted[h].id)
  {
    StartOk();
    RunConsistent(p, derive, START, es, w);
  }

  /** One melt to a payment, ever: a hash on file is never paid into again. */
  lemma {:induction false} OneMeltPerPayment(p: Policy, derive: Derive, w: World, es: seq<Event>, w': World,
                          id: NoteId, h: Hash, amount: int, pr: string)
    requires Consistent(w) && Run(p, derive, w, es, w') && h in w.db.melts
    ensures h in w'.db.melts
    ensures var w2 := MeltStep(w', id, h, amount, pr); w2.pays == w'.pays && w2.tasks == w'.tasks
  {
    RunConsistent(p, derive, w, es, w');
    assert h in w'.db.melts;
    hide *;
    MeltShape(w', id, h, amount, pr);
    KnownRefused(w', id, h, amount);
    if MeltStep(w', id, h, amount, pr) != w' {
      TransactedPays(w', PayFeeWithNotes(w'.db, [id], h, amount, w'.now).value.0);
    }
  }

  lemma KnownRefused(w: World, id: NoteId, h: Hash, amount: int)
    requires h in w.db.melts
    ensures !MeltAccepted(w, id, h, amount)
  {
  }

  lemma TransactedPays(w: World, db: Db)
    ensures Transacted(w, db).pays == w.pays && Transacted(w, db).tasks == w.tasks
  {
  }

  /** A paid mint can be credited in every reachable state: settling it is refused
      only while its username is not registered. */
  lemma PaidMintCredits(p: Policy, derive: Derive, es: seq<Event>, w: World, h: Hash)
    requires Run(p, derive, START, es, w) && SettleEnds(w.db, h, derive)
    ensures SettleMint(w.db, h, derive).Err? <==> PicksNote(w.db, h) && w.db.mints[h].username.value !in w.db.users
  {
    StartOk();
    RunConsistent(p, derive, START, es, w);
    hide Inv, Run;
    SettleKeeps(w.db, h, derive);
  }

  /** Once credited, a mint is never credited again. */
  lemma MintCreditedOnce(p: Policy, derive: Derive, w: World, es: seq<Event>, w': World, h: Hash)
    requires Consistent(w) && Run(p, derive, w, es, w') && h in w.db.mints && w.db.mints[h].minted
    ensures SettleEnds(w'.db, h, derive) && SettleMint(w'.db, h, derive) == Ok(Settled(w'.db, None))
  {
    RunConsistent(p, derive, w, es, w');
    hide Consistent, Run;
    CreditedOnce(w.db, h, derive, w'.db);
  }

  /** A completed rotate, split or merge is answered the same for ever after. */
  lemma RetryInRun(p: Policy, derive: Derive, w: World, req: Request, seenSpent: bool, es: seq<Event>, w': World,
                   again: Request, seenSpent': bool)
    requires Consistent(w) && |req.ids| >= 1 && Enabled(p, derive, w, Exchange(req, seenSpent))
    requires Mutate(p, w.db, req, seenSpent).reply.Minted?
    requires Run(p, derive, Apply(p, derive, w, Exchange(req, seenSpent)), es, w')
    requires multiset(again.ids) == multiset(req.ids)
    ensures |again.ids| >= 1
    ensures var r := Mutate(p, w'.db, again, seenSpent');
            if again.(ids := req.ids, p2 := SecondId(again)) == req.(p2 := SecondId(req))
            then r == Response(Mutate(p, w.db, req, seenSpent).reply, w'.db)
            else r.reply.Refused? && r.db == w'.db
  {
    var next := Apply(p, derive, w, Exchange(req, seenSpent));
    assert Inv(w.db) && next.db == Mutate(p, w.db, req, seenSpent).db;
    StepConsistent(p, derive, w, Exchange(req, seenSpent));
    RunConsistent(p, derive, next, es, w');
    assert Inv(w'.db);
    hide Consistent, Inv, Run, Apply, Enabled, Advances, Mutate;
    if again.(ids := req.ids, p2 := SecondId(again)) == req.(p2 := SecondId(req)) {
      RetryReplays(p, w.db, req, seenSpent, w'.db, again, seenSpent');
    } else {
      ConflictRefused(p, w.db, req, seenSpent, w'.db, again, seenSpent');
    }
  }

  /** A share key accepted once is refused from then on, by every way in. */
  lemma {:induction false} KeyAcceptedOnce(p: Policy, derive: Derive, w: World, es: seq<Event>, w': World, xp: string)
    requires Consistent(w) && Run(p, derive, w, es, w') && xp in w.db.accepted
    ensures forall username, cx1 ::
              Register(w'.db, username, cx1, xp, w'.now).Err? && Update(w'.db, username, cx1, xp).Err?
    ensures forall h, pr, username, cx1, amount, expires ::
              Hold(w'.db, h, pr, username, cx1, xp, amount, expires, w'.now).Err?
  {
    RunConsistent(p, derive, w, es, w');
  }

  /** One owner per name, in every reachable state: registrations and holds that can
      still be paid come to at most one. */
  lemma OneOwnerEver(p: Policy, derive: Derive, es: seq<Event>, w: World, username: string)
    requires Run(p, derive, START, es, w)
    ensures Owners(w.db, username, w.now) <= 1
  {
    StartOk();
    RunConsistent(p, derive, START, es, w);
    hide Inv, Run;
    OneHolder(w.db, username, w.now);
  }

  /** A fee invoice that can still be paid registers its username, in every
      reachable state, and nobody else has or holds it meanwhile. */
  lemma PayableFeeRegisters(p: Policy, derive: Derive, es: seq<Event>, w: World, h: Hash)
    requires Run(p, derive, START, es, w) && h in w.db.fees && Live(w.db.fees[h], w.now)
    ensures var u := w.db.fees[h].username;
            && u !in w.db.users
            && (forall g | g in w.db.fees && g != h :: !HeldBy(w.db.fees, g, u, w.now))
            && SettleFee(w.db, h, w.now).outcome == Some((u, true))
  {
    StartOk();
    RunConsistent(p, derive, START, es, w);
    hide Inv, Run;
    LiveFeeRegisters(w.db, h, w.now);
  }
}
