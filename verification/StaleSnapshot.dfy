/** What the fence is for: a run of the mint in which the reconciler restores a note
    from a stale snapshot, and its value leaves twice. */
module StaleSnapshot {
  import opened Wrappers
  import opened BurnKeys
  import opened Ledger
  import opened LedgerInvariant
  import opened Redeem
  import opened Protocol
  import opened ProtocolInvariant
  import opened Runs
  import opened Totals
  import opened Conservation
  import Registry
  import Fees

  const P := Policy(Fees.Settings(0, 0, 1, 1_000_000, 0), 1, false, 10)

  function NoShares(cx1: string, i: nat): Option<NoteId> { None }

  const A: NoteId := "a"
  const B: NoteId := "b"
  const C: NoteId := "c"

  /** A reserved note. */
  function Held(h: Hash): Note { Note(1000, false, true, Some(h)) }

  const MINTS: map<Hash, Mint> := map["m" := Mint(1000, true, Some(A), None), "n" := Mint(1000, true, Some(B), None)]

  function Issued(a: Note, b: Note, melts: map<Hash, Melt>): Db {
    Db(map[A := a, B := b], MINTS, melts, map[], map[], map[], {})
  }

  /** Both notes minted and paid for. */
  const MINTED := World(Issued(Fresh(1000), Fresh(1000), map[]), 0, map[], map[], 0, [], map[], {"m", "n"},
                        map["m" := 1000, "n" := 1000], map[], {}, {})

  /** Note A was being melted into x when the process restarted. */
  const LEFT := MINTED.(db := Issued(Held("x"), Fresh(1000), map["x" := Melt("", false)]), nextTask := 1,
                        pays := map["x" := Unsent], melted := map["x" := Reservation(A, 1000)])

  const GROUPS := [Entry("x", [A], true), Entry("y", [B], false)]

  /** Note B is being melted into y, and the reconciler asks about x first. */
  const ASKED := LEFT.(db := Issued(Held("x"), Held("y"), map["x" := Melt("", false), "y" := Melt("", false)]),
                       nextTask := 2,
                       tasks := map[1 := Task(B, "y", Scheduled)], inFlight := map["y" := 1], recon := GROUPS,
                       pays := map["x" := Unsent, "y" := Unsent],
                       melted := map["x" := Reservation(A, 1000), "y" := Reservation(B, 1000)])

  /** That payment was not made, B is free again, and the reconciler still waits. */
  const FREED := ASKED.(db := Issued(Held("x"), Fresh(1000), ASKED.db.melts), tasks := map[], inFlight := map[],
                        pays := map["x" := Unsent, "y" := Dead], givenUp := {"y"})

  /** Note B is being melted into z. */
  const AGAIN := FREED.(db := Issued(Held("x"), Held("z"), FREED.db.melts["z" := Melt("", false)]), nextTask := 3,
                        tasks := map[2 := Task(B, "z", Scheduled)], inFlight := map["z" := 1],
                        pays := FREED.pays["z" := Unsent], melted := FREED.melted["z" := Reservation(B, 1000)])

  /** Note B is free once more, though its payment into z is still to come. */
  const RELEASED := AGAIN.(db := Issued(Held("x"), Fresh(1000), AGAIN.db.melts), recon := [])

  /** That payment lands. */
  const PAID_OUT := RELEASED.(pays := RELEASED.pays["z" := Landed])

  /** And note B is rotated into a new note. */
  const TWICE := PAID_OUT.(
    db := PAID_OUT.db.(notes := map[A := Held("x"), B := Note(1000, true, false, None), C := Fresh(1000)],
                       burns := map[BurnKey([B]) := Burn(C, None, 1000, None, None)]),
    exchanged := {B})

  lemma Then(w: World, e: Event, mid: World, es: seq<Event>, w': World)
    requires Enabled(P, NoShares, w, e) && Apply(P, NoShares, w, e) == mid && Run(P, NoShares, mid, es, w')
    ensures Run(P, NoShares, w, [e] + es, w')
  {
    hide Enabled, Apply;
    assert ([e] + es)[1..] == es;
  }

  lemma {:induction false} RunsOn(w: World, es: seq<Event>, mid: World, more: seq<Event>, w': World)
    requires Run(P, NoShares, w, es, mid) && Run(P, NoShares, mid, more, w')
    ensures Run(P, NoShares, w, es + more, w')
    decreases |es|
  {
    hide Enabled, Apply;
    if es == [] {
      assert es + more == more;
    } else {
      assert (es + more)[1..] == es[1..] + more;
      RunsOn(Apply(P, NoShares, w, es[0]), es[1..], mid, more, w');
    }
  }

  lemma Done(w: World)
    ensures Run(P, NoShares, w, [], w)
  {
  }

  /** What a melt of a free note worth 1000 into a fresh hash comes to. */
  lemma MeltsTo(w: World, id: NoteId, h: Hash)
    requires id in w.db.notes && w.db.notes[id] == Fresh(1000)
    requires h !in w.db.fees && h !in w.db.mints && h !in w.db.melts
    ensures MeltStep(w, id, h, 1000, "") ==
              w.(db := w.db.(notes := w.db.notes[id := Held(h)], melts := w.db.melts[h := Melt("", false)]),
                 inFlight := Registry.Started(w.inFlight, h),
                 tasks := w.tasks[w.nextTask := Task(id, h, Scheduled)], nextTask := w.nextTask + 1,
                 pays := w.pays[h := Unsent], melted := w.melted[h := Reservation(id, 1000)])
  {
    assert AllFree(w.db, [id]);
    assert ReserveError(w.db, [id]) == None;
    MeltShape(w, id, h, 1000, "");
    hide MeltStep;
    MarkedNotes(w.db, id, h, "");
  }

  lemma IsLeft()
    ensures MeltStep(MINTED, A, "x", 1000, "").(tasks := map[], inFlight := map[], recon := []) == LEFT
  {
    MeltsTo(MINTED, A, "x");
    hide MeltStep;
    assert MINTED.db.notes[A := Held("x")] == LEFT.db.notes;
  }

  lemma IsAsked()
    ensures MeltStep(LEFT, B, "y", 1000, "").(recon := GROUPS) == ASKED
  {
    MeltsTo(LEFT, B, "y");
    hide MeltStep;
    assert LEFT.db.notes[B := Held("y")] == ASKED.db.notes;
    assert LEFT.tasks[LEFT.nextTask := Task(B, "y", Scheduled)] == ASKED.tasks;
    assert Registry.Started(LEFT.inFlight, "y") == ASKED.inFlight;
  }

  lemma IsGroups()
    ensures IsSnapshot(ASKED.(recon := []), GROUPS) && Skipped(ASKED.inFlight, GROUPS) == GROUPS
  {
    var w := ASKED.(recon := []);
    assert w.tasks[1].h == "y";
    assert TaskOn(w, "y") && !TaskOn(w, "x");
    assert GROUPS[0].h == "x" && GROUPS[1].h == "y";
    assert forall id :: Reserved(w.db, id, "x") <==> id == A;
    assert forall id :: Reserved(w.db, id, "y") <==> id == B;
  }

  /** Note B's attempt, asking whether its payment was made. */
  const CONFIRMING := ASKED.(tasks := map[1 := Task(B, "y", Confirming(CONFIRMATION_TRIES))])

  lemma IsConfirming()
    ensures 1 in ASKED.tasks && Moved(Moved(ASKED, 1, Calling), 1, Confirming(CONFIRMATION_TRIES)) == CONFIRMING
  {
    var calling := Moved(ASKED, 1, Calling);
    assert calling.tasks[1 := calling.tasks[1].(phase := Confirming(CONFIRMATION_TRIES))] == CONFIRMING.tasks;
  }

  /** What an attempt comes to when the source says no. */
  lemma LosesTo(w: World, t: nat, id: NoteId, h: Hash, left: nat)
    requires t in w.tasks && w.tasks[t] == Task(id, h, Confirming(left)) && left > 0 && h in w.pays && !CallLive(w, h)
    ensures ConfirmStep(w, t, Some(false)) ==
              w.(db := Restore(w.db, [id]), pays := w.pays[h := Dead], givenUp := w.givenUp + {h},
                 tasks := w.tasks - {t}, inFlight := Registry.Ended(w.inFlight, h))
  {
    hide CallLive, Registry.Ended, Restore;
  }

  lemma BFreed(db: Db)
    requires db.notes.Keys == {A, B} && db.notes[A] == Held("x")
    requires db.notes[B].amount == 1000 && !db.notes[B].spent && db.mints == MINTS
    requires db == Issued(db.notes[A], db.notes[B], db.melts)
    ensures Restore(db, [B]) == Issued(Held("x"), Fresh(1000), db.melts)
  {
    assert Restore(db, [B]).notes == map[A := Held("x"), B := Fresh(1000)];
  }

  lemma IsFreed()
    ensures MayAnswer(CONFIRMING, "y", Some(false)) && ConfirmStep(CONFIRMING, 1, Some(false)) == FREED
  {
    var w := CONFIRMING;
    assert w.db == Issued(Held("x"), Held("y"), w.db.melts);
    BFreed(w.db);
    assert forall t | t in w.tasks :: t == 1;
    assert !CallLive(w, "y");
    LosesTo(w, 1, B, "y", CONFIRMATION_TRIES);
    hide CallLive, ConfirmStep, Restore;
    assert w.pays["y" := Dead] == FREED.pays;
    assert w.tasks - {1} == map[];
    assert Registry.Ended(w.inFlight, "y") == map[];
  }

  lemma IsAgain()
    ensures MeltStep(FREED, B, "z", 1000, "") == AGAIN
  {
    MeltsTo(FREED, B, "z");
    hide MeltStep;
    assert FREED.db.notes[B := Held("z")] == AGAIN.db.notes;
    assert FREED.tasks[FREED.nextTask := Task(B, "z", Scheduled)] == AGAIN.tasks;
    assert Registry.Started(FREED.inFlight, "z") == AGAIN.inFlight;
  }

  /** The reconciler goes on to the group of y, which is no longer live. */
  const STALE := AGAIN.(recon := [Entry("y", [B], false)])

  lemma IsStale()
    ensures Past(AGAIN) == STALE
  {
    assert GROUPS[1..] == [Entry("y", [B], false)];
    assert Skipped(AGAIN.inFlight, GROUPS[1..]) == GROUPS[1..];
  }

  /** Hearing no again changes nothing but the notes. */
  lemma GivenUpAgain(w: World, ids: seq<NoteId>, h: Hash)
    requires h in w.pays && w.pays[h].Dead? && h in w.givenUp
    ensures GivenUp(w, ids, h) == w.(db := Restore(w.db, ids))
  {
    hide CallLive, Restore;
    assert w.pays[h := Dead] == w.pays;
    assert w.givenUp + {h} == w.givenUp;
  }

  lemma IsPast()
    ensures Past(STALE) == AGAIN.(recon := [])
  {
    assert STALE.recon[1..] == [];
  }

  lemma IsReleased()
    ensures MayAnswer(STALE, "y", Some(false)) && ResolveStep(STALE, Some(false)) == RELEASED
  {
    IsPast();
    BFreed(AGAIN.db);
    GivenUpAgain(AGAIN.(recon := []), [B], "y");
    hide Past, GivenUp, Restore;
    assert STALE.recon[0] == Entry("y", [B], false);
  }

  // --- Minting, and the way out --------------------------------------------

  function Asked(w: World, h: Hash, id: NoteId): World {
    w.(db := w.db.(mints := w.db.mints[h := Mint(1000, false, Some(id), None)]), gross := w.gross[h := 1000])
  }

  function Minted1(w: World, h: Hash, id: NoteId): World {
    w.(db := w.db.(mints := w.db.mints[h := Mint(1000, true, Some(id), None)], notes := w.db.notes[id := Fresh(1000)]),
       gross := w.gross[h := 1000], paidIn := w.paidIn + {h})
  }

  lemma MayCreate(db: Db, h: Hash, id: NoteId)
    requires !InUse(db, id) && h !in db.mints
    ensures CreateMint(db, h, 1000, Some(id), None)
         == Ok(db.(mints := db.mints[h := Mint(1000, false, Some(id), None)]))
  {
  }

  lemma AsksTo(w: World, h: Hash, id: NoteId)
    requires !InUse(w.db, id) && h !in w.db.mints
    ensures RequestInvoiceStep(P, w, h, 1000, Some(id), None) == Asked(w, h, id)
  {
    Fees.FreeOfFees(P.fees, 1000);
    MayCreate(w.db, h, id);
    hide CreateMint, Fees.PayCallbackNet, NewlySpent;
    NoneSpent(w.db, Asked(w, h, id).db);
  }

  lemma SettlesTo(w: World, h: Hash, id: NoteId)
    requires id !in w.db.notes && h !in w.db.mints
    ensures var paid := Asked(w, h, id).(paidIn := w.paidIn + {h});
            SettleEnds(paid.db, h, NoShares) && SettleStep(NoShares, paid, h) == Minted1(w, h, id)
  {
    var paid := Asked(w, h, id).(paidIn := w.paidIn + {h});
    var db := Minted1(w, h, id).db;
    assert paid.db.mints[h := Mint(1000, true, Some(id), None)] == db.mints;
    assert SettleMint(paid.db, h, NoShares) == Ok(Settled(db, Some(1000)));
    hide SettleMint;
    assert NewlySpent(paid.db, db) == {};
  }

  function MintEvents(h: Hash, id: NoteId): seq<Event> {
    [RequestInvoice(h, 1000, Some(id), None)] + ([Payer(h)] + ([Settle(h)] + []))
  }

  lemma AskSteps(w: World, h: Hash, id: NoteId)
    requires !InUse(w.db, id) && h !in w.db.mints
    ensures var request := RequestInvoice(h, 1000, Some(id), None);
            Enabled(P, NoShares, w, request) && Apply(P, NoShares, w, request) == Asked(w, h, id)
  {
    AsksTo(w, h, id);
    hide RequestInvoiceStep;
  }

  lemma PaySteps(w: World, h: Hash, id: NoteId)
    requires id !in w.db.notes && h !in w.db.mints
    ensures var asked := Asked(w, h, id);
            var paid := asked.(paidIn := w.paidIn + {h});
            && Enabled(P, NoShares, asked, Payer(h)) && Apply(P, NoShares, asked, Payer(h)) == paid
            && Enabled(P, NoShares, paid, Settle(h)) && Apply(P, NoShares, paid, Settle(h)) == Minted1(w, h, id)
  {
    SettlesTo(w, h, id);
    hide SettleStep, SettleEnds;
  }

  lemma MintRun(w: World, h: Hash, id: NoteId)
    requires !InUse(w.db, id) && h !in w.db.mints
    ensures Run(P, NoShares, w, MintEvents(h, id), Minted1(w, h, id))
  {
    assert id !in w.db.notes;
    hide *;
    AskSteps(w, h, id);
    PaySteps(w, h, id);
    var asked, w' := Asked(w, h, id), Minted1(w, h, id);
    var paid := asked.(paidIn := w.paidIn + {h});
    Done(w');
    Then(paid, Settle(h), w', [], w');
    Then(asked, Payer(h), paid, [Settle(h)] + [], w');
    Then(w, RequestInvoice(h, 1000, Some(id), None), asked, [Payer(h)] + ([Settle(h)] + []), w');
    MintEventsAre(h, id);
  }

  lemma MintEventsAre(h: Hash, id: NoteId)
    ensures MintEvents(h, id) == [RequestInvoice(h, 1000, Some(id), None)] + ([Payer(h)] + ([Settle(h)] + []))
  {
  }

  lemma IsMinted()
    ensures Run(P, NoShares, START, MintEvents("m", A) + MintEvents("n", B), MINTED)
  {
    var first := Minted1(START, "m", A);
    MintRun(START, "m", A);
    assert first.db.notes == map[A := Fresh(1000)] && first.db.mints == map["m" := Mint(1000, true, Some(A), None)];
    MintRun(first, "n", B);
    hide Run, MintEvents;
    assert Minted1(first, "n", B) == MINTED by { SecondMinted(first); }
    RunsOn(START, MintEvents("m", A), first, MintEvents("n", B), MINTED);
  }

  lemma SecondMinted(first: World)
    requires first == Minted1(START, "m", A)
    ensures Minted1(first, "n", B) == MINTED
  {
    var w := Minted1(first, "n", B);
    assert w.db.notes == MINTED.db.notes;
    assert w.db.mints == MINTS;
    assert w.gross == MINTED.gross && w.paidIn == MINTED.paidIn;
  }

  // --- The run -------------------------------------------------------------

  const REQUEST := Request([B], Some(C), None, None)

  lemma TwiceNotes()
    ensures Credited(Burned(PAID_OUT.db.notes, [B]), [Output(C, 1000)]) == TWICE.db.notes
  {
    assert [Output(C, 1000)][..0] == [];
    assert Burned(PAID_OUT.db.notes, [B]) == map[A := Held("x"), B := Note(1000, true, false, None)];
    hide Burned;
  }

  lemma MayRotate()
    ensures BurnError(PAID_OUT.db, [B]) == None && OutputError(PAID_OUT.db, [Output(C, 1000)]) == None
  {
    var outs := [Output(C, 1000)];
    assert AllFree(PAID_OUT.db, [B]) && NoneInUse(PAID_OUT.db, outs);
    hide BurnError, OutputError, AllFree, NoneInUse;
    assert OutputIds(outs) == [C];
  }

  lemma RotatesB()
    ensures Swap(PAID_OUT.db, [B], [Output(C, 1000)], None) == Ok(TWICE.db)
  {
    MayRotate();
    TwiceNotes();
    hide BurnKey, BurnError, OutputError, Credited, Burned;
    assert PAID_OUT.db.burns[BurnKey([B]) := BurnRecord([Output(C, 1000)], None)] == TWICE.db.burns;
  }

  lemma MutatesB()
    ensures Mutate(P, PAID_OUT.db, REQUEST, false).db == TWICE.db
  {
    assert [B][..0] == [];
    assert Value(PAID_OUT.db, [B]) == 1000;
    RotatesB();
    hide Swap, BurnKey;
  }

  lemma SpendsB()
    ensures NewlySpent(PAID_OUT.db, TWICE.db) == {B}
  {
  }

  lemma ExchangesB()
    ensures Enabled(P, NoShares, PAID_OUT, Exchange(REQUEST, false))
    ensures Apply(P, NoShares, PAID_OUT, Exchange(REQUEST, false)) == TWICE
  {
    MutatesB();
    SpendsB();
    hide Mutate, NewlySpent, BurnKey;
    assert PAID_OUT.exchanged + {B} == TWICE.exchanged;
  }

  /** Note B's payment into z is on its way. */
  const FLYING := RELEASED.(pays := RELEASED.pays["z" := InFlight])

  lemma Flies()
    ensures Enabled(P, NoShares, RELEASED, Source("z", InFlight))
    ensures Apply(P, NoShares, RELEASED, Source("z", InFlight)) == FLYING
  {
  }

  lemma Lands()
    ensures Enabled(P, NoShares, FLYING, Source("z", Landed))
    ensures Apply(P, NoShares, FLYING, Source("z", Landed)) == PAID_OUT
  {
    assert RELEASED.pays["z" := InFlight]["z" := Landed] == RELEASED.pays["z" := Landed];
  }

  lemma Reconciles()
    ensures Enabled(P, NoShares, AGAIN, Resolve(None)) && Apply(P, NoShares, AGAIN, Resolve(None)) == STALE
    ensures Enabled(P, NoShares, STALE, Resolve(Some(false)))
    ensures Apply(P, NoShares, STALE, Resolve(Some(false))) == RELEASED
  {
    IsStale();
    IsReleased();
    hide Past;
    assert ResolveStep(AGAIN, None) == STALE;
    hide ResolveStep;
  }

  function Ending(): seq<Event> {
    [Resolve(None)] + ([Resolve(Some(false))] + ([Source("z", InFlight)]
    + ([Source("z", Landed)] + ([Exchange(REQUEST, false)] + []))))
  }

  lemma EndingRuns()
    ensures Run(P, NoShares, AGAIN, Ending(), TWICE)
  {
    hide *;
    ExchangesB();
    Flies();
    Lands();
    Reconciles();
    var last := [Exchange(REQUEST, false)] + [];
    Done(TWICE);
    Then(PAID_OUT, Exchange(REQUEST, false), TWICE, [], TWICE);
    Then(FLYING, Source("z", Landed), PAID_OUT, last, TWICE);
    Then(RELEASED, Source("z", InFlight), FLYING, [Source("z", Landed)] + last, TWICE);
    Then(STALE, Resolve(Some(false)), RELEASED, [Source("z", InFlight)] + ([Source("z", Landed)] + last), TWICE);
    Then(AGAIN, Resolve(None), STALE,
         [Resolve(Some(false))] + ([Source("z", InFlight)] + ([Source("z", Landed)] + last)), TWICE);
    EndingIs();
  }

  lemma EndingIs()
    ensures Ending() == [Resolve(None)] + ([Resolve(Some(false))] + ([Source("z", InFlight)]
                        + ([Source("z", Landed)] + ([Exchange(REQUEST, false)] + []))))
  {
  }

  function Middle(): seq<Event> {
    [Snapshot(GROUPS)] + ([Begin(1)] + ([PayRaises(1)] + ([Confirm(1, Some(false))]
    + ([MeltInto(B, "z", 1000, "")] + []))))
  }

  lemma Snapshots()
    ensures var w := ASKED.(recon := []);
            Enabled(P, NoShares, w, Snapshot(GROUPS)) && Apply(P, NoShares, w, Snapshot(GROUPS)) == ASKED
  {
    IsGroups();
    hide IsSnapshot, Skipped;
  }

  lemma Tries()
    ensures 1 in ASKED.tasks
    ensures var calling := Moved(ASKED, 1, Calling);
            && Enabled(P, NoShares, ASKED, Begin(1)) && Apply(P, NoShares, ASKED, Begin(1)) == calling
            && Enabled(P, NoShares, calling, PayRaises(1)) && Apply(P, NoShares, calling, PayRaises(1)) == CONFIRMING
  {
    IsConfirming();
  }

  lemma FreesAndMelts()
    ensures Enabled(P, NoShares, CONFIRMING, Confirm(1, Some(false)))
    ensures Apply(P, NoShares, CONFIRMING, Confirm(1, Some(false))) == FREED
    ensures Enabled(P, NoShares, FREED, MeltInto(B, "z", 1000, ""))
    ensures Apply(P, NoShares, FREED, MeltInto(B, "z", 1000, "")) == AGAIN
  {
    IsFreed();
    IsAgain();
    hide ConfirmStep, MeltStep, MayAnswer;
  }

  lemma MiddleRuns()
    ensures Run(P, NoShares, ASKED.(recon := []), Middle(), AGAIN)
  {
    hide *;
    FreesAndMelts();
    Tries();
    Snapshots();
    var last := [MeltInto(B, "z", 1000, "")] + [];
    Done(AGAIN);
    Then(FREED, MeltInto(B, "z", 1000, ""), AGAIN, [], AGAIN);
    Then(CONFIRMING, Confirm(1, Some(false)), FREED, last, AGAIN);
    Then(Moved(ASKED, 1, Calling), PayRaises(1), CONFIRMING, [Confirm(1, Some(false))] + last, AGAIN);
    Then(ASKED, Begin(1), Moved(ASKED, 1, Calling), [PayRaises(1)] + ([Confirm(1, Some(false))] + last), AGAIN);
    Then(ASKED.(recon := []), Snapshot(GROUPS), ASKED,
         [Begin(1)] + ([PayRaises(1)] + ([Confirm(1, Some(false))] + last)), AGAIN);
    MiddleIs();
  }

  lemma MiddleIs()
    ensures Middle() == [Snapshot(GROUPS)] + ([Begin(1)] + ([PayRaises(1)] + ([Confirm(1, Some(false))]
                        + ([MeltInto(B, "z", 1000, "")] + []))))
  {
  }

  function Opening(): seq<Event> {
    [MeltInto(A, "x", 1000, "")] + ([Restart] + ([MeltInto(B, "y", 1000, "")] + []))
  }

  lemma OpeningRuns()
    ensures Run(P, NoShares, MINTED, Opening(), ASKED.(recon := []))
  {
    IsLeft();
    BMelting();
    hide Run, MeltStep;
    var melting, last := MeltStep(MINTED, A, "x", 1000, ""), ASKED.(recon := []);
    Done(last);
    Then(LEFT, MeltInto(B, "y", 1000, ""), last, [], last);
    Then(melting, Restart, LEFT, [MeltInto(B, "y", 1000, "")] + [], last);
    Then(MINTED, MeltInto(A, "x", 1000, ""), melting, [Restart] + ([MeltInto(B, "y", 1000, "")] + []), last);
  }

  lemma BMelting()
    ensures MeltStep(LEFT, B, "y", 1000, "") == ASKED.(recon := [])
  {
    IsAsked();
    MeltsTo(LEFT, B, "y");
    hide MeltStep;
  }

  /** Without the fence neither safety nor conservation holds: 2000 msat are paid in,
      note B is both melted and rotated, and 3000 msat are out or outstanding. */
  lemma UnfencedRunPaysTwice()
    ensures Run(P, NoShares, START,
                (MintEvents("m", A) + MintEvents("n", B)) + (Opening() + (Middle() + Ending())), TWICE)
    ensures "z" in TWICE.pays && TWICE.pays["z"].Landed? && "z" in TWICE.melted
    ensures TWICE.melted["z"].id in TWICE.exchanged
    ensures Total(Amounts(TWICE.db.notes, TWICE.pays)) + Total(Melted(TWICE.melted, TWICE.pays)) > Total(PaidIn(TWICE))
  {
    IsMinted();
    OpeningRuns();
    MiddleRuns();
    EndingRuns();
    hide Run, MintEvents, Opening, Middle, Ending, Amounts, Melted, PaidIn;
    RunsOn(ASKED.(recon := []), Middle(), AGAIN, Ending(), TWICE);
    RunsOn(MINTED, Opening(), ASKED.(recon := []), Middle() + Ending(), TWICE);
    RunsOn(START, MintEvents("m", A) + MintEvents("n", B), MINTED, Opening() + (Middle() + Ending()), TWICE);
    OutstandingSum();
    MeltedSum();
    PaidInSum();
  }

  lemma TwiceIs()
    ensures TWICE.pays == map["x" := Unsent, "y" := Dead, "z" := Landed]
    ensures TWICE.melted == map["x" := Reservation(A, 1000), "y" := Reservation(B, 1000), "z" := Reservation(B, 1000)]
  {
  }

  lemma OutstandingSum()
    ensures Total(Amounts(TWICE.db.notes, TWICE.pays)) == 2000
  {
    TwiceIs();
    FreshOutstanding(TWICE.pays);
    assert !Outstanding(TWICE.pays, TWICE.db.notes[B]) && Outstanding(TWICE.pays, TWICE.db.notes[A]);
    assert TWICE.db.notes.Keys == {A, B, C};
    hide Outstanding;
    TwoOutstanding(TWICE.db.notes, TWICE.pays, A, C);
    TwoKeys(A, 1000, C, 1000);
  }

  lemma TwoOutstanding(notes: map<NoteId, Note>, pays: map<Hash, Pay>, a: NoteId, c: NoteId)
    requires a in notes && c in notes && a != c
    requires forall id | id in notes :: Outstanding(pays, notes[id]) <==> id == a || id == c
    ensures Amounts(notes, pays) == map[a := notes[a].amount, c := notes[c].amount]
  {
    hide Outstanding;
  }

  lemma FreshOutstanding(pays: map<Hash, Pay>)
    ensures Outstanding(pays, Fresh(1000))
  {
  }

  lemma MeltedSum()
    ensures Total(Melted(TWICE.melted, TWICE.pays)) == 1000
  {
    TwiceIs();
    OnlyLanded(TWICE.melted, TWICE.pays, "z");
    OneKey("z", 1000);
  }

  lemma OnlyLanded(melted: map<Hash, Reservation>, pays: map<Hash, Pay>, h: Hash)
    requires h in melted && h in pays && pays[h].Landed?
    requires forall g | g in melted && g in pays && g != h :: !pays[g].Landed?
    ensures Melted(melted, pays) == map[h := melted[h].amount]
  {
  }

  lemma PaidInSum()
    ensures Total(PaidIn(TWICE)) == 2000
  {
    assert PaidIn(TWICE) == map["m" := 1000, "n" := 1000];
    TwoKeys("m", 1000, "n", 1000);
  }

  lemma OneKey<K>(k: K, v: int)
    ensures Total(map[k := v]) == v
  {
    TotalAt(map[k := v], k);
    assert map[k := v] - {k} == map[];
  }

  lemma TwoKeys<K>(j: K, v: int, k: K, u: int)
    requires j != k
    ensures Total(map[j := v, k := u]) == v + u
  {
    OneKey(j, v);
    TotalPut(map[j := v], k, u);
    assert map[j := v][k := u] == map[j := v, k := u];
  }
}
