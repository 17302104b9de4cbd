/** Crediting a username's share: a search that finds an unused index, and indices
    that only ever grow, over a whole run. */
module Claims {
  import opened Wrappers
  import opened BurnKeys
  import opened Ledger
  import opened LedgerInvariant
  import opened Redeem
  import opened Protocol
  import opened ProtocolInvariant
  import opened Runs
  import Fees

  // --- The search ends -----------------------------------------------------

  /** Keys derive at all these indices, and different ones. */
  ghost predicate Derives(derive: Derive, cx1: string, indices: set<nat>) {
    && (forall i | i in indices :: derive(cx1, i).Some?)
    && (forall i, j | i in indices && j in indices && i != j :: derive(cx1, i) != derive(cx1, j))
  }

  /** The ids some mint names. */
  function Named(mints: map<Hash, Mint>): map<Hash, NoteId> {
    map h | h in mints && mints[h].noteId.Some? :: mints[h].noteId.value
  }

  function IdsUsed(db: Db): set<NoteId> {
    db.notes.Keys + Image(Named(db.mints).Keys, Named(db.mints))
  }

  lemma UsedExact(db: Db, id: NoteId)
    ensures id in IdsUsed(db) <==> InUse(db, id)
  {
    if NamedByMint(db.mints, id) {
      var h :| h in db.mints && db.mints[h].noteId == Some(id);
      assert h in Named(db.mints);
    }
  }

  function Image<X, Y>(s: set<X>, m: map<X, Y>): set<Y>
    requires s <= m.Keys
  {
    set x | x in s :: m[x]
  }

  ghost predicate Injective<X, Y>(s: set<X>, m: map<X, Y>)
    requires s <= m.Keys
  {
    forall x, y | x in s && y in s && x != y :: m[x] != m[y]
  }

  lemma {:induction false} ImageSize<X, Y>(s: set<X>, m: map<X, Y>)
    requires s <= m.Keys
    ensures |Image(s, m)| <= |s|
    ensures Injective(s, m) ==> |Image(s, m)| == |s|
    decreases |s|
  {
    if x :| x in s {
      ImageSize(s - {x}, m);
      assert Image(s, m) == Image(s - {x}, m) + {m[x]};
    } else {
      assert Image(s, m) == {};
    }
  }

  lemma FewUsed(db: Db)
    ensures |IdsUsed(db)| <= |db.notes| + |db.mints|
  {
    var named := Named(db.mints);
    assert named.Keys <= db.mints.Keys;
    hide Named, Image;
    ImageSize(named.Keys, named);
    SubsetSize(named.Keys, db.mints.Keys);
    UnionSize(db.notes.Keys, Image(named.Keys, named));
    assert |db.notes| == |db.notes.Keys| && |db.mints| == |db.mints.Keys|;
  }

  lemma {:induction false} SubsetSize<X>(a: set<X>, b: set<X>)
    requires a <= b
    ensures |a| <= |b|
    decreases |a|
  {
    if x :| x in a {
      SubsetSize(a - {x}, b - {x});
    }
  }

  lemma {:induction false} UnionSize<X>(a: set<X>, b: set<X>)
    ensures |a + b| <= |a| + |b|
    decreases |b|
  {
    if x :| x in b {
      UnionSize(a, b - {x});
      assert a + b == (a + (b - {x})) + {x};
    } else {
      assert a + b == a;
    }
  }

  /** More derivable keys than ids in use: one of them is usable. */
  lemma ClaimFinds(db: Db, derive: Derive, cx1: string, indices: set<nat>)
    requires Derives(derive, cx1, indices) && |indices| > |db.notes| + |db.mints|
    ensures exists i | i in indices :: Usable(db, derive, cx1, i)
  {
    if forall i | i in indices :: !Usable(db, derive, cx1, i) {
      var keys := map i | i in indices :: derive(cx1, i).value;
      forall i | i in indices ensures keys[i] in IdsUsed(db) {
        assert !Usable(db, derive, cx1, i);
        UsedExact(db, keys[i]);
      }
      hide IdsUsed, Usable;
      ImageSize(indices, keys);
      SubsetSize(Image(indices, keys), IdsUsed(db));
      FewUsed(db);
    }
  }

  function Range(from: nat, upTo: nat): (r: set<nat>)
    requires from <= upTo
    ensures |r| == upTo - from && forall i :: i in r <==> from <= i < upTo
    decreases upTo
  {
    if from == upTo then {} else Range(from, upTo - 1) + {upTo - 1}
  }

  /** If a share derives different keys at as many indices in a row as there are
      ids in use, and one more, the search ends within them. */
  lemma ClaimWithin(db: Db, derive: Derive, username: string)
    requires username in db.users
    requires var u := db.users[username];
             Derives(derive, u.cx1, Range(u.nextIndex, u.nextIndex + |db.notes| + |db.mints| + 1))
    ensures ClaimEnds(db, username, derive)
    ensures ClaimIndex(db, username, derive).value.index <= db.users[username].nextIndex + |db.notes| + |db.mints|
  {
    var u := db.users[username];
    var upTo := u.nextIndex + |db.notes| + |db.mints| + 1;
    ClaimFinds(db, derive, u.cx1, Range(u.nextIndex, upTo));
    var i :| i in Range(u.nextIndex, upTo) && Usable(db, derive, u.cx1, i);
    assert SomeUsable(db, derive, u.cx1, u.nextIndex);
    var index := ClaimIndex(db, username, derive).value.index;
    assert FirstUsable(db, derive, u.cx1, u.nextIndex, index);
  }

  // --- Indices only grow ---------------------------------------------------

  /** The share of key `xp` is on file for `username` or for nobody, and indices
      below `n` are behind it. */
  ghost predicate Tracks(db: Db, xp: string, username: string, n: nat) {
    && xp in db.accepted
    && forall c | ClaimKey(db.users, db.fees, c) == Some(xp) ::
         c == Registered(username) && username in db.users && db.users[username].nextIndex >= n
  }

  lemma TracksFrom(db: Db, username: string)
    requires Inv(db) && username in db.users
    ensures Tracks(db, ShareKey(db.users[username].cx1), username, db.users[username].nextIndex)
  {
    hide ShareKey, LifeCycle, MintsDistinct, BurnsDisjoint;
    assert ClaimKey(db.users, db.fees, Registered(username)) == Some(ShareKey(db.users[username].cx1));
  }

  /** A claim that is in `b` but was not in `a` is under a new key, or is a fee's
      that became its username's. */
  lemma TracksKept(a: Db, b: Db, xp: string, username: string, n: nat)
    requires Tracks(a, xp, username, n) && a.accepted <= b.accepted
    requires forall u | u in b.users ::
               || (u in a.users && a.users[u].cx1 == b.users[u].cx1 && b.users[u].nextIndex >= a.users[u].nextIndex)
               || ShareKey(b.users[u].cx1) != xp
    requires forall h | h in b.fees && !b.fees[h].paid ::
               (h in a.fees && a.fees[h] == b.fees[h]) || ShareKey(b.fees[h].cx1) != xp
    ensures Tracks(b, xp, username, n)
  {
    hide ShareKey;
    forall c | ClaimKey(b.users, b.fees, c) == Some(xp) ensures ClaimKey(a.users, a.fees, c) == Some(xp) {
    }
  }

  lemma SettleFeeTracks(db: Db, h: Hash, now: int, xp: string, username: string, n: nat)
    requires Tracks(db, xp, username, n)
    ensures Tracks(SettleFee(db, h, now).db, xp, username, n)
  {
    hide ShareKey, SettleFee;
    SettleFeeShape(db, h, now);
    var db' := SettleFee(db, h, now).db;
    if h in db.fees && !db.fees[h].paid {
      assert ClaimKey(db.users, db.fees, Unpaid(h)) == Some(ShareKey(db.fees[h].cx1));
      TracksKept(db, db', xp, username, n);
    }
  }

  lemma NameTracks(w: World, e: Event, xp: string, username: string, n: nat)
    requires NameEvent(e) && NameDb(w, e).Ok? && Tracks(w.db, xp, username, n)
    ensures Tracks(NameDb(w, e).value, xp, username, n)
  {
    hide ShareKey, Taken, SettleFee, Tracks;
    var db' := NameDb(w, e).value;
    if e.SettleName? {
      SettleFeeTracks(w.db, e.h, w.now, xp, username, n);
    } else {
      assert xp in w.db.accepted by { TrackedAccepted(w.db, xp, username, n); }
      TracksKept(w.db, db', xp, username, n);
    }
  }

  lemma TrackedAccepted(db: Db, xp: string, username: string, n: nat)
    requires Tracks(db, xp, username, n)
    ensures xp in db.accepted
  {
  }

  /** Nothing happened to the shares but that an index may have moved on. */
  predicate SharesKept(a: Db, b: Db) {
    && b.fees == a.fees && b.accepted == a.accepted && b.users.Keys == a.users.Keys
    && forall u | u in a.users :: b.users[u].cx1 == a.users[u].cx1 && b.users[u].nextIndex >= a.users[u].nextIndex
  }

  lemma SharesSame(db: Db)
    ensures SharesKept(db, db)
  {
  }

  lemma ClaimShares(db: Db, username: string, derive: Derive)
    requires ClaimEnds(db, username, derive)
    ensures ClaimIndex(db, username, derive).Ok? ==> SharesKept(db, ClaimIndex(db, username, derive).value.db)
  {
    if username in db.users {
      var i := ClaimIndex(db, username, derive).value.index;
      assert FirstUsable(db, derive, db.users[username].cx1, db.users[username].nextIndex, i);
      hide FirstUsable, ClaimIndex;
    }
  }

  lemma SettleShares(db: Db, h: Hash, derive: Derive)
    requires SettleEnds(db, h, derive)
    ensures SettleMint(db, h, derive).Ok? ==> SharesKept(db, SettleMint(db, h, derive).value.db)
  {
    if PicksNote(db, h) {
      ClaimShares(db, db.mints[h].username.value, derive);
      hide ClaimIndex;
    }
  }

  lemma SwapShares(db: Db, ids: seq<NoteId>, outs: seq<Output>, recipient: Option<string>)
    ensures Swap(db, ids, outs, recipient).Ok? ==> SharesKept(db, Swap(db, ids, outs, recipient).value)
  {
    hide BurnKey;
  }

  lemma SwappedShares(db: Db, ids: seq<NoteId>, outs: seq<Output>)
    requires 1 <= |outs| <= 2
    ensures SharesKept(db, Swapped(db, ids, outs).db)
  {
    hide Swap;
    SwapShares(db, ids, outs, None);
  }

  lemma MutateShares(p: Policy, db: Db, req: Request, seenSpent: bool)
    requires |req.ids| >= 1
    ensures SharesKept(db, Mutate(p, db, req, seenSpent).db)
  {
    hide Swapped, BurnKey, Value;
    if Mutate(p, db, req, seenSpent).db == db {
    } else if req.amount.Some? {
      var change := Value(db, req.ids) - req.amount.value - p.fees.baseFee;
      SwappedShares(db, req.ids, [Output(req.p1.value, req.amount.value), Output(req.p2.value, change)]);
    } else {
      SwappedShares(db, req.ids, [Output(req.p1.value, Value(db, req.ids) + (|req.ids| - 1) * p.fees.baseFee)]);
    }
  }

  lemma TransferShares(p: Policy, db: Db, username: string, amount: int, id: NoteId, derive: Derive)
    requires Free(db, id) ==> ClaimEnds(db, username, derive)
    ensures SharesKept(db, InternalTransfer(p, db, username, amount, id, derive).db)
  {
    hide Swap, BurnKey, ClaimIndex;
    var r := InternalTransfer(p, db, username, amount, id, derive);
    if r.claim.Some? {
      ClaimShares(db, username, derive);
      var claim := ClaimIndex(db, username, derive).value;
      SwapShares(claim.db, [id], [Output(claim.id, amount)], Some(username));
    }
  }

  lemma KeptTracks(a: Db, b: Db, xp: string, username: string, n: nat)
    requires Tracks(a, xp, username, n) && SharesKept(a, b)
    ensures Tracks(b, xp, username, n)
  {
    hide ShareKey;
    TracksKept(a, b, xp, username, n);
  }

  lemma NoteTracks(p: Policy, derive: Derive, w: World, e: Event)
    requires NoteEvent(e) && Enabled(p, derive, w, e)
    ensures SharesKept(w.db, Apply(p, derive, w, e).db)
  {
    hide Mutate, InternalTransfer, SettleMint, CreateMint, NewlySpent, Fees.PayCallbackNet;
    match e
    case RequestInvoice(h, amount, noteId, share) =>
      var w' := Apply(p, derive, w, e);
      if w' != w {
        CreateMintShape(w.db, h, Fees.PayCallbackNet(p.fees, amount).value, noteId, share);
      }
    case Settle(h) => SettleShares(w.db, h, derive);
    case Exchange(req, seenSpent) => MutateShares(p, w.db, req, seenSpent);
    case TransferTo(username, amount, id) => TransferShares(p, w.db, username, amount, id, derive);
  }

  lemma MeltTracks(w: World, id: NoteId, h: Hash, amount: int, pr: string, xp: string, username: string, n: nat)
    requires Tracks(w.db, xp, username, n)
    ensures Tracks(MeltStep(w, id, h, amount, pr).db, xp, username, n)
  {
    MeltShape(w, id, h, amount, pr);
    hide MeltStep, SettleFee, Tracks, BurnError;
    if MeltAccepted(w, id, h, amount) {
      KeptTracks(w.db, MeltStep(w, id, h, amount, pr).db, xp, username, n);
    } else if MeltStep(w, id, h, amount, pr) != w {
      var settled := SettleFee(w.db, h, w.now).db;
      SettleFeeTracks(w.db, h, w.now, xp, username, n);
      KeptTracks(settled, MeltStep(w, id, h, amount, pr).db, xp, username, n);
    }
  }

  lemma OutcomeShares(w: World, ids: seq<NoteId>, h: Hash)
    ensures SharesKept(w.db, Finalized(w, ids, h).db) && Finalized(w, ids, h).tasks == w.tasks
    ensures SharesKept(w.db, GivenUp(w, ids, h).db) && GivenUp(w, ids, h).tasks == w.tasks
  {
    hide CallLive;
  }

  lemma TaskShares(p: Policy, derive: Derive, w: World, e: Event)
    requires TaskEvent(e) && Enabled(p, derive, w, e)
    ensures SharesKept(w.db, Apply(p, derive, w, e).db)
  {
    var task := w.tasks[e.t];
    OutcomeShares(w, [task.id], task.h);
    hide Finalized, GivenUp, Ended, Moved, MayAnswer, SharesKept;
    forall phase ensures Moved(w, e.t, phase).db == w.db && Ended(w, e.t).db == w.db {
      TaskOnly(w, e.t, phase);
    }
    TaskOnly(Finalized(w, [task.id], task.h), e.t, Calling);
    TaskOnly(GivenUp(w, [task.id], task.h), e.t, Calling);
    SharesSame(w.db);
  }

  lemma ResolveShares(w: World, answer: Option<bool>)
    requires w.recon != []
    ensures SharesKept(w.db, ResolveStep(w, answer).db)
  {
    OutcomeShares(Past(w), w.recon[0].ids, w.recon[0].h);
    hide Finalized, GivenUp, Skipped;
  }

  lemma OutsideDb(p: Policy, derive: Derive, w: World, e: Event)
    requires Enabled(p, derive, w, e) && (e.Snapshot? || e.Payer? || e.Source? || e.Tick? || e.Restart?)
    ensures Apply(p, derive, w, e).db == w.db
  {
    hide Skipped, IsSnapshot;
  }

  lemma StepTracks(p: Policy, derive: Derive, w: World, e: Event, xp: string, username: string, n: nat)
    requires Enabled(p, derive, w, e) && Tracks(w.db, xp, username, n)
    ensures Tracks(Apply(p, derive, w, e).db, xp, username, n)
  {
    hide Tracks;
    if NameEvent(e) {
      NameShape(p, derive, w, e);
      hide Apply, Enabled, NameDb;
      if NameDb(w, e).Ok? {
        NameTracks(w, e, xp, username, n);
      }
    } else if NoteEvent(e) {
      hide Apply, Enabled;
      NoteTracks(p, derive, w, e);
      KeptTracks(w.db, Apply(p, derive, w, e).db, xp, username, n);
    } else if TaskEvent(e) {
      hide Apply, Enabled;
      TaskShares(p, derive, w, e);
      KeptTracks(w.db, Apply(p, derive, w, e).db, xp, username, n);
    } else if e.MeltInto? {
      hide MeltStep;
      MeltTracks(w, e.id, e.h, e.amount, e.pr, xp, username, n);
    } else if e.Snapshot? || e.Payer? || e.Source? || e.Tick? || e.Restart? {
      OutsideDb(p, derive, w, e);
    } else if e.Resolve? {
      hide ResolveStep, MayAnswer;
      ResolveShares(w, e.answer);
      KeptTracks(w.db, Apply(p, derive, w, e).db, xp, username, n);
    }
  }

  lemma {:induction false} RunTracks(p: Policy, derive: Derive, w: World, es: seq<Event>, w': World,
                                     xp: string, username: string, n: nat)
    requires Run(p, derive, w, es, w') && Tracks(w.db, xp, username, n)
    ensures Tracks(w'.db, xp, username, n)
    decreases |es|
  {
    hide Tracks, Enabled, Apply;
    if es != [] {
      StepTracks(p, derive, w, es[0], xp, username, n);
      RunTracks(p, derive, Apply(p, derive, w, es[0]), es[1..], w', xp, username, n);
    }
  }

  /** The event credits `username`'s share, with the note `claim` picked. */
  ghost predicate Credits(p: Policy, derive: Derive, w: World, e: Event, username: string, claim: Claim) {
    && Enabled(p, derive, w, e) && username in w.db.users
    && match e
       case Settle(h) =>
         && PicksNote(w.db, h) && w.db.mints[h].username == Some(username)
         && claim == ClaimIndex(w.db, username, derive).value
       case TransferTo(u, amount, id) =>
         && u == username && InternalTransfer(p, w.db, u, amount, id, derive).claim.Some?
         && claim == ClaimIndex(w.db, username, derive).value
       case _ => false
  }

  lemma CreditsShape(p: Policy, derive: Derive, w: World, e: Event, username: string, claim: Claim)
    requires Inv(w.db) && Credits(p, derive, w, e, username, claim)
    ensures ClaimEnds(w.db, username, derive) && claim == ClaimIndex(w.db, username, derive).value
    ensures var w' := Apply(p, derive, w, e); w'.db.users == claim.db.users && claim.id in w'.db.notes
  {
    hide BurnKey, ClaimIndex, ClaimEnds, NewlySpent;
    if e.Settle? {
      CreditedFirst(w.db, e.h, derive);
    } else {
      hide Swap;
      var outs := [Output(claim.id, e.amount)];
      SwapPlaces(claim.db, [e.id], outs, Some(username));
    }
  }

  lemma SwapPlaces(db: Db, ids: seq<NoteId>, outs: seq<Output>, recipient: Option<string>)
    requires |outs| > 0
    ensures var r := Swap(db, ids, outs, recipient); r.Ok? ==> r.value.users == db.users && outs[0].id in r.value.notes
  {
    hide BurnKey;
    if Swap(db, ids, outs, recipient).Ok? {
      SwapOutput(db, ids, outs, recipient, 0);
    }
  }

  /** Two notes credited to one share in the course of a run: the share is still
      the same username's, the second index is strictly above the first, and the
      notes are different. */
  lemma IndicesIncrease(p: Policy, derive: Derive, w: World, e: Event, es: seq<Event>, w': World, e': Event,
                        first: string, claim: Claim, second: string, again: Claim)
    requires Consistent(w) && Credits(p, derive, w, e, first, claim)
    requires Run(p, derive, Apply(p, derive, w, e), es, w') && Credits(p, derive, w', e', second, again)
    requires ShareKey(w'.db.users[second].cx1) == ShareKey(w.db.users[first].cx1)
    ensures second == first && again.index > claim.index && again.id != claim.id
  {
    assert Enabled(p, derive, w, e) && first in w.db.users && second in w'.db.users;
    hide *;
    var w1 := Apply(p, derive, w, e);
    Consistently(w);
    CreditsShape(p, derive, w, e, first, claim);
    ClaimIndexed(w.db, first, derive);
    StepConsistent(p, derive, w, e);
    Consistently(w1);
    RunConsistent(p, derive, w1, es, w');
    Consistently(w');
    CreditsShape(p, derive, w', e', second, again);
    ClaimIndexed(w'.db, second, derive);
    var xp, n := ShareKey(w1.db.users[first].cx1), w1.db.users[first].nextIndex;
    TracksFrom(w1.db, first);
    RunTracks(p, derive, w1, es, w', xp, first, n);
    TrackedOnly(w'.db, xp, first, n, second);
    NoteStays(w1.db, w'.db, claim.id);
  }

  lemma Consistently(w: World)
    requires Consistent(w)
    ensures Inv(w.db) && Owned(w.db, w.now)
  {
  }

  lemma TrackedOnly(db: Db, xp: string, username: string, n: nat, second: string)
    requires Tracks(db, xp, username, n) && second in db.users && ShareKey(db.users[second].cx1) == xp
    ensures second == username && db.users[second].nextIndex >= n
  {
    hide ShareKey;
    assert ClaimKey(db.users, db.fees, Registered(second)) == Some(xp);
  }

  lemma NoteStays(a: Db, b: Db, id: NoteId)
    requires Advances(a, b) && id in a.notes
    ensures id in b.notes
  {
  }

  lemma ClaimIndexed(db: Db, username: string, derive: Derive)
    requires ClaimEnds(db, username, derive) && username in db.users
    ensures var claim := ClaimIndex(db, username, derive).value;
            && claim.index >= db.users[username].nextIndex && !(claim.id in db.notes)
            && claim.db.users == db.users[username := User(db.users[username].cx1, claim.index + 1)]
  {
    var claim := ClaimIndex(db, username, derive).value;
    assert FirstUsable(db, derive, db.users[username].cx1, db.users[username].nextIndex, claim.index);
    hide ClaimIndex;
  }

  /** An id that names a note is never issued again: no later swap, mint request or
      share can name it. */
  lemma IssuedOnce(p: Policy, derive: Derive, w: World, es: seq<Event>, w': World, id: NoteId)
    requires Consistent(w) && Run(p, derive, w, es, w') && id in w.db.notes
    ensures forall ids, outs, recipient | id in OutputIds(outs) :: Swap(w'.db, ids, outs, recipient).Err?
    ensures forall h, amount, share :: CreateMint(w'.db, h, amount, Some(id), share).Err?
    ensures forall h | h in w'.db.mints && !w'.db.mints[h].minted :: w'.db.mints[h].noteId != Some(id)
    ensures forall u | u in w'.db.users && ClaimEnds(w'.db, u, derive) :: ClaimIndex(w'.db, u, derive).value.id != id
  {
    hide Run;
    RunConsistent(p, derive, w, es, w');
    assert InUse(w'.db, id);
    forall ids, outs, recipient | id in OutputIds(outs) ensures Swap(w'.db, ids, outs, recipient).Err? {
      TakenOutput(w'.db, ids, outs, recipient, id);
    }
    hide Swap;
    forall h | h in w'.db.mints && !w'.db.mints[h].minted ensures w'.db.mints[h].noteId != Some(id) {
      InvMintRow(w'.db, h);
    }
  }

  lemma TakenOutput(db: Db, ids: seq<NoteId>, outs: seq<Output>, recipient: Option<string>, id: NoteId)
    requires InUse(db, id) && id in OutputIds(outs)
    ensures Swap(db, ids, outs, recipient).Err?
  {
    hide BurnKey;
    if Swap(db, ids, outs, recipient).Ok? {
      OutputsNew(db, outs, id);
    }
  }
}
