/** When each transaction goes through, and everything it changes when it does. */
module LedgerExact {
  import opened Wrappers
  import opened BurnKeys
  import opened Ledger
  import opened LedgerInvariant

  // --- The first complaint -------------------------------------------------

  /** What is wrong with burning or reserving this note: unknown and spent ones are
      invalid, reserved ones pending. */
  predicate Complains(db: Db, id: NoteId, e: Error) {
    if id !in db.notes || db.notes[id].spent then e == InvalidNote else db.notes[id].pending && e == PendingNote
  }

  /** A list to burn is refused for its first bad note: every one before it is free
      and named once. */
  lemma {:induction false} BurnComplaint(db: Db, ids: seq<NoteId>) returns (n: nat)
    requires BurnError(db, ids).Some?
    ensures n < |ids| && NoDuplicates(ids[..n]) && AllFree(db, ids[..n])
    ensures if ids[n] in ids[..n] then BurnError(db, ids) == Some(InvalidNote)
            else Complains(db, ids[n], BurnError(db, ids).value)
    decreases |ids|
  {
    n := |ids| - 1;
    if BurnError(db, ids[..n]).Some? {
      var m := BurnComplaint(db, ids[..n]);
      assert ids[..n][..m] == ids[..m];
      n := m;
    }
  }

  /** So is one to reserve, but for repeats, which pass. */
  lemma {:induction false} ReserveComplaint(db: Db, ids: seq<NoteId>) returns (n: nat)
    requires ReserveError(db, ids).Some?
    ensures n < |ids| && AllFree(db, ids[..n]) && Complains(db, ids[n], ReserveError(db, ids).value)
    decreases |ids|
  {
    n := |ids| - 1;
    if ReserveError(db, ids[..n]).Some? {
      var m := ReserveComplaint(db, ids[..n]);
      assert ids[..n][..m] == ids[..m];
      n := m;
    }
  }

  /** Outputs are refused for the first that is taken or repeated, by name. */
  lemma {:induction false} OutputComplaint(db: Db, outs: seq<Output>) returns (n: nat)
    requires OutputError(db, outs).Some?
    ensures n < |outs| && NoDuplicates(OutputIds(outs[..n])) && NoneInUse(db, outs[..n])
    ensures OutputError(db, outs) == Some(OutputCollision(outs[n].id))
    ensures InUse(db, outs[n].id) || outs[n].id in OutputIds(outs[..n])
    decreases |outs|
  {
    n := |outs| - 1;
    if OutputError(db, outs[..n]).Some? {
      var m := OutputComplaint(db, outs[..n]);
      assert outs[..n][..m] == outs[..m];
      n := m;
    }
  }

  // --- Minting -------------------------------------------------------------

  /** Neither a note nor a mint bears the id. */
  predicate Unused(db: Db, id: NoteId) {
    id !in db.notes && forall g | g in db.mints :: db.mints[g].noteId != Some(id)
  }

  lemma UnusedExact(db: Db, id: NoteId)
    ensures Unused(db, id) <==> !InUse(db, id)
  {
  }

  /** A mint is recorded exactly for a new hash and either an unused id or a
      username, and then as asked and not yet credited. */
  lemma CreateMintExact(db: Db, h: Hash, amount: int, noteId: Option<NoteId>, username: Option<string>)
    ensures var r := CreateMint(db, h, amount, noteId, username);
            && (r.Ok? <==>
                  h !in db.mints && noteId.Some? != username.Some? && (noteId.Some? ==> Unused(db, noteId.value)))
            && (r.Ok? ==> r.value == db.(mints := db.mints[h := Mint(amount, false, noteId, username)]))
  {
    if noteId.Some? {
      UnusedExact(db, noteId.value);
    }
  }

  /** Nothing but the row of `h` and what it credits: one new note, worth the mint's
      amount, under the id the mint named, or else under the least index of the
      username's share that derives an unused id, the index after it persisted. */
  ghost predicate CreditsMint(db: Db, h: Hash, derive: Derive, db': Db, id: NoteId)
    requires h in db.mints
  {
    var m := db.mints[h];
    && db'.mints == db.mints[h := m.(minted := true, noteId := Some(id))]
    && db'.notes == db.notes[id := Note(m.amount, false, false, None)]
    && db'.melts == db.melts && db'.burns == db.burns && db'.fees == db.fees && db'.accepted == db.accepted
    && id !in db.notes
    && if m.noteId.Some? then id == m.noteId.value && db'.users == db.users
       else m.username.Some? && CreditsShare(db, m.username.value, derive, db', id)
  }

  /** The share's next note is `id`, and its index moves past it. */
  ghost predicate CreditsShare(db: Db, username: string, derive: Derive, db': Db, id: NoteId) {
    && username in db.users
    && var u := db.users[username];
       exists i: nat ::
         && u.nextIndex <= i && derive(u.cx1, i) == Some(id) && Unused(db, id)
         && (forall j: nat | u.nextIndex <= j < i :: PassedOver(db, derive(u.cx1, j)))
         && db'.users == db.users[username := User(u.cx1, i + 1)]
  }

  predicate PassedOver(db: Db, id: Option<NoteId>) {
    id.Some? ==> !Unused(db, id.value)
  }

  lemma SettleExact(db: Db, h: Hash, derive: Derive)
    requires Inv(db) && SettleEnds(db, h, derive)
    ensures var r := SettleMint(db, h, derive);
            if h in db.mints && !db.mints[h].minted then
              if db.mints[h].noteId.Some? || db.mints[h].username.value in db.users then
                r.Ok? && exists id :: CreditsMint(db, h, derive, r.value.db, id)
              else r == Err(UnknownUser)
            else r == Ok(Settled(db, None))
  {
    hide BurnsDisjoint, KeysAccepted, LifeCycle;
    if h in db.mints && !db.mints[h].minted {
      assert MintRow(db.notes, db.mints[h]);
      if db.mints[h].noteId.Some? {
        assert CreditsMint(db, h, derive, SettleMint(db, h, derive).value.db, db.mints[h].noteId.value);
      } else if db.mints[h].username.value in db.users {
        var claim := ClaimIndex(db, db.mints[h].username.value, derive).value;
        ClaimCreditsShare(db, db.mints[h].username.value, derive);
        assert CreditsMint(db, h, derive, SettleMint(db, h, derive).value.db, claim.id);
      }
    }
  }

  lemma ClaimCreditsShare(db: Db, username: string, derive: Derive)
    requires ClaimEnds(db, username, derive) && username in db.users
    ensures var claim := ClaimIndex(db, username, derive).value;
            && CreditsShare(db, username, derive, claim.db, claim.id) && Unused(db, claim.id)
            && claim.db == db.(users := claim.db.users)
  {
    var claim := ClaimIndex(db, username, derive).value;
    var u := db.users[username];
    assert FirstUsable(db, derive, u.cx1, u.nextIndex, claim.index);
    UnusedExact(db, claim.id);
    forall j: nat | u.nextIndex <= j < claim.index ensures PassedOver(db, derive(u.cx1, j)) {
      assert !Usable(db, derive, u.cx1, j);
      if derive(u.cx1, j).Some? {
        UnusedExact(db, derive(u.cx1, j).value);
      }
    }
  }

  // --- Burning and minting -------------------------------------------------

  /** The inputs are spent, the outputs are new notes, the burn is on record, and
      nothing else changed. */
  ghost predicate Exchanged(db: Db, ids: seq<NoteId>, outs: seq<Output>, recipient: Option<string>, db': Db)
    requires |outs| >= 1
  {
    && db'.notes.Keys == db.notes.Keys + (set o | o in outs :: o.id)
    && (forall id | id in db.notes :: db'.notes[id] == if id in ids then db.notes[id].(spent := true) else db.notes[id])
    && (forall o | o in outs :: o.id !in db.notes && db'.notes[o.id] == Note(o.amount, false, false, None))
    && db'.burns == db.burns[BurnKey(ids) := BurnRecord(outs, recipient)]
    && db' == db.(notes := db'.notes, burns := db'.burns)
  }

  predicate AllUnused(db: Db, outs: seq<Output>) {
    forall o | o in outs :: Unused(db, o.id)
  }

  /** A swap goes through exactly for distinct free notes and distinct unused
      outputs. */
  lemma SwapExact(db: Db, ids: seq<NoteId>, outs: seq<Output>, recipient: Option<string>)
    requires Inv(db) && |ids| >= 1 && |outs| >= 1
    ensures var r := Swap(db, ids, outs, recipient);
            && (r.Ok? <==>
                  NoDuplicates(ids) && AllFree(db, ids) && NoDuplicates(OutputIds(outs)) && AllUnused(db, outs))
            && (r.Ok? ==> Exchanged(db, ids, outs, recipient, r.value))
  {
    NoneUsed(db, outs);
    if BurnError(db, ids) == None && OutputError(db, outs) == None {
      SwapNeverCollides(db, ids, outs, recipient);
      SwapDoes(db, ids, outs, recipient);
    }
    hide BurnKey, Exchanged, Inv, AllFree, NoDuplicates;
  }

  lemma NoneUsed(db: Db, outs: seq<Output>)
    ensures NoneInUse(db, outs) <==> AllUnused(db, outs)
  {
    hide InUse, Unused;
    forall o | o in outs ensures Unused(db, o.id) <==> !InUse(db, o.id) {
      UnusedExact(db, o.id);
    }
    if NoneInUse(db, outs) {
      forall o | o in outs ensures Unused(db, o.id) {
        var i :| 0 <= i < |outs| && outs[i] == o;
      }
    }
  }

  lemma SwapDoes(db: Db, ids: seq<NoteId>, outs: seq<Output>, recipient: Option<string>)
    requires Swap(db, ids, outs, recipient).Ok? && |outs| >= 1
    ensures Exchanged(db, ids, outs, recipient, Swap(db, ids, outs, recipient).value)
  {
    hide BurnKey, Burned, Credited;
    var notes := Swap(db, ids, outs, recipient).value.notes;
    forall o | o in outs
      ensures o.id !in db.notes && o.id in notes && notes[o.id] == Note(o.amount, false, false, None)
    {
      var i :| 0 <= i < |outs| && outs[i] == o;
      SwapOutput(db, ids, outs, recipient, i);
    }
    forall id: NoteId
      ensures id in notes <==> id in db.notes || id in OutputIds(outs)
      ensures id in db.notes ==> notes[id] == if id in ids then db.notes[id].(spent := true) else db.notes[id]
    {
      SwapNotes(db, ids, outs, recipient, id);
    }
    forall id: NoteId ensures id in OutputIds(outs) <==> id in (set o | o in outs :: o.id) {
    }
  }

  lemma OneFree(db: Db, id: NoteId)
    ensures NoDuplicates([id]) && (AllFree(db, [id]) <==> Free(db, id))
  {
    assert [id][0] == id;
  }

  // --- Melting -------------------------------------------------------------

  /** A free note can be reserved, and then that and the melt's unsettled row are all
      that changes. */
  lemma ReserveExact(db: Db, id: NoteId, h: Hash, pr: string)
    ensures var r := MarkPending(db, [id], h);
            && (r.Ok? <==> Free(db, id))
            && (r.Ok? && h !in db.melts ==>
                  RecordMelt(r.value, h, pr)
                  == db.(notes := db.notes[id := Note(db.notes[id].amount, false, true, Some(h))],
                         melts := db.melts[h := Melt(pr, false)]))
  {
    OneFree(db, id);
    assert id in [id];
    if Free(db, id) {
      assert MarkPending(db, [id], h).value.notes == db.notes[id := Note(db.notes[id].amount, false, true, Some(h))];
    }
  }

  /** Burning and releasing notes that are all one note. */
  lemma OutcomeExact(db: Db, ids: seq<NoteId>, id: NoteId, h: Hash)
    requires id in ids && id in db.notes && h in db.melts && forall i | i in ids :: i == id
    ensures MarkMeltSettled(FinalizeMelt(db, ids), h)
         == db.(notes := db.notes[id := Note(db.notes[id].amount, true, false, None)],
                melts := db.melts[h := Melt(db.melts[h].pr, true)])
    ensures Restore(db, ids) == db.(notes := db.notes[id := Note(db.notes[id].amount, db.notes[id].spent, false, None)])
  {
    assert FinalizeMelt(db, ids).notes == db.notes[id := Note(db.notes[id].amount, true, false, None)];
    assert Restore(db, ids).notes == db.notes[id := Note(db.notes[id].amount, db.notes[id].spent, false, None)];
  }

  // --- Usernames -----------------------------------------------------------

  /** Nobody has the name, and every fee invoice for it, `but` aside, is paid or has
      expired. */
  predicate Vacant(db: Db, username: string, now: int, but: Option<Hash>) {
    && username !in db.users
    && forall h | h in db.fees && db.fees[h].username == username ::
         Some(h) == but || db.fees[h].paid || db.fees[h].expires <= now
  }

  lemma VacantExact(db: Db, username: string, now: int)
    ensures Vacant(db, username, now, None) <==> !Taken(db, username, now)
  {
  }

  /** A name is registered exactly if it is vacant and the share key new. */
  lemma RegisterExact(db: Db, username: string, cx1: string, xp: string, now: int)
    ensures Register(db, username, cx1, xp, now) ==
            if !Vacant(db, username, now, None) then Err(AlreadyRegistered)
            else if xp in db.accepted then Err(KeyUsed)
            else Ok(db.(users := db.users[username := User(cx1, 0)], accepted := db.accepted + {xp}))
  {
    VacantExact(db, username, now);
    hide Vacant, Taken;
  }

  /** So is it held, under a new hash; until the invoice expires nobody else can
      register or hold it, and from then on it is as vacant as before. */
  lemma HoldExact(db: Db, h: Hash, pr: string, username: string, cx1: string, xp: string, amount: int, expires: int,
                  now: int, later: int)
    requires now <= later
    ensures var r := Hold(db, h, pr, username, cx1, xp, amount, expires, now);
            && (r.Ok? <==> Vacant(db, username, now, None) && xp !in db.accepted && h !in db.fees)
            && (r.Ok? ==>
                  && r.value == db.(fees := db.fees[h := Fee(pr, username, cx1, amount, expires, false)],
                                    accepted := db.accepted + {xp})
                  && (Vacant(r.value, username, later, None) <==> expires <= later))
  {
    VacantExact(db, username, now);
    hide Taken;
    if Hold(db, h, pr, username, cx1, xp, amount, expires, now).Ok? {
      var fees := db.fees[h := Fee(pr, username, cx1, amount, expires, false)];
      assert h in fees && fees[h].username == username;
    }
  }

  lemma UpdateExact(db: Db, username: string, cx1: string, xp: string)
    ensures Update(db, username, cx1, xp) ==
            if username !in db.users then Err(UnknownUser)
            else if xp in db.accepted then Err(KeyUsed)
            else Ok(db.(users := db.users[username := User(cx1, 0)], accepted := db.accepted + {xp}))
  {
  }

  /** A payment for a fee registers the name exactly if it is still vacant, however
      late; it marks the fee as paid either way, and a second one does nothing. */
  lemma SettleFeeExact(db: Db, h: Hash, now: int)
    ensures var r := SettleFee(db, h, now);
            if h in db.fees && !db.fees[h].paid then
              var f := db.fees[h];
              var vacant := Vacant(db, f.username, now, Some(h));
              && r.outcome == Some((f.username, vacant))
              && r.db == db.(fees := db.fees[h := f.(paid := true)],
                             users := if vacant then db.users[f.username := User(f.cx1, 0)] else db.users)
            else r == FeeOutcome(db, None)
  {
    if h in db.fees && !db.fees[h].paid {
      var f := db.fees[h];
      var paid := db.(fees := db.fees[h := f.(paid := true)]);
      VacantExact(paid, f.username, now);
      VacantBut(db, h, now);
      hide Vacant, Taken;
    }
  }

  lemma VacantBut(db: Db, h: Hash, now: int)
    requires h in db.fees
    ensures var f := db.fees[h];
            Vacant(db.(fees := db.fees[h := f.(paid := true)]), f.username, now, None)
            <==> Vacant(db, f.username, now, Some(h))
  {
    var f := db.fees[h];
    var fees := db.fees[h := f.(paid := true)];
    forall g | g in db.fees && g != h ensures g in fees && fees[g] == db.fees[g] {
    }
  }

  /** Paying a fee with notes goes through exactly for distinct free notes and an
      unpaid, unexpired invoice for just their total, its name vacant; then the notes
      are spent, the fee is paid and the name registered. */
  lemma PayFeeDoes(db: Db, ids: seq<NoteId>, h: Hash, total: int, now: int)
    ensures var r := PayFeeWithNotes(db, ids, h, total, now);
            && (r.Ok? <==>
                  && h in db.fees && !db.fees[h].paid && now < db.fees[h].expires && db.fees[h].amount == total
                  && NoDuplicates(ids) && AllFree(db, ids) && Vacant(db, db.fees[h].username, now, Some(h)))
            && (r.Ok? ==>
                  var f, db' := db.fees[h], r.value.0;
                  && r.value.1 == f.username && db'.notes.Keys == db.notes.Keys
                  && (forall id | id in db.notes ::
                        db'.notes[id] == if id in ids then db.notes[id].(spent := true) else db.notes[id])
                  && db' == db.(notes := db'.notes, fees := db.fees[h := f.(paid := true)],
                                users := db.users[f.username := User(f.cx1, 0)]))
  {
    SettleFeeExact(db, h, now);
    hide SettleFee, Vacant;
  }

  // --- Share keys ----------------------------------------------------------

  /** A share is known by its key alone: the chain code and the parity beside it, on
      either side of it, make no difference. */
  lemma ShareKeyExact(chain: string, parity: string, x: string)
    requires |chain| == 64 && |parity| == 2 && |x| == 64
    ensures ShareKey(chain + (parity + x)) == x && ShareKey(x + chain) == x
  {
    assert (chain + (parity + x))[66..] == x;
    assert (x + chain)[..64] == x;
  }
}
