/** The note store: one object, its tables updated row by row, each transaction
    rolled back whole when it raises.  Every method is proved to do exactly what
    the Ledger says of its transaction. */
module Store {
  import opened Wrappers
  import opened BurnKeys
  import opened Ledger
  import opened LedgerInvariant

  // --- Scanning a list ends at the first complaint -------------------------

  lemma {:induction false} BurnErrorStays(db: Db, ids: seq<NoteId>, n: nat)
    requires n <= |ids| && BurnError(db, ids[..n]).Some?
    ensures BurnError(db, ids) == BurnError(db, ids[..n])
    decreases |ids|
  {
    if n < |ids| {
      assert ids[..|ids| - 1][..n] == ids[..n];
      BurnErrorStays(db, ids[..|ids| - 1], n);
    } else {
      assert ids[..n] == ids;
    }
  }

  lemma {:induction false} OutputErrorStays(db: Db, outs: seq<Output>, n: nat)
    requires n <= |outs| && OutputError(db, outs[..n]).Some?
    ensures OutputError(db, outs) == OutputError(db, outs[..n])
    decreases |outs|
  {
    if n < |outs| {
      assert outs[..|outs| - 1][..n] == outs[..n];
      OutputErrorStays(db, outs[..|outs| - 1], n);
    } else {
      assert outs[..n] == outs;
    }
  }

  lemma {:induction false} ReserveErrorStays(db: Db, ids: seq<NoteId>, n: nat)
    requires n <= |ids| && ReserveError(db, ids[..n]).Some?
    ensures ReserveError(db, ids) == ReserveError(db, ids[..n])
    decreases |ids|
  {
    if n < |ids| {
      assert ids[..|ids| - 1][..n] == ids[..n];
      ReserveErrorStays(db, ids[..|ids| - 1], n);
    } else {
      assert ids[..n] == ids;
    }
  }

  lemma BurnErrorNext(db: Db, ids: seq<NoteId>, i: nat)
    requires i < |ids| && BurnError(db, ids[..i]) == None
    ensures BurnError(db, ids[..i + 1]) == if ids[i] in ids[..i] then Some(InvalidNote) else NoteError(db, ids[i])
  {
    assert ids[..i + 1][..i] == ids[..i];
  }

  lemma OutputErrorNext(db: Db, outs: seq<Output>, i: nat)
    requires i < |outs| && OutputError(db, outs[..i]) == None
    ensures OutputError(db, outs[..i + 1])
         == if InUse(db, outs[i].id) || outs[i].id in OutputIds(outs[..i]) then Some(OutputCollision(outs[i].id))
            else None
  {
    assert outs[..i + 1][..i] == outs[..i];
  }

  lemma ReserveErrorNext(db: Db, ids: seq<NoteId>, i: nat)
    requires i < |ids| && ReserveError(db, ids[..i]) == None
    ensures ReserveError(db, ids[..i + 1]) == NoteError(db, ids[i])
  {
    assert ids[..i + 1][..i] == ids[..i];
  }

  lemma OutputIdsNext(outs: seq<Output>, i: nat)
    requires i < |outs|
    ensures OutputIds(outs[..i + 1]) == OutputIds(outs[..i]) + [outs[i].id]
  {
  }

  lemma BurnedNext(notes: map<NoteId, Note>, ids: seq<NoteId>, i: nat)
    requires i < |ids| && ids[i] in notes
    ensures var now := Burned(notes, ids[..i]);
            ids[i] in now && Burned(notes, ids[..i + 1]) == now[ids[i] := now[ids[i]].(spent := true)]
  {
    assert ids[..i + 1] == ids[..i] + [ids[i]];
  }

  lemma CreditedNext(notes: map<NoteId, Note>, outs: seq<Output>, i: nat)
    requires i < |outs|
    ensures Credited(notes, outs[..i + 1]) == Credited(notes, outs[..i])[outs[i].id := Fresh(outs[i].amount)]
  {
    assert outs[..i + 1][..i] == outs[..i];
  }

  lemma FirstUsableUnique(db: Db, derive: Derive, cx1: string, from: nat, i: nat, j: nat)
    requires FirstUsable(db, derive, cx1, from, i) && FirstUsable(db, derive, cx1, from, j)
    ensures i == j
  {
    assert !(i < j) && !(j < i);
  }

  /** What a transaction that answers with nothing but success leaves. */
  ghost predicate Did(before: Db, after: Db, answer: Option<Error>, r: Result<Db, Error>) {
    match r
    case Ok(db) => answer == None && after == db
    case Err(e) => answer == Some(e) && after == before
  }

  class NoteStore {
    var notes: map<NoteId, Note>
    var mints: map<Hash, Mint>
    var melts: map<Hash, Melt>
    var burns: map<string, Burn>
    var users: map<string, User>
    var fees: map<Hash, Fee>
    var accepted: set<string>

    function Tables(): Db
      reads this
    {
      Db(notes, mints, melts, burns, users, fees, accepted)
    }

    constructor ()
      ensures Tables() == EMPTY
    {
      notes, mints, melts, burns, users, fees, accepted := map[], map[], map[], map[], map[], map[], {};
    }

    method RollBack(saved: Db)
      modifies this
      ensures Tables() == saved
    {
      notes, mints, melts, burns := saved.notes, saved.mints, saved.melts, saved.burns;
      users, fees, accepted := saved.users, saved.fees, saved.accepted;
    }

    // --- Minting -----------------------------------------------------------

    method CreateMint(h: Hash, amount: int, noteId: Option<NoteId>, username: Option<string>) returns (e: Option<Error>)
      modifies this`mints
      ensures Did(old(Tables()), Tables(), e, Ledger.CreateMint(old(Tables()), h, amount, noteId, username))
    {
      if noteId.None? == username.None? {
        return Some(BadMint);
      }
      if noteId.Some? && InUse(Tables(), noteId.value) {
        return Some(AlreadyInUse);
      }
      if h in mints {
        return Some(Integrity);
      }
      mints := mints[h := Mint(amount, false, noteId, username)];
      return None;
    }

    method ClaimIndex(username: string, derive: Derive) returns (r: Result<(NoteId, nat), Error>)
      requires ClaimEnds(Tables(), username, derive)
      modifies this`users
      ensures match Ledger.ClaimIndex(old(Tables()), username, derive)
              case Ok(claim) => r == Ok((claim.id, claim.index)) && Tables() == claim.db
              case Err(e) => r == Err(e) && Tables() == old(Tables())
    {
      if username !in users {
        return Err(UnknownUser);
      }
      var cx1, index := users[username].cx1, users[username].nextIndex;
      ghost var from := index;
      ghost var limit: nat :| limit >= from && Usable(Tables(), derive, cx1, limit);
      var id := derive(cx1, index);
      while !(id.Some? && !InUse(Tables(), id.value))
        invariant from <= index <= limit && id == derive(cx1, index)
        invariant forall j: nat | from <= j < index :: !Usable(Tables(), derive, cx1, j)
        decreases limit - index
      {
        index := index + 1;
        id := derive(cx1, index);
      }
      FirstUsableUnique(Tables(), derive, cx1, from, index, Ledger.ClaimIndex(Tables(), username, derive).value.index);
      users := users[username := User(cx1, index + 1)];
      return Ok((id.value, index));
    }

    /** The amount credited, None if there was nothing to credit. */
    method SettleMint(h: Hash, derive: Derive) returns (r: Result<Option<int>, Error>)
      requires SettleEnds(Tables(), h, derive)
      modifies this
      ensures match Ledger.SettleMint(old(Tables()), h, derive)
              case Ok(settled) => r == Ok(settled.credited) && Tables() == settled.db
              case Err(e) => r == Err(e) && Tables() == old(Tables())
    {
      var saved := Tables();
      if h !in mints || mints[h].minted || (mints[h].noteId.None? && mints[h].username.None?) {
        return Ok(None);
      }
      var m := mints[h];
      var noteId := m.noteId;
      if noteId.None? {
        var claimed := ClaimIndex(m.username.value, derive);
        if claimed.Err? {
          return Err(claimed.error);
        }
        noteId := Some(claimed.value.0);
      }
      mints := mints[h := m.(minted := true, noteId := noteId)];
      if noteId.value in notes {
        RollBack(saved);
        return Err(Integrity);
      }
      notes := notes[noteId.value := Fresh(m.amount)];
      return Ok(Some(m.amount));
    }

    // --- Burning and minting -----------------------------------------------

    /** The checks of a swap: what it burns, then what it mints. */
    method CheckBurns(ids: seq<NoteId>) returns (e: Option<Error>)
      ensures e == BurnError(Tables(), ids)
    {
      var seen: set<NoteId> := {};
      for i := 0 to |ids|
        invariant seen == set id | id in ids[..i]
        invariant BurnError(Tables(), ids[..i]) == None
      {
        BurnErrorNext(Tables(), ids, i);
        assert ids[..i + 1] == ids[..i] + [ids[i]];
        e := if ids[i] in seen then Some(InvalidNote) else NoteError(Tables(), ids[i]);
        if e.Some? {
          BurnErrorStays(Tables(), ids, i + 1);
          return;
        }
        seen := seen + {ids[i]};
      }
      assert ids[..|ids|] == ids;
      return None;
    }

    method CheckOutputs(outs: seq<Output>) returns (e: Option<Error>)
      ensures e == OutputError(Tables(), outs)
    {
      var seen: set<NoteId> := {};
      for i := 0 to |outs|
        invariant seen == set id | id in OutputIds(outs[..i])
        invariant OutputError(Tables(), outs[..i]) == None
      {
        OutputErrorNext(Tables(), outs, i);
        OutputIdsNext(outs, i);
        var id := outs[i].id;
        if NamedByMint(mints, id) || id in seen || id in notes {
          OutputErrorStays(Tables(), outs, i + 1);
          return Some(OutputCollision(id));
        }
        seen := seen + {id};
      }
      assert outs[..|outs|] == outs;
      return None;
    }

    method BurnRows(ids: seq<NoteId>)
      requires forall i | 0 <= i < |ids| :: ids[i] in notes
      modifies this`notes
      ensures notes == Burned(old(notes), ids)
    {
      assert Burned(notes, ids[..0]) == notes;
      for i := 0 to |ids|
        invariant notes == Burned(old(notes), ids[..i])
      {
        BurnedNext(old(notes), ids, i);
        notes := notes[ids[i] := notes[ids[i]].(spent := true)];
      }
      assert ids[..|ids|] == ids;
    }

    /** Every row inserted is under a key not taken: the insert cannot fail. */
    method CreditRows(outs: seq<Output>)
      requires NoDuplicates(OutputIds(outs)) && forall i | 0 <= i < |outs| :: outs[i].id !in notes
      modifies this`notes
      ensures notes == Credited(old(notes), outs)
    {
      assert outs[..0] == [];
      for i := 0 to |outs|
        invariant notes == Credited(old(notes), outs[..i])
      {
        OutputFree(old(notes), outs, i);
        assert outs[i].id !in notes;
        CreditedNext(old(notes), outs, i);
        notes := notes[outs[i].id := Fresh(outs[i].amount)];
      }
      assert outs[..|outs|] == outs;
    }

    method SwapLocked(ids: seq<NoteId>, outs: seq<Output>, recipient: Option<string>) returns (e: Option<Error>)
      modifies this
      ensures Did(old(Tables()), Tables(), e, Ledger.Swap(old(Tables()), ids, outs, recipient))
    {
      hide BurnKey, BurnRecord, Burned, Credited, InUse;
      var saved := Tables();
      e := CheckBurns(ids);
      if e.Some? {
        return;
      }
      e := CheckOutputs(outs);
      if e.Some? {
        return;
      }
      BurnRows(ids);
      OutputsFree(saved, ids, outs);
      CreditRows(outs);
      if |outs| == 0 {
        RollBack(saved);
        return Some(NoOutput);
      }
      var key := BurnKey(ids);
      if key in burns {
        RollBack(saved);
        return Some(Integrity);
      }
      burns := burns[key := BurnRecord(outs, recipient)];
      return None;
    }

    method Swap(ids: seq<NoteId>, outs: seq<Output>) returns (e: Option<Error>)
      modifies this
      ensures Did(old(Tables()), Tables(), e, Ledger.Swap(old(Tables()), ids, outs, None))
    {
      e := SwapLocked(ids, outs, None);
    }

    method TransferToUsername(ids: seq<NoteId>, username: string, amount: int, derive: Derive)
      returns (r: Result<NoteId, Error>)
      requires ClaimEnds(Tables(), username, derive)
      modifies this
      ensures match Transfer(old(Tables()), ids, username, amount, derive)
              case Ok(claim) => r == Ok(claim.id) && Tables() == claim.db
              case Err(e) => r == Err(e) && Tables() == old(Tables())
    {
      hide BurnKey, Ledger.ClaimIndex;
      var saved := Tables();
      var claimed := ClaimIndex(username, derive);
      if claimed.Err? {
        return Err(claimed.error);
      }
      var e := SwapLocked(ids, [Output(claimed.value.0, amount)], Some(username));
      if e.Some? {
        RollBack(saved);
        return Err(e.value);
      }
      return Ok(claimed.value.0);
    }

    /** The burn of exactly these notes, whatever order they are named in. */
    method FindBurn(ids: seq<NoteId>) returns (b: Option<Burn>)
      ensures forall others: seq<NoteId> | multiset(others) == multiset(ids) :: b == Ledger.FindBurn(Tables(), others)
    {
      hide BurnKey;
      forall others: seq<NoteId> | multiset(others) == multiset(ids) ensures BurnKey(others) == BurnKey(ids) {
        BurnKeyExact(others, ids);
      }
      var key := BurnKey(ids);
      b := if key in burns then Some(burns[key]) else None;
    }

    // --- Melting -----------------------------------------------------------

    method MarkPending(ids: seq<NoteId>, h: Hash) returns (e: Option<Error>)
      modifies this`notes
      ensures Did(old(Tables()), Tables(), e, Ledger.MarkPending(old(Tables()), ids, h))
    {
      for i := 0 to |ids|
        invariant notes == old(notes) && ReserveError(Tables(), ids[..i]) == None
      {
        ReserveErrorNext(Tables(), ids, i);
        e := NoteError(Tables(), ids[i]);
        if e.Some? {
          ReserveErrorStays(Tables(), ids, i + 1);
          return;
        }
      }
      assert ids[..|ids|] == ids;
      for i := 0 to |ids|
        invariant notes.Keys == old(notes).Keys
        invariant forall id | id in notes ::
                    notes[id] == if id in ids[..i] then old(notes)[id].(pending := true, hash := Some(h))
                                 else old(notes)[id]
      {
        assert Free(old(Tables()), ids[i]);
        notes := notes[ids[i] := notes[ids[i]].(pending := true, hash := Some(h))];
      }
      return None;
    }

    method FinalizeMelt(ids: seq<NoteId>)
      modifies this`notes
      ensures Tables() == Ledger.FinalizeMelt(old(Tables()), ids)
    {
      for i := 0 to |ids|
        invariant notes.Keys == old(notes).Keys
        invariant forall id | id in notes ::
                    notes[id] == if id in ids[..i] then Note(old(notes)[id].amount, true, false, None)
                                 else old(notes)[id]
      {
        if ids[i] in notes {
          notes := notes[ids[i] := notes[ids[i]].(spent := true, pending := false, hash := None)];
        }
      }
    }

    method Restore(ids: seq<NoteId>)
      modifies this`notes
      ensures Tables() == Ledger.Restore(old(Tables()), ids)
    {
      for i := 0 to |ids|
        invariant notes.Keys == old(notes).Keys
        invariant forall id | id in notes ::
                    notes[id] == if id in ids[..i] then old(notes)[id].(pending := false, hash := None)
                                 else old(notes)[id]
      {
        if ids[i] in notes {
          notes := notes[ids[i] := notes[ids[i]].(pending := false, hash := None)];
        }
      }
    }

    /** The reserved notes, partitioned by the payment they are reserved for. */
    method PendingMelts() returns (grouped: map<Hash, seq<NoteId>>)
      ensures forall h | h in grouped :: grouped[h] != [] && NoDuplicates(grouped[h])
      ensures forall id, h :: Reserved(Tables(), id, h) <==> h in grouped && id in grouped[h]
    {
      grouped := map[];
      var todo := notes.Keys;
      while todo != {}
        invariant todo <= notes.Keys
        invariant forall h | h in grouped :: grouped[h] != [] && NoDuplicates(grouped[h])
        invariant forall id, h :: Reserved(Tables(), id, h) && id !in todo <==> h in grouped && id in grouped[h]
        decreases |todo|
      {
        var id :| id in todo;
        todo := todo - {id};
        var n := notes[id];
        if n.pending && !n.spent && n.hash.Some? {
          var h := n.hash.value;
          var group := (if h in grouped then grouped[h] else []) + [id];
          NoDuplicatesLast(group);
          assert group[..|group| - 1] == if h in grouped then grouped[h] else [];
          grouped := grouped[h := group];
        }
      }
    }

    /** A payment on file keeps its row; one that is not gets an unsettled one. */
    method RecordMelt(h: Hash, pr: string)
      modifies this`melts
      ensures h in melts && melts[h] == if h in old(melts) then old(melts)[h] else Melt(pr, false)
      ensures melts.Keys == old(melts).Keys + {h} && forall g | g in melts && g != h :: melts[g] == old(melts)[g]
      ensures Tables() == Ledger.RecordMelt(old(Tables()), h, pr)
    {
      if h !in melts {
        melts := melts[h := Melt(pr, false)];
      }
    }

    /** A payment on file becomes settled and keeps its invoice; one that is not
        stays off. */
    method MarkMeltSettled(h: Hash)
      modifies this`melts
      ensures melts.Keys == old(melts).Keys && forall g | g in melts && g != h :: melts[g] == old(melts)[g]
      ensures h in melts ==> melts[h].settled && melts[h].pr == old(melts)[h].pr
      ensures Tables() == Ledger.MarkMeltSettled(old(Tables()), h)
    {
      if h in melts {
        melts := melts[h := melts[h].(settled := true)];
      }
    }

    // --- Usernames ---------------------------------------------------------

    method AcceptKey(xp: string) returns (ok: bool)
      modifies this`accepted
      ensures ok <==> xp !in old(accepted)
      ensures accepted == old(accepted) + {xp}
    {
      ok := xp !in accepted;
      accepted := accepted + {xp};
    }

    method RegisterUsername(username: string, cx1: string, xp: string, now: int) returns (e: Option<Error>)
      modifies this
      ensures Did(old(Tables()), Tables(), e, Register(old(Tables()), username, cx1, xp, now))
    {
      if Taken(Tables(), username, now) {
        return Some(AlreadyRegistered);
      }
      var unused := AcceptKey(xp);
      if !unused {
        assert accepted == old(accepted);
        return Some(KeyUsed);
      }
      users := users[username := User(cx1, 0)];
      return None;
    }

    method HoldUsername(h: Hash, pr: string, username: string, cx1: string, xp: string, amount: int, expires: int,
                        now: int)
      returns (e: Option<Error>)
      modifies this
      ensures Did(old(Tables()), Tables(), e, Hold(old(Tables()), h, pr, username, cx1, xp, amount, expires, now))
    {
      var saved := Tables();
      if Taken(Tables(), username, now) {
        return Some(AlreadyRegistered);
      }
      var unused := AcceptKey(xp);
      if !unused {
        assert accepted == old(accepted);
        return Some(KeyUsed);
      }
      if h in fees {
        RollBack(saved);
        return Some(Integrity);
      }
      fees := fees[h := Fee(pr, username, cx1, amount, expires, false)];
      return None;
    }

    method SettleAddressFee(h: Hash, now: int) returns (r: Option<(string, bool)>)
      modifies this
      ensures SettleFee(old(Tables()), h, now) == FeeOutcome(Tables(), r)
    {
      if h !in fees || fees[h].paid {
        return None;
      }
      fees := fees[h := fees[h].(paid := true)];
      var username := fees[h].username;
      if Taken(Tables(), username, now) {
        return Some((username, false));
      }
      users := users[username := User(fees[h].cx1, 0)];
      return Some((username, true));
    }

    method PayAddressFeeWithNotes(ids: seq<NoteId>, h: Hash, total: int, now: int) returns (r: Result<string, Error>)
      modifies this
      ensures match PayFeeWithNotes(old(Tables()), ids, h, total, now)
              case Ok((db, username)) => r == Ok(username) && Tables() == db
              case Err(e) => r == Err(e) && Tables() == old(Tables())
    {
      hide SettleFee;
      var saved := Tables();
      if !(h in fees && Live(fees[h], now) && fees[h].amount == total) {
        return Err(NotPayable);
      }
      var e := CheckBurns(ids);
      if e.Some? {
        return Err(e.value);
      }
      SettleFeeShape(saved, h, now);
      var settled := SettleAddressFee(h, now);
      if settled.None? || !settled.value.1 {
        RollBack(saved);
        return Err(AlreadyRegistered);
      }
      BurnRows(ids);
      return Ok(settled.value.0);
    }

    method UpdateUsername(username: string, cx1: string, xp: string) returns (e: Option<Error>)
      modifies this
      ensures Did(old(Tables()), Tables(), e, Update(old(Tables()), username, cx1, xp))
    {
      if username !in users {
        return Some(UnknownUser);
      }
      var unused := AcceptKey(xp);
      if !unused {
        assert accepted == old(accepted);
        return Some(KeyUsed);
      }
      users := users[username := User(cx1, 0)];
      return None;
    }

    method DeleteUsername(username: string)
      modifies this`users
      ensures Tables() == Delete(old(Tables()), username)
    {
      users := users - {username};
    }
  }

  lemma OutputFree(notes: map<NoteId, Note>, outs: seq<Output>, i: nat)
    requires i < |outs| && NoDuplicates(OutputIds(outs)) && outs[i].id !in notes
    ensures outs[i].id !in Credited(notes, outs[..i])
  {
    assert OutputIds(outs[..i]) == OutputIds(outs)[..i];
    assert OutputIds(outs)[i] == outs[i].id;
    CreditedOld(notes, outs[..i], outs[i].id);
  }

  lemma OutputsFree(db: Db, ids: seq<NoteId>, outs: seq<Output>)
    requires NoneInUse(db, outs)
    ensures forall i | 0 <= i < |outs| :: outs[i].id !in Burned(db.notes, ids)
  {
    forall i | 0 <= i < |outs| ensures outs[i].id !in Burned(db.notes, ids) {
      assert !InUse(db, outs[i].id);
    }
  }
}
