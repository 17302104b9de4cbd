/** What every transaction keeps true of the tables, and what it never undoes. */
module LedgerInvariant {
  import opened Wrappers
  import opened BurnKeys
  import opened Ledger

  // --- The invariant, table by table ---------------------------------------

  /** A spent note is not reserved, and a note is reserved exactly while it
      records the payment it is reserved for. */
  predicate LifeCycle(notes: map<NoteId, Note>) {
    forall id | id in notes :: Stage(notes[id])
  }

  predicate Stage(n: Note) {
    !(n.spent && n.pending) && (n.pending <==> n.hash.Some?)
  }

  /** No two mints name one note; an unminted mint's note does not exist yet, a
      minted one's does. */
  predicate MintsDistinct(notes: map<NoteId, Note>, mints: map<Hash, Mint>) {
    && (forall g, h | g in mints && h in mints && g != h && mints[g].noteId.Some? :: mints[g].noteId != mints[h].noteId)
    && (forall h | h in mints :: MintRow(notes, mints[h]))
  }

  predicate MintRow(notes: map<NoteId, Note>, m: Mint) {
    if m.minted then m.noteId.Some? && m.noteId.value in notes
    else (m.noteId.None? != m.username.None?) && (m.noteId.Some? ==> m.noteId.value !in notes)
  }

  /** The note `id` was minted with this amount. */
  predicate Holds(notes: map<NoteId, Note>, id: NoteId, amount: int) {
    id in notes && notes[id].amount == amount
  }

  predicate Spent(notes: map<NoteId, Note>, id: string) {
    id in notes && notes[id].spent
  }

  /** Recorded burns share no input, every input is spent, and every output is on
      file under the amount recorded for it. */
  predicate BurnsDisjoint(notes: map<NoteId, Note>, burns: map<string, Burn>) {
    && (forall k, id | k in burns && id in KeyIds(k) :: Spent(notes, id))
    && (forall j, k | j in burns && k in burns && j != k :: KeyIds(j) !! KeyIds(k))
    && (forall k | k in burns :: BurnRow(notes, burns[k]))
  }

  predicate BurnRow(notes: map<NoteId, Note>, b: Burn) {
    && Holds(notes, b.id, b.amount)
    && b.id2.Some? == b.amount2.Some?
    && (b.id2.Some? ==> Holds(notes, b.id2.value, b.amount2.value))
  }

  /** A share that is registered, or will be once its fee is paid. */
  datatype Claimant = Registered(username: string) | Unpaid(h: Hash)

  /** The share key a claimant holds, if it holds one. */
  function ClaimKey(users: map<string, User>, fees: map<Hash, Fee>, c: Claimant): Option<string> {
    match c
    case Registered(u) => if u in users then Some(ShareKey(users[u].cx1)) else None
    case Unpaid(h) => if h in fees && !fees[h].paid then Some(ShareKey(fees[h].cx1)) else None
  }

  /** Every share on file or ever held is accepted, and no two claims share a key. */
  ghost predicate KeysAccepted(users: map<string, User>, fees: map<Hash, Fee>, accepted: set<string>) {
    && (forall u | u in users :: ShareKey(users[u].cx1) in accepted)
    && (forall h | h in fees :: ShareKey(fees[h].cx1) in accepted)
    && (forall c, d | c != d && ClaimKey(users, fees, c).Some? :: ClaimKey(users, fees, c) != ClaimKey(users, fees, d))
  }

  /** Nobody else has or holds the username of a fee invoice that can be paid. */
  predicate OneOwner(users: map<string, User>, fees: map<Hash, Fee>, now: int) {
    forall h | h in fees && Live(fees[h], now) ::
      && fees[h].username !in users
      && forall g | g in fees && g != h :: !HeldBy(fees, g, fees[h].username, now)
  }

  ghost predicate Inv(db: Db) {
    && LifeCycle(db.notes)
    && MintsDistinct(db.notes, db.mints)
    && BurnsDisjoint(db.notes, db.burns)
    && KeysAccepted(db.users, db.fees, db.accepted)
  }

  predicate Owned(db: Db, now: int) { OneOwner(db.users, db.fees, now) }

  // --- What is never undone ------------------------------------------------

  predicate NotesAdvance(a: map<NoteId, Note>, b: map<NoteId, Note>) {
    forall id | id in a :: id in b && b[id].amount == a[id].amount && (a[id].spent ==> b[id].spent)
  }

  predicate MintsAdvance(a: map<Hash, Mint>, b: map<Hash, Mint>) {
    forall h | h in a ::
      && h in b && b[h].amount == a[h].amount && b[h].username == a[h].username
      && (a[h].minted ==> b[h].minted) && (a[h].noteId.Some? ==> b[h].noteId == a[h].noteId)
  }

  predicate BurnsAdvance(a: map<string, Burn>, b: map<string, Burn>) {
    forall k | k in a :: k in b && b[k] == a[k]
  }

  predicate MeltsAdvance(a: map<Hash, Melt>, b: map<Hash, Melt>) {
    forall h | h in a :: h in b && b[h].pr == a[h].pr && (a[h].settled ==> b[h].settled)
  }

  predicate FeesAdvance(a: map<Hash, Fee>, b: map<Hash, Fee>) {
    forall h | h in a :: h in b && b[h].(paid := a[h].paid) == a[h] && (a[h].paid ==> b[h].paid)
  }

  /** Later tables remember everything earlier ones recorded: amounts, burns and
      mints stay, and nothing spent, minted, settled, paid or accepted reverts. */
  predicate Advances(a: Db, b: Db) {
    && NotesAdvance(a.notes, b.notes)
    && MintsAdvance(a.mints, b.mints)
    && BurnsAdvance(a.burns, b.burns)
    && MeltsAdvance(a.melts, b.melts)
    && FeesAdvance(a.fees, b.fees)
    && a.accepted <= b.accepted
  }

  lemma AdvancesTransitive(a: Db, b: Db, c: Db)
    requires Advances(a, b) && Advances(b, c)
    ensures Advances(a, c)
  {
  }

  // --- How the note tables constrain each other ----------------------------

  /** New notes are harmless to the mints as long as no mint names them. */
  lemma MintsKeep(notes: map<NoteId, Note>, notes': map<NoteId, Note>, mints: map<Hash, Mint>)
    requires MintsDistinct(notes, mints) && notes.Keys <= notes'.Keys
    requires forall id | id in notes' && id !in notes :: !NamedByMint(mints, id)
    ensures MintsDistinct(notes', mints)
  {
    forall h | h in mints ensures MintRow(notes', mints[h]) {
      assert MintRow(notes, mints[h]);
      if mints[h].noteId.Some? {
        assert NamedByMint(mints, mints[h].noteId.value);
      }
    }
  }

  lemma BurnsKeep(notes: map<NoteId, Note>, notes': map<NoteId, Note>, burns: map<string, Burn>)
    requires BurnsDisjoint(notes, burns) && NotesAdvance(notes, notes')
    ensures BurnsDisjoint(notes', burns)
  {
    hide KeyIds;
    forall k | k in burns ensures BurnRow(notes', burns[k]) {
      assert BurnRow(notes, burns[k]);
    }
    forall k, id | k in burns && id in KeyIds(k) ensures Spent(notes', id) {
      assert Spent(notes, id);
    }
  }

  /** Rewriting notes in place, keeping amounts and never unspending, keeps the
      whole invariant once the life cycle is respected. */
  lemma InPlaceKeeps(db: Db, notes: map<NoteId, Note>)
    requires Inv(db) && notes.Keys == db.notes.Keys && NotesAdvance(db.notes, notes) && LifeCycle(notes)
    ensures Inv(db.(notes := notes)) && Advances(db, db.(notes := notes))
  {
    hide KeysAccepted;
    MintsKeep(db.notes, notes, db.mints);
    BurnsKeep(db.notes, notes, db.burns);
  }

  // --- Minting -------------------------------------------------------------

  lemma CreateMintKeeps(db: Db, h: Hash, amount: int, noteId: Option<NoteId>, username: Option<string>)
    requires Inv(db) && CreateMint(db, h, amount, noteId, username).Ok?
    ensures var db' := CreateMint(db, h, amount, noteId, username).value; Inv(db') && Advances(db, db')
  {
    hide KeysAccepted, BurnsDisjoint;
    var mints := CreateMint(db, h, amount, noteId, username).value.mints;
    forall g | g in mints ensures MintRow(db.notes, mints[g]) {
      assert g in db.mints ==> MintRow(db.notes, db.mints[g]);
    }
    forall g | g in db.mints && db.mints[g].noteId.Some? ensures NamedByMint(db.mints, db.mints[g].noteId.value) {
    }
  }

  lemma ClaimKeeps(db: Db, username: string, derive: Derive)
    requires Inv(db) && ClaimEnds(db, username, derive) && username in db.users
    ensures var claim := ClaimIndex(db, username, derive).value;
            && Inv(claim.db) && Advances(db, claim.db) && !InUse(claim.db, claim.id)
  {
    hide MintsDistinct, BurnsDisjoint, LifeCycle, ShareKey;
    var claim := ClaimIndex(db, username, derive).value;
    ReindexKeeps(db.users, db.fees, db.accepted, username, claim.index + 1);
  }

  lemma ReindexKeeps(users: map<string, User>, fees: map<Hash, Fee>, accepted: set<string>, username: string, next: nat)
    requires KeysAccepted(users, fees, accepted) && username in users
    ensures KeysAccepted(users[username := User(users[username].cx1, next)], fees, accepted)
  {
    hide ShareKey;
    var users' := users[username := User(users[username].cx1, next)];
    assert forall c :: ClaimKey(users', fees, c) == ClaimKey(users, fees, c);
  }

  lemma CreditKeeps(db: Db, h: Hash, id: NoteId)
    requires Inv(db) && h in db.mints && !db.mints[h].minted
    requires if db.mints[h].noteId.Some? then db.mints[h].noteId.value == id else !InUse(db, id)
    ensures CreditMint(db, h, id).Ok?
    ensures var db' := CreditMint(db, h, id).value.db; Inv(db') && Advances(db, db')
  {
    hide KeysAccepted, BurnsDisjoint, MintsDistinct;
    assert MintRow(db.notes, db.mints[h]) by { InvMintRow(db, h); }
    var db' := CreditMint(db, h, id).value.db;
    BurnsKeep(db.notes, db'.notes, db.burns);
    CreditMints(db, h, id);
  }

  lemma InvMintRow(db: Db, h: Hash)
    requires Inv(db) && h in db.mints
    ensures MintRow(db.notes, db.mints[h])
  {
  }

  lemma CreditMints(db: Db, h: Hash, id: NoteId)
    requires MintsDistinct(db.notes, db.mints) && h in db.mints && CreditMint(db, h, id).Ok?
    requires if db.mints[h].noteId.Some? then db.mints[h].noteId.value == id else !InUse(db, id)
    ensures var db' := CreditMint(db, h, id).value.db; MintsDistinct(db'.notes, db'.mints)
  {
    var db' := CreditMint(db, h, id).value.db;
    forall g | g in db.mints && db.mints[g].noteId == Some(id) ensures g == h {
      assert NamedByMint(db.mints, id);
    }
    forall g | g in db'.mints ensures MintRow(db'.notes, db'.mints[g]) {
      assert MintRow(db.notes, db.mints[g]);
    }
  }

  /** A mint whose invoice is paid can be credited: settling it is refused only
      while it is for a username that is not registered. */
  lemma SettleKeeps(db: Db, h: Hash, derive: Derive)
    requires Inv(db) && SettleEnds(db, h, derive)
    ensures var r := SettleMint(db, h, derive);
            && (r.Err? <==> PicksNote(db, h) && db.mints[h].username.value !in db.users)
            && (r.Ok? ==> Inv(r.value.db) && Advances(db, r.value.db))
  {
    if h in db.mints && !db.mints[h].minted {
      assert MintRow(db.notes, db.mints[h]);
      hide Inv, Advances, CreditMint;
      if db.mints[h].noteId.Some? {
        CreditKeeps(db, h, db.mints[h].noteId.value);
      } else if db.mints[h].username.value in db.users {
        var username := db.mints[h].username.value;
        ClaimKeeps(db, username, derive);
        var claim := ClaimIndex(db, username, derive).value;
        CreditKeeps(claim.db, h, claim.id);
        AdvancesTransitive(db, claim.db, CreditMint(claim.db, h, claim.id).value.db);
      }
    }
  }

  /** The first settlement of an unminted mint adds one note, worth the mint's
      amount, under the mint's id or the share's least unused one. */
  lemma CreditedFirst(db: Db, h: Hash, derive: Derive)
    requires Inv(db) && h in db.mints && !db.mints[h].minted
    requires SettleEnds(db, h, derive) && SettleMint(db, h, derive).Ok?
    ensures var db' := SettleMint(db, h, derive).value.db;
            && SettleMint(db, h, derive).value.credited == Some(db.mints[h].amount)
            && h in db'.mints && db'.mints[h].minted && db'.mints[h].noteId.Some?
            && db'.notes == db.notes[db'.mints[h].noteId.value := Fresh(db.mints[h].amount)]
            && db'.mints[h].noteId.value !in db.notes
            && (db.mints[h].noteId.Some? ==> db'.mints[h].noteId == db.mints[h].noteId)
  {
    hide KeysAccepted, BurnsDisjoint, LifeCycle;
    assert MintRow(db.notes, db.mints[h]);
  }

  /** From then on, however the tables advance, settling it again is a no-op: any
      number of concurrent resolvers credits one note. */
  lemma CreditedOnce(db: Db, h: Hash, derive: Derive, later: Db)
    requires h in db.mints && db.mints[h].minted && Advances(db, later)
    ensures SettleEnds(later, h, derive) && SettleMint(later, h, derive) == Ok(Settled(later, None))
  {
  }

  // --- Burning and minting -------------------------------------------------

  lemma CreditedOld(notes: map<NoteId, Note>, outs: seq<Output>, id: NoteId)
    requires id !in OutputIds(outs)
    ensures id in Credited(notes, outs) <==> id in notes
    ensures id in notes ==> Credited(notes, outs)[id] == notes[id]
    decreases |outs|
  {
    if |outs| > 0 {
      var n := |outs| - 1;
      assert OutputIds(outs)[..n] == OutputIds(outs[..n]);
      assert OutputIds(outs)[n] == outs[n].id;
      assert forall i | 0 <= i < n :: OutputIds(outs[..n])[i] == OutputIds(outs)[i];
      CreditedOld(notes, outs[..n], id);
    }
  }

  lemma {:induction false} CreditedNew(notes: map<NoteId, Note>, outs: seq<Output>, i: nat)
    requires NoDuplicates(OutputIds(outs)) && i < |outs|
    ensures outs[i].id in Credited(notes, outs) && Credited(notes, outs)[outs[i].id] == Fresh(outs[i].amount)
    decreases |outs|
  {
    var n := |outs| - 1;
    if i < n {
      hide NoDuplicates;
      DistinctOutputs(outs, i, n);
      CreditedNew(notes, outs[..n], i);
    }
  }

  lemma DistinctOutputs(outs: seq<Output>, i: nat, j: nat)
    requires NoDuplicates(OutputIds(outs)) && i < j < |outs|
    ensures outs[i].id != outs[j].id && NoDuplicates(OutputIds(outs[..j]))
  {
    assert OutputIds(outs)[i] == outs[i].id && OutputIds(outs)[j] == outs[j].id;
    assert OutputIds(outs)[..j] == OutputIds(outs[..j]);
    assert forall k | 0 <= k < j :: OutputIds(outs[..j])[k] == OutputIds(outs)[k];
  }

  lemma OutputsNew(db: Db, outs: seq<Output>, id: NoteId)
    requires NoneInUse(db, outs)
    ensures id in OutputIds(outs) ==> !InUse(db, id)
  {
    forall i | 0 <= i < |outs| ensures !InUse(db, OutputIds(outs)[i]) {
      assert OutputIds(outs)[i] == outs[i].id;
    }
  }

  /** What the notes table holds after a swap, note by note. */
  lemma SwapNotes(db: Db, ids: seq<NoteId>, outs: seq<Output>, recipient: Option<string>, id: NoteId)
    requires Swap(db, ids, outs, recipient).Ok?
    ensures var notes := Swap(db, ids, outs, recipient).value.notes;
            && (id in notes <==> id in db.notes || id in OutputIds(outs))
            && (id in OutputIds(outs) ==> !InUse(db, id))
            && (id in db.notes ==> notes[id] == if id in ids then db.notes[id].(spent := true) else db.notes[id])
  {
    hide BurnKey;
    OutputsNew(db, outs, id);
    if id !in OutputIds(outs) {
      CreditedOld(Burned(db.notes, ids), outs, id);
    } else {
      var i :| 0 <= i < |outs| && OutputIds(outs)[i] == id;
      CreditedNew(Burned(db.notes, ids), outs, i);
    }
  }

  lemma SwapOutput(db: Db, ids: seq<NoteId>, outs: seq<Output>, recipient: Option<string>, i: nat)
    requires Swap(db, ids, outs, recipient).Ok? && i < |outs|
    ensures var notes := Swap(db, ids, outs, recipient).value.notes;
            && outs[i].id !in db.notes && outs[i].id in notes && notes[outs[i].id] == Fresh(outs[i].amount)
            && outs[i].id in OutputIds(outs)
  {
    hide BurnKey;
    assert OutputIds(outs)[i] == outs[i].id;
    OutputsNew(db, outs, outs[i].id);
    CreditedNew(Burned(db.notes, ids), outs, i);
  }

  lemma FreeInputs(db: Db, ids: seq<NoteId>, id: NoteId)
    requires AllFree(db, ids)
    ensures id in ids ==> Free(db, id)
  {
  }

  /** Notes that are still free were never burned before, so their key is new. */
  lemma FreeKeyIsNew(db: Db, ids: seq<NoteId>)
    requires BurnsDisjoint(db.notes, db.burns) && AllFree(db, ids) && |ids| > 0
    ensures BurnKey(ids) !in db.burns
  {
    hide KeyIds, BurnKey, BurnsDisjoint;
    KeyIdsOf(ids);
    assert ids[0] in KeyIds(BurnKey(ids));
    BurnedInput(db, BurnKey(ids), ids[0]);
    FreeInputs(db, ids, ids[0]);
  }

  lemma BurnedInput(db: Db, k: string, id: NoteId)
    requires BurnsDisjoint(db.notes, db.burns)
    ensures k in db.burns && id in KeyIds(k) ==> Spent(db.notes, id)
  {
  }

  /** Once a swap's checks pass, none of its inserts can meet a taken key, unless
      it burns nothing at all and such a burn is already on record. */
  lemma {:induction false} SwapNeverCollides(db: Db, ids: seq<NoteId>, outs: seq<Output>, recipient: Option<string>)
    requires Inv(db) && BurnError(db, ids) == None && OutputError(db, outs) == None && |outs| >= 1
    ensures Swap(db, ids, outs, recipient).Ok? <==> !(ids == [] && BurnKey([]) in db.burns)
    ensures forall i | 0 <= i < |outs| :: outs[i].id !in db.notes
  {
    hide BurnKey;
    if |ids| > 0 {
      FreeKeyIsNew(db, ids);
    }
  }

  lemma SwapKeeps(db: Db, ids: seq<NoteId>, outs: seq<Output>, recipient: Option<string>)
    requires Inv(db) && Swap(db, ids, outs, recipient).Ok?
    ensures var db' := Swap(db, ids, outs, recipient).value; Inv(db') && Advances(db, db')
  {
    hide KeysAccepted, BurnKey, Credited, Burned, KeyIds, BurnsDisjoint, LifeCycle, MintsDistinct;
    SwapAdvances(db, ids, outs, recipient);
    SwapKeepsLifeCycle(db, ids, outs, recipient);
    SwapKeepsMints(db, ids, outs, recipient);
    SwapKeepsBurns(db, ids, outs, recipient);
  }

  lemma SwapAdvances(db: Db, ids: seq<NoteId>, outs: seq<Output>, recipient: Option<string>)
    requires Swap(db, ids, outs, recipient).Ok? && BurnsDisjoint(db.notes, db.burns)
    ensures Advances(db, Swap(db, ids, outs, recipient).value)
  {
    hide BurnKey, Credited, Burned, KeyIds, BurnsDisjoint;
    var db' := Swap(db, ids, outs, recipient).value;
    forall id | id in db.notes
      ensures id in db'.notes && (db'.notes[id] == db.notes[id] || db'.notes[id] == db.notes[id].(spent := true))
    {
      SwapNotes(db, ids, outs, recipient, id);
    }
  }

  lemma SwapKeepsLifeCycle(db: Db, ids: seq<NoteId>, outs: seq<Output>, recipient: Option<string>)
    requires LifeCycle(db.notes) && Swap(db, ids, outs, recipient).Ok?
    ensures LifeCycle(Swap(db, ids, outs, recipient).value.notes)
  {
    hide BurnKey, Credited, Burned;
    var notes := Swap(db, ids, outs, recipient).value.notes;
    forall id | id in notes ensures Stage(notes[id]) {
      SwapNotes(db, ids, outs, recipient, id);
      if id in db.notes {
        FreeInputs(db, ids, id);
        assert Stage(db.notes[id]);
      } else {
        var i :| 0 <= i < |outs| && OutputIds(outs)[i] == id;
        SwapOutput(db, ids, outs, recipient, i);
      }
    }
  }

  lemma SwapKeepsMints(db: Db, ids: seq<NoteId>, outs: seq<Output>, recipient: Option<string>)
    requires MintsDistinct(db.notes, db.mints) && Swap(db, ids, outs, recipient).Ok?
    ensures MintsDistinct(Swap(db, ids, outs, recipient).value.notes, db.mints)
  {
    hide BurnKey, Credited, Burned, MintsDistinct;
    var notes := Swap(db, ids, outs, recipient).value.notes;
    forall id: NoteId
      ensures (id in db.notes ==> id in notes) && (id in notes && id !in db.notes ==> !NamedByMint(db.mints, id))
    {
      SwapNotes(db, ids, outs, recipient, id);
    }
    MintsKeep(db.notes, notes, db.mints);
  }

  lemma SwapKeepsBurns(db: Db, ids: seq<NoteId>, outs: seq<Output>, recipient: Option<string>)
    requires BurnsDisjoint(db.notes, db.burns) && Swap(db, ids, outs, recipient).Ok?
    ensures var db' := Swap(db, ids, outs, recipient).value; BurnsDisjoint(db'.notes, db'.burns)
  {
    hide BurnKey, Credited, Burned, KeyIds;
    var db' := Swap(db, ids, outs, recipient).value;
    var key := BurnKey(ids);
    KeyIdsOf(ids);
    SwapAdvances(db, ids, outs, recipient);
    BurnsKeep(db.notes, db'.notes, db.burns);
    forall id | id in ids ensures Spent(db'.notes, id) && !Spent(db.notes, id) {
      SwapNotes(db, ids, outs, recipient, id);
      FreeInputs(db, ids, id);
    }
    forall k | k in db.burns ensures KeyIds(k) !! KeyIds(key) {
      assert forall id | id in KeyIds(k) :: Spent(db.notes, id);
    }
    SwapRecords(db, ids, outs, recipient);
  }

  lemma SwapRecords(db: Db, ids: seq<NoteId>, outs: seq<Output>, recipient: Option<string>)
    requires Swap(db, ids, outs, recipient).Ok?
    ensures BurnRow(Swap(db, ids, outs, recipient).value.notes, BurnRecord(outs, recipient))
  {
    hide BurnKey, Credited, Burned;
    SwapOutput(db, ids, outs, recipient, 0);
    if |outs| > 1 {
      SwapOutput(db, ids, outs, recipient, 1);
    }
  }

  lemma TransferKeeps(db: Db, ids: seq<NoteId>, username: string, amount: int, derive: Derive)
    requires Inv(db) && ClaimEnds(db, username, derive) && Transfer(db, ids, username, amount, derive).Ok?
    ensures var db' := Transfer(db, ids, username, amount, derive).value.db; Inv(db') && Advances(db, db')
  {
    hide Swap, Inv, Advances;
    ClaimKeeps(db, username, derive);
    var claim := ClaimIndex(db, username, derive).value;
    var outs := [Output(claim.id, amount)];
    SwapKeeps(claim.db, ids, outs, Some(username));
    AdvancesTransitive(db, claim.db, Swap(claim.db, ids, outs, Some(username)).value);
  }

  // --- Melting -------------------------------------------------------------

  lemma MarkPendingKeeps(db: Db, ids: seq<NoteId>, h: Hash)
    requires Inv(db) && MarkPending(db, ids, h).Ok?
    ensures var db' := MarkPending(db, ids, h).value; Inv(db') && Advances(db, db')
  {
    hide Inv, Advances;
    var notes := MarkPending(db, ids, h).value.notes;
    forall id | id in notes ensures Stage(notes[id]) {
      FreeInputs(db, ids, id);
      assert Inv(db) && Stage(db.notes[id]) by { InvStage(db, id); }
    }
    InPlaceKeeps(db, notes);
  }

  /** A reservation takes exactly the lists of free notes, an id named twice and all;
      a swap takes such a list only if no id repeats. */
  lemma ReservingIgnoresRepeats(db: Db, ids: seq<NoteId>, h: Hash, outs: seq<Output>, recipient: Option<string>)
    ensures MarkPending(db, ids, h).Ok? <==> AllFree(db, ids)
    ensures Swap(db, ids, outs, recipient).Ok? ==> AllFree(db, ids) && NoDuplicates(ids)
  {
    hide BurnKey;
  }

  lemma InvStage(db: Db, id: NoteId)
    requires Inv(db) && id in db.notes
    ensures Stage(db.notes[id])
  {
  }

  lemma FinalizeKeeps(db: Db, ids: seq<NoteId>)
    requires Inv(db)
    ensures Inv(FinalizeMelt(db, ids)) && Advances(db, FinalizeMelt(db, ids))
  {
    hide MintsDistinct, BurnsDisjoint, KeysAccepted, Advances;
    InPlaceKeeps(db, FinalizeMelt(db, ids).notes);
  }

  lemma RestoreKeeps(db: Db, ids: seq<NoteId>)
    requires Inv(db)
    ensures Inv(Restore(db, ids)) && Advances(db, Restore(db, ids))
  {
    hide MintsDistinct, BurnsDisjoint, KeysAccepted, Advances;
    InPlaceKeeps(db, Restore(db, ids).notes);
  }

  lemma MeltRowsKeep(db: Db, h: Hash, pr: string)
    requires Inv(db)
    ensures Inv(RecordMelt(db, h, pr)) && Advances(db, RecordMelt(db, h, pr))
    ensures Inv(MarkMeltSettled(db, h)) && Advances(db, MarkMeltSettled(db, h))
  {
    hide Inv, Advances;
    MeltsOnlyKeep(db, RecordMelt(db, h, pr).melts);
    MeltsOnlyKeep(db, MarkMeltSettled(db, h).melts);
  }

  lemma MeltsOnlyKeep(db: Db, melts: map<Hash, Melt>)
    requires Inv(db) && MeltsAdvance(db.melts, melts)
    ensures Inv(db.(melts := melts)) && Advances(db, db.(melts := melts))
  {
    hide MintsDistinct, BurnsDisjoint, KeysAccepted, LifeCycle, NotesAdvance;
    SameNotesAdvance(db.notes);
  }

  // --- Usernames -----------------------------------------------------------

  /** A new claim under a key never accepted before keeps all keys apart. */
  lemma NewClaimKeeps(users: map<string, User>, fees: map<Hash, Fee>, accepted: set<string>,
                      users': map<string, User>, fees': map<Hash, Fee>, claim: Claimant, xp: string)
    requires KeysAccepted(users, fees, accepted) && xp !in accepted
    requires ClaimKey(users', fees', claim) == Some(xp)
    requires forall c | c != claim :: ClaimKey(users', fees', c) == ClaimKey(users, fees, c)
    requires forall h | h in fees' :: claim == Unpaid(h) || (h in fees && fees'[h] == fees[h])
    ensures KeysAccepted(users', fees', accepted + {xp})
  {
    hide ShareKey;
    forall c ensures ClaimKey(users, fees, c).Some? ==> ClaimKey(users, fees, c).value in accepted {
    }
    forall u | u in users' ensures ShareKey(users'[u].cx1) in accepted + {xp} {
      assert ClaimKey(users', fees', Registered(u)) == Some(ShareKey(users'[u].cx1));
    }
    forall h | h in fees' ensures ShareKey(fees'[h].cx1) in accepted + {xp} {
      if claim == Unpaid(h) {
        assert ClaimKey(users', fees', claim) == Some(ShareKey(fees'[h].cx1));
      }
    }
  }

  lemma RegisterKeeps(db: Db, username: string, cx1: string, xp: string, now: int)
    requires Inv(db) && Owned(db, now) && xp == ShareKey(cx1) && Register(db, username, cx1, xp, now).Ok?
    ensures var db' := Register(db, username, cx1, xp, now).value; Inv(db') && Advances(db, db') && Owned(db', now)
  {
    hide ShareKey, MintsDistinct, BurnsDisjoint, LifeCycle, KeysAccepted;
    var db' := Register(db, username, cx1, xp, now).value;
    NewClaimKeeps(db.users, db.fees, db.accepted, db'.users, db.fees, Registered(username), xp);
  }

  lemma HoldKeeps(db: Db, h: Hash, pr: string, username: string, cx1: string, xp: string, amount: int, expires: int,
                  now: int)
    requires Inv(db) && Owned(db, now) && xp == ShareKey(cx1)
    requires Hold(db, h, pr, username, cx1, xp, amount, expires, now).Ok?
    ensures var db' := Hold(db, h, pr, username, cx1, xp, amount, expires, now).value;
            Inv(db') && Advances(db, db') && Owned(db', now)
  {
    hide ShareKey, MintsDistinct, BurnsDisjoint, LifeCycle, KeysAccepted;
    var db' := Hold(db, h, pr, username, cx1, xp, amount, expires, now).value;
    NewClaimKeeps(db.users, db.fees, db.accepted, db.users, db'.fees, Unpaid(h), xp);
  }

  lemma UpdateKeeps(db: Db, username: string, cx1: string, xp: string, now: int)
    requires Inv(db) && Owned(db, now) && xp == ShareKey(cx1) && Update(db, username, cx1, xp).Ok?
    ensures var db' := Update(db, username, cx1, xp).value; Inv(db') && Advances(db, db') && Owned(db', now)
  {
    hide ShareKey, MintsDistinct, BurnsDisjoint, LifeCycle, KeysAccepted;
    var db' := Update(db, username, cx1, xp).value;
    NewClaimKeeps(db.users, db.fees, db.accepted, db'.users, db.fees, Registered(username), xp);
  }

  lemma DeleteKeeps(db: Db, username: string, now: int)
    requires Inv(db) && Owned(db, now)
    ensures var db' := Delete(db, username); Inv(db') && Advances(db, db') && Owned(db', now)
  {
    hide ShareKey, MintsDistinct, BurnsDisjoint, LifeCycle;
    var users := Delete(db, username).users;
    assert forall c :: ClaimKey(users, db.fees, c).Some? ==>
                         ClaimKey(users, db.fees, c) == ClaimKey(db.users, db.fees, c);
  }

  lemma SettleFeeKeeps(db: Db, h: Hash, now: int)
    requires Inv(db) && Owned(db, now)
    ensures var db' := SettleFee(db, h, now).db;
            Inv(db') && Advances(db, db') && Owned(db', now) && db'.notes == db.notes
  {
    hide ShareKey, MintsDistinct, BurnsDisjoint, LifeCycle, KeysAccepted, Owned, SettleFee, Advances;
    SettleFeeShape(db, h, now);
    SettleFeeAdvances(db, h, now);
    if h in db.fees && !db.fees[h].paid {
      PaidKeeps(db.users, db.fees, db.accepted, h);
      SettledOwners(db, h, now);
    }
  }

  lemma SettleFeeShape(db: Db, h: Hash, now: int)
    ensures var db' := SettleFee(db, h, now).db;
            && db'.notes == db.notes && db'.mints == db.mints && db'.melts == db.melts && db'.burns == db.burns
            && db'.accepted == db.accepted
            && (if h in db.fees && !db.fees[h].paid then
                  var f := db.fees[h];
                  && db'.fees == db.fees[h := f.(paid := true)]
                  && (db'.users == db.users
                      || (f.username !in db.users && db'.users == db.users[f.username := User(f.cx1, 0)]))
                else db' == db)
  {
  }

  lemma SettleFeeAdvances(db: Db, h: Hash, now: int)
    ensures Advances(db, SettleFee(db, h, now).db)
  {
    hide NotesAdvance, SettleFee;
    SettleFeeShape(db, h, now);
    SameNotesAdvance(db.notes);
  }

  lemma SameNotesAdvance(notes: map<NoteId, Note>)
    ensures NotesAdvance(notes, notes)
  {
  }

  /** Once paid a fee's claim is gone, or has become its username's. */
  lemma PaidKeeps(users: map<string, User>, fees: map<Hash, Fee>, accepted: set<string>, h: Hash)
    requires KeysAccepted(users, fees, accepted) && h in fees && !fees[h].paid
    ensures var f := fees[h];
            var fees' := fees[h := f.(paid := true)];
            && KeysAccepted(users, fees', accepted)
            && (f.username !in users ==> KeysAccepted(users[f.username := User(f.cx1, 0)], fees', accepted))
  {
    hide ShareKey;
    var f := fees[h];
    var fees' := fees[h := f.(paid := true)];
    forall c ensures ClaimKey(users, fees', c) == if c == Unpaid(h) then None else ClaimKey(users, fees, c) {
    }
    if f.username !in users {
      var users' := users[f.username := User(f.cx1, 0)];
      forall c ensures ClaimKey(users', fees', c)
                    == if c == Unpaid(h) then None
                       else if c == Registered(f.username) then ClaimKey(users, fees, Unpaid(h))
                       else ClaimKey(users, fees, c)
      {
      }
    }
  }

  lemma SettledOwners(db: Db, h: Hash, now: int)
    requires Owned(db, now) && h in db.fees && !db.fees[h].paid
    ensures Owned(SettleFee(db, h, now).db, now)
  {
    var f := db.fees[h];
    var fees := db.fees[h := f.(paid := true)];
    hide Live;
    assert !Live(fees[h], now) by { PaidNotLive(fees[h], now); }
    forall g, u ensures HeldBy(fees, g, u, now) <==> g != h && HeldBy(db.fees, g, u, now) {
    }
  }

  lemma PaidNotLive(f: Fee, now: int)
    ensures f.paid ==> !Live(f, now)
  {
  }

  /** A fee invoice that can still be paid always registers its username. */
  lemma LiveFeeRegisters(db: Db, h: Hash, now: int)
    requires Owned(db, now) && h in db.fees && Live(db.fees[h], now)
    ensures SettleFee(db, h, now).outcome == Some((db.fees[h].username, true))
    ensures db.fees[h].username in SettleFee(db, h, now).db.users
  {
    var f := db.fees[h];
    var fees := db.fees[h := f.(paid := true)];
    forall g ensures HeldBy(fees, g, f.username, now) <==> g != h && HeldBy(db.fees, g, f.username, now) {
    }
  }

  lemma PayFeeKeeps(db: Db, ids: seq<NoteId>, h: Hash, total: int, now: int)
    requires Inv(db) && Owned(db, now) && PayFeeWithNotes(db, ids, h, total, now).Ok?
    ensures var db' := PayFeeWithNotes(db, ids, h, total, now).value.0;
            Inv(db') && Advances(db, db') && Owned(db', now)
  {
    hide SettleFee, Inv, Advances;
    SettleFeeKeeps(db, h, now);
    var mid := SettleFee(db, h, now).db;
    var notes := Burned(mid.notes, ids);
    forall id | id in notes ensures Stage(notes[id]) {
      FreeInputs(db, ids, id);
      InvStage(db, id);
    }
    InPlaceKeeps(mid, notes);
    AdvancesTransitive(db, mid, mid.(notes := notes));
  }

  /** With notes as with a payment: an invoice still payable is never refused for
      its username, only for its notes. */
  lemma PayFeeExact(db: Db, ids: seq<NoteId>, h: Hash, total: int, now: int)
    requires Owned(db, now)
    ensures PayFeeWithNotes(db, ids, h, total, now).Ok? <==>
              && h in db.fees && Live(db.fees[h], now) && db.fees[h].amount == total
              && NoDuplicates(ids) && AllFree(db, ids)
  {
    hide SettleFee;
    if h in db.fees && Live(db.fees[h], now) {
      LiveFeeRegisters(db, h, now);
    }
  }

  /** The fee invoices that still hold a username. */
  function Holders(db: Db, username: string, now: int): set<Hash> {
    set h | h in db.fees && HeldBy(db.fees, h, username, now)
  }

  function Owners(db: Db, username: string, now: int): int {
    (if username in db.users then 1 else 0) + |Holders(db, username, now)|
  }

  /** What Owned says: every username has at most one registration or live hold. */
  lemma OwnedExact(db: Db, now: int)
    ensures Owned(db, now) <==> forall username :: Owners(db, username, now) <= 1
  {
    if Owned(db, now) {
      forall username ensures Owners(db, username, now) <= 1 {
        OneHolder(db, username, now);
      }
    } else {
      var h :| h in db.fees && Live(db.fees[h], now)
               && !(db.fees[h].username !in db.users
                    && forall g | g in db.fees && g != h :: !HeldBy(db.fees, g, db.fees[h].username, now));
      TwoOwners(db, h, now);
    }
  }

  lemma OneHolder(db: Db, username: string, now: int)
    requires Owned(db, now)
    ensures Owners(db, username, now) <= 1
  {
    if h :| h in Holders(db, username, now) {
      assert Holders(db, username, now) == {h};
    } else {
      assert Holders(db, username, now) == {};
    }
  }

  lemma TwoOwners(db: Db, h: Hash, now: int)
    requires h in db.fees && Live(db.fees[h], now)
    requires || db.fees[h].username in db.users
             || exists g | g in db.fees && g != h :: HeldBy(db.fees, g, db.fees[h].username, now)
    ensures Owners(db, db.fees[h].username, now) >= 2
  {
    var username := db.fees[h].username;
    var holders := Holders(db, username, now);
    assert h in holders;
    if username in db.users {
      assert |holders - {h}| == |holders| - 1;
    } else {
      var g :| g in db.fees && g != h && HeldBy(db.fees, g, username, now);
      assert g in holders - {h};
    }
  }

  /** Time passing releases holds and takes nothing back. */
  lemma LaterKeepsOwners(db: Db, now: int, later: int)
    requires Owned(db, now) && now <= later
    ensures Owned(db, later)
  {
    forall g, u ensures HeldBy(db.fees, g, u, later) ==> HeldBy(db.fees, g, u, now) {
    }
  }

  lemma EmptyInv(now: int)
    ensures Inv(EMPTY) && Owned(EMPTY, now)
  {
    forall c ensures ClaimKey(EMPTY.users, EMPTY.fees, c) == None {
    }
  }
}
