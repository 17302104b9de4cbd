/** The mint's tables and what each transaction does to them.

    Every function here is one transaction seen whole: it answers with the new
    tables, or with an error and no tables at all, which is what a rolled-back
    transaction leaves behind.  The class NoteStore carries the same
    transactions out row by row. */
module Ledger {
  import opened Wrappers
  import opened BurnKeys

  type Hash = string

  /** `hash` is the payment a pending note is reserved for. */
  datatype Note = Note(amount: int, spent: bool, pending: bool, hash: Option<Hash>)

  /** An invoice that becomes a note once paid: a named note, or the next unused
      one of a username's share, picked when it settles. */
  datatype Mint = Mint(amount: int, minted: bool, noteId: Option<NoteId>, username: Option<string>)

  datatype Melt = Melt(pr: string, settled: bool)

  datatype Burn = Burn(id: NoteId, id2: Option<NoteId>, amount: int, amount2: Option<int>, recipient: Option<string>)

  datatype User = User(cx1: string, nextIndex: nat)

  /** A registration held until its fee invoice is paid. */
  datatype Fee = Fee(pr: string, username: string, cx1: string, amount: int, expires: int, paid: bool)

  datatype Db = Db(
    notes: map<NoteId, Note>,
    mints: map<Hash, Mint>,
    melts: map<Hash, Melt>,
    burns: map<string, Burn>,
    users: map<string, User>,
    fees: map<Hash, Fee>,
    accepted: set<string>)

  const EMPTY := Db(map[], map[], map[], map[], map[], map[], {})

  datatype Output = Output(id: NoteId, amount: int)

  datatype Error =
    | AlreadyInUse          // a mint's note id is taken
    | BadMint               // a mint names both a note and a username, or neither
    | InvalidNote           // unknown, spent or repeated
    | PendingNote           // reserved by a melt
    | OutputCollision(id: NoteId)
    | NoOutput              // nothing to mint: the burn record has no first output
    | Integrity             // a primary key is taken: sqlite refuses the insert
    | UnknownUser
    | AlreadyRegistered
    | KeyUsed
    | NotPayable

  /** A share's note at an index, None where no key derives. */
  type Derive = (string, nat) -> Option<NoteId>

  // --- Notes in use --------------------------------------------------------

  predicate NamedByMint(mints: map<Hash, Mint>, id: NoteId) {
    exists h | h in mints :: mints[h].noteId == Some(id)
  }

  predicate InUse(db: Db, id: NoteId) {
    id in db.notes || NamedByMint(db.mints, id)
  }

  function Fresh(amount: int): Note { Note(amount, false, false, None) }

  // --- Minting -------------------------------------------------------------

  function CreateMint(db: Db, h: Hash, amount: int, noteId: Option<NoteId>, username: Option<string>): Result<Db, Error>
  {
    if noteId.None? == username.None? then Err(BadMint)
    else if noteId.Some? && InUse(db, noteId.value) then Err(AlreadyInUse)
    else if h in db.mints then Err(Integrity)
    else Ok(db.(mints := db.mints[h := Mint(amount, false, noteId, username)]))
  }

  /** Index `i` of a share derives a note not in use yet. */
  predicate Usable(db: Db, derive: Derive, cx1: string, i: nat) {
    var id := derive(cx1, i);
    id.Some? && !InUse(db, id.value)
  }

  ghost predicate SomeUsable(db: Db, derive: Derive, cx1: string, from: nat) {
    exists i: nat :: i >= from && Usable(db, derive, cx1, i)
  }

  /** `i` is the least usable index from `from` on. */
  predicate FirstUsable(db: Db, derive: Derive, cx1: string, from: nat, i: nat) {
    && from <= i && Usable(db, derive, cx1, i)
    && forall j: nat | from <= j < i :: !Usable(db, derive, cx1, j)
  }

  ghost function SearchTo(db: Db, derive: Derive, cx1: string, from: nat, limit: nat): (i: nat)
    requires from <= limit && Usable(db, derive, cx1, limit)
    ensures FirstUsable(db, derive, cx1, from, i)
    decreases limit - from
  {
    if Usable(db, derive, cx1, from) then from else SearchTo(db, derive, cx1, from + 1, limit)
  }

  /** Whether crediting a username's share can finish: an unregistered name is
      refused, a registered one needs an unused index to find. */
  ghost predicate ClaimEnds(db: Db, username: string, derive: Derive) {
    username in db.users ==> SomeUsable(db, derive, db.users[username].cx1, db.users[username].nextIndex)
  }

  datatype Claim = Claim(db: Db, id: NoteId, index: nat)

  ghost function ClaimIndex(db: Db, username: string, derive: Derive): (r: Result<Claim, Error>)
    requires ClaimEnds(db, username, derive)
    ensures r.Ok? <==> username in db.users
    ensures r.Ok? ==>
              var u := db.users[username];
              && FirstUsable(db, derive, u.cx1, u.nextIndex, r.value.index)
              && derive(u.cx1, r.value.index) == Some(r.value.id)
              && r.value.db == db.(users := db.users[username := User(u.cx1, r.value.index + 1)])
  {
    if username !in db.users then Err(UnknownUser)
    else
      var u := db.users[username];
      var limit: nat :| limit >= u.nextIndex && Usable(db, derive, u.cx1, limit);
      var i := SearchTo(db, derive, u.cx1, u.nextIndex, limit);
      Ok(Claim(db.(users := db.users[username := User(u.cx1, i + 1)]), derive(u.cx1, i).value, i))
  }

  /** Whether settling `h` would have to pick a note on a username's share. */
  predicate PicksNote(db: Db, h: Hash) {
    h in db.mints && !db.mints[h].minted && db.mints[h].noteId.None? && db.mints[h].username.Some?
  }

  ghost predicate SettleEnds(db: Db, h: Hash, derive: Derive) {
    PicksNote(db, h) ==> ClaimEnds(db, db.mints[h].username.value, derive)
  }

  datatype Settled = Settled(db: Db, credited: Option<int>)

  ghost function SettleMint(db: Db, h: Hash, derive: Derive): Result<Settled, Error>
    requires SettleEnds(db, h, derive)
  {
    if h !in db.mints || db.mints[h].minted || (db.mints[h].noteId.None? && db.mints[h].username.None?) then
      Ok(Settled(db, None))
    else if db.mints[h].noteId.Some? then CreditMint(db, h, db.mints[h].noteId.value)
    else
      match ClaimIndex(db, db.mints[h].username.value, derive)
      case Err(e) => Err(e)
      case Ok(claim) => CreditMint(claim.db, h, claim.id)
  }

  function CreditMint(db: Db, h: Hash, id: NoteId): Result<Settled, Error>
    requires h in db.mints
  {
    var m := db.mints[h];
    if id in db.notes then Err(Integrity)
    else
      Ok(Settled(db.(mints := db.mints[h := m.(minted := true, noteId := Some(id))],
                     notes := db.notes[id := Fresh(m.amount)]),
                 Some(m.amount)))
  }

  // --- Burning and minting -------------------------------------------------

  predicate NoDuplicates<T(==)>(s: seq<T>) {
    forall i, j | 0 <= i < j < |s| :: s[i] != s[j]
  }

  /** A note a swap may burn: issued, unspent and not reserved. */
  predicate Free(db: Db, id: NoteId) {
    id in db.notes && !db.notes[id].spent && !db.notes[id].pending
  }

  predicate AllFree(db: Db, ids: seq<NoteId>) {
    forall i | 0 <= i < |ids| :: Free(db, ids[i])
  }

  predicate NoneInUse(db: Db, outs: seq<Output>) {
    forall i | 0 <= i < |outs| :: !InUse(db, outs[i].id)
  }

  /** Lists built up one element at a time keep their elements distinct exactly
      when each new one is not among those before it. */
  lemma NoDuplicatesLast<T>(s: seq<T>)
    requires |s| > 0
    ensures var n := |s| - 1; NoDuplicates(s) <==> NoDuplicates(s[..n]) && s[n] !in s[..n]
  {
    var n := |s| - 1;
    if NoDuplicates(s[..n]) && s[n] !in s[..n] {
      forall i, j | 0 <= i < j < |s| ensures s[i] != s[j] {
        assert s[i] == s[..n][i];
        if j < n {
          assert s[j] == s[..n][j];
        }
      }
    }
  }

  function NoteError(db: Db, id: NoteId): Option<Error> {
    if id !in db.notes || db.notes[id].spent then Some(InvalidNote)
    else if db.notes[id].pending then Some(PendingNote)
    else None
  }

  /** The first complaint about a list of notes to burn, in list order. */
  function BurnError(db: Db, ids: seq<NoteId>): (e: Option<Error>)
    ensures e == None <==> NoDuplicates(ids) && AllFree(db, ids)
    decreases |ids|
  {
    if |ids| == 0 then None
    else
      var n := |ids| - 1;
      NoDuplicatesLast(ids);
      assert AllFree(db, ids) <==> AllFree(db, ids[..n]) && Free(db, ids[n]);
      match BurnError(db, ids[..n])
      case Some(e) => Some(e)
      case None => if ids[n] in ids[..n] then Some(InvalidNote) else NoteError(db, ids[n])
  }

  function OutputIds(outs: seq<Output>): (ids: seq<NoteId>)
    ensures |ids| == |outs|
  {
    seq(|outs|, i requires 0 <= i < |outs| => outs[i].id)
  }

  /** The first output that is taken or repeated. */
  function OutputError(db: Db, outs: seq<Output>): (e: Option<Error>)
    ensures e == None <==> NoDuplicates(OutputIds(outs)) && NoneInUse(db, outs)
    decreases |outs|
  {
    if |outs| == 0 then None
    else
      var n := |outs| - 1;
      assert OutputIds(outs)[..n] == OutputIds(outs[..n]);
      NoDuplicatesLast(OutputIds(outs));
      assert NoneInUse(db, outs) <==> NoneInUse(db, outs[..n]) && !InUse(db, outs[n].id);
      match OutputError(db, outs[..n])
      case Some(e) => Some(e)
      case None =>
        if InUse(db, outs[n].id) || outs[n].id in OutputIds(outs[..n]) then Some(OutputCollision(outs[n].id)) else None
  }

  function Burned(notes: map<NoteId, Note>, ids: seq<NoteId>): map<NoteId, Note> {
    map id | id in notes :: if id in ids then notes[id].(spent := true) else notes[id]
  }

  function Credited(notes: map<NoteId, Note>, outs: seq<Output>): (r: map<NoteId, Note>)
    ensures r.Keys == notes.Keys + set o | o in outs :: o.id
    decreases |outs|
  {
    if |outs| == 0 then notes
    else
      var n := |outs| - 1;
      assert outs == outs[..n] + [outs[n]];
      Credited(notes, outs[..n])[outs[n].id := Fresh(outs[n].amount)]
  }

  function BurnRecord(outs: seq<Output>, recipient: Option<string>): Burn
    requires |outs| >= 1
  {
    Burn(outs[0].id, if |outs| > 1 then Some(outs[1].id) else None,
         outs[0].amount, if |outs| > 1 then Some(outs[1].amount) else None, recipient)
  }

  function Swap(db: Db, ids: seq<NoteId>, outs: seq<Output>, recipient: Option<string>): Result<Db, Error> {
    match BurnError(db, ids)
    case Some(e) => Err(e)
    case None =>
      match OutputError(db, outs)
      case Some(e) => Err(e)
      case None =>
        if |outs| == 0 then Err(NoOutput)
        else if BurnKey(ids) in db.burns then Err(Integrity)
        else Ok(db.(notes := Credited(Burned(db.notes, ids), outs),
                    burns := db.burns[BurnKey(ids) := BurnRecord(outs, recipient)]))
  }

  ghost function Transfer(db: Db, ids: seq<NoteId>, username: string, amount: int, derive: Derive): Result<Claim, Error>
    requires ClaimEnds(db, username, derive)
  {
    match ClaimIndex(db, username, derive)
    case Err(e) => Err(e)
    case Ok(claim) =>
      match Swap(claim.db, ids, [Output(claim.id, amount)], Some(username))
      case Err(e) => Err(e)
      case Ok(db') => Ok(claim.(db := db'))
  }

  function FindBurn(db: Db, ids: seq<NoteId>): Option<Burn> {
    if BurnKey(ids) in db.burns then Some(db.burns[BurnKey(ids)]) else None
  }

  // --- Melting -------------------------------------------------------------

  /** The first complaint about a list of notes to reserve.  Unlike a swap, a
      reservation does not object to an id named twice. */
  function ReserveError(db: Db, ids: seq<NoteId>): (e: Option<Error>)
    ensures e == None <==> AllFree(db, ids)
    decreases |ids|
  {
    if |ids| == 0 then None
    else
      var n := |ids| - 1;
      assert AllFree(db, ids) <==> AllFree(db, ids[..n]) && Free(db, ids[n]);
      match ReserveError(db, ids[..n])
      case Some(e) => Some(e)
      case None => NoteError(db, ids[n])
  }

  function MarkPending(db: Db, ids: seq<NoteId>, h: Hash): Result<Db, Error> {
    match ReserveError(db, ids)
    case Some(e) => Err(e)
    case None =>
      Ok(db.(notes := map id | id in db.notes ::
                        if id in ids then db.notes[id].(pending := true, hash := Some(h)) else db.notes[id]))
  }

  function FinalizeMelt(db: Db, ids: seq<NoteId>): Db {
    db.(notes := map id | id in db.notes ::
                   if id in ids then Note(db.notes[id].amount, true, false, None) else db.notes[id])
  }

  function Restore(db: Db, ids: seq<NoteId>): Db {
    db.(notes := map id | id in db.notes ::
                   if id in ids then db.notes[id].(pending := false, hash := None) else db.notes[id])
  }

  /** A note is reserved for the payment `h`. */
  predicate Reserved(db: Db, id: NoteId, h: Hash) {
    id in db.notes && db.notes[id].pending && !db.notes[id].spent && db.notes[id].hash == Some(h)
  }

  function RecordMelt(db: Db, h: Hash, pr: string): Db {
    if h in db.melts then db else db.(melts := db.melts[h := Melt(pr, false)])
  }

  function MarkMeltSettled(db: Db, h: Hash): Db {
    if h in db.melts then db.(melts := db.melts[h := db.melts[h].(settled := true)]) else db
  }

  // --- Usernames -----------------------------------------------------------

  /** A fee invoice that can still be paid, and so still holds its username. */
  predicate Live(f: Fee, now: int) {
    !f.paid && f.expires > now
  }

  predicate HeldBy(fees: map<Hash, Fee>, h: Hash, username: string, now: int) {
    h in fees && fees[h].username == username && Live(fees[h], now)
  }

  predicate Taken(db: Db, username: string, now: int) {
    username in db.users || exists h | h in db.fees :: HeldBy(db.fees, h, username, now)
  }

  function Register(db: Db, username: string, cx1: string, xp: string, now: int): Result<Db, Error> {
    if Taken(db, username, now) then Err(AlreadyRegistered)
    else if xp in db.accepted then Err(KeyUsed)
    else Ok(db.(users := db.users[username := User(cx1, 0)], accepted := db.accepted + {xp}))
  }

  function Hold(db: Db, h: Hash, pr: string, username: string, cx1: string, xp: string, amount: int, expires: int,
                now: int)
    : Result<Db, Error>
  {
    if Taken(db, username, now) then Err(AlreadyRegistered)
    else if xp in db.accepted then Err(KeyUsed)
    else if h in db.fees then Err(Integrity)
    else Ok(db.(fees := db.fees[h := Fee(pr, username, cx1, amount, expires, false)], accepted := db.accepted + {xp}))
  }

  /** What settling a fee answers: nothing for one unknown or paid before, else
      the username and whether it could be registered. */
  datatype FeeOutcome = FeeOutcome(db: Db, outcome: Option<(string, bool)>)

  function SettleFee(db: Db, h: Hash, now: int): FeeOutcome {
    if h !in db.fees || db.fees[h].paid then FeeOutcome(db, None)
    else
      var f := db.fees[h];
      var paid := db.(fees := db.fees[h := f.(paid := true)]);
      if Taken(paid, f.username, now) then FeeOutcome(paid, Some((f.username, false)))
      else FeeOutcome(paid.(users := paid.users[f.username := User(f.cx1, 0)]), Some((f.username, true)))
  }

  function PayFeeWithNotes(db: Db, ids: seq<NoteId>, h: Hash, total: int, now: int): Result<(Db, string), Error> {
    if !(h in db.fees && Live(db.fees[h], now) && db.fees[h].amount == total) then Err(NotPayable)
    else
      match BurnError(db, ids)
      case Some(e) => Err(e)
      case None =>
        var settled := SettleFee(db, h, now);
        if settled.outcome.None? || !settled.outcome.value.1 then Err(AlreadyRegistered)
        else Ok((settled.db.(notes := Burned(settled.db.notes, ids)), settled.outcome.value.0))
  }

  function Update(db: Db, username: string, cx1: string, xp: string): Result<Db, Error> {
    if username !in db.users then Err(UnknownUser)
    else if xp in db.accepted then Err(KeyUsed)
    else Ok(db.(users := db.users[username := User(cx1, 0)], accepted := db.accepted + {xp}))
  }

  function Delete(db: Db, username: string): Db {
    db.(users := db.users - {username})
  }

  /** x(P) of a share on file: the tail of hex(chain_code || P), or the head of
      the superseded hex(x(P) || chain_code). */
  function ShareKey(cx1: string): string {
    if |cx1| == 128 then cx1[..64]
    else if |cx1| <= 66 then ""
    else if |cx1| <= 130 then cx1[66..]
    else cx1[66..130]
  }
}
