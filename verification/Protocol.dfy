/** The mint as a whole: its tables, the melts it is paying out, the reconciler,
    and the funding source, as a state machine over the steps between awaits.

    Handlers, background payments, the reconciler, the funding source, the clock
    and process restarts interleave freely; a step is what runs between two
    awaits, and the process stops only at one. */
module Protocol {
  import opened Wrappers
  import opened BurnKeys
  import opened Ledger
  import opened LedgerInvariant
  import opened Redeem
  import Registry
  import Fees

  // --- The state -----------------------------------------------------------

  /** What has become of an outgoing payment, as the funding source knows it. */
  datatype Pay = Unsent | InFlight | Landed | Dead

  /** Where a background payment stands: not begun, inside pay_invoice, or asking
      for the outcome with this many tries left. */
  datatype Phase = Scheduled | Calling | Confirming(left: nat)

  /** A live melt attempt.  A melt names exactly one note. */
  datatype Task = Task(id: NoteId, h: Hash, phase: Phase)

  /** The note a melt reserved and what the melt pays out: history. */
  datatype Reservation = Reservation(id: NoteId, amount: int)

  /** A group of the reconciler's snapshot; `quiet` if no attempt on its payment
      was live when the snapshot was taken. */
  datatype Entry = Entry(h: Hash, ids: seq<NoteId>, quiet: bool)

  datatype World = World(
    db: Db,
    now: int,
    inFlight: Registry.Counts,
    tasks: map<nat, Task>,
    nextTask: nat,
    recon: seq<Entry>,                  // groups to reconcile; the first is being asked about
    pays: map<Hash, Pay>,               // the funding source: outgoing payments
    paidIn: set<Hash>,                  // the funding source: mint invoices paid
    gross: map<Hash, int>,              // what each mint invoice asks for
    melted: map<Hash, Reservation>,     // history: the melt of each payment
    givenUp: set<Hash>,                 // history: payments reported as not made
    exchanged: set<NoteId>)             // history: notes spent other than by a melt

  const START := World(EMPTY, 0, map[], map[], 0, [], map[], {}, map[], map[], {}, {})

  /** `_CONFIRMATION_RETRY_DELAYS_SECONDS` has five entries, after a first try. */
  const CONFIRMATION_TRIES := 6

  // --- The steps -----------------------------------------------------------

  datatype Event =
    // requests, and what settles invoices
    | RequestInvoice(h: Hash, amount: int, noteId: Option<NoteId>, share: Option<string>)
    | Settle(h: Hash)
    | Exchange(req: Request, seenSpent: bool)
    | TransferTo(username: string, amount: int, id: NoteId)
    | RegisterName(username: string, cx1: string)
    | HoldName(h: Hash, pr: string, username: string, cx1: string, amount: int, expires: int)
    | SettleName(h: Hash)
    | UpdateName(username: string, cx1: string)
    | DeleteName(username: string)
    | MeltInto(id: NoteId, h: Hash, amount: int, pr: string)
    // a background payment
    | Begin(t: nat)
    | PaySucceeds(t: nat)
    | PayRaises(t: nat)
    | Confirm(t: nat, answer: Option<bool>)
    // the reconciler
    | Snapshot(order: seq<Entry>)
    | Resolve(answer: Option<bool>)
    // the world outside
    | Payer(h: Hash)
    | Source(h: Hash, status: Pay)
    | Tick(later: int)
    | Restart

  /** A pay_invoice call for `h` is still to come or still running. */
  predicate CallLive(w: World, h: Hash) {
    exists t | t in w.tasks :: w.tasks[t].h == h && !w.tasks[t].phase.Confirming?
  }

  predicate TaskOn(w: World, h: Hash) {
    exists t | t in w.tasks :: w.tasks[t].h == h
  }

  /** The contract of is_payment_complete: True only for a payment that landed,
      False never for one that landed or is in flight; it may always raise. */
  predicate MayAnswer(w: World, h: Hash, answer: Option<bool>) {
    match answer
    case None => true
    case Some(complete) => h in w.pays && if complete then w.pays[h].Landed? else w.pays[h].Unsent? || w.pays[h].Dead?
  }

  /** The steps a funding source's own record of a payment can take. */
  predicate SourceMay(a: Pay, b: Pay) {
    match a
    case Unsent => b.InFlight? || b.Dead?
    case InFlight => b.Landed? || b.Dead?
    case Landed => false
    case Dead => false
  }

  /** The groups pending_melts returns, in some order. */
  ghost predicate IsSnapshot(w: World, order: seq<Entry>) {
    && DistinctPayments(order)
    && (forall i | 0 <= i < |order| ::
          && order[i].quiet == !TaskOn(w, order[i].h)
          && |order[i].ids| >= 1
          && forall id :: id in order[i].ids <==> Reserved(w.db, id, order[i].h))
    && (forall id | id in w.db.notes && w.db.notes[id].pending && w.db.notes[id].hash.Some? ::
          exists i :: 0 <= i < |order| && Some(order[i].h) == w.db.notes[id].hash)
  }

  /** When an event can happen: the hypotheses about everything outside. */
  ghost predicate Enabled(p: Policy, derive: Derive, w: World, e: Event) {
    match e
    case Settle(h) => h in w.paidIn && SettleEnds(w.db, h, derive)
    case Exchange(req, seenSpent) => |req.ids| >= 1 && (seenSpent ==> SomeSpent(w.db, req.ids))
    case TransferTo(username, amount, id) => Free(w.db, id) ==> ClaimEnds(w.db, username, derive)
    case Begin(t) => t in w.tasks && w.tasks[t].phase.Scheduled?
    case PaySucceeds(t) =>
      t in w.tasks && w.tasks[t].phase.Calling? && w.tasks[t].h in w.pays && w.pays[w.tasks[t].h].Landed?
    case PayRaises(t) => t in w.tasks && w.tasks[t].phase.Calling?
    case Confirm(t, answer) =>
      t in w.tasks && w.tasks[t].phase.Confirming? && w.tasks[t].phase.left > 0 && MayAnswer(w, w.tasks[t].h, answer)
    case Snapshot(order) => w.recon == [] && IsSnapshot(w, order)
    case Resolve(answer) => w.recon != [] && MayAnswer(w, w.recon[0].h, answer)
    case Payer(h) => h in w.db.mints
    case Source(h, status) => h in w.pays && SourceMay(w.pays[h], status)
    case Tick(later) => w.now <= later
    case _ => true
  }

  /** The notes a transaction spent. */
  function NewlySpent(a: Db, b: Db): set<NoteId> {
    set id | id in b.notes && b.notes[id].spent && !Spent(a.notes, id)
  }

  /** The world after a transaction that is not part of a melt. */
  function Transacted(w: World, db: Db): World {
    w.(db := db, exchanged := w.exchanged + NewlySpent(w.db, db))
  }

  function TransactedIfOk(w: World, r: Result<Db, Error>): World {
    match r
    case Ok(db) => Transacted(w, db)
    case Err(_) => w
  }

  function RequestInvoiceStep(p: Policy, w: World, h: Hash, amount: int, noteId: Option<NoteId>,
                              username: Option<string>): World
  {
    if p.sunset then w
    else
      match Fees.PayCallbackNet(p.fees, amount)
      case Err(_) => w
      case Ok(net) =>
        match CreateMint(w.db, h, net, noteId, username)
        case Err(_) => w
        case Ok(db) => Transacted(w, db).(gross := w.gross[h := amount])
  }

  ghost function SettleStep(derive: Derive, w: World, h: Hash): World
    requires SettleEnds(w.db, h, derive)
  {
    match SettleMint(w.db, h, derive)
    case Err(_) => w
    case Ok(settled) => Transacted(w, settled.db)
  }

  /** Everything get_withdraw_callback does for a melt once its k1 is verified,
      up to scheduling the payment: one step, with no await inside.  `pr` is the
      invoice's text, trimmed and in lower case. */
  function MeltStep(w: World, id: NoteId, h: Hash, amount: int, pr: string): World {
    if id !in w.db.notes || w.db.notes[id].spent || amount != w.db.notes[id].amount then w
    else if h in w.db.fees then
      if pr != w.db.fees[h].pr then w
      else
        match PayFeeWithNotes(w.db, [id], h, amount, w.now)
        case Err(_) => w
        case Ok((db, _)) => Transacted(w, db)
    else if h in w.db.mints || h in w.db.melts then w
    else
      match MarkPending(w.db, [id], h)
      case Err(_) => w
      case Ok(db) =>
        w.(db := RecordMelt(db, h, pr),
           inFlight := Registry.Started(w.inFlight, h),
           tasks := w.tasks[w.nextTask := Task(id, h, Scheduled)],
           nextTask := w.nextTask + 1,
           pays := w.pays[h := Unsent],
           melted := w.melted[h := Reservation(id, amount)])
  }

  /** A background payment ends: its registration is dropped. */
  function Ended(w: World, t: nat): World
    requires t in w.tasks
  {
    w.(tasks := w.tasks - {t}, inFlight := Registry.Ended(w.inFlight, w.tasks[t].h))
  }

  function Finalized(w: World, ids: seq<NoteId>, h: Hash): World {
    w.(db := MarkMeltSettled(FinalizeMelt(w.db, ids), h))
  }

  /** The source answers that a payment was not made: the notes are released.
      The answer is final unless a pay_invoice call is still to reach the source. */
  function GivenUp(w: World, ids: seq<NoteId>, h: Hash): World {
    w.(db := Restore(w.db, ids),
       pays := if h in w.pays && !CallLive(w, h) then w.pays[h := Dead] else w.pays,
       givenUp := w.givenUp + {h})
  }

  function Moved(w: World, t: nat, phase: Phase): World
    requires t in w.tasks
  {
    w.(tasks := w.tasks[t := w.tasks[t].(phase := phase)])
  }

  function ConfirmStep(w: World, t: nat, answer: Option<bool>): World
    requires t in w.tasks && w.tasks[t].phase.Confirming? && w.tasks[t].phase.left > 0
  {
    var task := w.tasks[t];
    match answer
    case Some(true) => Ended(Finalized(w, [task.id], task.h), t)
    case Some(false) => Ended(GivenUp(w, [task.id], task.h), t)
    case None => if task.phase.left == 1 then Ended(w, t) else Moved(w, t, Confirming(task.phase.left - 1))
  }

  /** How many groups in a row have a live attempt, and so are skipped. */
  function Passed(inFlight: Registry.Counts, todo: seq<Entry>): (k: nat)
    ensures k <= |todo| && (k < |todo| ==> todo[k].h !in inFlight)
    ensures forall i | 0 <= i < k :: todo[i].h in inFlight
    decreases |todo|
  {
    if todo == [] || todo[0].h !in inFlight then 0 else 1 + Passed(inFlight, todo[1..])
  }

  /** The reconciler takes up the next group no attempt is live on. */
  function Skipped(inFlight: Registry.Counts, todo: seq<Entry>): seq<Entry> {
    todo[Passed(inFlight, todo)..]
  }

  /** The reconciler has dealt with the group it was asking about. */
  function Past(w: World): World
    requires w.recon != []
  {
    w.(recon := Skipped(w.inFlight, w.recon[1..]))
  }

  function ResolveStep(w: World, answer: Option<bool>): World
    requires w.recon != []
  {
    var e := w.recon[0];
    match answer
    case None => Past(w)
    case Some(true) => Finalized(Past(w), e.ids, e.h)
    case Some(false) => GivenUp(Past(w), e.ids, e.h)
  }

  ghost function Apply(p: Policy, derive: Derive, w: World, e: Event): World
    requires Enabled(p, derive, w, e)
  {
    match e
    case RequestInvoice(h, amount, noteId, username) => RequestInvoiceStep(p, w, h, amount, noteId, username)
    case Settle(h) => SettleStep(derive, w, h)
    case Exchange(req, seenSpent) => Transacted(w, Mutate(p, w.db, req, seenSpent).db)
    case TransferTo(username, amount, id) => Transacted(w, InternalTransfer(p, w.db, username, amount, id, derive).db)
    case RegisterName(username, cx1) => TransactedIfOk(w, Register(w.db, username, cx1, ShareKey(cx1), w.now))
    case HoldName(h, pr, username, cx1, amount, expires) =>
      TransactedIfOk(w, Hold(w.db, h, pr, username, cx1, ShareKey(cx1), amount, expires, w.now))
    case SettleName(h) => Transacted(w, SettleFee(w.db, h, w.now).db)
    case UpdateName(username, cx1) => TransactedIfOk(w, Update(w.db, username, cx1, ShareKey(cx1)))
    case DeleteName(username) => Transacted(w, Delete(w.db, username))
    case MeltInto(id, h, amount, pr) => MeltStep(w, id, h, amount, pr)
    case Begin(t) => Moved(w, t, Calling)
    case PaySucceeds(t) => Ended(Finalized(w, [w.tasks[t].id], w.tasks[t].h), t)
    case PayRaises(t) => Moved(w, t, Confirming(CONFIRMATION_TRIES))
    case Confirm(t, answer) => ConfirmStep(w, t, answer)
    case Snapshot(order) => w.(recon := Skipped(w.inFlight, order))
    case Resolve(answer) => ResolveStep(w, answer)
    case Payer(h) => w.(paidIn := w.paidIn + {h})
    case Source(h, status) => w.(pays := w.pays[h := status])
    case Tick(later) => w.(now := later)
    case Restart => w.(tasks := map[], inFlight := map[], recon := [])
  }

  // --- What always holds ---------------------------------------------------

  /** The payment `h` is the melt of the note `id`. */
  predicate MeltOf(melted: map<Hash, Reservation>, h: Hash, id: NoteId) {
    h in melted && melted[h].id == id
  }

  /** History, payments and the melts table speak of the same payments; every
      reserved note is reserved for its own melt's payment, one not given up; a
      payment given up never lands; a melt is on record as settled only once its
      payment landed and its note is burned. */
  ghost predicate HistoryOk(w: World) {
    && w.melted.Keys == w.pays.Keys == w.db.melts.Keys
    && (forall h | h in w.melted :: Holds(w.db.notes, w.melted[h].id, w.melted[h].amount))
    && (forall id, h :: Reserved(w.db, id, h) ==> MeltOf(w.melted, h, id) && h !in w.givenUp)
    && (forall h | h in w.givenUp :: h in w.pays && w.pays[h].Dead?)
    && (forall id | id in w.exchanged :: Spent(w.db.notes, id))
    && (forall h | h in w.db.melts && w.db.melts[h].settled ::
          w.pays[h].Landed? && Spent(w.db.notes, w.melted[h].id))
  }

  function Attempts(tasks: map<nat, Task>): map<nat, Hash> {
    map t | t in tasks :: tasks[t].h
  }

  /** There is at most one attempt to a payment, and the registry counts them. */
  ghost predicate AttemptsOk(tasks: map<nat, Task>, nextTask: nat, inFlight: Registry.Counts) {
    && (forall t | t in tasks :: t < nextTask)
    && (forall s, t | s in tasks && t in tasks && s != t :: tasks[s].h != tasks[t].h)
    && Registry.Agrees(inFlight, Attempts(tasks))
  }

  ghost predicate TasksOk(w: World) {
    && AttemptsOk(w.tasks, w.nextTask, w.inFlight)
    && forall t | t in w.tasks :: MeltOf(w.melted, w.tasks[t].h, w.tasks[t].id)
  }

  predicate EntryOk(w: World, e: Entry) {
    && |e.ids| >= 1
    && (forall id | id in e.ids :: MeltOf(w.melted, e.h, id))
    && (e.quiet ==> !TaskOn(w, e.h))
  }

  predicate DistinctPayments(groups: seq<Entry>) {
    forall i, j | 0 <= i < j < |groups| :: groups[i].h != groups[j].h
  }

  /** The reconciler's groups are of distinct payments, and no attempt on the
      payment it is asking about is live. */
  ghost predicate ReconOk(w: World) {
    && (forall i | 0 <= i < |w.recon| :: EntryOk(w, w.recon[i]))
    && DistinctPayments(w.recon)
    && (w.recon != [] ==> !TaskOn(w, w.recon[0].h))
  }

  ghost predicate Consistent(w: World) {
    Inv(w.db) && Owned(w.db, w.now) && HistoryOk(w) && TasksOk(w) && ReconOk(w)
  }

  // --- What holds as long as no stale group is restored --------------------

  /** A melt whose payment has not been reported as not made. */
  predicate Owing(w: World, h: Hash) {
    h in w.melted && h in w.pays && h !in w.givenUp
  }

  /** Its note is reserved for it, or burned because the payment landed. */
  predicate Covered(w: World, h: Hash) {
    Owing(w, h) ==>
      Reserved(w.db, w.melted[h].id, h) || (w.pays[h].Landed? && Spent(w.db.notes, w.melted[h].id))
  }

  /** Every note a melt still answers for is accounted for, by that melt alone:
      no other payment takes it and it was not exchanged for other notes. */
  ghost predicate MeltsSafe(w: World) {
    && (forall h :: Covered(w, h))
    && (forall g, h | Owing(w, g) && Owing(w, h) && g != h :: w.melted[g].id != w.melted[h].id)
    && (forall h | Owing(w, h) :: w.melted[h].id !in w.exchanged)
  }

  /** Every note of the entry is still reserved for the entry's own payment. */
  predicate StillReserved(db: Db, e: Entry) {
    forall id | id in e.ids :: Reserved(db, id, e.h)
  }

  /** Live attempts, and the groups no attempt was live on when the snapshot was
      taken, have their notes still reserved. */
  ghost predicate HoldsReserved(w: World) {
    && (forall t | t in w.tasks :: Reserved(w.db, w.tasks[t].id, w.tasks[t].h))
    && (forall i | 0 <= i < |w.recon| :: w.recon[i].quiet ==> StillReserved(w.db, w.recon[i]))
  }

  ghost predicate Safe(w: World) { MeltsSafe(w) && HoldsReserved(w) }

  /** Some note of the group is by now reserved for another payment. */
  predicate ReservedElsewhere(db: Db, e: Entry) {
    exists id | id in e.ids :: id in db.notes && TakenBy(db.notes[id], e.h)
  }

  /** The note is reserved, but not for `h`. */
  predicate TakenBy(n: Note, h: Hash) {
    n.pending && !n.spent && n.hash.Some? && n.hash != Some(h)
  }

  /** The one step whose safety rests on the reconciler's snapshot not being out
      of date: restoring a group takes none of its notes to have been reserved
      anew, for another payment than the one just found dead. */
  predicate Fenced(w: World, e: Event) {
    e == Resolve(Some(false)) && w.recon != [] ==> !ReservedElsewhere(w.db, w.recon[0])
  }
}
