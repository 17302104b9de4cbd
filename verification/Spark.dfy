/** The spark backend: when it may say that a payment was not made.  It pages
    through the stored payments, and remembers, in a bounded registry, the
    payments this process turned away before anything was sent. */
module Spark {
  import opened Wrappers
  import L = Ledger

  type Hash = L.Hash

  // --- The stored history --------------------------------------------------

  datatype Kind = Send | Receive

  datatype Status = Completed | Waiting | Failed

  /** A stored payment; `htlc` is the payment hash its Lightning details name. */
  datatype Row = Row(kind: Kind, htlc: Option<Hash>, status: Status)

  const PAGE := 100

  predicate Names(r: Row, h: Hash) { r.htlc == Some(h) }

  function OfKind(history: seq<Row>, kind: Kind): seq<Row> {
    if history == [] then []
    else
      var n := |history| - 1;
      OfKind(history[..n], kind) + if history[n].kind == kind then [history[n]] else []
  }

  function Select(rows: seq<Row>, h: Hash): seq<Row> {
    if rows == [] then []
    else
      var n := |rows| - 1;
      Select(rows[..n], h) + if Names(rows[n], h) then [rows[n]] else []
  }

  /** The stored payments of a kind that name `h`, in their stored order. */
  function Matching(history: seq<Row>, kind: Kind, h: Hash): seq<Row> {
    if history == [] then []
    else
      var n := |history| - 1;
      Matching(history[..n], kind, h) + Kept(history[n], kind, h)
  }

  function Kept(r: Row, kind: Kind, h: Hash): seq<Row> {
    if r.kind == kind && Names(r, h) then [r] else []
  }

  /** What the wallet answers for one page. */
  function ListPayments(history: seq<Row>, kind: Kind, limit: nat, offset: nat): seq<Row> {
    var rows := OfKind(history, kind);
    if offset >= |rows| then [] else if offset + limit >= |rows| then rows[offset..] else rows[offset..offset + limit]
  }

  lemma SelectNext(rows: seq<Row>, i: nat, h: Hash)
    requires i < |rows|
    ensures Select(rows[..i + 1], h) == Select(rows[..i], h) + if Names(rows[i], h) then [rows[i]] else []
  {
    assert rows[..i + 1][..i] == rows[..i];
  }

  lemma {:induction false} SelectMatching(history: seq<Row>, kind: Kind, h: Hash)
    ensures Select(OfKind(history, kind), h) == Matching(history, kind, h)
    decreases |history|
  {
    if history != [] {
      var n := |history| - 1;
      SelectMatching(history[..n], kind, h);
      var kept := OfKind(history[..n], kind);
      if history[n].kind == kind {
        assert (kept + [history[n]])[..|kept|] == kept;
      } else {
        assert kept + [] == kept;
      }
    }
  }

  /** `_payments_by_hash`: the pages, wherever they end, add up to the filter of the
      whole history. */
  method PaymentsByHash(history: seq<Row>, kind: Kind, h: Hash) returns (matches: seq<Row>)
    ensures matches == Matching(history, kind, h)
  {
    matches := [];
    var offset := 0;
    ghost var rows := OfKind(history, kind);
    SelectMatching(history, kind, h);
    hide OfKind, Matching, Select;
    assert Select(rows[..0], h) == [] by { SelectNone(rows, h); }
    while true
      invariant offset <= |rows| && matches == Select(rows[..offset], h)
      decreases |rows| - offset
    {
      var page := ListPayments(history, kind, PAGE, offset);
      for i := 0 to |page|
        invariant matches == Select(rows[..offset + i], h)
      {
        SelectNext(rows, offset + i, h);
        if page[i].htlc == Some(h) {
          matches := matches + [page[i]];
        }
      }
      if |page| < PAGE {
        assert rows[..|rows|] == rows;
        return;
      }
      offset := offset + PAGE;
    }
  }

  lemma SelectNone(rows: seq<Row>, h: Hash)
    ensures Select(rows[..0], h) == []
  {
  }

  lemma MatchingSnoc(s: seq<Row>, r: Row, kind: Kind, h: Hash)
    ensures Matching(s + [r], kind, h) == Matching(s, kind, h) + Kept(r, kind, h)
  {
    assert (s + [r])[..|s|] == s;
  }

  lemma Associative<T>(a: seq<T>, b: seq<T>, c: seq<T>)
    ensures (a + b) + c == a + (b + c)
  {
  }

  /** The filter keeps the order of what it keeps. */
  lemma {:induction false} MatchingAppend(a: seq<Row>, b: seq<Row>, kind: Kind, h: Hash)
    ensures Matching(a + b, kind, h) == Matching(a, kind, h) + Matching(b, kind, h)
    decreases |b|
  {
    if b == [] {
      assert a + b == a;
    } else {
      var n := |b| - 1;
      var front, last := b[..n], b[n];
      assert b == front + [last];
      hide Matching, Kept;
      Associative(a, front, [last]);
      MatchingAppend(a, front, kind, h);
      MatchingSnoc(a + front, last, kind, h);
      MatchingSnoc(front, last, kind, h);
      Associative(Matching(a, kind, h), Matching(front, kind, h), Kept(last, kind, h));
    }
  }

  /** It keeps every copy of the rows of the kind that name `h`, and no other. */
  lemma {:induction false} MatchingExact(a: seq<Row>, kind: Kind, h: Hash, r: Row)
    ensures multiset(Matching(a, kind, h))[r] == if r.kind == kind && Names(r, h) then multiset(a)[r] else 0
    decreases |a|
  {
    if a != [] {
      var n := |a| - 1;
      MatchingExact(a[..n], kind, h, r);
      assert a == a[..n] + [a[n]];
      MatchingSnoc(a[..n], a[n], kind, h);
      hide Matching;
      assert multiset(a) == multiset(a[..n]) + multiset{a[n]};
    }
  }

  lemma MatchingRows(history: seq<Row>, kind: Kind, h: Hash)
    ensures forall r :: r in Matching(history, kind, h) <==> r in history && r.kind == kind && Names(r, h)
  {
    forall r ensures r in Matching(history, kind, h) <==> r in history && r.kind == kind && Names(r, h) {
      MatchingExact(history, kind, h, r);
      assert r in Matching(history, kind, h) <==> r in multiset(Matching(history, kind, h));
      assert r in history <==> r in multiset(history);
    }
  }

  // --- The registry of payments that never left ----------------------------

  const MAX := 1024

  function Without(s: seq<Hash>, h: Hash): seq<Hash> {
    if s == [] then [] else (if s[0] == h then [] else [s[0]]) + Without(s[1..], h)
  }

  /** The last `n` entries. */
  function Newest(s: seq<Hash>, n: nat): seq<Hash>
    requires n <= |s|
  {
    s[|s| - n..]
  }

  /** Newest last; beyond the bound the oldest go. */
  function Marked(s: seq<Hash>, h: Hash): seq<Hash> {
    var moved := Without(s, h) + [h];
    if |moved| > MAX then moved[|moved| - MAX..] else moved
  }

  lemma MarkedIs(s: seq<Hash>, h: Hash)
    ensures var moved := Without(s, h) + [h];
            && Marked(s, h) == Newest(moved, if |moved| > MAX then MAX else |moved|)
            && moved == Newest(moved, |moved|)
  {
    hide Without;
  }

  lemma NewestRest(s: seq<Hash>, n: nat)
    requires 0 < n <= |s|
    ensures |Newest(s, n)| == n && Newest(s, n)[1..] == Newest(s, n - 1)
  {
  }

  lemma {:induction false} WithoutExact(s: seq<Hash>, h: Hash)
    ensures |Without(s, h)| <= |s|
    ensures forall g :: g in Without(s, h) <==> g in s && g != h
    ensures L.NoDuplicates(s) ==> L.NoDuplicates(Without(s, h))
    decreases |s|
  {
    if s != [] {
      WithoutExact(s[1..], h);
      assert s == [s[0]] + s[1..];
      if L.NoDuplicates(s) {
        assert L.NoDuplicates(s[1..]);
        assert s[0] !in s[1..];
      }
    }
  }

  /** Marking keeps the registry free of duplicates and within its bound, and loses
      at most one other payment, the oldest, and that only when it is full. */
  lemma MarkedExact(s: seq<Hash>, h: Hash)
    requires L.NoDuplicates(s) && |s| <= MAX
    ensures L.NoDuplicates(Marked(s, h)) && 0 < |Marked(s, h)| <= MAX && Marked(s, h)[|Marked(s, h)| - 1] == h
    ensures forall g | g in Marked(s, h) && g != h :: g in s
    ensures forall g | g in s && g != h && g !in Marked(s, h) :: |s| == MAX && h !in s && g == s[0]
  {
    WithoutExact(s, h);
    var rest := Without(s, h);
    var moved := rest + [h];
    assert |moved| <= MAX + 1;
    MovedDistinct(rest, h);
    if |moved| > MAX {
      WithoutShorter(s, h);
      forall g | g in rest ensures g == rest[0] || g in moved[1..] {
        var i :| 0 <= i < |rest| && rest[i] == g;
        if i > 0 {
          assert moved[1..][i - 1] == g;
        }
      }
    }
  }

  lemma MovedDistinct(rest: seq<Hash>, h: Hash)
    requires L.NoDuplicates(rest) && h !in rest
    ensures L.NoDuplicates(rest + [h])
    ensures forall k | 0 <= k <= |rest| :: L.NoDuplicates((rest + [h])[k..])
  {
    var moved := rest + [h];
    assert forall i | 0 <= i < |rest| :: moved[i] == rest[i];
    assert L.NoDuplicates(moved);
  }

  lemma {:induction false} WithoutShorter(s: seq<Hash>, h: Hash)
    ensures if h in s then |Without(s, h)| < |s| else Without(s, h) == s
    decreases |s|
  {
    if s != [] {
      WithoutShorter(s[1..], h);
      WithoutExact(s[1..], h);
      assert s == [s[0]] + s[1..];
    }
  }

  // --- Paying --------------------------------------------------------------

  datatype Invoice = Invoice(hash: Option<Hash>, amount: Option<int>)

  /** What preparing the payment comes to: no wallet to prepare it with, the wallet's
      own error or another one, a route that is not a Lightning invoice, or a fee
      quote in sats. */
  datatype Prepare = NoWallet | PrepareRaises | PrepareBreaks | NotLightning | Quote(fee: nat)

  /** What sending it comes to: the wallet's own leaf selection failing, any other
      error, or a payment in some status, with its preimage or without. */
  datatype Sending = NoLeaves | SendRaises | SendReturns(status: Status, preimage: bool)

  datatype Paid = Paid | Raised

  /** Turned away in a way that is on record: nothing was sent. */
  predicate TurnedAway(i: Option<Invoice>, limit: int, prepare: Prepare, send: Sending) {
    i.Some? && i.value.hash.Some? &&
    (i.value.amount.None? || i.value.amount.value % 1000 != 0 || prepare.PrepareRaises?
     || (prepare.Quote? && (prepare.fee * 1000 > limit || send.NoLeaves?)))
  }

  /** send_payment was called and got past leaf selection. */
  predicate LeftWallet(i: Option<Invoice>, limit: int, prepare: Prepare, send: Sending) {
    && i.Some? && i.value.amount.Some? && i.value.amount.value % 1000 == 0
    && prepare.Quote? && prepare.fee * 1000 <= limit && !send.NoLeaves?
  }

  /** An attempt on record never left; one that did not leave is on record, unless
      the invoice cannot be read or has no hash, or it can be paid but there is no
      wallet, preparing breaks, or it resolves to another route. */
  lemma TurnedAwayExact(i: Option<Invoice>, limit: int, prepare: Prepare, send: Sending)
    ensures TurnedAway(i, limit, prepare, send) <==>
              && i.Some? && i.value.hash.Some? && !LeftWallet(i, limit, prepare, send)
              && !(i.value.amount.Some? && i.value.amount.value % 1000 == 0
                   && (prepare.NoWallet? || prepare.PrepareBreaks? || prepare.NotLightning?))
  {
  }

  // --- Asking --------------------------------------------------------------

  /** The answer the stored rows and the registry support; None is a raise. */
  function Answer(rows: seq<Row>, registered: bool): Option<bool> {
    if rows == [] then if registered then Some(false) else None
    else if exists r :: r in rows && r.status.Completed? then Some(true)
    else if exists r :: r in rows && r.status.Waiting? then None
    else Some(false)
  }

  /** Whether asking gets as far as a sync: no row, no entry, and a first probe. */
  predicate Syncs(history: seq<Row>, rejected: seq<Hash>, h: Hash, before: bool) {
    Matching(history, Send, h) == [] && h !in rejected && before
  }

  /** What asking comes to, given the rows first read, the registry, the rows after
      the sync, and how the two probes around it went. */
  function Asked(history: seq<Row>, rejected: seq<Hash>, h: Hash, before: bool, synced: seq<Row>, after: bool)
    : Option<bool>
  {
    if !Syncs(history, rejected, h, before) then Answer(Matching(history, Send, h), h in rejected)
    else if after then Answer(Matching(synced, Send, h), false)
    else None
  }

  /** A stored row of a payment sent for `h`, in this status. */
  predicate Shows(rows: seq<Row>, h: Hash, status: Status) {
    Row(Send, Some(h), status) in rows
  }

  predicate Silent(rows: seq<Row>, h: Hash) {
    forall status :: !Shows(rows, h, status)
  }

  /** Its rows, at least one, all failed. */
  predicate AllFailed(rows: seq<Row>, h: Hash) {
    Shows(rows, h, Failed) && !Shows(rows, h, Completed) && !Shows(rows, h, Waiting)
  }

  /** What one reading of the rows supports: Yes for a completed one, No if all
      failed, or if there are none and the payment is registered as never sent. */
  lemma AnswerExact(rows: seq<Row>, h: Hash, registered: bool)
    ensures var r := Answer(Matching(rows, Send, h), registered);
            && (r == Some(true) <==> Shows(rows, h, Completed))
            && (r == Some(false) <==> AllFailed(rows, h) || (Silent(rows, h) && registered))
    ensures Matching(rows, Send, h) == [] <==> Silent(rows, h)
  {
    MatchingRows(rows, Send, h);
    var found := Matching(rows, Send, h);
    hide Matching;
    HasFirst(found);
    forall status ensures Row(Send, Some(h), status) in found <==> Shows(rows, h, status) {
    }
    forall r | r in found ensures r == Row(Send, Some(h), r.status) {
    }
  }

  /** What a whole question comes to: a completed row among those first read is a
      Yes whatever the probes; with no row and no entry it is what the rows after
      the sync support, if both probes succeed; with anything less, a raise. */
  lemma AskedExact(history: seq<Row>, rejected: seq<Hash>, h: Hash, before: bool, synced: seq<Row>, after: bool)
    ensures var r := Asked(history, rejected, h, before, synced, after);
            var waited := Silent(history, h) && h !in rejected && before && after;
            && (r == Some(true) <==> Shows(history, h, Completed) || (waited && Shows(synced, h, Completed)))
            && (r == Some(false) <==>
                  || AllFailed(history, h) || (Silent(history, h) && h in rejected)
                  || (waited && AllFailed(synced, h)))
  {
    AnswerExact(history, h, h in rejected);
    AnswerExact(synced, h, false);
    hide Matching, Answer;
  }

  class Wallet {
    var history: seq<Row>
    var rejected: seq<Hash>

    ghost predicate Valid()
      reads this
    {
      L.NoDuplicates(rejected) && |rejected| <= MAX
    }

    constructor ()
      ensures Valid() && history == [] && rejected == []
    {
      history, rejected := [], [];
    }

    /** `_mark_prepare_rejected`. */
    method MarkPrepareRejected(h: Hash)
      requires Valid()
      modifies this`rejected
      ensures Valid() && rejected == Marked(old(rejected), h)
    {
      MarkedExact(rejected, h);
      MarkedIs(rejected, h);
      hide Without, Marked, L.NoDuplicates;
      rejected := Without(rejected, h) + [h];
      ghost var moved := rejected;
      while |rejected| > MAX
        invariant |rejected| <= |moved| && rejected == Newest(moved, |rejected|)
        invariant |rejected| >= if |moved| > MAX then MAX else |moved|
        decreases |rejected|
      {
        NewestRest(moved, |rejected|);
        rejected := rejected[1..];
      }
    }

    /** `_pay_invoice_spark`: which attempts are registered as never sent. */
    method PayInvoice(i: Option<Invoice>, limit: int, prepare: Prepare, send: Sending) returns (r: Paid, sent: bool)
      requires Valid()
      modifies this`rejected
      ensures Valid()
      ensures rejected == if TurnedAway(i, limit, prepare, send) then Marked(old(rejected), i.value.hash.value)
                          else old(rejected)
      ensures sent <==> LeftWallet(i, limit, prepare, send)
      ensures sent <==>
                && i.Some? && i.value.amount.Some? && i.value.amount.value % 1000 == 0
                && prepare.Quote? && prepare.fee * 1000 <= limit && !send.NoLeaves?
      ensures r.Paid? <==> sent && send == SendReturns(Completed, true)
    {
      r, sent := Raised, false;
      if i.None? {
        return;
      }
      var hash := i.value.hash;
      if i.value.amount.None? || i.value.amount.value % 1000 != 0 {
        if hash.Some? {
          MarkPrepareRejected(hash.value);
        }
        return;
      }
      if prepare.NoWallet? {
        return;
      }
      if prepare.PrepareRaises? {
        if hash.Some? {
          MarkPrepareRejected(hash.value);
        }
        return;
      }
      if prepare.PrepareBreaks? || prepare.NotLightning? {
        return;
      }
      if prepare.fee * 1000 > limit {
        if hash.Some? {
          MarkPrepareRejected(hash.value);
        }
        return;
      }
      if send.NoLeaves? {
        if hash.Some? {
          MarkPrepareRejected(hash.value);
        }
        return;
      }
      sent := true;
      if send.SendReturns? && send.status.Completed? && send.preimage {
        r := Paid;
      }
    }

    /** `_is_payment_complete_spark`.  A missing row is given a sync to turn up in,
        between two probes of the network, any of which may raise. */
    method IsPaymentComplete(h: Hash, before: bool, synced: seq<Row>, after: bool) returns (r: Option<bool>)
      modifies this`history
      ensures history == if Silent(old(history), h) && h !in rejected && before then synced else old(history)
      ensures r == Asked(old(history), rejected, h, before, synced, after)
    {
      var rows := PaymentsByHash(history, Send, h);
      AnswerExact(history, h, h in rejected);
      if rows == [] && h in rejected {
        return Some(false);
      }
      if rows == [] {
        if !before {
          return None;
        }
        history := synced;
        if !after {
          return None;
        }
        rows := PaymentsByHash(history, Send, h);
      }
      if rows == [] {
        return None;
      }
      if exists p :: p in rows && p.status.Completed? {
        return Some(true);
      }
      if exists p :: p in rows && p.status.Waiting? {
        return None;
      }
      return Some(false);
    }
  }

  // --- Runs of the backend -------------------------------------------------

  /** What has become of the transfer for a payment, at the service provider. */
  datatype Fate = NotSent | Moving | Arrived | Dropped

  /** `attempted` is every payment ever handed to pay_invoice, `away` every one
      turned away before anything was sent, `marked` those registered since this
      process started. */
  datatype Backend = Backend(
    rows: seq<Row>,
    rejected: seq<Hash>,
    marked: set<Hash>,
    attempted: set<Hash>,
    away: set<Hash>,
    fates: map<Hash, Fate>)

  const NEW := Backend([], [], {}, {}, {}, map[])

  function FateOf(b: Backend, h: Hash): Fate {
    if h in b.fates then b.fates[h] else NotSent
  }

  /** A row tells of a final outcome only after the fact. */
  predicate MayShow(status: Status, fate: Fate) {
    match status
    case Completed => fate.Arrived?
    case Waiting => !fate.NotSent?
    case Failed => fate.Dropped?
  }

  datatype Step =
    | Attempt(h: Hash)              // the router calls pay_invoice: once per payment
    | TurnAway(h: Hash)             // turned away before anything was sent, and registered
    | Leave(h: Hash)                // the transfer request reaches the provider
    | Conclude(h: Hash, fate: Fate)
    | Store(i: nat, row: Row)       // the wallet stores a row
    | Restore(i: nat, status: Status)
    | Restart

  /** A request may reach the provider at any time after the call began, the call
      over and the process restarted or not, unless the payment was turned away. */
  predicate Possible(b: Backend, s: Step) {
    match s
    case Attempt(h) => h !in b.attempted
    case TurnAway(h) => h in b.attempted && FateOf(b, h).NotSent?
    case Leave(h) => h in b.attempted && h !in b.away
    case Conclude(h, fate) => FateOf(b, h).Moving? && (fate.Arrived? || fate.Dropped?)
    case Store(i, row) =>
      i <= |b.rows| && (row.kind.Send? && row.htlc.Some? ==> MayShow(row.status, FateOf(b, row.htlc.value)))
    case Restore(i, status) =>
      && i < |b.rows|
      && (b.rows[i].kind.Send? && b.rows[i].htlc.Some? ==> MayShow(status, FateOf(b, b.rows[i].htlc.value)))
    case Restart => true
  }

  function Next(b: Backend, s: Step): Backend
    requires Possible(b, s)
  {
    match s
    case Attempt(h) => b.(attempted := b.attempted + {h})
    case TurnAway(h) => b.(rejected := Marked(b.rejected, h), marked := b.marked + {h}, away := b.away + {h})
    case Leave(h) => if FateOf(b, h).NotSent? then b.(fates := b.fates[h := Moving]) else b
    case Conclude(h, fate) => b.(fates := b.fates[h := fate])
    case Store(i, row) => b.(rows := b.rows[..i] + [row] + b.rows[i..])
    case Restore(i, status) => b.(rows := b.rows[i := b.rows[i].(status := status)])
    case Restart => b.(rejected := [], marked := {})
  }

  ghost predicate Run(b: Backend, steps: seq<Step>, b': Backend)
    decreases |steps|
  {
    if steps == [] then b' == b else Possible(b, steps[0]) && Run(Next(b, steps[0]), steps[1..], b')
  }

  predicate RowOk(b: Backend, r: Row) {
    r.kind.Send? && r.htlc.Some? ==> MayShow(r.status, FateOf(b, r.htlc.value))
  }

  /** Rows are truthful, only attempted payments have a fate, and one turned away
      never left. */
  predicate Honest(b: Backend) {
    && L.NoDuplicates(b.rejected) && |b.rejected| <= MAX
    && (forall h | h in b.rejected :: h in b.marked)
    && b.marked <= b.away <= b.attempted && b.fates.Keys <= b.attempted
    && (forall h | h in b.away :: FateOf(b, h).NotSent?)
    && (forall i | 0 <= i < |b.rows| :: RowOk(b, b.rows[i]))
  }

  /** The payment will never arrive: it was dropped, or turned away unsent. */
  predicate Hopeless(b: Backend, h: Hash) {
    FateOf(b, h).Dropped? || h in b.away
  }

  /** The steps a payment's fate can take. */
  predicate FateMoves(x: Fate, y: Fate) {
    x == y || (x.NotSent? && y.Moving?) || (x.Moving? && (y.Arrived? || y.Dropped?))
  }

  lemma StepHonest(b: Backend, s: Step)
    requires Honest(b) && Possible(b, s)
    ensures Honest(Next(b, s)) && b.away <= Next(b, s).away && b.attempted <= Next(b, s).attempted
    ensures forall h :: FateMoves(FateOf(b, h), FateOf(Next(b, s), h))
    ensures forall h | Hopeless(b, h) :: Hopeless(Next(b, s), h)
  {
    hide Marked, Without, L.NoDuplicates;
    var b' := Next(b, s);
    if s.TurnAway? {
      MarkedExact(b.rejected, s.h);
    }
    forall i | 0 <= i < |b'.rows| ensures RowOk(b', b'.rows[i]) {
      if s.Store? && i > s.i {
        assert RowOk(b, b.rows[i - 1]);
      } else if i < |b.rows| {
        assert RowOk(b, b.rows[i]);
      }
    }
    if s.Restart? {
      assert L.NoDuplicates<Hash>([]) by { NoneDuplicated(); }
    }
  }

  lemma NoneDuplicated()
    ensures L.NoDuplicates<Hash>([])
  {
  }

  /** What the wallet answers about a payment in the state `b`. */
  function Answers(b: Backend, h: Hash): Option<bool> {
    Answer(Matching(b.rows, Send, h), h in b.rejected)
  }

  /** No is said exactly of a payment whose stored rows, at least one, all failed,
      or that has no row and is registered as never sent. */
  lemma NoExact(b: Backend, h: Hash)
    ensures Answers(b, h) == Some(false) <==>
              if forall r | r in b.rows :: !(r.kind.Send? && Names(r, h)) then h in b.rejected
              else forall r | r in b.rows && r.kind.Send? && Names(r, h) :: r.status.Failed?
  {
    MatchingRows(b.rows, Send, h);
    var rows := Matching(b.rows, Send, h);
    if rows != [] {
      assert rows[0] in rows;
    }
  }

  /** Yes is said exactly of a payment with a completed stored row. */
  lemma YesExact(b: Backend, h: Hash)
    ensures Answers(b, h) == Some(true) <==> Shows(b.rows, h, Completed)
  {
    AnswerExact(b.rows, h, h in b.rejected);
  }

  lemma TruthfulNow(b: Backend, h: Hash)
    requires Honest(b)
    ensures Answers(b, h) == Some(true) ==> FateOf(b, h).Arrived?
    ensures Answers(b, h) == Some(false) ==> Hopeless(b, h)
  {
    MatchingRows(b.rows, Send, h);
    var rows := Matching(b.rows, Send, h);
    forall r | r in rows ensures MayShow(r.status, FateOf(b, h)) {
      var i :| 0 <= i < |b.rows| && b.rows[i] == r;
      assert RowOk(b, b.rows[i]);
    }
    if rows != [] {
      assert rows[0] in rows;
    }
  }

  /** Asking takes its time: the rows are read in one state, the registry in a later
      one, the rows after a sync in a later one still.  Whatever it comes to is what
      the wallet answers in one of the three, or a raise. */
  lemma AskedIsAnswer(b0: Backend, b1: Backend, b2: Backend, h: Hash, before: bool, after: bool)
    requires Honest(b1)
    ensures var r := Asked(b0.rows, b1.rejected, h, before, b2.rows, after);
            r == None || r == Answers(b0, h) || r == Answers(b1, h) || r == Answers(b2, h)
  {
    if h in b1.rejected {
      AwayNoRows(b1, h);
    }
  }

  /** A payment turned away has no row. */
  lemma AwayNoRows(b: Backend, h: Hash)
    requires Honest(b) && h in b.away
    ensures Matching(b.rows, Send, h) == []
  {
    MatchingRows(b.rows, Send, h);
    var rows := Matching(b.rows, Send, h);
    forall r | r in b.rows ensures !(r.kind.Send? && Names(r, h)) {
      var i :| 0 <= i < |b.rows| && b.rows[i] == r;
      assert RowOk(b, b.rows[i]);
    }
    hide Matching;
    HasFirst(rows);
  }

  lemma HasFirst(rows: seq<Row>)
    ensures rows == [] || rows[0] in rows
  {
  }

  lemma {:induction false} RunHonest(b: Backend, steps: seq<Step>, b': Backend)
    requires Honest(b) && Run(b, steps, b')
    ensures Honest(b')
    decreases |steps|
  {
    hide Honest, Hopeless, FateMoves, Possible, Next;
    if steps != [] {
      StepHonest(b, steps[0]);
      RunHonest(Next(b, steps[0]), steps[1..], b');
    }
  }

  /** A No is final: whatever happens afterwards, the payment never arrives. */
  lemma {:induction false} NoIsFinal(b: Backend, h: Hash, steps: seq<Step>, b': Backend)
    requires Honest(b) && Run(b, steps, b') && Hopeless(b, h)
    ensures Honest(b') && Hopeless(b', h)
    decreases |steps|
  {
    hide Honest, Hopeless, FateMoves, Possible, Next;
    if steps != [] {
      StepHonest(b, steps[0]);
      NoIsFinal(Next(b, steps[0]), h, steps[1..], b');
    }
  }

  /** From the start of the mint: once No has been said of a payment, it never
      arrives. */
  lemma NoMeansNever(before: seq<Step>, b: Backend, h: Hash, steps: seq<Step>, b': Backend)
    requires Run(NEW, before, b) && Answers(b, h) == Some(false) && Run(b, steps, b')
    ensures !FateOf(b', h).Arrived? && !FateOf(b', h).Moving?
  {
    RunHonest(NEW, before, b);
    TruthfulNow(b, h);
    NoIsFinal(b, h, steps, b');
  }

  /** Forgetting the oldest entries never makes the answer wrong: compared with a
      registry without a bound it only ever turns a No into a raise, and does so
      exactly for a payment without rows whose entry is gone. */
  lemma EvictionOnlyRaises(steps: seq<Step>, b: Backend, h: Hash)
    requires Run(NEW, steps, b)
    ensures var unbounded := Answer(Matching(b.rows, Send, h), h in b.marked);
            if Matching(b.rows, Send, h) == [] && h in b.marked && h !in b.rejected
            then unbounded == Some(false) && Answers(b, h) == None
            else Answers(b, h) == unbounded
  {
    RunHonest(NEW, steps, b);
  }
}
