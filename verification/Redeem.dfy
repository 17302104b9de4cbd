/** The redeem callback's rotate, split and merge, and the internal transfer:
    what is checked, what is burned and minted, and what a retry gets. */
module Redeem {
  import opened Wrappers
  import opened BurnKeys
  import opened Ledger
  import opened LedgerInvariant
  import Fees

  /** `floor` is the advertised minimum the walk found. */
  datatype Policy = Policy(fees: Fees.Settings, floor: nat, sunset: bool, maxK1s: nat)

  /** A request once its k1s are resolved to the notes they open. */
  datatype Request = Request(ids: seq<NoteId>, p1: Option<NoteId>, p2: Option<NoteId>, amount: Option<int>)

  /** A certificate is issued for every output, over its id and amount. */
  datatype Reply = Refused(reason: string) | Minted(first: Output, second: Option<Output>)

  datatype Response = Response(reply: Reply, db: Db)

  function Refuse(db: Db, reason: string): Response { Response(Refused(reason), db) }

  predicate OnFile(db: Db, ids: seq<NoteId>) {
    forall i | 0 <= i < |ids| :: ids[i] in db.notes
  }

  predicate SomeSpent(db: Db, ids: seq<NoteId>) {
    exists i :: 0 <= i < |ids| && Spent(db.notes, ids[i])
  }

  function Value(db: Db, ids: seq<NoteId>): int
    requires OnFile(db, ids)
    decreases |ids|
  {
    if |ids| == 0 then 0
    else
      var n := |ids| - 1;
      Value(db, ids[..n]) + db.notes[ids[n]].amount
  }

  /** `p2` only means anything beside an amount. */
  function SecondId(req: Request): Option<NoteId> {
    if req.amount.Some? then req.p2 else None
  }

  function Recorded(b: Burn): Reply {
    Minted(Output(b.id, b.amount),
           if b.id2.Some? && b.amount2.Some? then Some(Output(b.id2.value, b.amount2.value)) else None)
  }

  /** A recorded burn answers a request that names the same outputs and amount. */
  predicate Answers(b: Burn, req: Request) {
    && Some(b.id) == req.p1 && b.id2 == SecondId(req)
    && (if b.id2.Some? then Some(b.amount) else None) == req.amount
  }

  /** `seenSpent` is whether any note was already spent when its k1 was verified;
      the notes may have changed since, while later k1s were being verified. */
  function Mutate(policy: Policy, db: Db, req: Request, seenSpent: bool): Response
    requires |req.ids| >= 1
  {
    if |req.ids| > policy.maxK1s then Refuse(db, "Too many k1s")
    else if policy.sunset && req.amount.Some? then Refuse(db, "splitting is disabled")
    else if req.p1.None? then Refuse(db, "missing p1")
    else if req.amount.Some? && req.p2.None? then Refuse(db, "missing p2")
    else if !OnFile(db, req.ids) then Refuse(db, "Invalid or already spent k1.")
    else if FindBurn(db, req.ids).Some? && Answers(FindBurn(db, req.ids).value, req) then
      Response(Recorded(FindBurn(db, req.ids).value), db)
    else if seenSpent then Refuse(db, "already in use")
    else if req.amount.Some? then SplitNotes(policy, db, req)
    else MergeNotes(policy, db, req)
  }

  function SplitNotes(policy: Policy, db: Db, req: Request): Response
    requires OnFile(db, req.ids) && req.p1.Some? && req.amount.Some? && req.p2.Some?
  {
    var amount, total := req.amount.value, Value(db, req.ids);
    if !(0 < amount < total) then Refuse(db, "amount out of range")
    else if total - amount < policy.fees.baseFee then Refuse(db, "insufficient value")
    else
      var change := total - amount - policy.fees.baseFee;
      if change < 1 then Refuse(db, "insufficient value")
      else Swapped(db, req.ids, [Output(req.p1.value, amount), Output(req.p2.value, change)])
  }

  /** Rotate is a merge of one note. */
  function MergeNotes(policy: Policy, db: Db, req: Request): Response
    requires OnFile(db, req.ids) && req.p1.Some?
  {
    var refund := (|req.ids| - 1) * policy.fees.baseFee;
    Swapped(db, req.ids, [Output(req.p1.value, Value(db, req.ids) + refund)])
  }

  function Swapped(db: Db, ids: seq<NoteId>, outs: seq<Output>): Response
    requires 1 <= |outs| <= 2
  {
    match Swap(db, ids, outs, None)
    case Err(e) => Refuse(db, "refused")
    case Ok(db') => Response(Minted(outs[0], if |outs| > 1 then Some(outs[1]) else None), db')
  }

  // --- What is burned is worth what is minted ------------------------------

  /** Outputs together with one base fee each never exceed the inputs together
      with one base fee each: a split pays the fee for its extra note, and gets
      back none of those its inputs paid beyond the first; a merge gets back
      exactly the fees of the notes it saves. */
  lemma MutationConserves(policy: Policy, db: Db, req: Request)
    requires |req.ids| >= 1 && OnFile(db, req.ids) && req.p1.Some?
    ensures var base := policy.fees.baseFee;
            var worth := Value(db, req.ids) + |req.ids| * base;
            && (req.amount.Some? && req.p2.Some? ==>
                  var r := SplitNotes(policy, db, req).reply;
                  r.Minted? ==> r.second.Some? && 1 <= r.first.amount && 1 <= r.second.value.amount
                                && r.first.amount + r.second.value.amount + 2 * base == worth - (|req.ids| - 1) * base)
            && (var r := MergeNotes(policy, db, req).reply;
                r.Minted? ==> r.second.None? && r.first.amount + base == worth)
  {
    hide Swap;
    var n, base := |req.ids|, policy.fees.baseFee;
    assert n * base == (n - 1) * base + base;
    assert (n - 1) * base >= 0;
  }

  /** Books kept at another base fee than the one in force do not balance: a merge
      of several notes issues more than it burns exactly when the fee was raised. */
  lemma MergeNeedsFee(policy: Policy, kept: nat, db: Db, req: Request)
    requires |req.ids| >= 2 && OnFile(db, req.ids) && req.p1.Some? && MergeNotes(policy, db, req).reply.Minted?
    ensures MergeNotes(policy, db, req).reply.first.amount + kept <= Value(db, req.ids) + |req.ids| * kept
            <==> policy.fees.baseFee <= kept
  {
    hide Swap, Value;
    Scaled(|req.ids| - 1, policy.fees.baseFee, kept);
    OneFeeMore(|req.ids|, kept);
  }

  lemma Scaled(k: nat, a: int, b: int)
    requires k >= 1
    ensures k * a <= k * b <==> a <= b
  {
  }

  lemma OneFeeMore(n: nat, fee: int)
    ensures n * fee == (n - 1) * fee + fee
  {
  }

  /** And a split of one note does exactly when it was lowered. */
  lemma SplitNeedsFee(policy: Policy, kept: nat, db: Db, req: Request)
    requires |req.ids| == 1 && OnFile(db, req.ids) && req.p1.Some? && req.amount.Some? && req.p2.Some?
    requires SplitNotes(policy, db, req).reply.Minted?
    ensures var r := SplitNotes(policy, db, req).reply;
            && r.second.Some?
            && (r.first.amount + r.second.value.amount + 2 * kept <= Value(db, req.ids) + kept
                <==> kept <= policy.fees.baseFee)
  {
    hide Swap, Value;
  }

  // --- Retrying ------------------------------------------------------------

  /** Once a mutation has gone through, its burn is on record, and every note it
      named is spent. */
  lemma MutationRecorded(policy: Policy, db: Db, req: Request, seenSpent: bool)
    requires Inv(db) && |req.ids| >= 1 && Mutate(policy, db, req, seenSpent).reply.Minted?
    ensures var r := Mutate(policy, db, req, seenSpent);
            && Inv(r.db) && Advances(db, r.db) && OnFile(r.db, req.ids)
            && FindBurn(r.db, req.ids).Some? && Answers(FindBurn(r.db, req.ids).value, req)
            && Recorded(FindBurn(r.db, req.ids).value) == r.reply
  {
    hide Inv, BurnKey, Advances, Swap;
    var r := Mutate(policy, db, req, seenSpent);
    if FindBurn(db, req.ids).Some? && Answers(FindBurn(db, req.ids).value, req) {
      NothingUndone(db);
    } else if req.amount.Some? {
      var amount := req.amount.value;
      var change := Value(db, req.ids) - amount - policy.fees.baseFee;
      SwappedRecorded(db, req.ids, [Output(req.p1.value, amount), Output(req.p2.value, change)]);
    } else {
      var merged := Value(db, req.ids) + (|req.ids| - 1) * policy.fees.baseFee;
      SwappedRecorded(db, req.ids, [Output(req.p1.value, merged)]);
    }
    OnFileLater(db, r.db, req.ids);
  }

  lemma NothingUndone(db: Db)
    ensures Advances(db, db)
  {
  }

  lemma OnFileLater(db: Db, later: Db, ids: seq<NoteId>)
    requires OnFile(db, ids) && Advances(db, later)
    ensures OnFile(later, ids)
  {
  }

  lemma SwappedRecorded(db: Db, ids: seq<NoteId>, outs: seq<Output>)
    requires Inv(db) && 1 <= |outs| <= 2 && Swapped(db, ids, outs).reply.Minted?
    ensures var r := Swapped(db, ids, outs);
            && Inv(r.db) && Advances(db, r.db)
            && FindBurn(r.db, ids) == Some(BurnRecord(outs, None))
            && r.reply == Recorded(BurnRecord(outs, None))
  {
    hide Inv, Advances, BurnKey;
    SwapKeeps(db, ids, outs, None);
  }

  /** The same request again, its k1s in any order, in any later state: the same
      outputs and amounts, and nothing changes. */
  lemma RetryReplays(policy: Policy, db: Db, req: Request, seenSpent: bool, later: Db, again: Request, seenSpent': bool)
    requires Inv(db) && |req.ids| >= 1 && Mutate(policy, db, req, seenSpent).reply.Minted?
    requires Advances(Mutate(policy, db, req, seenSpent).db, later)
    requires multiset(again.ids) == multiset(req.ids)
    requires again.(ids := req.ids, p2 := SecondId(again)) == req.(p2 := SecondId(req))
    ensures |again.ids| >= 1
    ensures Mutate(policy, later, again, seenSpent') == Response(Mutate(policy, db, req, seenSpent).reply, later)
  {
    hide Inv, BurnKey;
    SameLength(again.ids, req.ids);
    var r := Mutate(policy, db, req, seenSpent);
    MutationRecorded(policy, db, req, seenSpent);
    OnFileLater(r.db, later, req.ids);
    OnFilePermuted(later, req.ids, again.ids);
    BurnKeyExact(req.ids, again.ids);
  }

  lemma SameLength(a: seq<NoteId>, b: seq<NoteId>)
    requires multiset(a) == multiset(b)
    ensures |a| == |b|
  {
    assert |multiset(a)| == |a| && |multiset(b)| == |b|;
  }

  lemma OnFilePermuted(db: Db, a: seq<NoteId>, b: seq<NoteId>)
    requires OnFile(db, a) && multiset(a) == multiset(b)
    ensures OnFile(db, b)
  {
    forall i | 0 <= i < |b| ensures b[i] in db.notes {
      assert b[i] in multiset(a);
    }
  }

  /** The same notes for anything else, other outputs or another amount: refused,
      and nothing changes. */
  lemma ConflictRefused(policy: Policy, db: Db, req: Request, seenSpent: bool, later: Db, other: Request,
                        seenSpent': bool)
    requires Inv(db) && |req.ids| >= 1 && Mutate(policy, db, req, seenSpent).reply.Minted?
    requires Advances(Mutate(policy, db, req, seenSpent).db, later) && Inv(later)
    requires multiset(other.ids) == multiset(req.ids)
    requires other.(ids := req.ids, p2 := SecondId(other)) != req.(p2 := SecondId(req))
    ensures |other.ids| >= 1
    ensures Mutate(policy, later, other, seenSpent').reply.Refused?
    ensures Mutate(policy, later, other, seenSpent').db == later
  {
    hide Inv, BurnKey, Swap;
    SameLength(other.ids, req.ids);
    var r := Mutate(policy, db, req, seenSpent);
    MutationRecorded(policy, db, req, seenSpent);
    BurnKeyExact(req.ids, other.ids);
    RecordedSpent(later, req.ids);
    assert other.ids[0] in multiset(other.ids) && other.ids[0] in multiset(req.ids);
    assert other.ids[0] in req.ids;
    assert !Free(later, other.ids[0]);
    BurnedRefused(later, other.ids);
  }

  lemma RecordedSpent(db: Db, ids: seq<NoteId>)
    requires Inv(db) && FindBurn(db, ids).Some?
    ensures forall id | id in ids :: Spent(db.notes, id)
  {
    hide KeyIds, BurnKey;
    KeyIdsOf(ids);
    forall id | id in ids ensures Spent(db.notes, id) {
      assert id in KeyIds(BurnKey(ids));
    }
  }

  lemma BurnedRefused(db: Db, ids: seq<NoteId>)
    requires |ids| > 0 && !Free(db, ids[0])
    ensures forall outs, recipient :: Swap(db, ids, outs, recipient).Err?
  {
    assert !AllFree(db, ids);
  }

  // --- Internal transfer ---------------------------------------------------

  datatype TransferReply = TransferRefused(reason: string) | Transferred

  datatype TransferResponse = TransferResponse(reply: TransferReply, db: Db, claim: Option<Claim>)

  /** Paying a registered address with a note: a rotate whose output is the
      share's next unused note. */
  ghost function InternalTransfer(policy: Policy, db: Db, username: string, amount: int, id: NoteId, derive: Derive)
    : TransferResponse
    requires Free(db, id) ==> ClaimEnds(db, username, derive)
  {
    if amount < policy.floor || amount > policy.fees.maxSendable then
      TransferResponse(TransferRefused("Amount outside what this address accepts."), db, None)
    else if id !in db.notes then TransferResponse(TransferRefused("Invalid or already spent k1."), db, None)
    else if Credited1(db, id, username, amount) then TransferResponse(Transferred, db, None)
    else if db.notes[id].spent then TransferResponse(TransferRefused("already in use"), db, None)
    else if db.notes[id].pending then TransferResponse(TransferRefused("pending"), db, None)
    else if amount != db.notes[id].amount then
      TransferResponse(TransferRefused("amount must be the note's full value"), db, None)
    else
      match Transfer(db, [id], username, amount, derive)
      case Err(e) => TransferResponse(TransferRefused("refused"), db, None)
      case Ok(claim) => TransferResponse(Transferred, claim.db, Some(claim))
  }

  /** This very transfer is already on record. */
  predicate Credited1(db: Db, id: NoteId, username: string, amount: int) {
    var b := FindBurn(db, [id]);
    b.Some? && b.value.recipient == Some(username) && b.value.amount == amount
  }

  lemma TransferRecorded(db: Db, id: NoteId, username: string, amount: int, derive: Derive)
    requires Inv(db) && ClaimEnds(db, username, derive) && Transfer(db, [id], username, amount, derive).Ok?
    ensures var claim := Transfer(db, [id], username, amount, derive).value;
            && Inv(claim.db) && Advances(db, claim.db)
            && FindBurn(claim.db, [id]) == Some(Burn(claim.id, None, amount, None, Some(username)))
            && Spent(claim.db.notes, id)
  {
    hide Inv, BurnKey, Advances;
    TransferKeeps(db, [id], username, amount, derive);
    RecordedSpent(Transfer(db, [id], username, amount, derive).value.db, [id]);
    assert id in [id];
  }

  /** A transfer that went through goes through again, crediting nothing more. */
  lemma TransferReplays(policy: Policy, db: Db, username: string, amount: int, id: NoteId, derive: Derive, later: Db)
    requires Inv(db) && (Free(db, id) ==> ClaimEnds(db, username, derive))
    requires InternalTransfer(policy, db, username, amount, id, derive).reply.Transferred?
    requires Advances(InternalTransfer(policy, db, username, amount, id, derive).db, later)
    ensures !Free(later, id)
    ensures InternalTransfer(policy, later, username, amount, id, derive) == TransferResponse(Transferred, later, None)
  {
    hide Inv, BurnKey, Transfer;
    var r := InternalTransfer(policy, db, username, amount, id, derive);
    if r.claim.Some? {
      TransferRecorded(db, id, username, amount, derive);
    } else {
      RecordedSpent(db, [id]);
      assert id in [id];
    }
  }
}
