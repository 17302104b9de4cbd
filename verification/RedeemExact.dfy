/** Which requests to rotate, split, merge or transfer succeed, and what they yield. */
module RedeemExact {
  import opened Wrappers
  import opened BurnKeys
  import opened Ledger
  import opened LedgerInvariant
  import opened LedgerExact
  import opened Redeem

  // --- Rotate, split and merge ---------------------------------------------

  /** Well formed, of notes on file, and not a split while the mint is winding down. */
  predicate Proper(policy: Policy, db: Db, req: Request) {
    && |req.ids| <= policy.maxK1s && req.p1.Some? && OnFile(db, req.ids)
    && (req.amount.Some? ==> !policy.sunset && req.p2.Some?)
  }

  /** A burn of just these notes is on record, with the outputs asked for and, if
      they were split, the amount asked for. */
  predicate OnRecord(db: Db, req: Request) {
    var key := BurnKey(req.ids);
    && key in db.burns && Some(db.burns[key].id) == req.p1
    && if req.amount.Some? then db.burns[key].id2 == req.p2 && Some(db.burns[key].amount) == req.amount
       else db.burns[key].id2.None?
  }

  /** The notes are distinct and free, the outputs distinct and unused, and a split
      leaves at least one msat of change once one base fee is taken. */
  predicate Exchangeable(policy: Policy, db: Db, req: Request)
    requires Proper(policy, db, req)
  {
    && NoDuplicates(req.ids) && AllFree(db, req.ids) && Unused(db, req.p1.value)
    && (req.amount.Some? ==>
          && req.p2 != req.p1 && Unused(db, req.p2.value)
          && 0 < req.amount.value && req.amount.value + policy.fees.baseFee < Value(db, req.ids))
  }

  /** A split yields the amount asked for and the rest but for one base fee, however
      many notes it burns; a merge the whole and a base fee for each note saved. */
  predicate Yields(policy: Policy, db: Db, req: Request, reply: Reply)
    requires Proper(policy, db, req) && reply.Minted?
  {
    var base := policy.fees.baseFee;
    && Some(reply.first.id) == req.p1
    && if req.amount.Some? then
         && Some(reply.first.amount) == req.amount && reply.second.Some? && Some(reply.second.value.id) == req.p2
         && reply.first.amount + reply.second.value.amount + base == Value(db, req.ids)
       else
         reply.second.None? && reply.first.amount + base == Value(db, req.ids) + |req.ids| * base
  }

  function Outputs(reply: Reply): seq<Output>
    requires reply.Minted?
  {
    [reply.first] + if reply.second.Some? then [reply.second.value] else []
  }

  /** Exactly when a request mints, and what: a retry gets what is on record and
      changes nothing, any other burns its notes for the outputs it was due, and a
      refusal changes nothing. */
  lemma MutationExact(policy: Policy, db: Db, req: Request, seenSpent: bool)
    requires Inv(db) && |req.ids| >= 1
    ensures var r := Mutate(policy, db, req, seenSpent);
            && (r.reply.Minted? <==>
                  Proper(policy, db, req) && (OnRecord(db, req) || (!seenSpent && Exchangeable(policy, db, req))))
            && (r.reply.Refused? ==> r.db == db)
            && (r.reply.Minted? ==>
                  if OnRecord(db, req) then r == Response(Recorded(db.burns[BurnKey(req.ids)]), db)
                  else Yields(policy, db, req, r.reply) && Exchanged(db, req.ids, Outputs(r.reply), None, r.db))
  {
    RetryExact(policy, db, req);
    hide Inv, BurnKey, SplitNotes, MergeNotes, OnRecord, Answers, Exchangeable, Yields, Exchanged;
    if Proper(policy, db, req) {
      if req.amount.Some? {
        SplitExact(policy, db, req);
      } else {
        MergeExact(policy, db, req);
      }
    }
  }

  lemma RetryExact(policy: Policy, db: Db, req: Request)
    ensures Proper(policy, db, req) ==>
              (OnRecord(db, req) <==> FindBurn(db, req.ids).Some? && Answers(FindBurn(db, req.ids).value, req))
  {
    hide BurnKey;
  }

  lemma SplitExact(policy: Policy, db: Db, req: Request)
    requires Inv(db) && |req.ids| >= 1 && Proper(policy, db, req) && req.amount.Some?
    ensures var r := SplitNotes(policy, db, req);
            && (r.reply.Minted? <==> Exchangeable(policy, db, req)) && (r.reply.Refused? ==> r.db == db)
            && (r.reply.Minted? ==>
                  Yields(policy, db, req, r.reply) && Exchanged(db, req.ids, Outputs(r.reply), None, r.db))
  {
    hide Inv, BurnKey, Swap, Exchanged, Value, AllFree, NoDuplicates, Unused;
    var amount := req.amount.value;
    var change := Value(db, req.ids) - amount - policy.fees.baseFee;
    SwappedExact(db, req.ids, [Output(req.p1.value, amount), Output(req.p2.value, change)]);
    PairUnused(db, Output(req.p1.value, amount), Output(req.p2.value, change));
  }

  lemma MergeExact(policy: Policy, db: Db, req: Request)
    requires Inv(db) && |req.ids| >= 1 && Proper(policy, db, req) && req.amount.None?
    ensures var r := MergeNotes(policy, db, req);
            && (r.reply.Minted? <==> Exchangeable(policy, db, req)) && (r.reply.Refused? ==> r.db == db)
            && (r.reply.Minted? ==>
                  Yields(policy, db, req, r.reply) && Exchanged(db, req.ids, Outputs(r.reply), None, r.db))
  {
    hide Inv, BurnKey, Swap, Exchanged, Value, AllFree, NoDuplicates, Unused;
    var n, base := |req.ids|, policy.fees.baseFee;
    OneFeeMore(n, base);
    var out := Output(req.p1.value, Value(db, req.ids) + (n - 1) * base);
    SwappedExact(db, req.ids, [out]);
    OneUnused(db, out);
  }

  lemma SwappedExact(db: Db, ids: seq<NoteId>, outs: seq<Output>)
    requires Inv(db) && |ids| >= 1 && 1 <= |outs| <= 2
    ensures var r := Swapped(db, ids, outs);
            && (r.reply.Minted? <==>
                  NoDuplicates(ids) && AllFree(db, ids) && NoDuplicates(OutputIds(outs)) && AllUnused(db, outs))
            && (r.reply.Refused? ==> r.db == db)
            && (r.reply.Minted? ==> Outputs(r.reply) == outs && Exchanged(db, ids, outs, None, r.db))
  {
    hide *;
    SwapExact(db, ids, outs, None);
    SwappedShape(db, ids, outs);
  }

  lemma SwappedShape(db: Db, ids: seq<NoteId>, outs: seq<Output>)
    requires 1 <= |outs| <= 2
    ensures var r, swap := Swapped(db, ids, outs), Swap(db, ids, outs, None);
            && (r.reply.Minted? <==> swap.Ok?) && (r.reply.Refused? ==> r.db == db)
            && (r.reply.Minted? ==> r.db == swap.value && Outputs(r.reply) == outs)
  {
    hide Swap;
  }

  lemma PairUnused(db: Db, a: Output, b: Output)
    ensures NoDuplicates(OutputIds([a, b])) <==> a.id != b.id
    ensures AllUnused(db, [a, b]) <==> Unused(db, a.id) && Unused(db, b.id)
  {
    hide Unused;
    var ids := OutputIds([a, b]);
    assert ids[0] == a.id && ids[1] == b.id;
    assert a in [a, b] && b in [a, b];
  }

  lemma OneUnused(db: Db, a: Output)
    ensures NoDuplicates(OutputIds([a])) && (AllUnused(db, [a]) <==> Unused(db, a.id))
  {
    hide Unused;
    assert a in [a];
  }

  // --- Internal transfer ---------------------------------------------------

  /** The note was paid to this username, in this amount, before. */
  predicate Delivered(db: Db, id: NoteId, username: string, amount: int) {
    var key := BurnKey([id]);
    key in db.burns && db.burns[key].recipient == Some(username) && db.burns[key].amount == amount
  }

  /** The note is spent, its whole value is a new note under the share's next unused
      id, the share's index is past it, the burn is on record, and nothing else
      changed. */
  ghost predicate Delivers(db: Db, id: NoteId, username: string, derive: Derive, db': Db)
    requires id in db.notes
  {
    exists to: NoteId :: DeliveredTo(db, id, username, derive, db', to)
  }

  ghost predicate DeliveredTo(db: Db, id: NoteId, username: string, derive: Derive, db': Db, to: NoteId)
    requires id in db.notes
  {
    && CreditsShare(db, username, derive, db', to)
    && Exchanged(db.(users := db'.users), [id], [Output(to, db.notes[id].amount)], Some(username), db')
  }

  /** Exactly when an internal transfer is answered with success, and what it does:
      nothing the second time. */
  lemma TransferExact(policy: Policy, db: Db, username: string, amount: int, id: NoteId, derive: Derive)
    requires Inv(db) && (Free(db, id) ==> ClaimEnds(db, username, derive))
    ensures var r := InternalTransfer(policy, db, username, amount, id, derive);
            && (r.reply.Transferred? <==>
                  && policy.floor <= amount <= policy.fees.maxSendable && id in db.notes
                  && (Delivered(db, id, username, amount)
                      || (Free(db, id) && amount == db.notes[id].amount && username in db.users)))
            && (if r.reply.Transferred? && !Delivered(db, id, username, amount)
                then Delivers(db, id, username, derive, r.db) else r.db == db)
  {
    RecordedTransfer(db, id, username, amount);
    hide Inv, BurnKey, Transfer, Delivers, ClaimEnds, Delivered, Credited1;
    if id in db.notes && Free(db, id) && amount == db.notes[id].amount {
      TransferDelivers(db, username, amount, id, derive);
    }
  }

  lemma RecordedTransfer(db: Db, id: NoteId, username: string, amount: int)
    ensures Credited1(db, id, username, amount) <==> Delivered(db, id, username, amount)
  {
    hide BurnKey;
  }

  lemma TransferDelivers(db: Db, username: string, amount: int, id: NoteId, derive: Derive)
    requires Inv(db) && Free(db, id) && amount == db.notes[id].amount && ClaimEnds(db, username, derive)
    ensures var r := Transfer(db, [id], username, amount, derive);
            && (r.Ok? <==> username in db.users)
            && (r.Ok? ==> Delivers(db, id, username, derive, r.value.db))
  {
    if username in db.users {
      ClaimKeeps(db, username, derive);
      ClaimCreditsShare(db, username, derive);
      var claim := ClaimIndex(db, username, derive).value;
      var out := Output(claim.id, amount);
      OneUnused(claim.db, out);
      OneFree(claim.db, id);
      hide Inv, BurnKey, ClaimIndex, ClaimEnds, AllFree, NoDuplicates, AllUnused, Exchanged, CreditsShare, InUse;
      assert Unused(claim.db, claim.id);
      SwapExact(claim.db, [id], [out], Some(username));
      SwapUsers(claim.db, [id], [out], Some(username));
      hide Swap, Unused;
      assert DeliveredTo(db, id, username, derive, Transfer(db, [id], username, amount, derive).value.db, claim.id);
    }
  }

  lemma SwapUsers(db: Db, ids: seq<NoteId>, outs: seq<Output>, recipient: Option<string>)
    ensures Swap(db, ids, outs, recipient).Ok? ==> Swap(db, ids, outs, recipient).value.users == db.users
  {
    hide BurnKey;
  }
}
