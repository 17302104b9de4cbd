/** A paid mint that cannot be settled: a run of the mint in which a username is
    deleted between an invoice for it being paid and its note being credited. */
module DeletedName {
  import opened Wrappers
  import opened BurnKeys
  import opened Ledger
  import opened LedgerInvariant
  import opened Protocol
  import opened ProtocolInvariant
  import opened Runs
  import opened StaleSnapshot
  import Fees

  const SHARE := "share"

  /** The username is registered. */
  const NAMED := START.(db := EMPTY.(users := map["u" := User(SHARE, 0)], accepted := {ShareKey(SHARE)}))

  /** An invoice for it is out. */
  const INVOICED := NAMED.(
    db := NAMED.db.(mints := map["h" := Mint(1000, false, None, Some("u"))]),
    gross := map["h" := 1000])

  /** It is paid, but nobody has looked yet. */
  const PAID := INVOICED.(paidIn := {"h"})

  /** The username is deleted. */
  const DELETED := PAID.(db := PAID.db.(users := map[]))

  lemma Names()
    ensures Enabled(P, NoShares, START, RegisterName("u", SHARE))
    ensures Apply(P, NoShares, START, RegisterName("u", SHARE)) == NAMED
  {
    hide ShareKey, NewlySpent;
    assert EMPTY.users["u" := User(SHARE, 0)] == NAMED.db.users;
    assert EMPTY.accepted + {ShareKey(SHARE)} == NAMED.db.accepted;
    assert Register(EMPTY, "u", SHARE, ShareKey(SHARE), 0) == Ok(NAMED.db);
    NoneSpent(EMPTY, NAMED.db);
  }

  lemma Invoices()
    ensures Enabled(P, NoShares, NAMED, RequestInvoice("h", 1000, None, Some("u")))
    ensures Apply(P, NoShares, NAMED, RequestInvoice("h", 1000, None, Some("u"))) == INVOICED
  {
    hide ShareKey, NewlySpent;
    Fees.FreeOfFees(P.fees, 1000);
    assert CreateMint(NAMED.db, "h", 1000, None, Some("u")) == Ok(INVOICED.db);
    NoneSpent(NAMED.db, INVOICED.db);
  }

  lemma Pays()
    ensures Enabled(P, NoShares, INVOICED, Payer("h")) && Apply(P, NoShares, INVOICED, Payer("h")) == PAID
  {
    hide ShareKey;
  }

  lemma Deletes()
    ensures Enabled(P, NoShares, PAID, DeleteName("u")) && Apply(P, NoShares, PAID, DeleteName("u")) == DELETED
  {
    hide ShareKey, NewlySpent;
    assert Delete(PAID.db, "u") == DELETED.db;
    NoneSpent(PAID.db, DELETED.db);
  }

  function Course(): seq<Event> {
    [RegisterName("u", SHARE)] + ([RequestInvoice("h", 1000, None, Some("u"))]
    + ([Payer("h")] + ([DeleteName("u")] + [])))
  }

  lemma CourseIs()
    ensures Course() == [RegisterName("u", SHARE)] + ([RequestInvoice("h", 1000, None, Some("u"))]
                        + ([Payer("h")] + ([DeleteName("u")] + [])))
  {
  }

  lemma CourseRuns()
    ensures Run(P, NoShares, START, Course(), DELETED)
  {
    hide *;
    Names();
    Invoices();
    Pays();
    Deletes();
    Done(DELETED);
    Then(PAID, DeleteName("u"), DELETED, [], DELETED);
    Then(INVOICED, Payer("h"), PAID, [DeleteName("u")] + [], DELETED);
    Then(NAMED, RequestInvoice("h", 1000, None, Some("u")), INVOICED, [Payer("h")] + ([DeleteName("u")] + []), DELETED);
    Then(START, RegisterName("u", SHARE), NAMED,
         [RequestInvoice("h", 1000, None, Some("u"))] + ([Payer("h")] + ([DeleteName("u")] + [])), DELETED);
    CourseIs();
  }

  /** The invoice is paid and its mint not credited, yet settling it is refused,
      whatever the shares derive, until somebody registers the name again. */
  lemma PaidMintRefused(derive: Derive)
    ensures Run(P, NoShares, START, Course(), DELETED)
    ensures "h" in DELETED.paidIn && "h" in DELETED.db.mints && !DELETED.db.mints["h"].minted
    ensures SettleEnds(DELETED.db, "h", derive) && SettleMint(DELETED.db, "h", derive) == Err(UnknownUser)
  {
    CourseRuns();
    hide Run, Course, ShareKey;
  }
}
