# A verified model of lnurl-mint

lnurl-mint is a Lightning-backed mint of bearer notes: a paid invoice becomes a
note, notes are rotated, split and merged, a note is melted by paying somebody
else's invoice, and usernames are registered for shares that payments credit.
This project models the parts of it where guarantees are global rather than local
to one function, and proves those guarantees.

| module | file | what it models |
|---|---|---|
| `Wrappers` | Wrappers.dfy | optional values and results |
| `Checksum`, `Regroup`, `Bech32m` | Checksum.dfy, Regroup.dfy, Bech32m.dfy | the bech32m codec without a length cap, over BIP-173's `polymod`, `hrp_expand` and `convertbits` and BIP-350's constant |
| `PrefixErrors`, `Bip350` | PrefixErrors.dfy, Bip350.dfy | that the checksum protects the prefix, and BIP-350's shortest test vector |
| `Fees` | Fees.dfy | mint fees, the walk to the advertised minimum, the advertised maximum |
| `BurnKeys` | BurnKeys.dfy | the canonical key of a burn |
| `Ledger` | Ledger.dfy | the tables, and each transaction as one function from tables to tables |
| `Store` | NoteStore.dfy | the class `NoteStore`: the same transactions row by row, with loops and rollback |
| `LedgerInvariant` | LedgerInvariant.dfy | what every transaction keeps, and never undoes |
| `LedgerExact` | LedgerExact.dfy | when each transaction goes through, and all it changes |
| `Redeem` | Redeem.dfy | rotate, split, merge, internal transfer, and their retries |
| `RedeemExact` | RedeemExact.dfy | which of those requests succeed, and what they yield |
| `Registry` | Registry.dfy | the reference-counted registry of live melt attempts |
| `Protocol` | Protocol.dfy | the mint as a state machine: handlers, background payments, the reconciler, the funding source, the clock, restarts |
| `Router` | Router.dfy | the class `Service`: the router's code between two awaits, method by method |
| `ProtocolInvariant` | ProtocolInvariant.dfy | what every step keeps, whatever the reconciler restores |
| `ProtocolSafety` | ProtocolSafety.dfy | melt safety, step by step, and the exact condition it needs |
| `Runs` | Runs.dfy | the theorems about whole runs |
| `Outcomes` | Outcomes.dfy | what becomes of a melt once its outcome is told, and when it is on record as settled |
| `Pricing` | Pricing.dfy | what a payment is credited, over whole runs |
| `Totals`, `Conservation` | Totals.dfy, Conservation.dfy | sums over maps, and conservation of value |
| `Claims` | Claims.dfy | crediting a share: the index search ends, and indices only grow |
| `Spark` | Spark.dfy | the spark backend's paged scan, bounded registry and confirmation rule |
| `SparkRegistry` | SparkRegistry.dfy | what that registry remembers, over any number of markings |
| `SparkMint` | SparkMint.dfy | the mint on the spark backend, the two running side by side |
| `StaleSnapshot` | StaleSnapshot.dfy | a run that pays one note out twice, from the empty mint on |
| `DeletedName` | DeletedName.dfy | a run after which a paid mint cannot be settled |

A step of the state machine is the code between two awaits. Steps of different
requests and tasks interleave in any order. `Protocol.Event` lists them,
`Protocol.Enabled` says when each can happen, `Protocol.Apply` what it does.

## Hypotheses

- The funding source answers True only for a payment that landed, and False only
  for one that did not and, provided no call to pay it is still live in this
  process, never will (lnurl_mint/node.py:173-192). This is `Protocol.MayAnswer` and
  `Protocol.GivenUp`. For the spark backend it is proved, not assumed: every run of
  the mint beside the wallet is a run of the protocol (`SparkMint.SparkRunsProtocol`).
  What is assumed instead are three facts about the wallet. Its stored payments do not
  change while one scan of them is under way. It tells of a final outcome,
  in a stored row or as the result of a payment, only after the fact. And a payment it
  turned away, while preparing it or selecting leaves, never reaches the provider; any
  other request may reach it at any time, after the call raised or the process
  stopped included.
- There is one process, and one reconciliation at a time
  (lnurl_mint/server.py:56-71 and 160-164); the process stops only at an await.
- The clock does not go backwards.
- The base fee does not change during a run. `Redeem.MergeNeedsFee` and
  `Redeem.SplitNeedsFee` show why: the books balance under a changed fee for merges
  only if it was not raised, for splits only if it was not lowered.
- For melt safety and conservation, the fence: when the reconciler restores a group,
  none of its notes is by then reserved for another payment (`Protocol.Fenced`).

## What turned out not to hold

- **Restoring from a stale snapshot.** `reconcile_pending_melts` takes one snapshot
  and then awaits group by group, and `restore` does not look at the payment hash a
  note is reserved for. If a group whose attempt was live at the snapshot waits
  behind one that was not, its note can be released, melted again into another
  invoice, and then restored on account of the first one.
  `StaleSnapshot.UnfencedRunPaysTwice` is such a run from the empty mint on;
  `ProtocolSafety.FenceExact` gives the exact condition for the step and
  `Runs.FencedRunExact` for the run; `Runs.TameRunSafe` shows that
  runs whose snapshots never put an idle group before a live one, those with a single
  group among them, need no condition.
- **The advertised minimum** is payable, and so is every amount a sat or more above
  it, but closer above it an amount can be refused (`Fees.GapAboveMinimum`). Exactly
  which are, and under which settings none is: `Fees.RefusedExact`, `Fees.NoGapExact`.
- **The walk to it** is documented as taking under about 100 steps
  (lnurl_mint/config.py:89); it takes about one per 900 msat of fee at its start, and
  valid settings can exhaust its cap (`Fees.WalkBound`, `Fees.CapCanBeHit`). Within how
  many steps it is over is decided by one grid point (`Fees.WalkExact`).
- **The advertised maximum** can be beaten by an accepted payment of a few msat less
  (`Fees.MaxMintableCanBeBeaten`), exactly when the fee steps on the last 999 msat that
  may be sent (`Fees.MaxMintableExact`).
- **`mark_pending`** says it is all-or-nothing "like swap", and it is, but it does not
  refuse an id named twice as a swap does (`LedgerInvariant.ReservingIgnoresRepeats`).
- **A paid mint for a username** that has been deleted meanwhile cannot be settled
  until the name is registered again. `DeletedName.PaidMintRefused` is such a run;
  `LedgerInvariant.SettleKeeps` and `Runs.PaidMintCredits` give the exact condition.

## Model

| member | source | states |
|---|---|---|
| `Checksum.AdvanceLinear` | lnurl_mint/bech32m.py:22-29 | the zero-symbol step of the checksum register is linear over XOR, so the whole checksum is a linear map |
| `Checksum.PolymodDifference` | lnurl_mint/bech32m.py:22-29 | two register states fed the same symbols keep a difference that depends on the states alone |
| `Checksum.AdvanceKernel` | lnurl_mint/bech32m.py:22-29 | the zero-symbol step maps only the zero register to zero |
| `Checksum.NonZeroPersists` | lnurl_mint/bech32m.py:22-29 | a difference in the register never dies out, over any number of further symbols |
| `Checksum.ChecksumUnique` | lnurl_mint/bech32m.py:22-25 | exactly one choice of six symbols completes a message to the required residue |
| `Checksum.BurstChangesResidue` | lnurl_mint/bech32m.py:28-29 | messages that differ only inside a window of six symbols have different residues, at any length |
| `Regroup.PaddedMeaning` | lnurl_mint/bech32m.py:36-37 | regrouping with padding spells the same bits followed by fewer zeros than one group |
| `Regroup.UnpaddedMeaning` | lnurl_mint/bech32m.py:61-63 | regrouping without padding succeeds exactly when the bits left over are a short run of zeros, and then drops just those |
| `Regroup.PackingInverse` | lnurl_mint/bech32m.py:32-64 | bytes pack to given symbols if and only if those symbols unpack to the bytes |
| `Bech32m.ChecksumExact` | lnurl_mint/bech32m.py:22-29 | six trailing symbols verify if and only if they are the ones the encoder appends |
| `Bech32m.FoldedExact` | lnurl_mint/bech32m.py:50-64 | a lower-case string decodes to given bytes if and only if it is their encoding |
| `Bech32m.DecodeExact` | lnurl_mint/bech32m.py:42-64 | a string decodes to given bytes if and only if it is all upper or all lower case and folds to exactly their encoding under a usable prefix, at any length |
| `Bech32m.RoundTrip` | lnurl_mint/bech32m.py:32-64 | decoding an encoding gives the bytes back for exactly the prefixes that are non-empty, printable and without capitals |
| `Bech32m.EncodeInjective` | lnurl_mint/bech32m.py:32-39 | no two pairs of prefix and payload share an encoding, separators inside the prefix included |
| `Bech32m.BurstDetected` | lnurl_mint/bech32m.py:42-64 | replacing data symbols inside any window of six by other symbols always makes decoding fail |
| `Bip350.EmptyVectors` | tests/test_bech32m.py:13-30 | BIP-350's shortest vector decodes, in either case, and the classic bech32 one does not |
| `PrefixErrors.ExpandExact` | lnurl_mint/bech32m.py:22-29 | the prefix enters the checksum as each character over 32, a zero, and each character modulo 32 |
| `PrefixErrors.PrefixDetected` | lnurl_mint/bech32m.py:42-64 | replacing characters of the prefix inside any window of six, digits by digits and small letters by small letters or all by multiples of 32, always makes decoding fail, under every prefix, at any length |
| `Bech32m.FixedExact` | lnurl_mint/bech32m.py:67-77 | a fixed-length codec accepts exactly the spellings of what its own encoder produces, and its encoder exactly one length |
| `Bech32m.Cs1Decodes` | lnurl_mint/bech32m.py:101-132 | reading a certificate is decoding it under the prefix it carries, and parsing the amount out of that prefix |
| `Bech32m.Cs1RoundTrip` | lnurl_mint/bech32m.py:95-132 | a certificate reads back its amount and signature if and only if the recovery id is 0 to 3 |
| `Bech32m.Cs1Canonical` | lnurl_mint/bech32m.py:101-132 | a certificate that reads as an amount and a signature encodes that signature under the prefix it carries, which parses to the amount |
| `Bech32m.Cs1Unique` | lnurl_mint/bech32m.py:101-132 | certificates that read the same are the same, up to case, if and only if they carry the same prefix |
| `PrefixErrors.AmountDetected` | lnurl_mint/bech32m.py:101-132 | a certificate whose amount was so rewritten is no certificate, whatever the amount parser |
| `Fees.FeeRounding` | lnurl_mint/router.py:464-473 | the fee is the least whole number of sats covering the exact fee, so at least the base fee |
| `Fees.FeeGrowth` | lnurl_mint/router.py:464-473 | paying more never lowers the fee, and within nine sats raises it by one sat at most |
| `Fees.NetOnGrid` | lnurl_mint/router.py:489-493 | what is credited never falls along the amounts the walk looks at |
| `Fees.MinSendable` | lnurl_mint/router.py:476-494 | the walk returns the least amount on its grid that clears the floor if one within the cap does, and an error otherwise |
| `Fees.AdvertisedUnique` | lnurl_mint/router.py:476-494 | there is at most one such amount |
| `Fees.AdvertisedNearLeast` | lnurl_mint/router.py:476-494 | no payment two sats or more below the advertised minimum would be accepted |
| `Fees.WalkExact` | lnurl_mint/router.py:489-494 | for every n, the walk is over within n steps if and only if the n-th grid point clears the floor |
| `Fees.CapExact` | lnurl_mint/router.py:489-494 | the walk finds an amount if and only if the last grid point within its cap clears the floor |
| `Fees.WalkBound` | lnurl_mint/router.py:489-494 | the number of steps is at most the base fee, a tenth of the start and 999 msat together, over 900 |
| `Fees.CapCanBeHit` | lnurl_mint/config.py:82-93 | settings within the configured bounds for which the walk gives up |
| `Fees.AdvertisedAccepted` | lnurl_mint/router.py:1151-1160 | the advertised minimum passes every amount check of the pay callback |
| `Fees.RefusedExact` | lnurl_mint/router.py:1151-1160 | an amount between the advertised minimum and the maximum is refused if and only if it is within a sat, less the minimum's slack, and the fee steps in between |
| `Fees.NoGapExact` | lnurl_mint/router.py:1151-1160 | nothing between them is refused if and only if the slack is 999 msat or more or the fee does not step on the stretch it leaves uncovered |
| `Fees.AcceptedAbove` | lnurl_mint/router.py:1151-1160 | every amount a sat or more above the advertised minimum is accepted, up to the maximum |
| `Fees.GapAboveMinimum` | lnurl_mint/router.py:1151-1160 | an amount 10 msat above the advertised minimum that is refused |
| `Fees.MaxMintableExact` | lnurl_mint/router.py:497-509 | no accepted payment mints more than the advertised largest note if and only if the fee does not step on the last 999 msat that may be sent; if the maximum itself is refused, every accepted payment mints more |
| `Fees.MaxMintableWithinASat` | lnurl_mint/router.py:497-509 | it is never exceeded by a whole sat |
| `Fees.MaxMintableCanBeBeaten` | lnurl_mint/router.py:497-509 | settings under which a smaller accepted payment mints a larger note than the maximum |
| `BurnKeys.BurnKeyExact` | lnurl_mint/db.py:543-550 | two lists of ids share a burn key if and only if they are permutations of each other |
| `BurnKeys.AtMostExact` | lnurl_mint/db.py:543-550 | the order the ids are put in is that of a dictionary |
| `BurnKeys.KeyIdsOf` | lnurl_mint/db.py:543-550 | the ids burned can be read back off the key |
| `Ledger.BurnError` | lnurl_mint/db.py:499-508 | a swap's inputs pass exactly when every one is issued, unspent and unreserved and none repeats |
| `Ledger.OutputError` | lnurl_mint/db.py:510-521 | its outputs pass exactly when none is a note, named by a mint, or repeated |
| `Ledger.ReserveError` | lnurl_mint/db.py:631-636 | a reservation passes exactly when every note is issued, unspent and unreserved |
| `LedgerExact.BurnComplaint` | lnurl_mint/db.py:499-508 | a list of inputs is refused for its first bad one: repeated, unknown or spent is invalid, only reserved is pending |
| `LedgerExact.OutputComplaint` | lnurl_mint/db.py:510-521 | outputs are refused for the first that is taken or repeated, by name |
| `LedgerExact.ReserveComplaint` | lnurl_mint/db.py:631-636 | a reservation is refused for its first note that is not free, repeats allowed |
| `LedgerExact.CreateMintExact` | lnurl_mint/db.py:215-246 | a mint is recorded exactly for a new hash and either an unused id or a username |
| `LedgerExact.SettleExact` | lnurl_mint/db.py:349-377 | settling an uncredited mint adds just one note of its amount, under the id it named or the least unused one of its share, whose index moves past it; it is refused exactly for an unregistered username |
| `LedgerExact.SwapExact` | lnurl_mint/db.py:491-541 | a swap of something for something goes through exactly for distinct free inputs and distinct unused outputs, and then spends, mints and records just that |
| `LedgerExact.ReserveExact` | lnurl_mint/db.py:619-640 | a free note can be reserved, and then it and its unsettled row are all that changes |
| `LedgerExact.RegisterExact` | lnurl_mint/db.py:681-713 | a name is registered exactly if nobody has it, every hold on it is paid or expired, and the share key is new |
| `LedgerExact.HoldExact` | lnurl_mint/db.py:701-744 | so is it held, under a new hash, and it is vacant again exactly from the moment the hold expires |
| `LedgerExact.UpdateExact` | lnurl_mint/db.py:852-861 | a registered name moves to a new share exactly if its key was never accepted |
| `LedgerExact.SettleFeeExact` | lnurl_mint/db.py:783-812 | a payment for a fee registers the name exactly if it is vacant but for this hold, however late; a second one does nothing |
| `LedgerExact.PayFeeDoes` | lnurl_mint/db.py:814-850 | paying with notes goes through exactly for distinct free notes and a live invoice of that amount whose name is vacant, and then spends them, marks the fee and registers the name |
| `LedgerExact.ShareKeyExact` | lnurl_mint/router.py:658-680 | two shares with one x(P) are one, whatever chain code or parity stands beside it, in the present form and the superseded one |
| `Ledger.ClaimIndex` | lnurl_mint/db.py:892-912 | crediting a share takes the least usable index from the persisted one on, and persists the one after it |
| `Store.NoteStore.CreateMint` | lnurl_mint/db.py:215-246 | recording a mint invoice does the whole insert or raises and changes nothing |
| `Store.NoteStore.SettleMint` | lnurl_mint/db.py:349-377 | settling credits one note and marks the mint, or answers None, or raises with everything rolled back |
| `Store.NoteStore.ClaimIndex` | lnurl_mint/db.py:892-912 | the search loop finds that least index and touches nothing but the username's row |
| `Store.NoteStore.CheckBurns` | lnurl_mint/db.py:499-508 | the loop over the inputs finds the first complaint |
| `Store.NoteStore.CheckOutputs` | lnurl_mint/db.py:510-521 | the loop over the outputs finds the first complaint |
| `Store.NoteStore.CreditRows` | lnurl_mint/db.py:526-530 | once the checks pass every insert is under a key not taken |
| `Store.NoteStore.SwapLocked` | lnurl_mint/db.py:491-541 | a swap burns exactly its inputs, mints exactly its outputs and records the burn, or raises with nothing changed |
| `Store.NoteStore.Swap` | lnurl_mint/db.py:435-475 | the same, as a transaction of its own |
| `Store.NoteStore.TransferToUsername` | lnurl_mint/db.py:477-489 | a transfer moves the index, burns and credits, or rolls all of it back |
| `Store.NoteStore.FindBurn` | lnurl_mint/db.py:552-564 | the burn on record for exactly these ids, the same for every order of them |
| `Store.NoteStore.MarkPending` | lnurl_mint/db.py:619-640 | every note is reserved for the payment, or none is |
| `Store.NoteStore.FinalizeMelt` | lnurl_mint/db.py:642-651 | exactly these notes become spent and unreserved |
| `Store.NoteStore.Restore` | lnurl_mint/db.py:653-660 | exactly these notes lose their reservation, whatever payment it was for |
| `Store.NoteStore.PendingMelts` | lnurl_mint/db.py:662-679 | the reserved notes, each once, grouped by the payment they are reserved for |
| `Store.NoteStore.RecordMelt` | lnurl_mint/db.py:574-585 | a payment on file keeps its row, one that is not gets an unsettled one, and no other row changes |
| `Store.NoteStore.MarkMeltSettled` | lnurl_mint/db.py:593-611 | a payment on file becomes settled and keeps its invoice, and no other row changes |
| `Store.NoteStore.RegisterUsername` | lnurl_mint/db.py:681-699 | a free name and a new share key are both taken, or neither is |
| `Store.NoteStore.HoldUsername` | lnurl_mint/db.py:719-744 | the name is held and the key accepted, or neither |
| `Store.NoteStore.SettleAddressFee` | lnurl_mint/db.py:783-812 | the first settlement marks the fee paid and registers the name unless it is taken |
| `Store.NoteStore.PayAddressFeeWithNotes` | lnurl_mint/db.py:814-850 | the notes burn and the name is registered, or nothing happens |
| `Store.NoteStore.UpdateUsername` | lnurl_mint/db.py:852-861 | a registered name moves to a share never accepted before, from index 0 |
| `Store.NoteStore.AcceptKey` | lnurl_mint/db.py:863-867 | a key is accepted exactly the first time |
| `Store.NoteStore.DeleteUsername` | lnurl_mint/db.py:869-876 | the name is freed and its key stays accepted |
| `LedgerInvariant.CreateMintKeeps` | lnurl_mint/db.py:215-246 | recording a mint keeps the tables' invariant: mints name distinct ids, and an unminted one's id is no note |
| `LedgerInvariant.SettleKeeps` | lnurl_mint/db.py:349-377 | settling keeps it, and is refused exactly for an uncredited mint of a username that is not registered: the insert never collides |
| `LedgerInvariant.CreditedFirst` | lnurl_mint/db.py:349-377 | the first settlement adds one new note worth the mint's amount, under the id the mint named if it named one |
| `LedgerInvariant.CreditedOnce` | lnurl_mint/router.py:303-326 | any later settlement of the same invoice changes nothing |
| `LedgerInvariant.SwapNotes` | lnurl_mint/db.py:491-541 | after a swap every note is as before, or was an input and is spent, or is a new output |
| `LedgerInvariant.SwapOutput` | lnurl_mint/db.py:526-530 | each output is a new, unspent note of its amount |
| `LedgerInvariant.SwapNeverCollides` | lnurl_mint/db.py:522-541 | once the checks pass no insert fails on a primary key, but for a second burn of nothing at all |
| `LedgerInvariant.SwapKeeps` | lnurl_mint/db.py:491-541 | a swap keeps the invariant: recorded burns have disjoint inputs, all spent, and no mint's id is taken |
| `LedgerInvariant.TransferKeeps` | lnurl_mint/db.py:477-489 | an internal transfer keeps it |
| `LedgerInvariant.MarkPendingKeeps` | lnurl_mint/db.py:619-640 | a reservation keeps the life cycle: reserved exactly while a payment hash is stored, never when spent |
| `LedgerInvariant.ReservingIgnoresRepeats` | lnurl_mint/db.py:619-640 | a reservation takes exactly the lists of free notes, repeats included, which a swap refuses |
| `LedgerInvariant.FinalizeKeeps` | lnurl_mint/db.py:642-651 | burning a melt's notes keeps the invariant and undoes nothing |
| `LedgerInvariant.RestoreKeeps` | lnurl_mint/db.py:653-660 | releasing notes keeps the invariant and undoes nothing: a spent note stays spent |
| `LedgerInvariant.RegisterKeeps` | lnurl_mint/db.py:681-699 | registering keeps one owner per name and every share on file under an accepted key of its own |
| `LedgerInvariant.HoldKeeps` | lnurl_mint/db.py:719-744 | so does holding |
| `LedgerInvariant.UpdateKeeps` | lnurl_mint/db.py:852-861 | so does moving to a new share |
| `LedgerInvariant.DeleteKeeps` | lnurl_mint/db.py:869-876 | so does freeing a name |
| `LedgerInvariant.SettleFeeKeeps` | lnurl_mint/db.py:783-812 | so does settling a fee, late payment included |
| `LedgerInvariant.OwnedExact` | lnurl_mint/db.py:701-713 | the ownership invariant is that registrations and live holds of any name come to at most one |
| `LedgerInvariant.LiveFeeRegisters` | lnurl_mint/db.py:783-812 | settling an invoice that can still be paid registers its name |
| `LedgerInvariant.PayFeeExact` | lnurl_mint/db.py:814-850 | paying with notes succeeds exactly when the invoice is payable for that amount and the notes are free and distinct: never refused for the name |
| `LedgerInvariant.PayFeeKeeps` | lnurl_mint/db.py:814-850 | paying a fee with notes keeps every invariant |
| `LedgerInvariant.LaterKeepsOwners` | lnurl_mint/db.py:701-713 | time passing gives no name a second owner |
| `Redeem.MutationConserves` | lnurl_mint/router.py:1711-1749 | outputs with a base fee each never exceed inputs with a base fee each: a split pays one base fee and no more, however many notes it burns, a merge is refunded exactly |
| `Redeem.MergeNeedsFee` | lnurl_mint/router.py:1741-1749 | books kept at another base fee survive a merge exactly if the fee was not raised |
| `Redeem.SplitNeedsFee` | lnurl_mint/router.py:1712-1734 | and a split of one note exactly if it was not lowered |
| `RedeemExact.MutationExact` | lnurl_mint/router.py:1560-1762 | exactly which requests to rotate, split or merge mint; a retry gets what is on record and changes nothing, any other spends its notes for just the outputs due, and a refusal changes nothing |
| `RedeemExact.SplitExact` | lnurl_mint/router.py:1711-1734 | a split leaves the amount asked for and the rest less one base fee, however many notes it burns, and goes through exactly if that rest is positive and notes and outputs are good |
| `RedeemExact.MergeExact` | lnurl_mint/router.py:1736-1762 | a merge leaves the whole and a base fee for each note saved |
| `RedeemExact.TransferExact` | lnurl_mint/router.py:1275-1305 | exactly when an internal transfer is answered with success; the first time the note is spent and its whole value credited to the next unused note of the share, the second nothing changes |
| `Redeem.MutationRecorded` | lnurl_mint/db.py:491-541 | a completed mutation is on record with the outputs and amounts it answered |
| `Redeem.RetryReplays` | lnurl_mint/router.py:1595-1619 | the same request later, its k1s in any order, gets the same outputs and amounts and changes nothing |
| `Redeem.ConflictRefused` | lnurl_mint/router.py:1595-1623 | the same notes for other outputs or another amount are refused and nothing changes |
| `Redeem.TransferRecorded` | lnurl_mint/router.py:1275-1305 | an internal transfer burns its note and records whom it credited |
| `Redeem.TransferReplays` | lnurl_mint/router.py:1275-1305 | a completed internal transfer repeated later succeeds again and credits nothing more |
| `Registry.StartAgrees` | lnurl_mint/router.py:81-83 | starting an attempt keeps the registry equal to the number of live attempts on every hash |
| `Registry.EndAgrees` | lnurl_mint/router.py:86-92 | so does ending one, and a count never reaches zero in it |
| `Router.Service.TrackMeltStart` | lnurl_mint/router.py:81-83 | the count on the hash goes up by one and every other stays |
| `Router.Service.TrackMeltEnd` | lnurl_mint/router.py:86-92 | the count on the hash goes down by one, is forgotten at zero, and every other stays |
| `Router.Service.Exchange` | lnurl_mint/router.py:1560-1762 | rotate, split and merge with their checks in order, replies and new tables, retry included |
| `Router.Service.Transfer` | lnurl_mint/router.py:1275-1305 | the internal transfer with its checks in order |
| `Router.Service.Melt` | lnurl_mint/router.py:1627-1709 | the melt path up to scheduling the payment is one step of the protocol |
| `Router.Service.PaymentMade` | lnurl_mint/router.py:194-203 | a payment that returned spends its note for good, puts its melt on record as settled, changes nothing else in the tables, and ends the attempt |
| `Router.Service.PaymentConfirmed` | lnurl_mint/router.py:164-203 | after a payment that raised, an answer that it was made spends the note and settles the melt, one that it was not releases the note, none to the last try leaves the tables alone; the attempt is over each time |
| `Router.Service.ConfirmPayment` | lnurl_mint/router.py:100-125 | the first answer is returned, after at most one try more than there are delays |
| `Router.Service.NextGroup` | lnurl_mint/router.py:226-228 | the reconciler goes on to the first group without a live attempt |
| `Router.Service.ReconcileGroup` | lnurl_mint/router.py:229-256 | confirmed as paid, a group's notes are spent and its melt settled; as not paid, they are released; with no answer nothing changes |
| `Router.GroupsAreSnapshot` | lnurl_mint/router.py:226-226 | the groups of the pending notes, in any order, are the snapshot the protocol speaks of |
| `ProtocolInvariant.MeltShape` | lnurl_mint/router.py:1627-1709 | a melt is turned away unchanged, settles an address fee, or reserves its note, records its hash and starts one attempt |
| `Outcomes.MeltExact` | lnurl_mint/router.py:1627-1709 | a free note melts whole into the mint's own payable fee invoice, or is reserved for a foreign one with one payment scheduled; every other request changes nothing |
| `Outcomes.OutcomeStep` | lnurl_mint/router.py:128-256 | when it is learned, by whatever way, that a payment was made, its note is spent and its melt settled; that it was not, its note is free again; and nothing else changes |
| `Outcomes.ReservationStep` | lnurl_mint/router.py:128-256 | a reservation lasts until the outcome of a payment from its note is learned |
| `Outcomes.AttemptStep` | lnurl_mint/router.py:100-203 | an attempt ends when its payment returns, at the first answer, or at the sixth raise |
| `Outcomes.ReconcilerStep` | lnurl_mint/router.py:226-228 | the reconciler takes the groups in order and passes over just those with a live attempt |
| `Outcomes.NameStep` | lnurl_mint/db.py:681-876 | what every step about a username changes, and exactly when |
| `ProtocolInvariant.StepConsistent` | lnurl_mint/router.py:128-256 | every step keeps the tables' invariant, the registry, and the agreement of reservations, payments and melts table, and undoes nothing |
| `ProtocolInvariant.UncountedIdle` | lnurl_mint/router.py:95-97 | a hash is in the registry exactly while an attempt on it is live |
| `ProtocolSafety.FinalizedSafe` | lnurl_mint/router.py:180-203 | burning a melt's note once its payment landed keeps every melt covered |
| `ProtocolSafety.GivenUpSafe` | lnurl_mint/router.py:176-179 | releasing notes keeps every melt covered when none is reserved for another payment |
| `ProtocolSafety.StepSafe` | lnurl_mint/router.py:128-256 | every step keeps melt safety, granted the fence where the reconciler restores |
| `ProtocolSafety.QuietIsFenced` | lnurl_mint/router.py:226-228 | a group with no live attempt at the snapshot needs no fence |
| `ProtocolSafety.FenceExact` | lnurl_mint/router.py:226-256 | restoring a group keeps every melt covered if and only if none of its notes is reserved for another payment |
| `ProtocolSafety.StaleRestore` | lnurl_mint/db.py:653-660 | restoring a note reserved for another payment frees it while that payment is still to come |
| `Runs.RunConsistent` | lnurl_mint/router.py:128-256 | over any run the invariants hold and nothing recorded is undone |
| `Runs.MeltSafety` | lnurl_mint/router.py:128-256 | in every state a fenced run reaches, a note whose payment landed or can still land is reserved for it or spent by it, was not exchanged, and answers for no other such payment |
| `Runs.FencedRunExact` | lnurl_mint/router.py:206-256 | from a consistent and safe state a run keeps every melt covered throughout if and only if it keeps the fence throughout |
| `Runs.TameRunSafe` | lnurl_mint/router.py:206-256 | runs whose snapshots never put an idle group before a live one are fenced and safe |
| `Runs.RegistryExact` | lnurl_mint/router.py:77-97 | at every await a hash is in the registry exactly while an attempt on it is live, and then with count one |
| `Runs.ReservationOnFile` | lnurl_mint/router.py:1661-1691 | at every await a reserved note's payment is in the melts table and is that note's own melt |
| `Runs.SettledIsPaid` | lnurl_mint/db.py:593-617 | a melt on record as settled was paid and its note is burned |
| `Outcomes.SettledExact` | lnurl_mint/router.py:180-203 | over any run, a melt is on record as settled exactly if it was told at some point that its payment was made, and from then on its note is spent |
| `Runs.OneMeltPerPayment` | lnurl_mint/router.py:1651-1662 | a payment hash once melted into is never paid into again |
| `Runs.PaidMintCredits` | lnurl_mint/router.py:278-326 | in every reachable state a paid mint can be credited, unless its username is unregistered |
| `Runs.MintCreditedOnce` | lnurl_mint/router.py:278-326 | over any run a mint is credited once, however many resolvers race |
| `Runs.RetryInRun` | lnurl_mint/router.py:1595-1623 | after any further run a retry is answered as the first time and a conflicting request refused, neither changing anything |
| `Runs.KeyAcceptedOnce` | lnurl_mint/db.py:863-867 | a share key accepted once is refused for ever after, by register, hold and update |
| `Runs.OneOwnerEver` | lnurl_mint/db.py:681-744 | in every reachable state a name has at most one registration or live hold |
| `Runs.PayableFeeRegisters` | lnurl_mint/db.py:783-812 | in every reachable state a fee that can be paid registers its name, which nobody else has or holds |
| `Conservation.SwapWorth` | lnurl_mint/db.py:491-541 | a swap changes the worth of the outstanding notes by exactly its outputs less its inputs |
| `Conservation.MutateFrugal` | lnurl_mint/router.py:1711-1749 | rotate, split and merge never add to what is outstanding |
| `Conservation.TransferFrugal` | lnurl_mint/router.py:1275-1305 | nor does an internal transfer |
| `Conservation.PayFeeFrugal` | lnurl_mint/router.py:1485-1505 | nor does melting into an address fee |
| `Conservation.SettleConserves` | lnurl_mint/db.py:349-377 | a credited mint adds its note and a base fee, covered by what was paid for it |
| `Pricing.InvoiceExact` | lnurl_mint/router.py:1149-1217 | exactly when an invoice is issued, for the whole amount, to credit the payment less the fee |
| `Pricing.MintPricedExactly` | lnurl_mint/router.py:464-473 | in every reachable state each mint credits what its invoice asks for less the least whole number of sats that covers the base fee and the proportional one together |
| `Pricing.SettledNote` | lnurl_mint/db.py:349-377 | in every reachable state a paid invoice settles into exactly one note, worth the payment less that fee |
| `Conservation.FinalizedBooks` | lnurl_mint/router.py:180-203 | burning a landed melt's note changes nothing: it was counted as paid out when it landed |
| `Conservation.GivenUpBooks` | lnurl_mint/router.py:176-179 | releasing a note whose payment will never land changes nothing |
| `Conservation.LandedBooks` | lnurl_mint/node.py:173-192 | when a payment lands, exactly its note's value moves from outstanding to paid out |
| `Conservation.StepConserves` | lnurl_mint/router.py:128-256 | every step keeps the books balanced |
| `Conservation.ConservationHolds` | lnurl_mint/router.py:464-473 | in every state a fenced run reaches, outstanding value, a base fee per outstanding note, and value melted out are covered by what was paid in |
| `Claims.ClaimFinds` | lnurl_mint/db.py:904-910 | among more derivable keys than there are ids in use, one is usable |
| `Claims.ClaimWithin` | lnurl_mint/db.py:892-912 | a share that derives different keys at one index more than there are ids in use is credited within them |
| `Claims.StepTracks` | lnurl_mint/db.py:852-912 | no step moves a share to another username or takes its index back |
| `Claims.IndicesIncrease` | lnurl_mint/router.py:682-697 | of two credits to one share in a run the second has a strictly higher index and another note, for the same username |
| `Claims.IssuedOnce` | lnurl_mint/db.py:253-263 | an id that names a note is never issued again, by a swap, a mint or a share |
| `Spark.PaymentsByHash` | lnurl_mint/spark.py:254-275 | the pages, wherever they end, add up to the filter of the whole history |
| `Spark.MatchingAppend` | lnurl_mint/spark.py:254-275 | that filter keeps the stored order |
| `Spark.MatchingExact` | lnurl_mint/spark.py:244-275 | and exactly the copies of the rows of the kind that name the hash |
| `Spark.MarkedExact` | lnurl_mint/spark.py:474-482 | marking adds the newest entry, keeps at most 1024 and no duplicate, and loses at most the oldest, only when full |
| `SparkRegistry.RememberedExact` | lnurl_mint/spark.py:456-482 | after any number of markings a payment is in the registry exactly if fewer than 1024 others were marked since it last was |
| `Spark.Wallet.MarkPrepareRejected` | lnurl_mint/spark.py:478-482 | the loop that drops the oldest entries |
| `Spark.Wallet.PayInvoice` | lnurl_mint/spark.py:351-455 | which outcomes of paying register the hash as never sent, which get past leaf selection, and which count as paid |
| `Spark.TurnedAwayExact` | lnurl_mint/spark.py:351-440 | a registered attempt never left; one that did not leave is registered, unless unreadable or without a hash, or payable with no wallet to prepare it, a prepare error that is not the wallet's, or another route |
| `Spark.Wallet.IsPaymentComplete` | lnurl_mint/spark.py:529-583 | asking reads the stored rows, and syncs and reads them again exactly if there is no row, no entry and the first probe succeeds |
| `Spark.AskedIsAnswer` | lnurl_mint/spark.py:529-583 | with rows, registry and synced rows each read in a state of its own, asking comes to what the wallet answers in one of the three, or a raise |
| `Spark.NoExact` | lnurl_mint/spark.py:529-583 | No is said exactly when there are stored rows and all failed, or there are none and the hash is registered |
| `Spark.YesExact` | lnurl_mint/spark.py:529-583 | Yes is said exactly when a completed row is stored |
| `Spark.AskedExact` | lnurl_mint/spark.py:529-583 | what a whole question comes to: Yes for a completed row first read whatever the probes, with no row and no entry just what the synced rows support if both probes succeed, No exactly with proof, and a raise otherwise |
| `SparkMint.StepMatches` | lnurl_mint/spark.py:351-583 | every step of the wallet leaves the protocol's record of a payment as it is or moves it as a funding source may |
| `SparkMint.StillStands` | lnurl_mint/spark.py:529-583 | what an answer claims of a payment goes on holding whatever the wallet does next |
| `SparkMint.SaysTrue` | lnurl_mint/spark.py:529-583 | an answer the wallet gave, now or before, is one the protocol's funding source may give, and a No agrees with giving the payment up, the second time as the first |
| `SparkMint.AfterGood` | lnurl_mint/spark.py:529-583 | mint and wallet stay in agreement, whatever either does |
| `SparkMint.SparkRunsProtocol` | lnurl_mint/node.py:173-192 | every run of the mint on spark, answers acted on at once or later, is a run of the protocol, fenced if it is |
| `SparkMint.AttemptedOnce` | lnurl_mint/router.py:1651-1662 | whenever an attempt can begin the wallet was never asked for its payment before |
| `SparkMint.SparkMintSafe` | lnurl_mint/spark.py:529-583 | on spark, with the fence kept, a note whose transfer arrived or is on its way is reserved or spent for it and was not exchanged, and the books balance |
| `Spark.NoMeansNever` | lnurl_mint/spark.py:529-583 | once No has been said of a payment it never arrives, requests that reach the provider late included |
| `Spark.EvictionOnlyRaises` | lnurl_mint/spark.py:456-482 | against a registry without a bound, the bounded one only turns a No into a raise, exactly for an evicted hash without rows |
| `DeletedName.PaidMintRefused` | lnurl_mint/db.py:349-377 | a run from the empty mint after which an invoice is paid, its mint is not credited, and settling it is refused |
| `StaleSnapshot.UnfencedRunPaysTwice` | lnurl_mint/router.py:206-256 | a run from the empty mint in which one note is both melted and rotated, and more is out than came in |

## Left out

- HTTP, request parsing, the withdraw and pay discovery responses, verify endpoints, certificates and signatures, the frontend, logs and metrics.
- The verification of a k1: a request comes with the ids of the notes its k1s open, and with whether any of them was seen spent while they were being verified.
- lnd, cln and Breez SDK calls: the funding source is the contract stated under Hypotheses; for spark the wallet's rows, probes and sync are inputs.
- Cryptography: derivation of a share's notes is an arbitrary function from share and index to an optional id; hashes are opaque strings.
- BOLT 11 parsing: an invoice is its hash, amount, expiry and text; a certificate's amount codec is a pair of parameters.
- Invoices without a payment hash: `_melt_pay` leaves their notes reserved for an operator on any error.
- sqlite failures other than a primary key being taken, and an exception between reserving a note and scheduling its payment, which the router answers by dropping the registration.
- Note lock times, zap requests and receipts, NIP-05 keys, invoice texts of mints, creation times, and the polling of open invoices.
- Column migrations and rows from before them: notes reserved without a hash, mints without a note or username.
- The melt fee limit, which is computed in floating point and on which nothing else depends.
- Amounts are unbounded integers, as in Python; sqlite's 64-bit columns are not modelled.
- A share has 2^31 derivable indices; `_claim_index` does not return once all from the persisted one on are unusable, so the claim functions require that one is usable.
- The order of `pending_melts`, which is sqlite's row order: the model allows any.
- `_melt_settled` and the other readers for verify, which change nothing; what the stored flag means is `Runs.SettledIsPaid`.
- The case folding of the invoice text compared in `_melt_into_address_fee`: texts are taken as already trimmed and in lower case.
- Redeem.TransferReplays: the endpoint around `_internal_transfer` looks the username up first and answers "unknown user" once it was deleted (lnurl_mint/router.py:1266-1269); the replay is of `_internal_transfer` itself.
- The internal transfer takes the advertised minimum as found; that the walk to it can give up is `Fees.CapExact`.
- PrefixErrors.PrefixDetected: a digit replaced by a letter, or the reverse, changes two places of the checksum's input that lie as far apart as the prefix is long; such replacements are not covered.
- The npub decoder, which uses BIP-173's checksum constant, and the curve-point check on a share key.
- Redeem.Mutate: the reason texts of refusals are abbreviated, and certificates are left out of the reply.
