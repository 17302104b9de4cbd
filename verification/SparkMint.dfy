/** The mint on the spark backend: the protocol and the wallet run side by side, the
    wallet giving the answers.  Every such run is a run of the protocol, so what the
    protocol asks of its funding source is proved of spark, not assumed. */
module SparkMint {
  import opened Wrappers
  import opened BurnKeys
  import opened Ledger
  import opened LedgerInvariant
  import opened Redeem
  import opened Protocol
  import opened ProtocolInvariant
  import opened Runs
  import opened Totals
  import opened Conservation
  import Registry
  import S = Spark

  // --- How the two sides agree ---------------------------------------------

  function AsPay(fate: S.Fate): Pay {
    match fate
    case NotSent => Unsent
    case Moving => InFlight
    case Arrived => Landed
    case Dropped => Dead
  }

  /** The protocol's payment is what the wallet's transfer makes it, or was given up
      and had been turned away. */
  predicate Matches(b: S.Backend, h: Hash, pay: Pay) {
    pay == AsPay(S.FateOf(b, h)) || (pay.Dead? && h in b.away)
  }

  /** What a payment has become after a step of the wallet. */
  function PayAfter(b: S.Backend, h: Hash, pay: Pay): Pay {
    if pay.Dead? then Dead else AsPay(S.FateOf(b, h))
  }

  /** Each step of the wallet is no step of the funding source's record of a payment
      or one that it may take. */
  lemma StepMatches(b: S.Backend, s: S.Step, h: Hash, pay: Pay)
    requires S.Honest(b) && S.Possible(b, s) && Matches(b, h, pay)
    ensures var b' := S.Next(b, s);
            var pay' := PayAfter(b', h, pay);
            Matches(b', h, pay') && (pay' == pay || SourceMay(pay, pay'))
  {
    S.StepHonest(b, s);
    assert S.FateMoves(S.FateOf(b, h), S.FateOf(S.Next(b, s), h));
    hide S.Honest, S.Possible, S.Next;
  }

  /** What an answer claims of a payment, for good: that it arrived, or that it
      never will. */
  predicate Stands(b: S.Backend, h: Hash, yes: bool) {
    if yes then S.FateOf(b, h).Arrived? else S.Hopeless(b, h)
  }

  /** What the wallet answers stands, and goes on standing whatever the wallet does. */
  lemma AnswerStands(b: S.Backend, h: Hash)
    requires S.Honest(b)
    ensures S.Answers(b, h).Some? ==> Stands(b, h, S.Answers(b, h).value)
  {
    S.TruthfulNow(b, h);
    hide S.Answers, S.Honest;
  }

  lemma StillStands(b: S.Backend, s: S.Step, h: Hash, yes: bool)
    requires S.Honest(b) && S.Possible(b, s) && Stands(b, h, yes)
    ensures Stands(S.Next(b, s), h, yes)
  {
    S.StepHonest(b, s);
    assert S.FateMoves(S.FateOf(b, h), S.FateOf(S.Next(b, s), h));
    hide S.Honest, S.Possible, S.Next;
  }

  /** An answer that stands is one the protocol's funding source may give, and a No
      agrees with the payment being given up. */
  lemma SaysTrue(b: S.Backend, w: World, h: Hash, answer: Option<bool>)
    requires S.Honest(b) && h in w.pays && Matches(b, h, w.pays[h]) && (answer.Some? ==> Stands(b, h, answer.value))
    ensures MayAnswer(w, h, answer)
    ensures answer == Some(false) ==> Matches(b, h, Dead)
  {
    assert h in b.away ==> S.FateOf(b, h).NotSent?;
    hide S.Honest;
  }

  // --- Running side by side ------------------------------------------------

  /** `said` is every answer read from the wallet so far, to be acted on at once or
      any time later. */
  datatype Joint = Joint(w: World, b: S.Backend, said: set<(Hash, bool)>)

  const BEGINNING := Joint(START, S.NEW, {})

  /** The wallet may raise at any time; an answer is one it gave, now or before. */
  predicate Says(j: Joint, h: Hash, answer: Option<bool>) {
    answer == None || (h, answer.value) in j.said
  }

  /** Every payment matches, no payment yet to be made was ever attempted, and every
      answer given stands. */
  predicate Related(j: Joint) {
    && S.Honest(j.b) && j.b.attempted <= j.w.pays.Keys
    && (forall h | h in j.w.pays :: Matches(j.b, h, j.w.pays[h]))
    && (forall t | t in j.w.tasks && j.w.tasks[t].phase.Scheduled? :: j.w.tasks[t].h !in j.b.attempted)
    && (forall x | x in j.said :: Stands(j.b, x.0, x.1))
  }

  ghost predicate Good(j: Joint) { Consistent(j.w) && Related(j) }

  /** A step of the mint, one of the wallet on its own, or an answer read off the
      wallet as it is. */
  datatype Happening = Acts(e: Event) | Moves(s: S.Step) | Reads(h: Hash)

  /** The mint acts as in the protocol, but its answers come from the wallet, a
      payment is reported made only once it arrived, and nothing else tells what
      became of one. */
  ghost predicate Happens(p: Policy, derive: Derive, j: Joint, x: Happening) {
    match x
    case Moves(s) => !s.Attempt? && !s.Restart? && S.Possible(j.b, s)
    case Reads(_) => true
    case Acts(e) =>
      match e
      case Source(_, _) => false
      case PaySucceeds(t) => t in j.w.tasks && j.w.tasks[t].phase.Calling? && S.FateOf(j.b, j.w.tasks[t].h).Arrived?
      case Confirm(t, answer) =>
        && t in j.w.tasks && j.w.tasks[t].phase.Confirming? && j.w.tasks[t].phase.left > 0
        && Says(j, j.w.tasks[t].h, answer)
      case Resolve(answer) => j.w.recon != [] && Says(j, j.w.recon[0].h, answer)
      case _ => Enabled(p, derive, j.w, e)
  }

  lemma TaskPay(w: World, t: nat)
    requires Consistent(w) && t in w.tasks
    ensures w.tasks[t].h in w.pays
  {
    assert MeltOf(w.melted, w.tasks[t].h, w.tasks[t].id);
  }

  lemma AskedPay(w: World)
    requires Consistent(w) && w.recon != []
    ensures w.recon[0].h in w.pays
  {
    assert EntryOk(w, w.recon[0]);
    assert MeltOf(w.melted, w.recon[0].h, w.recon[0].ids[0]);
  }

  /** What happens is possible in the protocol. */
  lemma HappensEnabled(p: Policy, derive: Derive, j: Joint, e: Event)
    requires Good(j) && Happens(p, derive, j, Acts(e))
    ensures Enabled(p, derive, j.w, e)
  {
    hide Consistent, S.Honest, MayAnswer, Stands, SettleEnds, IsSnapshot;
    match e
    case PaySucceeds(t) =>
      TaskPay(j.w, t);
      assert Matches(j.b, j.w.tasks[t].h, j.w.pays[j.w.tasks[t].h]);
      AwayUnsent(j.b, j.w.tasks[t].h);
    case Confirm(t, answer) =>
      TaskPay(j.w, t);
      SaysTrue(j.b, j.w, j.w.tasks[t].h, answer);
    case Resolve(answer) =>
      AskedPay(j.w);
      SaysTrue(j.b, j.w, j.w.recon[0].h, answer);
    case _ =>
  }

  lemma AwayUnsent(b: S.Backend, h: Hash)
    requires S.Honest(b)
    ensures h in b.away ==> S.FateOf(b, h).NotSent?
  {
  }

  /** Beginning a payment is the wallet's one attempt at it, and a restart is a
      restart of both; other steps of the mint are none of the wallet's. */
  function WalletAfter(w: World, b: S.Backend, e: Event): S.Backend
    requires e.Begin? ==> e.t in w.tasks && w.tasks[e.t].h !in b.attempted
  {
    match e
    case Begin(t) => S.Next(b, S.Attempt(w.tasks[t].h))
    case Restart => S.Next(b, S.Restart)
    case _ => b
  }

  /** The payment a wallet's step is about, if it changes its fate. */
  function About(s: S.Step): Option<Hash> {
    match s
    case Leave(h) => Some(h)
    case Conclude(h, _) => Some(h)
    case _ => None
  }

  function Followed(w: World, b: S.Backend, h: Option<Hash>): World {
    if h.Some? && h.value in w.pays then w.(pays := w.pays[h.value := PayAfter(b, h.value, w.pays[h.value])]) else w
  }

  function Heard(j: Joint, h: Hash): Joint {
    match S.Answers(j.b, h)
    case None => j
    case Some(yes) => j.(said := j.said + {(h, yes)})
  }

  ghost function After(p: Policy, derive: Derive, j: Joint, x: Happening): (j': Joint)
    requires Good(j) && Happens(p, derive, j, x)
  {
    match x
    case Moves(s) => Joint(Followed(j.w, S.Next(j.b, s), About(s)), S.Next(j.b, s), j.said)
    case Reads(h) => Heard(j, h)
    case Acts(e) =>
      HappensEnabled(p, derive, j, e);
      Joint(Apply(p, derive, j.w, e), WalletAfter(j.w, j.b, e), j.said)
  }

  // --- Agreement is kept ---------------------------------------------------

  /** What an event makes of payments and of attempts yet to begin. */
  ghost predicate Effect(w: World, e: Event, w': World) {
    && w.pays.Keys <= w'.pays.Keys
    && (forall h | h in w'.pays ::
          if h !in w.pays then w'.pays[h].Unsent?
          else w'.pays[h] == w.pays[h] || (w'.pays[h].Dead? && SaidNo(w, e, h)))
    && (forall t | t in w'.tasks && w'.tasks[t].phase.Scheduled? ::
          w'.tasks[t].h !in w.pays || (t in w.tasks && w.tasks[t] == w'.tasks[t] && e != Begin(t)))
  }

  predicate SaidNo(w: World, e: Event, h: Hash) {
    match e
    case Confirm(t, answer) => t in w.tasks && w.tasks[t].h == h && answer == Some(false)
    case Resolve(answer) => w.recon != [] && w.recon[0].h == h && answer == Some(false)
    case _ => false
  }

  lemma SameEffect(w: World, e: Event, w': World)
    requires w'.pays == w.pays && w'.tasks == w.tasks && !e.Begin?
    ensures Effect(w, e, w')
  {
  }

  lemma EventEffect(p: Policy, derive: Derive, w: World, e: Event)
    requires Consistent(w) && Enabled(p, derive, w, e) && !e.Source?
    ensures Effect(w, e, Apply(p, derive, w, e))
  {
    assert Inv(w.db) && Owned(w.db, w.now) && w.pays.Keys == w.db.melts.Keys;
    hide Consistent, Inv, Owned, Advances, Bystander, NewlySpent, Effect;
    if NameEvent(e) {
      hide Apply, Enabled, NameDb;
      NameShape(p, derive, w, e);
      SameEffect(w, e, Apply(p, derive, w, e));
    } else if NoteEvent(e) {
      hide Apply, Enabled;
      NoteStepDb(p, derive, w, e);
      SameEffect(w, e, Apply(p, derive, w, e));
    } else if TaskEvent(e) {
      hide Apply, Enabled;
      TaskEffect(p, derive, w, e);
    } else if e.Resolve? {
      hide ResolveStep, MayAnswer;
      ResolveEffect(w, e.answer);
    } else {
      OtherEffect(p, derive, w, e);
    }
  }

  lemma GivenUpPays(w: World, ids: seq<NoteId>, h: Hash)
    ensures var w' := GivenUp(w, ids, h);
            && w'.tasks == w.tasks && w'.pays.Keys == w.pays.Keys
            && forall g | g in w.pays :: w'.pays[g] == w.pays[g] || (g == h && w'.pays[g].Dead?)
  {
    hide Restore, CallLive;
  }

  lemma FinalizedPays(w: World, ids: seq<NoteId>, h: Hash)
    ensures Finalized(w, ids, h).pays == w.pays && Finalized(w, ids, h).tasks == w.tasks
  {
  }

  lemma TaskEffect(p: Policy, derive: Derive, w: World, e: Event)
    requires TaskEvent(e) && Enabled(p, derive, w, e)
    ensures Effect(w, e, Apply(p, derive, w, e))
  {
    hide GivenUp, Finalized, MayAnswer, Ended, Moved, Effect;
    var task := w.tasks[e.t];
    match e
    case Begin(t) => MovedEffect(w, e, t, Calling);
    case PayRaises(t) => MovedEffect(w, e, t, Confirming(CONFIRMATION_TRIES));
    case PaySucceeds(t) =>
      FinalizedPays(w, [task.id], task.h);
      EndedEffect(w, e, Finalized(w, [task.id], task.h), t);
    case Confirm(t, answer) =>
      match answer
      case Some(true) =>
        FinalizedPays(w, [task.id], task.h);
        EndedEffect(w, e, Finalized(w, [task.id], task.h), t);
      case Some(false) =>
        GivenUpPays(w, [task.id], task.h);
        EndedEffect(w, e, GivenUp(w, [task.id], task.h), t);
      case None =>
        if task.phase.left == 1 {
          EndedEffect(w, e, w, t);
        } else {
          MovedEffect(w, e, t, Confirming(task.phase.left - 1));
        }
  }

  lemma MovedEffect(w: World, e: Event, t: nat, phase: Phase)
    requires t in w.tasks && !phase.Scheduled? && (e.Begin? ==> e.t == t)
    ensures Effect(w, e, Moved(w, t, phase))
  {
  }

  lemma EndedEffect(w: World, e: Event, mid: World, t: nat)
    requires t in w.tasks && mid.tasks == w.tasks && mid.pays.Keys == w.pays.Keys && !e.Begin?
    requires forall h | h in w.pays :: mid.pays[h] == w.pays[h] || (mid.pays[h].Dead? && SaidNo(w, e, h))
    ensures Effect(w, e, Ended(mid, t))
  {
    hide Registry.Ended, SaidNo;
  }

  lemma ResolveEffect(w: World, answer: Option<bool>)
    requires w.recon != []
    ensures Effect(w, Resolve(answer), ResolveStep(w, answer))
  {
    GivenUpPays(Past(w), w.recon[0].ids, w.recon[0].h);
    FinalizedPays(Past(w), w.recon[0].ids, w.recon[0].h);
    hide GivenUp, Finalized, Skipped;
  }

  lemma OtherEffect(p: Policy, derive: Derive, w: World, e: Event)
    requires Enabled(p, derive, w, e) && w.pays.Keys == w.db.melts.Keys
    requires e.MeltInto? || e.Snapshot? || e.Payer? || e.Tick? || e.Restart?
    ensures Effect(w, e, Apply(p, derive, w, e))
  {
    hide Skipped, IsSnapshot, MeltStep, Effect;
    if e.MeltInto? {
      MeltEffect(w, e);
    } else if e.Restart? {
      RestartEffect(w);
    } else {
      SameEffect(w, e, Apply(p, derive, w, e));
    }
  }

  lemma MeltEffect(w: World, e: Event)
    requires e.MeltInto? && w.pays.Keys == w.db.melts.Keys
    ensures Effect(w, e, MeltStep(w, e.id, e.h, e.amount, e.pr))
  {
    MeltShape(w, e.id, e.h, e.amount, e.pr);
    hide MeltStep, MarkPending, PayFeeWithNotes, NewlySpent, Registry.Started, RecordMelt;
  }

  lemma RestartEffect(w: World)
    ensures Effect(w, Restart, w.(tasks := map[], inFlight := map[], recon := []))
  {
  }

  lemma ActsRelated(p: Policy, derive: Derive, j: Joint, e: Event)
    requires Good(j) && Happens(p, derive, j, Acts(e))
    ensures Related(After(p, derive, j, Acts(e)))
  {
    hide *;
    var w := j.w;
    GoodIs(j);
    ActsShape(p, derive, j, e);
    NoAgrees(p, derive, j, e);
    EventEffect(p, derive, w, e);
    AttemptsApart(w);
    WalletKeeps(w, j.b, e);
    if e.Begin? {
      TaskPay(w, e.t);
    }
    RelatedAfter(j, e, Apply(p, derive, w, e), WalletAfter(w, j.b, e));
  }

  lemma GoodIs(j: Joint)
    ensures Good(j) <==> Consistent(j.w) && Related(j)
    ensures Related(j) ==> S.Honest(j.b)
  {
    hide Consistent, S.Honest;
  }

  lemma ActsShape(p: Policy, derive: Derive, j: Joint, e: Event)
    requires Good(j) && Happens(p, derive, j, Acts(e))
    ensures Enabled(p, derive, j.w, e) && !e.Source?
    ensures e.Begin? ==> e.t in j.w.tasks && j.w.tasks[e.t].h !in j.b.attempted
    ensures After(p, derive, j, Acts(e)) == Joint(Apply(p, derive, j.w, e), WalletAfter(j.w, j.b, e), j.said)
  {
    HappensEnabled(p, derive, j, e);
    hide Consistent, Apply, WalletAfter, S.Honest, Says, Stands, MayAnswer, SettleEnds, IsSnapshot;
  }

  lemma RelatedAfter(j: Joint, e: Event, w': World, b': S.Backend)
    requires Related(j) && Effect(j.w, e, w') && S.Honest(b') && b'.away == j.b.away
    requires e.Begin? ==> e.t in j.w.tasks && j.w.tasks[e.t].h in j.w.pays
    requires b'.attempted == j.b.attempted + (if e.Begin? then {j.w.tasks[e.t].h} else {})
    requires forall h :: S.FateOf(b', h) == S.FateOf(j.b, h)
    requires forall h | h !in j.b.attempted :: S.FateOf(j.b, h).NotSent?
    requires forall h | h in j.w.pays && SaidNo(j.w, e, h) :: Matches(j.b, h, Dead)
    requires forall s, t | s in j.w.tasks && t in j.w.tasks && s != t :: j.w.tasks[s].h != j.w.tasks[t].h
    ensures Related(Joint(w', b', j.said))
  {
    hide S.Honest, S.FateOf, SaidNo;
    forall x | x in j.said ensures Stands(b', x.0, x.1) {
      assert Stands(j.b, x.0, x.1);
    }
    forall h | h in w'.pays ensures Matches(b', h, w'.pays[h]) {
      assert h in j.w.pays ==> Matches(j.b, h, j.w.pays[h]);
    }
    forall t | t in w'.tasks && w'.tasks[t].phase.Scheduled? ensures w'.tasks[t].h !in b'.attempted {
      assert w'.tasks[t].h !in j.w.pays || (t in j.w.tasks && j.w.tasks[t] == w'.tasks[t] && e != Begin(t));
    }
  }

  lemma AttemptsApart(w: World)
    requires Consistent(w)
    ensures forall s, t | s in w.tasks && t in w.tasks && s != t :: w.tasks[s].h != w.tasks[t].h
  {
  }

  lemma NoAgrees(p: Policy, derive: Derive, j: Joint, e: Event)
    requires Good(j) && Happens(p, derive, j, Acts(e))
    ensures forall h | h in j.w.pays && SaidNo(j.w, e, h) :: Matches(j.b, h, Dead)
  {
    hide Consistent, S.Honest, Stands, Enabled, MayAnswer;
    forall h | h in j.w.pays && SaidNo(j.w, e, h) ensures Matches(j.b, h, Dead) {
      SaysTrue(j.b, j.w, h, Some(false));
    }
  }

  /** What a step of the mint makes of the wallet: no fate changes, and only a
      payment that begins becomes an attempted one. */
  lemma WalletKeeps(w: World, b: S.Backend, e: Event)
    requires S.Honest(b) && (e.Begin? ==> e.t in w.tasks && w.tasks[e.t].h !in b.attempted)
    ensures var b' := WalletAfter(w, b, e);
            && S.Honest(b') && b'.away == b.away
            && b'.attempted == b.attempted + (if e.Begin? then {w.tasks[e.t].h} else {})
            && (forall h :: S.FateOf(b', h) == S.FateOf(b, h))
            && (forall h | h !in b.attempted :: S.FateOf(b, h).NotSent?)
  {
    if e.Begin? {
      S.StepHonest(b, S.Attempt(w.tasks[e.t].h));
    } else if e.Restart? {
      S.StepHonest(b, S.Restart);
    }
  }

  lemma MovesRelated(p: Policy, derive: Derive, j: Joint, s: S.Step)
    requires Good(j) && Happens(p, derive, j, Moves(s))
    ensures Related(After(p, derive, j, Moves(s)))
  {
    hide *;
    GoodIs(j);
    MovesShape(p, derive, j, s);
    S.StepHonest(j.b, s);
    OnlyAbout(j.b, s);
    FollowedRelated(j, s);
  }

  lemma MovesShape(p: Policy, derive: Derive, j: Joint, s: S.Step)
    requires Good(j) && Happens(p, derive, j, Moves(s))
    ensures S.Possible(j.b, s) && !s.Attempt?
    ensures After(p, derive, j, Moves(s)) == Joint(Followed(j.w, S.Next(j.b, s), About(s)), S.Next(j.b, s), j.said)
  {
    hide Consistent, Related, S.Possible, S.Next, Followed;
  }

  lemma FollowedRelated(j: Joint, s: S.Step)
    requires Related(j) && S.Possible(j.b, s) && S.Honest(S.Next(j.b, s)) && S.Next(j.b, s).attempted == j.b.attempted
    ensures Related(Joint(Followed(j.w, S.Next(j.b, s), About(s)), S.Next(j.b, s), j.said))
  {
    var b' := S.Next(j.b, s);
    var w' := Followed(j.w, b', About(s));
    forall h | h in w'.pays ensures Matches(b', h, w'.pays[h]) {
      NextMatches(j.b, s, h, j.w.pays[h]);
    }
    forall x | x in j.said ensures Stands(b', x.0, x.1) {
      StillStands(j.b, s, x.0, x.1);
    }
    hide S.Honest, S.Next, S.Possible, Matches, Stands, PayAfter, About;
  }

  lemma NextMatches(b: S.Backend, s: S.Step, h: Hash, pay: Pay)
    requires S.Honest(b) && S.Possible(b, s) && Matches(b, h, pay)
    ensures var b' := S.Next(b, s);
            Matches(b', h, PayAfter(b', h, pay)) && (About(s) != Some(h) ==> Matches(b', h, pay))
  {
    StepMatches(b, s, h, pay);
    if !s.Attempt? {
      OnlyAbout(b, s);
    }
    hide S.Honest;
  }

  lemma OnlyAbout(b: S.Backend, s: S.Step)
    requires S.Possible(b, s) && !s.Attempt?
    ensures var b' := S.Next(b, s);
            && b'.attempted == b.attempted && b.away <= b'.away
            && forall h | About(s) != Some(h) :: S.FateOf(b', h) == S.FateOf(b, h)
  {
  }

  /** The two sides stay in agreement. */
  lemma AfterGood(p: Policy, derive: Derive, j: Joint, x: Happening)
    requires Good(j) && Happens(p, derive, j, x)
    ensures Good(After(p, derive, j, x))
  {
    hide *;
    GoodIs(j);
    GoodIs(After(p, derive, j, x));
    match x
    case Acts(e) =>
      ActsShape(p, derive, j, e);
      ActsRelated(p, derive, j, e);
      StepConsistent(p, derive, j.w, e);
    case Reads(h) => ReadsGood(p, derive, j, h);
    case Moves(s) =>
      MovesShape(p, derive, j, s);
      MovesRelated(p, derive, j, s);
      MovesShow(p, derive, j, s);
      if Seen(j, x) != [] {
        StepConsistent(p, derive, j.w, Seen(j, x)[0]);
      }
  }

  lemma ReadsGood(p: Policy, derive: Derive, j: Joint, h: Hash)
    requires Good(j)
    ensures var j' := After(p, derive, j, Reads(h)); j'.w == j.w && Related(j')
  {
    AnswerStands(j.b, h);
    hide Consistent, S.Honest, Stands, S.Answers;
  }

  // --- Every joint run is a run of the protocol ----------------------------
  /** What the protocol sees of a happening. */
  function Seen(j: Joint, x: Happening): seq<Event>
    requires x.Moves? ==> S.Possible(j.b, x.s)
  {
    match x
    case Acts(e) => [e]
    case Reads(_) => []
    case Moves(s) =>
      var b', h := S.Next(j.b, s), About(s);
      if h.Some? && h.value in j.w.pays && PayAfter(b', h.value, j.w.pays[h.value]) != j.w.pays[h.value] then
        [Source(h.value, PayAfter(b', h.value, j.w.pays[h.value]))]
      else []
  }

  lemma MovesShow(p: Policy, derive: Derive, j: Joint, s: S.Step)
    requires Good(j) && Happens(p, derive, j, Moves(s))
    ensures var seen, w' := Seen(j, Moves(s)), After(p, derive, j, Moves(s)).w;
            if seen == [] then w' == j.w
            else && |seen| == 1 && seen[0].Source?
                 && Enabled(p, derive, j.w, seen[0]) && Apply(p, derive, j.w, seen[0]) == w'
  {
    hide *;
    GoodIs(j);
    MovesShape(p, derive, j, s);
    FollowedShows(p, derive, j, s);
  }

  lemma FollowedShows(p: Policy, derive: Derive, j: Joint, s: S.Step)
    requires Related(j) && S.Possible(j.b, s)
    ensures var seen, w' := Seen(j, Moves(s)), Followed(j.w, S.Next(j.b, s), About(s));
            if seen == [] then w' == j.w
            else && |seen| == 1 && seen[0].Source?
                 && Enabled(p, derive, j.w, seen[0]) && Apply(p, derive, j.w, seen[0]) == w'
  {
    var h := About(s);
    if h.Some? && h.value in j.w.pays {
      StepMatches(j.b, s, h.value, j.w.pays[h.value]);
      hide PayAfter, Matches, S.Next, S.Possible, S.Honest;
      assert j.w.pays[h.value := j.w.pays[h.value]] == j.w.pays;
    }
  }

  /** The happenings `xs` lead from `j` to `j'`, the fence kept throughout if
      `fenced`. */
  ghost predicate JointRun(p: Policy, derive: Derive, fenced: bool, j: Joint, xs: seq<Happening>, j': Joint)
    requires Good(j)
    decreases |xs|
  {
    if xs == [] then j' == j
    else
      && Happens(p, derive, j, xs[0])
      && (fenced && xs[0].Acts? ==> Fenced(j.w, xs[0].e))
      && (AfterGood(p, derive, j, xs[0]); JointRun(p, derive, fenced, After(p, derive, j, xs[0]), xs[1..], j'))
  }

  ghost predicate ProtocolRun(p: Policy, derive: Derive, fenced: bool, w: World, es: seq<Event>, w': World) {
    if fenced then FencedRun(p, derive, w, es, w') else Run(p, derive, w, es, w')
  }

  lemma First(p: Policy, derive: Derive, fenced: bool, w: World, e: Event, mid: World, es: seq<Event>, w': World)
    requires Enabled(p, derive, w, e) && Apply(p, derive, w, e) == mid && (fenced ==> Fenced(w, e))
    requires ProtocolRun(p, derive, fenced, mid, es, w')
    ensures ProtocolRun(p, derive, fenced, w, [e] + es, w')
  {
    hide Enabled, Apply, Fenced;
    assert ([e] + es)[1..] == es;
  }

  /** What comes first in a joint run. */
  lemma JointFirst(p: Policy, derive: Derive, fenced: bool, j: Joint, xs: seq<Happening>, j': Joint)
    requires Good(j) && JointRun(p, derive, fenced, j, xs, j')
    ensures xs == [] ==> j' == j
    ensures xs != [] ==>
              && Happens(p, derive, j, xs[0]) && (fenced && xs[0].Acts? ==> Fenced(j.w, xs[0].e))
              && Good(After(p, derive, j, xs[0]))
              && JointRun(p, derive, fenced, After(p, derive, j, xs[0]), xs[1..], j')
  {
    hide Good, Happens, After, Fenced;
    if xs != [] {
      AfterGood(p, derive, j, xs[0]);
    }
  }

  /** A run of the protocol from after a happening makes one from before it. */
  lemma Before(p: Policy, derive: Derive, fenced: bool, j: Joint, x: Happening, rest: seq<Event>, w': World)
    returns (es: seq<Event>)
    requires Good(j) && Happens(p, derive, j, x) && (fenced && x.Acts? ==> Fenced(j.w, x.e))
    requires ProtocolRun(p, derive, fenced, After(p, derive, j, x).w, rest, w')
    ensures ProtocolRun(p, derive, fenced, j.w, es, w')
  {
    hide *;
    var mid := After(p, derive, j, x).w;
    es := rest;
    match x
    case Acts(e) =>
      ActsShape(p, derive, j, e);
      First(p, derive, fenced, j.w, e, mid, rest, w');
      es := [e] + rest;
    case Reads(h) => ReadsGood(p, derive, j, h);
    case Moves(s) =>
      MovesShape(p, derive, j, s);
      MovesShow(p, derive, j, s);
      if Seen(j, x) != [] {
        var e := Seen(j, x)[0];
        SourceUnfenced(j.w, e);
        First(p, derive, fenced, j.w, e, mid, rest, w');
        es := [e] + rest;
      }
  }

  lemma SourceUnfenced(w: World, e: Event)
    requires e.Source?
    ensures Fenced(w, e)
  {
  }

  lemma {:induction false} JointIsRun(p: Policy, derive: Derive, fenced: bool, j: Joint, xs: seq<Happening>, j': Joint)
    returns (es: seq<Event>)
    requires Good(j) && JointRun(p, derive, fenced, j, xs, j')
    ensures Good(j') && ProtocolRun(p, derive, fenced, j.w, es, j'.w)
    decreases |xs|
  {
    JointFirst(p, derive, fenced, j, xs, j');
    if xs == [] {
      es := [];
      hide Good;
    } else {
      hide *;
      es := JointIsRun(p, derive, fenced, After(p, derive, j, xs[0]), xs[1..], j');
      es := Before(p, derive, fenced, j, xs[0], es, j'.w);
    }
  }

  lemma BeginningGood()
    ensures Good(BEGINNING)
  {
    StartOk();
    S.NoneDuplicated();
  }

  /** A run of the mint on spark, from the empty mint and an empty wallet on. */
  ghost predicate SparkRun(p: Policy, derive: Derive, fenced: bool, xs: seq<Happening>, j: Joint) {
    BeginningGood();
    JointRun(p, derive, fenced, BEGINNING, xs, j)
  }

  /** Every run of the mint on spark is a run of the protocol: the wallet's answers
      are within the contract of the funding source throughout. */
  lemma SparkRunsProtocol(p: Policy, derive: Derive, fenced: bool, xs: seq<Happening>, j: Joint)
    returns (es: seq<Event>)
    requires SparkRun(p, derive, fenced, xs, j)
    ensures Good(j) && ProtocolRun(p, derive, fenced, START, es, j.w)
  {
    BeginningGood();
    assert BEGINNING.w == START;
    hide *;
    es := JointIsRun(p, derive, fenced, BEGINNING, xs, j);
  }

  /** The router asks the wallet for each payment once: whenever an attempt can
      begin, its payment was never attempted. */
  lemma AttemptedOnce(p: Policy, derive: Derive, xs: seq<Happening>, j: Joint, t: nat)
    requires SparkRun(p, derive, false, xs, j) && Enabled(p, derive, j.w, Begin(t))
    ensures t in j.w.tasks && S.Possible(j.b, S.Attempt(j.w.tasks[t].h))
  {
    hide *;
    var es := SparkRunsProtocol(p, derive, false, xs, j);
    MayBegin(p, derive, j, t);
    BeginFresh(j, t);
  }

  lemma MayBegin(p: Policy, derive: Derive, j: Joint, t: nat)
    requires Enabled(p, derive, j.w, Begin(t))
    ensures t in j.w.tasks && j.w.tasks[t].phase.Scheduled?
  {
  }

  lemma BeginFresh(j: Joint, t: nat)
    requires Good(j) && t in j.w.tasks && j.w.tasks[t].phase.Scheduled?
    ensures S.Possible(j.b, S.Attempt(j.w.tasks[t].h))
  {
    hide Consistent, S.Honest;
  }

  /** With the fence kept, a note whose transfer has arrived or is still moving is
      reserved for its payment or spent because it arrived, and was not exchanged;
      and the books balance. */
  lemma SparkMintSafe(p: Policy, derive: Derive, xs: seq<Happening>, j: Joint)
    requires SparkRun(p, derive, true, xs, j)
    ensures forall h | S.FateOf(j.b, h).Moving? || S.FateOf(j.b, h).Arrived? ::
              && h in j.w.melted
              && var id := j.w.melted[h].id;
                 && (Reserved(j.w.db, id, h) || (S.FateOf(j.b, h).Arrived? && Spent(j.w.db.notes, id)))
                 && id !in j.w.exchanged
    ensures var amounts := Amounts(j.w.db.notes, j.w.pays);
            Total(amounts) + |amounts| * p.fees.baseFee + Total(Melted(j.w.melted, j.w.pays)) <= Total(PaidIn(j.w))
  {
    hide *;
    var es := SparkRunsProtocol(p, derive, true, xs, j);
    FencedOf(p, derive, START, es, j.w);
    MeltSafety(p, derive, es, j.w);
    ConservationHolds(p, derive, es, j.w);
    forall h | S.FateOf(j.b, h).Moving? || S.FateOf(j.b, h).Arrived?
      ensures h in j.w.pays && j.w.pays[h] == AsPay(S.FateOf(j.b, h)) && CanLand(j.w, h)
    {
      LivePay(j, h);
    }
    LandedArrived();
  }

  lemma LandedArrived()
    ensures forall fate :: AsPay(fate).Landed? <==> fate.Arrived?
  {
  }

  lemma FencedOf(p: Policy, derive: Derive, w: World, es: seq<Event>, w': World)
    requires ProtocolRun(p, derive, true, w, es, w')
    ensures FencedRun(p, derive, w, es, w')
  {
  }

  lemma LivePay(j: Joint, h: Hash)
    requires Good(j) && (S.FateOf(j.b, h).Moving? || S.FateOf(j.b, h).Arrived?)
    ensures h in j.w.pays && j.w.pays[h] == AsPay(S.FateOf(j.b, h)) && CanLand(j.w, h)
  {
    hide Consistent;
    AwayUnsent(j.b, h);
    assert h in j.b.fates;
    assert Matches(j.b, h, j.w.pays[h]);
  }
}
