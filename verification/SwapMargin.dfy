/**
 The safety margin of the swap is exact: whenever it is violated there is a run, built here step by step,
 in which the responder follows the protocol and the initiator still ends up with both sides.
 */
module SwapMargins {
  import opened Basics
  import opened Deadlines
  import opened HtlcWallets
  import opened Ledgers
  import opened Worlds
  import opened Swaps

  /** No run with a prompt responder, of any swap with this timing, ever leaves the initiator with both sides. */
  ghost predicate ResponderAlwaysSafe(H: Bytes -> Bytes, t: Timing) {
    forall tmss, sw: Swap, run :: sw.tmsA != sw.tmsB && SwapRun(H, tmss, sw, t, run) ==>
                                    !InitiatorHoldsBoth(Exec(H, InitialWorld(tmss), run), sw)
  }

  /** The same for a responder that only sends claim requests,
      one of them in time and without a rival at that moment. */
  ghost predicate RequestsAlwaysSafe(H: Bytes -> Bytes, t: Timing) {
    forall tmss, sw: Swap, run :: sw.tmsA != sw.tmsB && RequestRun(H, tmss, sw, t, run, true) ==>
                                    !InitiatorHoldsBoth(Exec(H, InitialWorld(tmss), run), sw)
  }

  // ---------------------------------------------------------------------------------------------
  // Runs in which both parties act by requests

  /**
   What else holds all along a run: nothing is due yet, the initiator asks only while the responder's lock is open,
   nobody claims anything.
   */
  datatype Mood = Mood(early: bool, open: bool, silent: bool)

  const SILENT := Mood(true, true, true)
  const CALM := Mood(true, true, false)
  const EARLY := Mood(true, false, false)
  const ANY := Mood(false, false, false)

  ghost predicate InOrder(H: Bytes -> Bytes, w: World, sw: Swap, t: Timing, mood: Mood) {
    Agreed(w, sw, t) && LocksFirst(w, sw) && SecretKept(H, w, sw) && (mood.early ==> !Due(w, sw, t))
  }

  predicate StepInOrder(H: Bytes -> Bytes, w: World, sw: Swap, t: Timing, step: Step, mood: Mood) {
    CommitTimely(w, step, t.lag) && ClaimsByRequest(H, w, sw, step) &&
    (mood.open ==> AsksWhileOpen(H, w, sw, t, step)) &&
    (mood.silent ==> !(step.Prepare? && step.tx.action.Claim?))
  }

  ghost predicate Orderly(H: Bytes -> Bytes, tmss: set<TmsId>, sw: Swap, t: Timing, run: Run, mood: Mood) {
    InOrder(H, Exec(H, InitialWorld(tmss), run), sw, t, mood) &&
    match run
    case Start => true
    case Then(before, step) =>
      Orderly(H, tmss, sw, t, before, mood) && StepInOrder(H, Exec(H, InitialWorld(tmss), before), sw, t, step, mood)
  }

  /** Where nothing is due, the responder follows the protocol in either sense. */
  lemma {:induction false} EarlyFollows(H: Bytes -> Bytes, tmss: set<TmsId>, sw: Swap, t: Timing, run: Run,
                                        mood: Mood, sole: bool)
    requires Orderly(H, tmss, sw, t, run, mood) && mood.early
    ensures SwapRun(H, tmss, sw, t, run) && RequestRun(H, tmss, sw, t, run, sole)
  {
    match run
    case Start =>
    case Then(before, _) => EarlyFollows(H, tmss, sw, t, before, mood, sole);
  }

  lemma {:induction false} OrderlyInAnyMood(H: Bytes -> Bytes, tmss: set<TmsId>, sw: Swap, t: Timing, run: Run,
                                            mood: Mood, less: Mood)
    requires Orderly(H, tmss, sw, t, run, mood) && (less.early ==> mood.early) && (less.open ==> mood.open) &&
             (less.silent ==> mood.silent)
    ensures Orderly(H, tmss, sw, t, run, less)
  {
    match run
    case Start =>
    case Then(before, _) => OrderlyInAnyMood(H, tmss, sw, t, before, mood, less);
  }

  lemma {:induction false} OrderlyInitiator(H: Bytes -> Bytes, tmss: set<TmsId>, sw: Swap, t: Timing, run: Run,
                                            mood: Mood)
    requires Orderly(H, tmss, sw, t, run, mood)
    ensures InitiatorRequestRun(H, tmss, sw, t, run) && (mood.open ==> AskingWhileOpen(H, tmss, sw, t, run))
  {
    match run
    case Start =>
    case Then(before, _) => OrderlyInitiator(H, tmss, sw, t, before, mood);
  }

  lemma InOrderIgnoresPending(H: Bytes -> Bytes, w: World, w': World, sw: Swap, t: Timing, mood: Mood)
    requires InOrder(H, w, sw, t, mood)
    requires w'.clock == w.clock && w'.ledgers == w.ledgers && w'.secrets == w.secrets && w'.published == w.published
    ensures InOrder(H, w', sw, t, mood)
  {
    assert forall x :: Secrets(w', x) == Secrets(w, x);
  }

  lemma SubmitIsOrderly(H: Bytes -> Bytes, tmss: set<TmsId>, sw: Swap, t: Timing, mood: Mood, run: Run, w: World,
                        tms: TmsId, tx: Tx)
    requires Orderly(H, tmss, sw, t, run, mood) && w == Exec(H, InitialWorld(tmss), run)
    requires tms in w.ledgers && w.nextTx !in w.pending
    requires CanPrepare(w, tx) && Valid(H, w.ledgers[tms], tx, w.clock) &&
             StepInOrder(H, w, sw, t, Prepare(tms, tx), mood)
    requires InOrder(H, Submitted(w, tms, tx), sw, t, mood)
    ensures Orderly(H, tmss, sw, t, Submit(run, tms, tx, w.nextTx), mood)
    ensures Exec(H, InitialWorld(tmss), Submit(run, tms, tx, w.nextTx)) == Submitted(w, tms, tx)
  {
    SubmitEffect(H, InitialWorld(tmss), run, w, tms, tx);
    var prepared := Then(run, Prepare(tms, tx));
    var endorsed := Then(prepared, Endorse(w.nextTx));
    InOrderIgnoresPending(H, w, Exec(H, InitialWorld(tmss), prepared), sw, t, mood);
    InOrderIgnoresPending(H, w, Exec(H, InitialWorld(tmss), endorsed), sw, t, mood);
    assert Orderly(H, tmss, sw, t, prepared, mood);
    assert Orderly(H, tmss, sw, t, endorsed, mood);
  }

  // ---------------------------------------------------------------------------------------------
  // The cast of the run

  const FABRIC := TmsId("default", "mychannel", "token_namespace")
  const EVM := TmsId("evm", "", "evm_namespace")
  const BOTH := {FABRIC, EVM}
  const ALICE: Wallet := "alice"
  const DAN: Wallet := "dan"
  const SECRET: Bytes := [42]

  /** Each lock is the second output of its ledger; the first is the token it spends. */
  function TheSwap(H: Bytes -> Bytes): Swap {
    Swap(ALICE, DAN, H(SECRET), FABRIC, 1, "TOK", 1, EVM, 1, "ETOK", 1)
  }

  /** The world of the run: nothing pending, alice holds the secret. */
  function Scene(clock: nat, fabric: Ledger, evm: Ledger, nextTx: nat, published: set<Bytes>): World {
    World(clock, map[FABRIC := fabric, EVM := evm], map[], nextTx, map[ALICE := {SECRET}], published, published)
  }

  function IssueOne(wallet: Wallet, code: Code): Tx {
    Tx(Issue(wallet, code, 1), [], [Token(Plain(wallet), code, 1)])
  }

  function LockOne(script: Script, code: Code, call: LockCall, input: nat): Tx {
    Tx(Lock(script, code, 1, call), [input], [Token(Locked(script), code, 1)])
  }

  function ClaimOne(id: nat, wallet: Wallet, code: Code): Tx {
    Tx(Claim(id, wallet, SECRET), [id], [Token(Plain(wallet), code, 1)])
  }

  function ReclaimOne(wallet: Wallet, code: Code): Tx {
    Tx(Reclaim(1, wallet), [1], [Token(Plain(wallet), code, 1)])
  }

  function Funded(wallet: Wallet, code: Code): Ledger {
    Apply(EMPTY_LEDGER, IssueOne(wallet, code), 0)
  }

  function ScriptA(H: Bytes -> Bytes, t: Timing): Script { Script(ALICE, DAN, H(SECRET), t.DeadlineA()) }

  function ScriptB(H: Bytes -> Bytes, t: Timing): Script { Script(DAN, ALICE, H(SECRET), t.DeadlineB()) }

  function LockedA(H: Bytes -> Bytes, t: Timing): Ledger {
    Apply(Funded(ALICE, "TOK"), LockOne(ScriptA(H, t), "TOK", LockCall(t.tA, t.dA), 0), t.tA)
  }

  function LockedB(H: Bytes -> Bytes, t: Timing): Ledger {
    Apply(Funded(DAN, "ETOK"), LockOne(ScriptB(H, t), "ETOK", LockCall(t.tB, t.dB), 0), t.tB)
  }

  function ClaimedB(H: Bytes -> Bytes, t: Timing, now: nat): Ledger {
    Apply(LockedB(H, t), ClaimOne(1, ALICE, "ETOK"), now)
  }

  function ReclaimedA(H: Bytes -> Bytes, t: Timing, now: nat): Ledger {
    Apply(LockedA(H, t), ReclaimOne(ALICE, "TOK"), now)
  }

  lemma OneCanBeLocked(H: Bytes -> Bytes, l: Ledger, script: Script, code: Code, call: LockCall, input: nat)
    requires Unspent(l, input) && l.outputs[input] == Token(Plain(script.sender), code, 1) && call.at < script.deadline
    ensures Valid(H, l, LockOne(script, code, call, input), call.at)
  {
    SumSingleton(l.outputs, input, code);
    assert Ids([input]) == {input};
    assert Change(script.sender, code, 0) == [];
  }

  /** Before the responder's lock is claimed, only the terms of the locks matter. */
  lemma EarlyInOrder(H: Bytes -> Bytes, t: Timing, w: World)
    requires FABRIC in w.ledgers && EVM in w.ledgers
    requires w == Scene(w.clock, w.ledgers[FABRIC], w.ledgers[EVM], w.nextTx, w.published)
    requires w.ledgers[FABRIC] in {EMPTY_LEDGER, Funded(ALICE, "TOK"), LockedA(H, t)}
    requires w.ledgers[EVM] in {EMPTY_LEDGER, Funded(DAN, "ETOK"), LockedB(H, t)}
    requires w.ledgers[EVM] == LockedB(H, t) ==> w.ledgers[FABRIC] == LockedA(H, t)
    ensures InOrder(H, w, TheSwap(H), t, SILENT)
  {
  }

  // ---------------------------------------------------------------------------------------------
  // The run, act by act

  lemma ActOneSecret(H: Bytes -> Bytes, t: Timing) returns (run: Run)
    ensures Orderly(H, BOTH, TheSwap(H), t, run, SILENT)
    ensures Exec(H, InitialWorld(BOTH), run) == Scene(0, EMPTY_LEDGER, EMPTY_LEDGER, 0, {})
  {
    run := Then(Start, Learn(ALICE, SECRET));
    var w0 := InitialWorld(BOTH);
    assert w0.ledgers == map[FABRIC := EMPTY_LEDGER, EVM := EMPTY_LEDGER];
    assert Exec(H, w0, Start) == w0;
    assert Next(H, w0, Learn(ALICE, SECRET)).secrets[ALICE] == {SECRET};
    assert InOrder(H, w0, TheSwap(H), t, SILENT);
    assert Exec(H, w0, run) == Scene(0, EMPTY_LEDGER, EMPTY_LEDGER, 0, {});
    EarlyInOrder(H, t, Scene(0, EMPTY_LEDGER, EMPTY_LEDGER, 0, {}));
  }

  lemma ActOneAliceFunded(H: Bytes -> Bytes, t: Timing) returns (run: Run)
    ensures Orderly(H, BOTH, TheSwap(H), t, run, SILENT)
    ensures Exec(H, InitialWorld(BOTH), run) == Scene(0, Funded(ALICE, "TOK"), EMPTY_LEDGER, 1, {})
  {
    var learnt := ActOneSecret(H, t);
    var w := Scene(0, EMPTY_LEDGER, EMPTY_LEDGER, 0, {});
    assert Submitted(w, FABRIC, IssueOne(ALICE, "TOK")) == Scene(0, Funded(ALICE, "TOK"), EMPTY_LEDGER, 1, {});
    EarlyInOrder(H, t, Scene(0, Funded(ALICE, "TOK"), EMPTY_LEDGER, 1, {}));
    SubmitIsOrderly(H, BOTH, TheSwap(H), t, SILENT, learnt, w, FABRIC, IssueOne(ALICE, "TOK"));
    run := Submit(learnt, FABRIC, IssueOne(ALICE, "TOK"), 0);
  }

  lemma ActOneDanFunded(H: Bytes -> Bytes, t: Timing) returns (run: Run)
    ensures Orderly(H, BOTH, TheSwap(H), t, run, SILENT)
    ensures Exec(H, InitialWorld(BOTH), run) == Scene(0, Funded(ALICE, "TOK"), Funded(DAN, "ETOK"), 2, {})
  {
    var issued := ActOneAliceFunded(H, t);
    var w := Scene(0, Funded(ALICE, "TOK"), EMPTY_LEDGER, 1, {});
    assert Submitted(w, EVM, IssueOne(DAN, "ETOK")) == Scene(0, Funded(ALICE, "TOK"), Funded(DAN, "ETOK"), 2, {});
    EarlyInOrder(H, t, Scene(0, Funded(ALICE, "TOK"), Funded(DAN, "ETOK"), 2, {}));
    SubmitIsOrderly(H, BOTH, TheSwap(H), t, SILENT, issued, w, EVM, IssueOne(DAN, "ETOK"));
    run := Submit(issued, EVM, IssueOne(DAN, "ETOK"), 1);
  }

  /** Waiting in a scene. */
  lemma WaitIsOrderly(H: Bytes -> Bytes, t: Timing, mood: Mood, run: Run, w: World, later: nat) returns (waited: Run)
    requires Orderly(H, BOTH, TheSwap(H), t, run, mood) && w == Exec(H, InitialWorld(BOTH), run) && w.clock <= later
    requires InOrder(H, w.(clock := later), TheSwap(H), t, mood)
    ensures Orderly(H, BOTH, TheSwap(H), t, waited, mood) && waited == Then(run, Tick(later - w.clock))
    ensures Exec(H, InitialWorld(BOTH), waited) == w.(clock := later)
  {
    waited := Then(run, Tick(later - w.clock));
  }

  lemma AliceCanLock(H: Bytes -> Bytes, t: Timing)
    requires t.Accepted()
    ensures var w := Scene(t.tA, Funded(ALICE, "TOK"), Funded(DAN, "ETOK"), 2, {});
            var lockA := LockOne(ScriptA(H, t), "TOK", LockCall(t.tA, t.dA), 0);
            CanPrepare(w, lockA) && Valid(H, w.ledgers[FABRIC], lockA, w.clock) &&
            Submitted(w, FABRIC, lockA) == Scene(t.tA, LockedA(H, t), Funded(DAN, "ETOK"), 3, {})
  {
    ToDeadlineExact(t.dA);
    OneCanBeLocked(H, Funded(ALICE, "TOK"), ScriptA(H, t), "TOK", LockCall(t.tA, t.dA), 0);
  }

  lemma ActTwoAliceLocks(H: Bytes -> Bytes, t: Timing) returns (run: Run)
    requires t.Accepted()
    ensures Orderly(H, BOTH, TheSwap(H), t, run, SILENT)
    ensures Exec(H, InitialWorld(BOTH), run) == Scene(t.tA, LockedA(H, t), Funded(DAN, "ETOK"), 3, {})
  {
    var funded := ActOneDanFunded(H, t);
    var w := Scene(t.tA, Funded(ALICE, "TOK"), Funded(DAN, "ETOK"), 2, {});
    EarlyInOrder(H, t, w);
    var waited := WaitIsOrderly(H, t, SILENT, funded, w.(clock := 0), t.tA);
    AliceCanLock(H, t);
    EarlyInOrder(H, t, Scene(t.tA, LockedA(H, t), Funded(DAN, "ETOK"), 3, {}));
    var lockA := LockOne(ScriptA(H, t), "TOK", LockCall(t.tA, t.dA), 0);
    SubmitIsOrderly(H, BOTH, TheSwap(H), t, SILENT, waited, w, FABRIC, lockA);
    run := Submit(waited, FABRIC, lockA, 2);
  }

  lemma DanCanLock(H: Bytes -> Bytes, t: Timing)
    requires t.Accepted()
    ensures var w := Scene(t.tB, LockedA(H, t), Funded(DAN, "ETOK"), 3, {});
            var lockB := LockOne(ScriptB(H, t), "ETOK", LockCall(t.tB, t.dB), 0);
            CanPrepare(w, lockB) && Valid(H, w.ledgers[EVM], lockB, w.clock) &&
            Submitted(w, EVM, lockB) == Scene(t.tB, LockedA(H, t), LockedB(H, t), 4, {})
  {
    ToDeadlineExact(t.dB);
    OneCanBeLocked(H, Funded(DAN, "ETOK"), ScriptB(H, t), "ETOK", LockCall(t.tB, t.dB), 0);
  }

  lemma ActTwoDanLocks(H: Bytes -> Bytes, t: Timing) returns (run: Run)
    requires t.Accepted()
    ensures Orderly(H, BOTH, TheSwap(H), t, run, SILENT)
    ensures Exec(H, InitialWorld(BOTH), run) == Scene(t.tB, LockedA(H, t), LockedB(H, t), 4, {})
  {
    var locked := ActTwoAliceLocks(H, t);
    var w := Scene(t.tB, LockedA(H, t), Funded(DAN, "ETOK"), 3, {});
    EarlyInOrder(H, t, w);
    var waited := WaitIsOrderly(H, t, SILENT, locked, w.(clock := t.tA), t.tB);
    DanCanLock(H, t);
    EarlyInOrder(H, t, Scene(t.tB, LockedA(H, t), LockedB(H, t), 4, {}));
    var lockB := LockOne(ScriptB(H, t), "ETOK", LockCall(t.tB, t.dB), 0);
    SubmitIsOrderly(H, BOTH, TheSwap(H), t, SILENT, waited, w, EVM, lockB);
    run := Submit(waited, EVM, lockB, 3);
  }

  /** The claim is validated just before the responder's deadline and committed `lag` later. */
  function ClaimTime(t: Timing): nat
    requires t.DeadlineB() > 0
  {
    t.DeadlineB() - 1 + t.lag
  }

  /** alice's claim request matches the responder's lock alone. */
  lemma ClaimBIsRequest(H: Bytes -> Bytes, t: Timing, w: World)
    requires EVM in w.ledgers && w.ledgers[EVM] == LockedB(H, t) && w.clock < t.DeadlineB()
    ensures Valid(H, w.ledgers[EVM], ClaimOne(1, ALICE, "ETOK"), w.clock)
    ensures StepInOrder(H, w, TheSwap(H), t, Prepare(EVM, ClaimOne(1, ALICE, "ETOK")), CALM)
  {
    assert ListByPreImage(H, w.ledgers[EVM], ALICE, SECRET, w.clock) == {1};
  }

  /** From the claim until the reaction is due, nothing is amiss. */
  lemma ClaimedInOrder(H: Bytes -> Bytes, t: Timing, clock: nat, published: nat, n: nat)
    requires published + t.delta < t.DeadlineA() ==> clock <= published + t.delta
    ensures InOrder(H, Scene(clock, LockedA(H, t), ClaimedB(H, t, published), n, {SECRET}), TheSwap(H), t, CALM)
  {
    var w := Scene(clock, LockedA(H, t), ClaimedB(H, t, published), n, {SECRET});
    assert w.ledgers[EVM].spent[1].at == published;
  }

  /** The claim is prepared just before the responder's deadline. */
  lemma ActThreePrepared(H: Bytes -> Bytes, t: Timing) returns (run: Run)
    requires t.Accepted() && t.DeadlineB() > t.tB
    ensures Orderly(H, BOTH, TheSwap(H), t, run, CALM)
    ensures Exec(H, InitialWorld(BOTH), run) == LateScene(H, t, t.DeadlineB() - 1, None, {})
  {
    var e, tx := t.DeadlineB() - 1, ClaimOne(1, ALICE, "ETOK");
    var locked := ActTwoDanLocks(H, t);
    OrderlyInAnyMood(H, BOTH, TheSwap(H), t, locked, SILENT, CALM);
    var w := Scene(e, LockedA(H, t), LockedB(H, t), 4, {});
    EarlyInOrder(H, t, w);
    var waited := WaitIsOrderly(H, t, CALM, locked, w.(clock := t.tB), e);
    ClaimBIsRequest(H, t, w);
    run := Then(waited, Prepare(EVM, tx));
    InOrderIgnoresPending(H, w, LateScene(H, t, e, None, {}), TheSwap(H), t, CALM);
  }

  /** Both locks are there, and the late claim is under way. */
  function LateScene(H: Bytes -> Bytes, t: Timing, clock: nat, endorsedAt: Option<nat>, shown: set<Bytes>): World
    requires t.DeadlineB() > 0
  {
    Scene(clock, LockedA(H, t), LockedB(H, t), 5, {}).(
    pending := map[4 := Pending(EVM, ClaimOne(1, ALICE, "ETOK"), t.DeadlineB() - 1, endorsedAt)], shown := shown)
  }

  lemma LateIsInOrder(H: Bytes -> Bytes, t: Timing, clock: nat)
    requires t.DeadlineB() > 0
    ensures InOrder(H, LateScene(H, t, clock, Some(t.DeadlineB() - 1), {SECRET}), TheSwap(H), t, CALM)
  {
    var w := Scene(clock, LockedA(H, t), LockedB(H, t), 4, {});
    EarlyInOrder(H, t, w);
    InOrderIgnoresPending(H, w, LateScene(H, t, clock, Some(t.DeadlineB() - 1), {SECRET}), TheSwap(H), t, CALM);
  }

  lemma LateIsEndorsed(H: Bytes -> Bytes, t: Timing)
    requires t.DeadlineB() > 0
    ensures var e := t.DeadlineB() - 1;
            DoEndorse(H, LateScene(H, t, e, None, {}), 4) == LateScene(H, t, e, Some(e), {SECRET})
  {
    ClaimBIsRequest(H, t, LateScene(H, t, t.DeadlineB() - 1, None, {}));
  }

  lemma ActThreeEndorsed(H: Bytes -> Bytes, t: Timing) returns (run: Run)
    requires t.Accepted() && t.DeadlineB() > t.tB
    ensures Orderly(H, BOTH, TheSwap(H), t, run, CALM)
    ensures Exec(H, InitialWorld(BOTH), run) == LateScene(H, t, ClaimTime(t), Some(t.DeadlineB() - 1), {SECRET})
  {
    var e := t.DeadlineB() - 1;
    var prepared := ActThreePrepared(H, t);
    LateIsEndorsed(H, t);
    LateIsInOrder(H, t, e);
    var endorsed := Then(prepared, Endorse(4));
    assert Orderly(H, BOTH, TheSwap(H), t, endorsed, CALM);
    LateIsInOrder(H, t, ClaimTime(t));
    run := WaitIsOrderly(H, t, CALM, endorsed, LateScene(H, t, e, Some(e), {SECRET}), ClaimTime(t));
  }

  lemma LateCommit(H: Bytes -> Bytes, t: Timing, w: World)
    requires t.DeadlineB() > 0 && w == LateScene(H, t, ClaimTime(t), Some(t.DeadlineB() - 1), {SECRET})
    ensures DoCommit(w, 4) == Scene(ClaimTime(t), LockedA(H, t), ClaimedB(H, t, ClaimTime(t)), 5, {SECRET})
    ensures CommitTimely(w, Commit(4), t.lag)
  {
    assert Committable(w, 4) && w.pending - {4} == map[];
    assert w.ledgers[EVM := ClaimedB(H, t, w.clock)] == map[FABRIC := LockedA(H, t), EVM := ClaimedB(H, t, w.clock)];
  }

  lemma CommitIsOrderly(H: Bytes -> Bytes, t: Timing, run: Run, w: World, id: nat, w': World)
    requires Orderly(H, BOTH, TheSwap(H), t, run, CALM) && w == Exec(H, InitialWorld(BOTH), run)
    requires CommitTimely(w, Commit(id), t.lag) && w' == DoCommit(w, id) && InOrder(H, w', TheSwap(H), t, CALM)
    ensures Orderly(H, BOTH, TheSwap(H), t, Then(run, Commit(id)), CALM)
    ensures Exec(H, InitialWorld(BOTH), Then(run, Commit(id))) == w'
  {
  }

  lemma ActThreeLateClaim(H: Bytes -> Bytes, t: Timing) returns (run: Run)
    requires t.Accepted() && t.DeadlineB() > t.tB
    ensures Orderly(H, BOTH, TheSwap(H), t, run, CALM)
    ensures Exec(H, InitialWorld(BOTH), run) ==
            Scene(ClaimTime(t), LockedA(H, t), ClaimedB(H, t, ClaimTime(t)), 5, {SECRET})
  {
    var endorsed := ActThreeEndorsed(H, t);
    var w := Exec(H, InitialWorld(BOTH), endorsed);
    LateCommit(H, t, w);
    ClaimedInOrder(H, t, ClaimTime(t), ClaimTime(t), 5);
    CommitIsOrderly(H, t, endorsed, w, 4, Scene(ClaimTime(t), LockedA(H, t), ClaimedB(H, t, ClaimTime(t)), 5,
                                                {SECRET}));
    run := Then(endorsed, Commit(4));
  }

  lemma ReclaimIsValid(H: Bytes -> Bytes, t: Timing, now: nat)
    requires t.DeadlineA() <= now
    ensures Valid(H, LockedA(H, t), ReclaimOne(ALICE, "TOK"), now)
  {
    assert LockedA(H, t).outputs[1] == Token(Locked(ScriptA(H, t)), "TOK", 1);
  }

  lemma EndInOrder(H: Bytes -> Bytes, t: Timing, clock: nat, published: nat, n: nat)
    requires published + t.delta < t.DeadlineA() ==> clock <= published + t.delta
    ensures var w := Scene(clock, ReclaimedA(H, t, clock), ClaimedB(H, t, published), n, {SECRET});
            InOrder(H, w, TheSwap(H), t, CALM) && InitiatorHoldsBoth(w, TheSwap(H))
  {
    var w := Scene(clock, ReclaimedA(H, t, clock), ClaimedB(H, t, published), n, {SECRET});
    assert w.ledgers[EVM].spent[1].at == published;
  }

  /** When the initiator's lock can be reclaimed after the late claim. */
  function ReclaimTime(t: Timing): nat
    requires t.DeadlineB() > 0
  {
    if ClaimTime(t) < t.DeadlineA() then t.DeadlineA() else ClaimTime(t)
  }

  lemma ActFourWait(H: Bytes -> Bytes, t: Timing) returns (run: Run)
    requires t.Accepted() && t.DeadlineB() > t.tB && !t.Margin()
    ensures Orderly(H, BOTH, TheSwap(H), t, run, CALM)
    ensures Exec(H, InitialWorld(BOTH), run) ==
            Scene(ReclaimTime(t), LockedA(H, t), ClaimedB(H, t, ClaimTime(t)), 5, {SECRET})
  {
    var claimed := ActThreeLateClaim(H, t);
    var w := Scene(ClaimTime(t), LockedA(H, t), ClaimedB(H, t, ClaimTime(t)), 5, {SECRET});
    ClaimedInOrder(H, t, ReclaimTime(t), ClaimTime(t), 5);
    run := WaitIsOrderly(H, t, CALM, claimed, w, ReclaimTime(t));
  }

  lemma AliceCanReclaim(H: Bytes -> Bytes, t: Timing)
    requires t.DeadlineB() > 0
    ensures var w := Scene(ReclaimTime(t), LockedA(H, t), ClaimedB(H, t, ClaimTime(t)), 5, {SECRET});
            Valid(H, w.ledgers[FABRIC], ReclaimOne(ALICE, "TOK"), w.clock) &&
            Submitted(w, FABRIC, ReclaimOne(ALICE, "TOK")) ==
            Scene(ReclaimTime(t), ReclaimedA(H, t, ReclaimTime(t)), ClaimedB(H, t, ClaimTime(t)), 6, {SECRET})
  {
    ReclaimIsValid(H, t, ReclaimTime(t));
  }

  /** Without the margin, the initiator's own deadline passes before the responder's reaction is due. */
  lemma ActFourReclaim(H: Bytes -> Bytes, t: Timing) returns (run: Run)
    requires t.Accepted() && t.DeadlineB() > t.tB && !t.Margin()
    ensures Orderly(H, BOTH, TheSwap(H), t, run, CALM)
    ensures InitiatorHoldsBoth(Exec(H, InitialWorld(BOTH), run), TheSwap(H))
  {
    var waited := ActFourWait(H, t);
    var w := Scene(ReclaimTime(t), LockedA(H, t), ClaimedB(H, t, ClaimTime(t)), 5, {SECRET});
    AliceCanReclaim(H, t);
    EndInOrder(H, t, ReclaimTime(t), ClaimTime(t), 6);
    SubmitIsOrderly(H, BOTH, TheSwap(H), t, CALM, waited, w, FABRIC, ReclaimOne(ALICE, "TOK"));
    run := Submit(waited, FABRIC, ReclaimOne(ALICE, "TOK"), 5);
  }

  // ---------------------------------------------------------------------------------------------
  // Main results

  /**
   Responder safety over all runs holds exactly when the initiator's absolute deadline is at least the
   responder's, plus the time a validated claim may take to be ordered, plus the responder's reaction time:
   for a responder that is prompt, and for one that sends claim requests, one in time without a rival at that moment.
   */
  lemma MarginIsExact(H: Bytes -> Bytes, t: Timing)
    requires t.Accepted()
    ensures ResponderAlwaysSafe(H, t) <==> t.tB + t.dB * NANOS + t.lag + t.delta <= t.tA + t.dA * NANOS
    ensures RequestsAlwaysSafe(H, t) <==> t.tB + t.dB * NANOS + t.lag + t.delta <= t.tA + t.dA * NANOS
  {
    if t.Margin() {
      forall tmss, sw: Swap, run | sw.tmsA != sw.tmsB && SwapRun(H, tmss, sw, t, run)
        ensures !InitiatorHoldsBoth(Exec(H, InitialWorld(tmss), run), sw)
      {
        ResponderSafe(H, tmss, sw, t, run);
      }
      forall tmss, sw: Swap, run |
        sw.tmsA != sw.tmsB && RequestRun(H, tmss, sw, t, run, true)
        ensures !InitiatorHoldsBoth(Exec(H, InitialWorld(tmss), run), sw)
      {
        ResponderSafeByRequests(H, tmss, sw, t, run);
      }
    } else {
      ToDeadlineExact(t.dB);
      var run := ActFourReclaim(H, t);
      EarlyFollows(H, BOTH, TheSwap(H), t, run, CALM, true);
      assert TheSwap(H).tmsA != TheSwap(H).tmsB;
    }
  }

  /** Deadlines run from the lock calls: a longer duration alone never suffices, the responder can be too late. */
  lemma LongerDurationIsNotEnough(H: Bytes -> Bytes, dA: nat, dB: nat, lag: nat, delta: nat, tA: nat)
    requires ToDeadline(dA).Some? && ToDeadline(dB).Some? && dB < dA
    ensures exists tB :: tA <= tB && !RequestsAlwaysSafe(H, Timing(tA, dA, tB, dB, lag, delta))
  {
    var tB := tA + dA * NANOS;
    ToDeadlineExact(dB);
    MarginIsExact(H, Timing(tA, dA, tB, dB, lag, delta));
  }

  /** Whatever the deadlines, safety needs a bound on the time from validation to commit. */
  lemma OrderingDelayMustBeBounded(H: Bytes -> Bytes, tA: nat, dA: nat, tB: nat, dB: nat, delta: nat)
    requires Timing(tA, dA, tB, dB, 0, delta).Accepted()
    ensures exists lag :: !RequestsAlwaysSafe(H, Timing(tA, dA, tB, dB, lag, delta))
  {
    var lag := tA + dA * NANOS + 1;
    MarginIsExact(H, Timing(tA, dA, tB, dB, lag, delta));
  }

  /** The swap as scripted, 120 against 60 seconds: safe exactly when the rest fits into one minute. */
  lemma ScriptedSwapMargin(H: Bytes -> Bytes, tA: nat, tB: nat, lag: nat, delta: nat)
    requires tA <= tB
    ensures RequestsAlwaysSafe(H, Timing(tA, 120, tB, 60, lag, delta)) <==> (tB - tA) + lag + delta <= 60 * NANOS
  {
    ToDeadlineExact(120);
    ToDeadlineExact(60);
    MarginIsExact(H, Timing(tA, 120, tB, 60, lag, delta));
  }
}
