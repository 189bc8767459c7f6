/**
 Runs of requests. A swap can complete; but requests name no lock: a second lock under the same hash keeps the responder
 from claiming, whatever the margin, and one in place of an expired lock draws the secret out of the initiator.
 */
module SwapRivals {
  import opened Basics
  import opened Deadlines
  import opened HtlcWallets
  import opened Ledgers
  import opened Worlds
  import opened Swaps
  import opened SwapMargins

  // ---------------------------------------------------------------------------------------------
  // The stage: both locks placed, nothing pending

  predicate HasLock(l: Ledger, token: Token, call: LockCall) {
    1 < |l.outputs| && l.outputs[1] == token && 1 in l.lockCalls && l.lockCalls[1] == call
  }

  predicate Stage(H: Bytes -> Bytes, t: Timing, w: World) {
    FABRIC in w.ledgers && EVM in w.ledgers && w.pending == map[] && w.secrets == map[ALICE := {SECRET}] &&
    HasLock(w.ledgers[FABRIC], Token(Locked(ScriptA(H, t)), "TOK", 1), LockCall(t.tA, t.dA)) &&
    HasLock(w.ledgers[EVM], Token(Locked(ScriptB(H, t)), "ETOK", 1), LockCall(t.tB, t.dB))
  }

  lemma StageInOrder(H: Bytes -> Bytes, t: Timing, w: World, mood: Mood)
    requires Stage(H, t, w) && (mood.early ==> !Due(w, TheSwap(H), t))
    ensures InOrder(H, w, TheSwap(H), t, mood)
  {
  }

  lemma StageStays(H: Bytes -> Bytes, t: Timing, w: World, tms: TmsId, tx: Tx)
    requires Stage(H, t, w) && tms in w.ledgers
    ensures Stage(H, t, Submitted(w, tms, tx))
  {
  }

  /** A transaction that goes through without anything in between. */
  lemma Act(H: Bytes -> Bytes, t: Timing, mood: Mood, run: Run, w: World, tms: TmsId, tx: Tx) returns (next: Run)
    requires Orderly(H, BOTH, TheSwap(H), t, run, mood) && Exec(H, InitialWorld(BOTH), run) == w && Stage(H, t, w)
    requires tms in w.ledgers && CanPrepare(w, tx) && Valid(H, w.ledgers[tms], tx, w.clock)
    requires StepInOrder(H, w, TheSwap(H), t, Prepare(tms, tx), mood)
    requires mood.early ==> !Due(Submitted(w, tms, tx), TheSwap(H), t)
    ensures Orderly(H, BOTH, TheSwap(H), t, next, mood) && next == Submit(run, tms, tx, w.nextTx)
    ensures Exec(H, InitialWorld(BOTH), next) == Submitted(w, tms, tx) && Stage(H, t, Submitted(w, tms, tx))
  {
    StageStays(H, t, w, tms, tx);
    StageInOrder(H, t, Submitted(w, tms, tx), mood);
    SubmitIsOrderly(H, BOTH, TheSwap(H), t, mood, run, w, tms, tx);
    next := Submit(run, tms, tx, w.nextTx);
  }

  lemma Pause(H: Bytes -> Bytes, t: Timing, mood: Mood, run: Run, w: World, later: nat) returns (next: Run)
    requires Orderly(H, BOTH, TheSwap(H), t, run, mood) && Exec(H, InitialWorld(BOTH), run) == w && Stage(H, t, w)
    requires w.clock <= later && (mood.early ==> !Due(w.(clock := later), TheSwap(H), t))
    ensures Orderly(H, BOTH, TheSwap(H), t, next, mood) && next == Then(run, Tick(later - w.clock))
    ensures Exec(H, InitialWorld(BOTH), next) == w.(clock := later) && Stage(H, t, w.(clock := later))
  {
    StageInOrder(H, t, w.(clock := later), mood);
    next := WaitIsOrderly(H, t, mood, run, w, later);
  }

  /** A ledger with two outputs: a spent token and the lock that spent it. */
  predicate JustLocked(l: Ledger, wallet: Wallet, token: Token) {
    l.outputs == [Token(Plain(wallet), token.code, 1), token] && l.spent.Keys == {0}
  }

  /** Both locks are there, and some time may have passed. */
  lemma BothLocked(H: Bytes -> Bytes, t: Timing, now: nat) returns (run: Run, w: World)
    requires t.Accepted() && t.tB <= now
    ensures Orderly(H, BOTH, TheSwap(H), t, run, SILENT) && Exec(H, InitialWorld(BOTH), run) == w
    ensures Stage(H, t, w) && w.clock == now && w.published == {} && w.shown == {}
    ensures JustLocked(w.ledgers[FABRIC], ALICE, Token(Locked(ScriptA(H, t)), "TOK", 1))
    ensures JustLocked(w.ledgers[EVM], DAN, Token(Locked(ScriptB(H, t)), "ETOK", 1))
  {
    var locked := ActTwoDanLocks(H, t);
    var before := Scene(t.tB, LockedA(H, t), LockedB(H, t), 4, {});
    w := Scene(now, LockedA(H, t), LockedB(H, t), 4, {});
    EarlyInOrder(H, t, w);
    run := WaitIsOrderly(H, t, SILENT, locked, before, now);
    assert Ids([0]) == {0};
  }

  /** `l'` is `l` with a new token of the sender, spent by a new lock. */
  predicate LockAdded(l: Ledger, l': Ledger, script: Script, code: Code) {
    l'.outputs == l.outputs + [Token(Plain(script.sender), code, 1), Token(Locked(script), code, 1)] &&
    l'.spent.Keys == l.spent.Keys + {|l.outputs|} && forall i :: i in l.spent ==> l'.spent[i] == l.spent[i]
  }

  lemma LockIsAdded(H: Bytes -> Bytes, l: Ledger, script: Script, code: Code, call: LockCall)
    requires call.at < script.deadline && forall i :: i in l.spent ==> i < |l.outputs|
    ensures var funded := Apply(l, IssueOne(script.sender, code), call.at);
            var lock := LockOne(script, code, call, |l.outputs|);
            Valid(H, l, IssueOne(script.sender, code), call.at) && Valid(H, funded, lock, call.at) &&
            LockAdded(l, Apply(funded, lock, call.at), script, code)
  {
    var funded := Apply(l, IssueOne(script.sender, code), call.at);
    OneCanBeLocked(H, funded, script, code, call, |l.outputs|);
    assert Ids([|l.outputs|]) == {|l.outputs|};
  }

  lemma OpenIsNotDue(w: World, sw: Swap, t: Timing)
    requires sw.tmsB in w.ledgers && sw.b !in w.ledgers[sw.tmsB].spent
    ensures !Due(w, sw, t)
  {
  }

  lemma AddedStaysOpen(l: Ledger, l': Ledger, script: Script, code: Code)
    requires LockAdded(l, l', script, code) && Unspent(l, 1)
    ensures Unspent(l', 1)
  {
  }

  lemma FundOnceMore(H: Bytes -> Bytes, t: Timing, run: Run, w: World, tms: TmsId, wallet: Wallet, code: Code)
    returns (next: Run)
    requires Orderly(H, BOTH, TheSwap(H), t, run, EARLY) && Exec(H, InitialWorld(BOTH), run) == w && Stage(H, t, w)
    requires tms in w.ledgers && Unspent(w.ledgers[EVM], 1)
    ensures var funded := Submitted(w, tms, IssueOne(wallet, code));
            Orderly(H, BOTH, TheSwap(H), t, next, EARLY) && Exec(H, InitialWorld(BOTH), next) == funded &&
            Stage(H, t, funded) && Unspent(funded.ledgers[EVM], 1)
  {
    var issue := IssueOne(wallet, code);
    assert Valid(H, w.ledgers[tms], issue, w.clock);
    OpenIsNotDue(Submitted(w, tms, issue), TheSwap(H), t);
    next := Act(H, t, EARLY, run, w, tms, issue);
  }

  /** The world after the funding and the lock. */
  function LockedOnceMore(w: World, tms: TmsId, script: Script, code: Code, call: LockCall): World
    requires tms in w.ledgers
  {
    Submitted(Submitted(w, tms, IssueOne(script.sender, code)), tms, LockOne(script, code, call,
                                                                             |w.ledgers[tms].outputs|))
  }

  lemma LockedOnceMoreFacts(H: Bytes -> Bytes, w: World, tms: TmsId, script: Script, code: Code, call: LockCall)
    requires tms in w.ledgers && EVM in w.ledgers && Unspent(w.ledgers[EVM], 1)
    requires forall i :: i in w.ledgers[tms].spent ==> i < |w.ledgers[tms].outputs|
    requires call.at == w.clock && ToDeadline(call.seconds).Some? && script.deadline == w.clock + call.seconds * NANOS
    ensures var funded := Submitted(w, tms, IssueOne(script.sender, code));
            var lock := LockOne(script, code, call, |w.ledgers[tms].outputs|);
            CanPrepare(funded, lock) && Valid(H, funded.ledgers[tms], lock, w.clock)
    ensures var w' := LockedOnceMore(w, tms, script, code, call);
            w'.clock == w.clock && w'.published == w.published && w'.ledgers == w.ledgers[tms := w'.ledgers[tms]] &&
            LockAdded(w.ledgers[tms], w'.ledgers[tms], script, code) && Unspent(w'.ledgers[EVM], 1)
  {
    ToDeadlineExact(call.seconds);
    LockIsAdded(H, w.ledgers[tms], script, code, call);
    if tms == EVM {
      AddedStaysOpen(w.ledgers[EVM], LockedOnceMore(w, tms, script, code, call).ledgers[EVM], script, code);
    }
  }

  /** A party funds itself with one more token and locks it, while the responder's lock is open. */
  lemma LockOnceMore(H: Bytes -> Bytes, t: Timing, run: Run, w: World, tms: TmsId, script: Script, code: Code,
                     call: LockCall)
    returns (next: Run, w': World)
    requires Orderly(H, BOTH, TheSwap(H), t, run, EARLY) && Exec(H, InitialWorld(BOTH), run) == w && Stage(H, t, w)
    requires tms in w.ledgers && Unspent(w.ledgers[EVM], 1)
    requires forall i :: i in w.ledgers[tms].spent ==> i < |w.ledgers[tms].outputs|
    requires call.at == w.clock && ToDeadline(call.seconds).Some? && script.deadline == w.clock + call.seconds * NANOS
    ensures Orderly(H, BOTH, TheSwap(H), t, next, EARLY) && Exec(H, InitialWorld(BOTH), next) == w' && Stage(H, t, w')
    ensures w'.clock == w.clock && w'.published == w.published && tms in w'.ledgers
    ensures w'.ledgers == w.ledgers[tms := w'.ledgers[tms]]
    ensures LockAdded(w.ledgers[tms], w'.ledgers[tms], script, code)
  {
    w' := LockedOnceMore(w, tms, script, code, call);
    LockedOnceMoreFacts(H, w, tms, script, code, call);
    OpenIsNotDue(w', TheSwap(H), t);
    next := FundOnceMore(H, t, run, w, tms, script.sender, code);
    next := Act(H, t, EARLY, next, Submitted(w, tms, IssueOne(script.sender, code)), tms,
                LockOne(script, code, call, |w.ledgers[tms].outputs|));
  }

  // ---------------------------------------------------------------------------------------------
  // The swap as it should go

  /** alice's claim request matches the responder's lock, the only one there. */
  lemma ClaimFitsB(H: Bytes -> Bytes, t: Timing, l: Ledger, now: nat)
    requires JustLocked(l, DAN, Token(Locked(ScriptB(H, t)), "ETOK", 1)) && now < t.DeadlineB()
    ensures Valid(H, l, ClaimOne(1, ALICE, "ETOK"), now) && ListByPreImage(H, l, ALICE, SECRET, now) == {1}
    ensures ClaimOne(1, ALICE, "ETOK") == ClaimTx(l, 1, ALICE, SECRET)
    ensures var l' := Apply(l, ClaimOne(1, ALICE, "ETOK"), now);
            1 in l'.spent && l'.spent[1] == Spend(Claim(1, ALICE, SECRET), now)
  {
  }

  /** dan's claim request matches the initiator's lock, the only one there. */
  lemma ClaimFitsA(H: Bytes -> Bytes, t: Timing, l: Ledger, now: nat)
    requires JustLocked(l, ALICE, Token(Locked(ScriptA(H, t)), "TOK", 1)) && now < t.DeadlineA()
    ensures Valid(H, l, ClaimOne(1, DAN, "TOK"), now) && ListByPreImage(H, l, DAN, SECRET, now) == {1}
    ensures var l' := Apply(l, ClaimOne(1, DAN, "TOK"), now); 1 in l'.spent && l'.spent[1].action.Claim?
  {
  }

  lemma AliceClaims(H: Bytes -> Bytes, t: Timing) returns (run: Run, w: World)
    requires t.Accepted()
    ensures Orderly(H, BOTH, TheSwap(H), t, run, CALM) && Exec(H, InitialWorld(BOTH), run) == w && Stage(H, t, w)
    ensures w.clock == t.tB + 1 && w.published == {SECRET}
    ensures JustLocked(w.ledgers[FABRIC], ALICE, Token(Locked(ScriptA(H, t)), "TOK", 1))
    ensures 1 in w.ledgers[EVM].spent && w.ledgers[EVM].spent[1] == Spend(Claim(1, ALICE, SECRET), t.tB + 1)
  {
    var locked, w0 := BothLocked(H, t, t.tB + 1);
    OrderlyInAnyMood(H, BOTH, TheSwap(H), t, locked, SILENT, CALM);
    var tx := ClaimOne(1, ALICE, "ETOK");
    ToDeadlineExact(t.dB);
    ClaimFitsB(H, t, w0.ledgers[EVM], w0.clock);
    w := Submitted(w0, EVM, tx);
    run := Act(H, t, CALM, locked, w0, EVM, tx);
  }

  /**
   A swap can complete: for every accepted timing with the margin there is a run in which both parties act by requests
   as they should, and which ends with both locks claimed.
   */
  lemma SwapCanComplete(H: Bytes -> Bytes, t: Timing)
    requires t.Accepted() && t.Margin()
    ensures exists run ::
              RequestRun(H, BOTH, TheSwap(H), t, run, true) && InitiatorRequestRun(H, BOTH, TheSwap(H), t, run) &&
              AskingWhileOpen(H, BOTH, TheSwap(H), t, run) &&
              ClaimedOn(Exec(H, InitialWorld(BOTH), run), FABRIC, 1) &&
              ClaimedOn(Exec(H, InitialWorld(BOTH), run), EVM, 1)
  {
    var tx := ClaimOne(1, DAN, "TOK");
    var claimed, w := AliceClaims(H, t);
    ToDeadlineExact(t.dB);
    ClaimFitsA(H, t, w.ledgers[FABRIC], w.clock);
    var run := Act(H, t, CALM, claimed, w, FABRIC, tx);
    EarlyFollows(H, BOTH, TheSwap(H), t, run, CALM, true);
    OrderlyInitiator(H, BOTH, TheSwap(H), t, run, CALM);
  }

  // ---------------------------------------------------------------------------------------------
  // A rival of the initiator's lock

  /** alice locks once more for dan, under the same hash and for as long as before. */
  function RivalScript(H: Bytes -> Bytes, t: Timing): Script {
    Script(ALICE, DAN, H(SECRET), t.tB + 1 + t.dA * NANOS)
  }

  predicate Rivalled(H: Bytes -> Bytes, t: Timing, l: Ledger) {
    LiveLock(l, 1) && l.outputs[1].owner == Locked(ScriptA(H, t)) &&
    LiveLock(l, 3) && l.outputs[3].owner == Locked(RivalScript(H, t))
  }

  lemma RivalIsLocked(H: Bytes -> Bytes, t: Timing) returns (run: Run, w: World)
    requires t.Accepted()
    ensures Orderly(H, BOTH, TheSwap(H), t, run, EARLY) && Exec(H, InitialWorld(BOTH), run) == w && Stage(H, t, w)
    ensures w.clock == t.tB + 1 && w.published == {} && Rivalled(H, t, w.ledgers[FABRIC])
    ensures JustLocked(w.ledgers[EVM], DAN, Token(Locked(ScriptB(H, t)), "ETOK", 1))
  {
    var locked, w0 := BothLocked(H, t, t.tB + 1);
    OrderlyInAnyMood(H, BOTH, TheSwap(H), t, locked, SILENT, EARLY);
    run, w := LockOnceMore(H, t, locked, w0, FABRIC, RivalScript(H, t), "TOK", LockCall(t.tB + 1, t.dA));
    assert w.ledgers[FABRIC].outputs[3] == Token(Locked(RivalScript(H, t)), "TOK", 1);
  }

  lemma ClaimedUnderRival(H: Bytes -> Bytes, t: Timing) returns (run: Run, w: World)
    requires t.Accepted()
    ensures Orderly(H, BOTH, TheSwap(H), t, run, EARLY) && Exec(H, InitialWorld(BOTH), run) == w && Stage(H, t, w)
    ensures w.clock == t.tB + 1 && Rivalled(H, t, w.ledgers[FABRIC])
    ensures 1 in w.ledgers[EVM].spent && w.ledgers[EVM].spent[1] == Spend(Claim(1, ALICE, SECRET), t.tB + 1)
  {
    var locked, w0 := RivalIsLocked(H, t);
    var tx := ClaimOne(1, ALICE, "ETOK");
    ToDeadlineExact(t.dB);
    ClaimFitsB(H, t, w0.ledgers[EVM], w0.clock);
    w := Submitted(w0, EVM, tx);
    run := Act(H, t, EARLY, locked, w0, EVM, tx);
  }

  /** While both of alice's locks are unexpired, dan's claim request matches two and is refused. */
  lemma RivalRefusesClaims(H: Bytes -> Bytes, t: Timing, w: World)
    requires t.Accepted() && w.clock < t.DeadlineA() && FABRIC in w.ledgers && Rivalled(H, t, w.ledgers[FABRIC])
    ensures |ListByPreImage(H, w.ledgers[FABRIC], DAN, SECRET, w.clock)| != 1
    ensures AfterClaim(H, w, FABRIC, DAN, SECRET) == w
  {
    var s := ListByPreImage(H, w.ledgers[FABRIC], DAN, SECRET, w.clock);
    assert 1 in s && 3 in s;
    TwoMembers(s, 1, 3);
  }

  /** The responder's lock is claimed, the initiator's is open,
      and until its deadline no request of the responder settles it. */
  ghost predicate RefusedUntilDeadline(H: Bytes -> Bytes, w: World, sw: Swap, t: Timing) {
    ClaimedOn(w, sw.tmsB, sw.b) && LiveOn(w, sw.tmsA, sw.a) && w.clock < t.DeadlineA() &&
    var preImage := w.ledgers[sw.tmsB].spent[sw.b].action.preImage;
    forall later :: w.clock <= later < t.DeadlineA() ==>
                      AfterClaim(H, w.(clock := later), sw.tmsA, sw.responder, preImage) == w.(clock := later)
  }

  lemma RefusalsAfterClaim(H: Bytes -> Bytes, t: Timing, claimed: Run, w: World)
    requires t.Accepted() && w.clock < t.DeadlineA()
    requires Exec(H, InitialWorld(BOTH), claimed) == w && Stage(H, t, w) && Rivalled(H, t, w.ledgers[FABRIC])
    requires 1 in w.ledgers[EVM].spent && w.ledgers[EVM].spent[1] == Spend(Claim(1, ALICE, SECRET), w.clock)
    ensures RefusedUntilDeadline(H, w, TheSwap(H), t)
    ensures RequestMade(H, BOTH, TheSwap(H), t, claimed, Start)
  {
    forall later | w.clock <= later < t.DeadlineA()
      ensures AfterClaim(H, w.(clock := later), FABRIC, DAN, SECRET) == w.(clock := later)
    {
      RivalRefusesClaims(H, t, w.(clock := later));
    }
    RivalRefusesClaims(H, t, w);
    assert Append(claimed, Start) == claimed;
  }

  /** Once the responder has sent its request, in vain or not, whatever follows keeps it a responder that asks. */
  lemma {:induction false} RequestsGoOn(H: Bytes -> Bytes, tmss: set<TmsId>, sw: Swap, t: Timing, asked: Run, rest: Run)
    requires RequestRun(H, tmss, sw, t, asked, false) && RequestMade(H, tmss, sw, t, asked, Start)
    requires Orderly(H, tmss, sw, t, Append(asked, rest), ANY)
    ensures RequestRun(H, tmss, sw, t, Append(asked, rest), false)
  {
    match rest
    case Start =>
    case Then(first, _) =>
      RequestsGoOn(H, tmss, sw, t, asked, first);
      assert Append(asked, rest) == Append(Append(asked, Start), rest);
  }

  /** alice takes her own lock back at its deadline. */
  lemma ReclaimEnds(H: Bytes -> Bytes, t: Timing, w: World)
    requires Stage(H, t, w) && w.clock == t.DeadlineA() && LiveLock(w.ledgers[FABRIC], 1) && ClaimedOn(w, EVM, 1)
    ensures Valid(H, w.ledgers[FABRIC], ReclaimOne(ALICE, "TOK"), w.clock)
    ensures InitiatorHoldsBoth(Submitted(w, FABRIC, ReclaimOne(ALICE, "TOK")), TheSwap(H))
  {
  }

  lemma AppendSubmit(before: Run, step: Step, tms: TmsId, tx: Tx, n: nat)
    ensures Append(before, Submit(Then(Start, step), tms, tx, n)) == Submit(Then(before, step), tms, tx, n)
  {
    var prepared := Then(Then(Start, step), Prepare(tms, tx));
    assert Append(before, Then(Start, step)) == Then(before, step);
    assert Append(before, prepared) == Then(Then(before, step), Prepare(tms, tx));
    assert Append(before, Then(prepared, Endorse(n))) == Then(Append(before, prepared), Endorse(n));
  }

  lemma ReclaimUnderRival(H: Bytes -> Bytes, t: Timing, claimed: Run, w: World) returns (rest: Run)
    requires Orderly(H, BOTH, TheSwap(H), t, claimed, ANY) && Exec(H, InitialWorld(BOTH), claimed) == w &&
             Stage(H, t, w)
    requires w.clock <= t.DeadlineA() && LiveLock(w.ledgers[FABRIC], 1) && ClaimedOn(w, EVM, 1)
    ensures Orderly(H, BOTH, TheSwap(H), t, Append(claimed, rest), ANY)
    ensures InitiatorHoldsBoth(Exec(H, InitialWorld(BOTH), Append(claimed, rest)), TheSwap(H))
  {
    var late, tx := w.(clock := t.DeadlineA()), ReclaimOne(ALICE, "TOK");
    var waited := Pause(H, t, ANY, claimed, w, t.DeadlineA());
    ReclaimEnds(H, t, late);
    var run := Act(H, t, ANY, waited, late, FABRIC, tx);
    rest := Submit(Then(Start, Tick(t.DeadlineA() - w.clock)), FABRIC, tx, w.nextTx);
    AppendSubmit(claimed, Tick(t.DeadlineA() - w.clock), FABRIC, tx, w.nextTx);
  }

  /**
   Whatever the margin, a rival defeats a responder that can only send claim requests: there is a run in which the
   responder's lock is claimed and the initiator's open, every claim request of the responder is refused until the
   initiator's deadline, and the initiator ends up with both sides. Both parties only ever send requests.
   */
  lemma RivalDefeatsResponder(H: Bytes -> Bytes, t: Timing)
    requires t.Accepted() && t.Margin()
    ensures exists claimed, rest ::
              RequestRun(H, BOTH, TheSwap(H), t, Append(claimed, rest), false) &&
              InitiatorRequestRun(H, BOTH, TheSwap(H), t, Append(claimed, rest)) &&
              RefusedUntilDeadline(H, Exec(H, InitialWorld(BOTH), claimed), TheSwap(H), t) &&
              InitiatorHoldsBoth(Exec(H, InitialWorld(BOTH), Append(claimed, rest)), TheSwap(H))
  {
    ToDeadlineExact(t.dB);
    var claimed, w := ClaimedUnderRival(H, t);
    EarlyFollows(H, BOTH, TheSwap(H), t, claimed, EARLY, false);
    OrderlyInAnyMood(H, BOTH, TheSwap(H), t, claimed, EARLY, ANY);
    var rest := ReclaimUnderRival(H, t, claimed, w);
    RefusalsAfterClaim(H, t, claimed, w);
    RequestsGoOn(H, BOTH, TheSwap(H), t, claimed, rest);
    OrderlyInitiator(H, BOTH, TheSwap(H), t, Append(claimed, rest), ANY);
  }

  // ---------------------------------------------------------------------------------------------
  // A decoy in place of the responder's lock

  /** dan locks once more for alice, a little later than before. */
  function DecoyScript(H: Bytes -> Bytes, t: Timing): Script {
    Script(DAN, ALICE, H(SECRET), t.tB + 1 + t.dB * NANOS)
  }

  predicate Decoyed(H: Bytes -> Bytes, t: Timing, l: Ledger) {
    |l.outputs| == 4 && !l.outputs[0].owner.Locked? && !l.outputs[2].owner.Locked? && l.spent.Keys == {0, 2} &&
    l.outputs[1] == Token(Locked(ScriptB(H, t)), "ETOK", 1) &&
    l.outputs[3] == Token(Locked(DecoyScript(H, t)), "ETOK", 1)
  }

  lemma DecoyIsLocked(H: Bytes -> Bytes, t: Timing) returns (run: Run, w: World)
    requires t.Accepted()
    ensures Orderly(H, BOTH, TheSwap(H), t, run, EARLY) && Exec(H, InitialWorld(BOTH), run) == w && Stage(H, t, w)
    ensures w.clock == t.DeadlineB() && w.published == {} && Decoyed(H, t, w.ledgers[EVM])
    ensures JustLocked(w.ledgers[FABRIC], ALICE, Token(Locked(ScriptA(H, t)), "TOK", 1))
  {
    ToDeadlineExact(t.dB);
    var locked, w0 := BothLocked(H, t, t.tB + 1);
    OrderlyInAnyMood(H, BOTH, TheSwap(H), t, locked, SILENT, EARLY);
    var decoyed, w1 := LockOnceMore(H, t, locked, w0, EVM, DecoyScript(H, t), "ETOK", LockCall(t.tB + 1, t.dB));
    w := w1.(clock := t.DeadlineB());
    run := Pause(H, t, EARLY, decoyed, w1, t.DeadlineB());
  }

  /** When the responder's lock has just expired, alice's claim request matches the decoy alone. */
  lemma DecoyIsTheMatch(H: Bytes -> Bytes, t: Timing, l: Ledger)
    requires Decoyed(H, t, l)
    ensures ListByPreImage(H, l, ALICE, SECRET, t.DeadlineB()) == {3}
    ensures Valid(H, l, ClaimOne(3, ALICE, "ETOK"), t.DeadlineB())
    ensures var l' := Apply(l, ClaimOne(3, ALICE, "ETOK"), t.DeadlineB());
            1 !in l'.spent && Valid(H, l', ReclaimOne(DAN, "ETOK"), t.DeadlineB())
  {
  }

  lemma DecoyIsTaken(H: Bytes -> Bytes, t: Timing) returns (run: Run, w: World)
    requires t.Accepted()
    ensures Orderly(H, BOTH, TheSwap(H), t, run, EARLY) && Exec(H, InitialWorld(BOTH), run) == w && Stage(H, t, w)
    ensures w.clock == t.DeadlineB() && w.published == {SECRET} && 1 !in w.ledgers[EVM].spent
    ensures Valid(H, w.ledgers[EVM], ReclaimOne(DAN, "ETOK"), w.clock)
    ensures JustLocked(w.ledgers[FABRIC], ALICE, Token(Locked(ScriptA(H, t)), "TOK", 1))
  {
    var claim := ClaimOne(3, ALICE, "ETOK");
    var waited, w0 := DecoyIsLocked(H, t);
    DecoyIsTheMatch(H, t, w0.ledgers[EVM]);
    w := Submitted(w0, EVM, claim);
    run := Act(H, t, EARLY, waited, w0, EVM, claim);
  }

  lemma LockIsTakenBack(H: Bytes -> Bytes, t: Timing) returns (run: Run, w: World)
    requires t.Accepted()
    ensures Orderly(H, BOTH, TheSwap(H), t, run, EARLY) && Exec(H, InitialWorld(BOTH), run) == w && Stage(H, t, w)
    ensures w.clock == t.DeadlineB() && w.published == {SECRET} && ReclaimedOn(w, EVM, 1)
    ensures JustLocked(w.ledgers[FABRIC], ALICE, Token(Locked(ScriptA(H, t)), "TOK", 1))
  {
    var reclaim := ReclaimOne(DAN, "ETOK");
    var taken, w0 := DecoyIsTaken(H, t);
    w := Submitted(w0, EVM, reclaim);
    assert ReclaimedOn(w, EVM, 1);
    run := Act(H, t, EARLY, taken, w0, EVM, reclaim);
  }

  /**
   An initiator that sends her claim request when the responder's lock is no longer open can lose: for any timing there
   is a run in which her request takes a decoy, the responder has his lock back, and claims hers with the published
   secret.
   */
  lemma DecoyDefeatsInitiator(H: Bytes -> Bytes, t: Timing)
    requires t.Accepted() && t.DeadlineB() < t.DeadlineA()
    ensures exists run ::
              InitiatorRequestRun(H, BOTH, TheSwap(H), t, run) && RequestRun(H, BOTH, TheSwap(H), t, run, true) &&
              ClaimedOn(Exec(H, InitialWorld(BOTH), run), FABRIC, 1) &&
              ReclaimedOn(Exec(H, InitialWorld(BOTH), run), EVM, 1)
  {
    var tx := ClaimOne(1, DAN, "TOK");
    var taken, w := LockIsTakenBack(H, t);
    assert Valid(H, w.ledgers[FABRIC], tx, w.clock);
    var run := Act(H, t, EARLY, taken, w, FABRIC, tx);
    EarlyFollows(H, BOTH, TheSwap(H), t, run, EARLY, true);
    OrderlyInitiator(H, BOTH, TheSwap(H), t, run, EARLY);
  }
}
