/**
 The initiator when endorsers may leak: a claim request shows the secret to the endorsers before it is ordered, and
 anybody may learn it from there. She is then safe exactly if her request is ordered before the responder's deadline.
 */
module SwapDisclosures {
  import opened Basics
  import opened Deadlines
  import opened HtlcWallets
  import opened Ledgers
  import opened Worlds
  import opened Swaps
  import opened SwapMargins
  import opened SwapRivals

  /** Nobody but the initiator has, by itself,
      a pre-image of the hash that was neither published nor shown to endorsers. */
  ghost predicate SecretConfined(H: Bytes -> Bytes, w: World, sw: Swap) {
    forall x, p :: x != sw.initiator && p in Secrets(w, x) && p !in w.published && p !in w.shown ==> H(p) != sw.hash
  }

  /** A claim of the initiator with the secret. */
  predicate HerClaim(H: Bytes -> Bytes, sw: Swap, p: Pending) {
    p.tx.action.Claim? && p.tx.action.wallet == sw.initiator && H(p.tx.action.preImage) == sw.hash
  }

  /** A claim of anybody else with the secret. */
  predicate OthersClaim(H: Bytes -> Bytes, sw: Swap, p: Pending) {
    p.tx.action.Claim? && p.tx.action.wallet != sw.initiator && H(p.tx.action.preImage) == sw.hash
  }

  /**
   A claim of hers that was validated is ordered at most `lag` after she asked for it. Only a request that was not
   validated may be given up.
   */
  predicate OrderedInTime(H: Bytes -> Bytes, w: World, sw: Swap, t: Timing) {
    forall n :: n in w.pending && HerClaim(H, sw, w.pending[n]) && w.pending[n].endorsedAt.Some? ==>
                  w.clock <= w.pending[n].preparedAt + t.lag
  }

  predicate ServedInTime(H: Bytes -> Bytes, w: World, sw: Swap, t: Timing, step: Step) {
    step.Endorse? && step.id in w.pending && HerClaim(H, sw, w.pending[step.id]) ==>
      w.clock <= w.pending[step.id].preparedAt + t.lag
  }

  /** She asks while the responder's lock is open, and at latest at `last`. */
  predicate AsksBy(H: Bytes -> Bytes, w: World, sw: Swap, last: nat, step: Step) {
    UsesSecret(H, w, sw, step) ==> LiveOn(w, sw.tmsB, sw.b) && w.clock <= last
  }

  predicate StepAllowed(H: Bytes -> Bytes, w: World, sw: Swap, t: Timing, last: nat, step: Step) {
    ClaimsByRequest(H, w, sw, step) && AsksBy(H, w, sw, last, step) && ServedInTime(H, w, sw, t, step)
  }

  ghost predicate WorldAllowed(H: Bytes -> Bytes, w: World, sw: Swap, t: Timing) {
    Agreed(w, sw, t) && SecretConfined(H, w, sw) && OrderedInTime(H, w, sw, t)
  }

  /** A run of the whole system in which the initiator asks by `last`; nobody else has to do anything. */
  ghost predicate ShownRun(H: Bytes -> Bytes, tmss: set<TmsId>, sw: Swap, t: Timing, last: nat, run: Run) {
    WorldAllowed(H, Exec(H, InitialWorld(tmss), run), sw, t) &&
    match run
    case Start => true
    case Then(before, step) =>
      ShownRun(H, tmss, sw, t, last, before) && StepAllowed(H, Exec(H, InitialWorld(tmss), before), sw, t, last, step)
  }

  /** Her lock was claimed, and the responder took his own back. */
  predicate InitiatorLoses(w: World, sw: Swap) {
    ClaimedOn(w, sw.tmsA, sw.a) && ReclaimedOn(w, sw.tmsB, sw.b)
  }

  // ---------------------------------------------------------------------------------------------
  // Safety

  /** Her claim of the responder's lock, as her view made it. */
  predicate TakesB(w: World, sw: Swap, t: Timing, last: nat, p: Pending) {
    p.tms == sw.tmsB && Exists(w, sw.tmsB, sw.b) && p.preparedAt <= last && p.tx.action.Claim? &&
    p.tx.action.id == sw.b &&
    p.tx.inputs == [sw.b] && p.tx.outputs == [LockB(sw, t).(owner := Plain(sw.initiator))]
  }

  /** Her claim is validated and on its way. */
  predicate Underway(H: Bytes -> Bytes, w: World, sw: Swap, t: Timing, last: nat, n: nat) {
    n in w.pending && HerClaim(H, sw, w.pending[n]) && w.pending[n].endorsedAt.Some? &&
    TakesB(w, sw, t, last, w.pending[n])
  }

  /** Others may have the secret only when she holds the responder's lock, or is about to. */
  ghost predicate Disclosed(H: Bytes -> Bytes, w: World, sw: Swap, t: Timing, last: nat) {
    ClaimedOn(w, sw.tmsB, sw.b) || exists n :: Underway(H, w, sw, t, last, n)
  }

  ghost predicate ShownInv(H: Bytes -> Bytes, w: World, sw: Swap, t: Timing, last: nat) {
    (forall p :: (p in w.published || p in w.shown) && H(p) == sw.hash ==> Disclosed(H, w, sw, t, last)) &&
    (forall n :: n in w.pending && HerClaim(H, sw, w.pending[n]) ==>
                   ClaimedOn(w, sw.tmsB, sw.b) || TakesB(w, sw, t, last, w.pending[n])) &&
    (forall n :: n in w.pending && OthersClaim(H, sw, w.pending[n]) ==> Disclosed(H, w, sw, t, last)) &&
    (ClaimedOn(w, sw.tmsA, sw.a) ==> Disclosed(H, w, sw, t, last))
  }

  /** Before its deadline, the responder's lock can only have been claimed. */
  lemma SpentEarlyIsClaimed(H: Bytes -> Bytes, w: World, sw: Swap, t: Timing)
    requires WorldInv(H, w) && Agreed(w, sw, t) && SettledOn(w, sw.tmsB, sw.b) && w.clock < t.DeadlineB()
    ensures ClaimedOn(w, sw.tmsB, sw.b)
  {
    SpentLockFacts(H, w, sw.tmsB, sw.b);
  }

  lemma ClaimStays(H: Bytes -> Bytes, w: World, sw: Swap, step: Step)
    requires ClaimedOn(w, sw.tmsB, sw.b)
    ensures ClaimedOn(Next(H, w, step), sw.tmsB, sw.b)
  {
  }

  lemma UnderwayStays(H: Bytes -> Bytes, w: World, sw: Swap, t: Timing, last: nat, step: Step, n: nat)
    requires Underway(H, w, sw, t, last, n) && n < w.nextTx && step != Commit(n)
    ensures Underway(H, Next(H, w, step), sw, t, last, n)
  {
  }

  /** When her validated claim is ordered, she holds the responder's lock. */
  lemma UnderwayCommits(H: Bytes -> Bytes, w: World, sw: Swap, t: Timing, last: nat, n: nat)
    requires Underway(H, w, sw, t, last, n) && w.clock <= w.pending[n].preparedAt + t.lag &&
             last + t.lag < t.DeadlineB()
    requires SettledOn(w, sw.tmsB, sw.b) ==> ClaimedOn(w, sw.tmsB, sw.b)
    ensures ClaimedOn(DoCommit(w, n), sw.tmsB, sw.b)
  {
    var p := w.pending[n];
    assert sw.b in p.tx.inputs;
    if sw.b !in w.ledgers[sw.tmsB].spent {
      assert InputsUnspent(w.ledgers[sw.tmsB], p.tx);
    }
  }

  lemma DisclosedStays(H: Bytes -> Bytes, w: World, sw: Swap, t: Timing, last: nat, step: Step)
    requires WorldInv(H, w) && WorldAllowed(H, w, sw, t) && last + t.lag < t.DeadlineB()
    requires Disclosed(H, w, sw, t, last)
    ensures Disclosed(H, Next(H, w, step), sw, t, last)
  {
    if ClaimedOn(w, sw.tmsB, sw.b) {
      ClaimStays(H, w, sw, step);
    } else {
      var n :| Underway(H, w, sw, t, last, n);
      PendingFacts(H, w, n);
      if step == Commit(n) {
        if SettledOn(w, sw.tmsB, sw.b) { SpentEarlyIsClaimed(H, w, sw, t); }
        UnderwayCommits(H, w, sw, t, last, n);
      } else {
        UnderwayStays(H, w, sw, t, last, step, n);
      }
    }
  }

  /** Her claim, shown to the endorsers in time, is valid, unless she holds the lock already. */
  lemma ShownIsUnderway(H: Bytes -> Bytes, w: World, sw: Swap, t: Timing, last: nat, n: nat)
    requires Agreed(w, sw, t) && n in w.pending && HerClaim(H, sw, w.pending[n]) && TakesB(w, sw, t, last, w.pending[n])
    requires w.pending[n].endorsedAt.None? && w.clock < t.DeadlineB() && !SettledOn(w, sw.tmsB, sw.b)
    ensures Underway(H, DoEndorse(H, w, n), sw, t, last, n)
  {
    var l := w.ledgers[sw.tmsB];
    assert l.outputs[sw.b] == LockB(sw, t);
    assert Valid(H, l, w.pending[n].tx, w.clock);
  }

  lemma HersDiscloses(H: Bytes -> Bytes, w: World, sw: Swap, t: Timing, last: nat, n: nat)
    requires Agreed(w, sw, t) && ShownInv(H, w, sw, t, last) && last + t.lag < t.DeadlineB()
    requires ServedInTime(H, w, sw, t, Endorse(n)) && n in w.pending && w.pending[n].endorsedAt.None?
    requires HerClaim(H, sw, w.pending[n]) && !ClaimedOn(w, sw.tmsB, sw.b)
    requires w.clock < t.DeadlineB() ==> !SettledOn(w, sw.tmsB, sw.b)
    ensures Disclosed(H, DoEndorse(H, w, n), sw, t, last)
  {
    assert TakesB(w, sw, t, last, w.pending[n]);
    ShownIsUnderway(H, w, sw, t, last, n);
  }

  lemma NotTakenBack(H: Bytes -> Bytes, w: World, sw: Swap, t: Timing)
    requires WorldInv(H, w) && Agreed(w, sw, t)
    ensures SettledOn(w, sw.tmsB, sw.b) && w.clock < t.DeadlineB() ==> ClaimedOn(w, sw.tmsB, sw.b)
  {
    if SettledOn(w, sw.tmsB, sw.b) && w.clock < t.DeadlineB() { SpentEarlyIsClaimed(H, w, sw, t); }
  }

  lemma TakesBStays(H: Bytes -> Bytes, w: World, sw: Swap, t: Timing, last: nat, step: Step, p: Pending)
    requires TakesB(w, sw, t, last, p)
    ensures TakesB(Next(H, w, step), sw, t, last, p)
  {
  }

  /** What she prepares with the secret, before she holds the lock, takes the lock. */
  lemma PreparedTakesB(H: Bytes -> Bytes, w: World, sw: Swap, t: Timing, last: nat, step: Step)
    requires Agreed(w, sw, t) && StepAllowed(H, w, sw, t, last, step) && UsesSecret(H, w, sw, step) &&
             last < t.DeadlineB()
    ensures TakesB(w, sw, t, last, Pending(step.tms, step.tx, w.clock, None))
  {
    RequestTakesB(H, w, sw, t, step.tx.action.preImage, step.tx.action.id);
    assert w.ledgers[sw.tmsB].outputs[sw.b] == LockB(sw, t);
  }

  lemma HersTakeB(H: Bytes -> Bytes, w: World, sw: Swap, t: Timing, last: nat, step: Step, n: nat)
    requires Agreed(w, sw, t) && StepAllowed(H, w, sw, t, last, step) && last < t.DeadlineB()
    requires ShownInv(H, w, sw, t, last)
    requires var w' := Next(H, w, step); n in w'.pending && HerClaim(H, sw, w'.pending[n])
    ensures var w' := Next(H, w, step); ClaimedOn(w', sw.tmsB, sw.b) || TakesB(w', sw, t, last, w'.pending[n])
  {
    if ClaimedOn(w, sw.tmsB, sw.b) {
      ClaimStays(H, w, sw, step);
    } else if step.Prepare? && n == w.nextTx && Next(H, w, step) != w {
      PreparedTakesB(H, w, sw, t, last, step);
    } else {
      assert n in w.pending && HerClaim(H, sw, w.pending[n]);
      TakesBStays(H, w, sw, t, last, step, w.pending[n]);
    }
  }

  /** Nobody else has got at the secret or at her lock. */
  ghost predicate Untouched(H: Bytes -> Bytes, w: World, sw: Swap) {
    (forall p :: p in w.published || p in w.shown ==> H(p) != sw.hash) && !ClaimedOn(w, sw.tmsA, sw.a) &&
    (forall n :: n in w.pending ==> !OthersClaim(H, sw, w.pending[n]))
  }

  lemma PrepareUntouched(H: Bytes -> Bytes, w: World, sw: Swap, tms: TmsId, tx: Tx)
    requires Untouched(H, w, sw) && SecretConfined(H, w, sw)
    ensures Untouched(H, DoPrepare(w, tms, tx), sw)
  {
  }

  lemma EndorseUntouched(H: Bytes -> Bytes, w: World, sw: Swap, n: nat)
    requires Untouched(H, w, sw)
    requires n in w.pending && w.pending[n].tx.action.Claim? && w.pending[n].endorsedAt.None? ==>
               H(w.pending[n].tx.action.preImage) != sw.hash
    ensures Untouched(H, DoEndorse(H, w, n), sw)
  {
  }

  lemma CommitUntouched(H: Bytes -> Bytes, w: World, sw: Swap, t: Timing, n: nat)
    requires Untouched(H, w, sw) && Agreed(w, sw, t)
    requires Committable(w, n) ==>
               PendingInv(H, w, w.pending[n]) &&
               (w.pending[n].tx.action.Claim? ==> H(w.pending[n].tx.action.preImage) != sw.hash)
    ensures Untouched(H, DoCommit(w, n), sw)
  {
    if Committable(w, n) && w.pending[n].tx.action.Claim? {
      assert w.pending[n].tx.inputs == [w.pending[n].tx.action.id];
    }
  }

  /** A validated claim with the secret is hers, and takes the responder's lock, or the secret is disclosed. */
  lemma ValidatedIsDisclosed(H: Bytes -> Bytes, w: World, sw: Swap, t: Timing, last: nat, n: nat)
    requires ShownInv(H, w, sw, t, last) && n in w.pending && w.pending[n].endorsedAt.Some?
    requires w.pending[n].tx.action.Claim? && H(w.pending[n].tx.action.preImage) == sw.hash
    ensures Disclosed(H, w, sw, t, last)
  {
    if !OthersClaim(H, sw, w.pending[n]) && !ClaimedOn(w, sw.tmsB, sw.b) {
      assert HerClaim(H, sw, w.pending[n]);
      assert Underway(H, w, sw, t, last, n);
    }
  }

  /** Unless a step discloses the secret, it leaves everything untouched. */
  lemma NothingElseDiscloses(H: Bytes -> Bytes, w: World, sw: Swap, t: Timing, last: nat, step: Step)
    requires sw.tmsA != sw.tmsB && WorldInv(H, w) && WorldAllowed(H, w, sw, t) && ShownInv(H, w, sw, t, last)
    requires last + t.lag < t.DeadlineB() && StepAllowed(H, w, sw, t, last, step)
    ensures Disclosed(H, Next(H, w, step), sw, t, last) || Untouched(H, Next(H, w, step), sw)
  {
    if Disclosed(H, w, sw, t, last) {
      DisclosedStays(H, w, sw, t, last, step);
    } else {
      assert Untouched(H, w, sw);
      match step
      case Tick(_) =>
      case Learn(_, _) =>
      case Prepare(tms, tx) => PrepareUntouched(H, w, sw, tms, tx);
      case Endorse(n) =>
        NotTakenBack(H, w, sw, t);
        EndorseStep(H, w, sw, t, last, n);
      case Commit(n) => CommitStep(H, w, sw, t, last, n);
    }
  }

  lemma EndorseStep(H: Bytes -> Bytes, w: World, sw: Swap, t: Timing, last: nat, n: nat)
    requires Agreed(w, sw, t) && ShownInv(H, w, sw, t, last) && last + t.lag < t.DeadlineB()
    requires SettledOn(w, sw.tmsB, sw.b) && w.clock < t.DeadlineB() ==> ClaimedOn(w, sw.tmsB, sw.b)
    requires ServedInTime(H, w, sw, t, Endorse(n)) && Untouched(H, w, sw) && !Disclosed(H, w, sw, t, last)
    ensures Disclosed(H, DoEndorse(H, w, n), sw, t, last) || Untouched(H, DoEndorse(H, w, n), sw)
  {
    if n in w.pending && w.pending[n].tx.action.Claim? && w.pending[n].endorsedAt.None? &&
       H(w.pending[n].tx.action.preImage) == sw.hash
    {
      HersDiscloses(H, w, sw, t, last, n);
    } else {
      EndorseUntouched(H, w, sw, n);
    }
  }

  lemma CommitStep(H: Bytes -> Bytes, w: World, sw: Swap, t: Timing, last: nat, n: nat)
    requires WorldInv(H, w) && Agreed(w, sw, t) && ShownInv(H, w, sw, t, last)
    requires Untouched(H, w, sw) && !Disclosed(H, w, sw, t, last)
    ensures Untouched(H, DoCommit(w, n), sw)
  {
    if Committable(w, n) {
      PendingFacts(H, w, n);
      if w.pending[n].tx.action.Claim? && H(w.pending[n].tx.action.preImage) == sw.hash {
        ValidatedIsDisclosed(H, w, sw, t, last, n);
      }
    }
    CommitUntouched(H, w, sw, t, n);
  }

  lemma ShownStep(H: Bytes -> Bytes, w: World, sw: Swap, t: Timing, last: nat, step: Step)
    requires sw.tmsA != sw.tmsB && WorldInv(H, w) && WorldAllowed(H, w, sw, t) && ShownInv(H, w, sw, t, last)
    requires last + t.lag < t.DeadlineB() && StepAllowed(H, w, sw, t, last, step)
    ensures ShownInv(H, Next(H, w, step), sw, t, last)
  {
    var w' := Next(H, w, step);
    NothingElseDiscloses(H, w, sw, t, last, step);
    forall n | n in w'.pending && HerClaim(H, sw, w'.pending[n])
      ensures ClaimedOn(w', sw.tmsB, sw.b) || TakesB(w', sw, t, last, w'.pending[n])
    {
      HersTakeB(H, w, sw, t, last, step, n);
    }
  }

  /**
   An initiator whose last request leaves time for it to be ordered before the responder's deadline never loses her lock
   to a responder that takes his own back; and from that deadline on she holds the responder's lock if hers is claimed.
   */
  lemma {:induction false} InitiatorSafeWhenShown(H: Bytes -> Bytes, tmss: set<TmsId>, sw: Swap, t: Timing,
                                                  last: nat, run: Run)
    requires sw.tmsA != sw.tmsB && last + t.lag < t.DeadlineB() && ShownRun(H, tmss, sw, t, last, run)
    ensures var w := Exec(H, InitialWorld(tmss), run);
            ShownInv(H, w, sw, t, last) && !InitiatorLoses(w, sw) &&
            (ClaimedOn(w, sw.tmsA, sw.a) && t.DeadlineB() <= w.clock ==> ClaimedOn(w, sw.tmsB, sw.b))
  {
    match run
    case Start =>
    case Then(before, step) =>
      InitiatorSafeWhenShown(H, tmss, sw, t, last, before);
      Reachable(H, tmss, before);
      ShownStep(H, Exec(H, InitialWorld(tmss), before), sw, t, last, step);
      Reachable(H, tmss, run);
      DisclosedIsSafe(H, Exec(H, InitialWorld(tmss), run), sw, t, last);
  }

  lemma DisclosedIsSafe(H: Bytes -> Bytes, w: World, sw: Swap, t: Timing, last: nat)
    requires WorldInv(H, w) && WorldAllowed(H, w, sw, t) && last + t.lag < t.DeadlineB() && ShownInv(H, w, sw, t, last)
    ensures !InitiatorLoses(w, sw)
    ensures ClaimedOn(w, sw.tmsA, sw.a) && t.DeadlineB() <= w.clock ==> ClaimedOn(w, sw.tmsB, sw.b)
  {
    if ClaimedOn(w, sw.tmsA, sw.a) && !ClaimedOn(w, sw.tmsB, sw.b) {
      var n :| Underway(H, w, sw, t, last, n);
      if SettledOn(w, sw.tmsB, sw.b) { SpentEarlyIsClaimed(H, w, sw, t); }
    }
  }

  /**
   Atomicity with leaking endorsers, for two parties that only send claim requests: with the margin, one request of the
   responder in time without a rival at that moment, and hers early enough, two settled locks end the same way.
   */
  lemma SwapIsAtomicWhenShown(H: Bytes -> Bytes, tmss: set<TmsId>, sw: Swap, t: Timing, last: nat, run: Run)
    requires sw.tmsA != sw.tmsB && t.Margin() && last + t.lag < t.DeadlineB()
    requires RequestRun(H, tmss, sw, t, run, true) && ShownRun(H, tmss, sw, t, last, run)
    requires var w := Exec(H, InitialWorld(tmss), run);
             SettledOn(w, sw.tmsA, sw.a) && SettledOn(w, sw.tmsB, sw.b)
    ensures var w := Exec(H, InitialWorld(tmss), run);
            (ClaimedOn(w, sw.tmsA, sw.a) && ClaimedOn(w, sw.tmsB, sw.b)) ||
            (ReclaimedOn(w, sw.tmsA, sw.a) && ReclaimedOn(w, sw.tmsB, sw.b))
  {
    var w := Exec(H, InitialWorld(tmss), run);
    ResponderSafeByRequests(H, tmss, sw, t, run);
    InitiatorSafeWhenShown(H, tmss, sw, t, last, run);
    Reachable(H, tmss, run);
    SpentLockFacts(H, w, sw.tmsA, sw.a);
    SpentLockFacts(H, w, sw.tmsB, sw.b);
  }

  // ---------------------------------------------------------------------------------------------
  // The losing run

  predicate NoClaims(w: World) {
    forall n :: n in w.pending ==> !w.pending[n].tx.action.Claim?
  }

  lemma {:induction false} SilentIsShown(H: Bytes -> Bytes, sw: Swap, t: Timing, last: nat, run: Run)
    requires Orderly(H, BOTH, sw, t, run, SILENT)
    ensures ShownRun(H, BOTH, sw, t, last, run) && NoClaims(Exec(H, InitialWorld(BOTH), run))
  {
    match run
    case Start =>
    case Then(before, step) => SilentIsShown(H, sw, t, last, before);
  }

  function HerPending(last: nat): Pending {
    Pending(EVM, ClaimOne(1, ALICE, "ETOK"), last, Some(last))
  }

  /** Both locks are there, alice's claim is under way, and dan may know the secret from the endorsers. */
  predicate Leaked(H: Bytes -> Bytes, t: Timing, last: nat, w: World, n: nat) {
    FABRIC in w.ledgers && EVM in w.ledgers && w.pending == map[n := HerPending(last)] && n < w.nextTx &&
    SECRET in w.shown && w.secrets == map[ALICE := {SECRET}, DAN := {SECRET}] &&
    last <= w.clock <= last + t.lag &&
    HasLock(w.ledgers[FABRIC], Token(Locked(ScriptA(H, t)), "TOK", 1), LockCall(t.tA, t.dA)) &&
    HasLock(w.ledgers[EVM], Token(Locked(ScriptB(H, t)), "ETOK", 1), LockCall(t.tB, t.dB))
  }

  lemma LeakedIsAllowed(H: Bytes -> Bytes, t: Timing, last: nat, w: World, n: nat)
    requires Leaked(H, t, last, w, n)
    ensures WorldAllowed(H, w, TheSwap(H), t)
  {
  }

  /** The world `w0`, with alice's claim prepared. */
  function Asking(w0: World, last: nat): World {
    w0.(pending := map[w0.nextTx := HerPending(last).(endorsedAt := None)], nextTx := w0.nextTx + 1)
  }

  /** alice asks. */
  lemma AliceAsks(H: Bytes -> Bytes, t: Timing, last: nat) returns (run: Run, w0: World)
    requires t.Accepted() && t.tB <= last < t.DeadlineB()
    ensures Stage(H, t, w0) && w0.clock == last && w0.shown == {}
    ensures JustLocked(w0.ledgers[FABRIC], ALICE, Token(Locked(ScriptA(H, t)), "TOK", 1))
    ensures JustLocked(w0.ledgers[EVM], DAN, Token(Locked(ScriptB(H, t)), "ETOK", 1))
    ensures ShownRun(H, BOTH, TheSwap(H), t, last, run)
    ensures Exec(H, InitialWorld(BOTH), run) == Asking(w0, last)
  {
    var tx := ClaimOne(1, ALICE, "ETOK");
    var locked;
    locked, w0 := BothLocked(H, t, last);
    SilentIsShown(H, TheSwap(H), t, last, locked);
    ClaimFitsB(H, t, w0.ledgers[EVM], last);
    run := Then(locked, Prepare(EVM, tx));
    var w := Asking(w0, last);
    assert Exec(H, InitialWorld(BOTH), run) == w;
    assert StepAllowed(H, w0, TheSwap(H), t, last, Prepare(EVM, tx));
    AskedIsAllowed(H, t, last, w0, w);
  }

  /** The endorsers see the secret; from them dan learns it. */
  lemma DanLearns(H: Bytes -> Bytes, t: Timing, last: nat) returns (run: Run, w: World, n: nat)
    requires t.Accepted() && t.tB <= last < t.DeadlineB()
    ensures ShownRun(H, BOTH, TheSwap(H), t, last, run) && Exec(H, InitialWorld(BOTH), run) == w
    ensures Leaked(H, t, last, w, n) && w.clock == last
    ensures JustLocked(w.ledgers[FABRIC], ALICE, Token(Locked(ScriptA(H, t)), "TOK", 1))
    ensures JustLocked(w.ledgers[EVM], DAN, Token(Locked(ScriptB(H, t)), "ETOK", 1))
  {
    var asked, w0 := AliceAsks(H, t, last);
    n := w0.nextTx;
    ClaimFitsB(H, t, w0.ledgers[EVM], last);
    var validated := Then(asked, Endorse(n));
    var w1 := w0.(pending := map[n := HerPending(last)], nextTx := n + 1, shown := {SECRET});
    assert Exec(H, InitialWorld(BOTH), validated) == w1;
    AskedIsAllowed(H, t, last, w0, w1);
    assert ShownRun(H, BOTH, TheSwap(H), t, last, validated);
    run := Then(validated, Learn(DAN, SECRET));
    w := w1.(secrets := map[ALICE := {SECRET}, DAN := {SECRET}]);
    assert w1.secrets[DAN := {SECRET}] == w.secrets;
    LeakedIsAllowed(H, t, last, w, n);
  }

  lemma AskedIsAllowed(H: Bytes -> Bytes, t: Timing, last: nat, w0: World, w: World)
    requires Stage(H, t, w0) && w0.clock == last && w0.nextTx !in w0.pending
    requires w.clock == last && w.ledgers == w0.ledgers && w.secrets == w0.secrets
    requires forall n :: n in w.pending ==> w.pending[n].preparedAt == last
    ensures WorldAllowed(H, w, TheSwap(H), t)
  {
  }

  /** dan acts while alice's claim is under way. */
  lemma DanSubmits(H: Bytes -> Bytes, t: Timing, last: nat, run: Run, w: World, n: nat, tms: TmsId, tx: Tx)
    returns (next: Run)
    requires ShownRun(H, BOTH, TheSwap(H), t, last, run) && Exec(H, InitialWorld(BOTH), run) == w &&
             Leaked(H, t, last, w, n)
    requires tms in w.ledgers && CanPrepare(w, tx) && Valid(H, w.ledgers[tms], tx, w.clock)
    requires tx.action == Claim(1, DAN, SECRET) || tx.action == Reclaim(1, DAN)
    ensures ShownRun(H, BOTH, TheSwap(H), t, last, next) && Exec(H, InitialWorld(BOTH), next) == Submitted(w, tms, tx)
    ensures Leaked(H, t, last, Submitted(w, tms, tx), n)
  {
    var sw := TheSwap(H);
    SubmitEffect(H, InitialWorld(BOTH), run, w, tms, tx);
    var prepared := Then(run, Prepare(tms, tx));
    var validated := Then(prepared, Endorse(w.nextTx));
    DanIsAllowed(H, t, last, w, n, Exec(H, InitialWorld(BOTH), prepared), tms, tx);
    assert ShownRun(H, BOTH, sw, t, last, prepared);
    DanIsAllowed(H, t, last, w, n, Exec(H, InitialWorld(BOTH), validated), tms, tx);
    assert ShownRun(H, BOTH, sw, t, last, validated);
    next := Submit(run, tms, tx, w.nextTx);
    LeakedStays(H, t, last, w, n, tms, tx);
    LeakedIsAllowed(H, t, last, Submitted(w, tms, tx), n);
  }

  lemma LeakedStays(H: Bytes -> Bytes, t: Timing, last: nat, w: World, n: nat, tms: TmsId, tx: Tx)
    requires Leaked(H, t, last, w, n) && tms in w.ledgers
    ensures Leaked(H, t, last, Submitted(w, tms, tx), n)
  {
  }

  lemma DanIsAllowed(H: Bytes -> Bytes, t: Timing, last: nat, w: World, n: nat, w': World, tms: TmsId, tx: Tx)
    requires Leaked(H, t, last, w, n)
    requires tx.action == Claim(1, DAN, SECRET) || tx.action == Reclaim(1, DAN)
    requires w'.clock == w.clock && w'.ledgers == w.ledgers && w'.secrets == w.secrets && w.shown <= w'.shown
    requires w'.pending.Keys == {n, w.nextTx} && w'.pending[n] == w.pending[n] && w'.pending[w.nextTx].tx == tx
    ensures WorldAllowed(H, w', TheSwap(H), t)
  {
  }

  lemma DanTakesBoth(H: Bytes -> Bytes, t: Timing, last: nat) returns (run: Run)
    requires t.Accepted() && t.tB <= last < t.DeadlineB() <= last + t.lag && last < t.DeadlineA()
    ensures ShownRun(H, BOTH, TheSwap(H), t, last, run)
    ensures InitiatorLoses(Exec(H, InitialWorld(BOTH), run), TheSwap(H))
  {
    var asked, w0, n := DanLearns(H, t, last);
    var claim, reclaim := ClaimOne(1, DAN, "TOK"), ReclaimOne(DAN, "ETOK");
    ClaimFitsA(H, t, w0.ledgers[FABRIC], last);
    var claimed := DanSubmits(H, t, last, asked, w0, n, FABRIC, claim);
    var w1 := Submitted(w0, FABRIC, claim);
    var w2 := w1.(clock := t.DeadlineB());
    var waited := Then(claimed, Tick(t.DeadlineB() - last));
    assert Exec(H, InitialWorld(BOTH), waited) == w2;
    LeakedIsAllowed(H, t, last, w2, n);
    assert ShownRun(H, BOTH, TheSwap(H), t, last, waited);
    assert Valid(H, w2.ledgers[EVM], reclaim, w2.clock);
    run := DanSubmits(H, t, last, waited, w2, n, EVM, reclaim);
  }

  /** No run of any swap with this timing, in which the initiator asks by `last`, ever makes her lose. */
  ghost predicate InitiatorAlwaysSafe(H: Bytes -> Bytes, t: Timing, last: nat) {
    forall tmss, sw: Swap, run :: sw.tmsA != sw.tmsB && ShownRun(H, tmss, sw, t, last, run) ==>
                                    !InitiatorLoses(Exec(H, InitialWorld(tmss), run), sw)
  }

  /**
   When endorsers may leak, the initiator is safe over all runs exactly when her last request, and the time it may take
   to be ordered, end before the responder's deadline; that the lock is still open when she asks is not enough.
   */
  lemma RequestMarginIsExact(H: Bytes -> Bytes, t: Timing, last: nat)
    requires t.Accepted() && t.tB <= last < t.DeadlineB() && last < t.DeadlineA()
    ensures InitiatorAlwaysSafe(H, t, last) <==> last + t.lag < t.DeadlineB()
  {
    if last + t.lag < t.DeadlineB() {
      forall tmss, sw: Swap, run | sw.tmsA != sw.tmsB && ShownRun(H, tmss, sw, t, last, run)
        ensures !InitiatorLoses(Exec(H, InitialWorld(tmss), run), sw)
      {
        InitiatorSafeWhenShown(H, tmss, sw, t, last, run);
      }
    } else {
      var run := DanTakesBoth(H, t, last);
      assert TheSwap(H).tmsA != TheSwap(H).tmsB;
    }
  }
}
