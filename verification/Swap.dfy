/**
 The cross-network swap: an initiator locks on one TMS, a responder locks under the same hash on another,
 and each claims the other's lock with the same pre-image. Deadlines are relative to the lock calls,
 transactions take time between validation and ordering, and everything else may be interleaved.

 Safety is first proved for parties that achieve what the protocol asks of them, then for parties that can only send
 claim requests: such a request names a pre-image, not a lock, and is refused unless exactly one lock matches.
 */
module Swaps {
  import opened Basics
  import opened Deadlines
  import opened HtlcWallets
  import opened Ledgers
  import opened Worlds

  /** Output `a` of `tmsA` is the initiator's lock, output `b` of `tmsB` the responder's. */
  datatype Swap = Swap(
    initiator: Wallet, responder: Wallet, hash: Bytes,
    tmsA: TmsId, a: nat, codeA: Code, quantityA: nat,
    tmsB: TmsId, b: nat, codeB: Code, quantityB: nat)

  /**
   The initiator calls lock at `tA` for `dA` seconds, the responder at `tB` for `dB` seconds. At most `lag`
   passes between the validation of a transaction and its commit, and the responder settles the
   initiator's lock within `delta` of the pre-image becoming public.
   */
  datatype Timing = Timing(tA: nat, dA: nat, tB: nat, dB: nat, lag: nat, delta: nat) {
    function DeadlineA(): nat { tA + dA * NANOS }
    function DeadlineB(): nat { tB + dB * NANOS }

    /** The safety margin between the two absolute deadlines. */
    predicate Margin() { DeadlineB() + lag + delta <= DeadlineA() }

    /** The durations are accepted by the API, and the initiator locks first. */
    predicate Accepted() { ToDeadline(dA).Some? && ToDeadline(dB).Some? && tA <= tB }
  }

  predicate ClaimedOn(w: World, t: TmsId, id: nat) {
    t in w.ledgers && id in w.ledgers[t].spent && w.ledgers[t].spent[id].action.Claim?
  }

  predicate ReclaimedOn(w: World, t: TmsId, id: nat) {
    t in w.ledgers && id in w.ledgers[t].spent && w.ledgers[t].spent[id].action.Reclaim?
  }

  predicate LiveOn(w: World, t: TmsId, id: nat) {
    t in w.ledgers && LiveLock(w.ledgers[t], id)
  }

  /** The initiator holds both sides: it claimed the responder's lock and took its own back. */
  predicate InitiatorHoldsBoth(w: World, sw: Swap) {
    ClaimedOn(w, sw.tmsB, sw.b) && ReclaimedOn(w, sw.tmsA, sw.a)
  }

  /** The initiator's lock as agreed: parties, hash, deadline, code and quantity. */
  function LockA(sw: Swap, t: Timing): Token {
    Token(Locked(Script(sw.initiator, sw.responder, sw.hash, t.DeadlineA())), sw.codeA, sw.quantityA)
  }

  function LockB(sw: Swap, t: Timing): Token {
    Token(Locked(Script(sw.responder, sw.initiator, sw.hash, t.DeadlineB())), sw.codeB, sw.quantityB)
  }

  predicate Exists(w: World, t: TmsId, id: nat) {
    t in w.ledgers && id < |w.ledgers[t].outputs|
  }

  predicate IsLockOf(w: World, t: TmsId, id: nat, token: Token, call: LockCall) {
    t in w.ledgers &&
    (Exists(w, t, id) ==>
       w.ledgers[t].outputs[id] == token && id in w.ledgers[t].lockCalls && w.ledgers[t].lockCalls[id] == call)
  }

  /** As far as the two locks exist yet, they are the ones the parties agreed on. */
  predicate Agreed(w: World, sw: Swap, t: Timing) {
    IsLockOf(w, sw.tmsA, sw.a, LockA(sw, t), LockCall(t.tA, t.dA)) &&
    IsLockOf(w, sw.tmsB, sw.b, LockB(sw, t), LockCall(t.tB, t.dB))
  }

  /** `delta` has passed since the claim that published the pre-image,
      and the initiator's deadline has not been first. */
  predicate Due(w: World, sw: Swap, t: Timing) {
    ClaimedOn(w, sw.tmsB, sw.b) &&
    var published := w.ledgers[sw.tmsB].spent[sw.b].at;
    published + t.delta < t.DeadlineA() && published + t.delta < w.clock
  }

  /** The responder's duty: when due, the initiator's lock is no longer open. */
  predicate ResponderPrompt(w: World, sw: Swap, t: Timing) {
    Due(w, sw, t) ==> !LiveOn(w, sw.tmsA, sw.a)
  }

  /** An endorsed transaction that is committed now was validated at most `lag` ago. */
  predicate CommitTimely(w: World, step: Step, lag: nat) {
    step.Commit? && Committable(w, step.id) ==> w.clock <= w.pending[step.id].endorsedAt.value + lag
  }

  /** A run of the whole system in which the responder follows the protocol; nobody else has to. */
  predicate SwapRun(H: Bytes -> Bytes, tmss: set<TmsId>, sw: Swap, t: Timing, run: Run) {
    var w := Exec(H, InitialWorld(tmss), run);
    Agreed(w, sw, t) && ResponderPrompt(w, sw, t) &&
    match run
    case Start => true
    case Then(before, step) =>
      SwapRun(H, tmss, sw, t, before) && CommitTimely(Exec(H, InitialWorld(tmss), before), step, t.lag)
  }

  // ---------------------------------------------------------------------------------------------
  // Responder safety

  /** The facts carried along a run: a claim of the responder's lock came at most `lag` after its deadline. */
  predicate ResponderInv(w: World, sw: Swap, t: Timing) {
    (ClaimedOn(w, sw.tmsB, sw.b) ==> w.ledgers[sw.tmsB].spent[sw.b].at < t.DeadlineB() + t.lag) &&
    !InitiatorHoldsBoth(w, sw)
  }

  lemma ResponderCommit(H: Bytes -> Bytes, w: World, sw: Swap, t: Timing, id: nat)
    requires sw.tmsA != sw.tmsB && t.Margin()
    requires id in w.pending ==> PendingInv(H, w, w.pending[id])
    requires Agreed(w, sw, t) && ResponderPrompt(w, sw, t) && CommitTimely(w, Commit(id), t.lag)
    requires ClaimedOn(w, sw.tmsB, sw.b) ==> w.ledgers[sw.tmsB].spent[sw.b].at <= w.clock
    requires ReclaimedOn(w, sw.tmsA, sw.a) ==> t.DeadlineA() <= w.clock
    requires ResponderInv(w, sw, t)
    ensures ResponderInv(DoCommit(w, id), sw, t)
  {
    if Committable(w, id) {
      var p := w.pending[id];
      var e := p.endorsedAt.value;
      if p.tms == sw.tmsB && sw.b in p.tx.inputs && p.tx.action.Claim? {
        assert e < t.DeadlineB() && w.clock < t.DeadlineB() + t.lag;
      } else if p.tms == sw.tmsA && sw.a in p.tx.inputs && p.tx.action.Reclaim? {
        assert t.DeadlineA() <= e <= w.clock;
        assert LiveOn(w, sw.tmsA, sw.a);
      }
    }
  }

  lemma ReclaimedAfterDeadline(H: Bytes -> Bytes, w: World, sw: Swap, t: Timing)
    requires WorldInv(H, w) && Agreed(w, sw, t) && ReclaimedOn(w, sw.tmsA, sw.a)
    ensures t.DeadlineA() <= w.clock
  {
    SpentLockFacts(H, w, sw.tmsA, sw.a);
  }

  lemma ResponderStep(H: Bytes -> Bytes, w: World, sw: Swap, t: Timing, step: Step)
    requires sw.tmsA != sw.tmsB && t.Margin() && WorldInv(H, w)
    requires Agreed(w, sw, t) && ResponderPrompt(w, sw, t) && CommitTimely(w, step, t.lag)
    requires ResponderInv(w, sw, t)
    ensures ResponderInv(Next(H, w, step), sw, t)
  {
    if step.Commit? {
      if step.id in w.pending { PendingFacts(H, w, step.id); }
      if ClaimedOn(w, sw.tmsB, sw.b) { SpentLockFacts(H, w, sw.tmsB, sw.b); }
      if ReclaimedOn(w, sw.tmsA, sw.a) { ReclaimedAfterDeadline(H, w, sw, t); }
      ResponderCommit(H, w, sw, t, step.id);
    }
  }

  /** With the margin, a responder that follows the protocol never ends up with neither side. */
  lemma {:induction false} ResponderSafe(H: Bytes -> Bytes, tmss: set<TmsId>, sw: Swap, t: Timing, run: Run)
    requires sw.tmsA != sw.tmsB && t.Margin() && SwapRun(H, tmss, sw, t, run)
    ensures ResponderInv(Exec(H, InitialWorld(tmss), run), sw, t)
    ensures !InitiatorHoldsBoth(Exec(H, InitialWorld(tmss), run), sw)
  {
    match run
    case Start =>
    case Then(before, step) =>
      ResponderSafe(H, tmss, sw, t, before);
      Reachable(H, tmss, before);
      ResponderStep(H, Exec(H, InitialWorld(tmss), before), sw, t, step);
  }

  // ---------------------------------------------------------------------------------------------
  // A responder that sends claim requests

  /** The responder locks only when it sees the initiator's lock on the ledger. */
  predicate LocksFirst(w: World, sw: Swap) {
    Exists(w, sw.tmsB, sw.b) ==> Exists(w, sw.tmsA, sw.a)
  }

  /** A claim request with the published pre-image, begun after `before` and over `during` later, within `delta`. */
  ghost predicate RequestMade(H: Bytes -> Bytes, tmss: set<TmsId>, sw: Swap, t: Timing, before: Run, during: Run) {
    var w0 := Exec(H, InitialWorld(tmss), before);
    var w1 := Exec(H, InitialWorld(tmss), Append(before, during));
    ClaimedOn(w0, sw.tmsB, sw.b) &&
    var spend := w0.ledgers[sw.tmsB].spent[sw.b];
    w1.clock <= spend.at + t.delta && ClaimRequested(H, w0, w1, sw.tmsA, sw.responder, spend.action.preImage)
  }

  /** If the initiator's lock is open, no other unexpired lock of that TMS names the responder and the hash. */
  ghost predicate Unrivalled(w: World, sw: Swap) {
    LiveOn(w, sw.tmsA, sw.a) ==> SoleClaimable(w.ledgers[sw.tmsA], sw.a, w.clock)
  }

  /** When due, the responder has made such a request; if `sole`, one that met no rival when it was made. */
  ghost predicate Asked(H: Bytes -> Bytes, tmss: set<TmsId>, sw: Swap, t: Timing, run: Run, sole: bool) {
    Due(Exec(H, InitialWorld(tmss), run), sw, t) ==>
      exists before, during, rest ::
        run == Append(Append(before, during), rest) && RequestMade(H, tmss, sw, t, before, during) &&
        (sole ==> Unrivalled(Exec(H, InitialWorld(tmss), before), sw))
  }

  /** A run of the whole system in which the responder acts by claim requests; nobody else has to do anything. */
  ghost predicate RequestRun(H: Bytes -> Bytes, tmss: set<TmsId>, sw: Swap, t: Timing, run: Run, sole: bool) {
    var w := Exec(H, InitialWorld(tmss), run);
    Agreed(w, sw, t) && LocksFirst(w, sw) && Asked(H, tmss, sw, t, run, sole) &&
    match run
    case Start => true
    case Then(before, step) =>
      RequestRun(H, tmss, sw, t, before, sole) && CommitTimely(Exec(H, InitialWorld(tmss), before), step, t.lag)
  }

  /**
   The responder's request succeeds if and only if the initiator's lock has no rival: as long as that lock is open and
   unexpired, a claim request with the published pre-image settles it exactly then.
   */
  lemma ResponderCanClaim(H: Bytes -> Bytes, tmss: set<TmsId>, sw: Swap, t: Timing, run: Run)
    requires Agreed(Exec(H, InitialWorld(tmss), run), sw, t)
    requires var w := Exec(H, InitialWorld(tmss), run);
             ClaimedOn(w, sw.tmsB, sw.b) && LiveOn(w, sw.tmsA, sw.a) && w.clock < t.DeadlineA()
    ensures var w := Exec(H, InitialWorld(tmss), run);
            var preImage := w.ledgers[sw.tmsB].spent[sw.b].action.preImage;
            (SettledOn(AfterClaim(H, w, sw.tmsA, sw.responder, preImage), sw.tmsA, sw.a) <==> Unrivalled(w, sw)) &&
            (exists more :: Exec(H, w, more) == AfterClaim(H, w, sw.tmsA, sw.responder, preImage))
  {
    var w := Exec(H, InitialWorld(tmss), run);
    Reachable(H, tmss, run);
    SpentLockFacts(H, w, sw.tmsB, sw.b);
    var preImage := w.ledgers[sw.tmsB].spent[sw.b].action.preImage;
    ClaimSettlesIff(H, w, sw.tmsA, sw.a, sw.responder, preImage);
    ClaimIsRun(H, w, sw.tmsA, sw.responder, preImage);
  }

  /** A request that met no rival has settled the lock it was for, unless the lock expired first. */
  lemma RequestSettles(H: Bytes -> Bytes, w0: World, w1: World, t: TmsId, id: nat, wallet: Wallet, preImage: Bytes)
    requires LiveOn(w0, t, id) && SoleClaimable(w0.ledgers[t], id, w0.clock)
    requires IsMatch(H, w0.ledgers[t].outputs[id].owner.script, wallet, preImage, w0.clock)
    requires ClaimRequested(H, w0, w1, t, wallet, preImage)
    ensures SettledOn(w1, t, id) || w0.ledgers[t].outputs[id].owner.script.deadline <= w1.clock
  {
    SoleIsListed(H, w0.ledgers[t], id, wallet, preImage, w0.clock);
    assert TheOne({id}) == id;
  }

  /** The responder's request, made in time and without a rival, leaves the initiator's lock settled for good. */
  lemma RequestInTime(H: Bytes -> Bytes, w0: World, w1: World, w: World, sw: Swap, t: Timing)
    requires Continues(w0, w1) && Continues(w1, w)
    requires Agreed(w0, sw, t) && Exists(w0, sw.tmsA, sw.a) && Unrivalled(w0, sw) && ClaimedOn(w0, sw.tmsB, sw.b)
    requires H(w0.ledgers[sw.tmsB].spent[sw.b].action.preImage) == sw.hash
    requires ClaimRequested(H, w0, w1, sw.tmsA, sw.responder, w0.ledgers[sw.tmsB].spent[sw.b].action.preImage)
    requires w1.clock < t.DeadlineA()
    ensures !LiveOn(w, sw.tmsA, sw.a)
  {
    assert Extends(w0.ledgers[sw.tmsA], w1.ledgers[sw.tmsA]) && Extends(w1.ledgers[sw.tmsA], w.ledgers[sw.tmsA]);
    if LiveOn(w0, sw.tmsA, sw.a) {
      RequestSettles(H, w0, w1, sw.tmsA, sw.a, sw.responder, w0.ledgers[sw.tmsB].spent[sw.b].action.preImage);
    }
  }

  lemma {:induction false} RequestRunPrefix(H: Bytes -> Bytes, tmss: set<TmsId>, sw: Swap, t: Timing, before: Run,
                                            rest: Run)
    requires RequestRun(H, tmss, sw, t, Append(before, rest), true)
    ensures RequestRun(H, tmss, sw, t, before, true)
  {
    match rest
    case Start =>
    case Then(first, _) => RequestRunPrefix(H, tmss, sw, t, before, first);
  }

  lemma AppendContinues(H: Bytes -> Bytes, tmss: set<TmsId>, before: Run, rest: Run)
    ensures WorldInv(H, Exec(H, InitialWorld(tmss), before))
    ensures Continues(Exec(H, InitialWorld(tmss), before), Exec(H, InitialWorld(tmss), Append(before, rest)))
  {
    Reachable(H, tmss, before);
    ExecAppend(H, InitialWorld(tmss), before, rest);
    RunKeepsInv(H, Exec(H, InitialWorld(tmss), before), rest);
  }

  /** A responder that sends in time a request that meets no rival is prompt, whatever rivals come and go otherwise. */
  lemma RequestsArePrompt(H: Bytes -> Bytes, tmss: set<TmsId>, sw: Swap, t: Timing, run: Run)
    requires RequestRun(H, tmss, sw, t, run, true)
    ensures ResponderPrompt(Exec(H, InitialWorld(tmss), run), sw, t)
  {
    var w := Exec(H, InitialWorld(tmss), run);
    if Due(w, sw, t) {
      var before, during, rest :|
        run == Append(Append(before, during), rest) && RequestMade(H, tmss, sw, t, before, during) &&
        Unrivalled(Exec(H, InitialWorld(tmss), before), sw);
      RequestRunPrefix(H, tmss, sw, t, Append(before, during), rest);
      RequestRunPrefix(H, tmss, sw, t, before, during);
      AppendContinues(H, tmss, before, during);
      AppendContinues(H, tmss, Append(before, during), rest);
      var w0 := Exec(H, InitialWorld(tmss), before);
      var w1 := Exec(H, InitialWorld(tmss), Append(before, during));
      ContinuesTransitive(w0, w1, w);
      assert Extends(w0.ledgers[sw.tmsB], w.ledgers[sw.tmsB]);
      SpentLockFacts(H, w0, sw.tmsB, sw.b);
      RequestInTime(H, w0, w1, w, sw, t);
    }
  }

  lemma {:induction false} RequestRunIsSwapRun(H: Bytes -> Bytes, tmss: set<TmsId>, sw: Swap, t: Timing, run: Run)
    requires RequestRun(H, tmss, sw, t, run, true)
    ensures SwapRun(H, tmss, sw, t, run)
  {
    RequestsArePrompt(H, tmss, sw, t, run);
    match run
    case Start =>
    case Then(before, _) => RequestRunIsSwapRun(H, tmss, sw, t, before);
  }

  /**
   With the margin, a responder that only sends claim requests, one of them in time and without a rival at that moment,
   never ends up with neither side.
   */
  lemma ResponderSafeByRequests(H: Bytes -> Bytes, tmss: set<TmsId>, sw: Swap, t: Timing, run: Run)
    requires sw.tmsA != sw.tmsB && t.Margin()
    requires RequestRun(H, tmss, sw, t, run, true)
    ensures !InitiatorHoldsBoth(Exec(H, InitialWorld(tmss), run), sw)
  {
    RequestRunIsSwapRun(H, tmss, sw, t, run);
    ResponderSafe(H, tmss, sw, t, run);
  }

  // ---------------------------------------------------------------------------------------------
  // Initiator safety

  /**
   Nobody but the initiator has, by itself, a pre-image of the hash: no collision, no guess, no leak. Once the secret is
   published, anybody may have it.
   */
  ghost predicate SecretKept(H: Bytes -> Bytes, w: World, sw: Swap) {
    forall x, p :: x != sw.initiator && p in Secrets(w, x) && p !in w.published ==> H(p) != sw.hash
  }

  /** The initiator prepares a claim with the secret before she holds the responder's lock. */
  predicate UsesSecret(H: Bytes -> Bytes, w: World, sw: Swap, step: Step) {
    step.Prepare? && step.tx.action.Claim? && step.tx.action.wallet == sw.initiator &&
    H(step.tx.action.preImage) == sw.hash && !ClaimedOn(w, sw.tmsB, sw.b)
  }

  /** The initiator uses the secret for the responder's lock only. */
  predicate ClaimsOnlyB(H: Bytes -> Bytes, w: World, sw: Swap, step: Step) {
    UsesSecret(H, w, sw, step) ==> step.tms == sw.tmsB && step.tx.action.id == sw.b
  }

  /** A run of the whole system in which the initiator follows the protocol; nobody else has to. */
  ghost predicate InitiatorRun(H: Bytes -> Bytes, tmss: set<TmsId>, sw: Swap, t: Timing, run: Run) {
    var w := Exec(H, InitialWorld(tmss), run);
    Agreed(w, sw, t) && SecretKept(H, w, sw) &&
    match run
    case Start => true
    case Then(before, step) =>
      InitiatorRun(H, tmss, sw, t, before) && ClaimsOnlyB(H, Exec(H, InitialWorld(tmss), before), sw, step)
  }

  /** The pre-image is public, or about to be, only through a claim of the responder's lock. */
  ghost predicate InitiatorInv(H: Bytes -> Bytes, w: World, sw: Swap) {
    (forall p :: p in w.published && H(p) == sw.hash ==> ClaimedOn(w, sw.tmsB, sw.b)) &&
    (forall n :: n in w.pending && w.pending[n].tx.action.Claim? &&
                 H(w.pending[n].tx.action.preImage) == sw.hash ==>
                   (w.pending[n].tms == sw.tmsB && w.pending[n].tx.action.id == sw.b) || ClaimedOn(w, sw.tmsB, sw.b)) &&
    (ClaimedOn(w, sw.tmsA, sw.a) ==> ClaimedOn(w, sw.tmsB, sw.b))
  }

  lemma InitiatorCommit(H: Bytes -> Bytes, w: World, sw: Swap, t: Timing, id: nat)
    requires sw.tmsA != sw.tmsB && Agreed(w, sw, t) && InitiatorInv(H, w, sw)
    requires id in w.pending ==> PendingInv(H, w, w.pending[id])
    ensures InitiatorInv(H, DoCommit(w, id), sw)
  {
    if Committable(w, id) {
      var p := w.pending[id];
      if p.tx.action.Claim? {
        assert p.tx.inputs == [p.tx.action.id];
      }
      if p.tms == sw.tmsA && sw.a in p.tx.inputs && p.tx.action.Claim? {
        assert H(p.tx.action.preImage) == sw.hash;
      }
    }
  }

  lemma InitiatorStep(H: Bytes -> Bytes, w: World, sw: Swap, t: Timing, step: Step)
    requires sw.tmsA != sw.tmsB && AllPendingInv(H, w) && Agreed(w, sw, t)
    requires SecretKept(H, w, sw) && ClaimsOnlyB(H, w, sw, step) && InitiatorInv(H, w, sw)
    ensures InitiatorInv(H, Next(H, w, step), sw)
  {
    if step.Commit? {
      InitiatorCommit(H, w, sw, t, step.id);
    }
  }

  /** An initiator that follows the protocol loses her lock only if she has claimed the responder's. */
  lemma {:induction false} InitiatorSafe(H: Bytes -> Bytes, tmss: set<TmsId>, sw: Swap, t: Timing, run: Run)
    requires sw.tmsA != sw.tmsB && InitiatorRun(H, tmss, sw, t, run)
    ensures var w := Exec(H, InitialWorld(tmss), run);
            InitiatorInv(H, w, sw) && (ClaimedOn(w, sw.tmsA, sw.a) ==> ClaimedOn(w, sw.tmsB, sw.b))
  {
    match run
    case Start =>
    case Then(before, step) =>
      InitiatorSafe(H, tmss, sw, t, before);
      Reachable(H, tmss, before);
      InitiatorStep(H, Exec(H, InitialWorld(tmss), before), sw, t, step);
  }

  // ---------------------------------------------------------------------------------------------
  // An initiator that sends claim requests

  /** She sends the secret to the responder's TMS only, in requests that claim whatever lock matches. */
  predicate ClaimsByRequest(H: Bytes -> Bytes, w: World, sw: Swap, step: Step) {
    UsesSecret(H, w, sw, step) ==>
      step.tms == sw.tmsB && sw.tmsB in w.ledgers &&
      var l, id, preImage := w.ledgers[sw.tmsB], step.tx.action.id, step.tx.action.preImage;
      ListByPreImage(H, l, sw.initiator, preImage, w.clock) == {id} &&
      id < |l.outputs| && step.tx == ClaimTx(l, id, sw.initiator, preImage)
  }

  /** At her request, the responder's lock is on the ledger, unspent and unexpired. */
  predicate AsksWhileOpen(H: Bytes -> Bytes, w: World, sw: Swap, t: Timing, step: Step) {
    UsesSecret(H, w, sw, step) ==> LiveOn(w, sw.tmsB, sw.b) && w.clock < t.DeadlineB()
  }

  ghost predicate InitiatorRequestRun(H: Bytes -> Bytes, tmss: set<TmsId>, sw: Swap, t: Timing, run: Run) {
    var w := Exec(H, InitialWorld(tmss), run);
    Agreed(w, sw, t) && SecretKept(H, w, sw) &&
    match run
    case Start => true
    case Then(before, step) =>
      InitiatorRequestRun(H, tmss, sw, t, before) && ClaimsByRequest(H, Exec(H, InitialWorld(tmss), before), sw, step)
  }

  ghost predicate AskingWhileOpen(H: Bytes -> Bytes, tmss: set<TmsId>, sw: Swap, t: Timing, run: Run) {
    match run
    case Start => true
    case Then(before, step) =>
      AskingWhileOpen(H, tmss, sw, t, before) && AsksWhileOpen(H, Exec(H, InitialWorld(tmss), before), sw, t, step)
  }

  /** The lock that her request takes is the responder's if and only if that lock is still open. */
  lemma RequestTakesB(H: Bytes -> Bytes, w: World, sw: Swap, t: Timing, preImage: Bytes, id: nat)
    requires Agreed(w, sw, t) && H(preImage) == sw.hash
    requires ListByPreImage(H, w.ledgers[sw.tmsB], sw.initiator, preImage, w.clock) == {id}
    ensures id == sw.b <==> LiveOn(w, sw.tmsB, sw.b) && w.clock < t.DeadlineB()
  {
    var s := ListByPreImage(H, w.ledgers[sw.tmsB], sw.initiator, preImage, w.clock);
    assert id in s;
    assert LiveOn(w, sw.tmsB, sw.b) && w.clock < t.DeadlineB() ==> sw.b in s;
  }

  lemma {:induction false} InitiatorRequestsFollow(H: Bytes -> Bytes, tmss: set<TmsId>, sw: Swap, t: Timing, run: Run)
    requires InitiatorRequestRun(H, tmss, sw, t, run)
    ensures AskingWhileOpen(H, tmss, sw, t, run) <==> InitiatorRun(H, tmss, sw, t, run)
  {
    match run
    case Start =>
    case Then(before, step) =>
      InitiatorRequestsFollow(H, tmss, sw, t, before);
      var w := Exec(H, InitialWorld(tmss), before);
      if UsesSecret(H, w, sw, step) {
        RequestTakesB(H, w, sw, t, step.tx.action.preImage, step.tx.action.id);
      }
  }

  /** An initiator that only sends claim requests is safe as long as she asks while the responder's lock is open. */
  lemma InitiatorSafeByRequests(H: Bytes -> Bytes, tmss: set<TmsId>, sw: Swap, t: Timing, run: Run)
    requires sw.tmsA != sw.tmsB && InitiatorRequestRun(H, tmss, sw, t, run) && AskingWhileOpen(H, tmss, sw, t, run)
    ensures var w := Exec(H, InitialWorld(tmss), run); ClaimedOn(w, sw.tmsA, sw.a) ==> ClaimedOn(w, sw.tmsB, sw.b)
  {
    InitiatorRequestsFollow(H, tmss, sw, t, run);
    InitiatorSafe(H, tmss, sw, t, run);
  }

  // ---------------------------------------------------------------------------------------------
  // Atomicity

  /**
   When both follow the protocol and both locks are settled, either both were claimed or both reclaimed; and the locks
   carried the agreed codes and quantities.
   */
  lemma SwapIsAtomic(H: Bytes -> Bytes, tmss: set<TmsId>, sw: Swap, t: Timing, run: Run)
    requires sw.tmsA != sw.tmsB && t.Margin()
    requires SwapRun(H, tmss, sw, t, run) && InitiatorRun(H, tmss, sw, t, run)
    requires var w := Exec(H, InitialWorld(tmss), run);
             SettledOn(w, sw.tmsA, sw.a) && SettledOn(w, sw.tmsB, sw.b)
    ensures var w := Exec(H, InitialWorld(tmss), run);
            Exists(w, sw.tmsA, sw.a) && w.ledgers[sw.tmsA].outputs[sw.a] == LockA(sw, t) &&
            Exists(w, sw.tmsB, sw.b) && w.ledgers[sw.tmsB].outputs[sw.b] == LockB(sw, t) &&
            ((ClaimedOn(w, sw.tmsA, sw.a) && ClaimedOn(w, sw.tmsB, sw.b)) ||
             (ReclaimedOn(w, sw.tmsA, sw.a) && ReclaimedOn(w, sw.tmsB, sw.b)))
  {
    var w := Exec(H, InitialWorld(tmss), run);
    ResponderSafe(H, tmss, sw, t, run);
    InitiatorSafe(H, tmss, sw, t, run);
    Reachable(H, tmss, run);
    SpentLockFacts(H, w, sw.tmsA, sw.a);
    SpentLockFacts(H, w, sw.tmsB, sw.b);
  }

  /** The same for parties that only send claim requests: no rival at one request in time,
      an open lock at each of hers. */
  lemma SwapByRequestsIsAtomic(H: Bytes -> Bytes, tmss: set<TmsId>, sw: Swap, t: Timing, run: Run)
    requires sw.tmsA != sw.tmsB && t.Margin()
    requires RequestRun(H, tmss, sw, t, run, true)
    requires InitiatorRequestRun(H, tmss, sw, t, run) && AskingWhileOpen(H, tmss, sw, t, run)
    requires var w := Exec(H, InitialWorld(tmss), run);
             SettledOn(w, sw.tmsA, sw.a) && SettledOn(w, sw.tmsB, sw.b)
    ensures var w := Exec(H, InitialWorld(tmss), run);
            (ClaimedOn(w, sw.tmsA, sw.a) && ClaimedOn(w, sw.tmsB, sw.b)) ||
            (ReclaimedOn(w, sw.tmsA, sw.a) && ReclaimedOn(w, sw.tmsB, sw.b))
  {
    RequestRunIsSwapRun(H, tmss, sw, t, run);
    InitiatorRequestsFollow(H, tmss, sw, t, run);
    SwapIsAtomic(H, tmss, sw, t, run);
  }
}
