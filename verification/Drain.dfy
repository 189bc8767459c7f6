/**
 No value is locked forever: when can the senders alone, by waiting and asking for their locks back, empty a
 world of its locks?
 */
module Drains {
  import opened Basics
  import opened Deadlines
  import opened Ledgers
  import opened Worlds
  import opened HtlcWallets

  /** Requests to the claim and reclaim views, the first outermost. */
  datatype ApiRun =
    | Done
    | Wait(nanos: nat, rest: ApiRun)
    | AskReclaim(t: TmsId, wallet: Wallet, hash: Bytes, rest: ApiRun)
    | AskClaim(t: TmsId, wallet: Wallet, preImage: Bytes, rest: ApiRun)

  function Perform(H: Bytes -> Bytes, w: World, r: ApiRun): World
    decreases r
  {
    match r
    case Done => w
    case Wait(nanos, rest) => Perform(H, w.(clock := w.clock + nanos), rest)
    case AskReclaim(t, wallet, hash, rest) => Perform(H, AfterReclaim(w, t, wallet, hash), rest)
    case AskClaim(t, wallet, preImage, rest) => Perform(H, AfterClaim(H, w, t, wallet, preImage), rest)
  }

  predicate SendersOnly(r: ApiRun) {
    match r
    case Done => true
    case Wait(_, rest) => SendersOnly(rest)
    case AskReclaim(_, _, _, rest) => SendersOnly(rest)
    case AskClaim(_, _, _, _) => false
  }

  function LiveLocks(w: World): set<(TmsId, nat)> {
    set t, i | t in w.ledgers && i in LockedIds(w.ledgers[t]) :: (t, i)
  }

  function ScriptOf(w: World, x: (TmsId, nat)): Script
    requires x in LiveLocks(w)
  {
    w.ledgers[x.0].outputs[x.1].owner.script
  }

  /** From when on the lock can be reclaimed, seen from now. */
  function DueAt(w: World, x: (TmsId, nat)): nat
    requires x in LiveLocks(w)
  {
    if ScriptOf(w, x).deadline < w.clock then w.clock else ScriptOf(w, x).deadline
  }

  /** A reclaim request cannot tell the two apart. */
  predicate SameRequest(w: World, x: (TmsId, nat), y: (TmsId, nat))
    requires x in LiveLocks(w) && y in LiveLocks(w)
  {
    x.0 == y.0 && ScriptOf(w, x).sender == ScriptOf(w, y).sender && ScriptOf(w, x).hash == ScriptOf(w, y).hash
  }

  /** Locks that one request would match become due at different times. */
  ghost predicate Separable(w: World) {
    forall x, y :: x in LiveLocks(w) && y in LiveLocks(w) && x != y && SameRequest(w, x, y) ==>
                     DueAt(w, x) != DueAt(w, y)
  }

  ghost predicate Drainable(H: Bytes -> Bytes, w: World) {
    exists r :: SendersOnly(r) && LiveLocks(Perform(H, w, r)) == {}
  }

  // ---------------------------------------------------------------------------------------------

  /** Settling a lock removes it from the live ones and leaves every other as it was. */
  lemma SubmittedLocks(w: World, t: TmsId, tx: Tx)
    requires t in w.ledgers
    requires |tx.inputs| == 1 && |tx.outputs| == 1 && tx.outputs[0].owner.Plain?
    ensures LiveLocks(Submitted(w, t, tx)) == LiveLocks(w) - {(t, tx.inputs[0])}
    ensures forall x :: x in LiveLocks(Submitted(w, t, tx)) ==> ScriptOf(Submitted(w, t, tx), x) == ScriptOf(w, x)
  {
    var w' := Submitted(w, t, tx);
    assert w'.ledgers[t].outputs[|w.ledgers[t].outputs|] == tx.outputs[0];
    forall x ensures x in LiveLocks(w') <==> x in LiveLocks(w) && x != (t, tx.inputs[0]) {
      if x.0 in w.ledgers {
        assert x in LiveLocks(w') <==> x.1 in LockedIds(w'.ledgers[x.0]);
        assert x in LiveLocks(w) <==> x.1 in LockedIds(w.ledgers[x.0]);
      }
    }
  }

  lemma WaitLocks(w: World, nanos: nat)
    ensures LiveLocks(w.(clock := w.clock + nanos)) == LiveLocks(w)
  {
  }

  lemma {:induction false} EarliestDue(w: World, s: set<(TmsId, nat)>) returns (x: (TmsId, nat))
    requires s != {} && s <= LiveLocks(w)
    ensures x in s && forall y :: y in s ==> DueAt(w, x) <= DueAt(w, y)
    decreases |s|
  {
    x :| x in s;
    if s != {x} {
      var y := EarliestDue(w, s - {x});
      if DueAt(w, y) < DueAt(w, x) { x := y; }
    }
  }

  /** In a separable world the earliest lock is, when due, the only match of its own reclaim request. */
  lemma EarliestIsUnique(w: World, x: (TmsId, nat))
    requires Separable(w) && x in LiveLocks(w) && forall y :: y in LiveLocks(w) ==> DueAt(w, x) <= DueAt(w, y)
    ensures ExpiredByHash(w.ledgers[x.0], ScriptOf(w, x).sender, ScriptOf(w, x).hash, DueAt(w, x)) == {x.1}
  {
    var s := ExpiredByHash(w.ledgers[x.0], ScriptOf(w, x).sender, ScriptOf(w, x).hash, DueAt(w, x));
    assert x.1 in s;
    forall i | i in s ensures i == x.1 {
      var y := (x.0, i);
      assert y in LiveLocks(w) && SameRequest(w, x, y);
      assert DueAt(w, y) == DueAt(w, x);
    }
  }

  /** Waiting for the earliest lock and taking it back leaves a smaller separable world. */
  lemma DrainOne(w: World, x: (TmsId, nat)) returns (w': World)
    requires Separable(w) && x in LiveLocks(w) && forall y :: y in LiveLocks(w) ==> DueAt(w, x) <= DueAt(w, y)
    ensures w' == AfterReclaim(w.(clock := DueAt(w, x)), x.0, ScriptOf(w, x).sender, ScriptOf(w, x).hash)
    ensures LiveLocks(w') == LiveLocks(w) - {x} && Separable(w')
  {
    var waited := w.(clock := DueAt(w, x));
    var sender, hash := ScriptOf(w, x).sender, ScriptOf(w, x).hash;
    EarliestIsUnique(w, x);
    WaitLocks(w, DueAt(w, x) - w.clock);
    w' := AfterReclaim(waited, x.0, sender, hash);
    var tx := ReclaimTx(w.ledgers[x.0], x.1, sender);
    assert w' == Submitted(waited, x.0, tx);
    SubmittedLocks(waited, x.0, tx);
    forall y, z | y in LiveLocks(w') && z in LiveLocks(w') && y != z && SameRequest(w', y, z)
      ensures DueAt(w', y) != DueAt(w', z)
    {
      assert ScriptOf(w', y) == ScriptOf(waited, y) == ScriptOf(w, y);
      assert ScriptOf(w', z) == ScriptOf(waited, z) == ScriptOf(w, z);
      assert DueAt(w', y) == DueAt(w, y) && DueAt(w', z) == DueAt(w, z);
      assert SameRequest(w, y, z);
    }
  }

  lemma {:induction false} DrainAll(H: Bytes -> Bytes, w: World) returns (r: ApiRun)
    requires Separable(w)
    ensures SendersOnly(r) && LiveLocks(Perform(H, w, r)) == {}
    decreases |LiveLocks(w)|
  {
    if LiveLocks(w) == {} {
      r := Done;
    } else {
      var x := EarliestDue(w, LiveLocks(w));
      var w' := DrainOne(w, x);
      var rest := DrainAll(H, w');
      r := Wait(DueAt(w, x) - w.clock, AskReclaim(x.0, ScriptOf(w, x).sender, ScriptOf(w, x).hash, rest));
    }
  }

  predicate Twins(w: World, x: (TmsId, nat), y: (TmsId, nat)) {
    x in LiveLocks(w) && y in LiveLocks(w) && x != y && SameRequest(w, x, y) && DueAt(w, x) == DueAt(w, y)
  }

  predicate BothExpired(w: World, x: (TmsId, nat), y: (TmsId, nat)) {
    x in LiveLocks(w) && y in LiveLocks(w) &&
    ScriptOf(w, x).deadline <= w.clock && ScriptOf(w, y).deadline <= w.clock
  }

  lemma ReclaimMissesTwins(w: World, t: TmsId, wallet: Wallet, hash: Bytes, x: (TmsId, nat), y: (TmsId, nat))
    requires Twins(w, x, y)
    ensures Twins(AfterReclaim(w, t, wallet, hash), x, y)
    ensures BothExpired(w, x, y) ==> BothExpired(AfterReclaim(w, t, wallet, hash), x, y)
  {
    if t in w.ledgers && |ExpiredByHash(w.ledgers[t], wallet, hash, w.clock)| == 1 {
      var s := ExpiredByHash(w.ledgers[t], wallet, hash, w.clock);
      var id := TheOne(s);
      assert id in s;
      SubmittedLocks(w, t, ReclaimTx(w.ledgers[t], id, wallet));
      if (t, id) == x || (t, id) == y {
        assert x.1 in s && y.1 in s;
        TwoMembers(s, x.1, y.1);
      }
    }
  }

  lemma ClaimMissesExpired(H: Bytes -> Bytes, w: World, t: TmsId, wallet: Wallet, preImage: Bytes, x: (TmsId, nat),
                           y: (TmsId, nat))
    requires Twins(w, x, y) && BothExpired(w, x, y)
    ensures Twins(AfterClaim(H, w, t, wallet, preImage), x, y) &&
            BothExpired(AfterClaim(H, w, t, wallet, preImage), x, y)
  {
    if t in w.ledgers && |ListByPreImage(H, w.ledgers[t], wallet, preImage, w.clock)| == 1 {
      var s := ListByPreImage(H, w.ledgers[t], wallet, preImage, w.clock);
      var id := TheOne(s);
      assert id in s;
      assert x.1 in s ==> x.0 != t;
      var learnt := w.(secrets := w.secrets[wallet := Secrets(w, wallet) + {preImage}]);
      assert LiveLocks(learnt) == LiveLocks(w);
      SubmittedLocks(learnt, t, ClaimTx(w.ledgers[t], id, wallet, preImage));
    }
  }

  lemma WaitKeepsTwins(w: World, nanos: nat, x: (TmsId, nat), y: (TmsId, nat))
    requires Twins(w, x, y)
    ensures Twins(w.(clock := w.clock + nanos), x, y)
    ensures BothExpired(w, x, y) ==> BothExpired(w.(clock := w.clock + nanos), x, y)
  {
    WaitLocks(w, nanos);
  }

  lemma {:induction false} TwinsStay(H: Bytes -> Bytes, w: World, r: ApiRun, x: (TmsId, nat), y: (TmsId, nat))
    requires Twins(w, x, y) && (SendersOnly(r) || BothExpired(w, x, y))
    ensures x in LiveLocks(Perform(H, w, r)) && y in LiveLocks(Perform(H, w, r))
    decreases r
  {
    match r
    case Done =>
    case Wait(nanos, rest) =>
      WaitKeepsTwins(w, nanos, x, y);
      TwinsStay(H, w.(clock := w.clock + nanos), rest, x, y);
    case AskReclaim(t, wallet, hash, rest) =>
      ReclaimMissesTwins(w, t, wallet, hash, x, y);
      TwinsStay(H, AfterReclaim(w, t, wallet, hash), rest, x, y);
    case AskClaim(t, wallet, preImage, rest) =>
      ClaimMissesExpired(H, w, t, wallet, preImage, x, y);
      TwinsStay(H, AfterClaim(H, w, t, wallet, preImage), rest, x, y);
  }

  // ---------------------------------------------------------------------------------------------
  // Main results

  /** The senders alone can empty a world of its locks exactly when it is separable. */
  lemma DrainableIffSeparable(H: Bytes -> Bytes, w: World)
    ensures Drainable(H, w) <==> Separable(w)
  {
    if Separable(w) {
      var r := DrainAll(H, w);
    } else {
      var x, y :| x in LiveLocks(w) && y in LiveLocks(w) && x != y && SameRequest(w, x, y) &&
                  DueAt(w, x) == DueAt(w, y);
      forall r | SendersOnly(r) ensures LiveLocks(Perform(H, w, r)) != {} {
        TwinsStay(H, w, r, x, y);
      }
    }
  }

  /** In particular when no sender uses a hash twice on one TMS. */
  lemma DistinctHashesDrain(H: Bytes -> Bytes, w: World)
    requires forall x, y :: x in LiveLocks(w) && y in LiveLocks(w) && x != y ==> !SameRequest(w, x, y)
    ensures Drainable(H, w)
  {
    DrainableIffSeparable(H, w);
  }

  /** Two expired locks of one sender with the same hash stay locked, whatever anyone asks for. */
  lemma ExpiredTwinsAreStuck(H: Bytes -> Bytes, w: World, r: ApiRun, x: (TmsId, nat), y: (TmsId, nat))
    requires x in LiveLocks(w) && y in LiveLocks(w) && x != y && SameRequest(w, x, y) && BothExpired(w, x, y)
    ensures x in LiveLocks(Perform(H, w, r)) && y in LiveLocks(Perform(H, w, r))
  {
    TwinsStay(H, w, r, x, y);
  }

  /** A claim or reclaim that is prepared takes the only match of the view. */
  predicate FromSingleMatch(H: Bytes -> Bytes, w: World, step: Step) {
    step.Prepare? && step.tms in w.ledgers ==>
      var l := w.ledgers[step.tms];
      match step.tx.action
      case Claim(id, wallet, preImage) => ListByPreImage(H, l, wallet, preImage, w.clock) == {id}
      case Reclaim(id, wallet) =>
        id < |l.outputs| && l.outputs[id].owner.Locked? &&
        ExpiredByHash(l, wallet, l.outputs[id].owner.script.hash, w.clock) == {id}
      case _ => true
  }

  predicate AllFromSingleMatch(H: Bytes -> Bytes, w: World, run: Run) {
    match run
    case Start => true
    case Then(before, step) => AllFromSingleMatch(H, w, before) && FromSingleMatch(H, Exec(H, w, before), step)
  }

  predicate Takes(tx: Tx, id: nat) {
    (tx.action.Claim? || tx.action.Reclaim?) && tx.action.id == id
  }

  /** Nothing under way claims or reclaims the lock. */
  predicate NothingTakes(w: World, x: (TmsId, nat)) {
    forall n :: n in w.pending && w.pending[n].tms == x.0 ==> !Takes(w.pending[n].tx, x.1)
  }

  predicate StuckTwins(w: World, x: (TmsId, nat), y: (TmsId, nat)) {
    Twins(w, x, y) && BothExpired(w, x, y) && NothingTakes(w, x) && NothingTakes(w, y)
  }

  /** The only match is never one of two expired twins. */
  lemma SingleMatchMissesTwins(H: Bytes -> Bytes, w: World, step: Step, x: (TmsId, nat), y: (TmsId, nat))
    requires Twins(w, x, y) && BothExpired(w, x, y) && FromSingleMatch(H, w, step) && step.Prepare? && step.tms == x.0
    requires step.tx.action.Claim? || step.tx.action.Reclaim?
    ensures step.tx.action.id != x.1 && step.tx.action.id != y.1
  {
    var l := w.ledgers[x.0];
    if step.tx.action.Claim? {
      assert step.tx.action.id in ListByPreImage(H, l, step.tx.action.wallet, step.tx.action.preImage, w.clock);
    } else {
      var s := ExpiredByHash(l, step.tx.action.wallet, ScriptOf(w, x).hash, w.clock);
      assert x.1 in s <==> y.1 in s;
    }
  }

  lemma PrepareKeepsStuck(H: Bytes -> Bytes, w: World, step: Step, x: (TmsId, nat), y: (TmsId, nat))
    requires StuckTwins(w, x, y) && FromSingleMatch(H, w, step) && step.Prepare?
    ensures StuckTwins(Next(H, w, step), x, y)
  {
    if step.tms == x.0 && (step.tx.action.Claim? || step.tx.action.Reclaim?) {
      SingleMatchMissesTwins(H, w, step, x, y);
    }
    assert LiveLocks(Next(H, w, step)) == LiveLocks(w);
  }

  /** A commit of anything else leaves a live lock as it is. */
  lemma CommitKeepsLock(H: Bytes -> Bytes, w: World, n: nat, x: (TmsId, nat))
    requires n in w.pending ==> PendingInv(H, w, w.pending[n])
    requires x in LiveLocks(w) && NothingTakes(w, x)
    ensures x in LiveLocks(DoCommit(w, n)) && ScriptOf(DoCommit(w, n), x) == ScriptOf(w, x)
    ensures NothingTakes(DoCommit(w, n), x)
  {
    if Committable(w, n) && w.pending[n].tms == x.0 {
      assert x.1 !in w.pending[n].tx.inputs;
      assert x.1 in LockedIds(DoCommit(w, n).ledgers[x.0]);
    } else {
      assert x.1 in LockedIds(w.ledgers[x.0]);
    }
  }

  lemma StepKeepsStuck(H: Bytes -> Bytes, w: World, step: Step, x: (TmsId, nat), y: (TmsId, nat))
    requires StuckTwins(w, x, y) && FromSingleMatch(H, w, step)
    requires step.Commit? && step.id in w.pending ==> PendingInv(H, w, w.pending[step.id])
    ensures StuckTwins(Next(H, w, step), x, y)
  {
    match step
    case Tick(nanos) => WaitKeepsTwins(w, nanos, x, y);
    case Learn(_, _) => assert LiveLocks(Next(H, w, step)) == LiveLocks(w);
    case Prepare(_, _) => PrepareKeepsStuck(H, w, step, x, y);
    case Endorse(_) => assert LiveLocks(Next(H, w, step)) == LiveLocks(w);
    case Commit(n) =>
      CommitKeepsLock(H, w, n, x);
      CommitKeepsLock(H, w, n, y);
  }

  /**
   The same over all runs, whatever is interleaved: as long as claims and reclaims are prepared from a single match, and
   nothing under way at the start takes them, two expired locks of one sender with the same hash stay locked.
   */
  lemma {:induction false} ExpiredTwinsAreStuckInRuns(H: Bytes -> Bytes, w: World, run: Run, x: (TmsId, nat),
                                                      y: (TmsId, nat))
    requires WorldInv(H, w) && StuckTwins(w, x, y) && AllFromSingleMatch(H, w, run)
    ensures StuckTwins(Exec(H, w, run), x, y)
  {
    match run
    case Start =>
    case Then(before, step) =>
      ExpiredTwinsAreStuckInRuns(H, w, before, x, y);
      RunKeepsInv(H, w, before);
      if step.Commit? && step.id in Exec(H, w, before).pending { PendingFacts(H, Exec(H, w, before), step.id); }
      StepKeepsStuck(H, Exec(H, w, before), step, x, y);
  }

  /** Such requests are runs of ordinary steps. */
  lemma {:induction false} PerformIsRun(H: Bytes -> Bytes, w: World, r: ApiRun)
    requires WorldInv(H, w)
    ensures exists run :: Exec(H, w, run) == Perform(H, w, r)
    decreases r, 0
  {
    match r
    case Done => assert Exec(H, w, Start) == w;
    case Wait(nanos, rest) =>
      assert Exec(H, w, Start) == w;
      PerformFrom(H, w, Then(Start, Tick(nanos)), w.(clock := w.clock + nanos), rest);
    case AskReclaim(t, wallet, hash, rest) =>
      ReclaimIsRun(H, w, t, wallet, hash);
      var first :| Exec(H, w, first) == AfterReclaim(w, t, wallet, hash);
      PerformFrom(H, w, first, AfterReclaim(w, t, wallet, hash), rest);
    case AskClaim(t, wallet, preImage, rest) =>
      ClaimIsRun(H, w, t, wallet, preImage);
      var first :| Exec(H, w, first) == AfterClaim(H, w, t, wallet, preImage);
      PerformFrom(H, w, first, AfterClaim(H, w, t, wallet, preImage), rest);
  }

  lemma {:induction false} PerformFrom(H: Bytes -> Bytes, w: World, first: Run, w1: World, rest: ApiRun)
    requires WorldInv(H, w) && w1 == Exec(H, w, first)
    ensures exists run :: Exec(H, w, run) == Perform(H, w1, rest)
    decreases rest, 1
  {
    RunKeepsInv(H, w, first);
    PerformIsRun(H, w1, rest);
    var second :| Exec(H, w1, second) == Perform(H, w1, rest);
    ExecAppend(H, w, first, second);
    assert Exec(H, w, Append(first, second)) == Perform(H, w1, rest);
  }

  // ---------------------------------------------------------------------------------------------
  // Twins are reachable: a lock request retried with the same hash

  function OneWorld(t: TmsId, l: Ledger, clock: nat, nextTx: nat): World {
    World(clock, map[t := l], map[], nextTx, map[], {}, {})
  }

  function IssueTx(wallet: Wallet): Tx {
    Tx(Issue(wallet, "TOK", 1), [], [Token(Plain(wallet), "TOK", 1)])
  }

  function LockTx(id: nat, script: Script, call: LockCall): Tx {
    Tx(Lock(script, "TOK", 1, call), [id], [Token(Locked(script), "TOK", 1)])
  }

  lemma SubmitOne(H: Bytes -> Bytes, t: TmsId, run: Run, l: Ledger, clock: nat, n: nat, tx: Tx)
    requires Exec(H, InitialWorld({t}), run) == OneWorld(t, l, clock, n)
    requires CanPrepare(OneWorld(t, l, clock, n), tx) && Valid(H, l, tx, clock) && !tx.action.Claim?
    ensures Exec(H, InitialWorld({t}), Submit(run, t, tx, n)) == OneWorld(t, Apply(l, tx, clock), clock, n + 1)
  {
    SubmitEffect(H, InitialWorld({t}), run, OneWorld(t, l, clock, n), t, tx);
    assert Submitted(OneWorld(t, l, clock, n), t, tx) == OneWorld(t, Apply(l, tx, clock), clock, n + 1);
  }

  lemma LockTxIsValid(H: Bytes -> Bytes, l: Ledger, id: nat, script: Script, call: LockCall)
    requires Unspent(l, id) && l.outputs[id] == Token(Plain(script.sender), "TOK", 1) && call.at < script.deadline
    ensures Valid(H, l, LockTx(id, script, call), call.at)
  {
    assert Ids([id]) == {id};
    SumSingleton(l.outputs, id, "TOK");
  }

  lemma FundTwice(H: Bytes -> Bytes, t: TmsId, sender: Wallet) returns (run: Run, l: Ledger)
    ensures Exec(H, InitialWorld({t}), run) == OneWorld(t, l, 0, 2)
    ensures l.outputs == [Token(Plain(sender), "TOK", 1), Token(Plain(sender), "TOK", 1)] && l.spent == map[]
  {
    assert InitialWorld({t}) == OneWorld(t, EMPTY_LEDGER, 0, 0);
    assert Exec(H, InitialWorld({t}), Start) == OneWorld(t, EMPTY_LEDGER, 0, 0);
    var l1 := Apply(EMPTY_LEDGER, IssueTx(sender), 0);
    SubmitOne(H, t, Start, EMPTY_LEDGER, 0, 0, IssueTx(sender));
    l := Apply(l1, IssueTx(sender), 0);
    var r1 := Submit(Start, t, IssueTx(sender), 0);
    SubmitOne(H, t, r1, l1, 0, 1, IssueTx(sender));
    run := Submit(r1, t, IssueTx(sender), 1);
  }

  /** Locking one of the first two outputs. */
  lemma LockNext(H: Bytes -> Bytes, t: TmsId, before: Run, l: Ledger, id: nat, script: Script, call: LockCall)
    returns (run: Run, l': Ledger)
    requires Exec(H, InitialWorld({t}), before) == OneWorld(t, l, call.at, id + 2)
    requires Unspent(l, id) && l.outputs[id] == Token(Plain(script.sender), "TOK", 1)
    requires ToDeadline(call.seconds).Some? && script.deadline == call.at + call.seconds * NANOS
    ensures Exec(H, InitialWorld({t}), run) == OneWorld(t, l', call.at, id + 3)
    ensures l'.outputs == l.outputs + [Token(Locked(script), "TOK", 1)]
    ensures l'.spent.Keys == l.spent.Keys + {id}
  {
    ToDeadlineExact(call.seconds);
    LockTxIsValid(H, l, id, script, call);
    l' := Apply(l, LockTx(id, script, call), call.at);
    SubmitOne(H, t, before, l, call.at, id + 2, LockTx(id, script, call));
    run := Submit(before, t, LockTx(id, script, call), id + 2);
    assert Ids([id]) == {id};
  }

  lemma WaitOne(H: Bytes -> Bytes, t: TmsId, run: Run, l: Ledger, clock: nat, n: nat, nanos: nat)
    requires Exec(H, InitialWorld({t}), run) == OneWorld(t, l, clock, n)
    ensures Exec(H, InitialWorld({t}), Then(run, Tick(nanos))) == OneWorld(t, l, clock + nanos, n)
  {
  }

  /**
   For any sender, recipient and hash, any durations and any pause between a lock request and its repetition, there is a
   run that leaves two locks no request can ever release.
   */
  lemma RetriedLockCanGetStuck(H: Bytes -> Bytes, t: TmsId, sender: Wallet, recipient: Wallet, hash: Bytes,
                               first: nat, pause: nat, second: nat)
    requires ToDeadline(first).Some? && ToDeadline(second).Some?
    ensures exists run, x, y :: Twins(Exec(H, InitialWorld({t}), run), x, y) &&
                                BothExpired(Exec(H, InitialWorld({t}), run), x, y)
  {
    var a := Script(sender, recipient, hash, first * NANOS);
    var b := Script(sender, recipient, hash, pause + second * NANOS);
    var wait := first * NANOS + second * NANOS;
    var r0, l0 := FundTwice(H, t, sender);
    var r1, l1 := LockNext(H, t, r0, l0, 0, a, LockCall(0, first));
    WaitOne(H, t, r1, l1, 0, 3, pause);
    var r2, l2 := LockNext(H, t, Then(r1, Tick(pause)), l1, 1, b, LockCall(pause, second));
    WaitOne(H, t, r2, l2, pause, 4, wait);
    TwinsInLedger(Exec(H, InitialWorld({t}), Then(r2, Tick(wait))), t, l2, a, b);
  }

  lemma TwinsInLedger(w: World, t: TmsId, l: Ledger, a: Script, b: Script)
    requires t in w.ledgers && w.ledgers[t] == l && a.deadline <= w.clock && b.deadline <= w.clock
    requires LiveLock(l, 2) && LiveLock(l, 3) && l.outputs[2].owner == Locked(a) && l.outputs[3].owner == Locked(b)
    requires a.sender == b.sender && a.hash == b.hash
    ensures Twins(w, (t, 2), (t, 3)) && BothExpired(w, (t, 2), (t, 3))
  {
    assert 2 in LockedIds(l) && 3 in LockedIds(l);
    assert (t, 2) in LiveLocks(w) && (t, 3) in LiveLocks(w);
  }
}
