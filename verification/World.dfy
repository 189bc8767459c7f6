/**
 The world around the token services as a timed step system: one ledger per TMS, a clock, the
 transactions under way, and who knows which pre-image. Each view acts in three separate steps
 (prepare from its own wallet view, collect endorsements, order), so anything can happen in between.
 */
module Worlds {
  import opened Basics
  import opened Deadlines
  import opened Ledgers

  datatype TmsId = TmsId(network: string, channel: string, namespace: string)

  /** A transaction under way: when it was prepared, and the time at which it was validated. */
  datatype Pending = Pending(tms: TmsId, tx: Tx, preparedAt: nat, endorsedAt: Option<nat>)

  /**
   `published` are the pre-images of committed claims, `shown` those that endorsers were asked to validate. What leaks
   from endorsers is learnt by a step of its own.
   */
  datatype World = World(
    clock: nat,
    ledgers: map<TmsId, Ledger>,
    pending: map<nat, Pending>,
    nextTx: nat,
    secrets: map<Wallet, set<Bytes>>,
    published: set<Bytes>,
    shown: set<Bytes>)

  datatype Step =
    | Tick(nanos: nat)
    | Learn(wallet: Wallet, preImage: Bytes)
    | Prepare(tms: TmsId, tx: Tx)
    | Endorse(id: nat)
    | Commit(id: nat)

  /** A run is its steps, the latest outermost. */
  datatype Run = Start | Then(before: Run, step: Step)

  function InitialWorld(tmss: set<TmsId>): World {
    World(0, map t | t in tmss :: EMPTY_LEDGER, map[], 0, map[], {}, {})
  }

  function Secrets(w: World, wallet: Wallet): set<Bytes> {
    if wallet in w.secrets then w.secrets[wallet] else {}
  }

  predicate Knows(w: World, wallet: Wallet, preImage: Bytes) {
    preImage in w.published || preImage in Secrets(w, wallet)
  }

  /**
   What a wallet can put into a transaction: a lock gets its deadline from the time of the request and
   an accepted number of seconds, and a claim needs a pre-image that its wallet knows.
   */
  predicate CanPrepare(w: World, tx: Tx) {
    match tx.action
    case Lock(script, _, _, call) =>
      call.at == w.clock &&
      var duration := ToDeadline(call.seconds);
      duration.Some? && script.deadline == w.clock + duration.value
    case Claim(_, wallet, preImage) => Knows(w, wallet, preImage)
    case _ => true
  }

  /** The pre-image that a claim carries becomes known. */
  function Disclose(known: set<Bytes>, tx: Tx): set<Bytes> {
    if tx.action.Claim? then known + {tx.action.preImage} else known
  }

  function DoPrepare(w: World, tms: TmsId, tx: Tx): World {
    if tms in w.ledgers && CanPrepare(w, tx) then
      w.(pending := w.pending[w.nextTx := Pending(tms, tx, w.clock, None)], nextTx := w.nextTx + 1)
    else w
  }

  function DoEndorse(H: Bytes -> Bytes, w: World, id: nat): World {
    if id in w.pending && w.pending[id].endorsedAt.None? && w.pending[id].tms in w.ledgers then
      var p := w.pending[id];
      var asked := w.(shown := Disclose(w.shown, p.tx));
      if Valid(H, w.ledgers[p.tms], p.tx, w.clock) then
        asked.(pending := w.pending[id := p.(endorsedAt := Some(w.clock))])
      else asked
    else w
  }

  predicate Committable(w: World, id: nat) {
    id in w.pending && w.pending[id].endorsedAt.Some? && w.pending[id].tms in w.ledgers &&
    InputsUnspent(w.ledgers[w.pending[id].tms], w.pending[id].tx)
  }

  /** Ordering decides: a transaction whose inputs are still unspent takes effect, any other is dropped. */
  function DoCommit(w: World, id: nat): World {
    if Committable(w, id) then
      var p := w.pending[id];
      w.(ledgers := w.ledgers[p.tms := Apply(w.ledgers[p.tms], p.tx, w.clock)],
      pending := w.pending - {id},
      published := Disclose(w.published, p.tx))
    else if id in w.pending && w.pending[id].endorsedAt.Some? then w.(pending := w.pending - {id})
    else w
  }

  function Next(H: Bytes -> Bytes, w: World, step: Step): World {
    match step
    case Tick(nanos) => w.(clock := w.clock + nanos)
    case Learn(wallet, preImage) => w.(secrets := w.secrets[wallet := Secrets(w, wallet) + {preImage}])
    case Prepare(tms, tx) => DoPrepare(w, tms, tx)
    case Endorse(id) => DoEndorse(H, w, id)
    case Commit(id) => DoCommit(w, id)
  }

  function Exec(H: Bytes -> Bytes, w: World, run: Run): World {
    match run
    case Start => w
    case Then(before, step) => Next(H, Exec(H, w, before), step)
  }

  function Append(a: Run, b: Run): Run {
    match b
    case Start => a
    case Then(before, step) => Then(Append(a, before), step)
  }

  lemma {:induction false} ExecAppend(H: Bytes -> Bytes, w: World, a: Run, b: Run)
    ensures Exec(H, w, Append(a, b)) == Exec(H, Exec(H, w, a), b)
  {
    match b
    case Start =>
    case Then(before, _) => ExecAppend(H, w, a, before);
  }

  // ---------------------------------------------------------------------------------------------
  // One whole request: prepare, endorse, commit

  function Submit(run: Run, t: TmsId, tx: Tx, id: nat): Run {
    Then(Then(Then(run, Prepare(t, tx)), Endorse(id)), Commit(id))
  }

  /** The world after a valid transaction went through without anything in between. */
  function Submitted(w: World, t: TmsId, tx: Tx): World
    requires t in w.ledgers
  {
    w.(ledgers := w.ledgers[t := Apply(w.ledgers[t], tx, w.clock)],
    nextTx := w.nextTx + 1,
    published := Disclose(w.published, tx),
    shown := Disclose(w.shown, tx))
  }

  lemma SubmitEffect(H: Bytes -> Bytes, start: World, run: Run, w: World, t: TmsId, tx: Tx)
    requires w == Exec(H, start, run) && t in w.ledgers && w.nextTx !in w.pending
    requires CanPrepare(w, tx) && Valid(H, w.ledgers[t], tx, w.clock)
    ensures Exec(H, start, Submit(run, t, tx, w.nextTx)) == Submitted(w, t, tx)
    ensures var prepared := Then(run, Prepare(t, tx));
            var endorsed := Then(prepared, Endorse(w.nextTx));
            Exec(H, start, endorsed) ==
            w.(pending := w.pending[w.nextTx := Pending(t, tx, w.clock, Some(w.clock))], nextTx := w.nextTx + 1,
            shown := Disclose(w.shown, tx)) &&
            Exec(H, start, prepared) ==
            w.(pending := w.pending[w.nextTx := Pending(t, tx, w.clock, None)], nextTx := w.nextTx + 1)
  {
    var n := w.nextTx;
    var prepared := Exec(H, start, Then(run, Prepare(t, tx)));
    var endorsed := Exec(H, start, Then(Then(run, Prepare(t, tx)), Endorse(n)));
    assert endorsed.pending == w.pending[n := Pending(t, tx, w.clock, Some(w.clock))];
    assert endorsed.pending - {n} == w.pending;
  }

  // ---------------------------------------------------------------------------------------------
  // The invariant of every reachable world

  /** An endorsed transaction was validated at some time in the past, on outputs that still exist. */
  predicate PendingInv(H: Bytes -> Bytes, w: World, p: Pending) {
    p.tms in w.ledgers &&
    (p.tx.action.Lock? ==> p.tx.action.script.deadline == p.tx.action.call.at + p.tx.action.call.seconds * NANOS) &&
    (p.endorsedAt.Some? ==>
       p.endorsedAt.value <= w.clock && Shape(H, w.ledgers[p.tms].outputs, p.tx, p.endorsedAt.value))
  }

  ghost predicate AllPendingInv(H: Bytes -> Bytes, w: World) {
    forall n :: n in w.pending ==> n < w.nextTx && PendingInv(H, w, w.pending[n])
  }

  ghost predicate AllLedgersInv(H: Bytes -> Bytes, w: World) {
    forall t :: t in w.ledgers ==> LedgerInv(H, w.ledgers[t], w.clock)
  }

  /** A committed claim has made its pre-image public. */
  ghost predicate ClaimsPublished(w: World) {
    forall t, i :: t in w.ledgers && i in w.ledgers[t].spent && w.ledgers[t].spent[i].action.Claim? ==>
                     w.ledgers[t].spent[i].action.preImage in w.published
  }

  ghost predicate WorldInv(H: Bytes -> Bytes, w: World) {
    AllLedgersInv(H, w) && AllPendingInv(H, w) && ClaimsPublished(w)
  }

  /** Nothing that was ever committed is undone: every ledger of `later` continues that of `w`. */
  ghost predicate Continues(w: World, later: World) {
    w.ledgers.Keys == later.ledgers.Keys && w.clock <= later.clock && w.published <= later.published &&
    w.nextTx <= later.nextTx &&
    forall t :: t in w.ledgers ==> Extends(w.ledgers[t], later.ledgers[t])
  }

  lemma InitialWorldInv(H: Bytes -> Bytes, tmss: set<TmsId>)
    ensures WorldInv(H, InitialWorld(tmss))
  {
  }

  lemma ContinuesTransitive(a: World, b: World, c: World)
    requires Continues(a, b) && Continues(b, c)
    ensures Continues(a, c)
  {
    forall t | t in a.ledgers ensures Extends(a.ledgers[t], c.ledgers[t]) {
      ExtendsTransitive(a.ledgers[t], b.ledgers[t], c.ledgers[t]);
    }
  }

  lemma LaterKeepsLedgerInv(H: Bytes -> Bytes, l: Ledger, now: nat, later: nat)
    requires LedgerInv(H, l, now) && now <= later
    ensures LedgerInv(H, l, later)
  {
  }

  lemma CommitKeepsPending(H: Bytes -> Bytes, w: World, id: nat)
    requires AllPendingInv(H, w)
    ensures AllPendingInv(H, DoCommit(w, id))
  {
    if Committable(w, id) {
      var w' := DoCommit(w, id);
      var p := w.pending[id];
      var outputs := w.ledgers[p.tms].outputs;
      forall n | n in w'.pending ensures n < w'.nextTx && PendingInv(H, w', w'.pending[n]) {
        var q := w.pending[n];
        assert PendingInv(H, w, q);
        if q.tms == p.tms && q.endorsedAt.Some? {
          ShapeStable(H, outputs, p.tx.outputs, q.tx, q.endorsedAt.value);
        }
      }
    } else {
      assert forall n :: n in w.pending ==> PendingInv(H, w, w.pending[n]) &&
                                            PendingInv(H, DoCommit(w, id), w.pending[n]);
    }
  }

  lemma CommitKeepsOneLedger(H: Bytes -> Bytes, l: Ledger, p: Pending, now: nat)
    requires LedgerInv(H, l, now) && InputsUnspent(l, p.tx)
    requires p.endorsedAt.Some? && p.endorsedAt.value <= now && Shape(H, l.outputs, p.tx, p.endorsedAt.value)
    requires p.tx.action.Lock? ==> p.tx.action.script.deadline == p.tx.action.call.at + p.tx.action.call.seconds * NANOS
    ensures LedgerInv(H, Apply(l, p.tx, now), now) && Extends(l, Apply(l, p.tx, now))
  {
    ApplyKeepsInv(H, l, p.tx, p.endorsedAt.value, now);
    ApplyExtends(l, p.tx, now);
  }

  lemma CommitKeepsLedgerAt(H: Bytes -> Bytes, w: World, id: nat, t: TmsId)
    requires t in w.ledgers && LedgerInv(H, w.ledgers[t], w.clock)
    requires id in w.pending ==> PendingInv(H, w, w.pending[id])
    ensures var w' := DoCommit(w, id);
            t in w'.ledgers && LedgerInv(H, w'.ledgers[t], w.clock) && Extends(w.ledgers[t], w'.ledgers[t])
  {
    if Committable(w, id) && t == w.pending[id].tms {
      CommitKeepsOneLedger(H, w.ledgers[t], w.pending[id], w.clock);
    } else {
      assert DoCommit(w, id).ledgers[t] == w.ledgers[t];
    }
  }

  lemma CommitKeepsLedgers(H: Bytes -> Bytes, w: World, id: nat)
    requires AllLedgersInv(H, w) && AllPendingInv(H, w)
    ensures AllLedgersInv(H, DoCommit(w, id))
  {
    forall t | t in w.ledgers ensures LedgerInv(H, DoCommit(w, id).ledgers[t], w.clock) {
      CommitKeepsLedgerAt(H, w, id, t);
    }
  }

  lemma CommitContinues(H: Bytes -> Bytes, w: World, id: nat)
    requires AllLedgersInv(H, w) && AllPendingInv(H, w)
    ensures Continues(w, DoCommit(w, id))
  {
    forall t | t in w.ledgers ensures Extends(w.ledgers[t], DoCommit(w, id).ledgers[t]) {
      CommitKeepsLedgerAt(H, w, id, t);
    }
  }

  lemma QuietStepKeepsPending(H: Bytes -> Bytes, w: World, step: Step)
    requires AllPendingInv(H, w) && !step.Commit?
    ensures AllPendingInv(H, Next(H, w, step))
  {
    var w' := Next(H, w, step);
    forall n | n in w'.pending ensures n < w'.nextTx && PendingInv(H, w', w'.pending[n]) {
      if n in w.pending {
        assert PendingInv(H, w, w.pending[n]);
      } else if step.tx.action.Lock? {
        ToDeadlineExact(step.tx.action.call.seconds);
      }
    }
  }

  lemma QuietStepIsQuiet(H: Bytes -> Bytes, w: World, step: Step)
    requires !step.Commit?
    ensures var w' := Next(H, w, step); w'.ledgers == w.ledgers && w.clock <= w'.clock && Continues(w, w')
  {
  }

  lemma QuietStepKeepsLedgers(H: Bytes -> Bytes, w: World, step: Step)
    requires AllLedgersInv(H, w) && !step.Commit?
    ensures AllLedgersInv(H, Next(H, w, step))
  {
    var later := Next(H, w, step).clock;
    QuietStepIsQuiet(H, w, step);
    forall t | t in w.ledgers ensures LedgerInv(H, w.ledgers[t], later) {
      LaterKeepsLedgerInv(H, w.ledgers[t], w.clock, later);
    }
  }

  lemma StepPublishesClaims(H: Bytes -> Bytes, w: World, step: Step)
    requires ClaimsPublished(w)
    ensures ClaimsPublished(Next(H, w, step))
  {
  }

  lemma StepKeepsInv(H: Bytes -> Bytes, w: World, step: Step)
    requires WorldInv(H, w)
    ensures WorldInv(H, Next(H, w, step)) && Continues(w, Next(H, w, step))
  {
    StepPublishesClaims(H, w, step);
    if step.Commit? {
      CommitKeepsPending(H, w, step.id);
      CommitKeepsLedgers(H, w, step.id);
      CommitContinues(H, w, step.id);
    } else {
      QuietStepKeepsPending(H, w, step);
      QuietStepKeepsLedgers(H, w, step);
      QuietStepIsQuiet(H, w, step);
    }
  }

  /** Every run, whatever it interleaves, keeps the invariant and only ever adds to the past. */
  lemma {:induction false} RunKeepsInv(H: Bytes -> Bytes, w: World, run: Run)
    requires WorldInv(H, w)
    ensures WorldInv(H, Exec(H, w, run)) && Continues(w, Exec(H, w, run))
  {
    match run
    case Start =>
    case Then(before, step) =>
      RunKeepsInv(H, w, before);
      StepKeepsInv(H, Exec(H, w, before), step);
      ContinuesTransitive(w, Exec(H, w, before), Exec(H, w, run));
  }

  /** The facts about one spent lock that the invariant holds. */
  lemma SpentLockFacts(H: Bytes -> Bytes, w: World, t: TmsId, id: nat)
    requires WorldInv(H, w) && t in w.ledgers && id in w.ledgers[t].spent
    ensures var l := w.ledgers[t];
            id < |l.outputs| && l.spent[id].at <= w.clock &&
            (l.outputs[id].owner.Locked? ==> SettledProperly(H, l, id)) &&
            (l.spent[id].action.Claim? ==> l.spent[id].action.preImage in w.published)
  {
    assert LedgerInv(H, w.ledgers[t], w.clock);
  }

  lemma SpentOnceInLog(H: Bytes -> Bytes, w: World, t: TmsId, id: nat, j: nat, k: nat)
    requires WorldInv(H, w) && t in w.ledgers && j < k < |w.ledgers[t].log|
    ensures !(id in w.ledgers[t].log[j].inputs && id in w.ledgers[t].log[k].inputs)
  {
    assert LogAgrees(w.ledgers[t]);
    var a, b := Ids(w.ledgers[t].log[j].inputs), Ids(w.ledgers[t].log[k].inputs);
    assert a !! b;
    assert !(id in a && id in b);
  }

  lemma LaterFacts(H: Bytes -> Bytes, w: World, run: Run, t: TmsId)
    requires WorldInv(H, w) && t in w.ledgers
    ensures WorldInv(H, Exec(H, w, run))
    ensures t in Exec(H, w, run).ledgers && Extends(w.ledgers[t], Exec(H, w, run).ledgers[t])
  {
    RunKeepsInv(H, w, run);
  }

  lemma PendingFacts(H: Bytes -> Bytes, w: World, id: nat)
    requires WorldInv(H, w) && id in w.pending
    ensures id < w.nextTx && PendingInv(H, w, w.pending[id])
  {
  }

  /** The invariant and the past of every reachable world. */
  lemma Reachable(H: Bytes -> Bytes, tmss: set<TmsId>, run: Run)
    ensures WorldInv(H, Exec(H, InitialWorld(tmss), run))
    ensures Exec(H, InitialWorld(tmss), run).ledgers.Keys == tmss
  {
    InitialWorldInv(H, tmss);
    RunKeepsInv(H, InitialWorld(tmss), run);
  }

  // ---------------------------------------------------------------------------------------------
  // Main results about every run

  /** Conservation, per ledger and token code, in every reachable world. */
  lemma ConservationInEveryRun(H: Bytes -> Bytes, tmss: set<TmsId>, run: Run, t: TmsId, code: Code)
    requires t in tmss
    ensures var w := Exec(H, InitialWorld(tmss), run);
            t in w.ledgers &&
            var l := w.ledgers[t];
            Sum(l.outputs, SpendableIds(l), code) + Sum(l.outputs, LockedIds(l), code)
            == Issued(l.log, code) - Redeemed(l.log, code)
  {
    InitialWorldInv(H, tmss);
    RunKeepsInv(H, InitialWorld(tmss), run);
    var l := Exec(H, InitialWorld(tmss), run).ledgers[t];
    assert Conserved(l, code);
  }

  /** A step touches at most one ledger, and only a commit touches any. */
  lemma StepTouchesOneLedger(H: Bytes -> Bytes, w: World, step: Step, a: TmsId, b: TmsId)
    requires a in w.ledgers && b in w.ledgers && a != b
    ensures var w' := Next(H, w, step);
            a in w'.ledgers && b in w'.ledgers &&
            (w'.ledgers[a] == w.ledgers[a] || w'.ledgers[b] == w.ledgers[b]) &&
            (!step.Commit? ==> w'.ledgers == w.ledgers)
  {
  }

  /**
   However many claims and reclaims were prepared and endorsed against stale views, and in whatever order
   they are committed: at most one committed transaction ever consumes a lock, it is a claim by the
   recipient with a matching pre-image or a reclaim by the sender after the deadline, and this is final.
   */
  lemma LocksSettleOnce(H: Bytes -> Bytes, tmss: set<TmsId>, run: Run, more: Run, t: TmsId, id: nat)
    requires t in tmss
    requires var l := Exec(H, InitialWorld(tmss), run).ledgers;
             t in l && id < |l[t].outputs| && l[t].outputs[id].owner.Locked?
    ensures var l, later := Exec(H, InitialWorld(tmss), run).ledgers[t],
                            Exec(H, InitialWorld(tmss), Append(run, more)).ledgers;
            t in later && id < |later[t].outputs| && later[t].outputs[id] == l.outputs[id] &&
            (forall j, k :: 0 <= j < k < |later[t].log| ==>
                              !(id in later[t].log[j].inputs && id in later[t].log[k].inputs)) &&
            (id in later[t].spent ==> SettledProperly(H, later[t], id)) &&
            (id in l.spent ==> id in later[t].spent && later[t].spent[id] == l.spent[id])
  {
    var w := Exec(H, InitialWorld(tmss), run);
    Reachable(H, tmss, run);
    LaterFacts(H, w, more, t);
    ExecAppend(H, InitialWorld(tmss), run, more);
    var later := Exec(H, w, more);
    if id in later.ledgers[t].spent { SpentLockFacts(H, later, t, id); }
    forall j, k | 0 <= j < k < |later.ledgers[t].log|
      ensures !(id in later.ledgers[t].log[j].inputs && id in later.ledgers[t].log[k].inputs)
    {
      SpentOnceInLog(H, later, t, id, j, k);
    }
  }
}
