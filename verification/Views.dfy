/**
 The views of the owner and issuer services as they run on a shared network: each prepares a transaction from
 what it sees, collects endorsements and has it ordered, and others act in between.
 */
module Views {
  import opened Accounting
  import opened Basics
  import opened Deadlines
  import opened HtlcWallets
  import opened Ledgers
  import opened LockChecks
  import opened Worlds

  datatype ViewError =
    | WalletNotFound
    | BadRequest
    | NotExactlyOne(count: nat)
    | InsufficientFunds
    | NotAccepted
    | NotEndorsed
    | NotCommitted

  /** A lock request's answer; the pre-image is there only if the node generated it. */
  datatype LockResult = LockResult(txId: nat, preImage: Option<Bytes>, hash: Bytes)

  ghost predicate Follows(H: Bytes -> Bytes, a: World, b: World) {
    exists run :: b == Exec(H, a, run)
  }

  /** The run leaves transaction `id` to its own view. */
  predicate Avoids(run: Run, id: nat) {
    match run
    case Start => true
    case Then(before, step) => Avoids(before, id) && step != Endorse(id) && step != Commit(id)
  }

  /** Transaction `id` has no effect in the run from `w`: when ordered, it is dropped. */
  predicate NeverTakesEffect(H: Bytes -> Bytes, w: World, run: Run, id: nat) {
    match run
    case Start => true
    case Then(before, step) =>
      NeverTakesEffect(H, w, before, id) && (step == Commit(id) ==> !Committable(Exec(H, w, before), id))
  }

  lemma {:induction false} NoEffectAppend(H: Bytes -> Bytes, w: World, a: Run, b: Run, id: nat)
    requires NeverTakesEffect(H, w, a, id) && Avoids(b, id)
    ensures NeverTakesEffect(H, w, Append(a, b), id)
  {
    match b
    case Start =>
    case Then(before, _) => NoEffectAppend(H, w, a, before, id);
  }

  /** What became of `w0` after a view prepared `tx` on it is what others did: its own transaction had no effect. */
  ghost predicate OwnAbsent(H: Bytes -> Bytes, w0: World, w: World, t: TmsId, tx: Tx) {
    t in w0.ledgers && CanPrepare(w0, tx) &&
    var prepared := DoPrepare(w0, t, tx);
    exists run :: w == Exec(H, prepared, run) && NeverTakesEffect(H, prepared, run, w0.nextTx)
  }

  lemma {:induction false} NothingHappensAlone(H: Bytes -> Bytes, w: World, run: Run, id: nat)
    requires w.pending.Keys == {id} && NeverTakesEffect(H, w, run, id)
    ensures w.nextTx <= Exec(H, w, run).nextTx
    ensures Exec(H, w, run).nextTx == w.nextTx ==>
              Exec(H, w, run).ledgers == w.ledgers && Exec(H, w, run).pending.Keys <= {id}
  {
    match run
    case Start =>
    case Then(before, _) => NothingHappensAlone(H, w, before, id);
  }

  /** The effect of one's own transaction shows: where nothing else is under way, it cannot pass for absent. */
  lemma OwnEffectShows(H: Bytes -> Bytes, w0: World, t: TmsId, tx: Tx)
    requires t in w0.ledgers && w0.pending == map[]
    ensures !OwnAbsent(H, w0, Submitted(w0, t, tx), t, tx)
  {
    assert |Submitted(w0, t, tx).ledgers[t].log| == |w0.ledgers[t].log| + 1;
    if OwnAbsent(H, w0, Submitted(w0, t, tx), t, tx) {
      var prepared := DoPrepare(w0, t, tx);
      var run :| Submitted(w0, t, tx) == Exec(H, prepared, run) && NeverTakesEffect(H, prepared, run, w0.nextTx);
      NothingHappensAlone(H, prepared, run, w0.nextTx);
    }
  }

  lemma FollowsTransitive(H: Bytes -> Bytes, a: World, b: World, c: World)
    requires Follows(H, a, b) && Follows(H, b, c)
    ensures Follows(H, a, c)
  {
    var first :| b == Exec(H, a, first);
    var second :| c == Exec(H, b, second);
    ExecAppend(H, a, first, second);
  }

  lemma FollowsStep(H: Bytes -> Bytes, a: World, b: World, step: Step)
    requires Follows(H, a, b)
    ensures Follows(H, a, Next(H, b, step))
  {
    var run :| b == Exec(H, a, run);
    assert Next(H, b, step) == Exec(H, a, Then(run, step));
  }

  lemma FollowsInv(H: Bytes -> Bytes, a: World, b: World)
    requires WorldInv(H, a) && Follows(H, a, b)
    ensures WorldInv(H, b) && Continues(a, b)
  {
    var run :| b == Exec(H, a, run);
    RunKeepsInv(H, a, run);
  }

  lemma FollowsNothing(H: Bytes -> Bytes, a: World)
    ensures Follows(H, a, a)
  {
    assert a == Exec(H, a, Start);
  }

  lemma {:induction false} AvoidedStays(H: Bytes -> Bytes, w: World, run: Run, id: nat)
    requires Avoids(run, id) && id in w.pending && id < w.nextTx
    ensures var w' := Exec(H, w, run);
            id in w'.pending && w'.pending[id] == w.pending[id] && id < w'.nextTx && w.clock <= w'.clock
  {
    match run
    case Start =>
    case Then(before, _) => AvoidedStays(H, w, before, id);
  }

  /** The ledger, clock and pool that every node acts on. */
  class Network {
    const hash: Bytes -> Bytes
    var world: World

    constructor (hash: Bytes -> Bytes, tmss: set<TmsId>)
      ensures this.hash == hash && world == InitialWorld(tmss) && WorldInv(hash, world)
    {
      this.hash := hash;
      world := InitialWorld(tmss);
      InitialWorldInv(hash, tmss);
    }

    /** Time passes and other nodes act, in any way that leaves our transaction alone. Callers know no more. */
    method Interleave(id: nat)
      modifies this
      ensures exists run :: Avoids(run, id) && world == Exec(hash, old(world), run)
    {
      assert Avoids(Start, id) && world == Exec(hash, world, Start);
    }

    /** A pause, in which others may do anything. */
    method Sleep()
      modifies this
      ensures Follows(hash, old(world), world)
    {
      FollowsNothing(hash, world);
    }

    method Learn(wallet: Wallet, preImage: Bytes)
      modifies this
      ensures world == Next(hash, old(world), Step.Learn(wallet, preImage))
    {
      world := world.(secrets := world.secrets[wallet := Secrets(world, wallet) + {preImage}]);
    }

    /** Learning alone, with all that callers need of it. */
    method LearnAlone(wallet: Wallet, preImage: Bytes)
      requires WorldInv(hash, world)
      modifies this
      ensures world == Next(hash, old(world), Step.Learn(wallet, preImage))
      ensures world.ledgers == old(world).ledgers && world.clock == old(world).clock
      ensures WorldInv(hash, world) && Follows(hash, old(world), world) && Knows(world, wallet, preImage)
    {
      LearnFirst(hash, world, wallet, preImage);
      Learn(wallet, preImage);
    }

    method NewTransaction(t: TmsId, tx: Tx) returns (id: nat)
      requires t in world.ledgers && CanPrepare(world, tx)
      modifies this
      ensures id == old(world).nextTx && world == DoPrepare(old(world), t, tx)
    {
      id := world.nextTx;
      world := world.(pending := world.pending[id := Pending(t, tx, world.clock, None)], nextTx := id + 1);
    }

    /** The recipient of a lock signs first, then the endorsers validate; a valid lock is never turned down. */
    method CollectEndorsements(id: nat) returns (ok: bool)
      requires id in world.pending && world.pending[id].endorsedAt.None? && world.pending[id].tms in world.ledgers
      modifies this
      ensures world == DoEndorse(hash, old(world), id)
      ensures ok <==> var p := old(world).pending[id]; Valid(hash, old(world).ledgers[p.tms], p.tx, old(world).clock)
    {
      var p := world.pending[id];
      var accepted := true;
      if p.tx.action.Lock? {
        var script := p.tx.action.script;
        var answer := AcceptLock(p.tx.outputs, script.recipient, script.sender, world.clock);
        accepted := answer.Ok?;
        if Valid(hash, world.ledgers[p.tms], p.tx, world.clock) {
          LockIsAcceptable(hash, world.ledgers[p.tms].outputs, p.tx, world.clock, world.clock);
        }
      }
      ok := accepted && Valid(hash, world.ledgers[p.tms], p.tx, world.clock);
      world := world.(shown := Disclose(world.shown, p.tx));
      if ok {
        world := world.(pending := world.pending[id := p.(endorsedAt := Some(world.clock))]);
      }
    }

    method OrderAndFinality(id: nat) returns (ok: bool)
      requires id in world.pending && world.pending[id].endorsedAt.Some? && world.pending[id].tms in world.ledgers
      modifies this
      ensures world == DoCommit(old(world), id) && (ok <==> Committable(old(world), id))
    {
      var p := world.pending[id];
      ok := InputsUnspent(world.ledgers[p.tms], p.tx);
      if ok {
        world := world.(ledgers := world.ledgers[p.tms := Apply(world.ledgers[p.tms], p.tx, world.clock)],
        published := Disclose(world.published, p.tx));
      }
      world := world.(pending := world.pending - {id});
    }

    /** From the wallet's view to an endorsed transaction; on refusal the world is as the endorsers saw it. */
    method PrepareAndEndorse(t: TmsId, tx: Tx) returns (id: nat, ok: bool, ghost rest: Run)
      requires t in world.ledgers && CanPrepare(world, tx)
      modifies this
      ensures world == Exec(hash, DoPrepare(old(world), t, tx), rest) && t in world.ledgers
      ensures id == old(world).nextTx && NeverTakesEffect(hash, DoPrepare(old(world), t, tx), rest, id)
      ensures ok ==> id < world.nextTx && IsEndorsed(world, id, t, tx, world.clock)
      ensures !ok ==> !Valid(hash, world.ledgers[t], tx, world.clock)
    {
      id := NewTransaction(t, tx);
      ghost var prepared := world;
      Interleave(id);
      ghost var others :| Avoids(others, id) && world == Exec(hash, prepared, others);
      AvoidedStays(hash, prepared, others, id);
      StillThere(hash, prepared, others, t);
      ok := CollectEndorsements(id);
      AvoidedHasNoEffect(hash, prepared, others, id);
      rest := Then(others, Endorse(id));
    }

    /** From an endorsed transaction to its finality: it takes effect unless an input was spent meanwhile. */
    method Order(t: TmsId, id: nat) returns (ok: bool, ghost run: Run)
      requires id in world.pending && id < world.nextTx && world.pending[id].endorsedAt.Some? &&
               world.pending[id].tms == t
      requires t in world.ledgers
      modifies this
      ensures var ready := Exec(hash, old(world), run);
              id in ready.pending && ready.pending[id] == old(world).pending[id] &&
              world == DoCommit(ready, id) && (ok <==> Committable(ready, id))
      ensures Avoids(run, id)
    {
      ghost var endorsed := world;
      Interleave(id);
      run :| Avoids(run, id) && world == Exec(hash, endorsed, run);
      AvoidedStays(hash, endorsed, run, id);
      StillThere(hash, endorsed, run, t);
      ok := OrderAndFinality(id);
    }

    /**
     The common course of all views: `base` is the ledger on which the outcome was decided, `e` the time at which
     the transaction was validated.
     */
    method Submit(t: TmsId, tx: Tx) returns (r: Result<nat, ViewError>, ghost base: Ledger, ghost e: nat)
      requires WorldInv(hash, world) && t in world.ledgers && CanPrepare(world, tx)
      modifies this
      ensures Follows(hash, old(world), world)
      ensures Outcome(hash, old(world), world, t, tx, r, base, e)
      ensures r.Err? ==> OwnAbsent(hash, old(world), world, t, tx)
      ensures r.Ok? ==> r.value == old(world).nextTx
    {
      ghost var start := world;
      ghost var rest, second;
      var id, ok;
      id, ok, rest := PrepareAndEndorse(t, tx);
      ghost var first := Append(Then(Start, Step.Prepare(t, tx)), rest);
      FirstHalf(hash, start, t, tx, rest);
      base, e := world.ledgers[t], world.clock;
      if !ok {
        RefusedByEndorsers(hash, start, t, tx, id, first);
        return Err(NotEndorsed), base, e;
      }
      ghost var endorsed := world;
      Later(hash, start, t, first);
      ok, second := Order(t, id);
      SecondHalf(hash, start, endorsed, first, second, t, tx, id);
      if !ok { DroppedIsAbsent(hash, start, endorsed, rest, second, t, tx); }
      base := Exec(hash, endorsed, second).ledgers[t];
      r := if ok then Ok(id) else Err(NotCommitted);
    }
  }

  lemma {:induction false} AvoidedHasNoEffect(H: Bytes -> Bytes, w: World, run: Run, id: nat)
    requires Avoids(run, id)
    ensures NeverTakesEffect(H, w, run, id)
  {
    match run
    case Start =>
    case Then(before, _) => AvoidedHasNoEffect(H, w, before, id);
  }

  /** Transaction `id` is under way, validated at time `e`. */
  predicate IsEndorsed(w: World, id: nat, t: TmsId, tx: Tx, e: nat) {
    id in w.pending && w.pending[id].tms == t && w.pending[id].tx == tx && w.pending[id].endorsedAt == Some(e)
  }

  lemma DroppedIsAbsent(H: Bytes -> Bytes, w0: World, endorsed: World, rest: Run, second: Run, t: TmsId, tx: Tx)
    requires t in w0.ledgers && CanPrepare(w0, tx) && endorsed == Exec(H, DoPrepare(w0, t, tx), rest)
    requires NeverTakesEffect(H, DoPrepare(w0, t, tx), rest, w0.nextTx) && Avoids(second, w0.nextTx)
    requires !Committable(Exec(H, endorsed, second), w0.nextTx)
    ensures OwnAbsent(H, w0, DoCommit(Exec(H, endorsed, second), w0.nextTx), t, tx)
  {
    var prepared := DoPrepare(w0, t, tx);
    ExecAppend(H, prepared, rest, second);
    NoEffectAppend(H, prepared, rest, second, w0.nextTx);
    var run := Then(Append(rest, second), Commit(w0.nextTx));
    assert NeverTakesEffect(H, prepared, run, w0.nextTx);
    assert Exec(H, prepared, run) == DoCommit(Exec(H, endorsed, second), w0.nextTx);
  }

  lemma SecondHalf(H: Bytes -> Bytes, w0: World, endorsed: World, first: Run, second: Run, t: TmsId, tx: Tx, id: nat)
    requires WorldInv(H, w0) && t in w0.ledgers && endorsed == Exec(H, w0, first) && w0.clock <= endorsed.clock
    requires var ready := Exec(H, endorsed, second);
             IsEndorsed(ready, id, t, tx, endorsed.clock)
    ensures var ready := Exec(H, endorsed, second);
            t in ready.ledgers && Follows(H, w0, DoCommit(ready, id)) &&
            Outcome(H, w0, DoCommit(ready, id), t, tx,
                    if Committable(ready, id) then Ok(id) else Err(NotCommitted), ready.ledgers[t], endorsed.clock)
  {
    ExecAppend(H, w0, first, second);
    Decided(H, w0, t, tx, id, Append(first, second), endorsed.clock);
    assert DoCommit(Exec(H, endorsed, second), id) == Exec(H, w0, Then(Append(first, second), Commit(id)));
  }

  /** How a transaction that a view submitted on `w0` fared by `w`. */
  ghost predicate Outcome(H: Bytes -> Bytes, w0: World, w: World, t: TmsId, tx: Tx, r: Result<nat, ViewError>,
                          base: Ledger, e: nat) {
    t in w0.ledgers && t in w.ledgers && Extends(w0.ledgers[t], base) && w0.clock <= e <= w.clock &&
    match r
    case Ok(_) =>
      InputsUnspent(base, tx) && Shape(H, base.outputs, tx, e) &&
      (forall i :: i in base.spent ==> i < |base.outputs|) &&
      w.ledgers[t] == Apply(base, tx, w.clock) && (tx.action.Claim? ==> tx.action.preImage in w.published)
    case Err(NotEndorsed) => w.ledgers[t] == base && e == w.clock && !Valid(H, base, tx, e)
    case Err(NotCommitted) => w.ledgers[t] == base && !InputsUnspent(base, tx)
    case Err(_) => false
  }

  lemma {:induction false} StillThere(H: Bytes -> Bytes, w: World, run: Run, t: TmsId)
    requires t in w.ledgers
    ensures t in Exec(H, w, run).ledgers
  {
    match run
    case Start =>
    case Then(before, _) => StillThere(H, w, before, t);
  }

  lemma FirstHalf(H: Bytes -> Bytes, w: World, t: TmsId, tx: Tx, rest: Run)
    ensures Exec(H, w, Append(Then(Start, Step.Prepare(t, tx)), rest)) == Exec(H, DoPrepare(w, t, tx), rest)
  {
    assert Exec(H, w, Start) == w;
    assert Exec(H, w, Then(Start, Step.Prepare(t, tx))) == DoPrepare(w, t, tx);
    ExecAppend(H, w, Then(Start, Step.Prepare(t, tx)), rest);
  }

  lemma Later(H: Bytes -> Bytes, w: World, t: TmsId, run: Run)
    requires WorldInv(H, w) && t in w.ledgers
    ensures var w' := Exec(H, w, run);
            t in w'.ledgers && Extends(w.ledgers[t], w'.ledgers[t]) && w.clock <= w'.clock &&
            (forall i :: i in w'.ledgers[t].spent ==> i < |w'.ledgers[t].outputs|)
  {
    RunKeepsInv(H, w, run);
    OutputsInRange(H, Exec(H, w, run), t);
  }

  lemma RefusedByEndorsers(H: Bytes -> Bytes, w0: World, t: TmsId, tx: Tx, id: nat, run: Run)
    requires WorldInv(H, w0) && t in w0.ledgers
    requires var w := Exec(H, w0, run); t in w.ledgers && !Valid(H, w.ledgers[t], tx, w.clock)
    ensures var w := Exec(H, w0, run);
            Outcome(H, w0, w, t, tx, Err(NotEndorsed), w.ledgers[t], w.clock) && Follows(H, w0, w)
  {
    Later(H, w0, t, run);
  }

  lemma PendingShape(H: Bytes -> Bytes, w0: World, run: Run, id: nat)
    requires WorldInv(H, w0)
    requires var w := Exec(H, w0, run); id in w.pending && w.pending[id].endorsedAt.Some?
    ensures var w := Exec(H, w0, run);
            var p := w.pending[id];
            p.tms in w.ledgers && p.endorsedAt.value <= w.clock &&
            Shape(H, w.ledgers[p.tms].outputs, p.tx, p.endorsedAt.value)
  {
    RunKeepsInv(H, w0, run);
    PendingFacts(H, Exec(H, w0, run), id);
  }

  lemma Decided(H: Bytes -> Bytes, w0: World, t: TmsId, tx: Tx, id: nat, run: Run, e: nat)
    requires WorldInv(H, w0) && t in w0.ledgers && w0.clock <= e
    requires var w := Exec(H, w0, run); IsEndorsed(w, id, t, tx, e)
    ensures var w := Exec(H, w0, run);
            t in w.ledgers &&
            Outcome(H, w0, DoCommit(w, id), t, tx, if Committable(w, id) then Ok(id) else Err(NotCommitted),
                    w.ledgers[t], e)
  {
    Later(H, w0, t, run);
    PendingShape(H, w0, run, id);
  }

  lemma OutputsInRange(H: Bytes -> Bytes, w: World, t: TmsId)
    requires WorldInv(H, w) && t in w.ledgers
    ensures forall i :: i in w.ledgers[t].spent ==> i < |w.ledgers[t].outputs|
  {
    assert LedgerInv(H, w.ledgers[t], w.clock);
  }

  /** `l` is `base` with one more transaction, of the given kind, and `base` continues `l0`. */
  ghost predicate AddsOne(l0: Ledger, base: Ledger, l: Ledger, action: Action, now: nat) {
    Extends(l0, base) && exists tx: Tx :: tx.action == action && l == Apply(base, tx, now)
  }

  /** How a claim of lock `id`, seen by its view in ledger `l0`, ended. */
  ghost predicate ClaimOutcome(w: World, t: TmsId, l0: Ledger, id: nat, wallet: Wallet, preImage: Bytes,
                               r: Result<nat, ViewError>, base: Ledger) {
    t in w.ledgers && id < |l0.outputs| && id < |w.ledgers[t].outputs| && w.ledgers[t].outputs[id].owner.Locked? &&
    var l := w.ledgers[t];
    match r
    case Ok(_) =>
      Extends(l0, base) && LiveLock(base, id) && l == Apply(base, ClaimTx(l0, id, wallet, preImage), w.clock) &&
      id in l.spent && l.spent[id] == Spend(Claim(id, wallet, preImage), w.clock) && preImage in w.published &&
      WalletBalance(l, wallet, l0.outputs[id].code)
      == WalletBalance(base, wallet, l0.outputs[id].code) + l0.outputs[id].quantity
    case Err(NotEndorsed) => id in l.spent || l.outputs[id].owner.script.deadline <= w.clock
    case Err(NotCommitted) => id in l.spent
    case Err(_) => false
  }

  lemma ClaimDecided(H: Bytes -> Bytes, w0: World, w: World, t: TmsId, id: nat, wallet: Wallet, preImage: Bytes,
                     r: Result<nat, ViewError>, base: Ledger, e: nat)
    requires t in w0.ledgers && id in ListByPreImage(H, w0.ledgers[t], wallet, preImage, w0.clock)
    requires Outcome(H, w0, w, t, ClaimTx(w0.ledgers[t], id, wallet, preImage), r, base, e)
    ensures ClaimOutcome(w, t, w0.ledgers[t], id, wallet, preImage, r, base)
  {
    var l0 := w0.ledgers[t];
    var tx := ClaimTx(l0, id, wallet, preImage);
    assert base.outputs[id] == l0.outputs[id];
    if r.Ok? {
      assert id in Ids(tx.inputs);
      CreditBalances(H, base, tx, e, w.clock, wallet, l0.outputs[id].code);
    }
  }

  /** How a reclaim of lock `id`, seen by its view in ledger `l0`, ended. */
  ghost predicate ReclaimOutcome(w: World, t: TmsId, l0: Ledger, id: nat, wallet: Wallet,
                                 r: Result<nat, ViewError>, base: Ledger) {
    t in w.ledgers && id < |l0.outputs| &&
    var l := w.ledgers[t];
    match r
    case Ok(_) =>
      Extends(l0, base) && LiveLock(base, id) && l == Apply(base, ReclaimTx(l0, id, wallet), w.clock) &&
      id in l.spent && l.spent[id] == Spend(Reclaim(id, wallet), w.clock) &&
      WalletBalance(l, wallet, l0.outputs[id].code)
      == WalletBalance(base, wallet, l0.outputs[id].code) + l0.outputs[id].quantity
    case Err(error) => (error == NotEndorsed || error == NotCommitted) && id in l.spent
  }

  lemma ReclaimDecided(H: Bytes -> Bytes, w0: World, w: World, t: TmsId, id: nat, wallet: Wallet, hash: Bytes,
                       r: Result<nat, ViewError>, base: Ledger, e: nat)
    requires t in w0.ledgers && id in ExpiredByHash(w0.ledgers[t], wallet, hash, w0.clock)
    requires Outcome(H, w0, w, t, ReclaimTx(w0.ledgers[t], id, wallet), r, base, e)
    ensures ReclaimOutcome(w, t, w0.ledgers[t], id, wallet, r, base)
  {
    var l0 := w0.ledgers[t];
    var tx := ReclaimTx(l0, id, wallet);
    assert base.outputs[id] == l0.outputs[id];
    if r.Ok? {
      assert id in Ids(tx.inputs);
      CreditBalances(H, base, tx, e, w.clock, wallet, l0.outputs[id].code);
    }
  }

  /** The transaction had no effect, and somebody else has spent one of its inputs. */
  ghost predicate LostInput(H: Bytes -> Bytes, w0: World, w: World, t: TmsId, tx: Tx) {
    OwnAbsent(H, w0, w, t, tx) && t in w.ledgers && exists i :: i in tx.inputs && i in w.ledgers[t].spent
  }

  /** How a lock request fails after submission: an input is lost, or validation comes too late. */
  ghost predicate LockFailed(H: Bytes -> Bytes, w0: World, w: World, t: TmsId, tx: Tx, error: ViewError) {
    OwnAbsent(H, w0, w, t, tx) && tx.action.Lock? &&
    (LostInput(H, w0, w, t, tx) || (error == NotEndorsed && tx.action.script.deadline <= w.clock))
  }

  /** A payment that was valid when prepared can only fail because somebody else spent one of its inputs. */
  lemma PaymentFails(H: Bytes -> Bytes, w0: World, w: World, t: TmsId, tx: Tx, r: Result<nat, ViewError>,
                     base: Ledger, e: nat)
    requires tx.action.Transfer? || tx.action.Redeem? || tx.action.Lock?
    requires Outcome(H, w0, w, t, tx, r, base, e) && r.Err? && Shape(H, w0.ledgers[t].outputs, tx, w0.clock)
    requires OwnAbsent(H, w0, w, t, tx)
    ensures r.error == NotEndorsed || r.error == NotCommitted
    ensures if tx.action.Lock? then LockFailed(H, w0, w, t, tx, r.error) else LostInput(H, w0, w, t, tx)
  {
    var l0 := w0.ledgers[t];
    assert base.outputs == l0.outputs + base.outputs[|l0.outputs|..];
    ShapeStable(H, l0.outputs, base.outputs[|l0.outputs|..], tx, w0.clock);
    if Shape(H, base.outputs, tx, e) {
      var i :| i in tx.inputs && !Unspent(base, i);
      assert i < |base.outputs|;
    }
  }

  /** An issue is valid always and spends nothing. */
  lemma IssueNeverFails(H: Bytes -> Bytes, w0: World, w: World, t: TmsId, tx: Tx, r: Result<nat, ViewError>,
                        base: Ledger, e: nat)
    requires tx.action.Issue? && Outcome(H, w0, w, t, tx, r, base, e) && Shape(H, w0.ledgers[t].outputs, tx, w0.clock)
    ensures r.Ok?
  {
  }

  /** What the selector of the SDK may answer: enough unspent tokens of the wallet,
      or none when there are not enough. */
  predicate Selection(l: Ledger, wallet: Wallet, code: Code, quantity: nat, selected: Option<seq<nat>>) {
    match selected
    case None => WalletBalance(l, wallet, code) < quantity
    case Some(inputs) => Covers(l, inputs, wallet, code, quantity)
  }

  function LockTransaction(l: Ledger, script: Script, code: Code, quantity: nat, call: LockCall, inputs: seq<nat>): Tx
    requires quantity <= Sum(l.outputs, Ids(inputs), code)
  {
    Tx(Action.Lock(script, code, quantity, call), inputs,
       [Token(Locked(script), code, quantity)]
       + Change(script.sender, code, Sum(l.outputs, Ids(inputs), code) - quantity))
  }

  function TransferTransaction(l: Ledger, sender: Wallet, recipient: Wallet, code: Code, quantity: nat,
                               inputs: seq<nat>): Tx
    requires quantity <= Sum(l.outputs, Ids(inputs), code)
  {
    Tx(Action.Transfer(sender, recipient, code, quantity), inputs,
       [Token(Plain(recipient), code, quantity)]
       + Change(sender, code, Sum(l.outputs, Ids(inputs), code) - quantity))
  }

  function RedeemTransaction(l: Ledger, sender: Wallet, code: Code, quantity: nat, inputs: seq<nat>): Tx
    requires quantity <= Sum(l.outputs, Ids(inputs), code)
  {
    Tx(Action.Redeem(sender, code, quantity), inputs, Change(sender, code, Sum(l.outputs, Ids(inputs),
                                                                               code) - quantity))
  }

  lemma TransferShape(H: Bytes -> Bytes, l: Ledger, sender: Wallet, recipient: Wallet, code: Code, quantity: nat,
                      inputs: seq<nat>, now: nat)
    requires Covers(l, inputs, sender, code, quantity)
    ensures Shape(H, l.outputs, TransferTransaction(l, sender, recipient, code, quantity, inputs), now)
  {
  }

  lemma RedeemShape(H: Bytes -> Bytes, l: Ledger, sender: Wallet, code: Code, quantity: nat, inputs: seq<nat>, now: nat)
    requires Covers(l, inputs, sender, code, quantity)
    ensures Shape(H, l.outputs, RedeemTransaction(l, sender, code, quantity, inputs), now)
  {
  }

  lemma LockShape(H: Bytes -> Bytes, l: Ledger, script: Script, code: Code, quantity: nat, call: LockCall,
                  inputs: seq<nat>, now: nat)
    requires Covers(l, inputs, script.sender, code, quantity) && now < script.deadline
    ensures Shape(H, l.outputs, LockTransaction(l, script, code, quantity, call, inputs), now)
  {
  }

  /** Every balance after a transfer, in terms of the ledger just before it took effect. */
  ghost predicate TransferOutcome(l0: Ledger, w: World, t: TmsId, sender: Wallet, recipient: Wallet, code: Code,
                                  quantity: nat, base: Ledger) {
    t in w.ledgers && AddsOne(l0, base, w.ledgers[t], Action.Transfer(sender, recipient, code, quantity), w.clock) &&
    forall x, c :: WalletBalance(w.ledgers[t], x, c) ==
                   WalletBalance(base, x, c) - Delta(x == sender && c == code, quantity)
                   + Delta(x == recipient && c == code, quantity)
  }

  ghost predicate RedeemOutcome(l0: Ledger, w: World, t: TmsId, sender: Wallet, code: Code, quantity: nat,
                                base: Ledger) {
    t in w.ledgers && AddsOne(l0, base, w.ledgers[t], Action.Redeem(sender, code, quantity), w.clock) &&
    Redeemed(w.ledgers[t].log, code) == Redeemed(base.log, code) + quantity &&
    forall x, c :: WalletBalance(w.ledgers[t], x, c) ==
                   WalletBalance(base, x, c) - Delta(x == sender && c == code, quantity)
  }

  ghost predicate IssueOutcome(l0: Ledger, w: World, t: TmsId, recipient: Wallet, code: Code, quantity: nat,
                               base: Ledger) {
    t in w.ledgers && AddsOne(l0, base, w.ledgers[t], Action.Issue(recipient, code, quantity), w.clock) &&
    Issued(w.ledgers[t].log, code) == Issued(base.log, code) + quantity &&
    forall x, c :: WalletBalance(w.ledgers[t], x, c) ==
                   WalletBalance(base, x, c) + Delta(x == recipient && c == code, quantity)
  }

  /** The lock that a successful request made at time `now` leaves on the ledger. */
  ghost predicate LockPlaced(l0: Ledger, w: World, t: TmsId, script: Script, code: Code, quantity: nat, call: LockCall,
                             base: Ledger) {
    t in w.ledgers &&
    var l, id := w.ledgers[t], |base.outputs|;
    Extends(l0, base) && |l.log| == |base.log| + 1 && LiveLock(l, id) &&
    l.outputs[id] == Token(Locked(script), code, quantity) &&
    script.deadline == call.at + call.seconds * NANOS && id in l.lockCalls && l.lockCalls[id] == call &&
    forall x, c :: WalletBalance(l, x, c) == WalletBalance(base, x, c) - Delta(x == script.sender &&
                                                                               c == code, quantity)
  }

  /** A pre-image is reported exactly when no hash was supplied; it then hashes to the reported value,
      which is supplied otherwise. */
  predicate Reported(H: Bytes -> Bytes, w: World, sender: Wallet, hash: Option<Bytes>, res: LockResult) {
    if hash.Some? then res.preImage == None && res.hash == hash.value
    else res.preImage.Some? && res.preImage.value != [] && H(res.preImage.value) == res.hash &&
         Knows(w, sender, res.preImage.value)
  }

  lemma {:induction false} SecretsStay(H: Bytes -> Bytes, w: World, run: Run, wallet: Wallet, preImage: Bytes)
    requires Knows(w, wallet, preImage)
    ensures Knows(Exec(H, w, run), wallet, preImage)
  {
    match run
    case Start =>
    case Then(before, _) => SecretsStay(H, w, before, wallet, preImage);
  }

  lemma TransferDecided(H: Bytes -> Bytes, w0: World, w: World, t: TmsId, tx: Tx, id: nat, base: Ledger, e: nat)
    requires tx.action.Transfer? && Outcome(H, w0, w, t, tx, Ok(id), base, e)
    ensures TransferOutcome(w0.ledgers[t], w, t, tx.action.sender, tx.action.recipient, tx.action.code,
                            tx.action.quantity, base)
  {
    forall x, c ensures WalletBalance(w.ledgers[t], x, c) ==
                        WalletBalance(base, x, c) - Delta(x == tx.action.sender &&
                                                          c == tx.action.code, tx.action.quantity)
                        + Delta(x == tx.action.recipient && c == tx.action.code, tx.action.quantity)
    {
      TransferBalances(H, base, tx, e, w.clock, x, c);
    }
  }

  lemma RedeemDecided(H: Bytes -> Bytes, w0: World, w: World, t: TmsId, tx: Tx, id: nat, base: Ledger, e: nat)
    requires tx.action.Redeem? && Outcome(H, w0, w, t, tx, Ok(id), base, e)
    ensures RedeemOutcome(w0.ledgers[t], w, t, tx.action.sender, tx.action.code, tx.action.quantity, base)
  {
    assert w.ledgers[t].log[..|base.log|] == base.log;
    forall x, c ensures WalletBalance(w.ledgers[t], x, c) ==
                        WalletBalance(base, x, c) - Delta(x == tx.action.sender &&
                                                          c == tx.action.code, tx.action.quantity)
    {
      RedeemBalances(H, base, tx, e, w.clock, x, c);
    }
  }

  lemma IssueDecided(H: Bytes -> Bytes, w0: World, w: World, t: TmsId, tx: Tx, id: nat, base: Ledger, e: nat)
    requires tx.action.Issue? && Outcome(H, w0, w, t, tx, Ok(id), base, e)
    ensures IssueOutcome(w0.ledgers[t], w, t, tx.action.recipient, tx.action.code, tx.action.quantity, base)
  {
    assert w.ledgers[t].log[..|base.log|] == base.log;
    forall x, c ensures WalletBalance(w.ledgers[t], x, c) ==
                        WalletBalance(base, x, c) + Delta(x == tx.action.recipient &&
                                                          c == tx.action.code, tx.action.quantity)
    {
      CreditBalances(H, base, tx, e, w.clock, x, c);
    }
  }

  lemma LockDecided(H: Bytes -> Bytes, w0: World, w: World, t: TmsId, tx: Tx, id: nat, base: Ledger, e: nat)
    requires tx.action.Lock? && Outcome(H, w0, w, t, tx, Ok(id), base, e)
    requires tx.action.script.deadline == tx.action.call.at + tx.action.call.seconds * NANOS
    ensures LockPlaced(w0.ledgers[t], w, t, tx.action.script, tx.action.code, tx.action.quantity, tx.action.call, base)
  {
    var n := |base.outputs|;
    assert w.ledgers[t].outputs[n] == tx.outputs[0];
    assert n !in w.ledgers[t].spent;
    forall x, c ensures WalletBalance(w.ledgers[t], x, c) ==
                        WalletBalance(base, x, c) - Delta(x == tx.action.script.sender &&
                                                          c == tx.action.code, tx.action.quantity)
    {
      LockBalances(H, base, tx, e, w.clock, x, c);
    }
  }

  lemma LearnFirst(H: Bytes -> Bytes, w: World, wallet: Wallet, preImage: Bytes)
    requires WorldInv(H, w)
    ensures var learnt := Next(H, w, Learn(wallet, preImage));
            WorldInv(H, learnt) && Follows(H, w, learnt) && Knows(learnt, wallet, preImage)
  {
    StepKeepsInv(H, w, Learn(wallet, preImage));
    FollowsNothing(H, w);
    FollowsStep(H, w, w, Learn(wallet, preImage));
  }

  lemma StillKnows(H: Bytes -> Bytes, w0: World, w: World, wallet: Wallet, preImage: Bytes)
    requires Follows(H, w0, w) && Knows(w0, wallet, preImage)
    ensures Knows(w, wallet, preImage)
  {
    var run :| w == Exec(H, w0, run);
    SecretsStay(H, w0, run, wallet, preImage);
  }

  /** The answer to a claim request made on `w0`, and what has come of it by `w`. */
  ghost predicate ClaimAnswered(H: Bytes -> Bytes, wallets: set<Wallet>, w0: World, w: World, t: TmsId, wallet: Wallet,
                                preImage: Bytes, r: Result<nat, ViewError>, base: Ledger) {
    t in w0.ledgers && Follows(H, w0, w) &&
    if preImage == [] then r == Err(BadRequest) && w == w0
    else if wallet !in wallets then r == Err(WalletNotFound) && w == w0
    else
      var matched := ListByPreImage(H, w0.ledgers[t], wallet, preImage, w0.clock);
      ClaimRequested(H, w0, w, t, wallet, preImage) &&
      if |matched| != 1 then r == Err(NotExactlyOne(|matched|)) && w == w0
      else
        var id := TheOne(matched);
        ClaimOutcome(w, t, w0.ledgers[t], id, wallet, preImage, r, base) &&
        if r.Ok? then r.value == w0.nextTx
        else OwnAbsent(H, Next(H, w0, Step.Learn(wallet, preImage)), w, t, ClaimTx(w0.ledgers[t], id, wallet, preImage))
  }

  /** One attempt of a request loop: the world when it is made, the world when it is answered, and the answer. */
  datatype Attempt = Attempt(before: World, after: World, answer: Result<nat, ViewError>)

  ghost predicate IsClaimAttempt(H: Bytes -> Bytes, wallets: set<Wallet>, t: TmsId, wallet: Wallet, preImage: Bytes,
                                 a: Attempt) {
    exists base :: ClaimAnswered(H, wallets, a.before, a.after, t, wallet, preImage, a.answer, base)
  }

  /** Output `id` is this token, and unspent. */
  predicate IsPlaced(w: World, t: TmsId, id: nat, token: Token) {
    t in w.ledgers && id < |w.ledgers[t].outputs| && id !in w.ledgers[t].spent && w.ledgers[t].outputs[id] == token
  }

  /**
   What a lock is good for. As long as it is unspent, a claim request of its recipient with a pre-image of its hash
   settles it exactly before the deadline, and only if no other unspent unexpired lock names the same recipient and
   hash; nobody else's does.
   */
  lemma PlacedLockIsClaimable(H: Bytes -> Bytes, w: World, t: TmsId, id: nat, sender: Wallet, recipient: Wallet,
                              hash: Bytes, deadline: nat, code: Code, quantity: nat, wallet: Wallet, preImage: Bytes)
    requires t in w.ledgers && id < |w.ledgers[t].outputs| && id !in w.ledgers[t].spent
    requires w.ledgers[t].outputs[id] == Token(Locked(Script(sender, recipient, hash, deadline)), code, quantity)
    ensures var l := w.ledgers[t];
            SettledOn(AfterClaim(H, w, t, wallet, preImage), t, id) <==>
            wallet == recipient && H(preImage) == hash && w.clock < deadline &&
            forall j :: 0 <= j < |l.outputs| && j != id && j !in l.spent && l.outputs[j].owner.Locked? &&
                        w.clock < l.outputs[j].owner.script.deadline ==>
                          !(l.outputs[j].owner.script.recipient == recipient && l.outputs[j].owner.script.hash == hash)
  {
    var l := w.ledgers[t];
    assert LiveLock(l, id);
    ClaimSettlesIff(H, w, t, id, wallet, preImage);
    if !SoleClaimable(l, id, w.clock) {
      var j: nat :| ClaimRival(l, id, j, w.clock);
      assert l.outputs[j].owner.Locked?;
    }
    forall j | 0 <= j < |l.outputs| && j != id && j !in l.spent && l.outputs[j].owner.Locked? &&
               w.clock < l.outputs[j].owner.script.deadline && SoleClaimable(l, id, w.clock)
      ensures !(l.outputs[j].owner.script.recipient == recipient && l.outputs[j].owner.script.hash == hash)
    {
      assert !ClaimRival(l, id, j, w.clock);
    }
  }

  /** In the same way, a reclaim request of its sender with its hash settles it exactly from the deadline on. */
  lemma PlacedLockIsReclaimable(w: World, t: TmsId, id: nat, sender: Wallet, recipient: Wallet, hash: Bytes,
                                deadline: nat, code: Code, quantity: nat, wallet: Wallet, given: Bytes)
    requires t in w.ledgers && id < |w.ledgers[t].outputs| && id !in w.ledgers[t].spent
    requires w.ledgers[t].outputs[id] == Token(Locked(Script(sender, recipient, hash, deadline)), code, quantity)
    ensures var l := w.ledgers[t];
            SettledOn(AfterReclaim(w, t, wallet, given), t, id) <==>
            wallet == sender && given == hash && deadline <= w.clock &&
            forall j :: 0 <= j < |l.outputs| && j != id && j !in l.spent && l.outputs[j].owner.Locked? &&
                        l.outputs[j].owner.script.deadline <= w.clock ==>
                          !(l.outputs[j].owner.script.sender == sender && l.outputs[j].owner.script.hash == hash)
  {
    var l := w.ledgers[t];
    assert LiveLock(l, id);
    ReclaimSettlesIff(w, t, id, wallet, given);
    if !SoleReclaimable(l, id, w.clock) {
      var j: nat :| ReclaimRival(l, id, j, w.clock);
      assert l.outputs[j].owner.Locked?;
    }
    forall j | 0 <= j < |l.outputs| && j != id && j !in l.spent && l.outputs[j].owner.Locked? &&
               l.outputs[j].owner.script.deadline <= w.clock && SoleReclaimable(l, id, w.clock)
      ensures !(l.outputs[j].owner.script.sender == sender && l.outputs[j].owner.script.hash == hash)
    {
      assert !ReclaimRival(l, id, j, w.clock);
    }
  }

  /** A lock request under a given hash, with the tokens selected for it. */
  datatype LockRequest = LockRequest(
    sender: Wallet, recipient: Wallet, code: Code, quantity: nat, seconds: nat, digest: Bytes, inputs: seq<nat>)

  /** The script of a request made at time `now`: the deadline is that many seconds later. */
  function ScriptFor(q: LockRequest, now: nat): Script {
    Script(q.sender, q.recipient, q.digest, now + q.seconds * NANOS)
  }

  function RequestedLock(l: Ledger, q: LockRequest, now: nat): Tx
    requires q.quantity <= Sum(l.outputs, Ids(q.inputs), q.code)
  {
    LockTransaction(l, ScriptFor(q, now), q.code, q.quantity, LockCall(now, q.seconds), q.inputs)
  }

  /**
   How a lock request made on `w0` ended: the lock is on the ledger with its deadline that many seconds after the
   request, or the transaction had no effect because an input was lost or validation came too late.
   */
  ghost predicate LockAnswered(H: Bytes -> Bytes, w0: World, w: World, t: TmsId, q: LockRequest,
                               r: Result<LockResult, ViewError>, base: Ledger) {
    t in w0.ledgers && q.quantity <= Sum(w0.ledgers[t].outputs, Ids(q.inputs), q.code) &&
    match r
    case Ok(res) =>
      res.txId == w0.nextTx && res.hash == q.digest &&
      LockPlaced(w0.ledgers[t], w, t, ScriptFor(q, w0.clock), q.code, q.quantity, LockCall(w0.clock, q.seconds), base)
    case Err(error) =>
      (error == NotEndorsed || error == NotCommitted) &&
      LockFailed(H, w0, w, t, RequestedLock(w0.ledgers[t], q, w0.clock), error)
  }

  /** The answer of the view to what became of its transaction. */
  function LockAnswer(tx: Tx, submitted: Result<nat, ViewError>, preImage: Bytes): Result<LockResult, ViewError>
    requires tx.outputs != [] && tx.outputs[0].owner.Locked?
  {
    match submitted
    case Ok(id) =>
      Ok(LockResult(id, if |preImage| > 0 then Some(preImage) else None, ScriptAt(tx.outputs, 0).value.hash))
    case Err(error) => Err(error)
  }

  lemma LockIsAnswered(H: Bytes -> Bytes, w0: World, w: World, t: TmsId, q: LockRequest, r: Result<nat, ViewError>,
                       base: Ledger, e: nat, preImage: Bytes)
    requires t in w0.ledgers && Covers(w0.ledgers[t], q.inputs, q.sender, q.code, q.quantity) && q.seconds > 0
    requires var tx := RequestedLock(w0.ledgers[t], q, w0.clock);
             Outcome(H, w0, w, t, tx, r, base, e) && (r.Err? ==> OwnAbsent(H, w0, w, t, tx)) &&
             (r.Ok? ==> r.value == w0.nextTx)
    ensures LockAnswered(H, w0, w, t, q, LockAnswer(RequestedLock(w0.ledgers[t], q, w0.clock), r, preImage), base)
  {
    var tx := RequestedLock(w0.ledgers[t], q, w0.clock);
    match r
    case Ok(id) => LockDecided(H, w0, w, t, tx, id, base, e);
    case Err(_) =>
      LockShape(H, w0.ledgers[t], tx.action.script, q.code, q.quantity, tx.action.call, q.inputs, w0.clock);
      PaymentFails(H, w0, w, t, tx, r, base, e);
  }

  class OwnerNode {
    const net: Network
    const wallets: set<Wallet>

    constructor (net: Network, wallets: set<Wallet>)
      ensures this.net == net && this.wallets == wallets
    {
      this.net := net;
      this.wallets := wallets;
    }

    /**
     Claim. Refused without any effect without a pre-image, or unless exactly one unexpired lock matches in this
     wallet's view; otherwise it is this lock, and no other, that the claim can settle.
     */
    method Claim(t: TmsId, wallet: Wallet, preImage: Bytes) returns (r: Result<nat, ViewError>, ghost base: Ledger)
      requires WorldInv(net.hash, net.world) && t in net.world.ledgers
      modifies net
      ensures ClaimAnswered(net.hash, wallets, old(net.world), net.world, t, wallet, preImage, r, base)
    {
      ghost var w0 := net.world;
      base := w0.ledgers[t];
      FollowsNothing(net.hash, w0);
      if |preImage| == 0 {
        return Err(BadRequest), base;
      }
      if wallet !in wallets {
        return Err(WalletNotFound), base;
      }
      var matched := ListByPreImage(net.hash, net.world.ledgers[t], wallet, preImage, net.world.clock);
      if |matched| != 1 {
        return Err(NotExactlyOne(|matched|)), base;
      }
      var id := TheOne(matched);
      assert id in matched;
      net.LearnAlone(wallet, preImage);
      ghost var learnt := net.world;
      ghost var e;
      r, base, e := net.Submit(t, ClaimTx(net.world.ledgers[t], id, wallet, preImage));
      FollowsTransitive(net.hash, w0, learnt, net.world);
      ClaimDecided(net.hash, learnt, net.world, t, id, wallet, preImage, r, base, e);
    }

    /**
     Reclaim. Needs exactly one expired lock with the hash in this wallet's view; it then fails only if somebody
     else has settled the lock.
     */
    method Reclaim(t: TmsId, wallet: Wallet, hash: Bytes) returns (r: Result<nat, ViewError>, ghost base: Ledger)
      requires WorldInv(net.hash, net.world) && t in net.world.ledgers
      modifies net
      ensures Follows(net.hash, old(net.world), net.world)
      ensures r == Err(BadRequest) <==> hash == []
      ensures r.Err? && r.error in {BadRequest, WalletNotFound} ==> net.world == old(net.world)
      ensures r == Err(WalletNotFound) <==> hash != [] && wallet !in wallets
      ensures var w0 := old(net.world);
              var matched := ExpiredByHash(w0.ledgers[t], wallet, hash, w0.clock);
              hash != [] && wallet in wallets ==>
                if |matched| == 1 then
                  var id := TheOne(matched);
                  ReclaimOutcome(net.world, t, w0.ledgers[t], id, wallet, r, base) &&
                  if r.Ok? then r.value == w0.nextTx
                  else OwnAbsent(net.hash, w0, net.world, t, ReclaimTx(w0.ledgers[t], id, wallet))
                else
                  r == Err(NotExactlyOne(|matched|)) && net.world == w0
    {
      ghost var w0 := net.world;
      base := w0.ledgers[t];
      FollowsNothing(net.hash, w0);
      if |hash| == 0 {
        return Err(BadRequest), base;
      }
      if wallet !in wallets {
        return Err(WalletNotFound), base;
      }
      var matched := ExpiredByHash(net.world.ledgers[t], wallet, hash, net.world.clock);
      if |matched| != 1 {
        return Err(NotExactlyOne(|matched|)), base;
      }
      var id := TheOne(matched);
      assert id in matched;
      ghost var e;
      r, base, e := net.Submit(t, ReclaimTx(net.world.ledgers[t], id, wallet));
      ReclaimDecided(net.hash, w0, net.world, t, id, wallet, hash, r, base, e);
    }

    /**
     The lock operation itself, under a given hash: its deadline counts from this call. `preImage` is empty unless the
     node has made it up.
     */
    method LockUnder(t: TmsId, q: LockRequest, preImage: Bytes)
      returns (r: Result<LockResult, ViewError>, ghost base: Ledger)
      requires WorldInv(net.hash, net.world) && t in net.world.ledgers && ToDeadline(q.seconds).Some?
      requires Covers(net.world.ledgers[t], q.inputs, q.sender, q.code, q.quantity)
      modifies net
      ensures Follows(net.hash, old(net.world), net.world)
      ensures LockAnswered(net.hash, old(net.world), net.world, t, q, r, base)
      ensures r.Ok? ==>
                IsPlaced(net.world, t, |base.outputs|,
                         Token(Locked(Script(q.sender, q.recipient, r.value.hash,
                                             old(net.world).clock + q.seconds * NANOS)), q.code, q.quantity))
      ensures r.Ok? ==> r.value.preImage == if preImage == [] then None else Some(preImage)
    {
      ghost var w0 := net.world;
      ToDeadlineExact(q.seconds);
      var now := net.world.clock;
      var script := Script(q.sender, q.recipient, q.digest, now + ToDeadline(q.seconds).value);
      var tx := LockTransaction(net.world.ledgers[t], script, q.code, q.quantity, LockCall(now, q.seconds), q.inputs);
      assert tx == RequestedLock(net.world.ledgers[t], q, now);
      var submitted;
      ghost var e;
      submitted, base, e := net.Submit(t, tx);
      LockIsAnswered(net.hash, w0, net.world, t, q, submitted, base, e, preImage);
      r := LockAnswer(tx, submitted, preImage);
    }

    /** The lock operation under the hash of a pre-image that the node makes up, and reports. */
    method LockFresh(t: TmsId, q: LockRequest, generated: Bytes)
      returns (r: Result<LockResult, ViewError>, ghost base: Ledger)
      requires WorldInv(net.hash, net.world) && t in net.world.ledgers && ToDeadline(q.seconds).Some?
      requires Covers(net.world.ledgers[t], q.inputs, q.sender, q.code, q.quantity) && generated != []
      modifies net
      ensures Follows(net.hash, old(net.world), net.world)
      ensures LockAnswered(net.hash, Next(net.hash, old(net.world), Step.Learn(q.sender, generated)), net.world, t, q,
                           r, base)
      ensures r.Ok? ==>
                IsPlaced(net.world, t, |base.outputs|,
                         Token(Locked(Script(q.sender, q.recipient, r.value.hash,
                                             old(net.world).clock + q.seconds * NANOS)), q.code, q.quantity))
      ensures r.Ok? ==> r.value.preImage == Some(generated) && Knows(net.world, q.sender, generated)
    {
      ghost var w0 := net.world;
      net.LearnAlone(q.sender, generated);
      ghost var learnt := net.world;
      r, base := LockUnder(t, q, generated);
      FollowsTransitive(net.hash, w0, learnt, net.world);
      StillKnows(net.hash, learnt, net.world, q.sender, generated);
    }

    /**
     A lock request. Bad requests, unknown wallets and uncovered quantities change nothing; otherwise it is answered as
     above, with the hash it reports. `generated` is the random pre-image that the node makes up when no hash is
     supplied; it is never empty.
     */
    method Lock(t: TmsId, sender: Wallet, recipient: Wallet, code: Code, quantity: nat, seconds: int,
                hash: Option<Bytes>, generated: Bytes, selected: Option<seq<nat>>)
      returns (r: Result<LockResult, ViewError>, ghost base: Ledger)
      requires WorldInv(net.hash, net.world) && t in net.world.ledgers
      requires Selection(net.world.ledgers[t], sender, code, quantity, selected) && generated != []
      modifies net
      ensures Follows(net.hash, old(net.world), net.world)
      ensures r == Err(BadRequest) <==> !(1 <= seconds <= 9_223_372_036) || (hash.Some? && |hash.value| != 32)
      ensures r == Err(WalletNotFound) <==>
              1 <= seconds <= 9_223_372_036 && (hash.Some? ==> |hash.value| == 32) && sender !in wallets
      ensures r == Err(InsufficientFunds) <==>
              1 <= seconds <= 9_223_372_036 && (hash.Some? ==> |hash.value| == 32) && sender in wallets &&
              WalletBalance(old(net.world).ledgers[t], sender, code) < quantity
      ensures if r.Err? && r.error in {BadRequest, WalletNotFound, InsufficientFunds} then net.world == old(net.world)
              else
                seconds > 0 && selected.Some? &&
                var w0, digest := old(net.world), if hash.Some? then hash.value else net.hash(generated);
                LockAnswered(net.hash, if hash.Some? then w0 else Next(net.hash, w0, Step.Learn(sender, generated)),
                             net.world, t,
                             LockRequest(sender, recipient, code, quantity, seconds, digest, selected.value), r, base)
      ensures r.Ok? ==>
                t in net.world.ledgers && |base.outputs| < |net.world.ledgers[t].outputs| &&
                |base.outputs| !in net.world.ledgers[t].spent &&
                net.world.ledgers[t].outputs[|base.outputs|] ==
                Token(Locked(Script(sender, recipient, r.value.hash, old(net.world).clock + seconds * NANOS)), code,
                      quantity)
      ensures r.Ok? ==> Reported(net.hash, net.world, sender, hash, r.value)
    {
      base := net.world.ledgers[t];
      ToDeadlineExact(seconds);
      FollowsNothing(net.hash, net.world);
      SelectionIffCovered(net.world.ledgers[t], sender, code, quantity);
      if ToDeadline(seconds).None? || (hash.Some? && |hash.value| != 32) {
        return Err(BadRequest), base;
      }
      if sender !in wallets {
        return Err(WalletNotFound), base;
      }
      if selected.None? {
        return Err(InsufficientFunds), base;
      }
      if hash.Some? {
        var q := LockRequest(sender, recipient, code, quantity, seconds, hash.value, selected.value);
        r, base := LockUnder(t, q, []);
      } else {
        var q := LockRequest(sender, recipient, code, quantity, seconds, net.hash(generated), selected.value);
        r, base := LockFresh(t, q, generated);
      }
    }

    /** Transfer: refused exactly when the balance does not cover the quantity; change comes back to the sender. */
    method Transfer(t: TmsId, sender: Wallet, recipient: Wallet, code: Code, quantity: nat, selected: Option<seq<nat>>)
      returns (r: Result<nat, ViewError>, ghost base: Ledger)
      requires WorldInv(net.hash, net.world) && t in net.world.ledgers
      requires Selection(net.world.ledgers[t], sender, code, quantity, selected)
      modifies net
      ensures Follows(net.hash, old(net.world), net.world)
      ensures var w0 := old(net.world);
              if sender !in wallets then
                r == Err(WalletNotFound) && net.world == w0
              else if WalletBalance(w0.ledgers[t], sender, code) < quantity then
                r == Err(InsufficientFunds) && net.world == w0
              else
                (r.Ok? ==> r.value == w0.nextTx) &&
                (r.Ok? ==> TransferOutcome(old(net.world).ledgers[t], net.world, t, sender, recipient, code,
                                           quantity, base)) &&
                (r.Err? ==>
                   (r.error == NotEndorsed || r.error == NotCommitted) &&
                   LostInput(net.hash, w0, net.world, t,
                             TransferTransaction(w0.ledgers[t], sender, recipient, code, quantity, selected.value)))
    {
      ghost var w0 := net.world;
      base := w0.ledgers[t];
      FollowsNothing(net.hash, w0);
      SelectionIffCovered(w0.ledgers[t], sender, code, quantity);
      if sender !in wallets {
        return Err(WalletNotFound), base;
      }
      if selected.None? {
        return Err(InsufficientFunds), base;
      }
      var tx := TransferTransaction(net.world.ledgers[t], sender, recipient, code, quantity, selected.value);
      ghost var e;
      r, base, e := net.Submit(t, tx);
      if r.Ok? {
        TransferDecided(net.hash, w0, net.world, t, tx, r.value, base, e);
      } else {
        TransferShape(net.hash, w0.ledgers[t], sender, recipient, code, quantity, selected.value, w0.clock);
        PaymentFails(net.hash, w0, net.world, t, tx, r, base, e);
      }
    }

    /** Redeem: burns exactly the quantity; the rest of the inputs comes back. */
    method Redeem(t: TmsId, sender: Wallet, code: Code, quantity: nat, selected: Option<seq<nat>>)
      returns (r: Result<nat, ViewError>, ghost base: Ledger)
      requires WorldInv(net.hash, net.world) && t in net.world.ledgers
      requires Selection(net.world.ledgers[t], sender, code, quantity, selected)
      modifies net
      ensures Follows(net.hash, old(net.world), net.world)
      ensures var w0 := old(net.world);
              if sender !in wallets then
                r == Err(WalletNotFound) && net.world == w0
              else if WalletBalance(w0.ledgers[t], sender, code) < quantity then
                r == Err(InsufficientFunds) && net.world == w0
              else
                (r.Ok? ==> r.value == w0.nextTx) &&
                (r.Ok? ==> RedeemOutcome(old(net.world).ledgers[t], net.world, t, sender, code, quantity, base)) &&
                (r.Err? ==>
                   (r.error == NotEndorsed || r.error == NotCommitted) &&
                   LostInput(net.hash, w0, net.world, t,
                             RedeemTransaction(w0.ledgers[t], sender, code, quantity, selected.value)))
    {
      ghost var w0 := net.world;
      base := w0.ledgers[t];
      FollowsNothing(net.hash, w0);
      SelectionIffCovered(w0.ledgers[t], sender, code, quantity);
      if sender !in wallets {
        return Err(WalletNotFound), base;
      }
      if selected.None? {
        return Err(InsufficientFunds), base;
      }
      var tx := RedeemTransaction(net.world.ledgers[t], sender, code, quantity, selected.value);
      ghost var e;
      r, base, e := net.Submit(t, tx);
      if r.Ok? {
        RedeemDecided(net.hash, w0, net.world, t, tx, r.value, base, e);
      } else {
        RedeemShape(net.hash, w0.ledgers[t], sender, code, quantity, selected.value, w0.clock);
        PaymentFails(net.hash, w0, net.world, t, tx, r, base, e);
      }
    }

    /** One attempt after those made so far. */
    method TryClaim(t: TmsId, wallet: Wallet, preImage: Bytes, ghost w0: World, ghost tries: seq<Attempt>)
      returns (ok: bool, ghost a: Attempt)
      requires AreClaimAttempts(net.hash, wallets, t, wallet, preImage, w0, tries)
      requires Goes(net.hash, w0, tries, net.world)
      modifies net
      ensures AreClaimAttempts(net.hash, wallets, t, wallet, preImage, w0, tries + [a])
      ensures a.after == net.world && (ok <==> a.answer.Ok?)
    {
      ghost var before := net.world;
      AttemptsFollow(net.hash, wallets, t, wallet, preImage, w0, tries, before);
      FollowsInv(net.hash, w0, before);
      var r, base := Claim(t, wallet, preImage);
      a := Attempt(before, net.world, r);
      assert IsClaimAttempt(net.hash, wallets, t, wallet, preImage, a);
      MoreAttempts(net.hash, wallets, t, wallet, preImage, w0, tries, a);
      ok := r.Ok?;
    }

    /** The request loop of the swap script around a claim: after a bad answer, or none, it pauses and tries again. */
    method ClaimLoop(t: TmsId, wallet: Wallet, preImage: Bytes, maxAttempts: int, delivered: set<nat>, ghost w0: World)
      returns (ok: bool, attempts: nat, ghost earlier: seq<Attempt>, ghost last: Attempt)
      requires w0 == net.world && AreClaimAttempts(net.hash, wallets, t, wallet, preImage, w0, [])
      modifies net
      ensures |earlier| + 1 == attempts && last.after == net.world
      ensures AreClaimAttempts(net.hash, wallets, t, wallet, preImage, w0, earlier + [last])
      ensures NoneGood(earlier, delivered)
      ensures ok <==> last.answer.Ok? && attempts in delivered
      ensures if ok then attempts == 1 || attempts <= maxAttempts
              else attempts == if maxAttempts < 1 then 1 else maxAttempts
    {
      attempts := 1;
      earlier := [];
      while true
        invariant 1 <= attempts && (attempts == 1 || attempts <= maxAttempts) && |earlier| + 1 == attempts
        invariant AreClaimAttempts(net.hash, wallets, t, wallet, preImage, w0, earlier)
        invariant Goes(net.hash, w0, earlier, net.world)
        invariant NoneGood(earlier, delivered)
        decreases maxAttempts - attempts
      {
        var answered;
        answered, last := TryClaim(t, wallet, preImage, w0, earlier);
        ok := answered && attempts in delivered;
        if ok || attempts >= maxAttempts {
          break;
        }
        StillNoneGood(earlier, last, delivered);
        earlier := earlier + [last];
        net.Sleep();
        attempts := attempts + 1;
      }
    }

    /**
     A claim request with retries. `delivered` are the attempts whose answers arrive, `tries` is what happened: every
     attempt is a claim request, and the loop ends with the first good answer that arrives, or with the attempts it is
     allowed. No output of the ledger is ever consumed twice on the way.
     */
    method ClaimWithRetry(t: TmsId, wallet: Wallet, preImage: Bytes, maxAttempts: int, delivered: set<nat>)
      returns (ok: bool, attempts: nat, ghost tries: seq<Attempt>)
      requires WorldInv(net.hash, net.world) && t in net.world.ledgers
      modifies net
      ensures |tries| == attempts >= 1 && tries[0].before == old(net.world) && tries[attempts - 1].after == net.world
      ensures forall k :: 0 <= k < attempts ==> IsClaimAttempt(net.hash, wallets, t, wallet, preImage, tries[k])
      ensures forall k :: 0 <= k < attempts - 1 ==> Follows(net.hash, tries[k].after, tries[k + 1].before)
      ensures forall k :: 0 <= k < attempts - 1 ==> !(tries[k].answer.Ok? && k + 1 in delivered)
      ensures ok <==> tries[attempts - 1].answer.Ok? && attempts in delivered
      ensures if ok then attempts == 1 || attempts <= maxAttempts
              else attempts == if maxAttempts < 1 then 1 else maxAttempts
      ensures Follows(net.hash, old(net.world), net.world) && t in net.world.ledgers
      ensures ok ==> ClaimedBy(net.world.ledgers[t], wallet, preImage)
      ensures ConsumedOnce(net.world.ledgers[t])
    {
      ghost var w0 := net.world;
      ghost var earlier, last;
      ok, attempts, earlier, last := ClaimLoop(t, wallet, preImage, maxAttempts, delivered, w0);
      tries := earlier + [last];
      assert tries[..attempts - 1] == earlier;
      AttemptsAre(net.hash, wallets, t, wallet, preImage, w0, tries);
      EarlierNotGood(tries, delivered);
      AttemptsEnd(net.hash, wallets, t, wallet, preImage, w0, tries);
    }
  }

  /** No good answer has arrived yet. */
  ghost predicate NoneGood(tries: seq<Attempt>, delivered: set<nat>) {
    forall k :: 0 <= k < |tries| ==> !(tries[k].answer.Ok? && k + 1 in delivered)
  }

  lemma EarlierNotGood(tries: seq<Attempt>, delivered: set<nat>)
    requires tries != [] && NoneGood(tries[..|tries| - 1], delivered)
    ensures forall k :: 0 <= k < |tries| - 1 ==> !(tries[k].answer.Ok? && k + 1 in delivered)
  {
    forall k | 0 <= k < |tries| - 1 ensures !(tries[k].answer.Ok? && k + 1 in delivered) {
      assert tries[..|tries| - 1][k] == tries[k];
    }
  }

  lemma StillNoneGood(tries: seq<Attempt>, a: Attempt, delivered: set<nat>)
    requires NoneGood(tries, delivered) && !(a.answer.Ok? && |tries| + 1 in delivered)
    ensures NoneGood(tries + [a], delivered)
  {
  }

  /** The next attempt may follow on `tries` in world `w`. */
  ghost predicate Goes(H: Bytes -> Bytes, w0: World, tries: seq<Attempt>, w: World) {
    if tries == [] then w == w0 else Follows(H, tries[|tries| - 1].after, w)
  }

  /** Claim attempts one after the other, the first one made on `w0`, where all is well. */
  ghost predicate AreClaimAttempts(H: Bytes -> Bytes, wallets: set<Wallet>, t: TmsId, wallet: Wallet, preImage: Bytes,
                                   w0: World, tries: seq<Attempt>) {
    if tries == [] then WorldInv(H, w0) && t in w0.ledgers
    else
      var before, last := tries[..|tries| - 1], tries[|tries| - 1];
      AreClaimAttempts(H, wallets, t, wallet, preImage, w0, before) &&
      Goes(H, w0, before, last.before) && IsClaimAttempt(H, wallets, t, wallet, preImage, last)
  }

  lemma MoreAttempts(H: Bytes -> Bytes, wallets: set<Wallet>, t: TmsId, wallet: Wallet, preImage: Bytes, w0: World,
                     tries: seq<Attempt>, a: Attempt)
    requires AreClaimAttempts(H, wallets, t, wallet, preImage, w0, tries) && Goes(H, w0, tries, a.before)
    requires IsClaimAttempt(H, wallets, t, wallet, preImage, a)
    ensures AreClaimAttempts(H, wallets, t, wallet, preImage, w0, tries + [a])
  {
    assert (tries + [a])[..|tries|] == tries;
  }

  lemma {:induction false} AttemptsAre(H: Bytes -> Bytes, wallets: set<Wallet>, t: TmsId, wallet: Wallet,
                                       preImage: Bytes, w0: World, tries: seq<Attempt>)
    requires AreClaimAttempts(H, wallets, t, wallet, preImage, w0, tries)
    ensures tries != [] ==> tries[0].before == w0
    ensures forall k :: 0 <= k < |tries| ==> IsClaimAttempt(H, wallets, t, wallet, preImage, tries[k])
    ensures forall k :: 0 <= k < |tries| - 1 ==> Follows(H, tries[k].after, tries[k + 1].before)
  {
    if tries != [] { AttemptsAre(H, wallets, t, wallet, preImage, w0, tries[..|tries| - 1]); }
  }

  lemma {:induction false} AttemptsFollow(H: Bytes -> Bytes, wallets: set<Wallet>, t: TmsId, wallet: Wallet,
                                          preImage: Bytes, w0: World, tries: seq<Attempt>, w: World)
    requires AreClaimAttempts(H, wallets, t, wallet, preImage, w0, tries) && Goes(H, w0, tries, w)
    ensures Follows(H, w0, w) && WorldInv(H, w0) && t in w0.ledgers
  {
    if tries == [] {
      FollowsNothing(H, w0);
    } else {
      var last := tries[|tries| - 1];
      AttemptsFollow(H, wallets, t, wallet, preImage, w0, tries[..|tries| - 1], last.before);
      var base :| ClaimAnswered(H, wallets, last.before, last.after, t, wallet, preImage, last.answer, base);
      FollowsTransitive(H, w0, last.before, last.after);
      FollowsTransitive(H, w0, last.after, w);
    }
  }

  /** The world that the last attempt leaves. */
  lemma AttemptsEnd(H: Bytes -> Bytes, wallets: set<Wallet>, t: TmsId, wallet: Wallet, preImage: Bytes, w0: World,
                    tries: seq<Attempt>)
    requires AreClaimAttempts(H, wallets, t, wallet, preImage, w0, tries) && tries != []
    ensures var last := tries[|tries| - 1];
            Follows(H, w0, last.after) && t in last.after.ledgers && ConsumedOnce(last.after.ledgers[t]) &&
            (last.answer.Ok? ==> ClaimedBy(last.after.ledgers[t], wallet, preImage))
  {
    var last := tries[|tries| - 1];
    FollowsNothing(H, last.after);
    AttemptsFollow(H, wallets, t, wallet, preImage, w0, tries, last.after);
    FollowsInv(H, w0, last.after);
    ConsumedOnceHolds(H, last.after, t);
    var base :| ClaimAnswered(H, wallets, last.before, last.after, t, wallet, preImage, last.answer, base);
    if last.answer.Ok? {
      ClaimShows(H, wallets, last.before, last.after, t, wallet, preImage, last.answer, base);
    }
  }

  /** A claim that was answered with success is on the ledger. */
  lemma ClaimShows(H: Bytes -> Bytes, wallets: set<Wallet>, w0: World, w: World, t: TmsId, wallet: Wallet,
                   preImage: Bytes, r: Result<nat, ViewError>, base: Ledger)
    requires ClaimAnswered(H, wallets, w0, w, t, wallet, preImage, r, base) && r.Ok?
    ensures t in w.ledgers && ClaimedBy(w.ledgers[t], wallet, preImage)
  {
    var id := TheOne(ListByPreImage(H, w0.ledgers[t], wallet, preImage, w0.clock));
    assert w.ledgers[t].spent[id] == Spend(Claim(id, wallet, preImage), w.clock);
  }

  ghost predicate ClaimedBy(l: Ledger, wallet: Wallet, preImage: Bytes) {
    exists id, at :: id in l.spent && l.spent[id] == Spend(Claim(id, wallet, preImage), at)
  }

  ghost predicate ConsumedOnce(l: Ledger) {
    forall id, j, k :: 0 <= j < k < |l.log| ==> !(id in l.log[j].inputs && id in l.log[k].inputs)
  }

  lemma ConsumedOnceHolds(H: Bytes -> Bytes, w: World, t: TmsId)
    requires WorldInv(H, w) && t in w.ledgers
    ensures ConsumedOnce(w.ledgers[t])
  {
    forall id, j, k | 0 <= j < k < |w.ledgers[t].log|
      ensures !(id in w.ledgers[t].log[j].inputs && id in w.ledgers[t].log[k].inputs)
    {
      SpentOnceInLog(H, w, t, id, j, k);
    }
  }

  class IssuerNode {
    const net: Network
    const hasWallet: bool

    constructor (net: Network, hasWallet: bool)
      ensures this.net == net && this.hasWallet == hasWallet
    {
      this.net := net;
      this.hasWallet := hasWallet;
    }

    /** Issue: the only way to create value, all of it for the recipient. */
    method Issue(t: TmsId, recipient: Wallet, code: Code, quantity: nat)
      returns (r: Result<nat, ViewError>, ghost base: Ledger)
      requires WorldInv(net.hash, net.world) && t in net.world.ledgers
      modifies net
      ensures Follows(net.hash, old(net.world), net.world)
      ensures !hasWallet ==> r == Err(WalletNotFound) && net.world == old(net.world)
      ensures hasWallet ==> r.Ok? && r.value == old(net.world).nextTx
      ensures r.Ok? ==> IssueOutcome(old(net.world).ledgers[t], net.world, t, recipient, code, quantity, base)
    {
      ghost var w0 := net.world;
      base := w0.ledgers[t];
      FollowsNothing(net.hash, w0);
      if !hasWallet {
        return Err(WalletNotFound), base;
      }
      var tx := Tx(Action.Issue(recipient, code, quantity), [], [Token(Plain(recipient), code, quantity)]);
      ghost var e;
      r, base, e := net.Submit(t, tx);
      IssueNeverFails(net.hash, w0, net.world, t, tx, r, base, e);
      IssueDecided(net.hash, w0, net.world, t, tx, r.value, base, e);
    }
  }
}
