/**
 The ledger of one token management service (TMS) in the UTXO model: outputs are only ever appended,
 and a committed transaction spends existing outputs and creates new ones.

 What a transaction must look like (Shape) is checked when endorsements are collected; that its inputs
 are still unspent is checked again when the transaction is committed.
 */
module Ledgers {
  import opened Basics
  import opened Deadlines

  /** The conditions of a hash time-locked output. `deadline` is an absolute time in nanoseconds. */
  datatype Script = Script(sender: Wallet, recipient: Wallet, hash: Bytes, deadline: nat)

  datatype Owner = Plain(wallet: Wallet) | Locked(script: Script)

  datatype Token = Token(owner: Owner, code: Code, quantity: nat)

  /** When a lock was requested, and for how many seconds. */
  datatype LockCall = LockCall(at: nat, seconds: nat)

  datatype Action =
    | Issue(recipient: Wallet, code: Code, quantity: nat)
    | Transfer(sender: Wallet, recipient: Wallet, code: Code, quantity: nat)
    | Redeem(sender: Wallet, code: Code, quantity: nat)
    | Lock(script: Script, code: Code, quantity: nat, call: LockCall)
    | Claim(id: nat, wallet: Wallet, preImage: Bytes)
    | Reclaim(id: nat, wallet: Wallet)

  datatype Tx = Tx(action: Action, inputs: seq<nat>, outputs: seq<Token>)

  /** How and when an output was spent. */
  datatype Spend = Spend(action: Action, at: nat)

  datatype Ledger = Ledger(
    outputs: seq<Token>,
    spent: map<nat, Spend>,
    lockCalls: map<nat, LockCall>,
    log: seq<Tx>)

  const EMPTY_LEDGER := Ledger([], map[], map[], [])

  // ---------------------------------------------------------------------------------------------
  // Sums

  /** The total quantity of `code` in the outputs listed by `ids`. */
  function Sum(outputs: seq<Token>, ids: set<nat>, code: Code): nat {
    if outputs == [] then 0
    else
      var n := |outputs| - 1;
      Sum(outputs[..n], ids, code) + (if n in ids && outputs[n].code == code then outputs[n].quantity else 0)
  }

  /** The total quantity of `code` in all of `outputs`. */
  function SumAll(outputs: seq<Token>, code: Code): nat {
    if outputs == [] then 0
    else
      var n := |outputs| - 1;
      SumAll(outputs[..n], code) + (if outputs[n].code == code then outputs[n].quantity else 0)
  }

  lemma {:induction false} SumAgree(outputs: seq<Token>, a: set<nat>, b: set<nat>, code: Code)
    requires forall i :: 0 <= i < |outputs| ==> (i in a <==> i in b)
    ensures Sum(outputs, a, code) == Sum(outputs, b, code)
  {
    if outputs != [] {
      SumAgree(outputs[..|outputs| - 1], a, b, code);
    }
  }

  lemma {:induction false} SumSplit(outputs: seq<Token>, a: set<nat>, b: set<nat>, code: Code)
    requires a !! b
    ensures Sum(outputs, a + b, code) == Sum(outputs, a, code) + Sum(outputs, b, code)
  {
    if outputs != [] {
      SumSplit(outputs[..|outputs| - 1], a, b, code);
    }
  }

  /** New outputs that are all listed contribute all of their quantity; the old part is unaffected. */
  lemma {:induction false} SumAppend(outputs: seq<Token>, more: seq<Token>, ids: set<nat>, code: Code)
    requires forall i :: |outputs| <= i < |outputs| + |more| ==> i in ids
    ensures Sum(outputs + more, ids, code) == Sum(outputs, ids, code) + SumAll(more, code)
  {
    if more == [] {
      assert outputs + more == outputs;
    } else {
      var n := |more| - 1;
      SumAppend(outputs, more[..n], ids, code);
      assert (outputs + more)[..|outputs| + n] == outputs + more[..n];
    }
  }

  lemma {:induction false} SumIgnoresNew(outputs: seq<Token>, more: seq<Token>, ids: set<nat>, code: Code)
    requires forall i :: i in ids ==> i < |outputs|
    ensures Sum(outputs + more, ids, code) == Sum(outputs, ids, code)
  {
    if more == [] {
      assert outputs + more == outputs;
    } else {
      var n := |more| - 1;
      SumIgnoresNew(outputs, more[..n], ids, code);
      assert (outputs + more)[..|outputs| + n] == outputs + more[..n];
    }
  }

  /** Outputs of one code contribute nothing to another. */
  lemma {:induction false} SumOfOtherCode(outputs: seq<Token>, ids: set<nat>, code: Code, other: Code)
    requires code != other
    requires forall i :: i in ids && i < |outputs| ==> outputs[i].code == code
    ensures Sum(outputs, ids, other) == 0
  {
    if outputs != [] {
      SumOfOtherCode(outputs[..|outputs| - 1], ids, code, other);
    }
  }

  lemma {:induction false} SumSingleton(outputs: seq<Token>, id: nat, code: Code)
    ensures Sum(outputs, {id}, code) ==
            if id < |outputs| && outputs[id].code == code then outputs[id].quantity else 0
  {
    if outputs != [] {
      SumSingleton(outputs[..|outputs| - 1], id, code);
      if id >= |outputs| - 1 {
        SumOutOfRange(outputs[..|outputs| - 1], {id}, code);
      }
    }
  }

  lemma {:induction false} SumOutOfRange(outputs: seq<Token>, ids: set<nat>, code: Code)
    requires forall i :: i in ids ==> i >= |outputs|
    ensures Sum(outputs, ids, code) == 0
  {
    if outputs != [] {
      SumOutOfRange(outputs[..|outputs| - 1], ids, code);
    }
  }

  lemma {:induction false} SumMonotone(outputs: seq<Token>, a: set<nat>, b: set<nat>, code: Code)
    requires a <= b
    ensures Sum(outputs, a, code) <= Sum(outputs, b, code)
  {
    SumSplit(outputs, a, b - a, code);
    assert a + (b - a) == b;
  }

  // ---------------------------------------------------------------------------------------------
  // What a ledger holds

  predicate Unspent(l: Ledger, id: nat) {
    id < |l.outputs| && id !in l.spent
  }

  /** A lock that is neither claimed nor reclaimed. */
  predicate LiveLock(l: Ledger, id: nat) {
    Unspent(l, id) && l.outputs[id].owner.Locked?
  }

  function SpendableIds(l: Ledger): set<nat> {
    set i | 0 <= i < |l.outputs| && Unspent(l, i) && l.outputs[i].owner.Plain?
  }

  function LockedIds(l: Ledger): set<nat> {
    set i | 0 <= i < |l.outputs| && LiveLock(l, i)
  }

  function UnspentIds(l: Ledger): set<nat> {
    set i | 0 <= i < |l.outputs| && Unspent(l, i)
  }

  /** The unspent tokens of one code that a wallet can spend at will. */
  function WalletIds(l: Ledger, wallet: Wallet, code: Code): set<nat> {
    set i | 0 <= i < |l.outputs| && Unspent(l, i) && l.outputs[i].owner == Plain(wallet) && l.outputs[i].code == code
  }

  function WalletBalance(l: Ledger, wallet: Wallet, code: Code): nat {
    Sum(l.outputs, WalletIds(l, wallet, code), code)
  }

  // ---------------------------------------------------------------------------------------------
  // Transactions

  /** What is left of the inputs goes back to the sender; nothing is created when nothing is left. */
  function Change(sender: Wallet, code: Code, left: nat): seq<Token> {
    if left == 0 then [] else [Token(Plain(sender), code, left)]
  }

  predicate OwnedBy(outputs: seq<Token>, inputs: seq<nat>, wallet: Wallet, code: Code) {
    forall i :: i in inputs ==> i < |outputs| && outputs[i].owner == Plain(wallet) && outputs[i].code == code
  }

  function Ids(inputs: seq<nat>): set<nat> {
    set i | i in inputs
  }

  /**
   The token validation logic: is `tx` well formed against `outputs` at time `now`?
   A claim needs a matching pre-image and an unexpired script, a reclaim needs an expired one.
   A script is expired from its deadline on.
   */
  predicate Shape(H: Bytes -> Bytes, outputs: seq<Token>, tx: Tx, now: nat) {
    match tx.action
    case Issue(recipient, code, quantity) =>
      tx.inputs == [] && tx.outputs == [Token(Plain(recipient), code, quantity)]
    case Transfer(sender, recipient, code, quantity) =>
      OwnedBy(outputs, tx.inputs, sender, code) &&
      var total := Sum(outputs, Ids(tx.inputs), code);
      quantity <= total &&
      tx.outputs == [Token(Plain(recipient), code, quantity)] + Change(sender, code, total - quantity)
    case Redeem(sender, code, quantity) =>
      OwnedBy(outputs, tx.inputs, sender, code) &&
      var total := Sum(outputs, Ids(tx.inputs), code);
      quantity <= total && tx.outputs == Change(sender, code, total - quantity)
    case Lock(script, code, quantity, _) =>
      OwnedBy(outputs, tx.inputs, script.sender, code) &&
      var total := Sum(outputs, Ids(tx.inputs), code);
      quantity <= total && now < script.deadline &&
      tx.outputs == [Token(Locked(script), code, quantity)] + Change(script.sender, code, total - quantity)
    case Claim(id, wallet, preImage) =>
      tx.inputs == [id] && id < |outputs| && outputs[id].owner.Locked? &&
      var script := outputs[id].owner.script;
      script.recipient == wallet && H(preImage) == script.hash && now < script.deadline &&
      tx.outputs == [outputs[id].(owner := Plain(wallet))]
    case Reclaim(id, wallet) =>
      tx.inputs == [id] && id < |outputs| && outputs[id].owner.Locked? &&
      var script := outputs[id].owner.script;
      script.sender == wallet && script.deadline <= now &&
      tx.outputs == [outputs[id].(owner := Plain(wallet))]
  }

  predicate InputsUnspent(l: Ledger, tx: Tx) {
    forall i :: i in tx.inputs ==> Unspent(l, i)
  }

  /** What the endorsers check. */
  predicate Valid(H: Bytes -> Bytes, l: Ledger, tx: Tx, now: nat) {
    InputsUnspent(l, tx) && Shape(H, l.outputs, tx, now)
  }

  function MarkSpent(spent: map<nat, Spend>, inputs: seq<nat>, spend: Spend): (r: map<nat, Spend>)
    ensures r.Keys == spent.Keys + Ids(inputs)
    ensures forall i :: i in r ==> r[i] == if i in inputs then spend else spent[i]
  {
    if inputs == [] then spent
    else
      assert inputs == [inputs[0]] + inputs[1..];
      MarkSpent(spent, inputs[1..], spend)[inputs[0] := spend]
  }

  /** The ledger after `tx` is committed at time `now`. */
  function Apply(l: Ledger, tx: Tx, now: nat): Ledger {
    Ledger(
      l.outputs + tx.outputs,
      MarkSpent(l.spent, tx.inputs, Spend(tx.action, now)),
      if tx.action.Lock? then l.lockCalls[|l.outputs| := tx.action.call] else l.lockCalls,
      l.log + [tx])
  }

  function ClaimTx(l: Ledger, id: nat, wallet: Wallet, preImage: Bytes): Tx
    requires id < |l.outputs|
  {
    Tx(Claim(id, wallet, preImage), [id], [l.outputs[id].(owner := Plain(wallet))])
  }

  function ReclaimTx(l: Ledger, id: nat, wallet: Wallet): Tx
    requires id < |l.outputs|
  {
    Tx(Reclaim(id, wallet), [id], [l.outputs[id].(owner := Plain(wallet))])
  }

  // ---------------------------------------------------------------------------------------------
  // History

  function IssuedBy(tx: Tx, code: Code): nat {
    if tx.action.Issue? && tx.action.code == code then tx.action.quantity else 0
  }

  function RedeemedBy(tx: Tx, code: Code): nat {
    if tx.action.Redeem? && tx.action.code == code then tx.action.quantity else 0
  }

  function Issued(log: seq<Tx>, code: Code): nat {
    if log == [] then 0 else Issued(log[..|log| - 1], code) + IssuedBy(log[|log| - 1], code)
  }

  function Redeemed(log: seq<Tx>, code: Code): nat {
    if log == [] then 0 else Redeemed(log[..|log| - 1], code) + RedeemedBy(log[|log| - 1], code)
  }

  /** `later` is `l` with a longer history: nothing committed before is undone or altered. */
  predicate Extends(l: Ledger, later: Ledger) {
    l.outputs <= later.outputs &&
    l.log <= later.log &&
    (forall i :: i in l.spent ==> i in later.spent && later.spent[i] == l.spent[i]) &&
    (forall i :: i in l.lockCalls ==> i in later.lockCalls && later.lockCalls[i] == l.lockCalls[i])
  }

  // ---------------------------------------------------------------------------------------------
  // The ledger invariant

  /** Every spent lock was settled by its recipient with a pre-image, or by its sender after the deadline. */
  predicate SettledProperly(H: Bytes -> Bytes, l: Ledger, id: nat)
    requires id < |l.outputs| && l.outputs[id].owner.Locked? && id in l.spent
  {
    var script, spend := l.outputs[id].owner.script, l.spent[id];
    match spend.action
    case Claim(i, wallet, preImage) => i == id && wallet == script.recipient && H(preImage) == script.hash
    case Reclaim(i, wallet) => i == id && wallet == script.sender && script.deadline <= spend.at
    case _ => false
  }

  /** Spent is exactly what the logged transactions consume, and no two of them share an input. */
  ghost predicate LogAgrees(l: Ledger) {
    (forall i :: i in l.spent <==> exists j :: 0 <= j < |l.log| && i in l.log[j].inputs) &&
    (forall j, k :: 0 <= j < k < |l.log| ==> Ids(l.log[j].inputs) !! Ids(l.log[k].inputs))
  }

  ghost predicate CallsAgree(l: Ledger) {
    (forall i :: 0 <= i < |l.outputs| && l.outputs[i].owner.Locked? ==> i in l.lockCalls) &&
    (forall i :: i in l.lockCalls ==>
                   i < |l.outputs| && l.outputs[i].owner.Locked? &&
                   l.outputs[i].owner.script.deadline == l.lockCalls[i].at + l.lockCalls[i].seconds * NANOS)
  }

  ghost predicate Conserved(l: Ledger, code: Code) {
    Sum(l.outputs, SpendableIds(l), code) + Sum(l.outputs, LockedIds(l), code) + Redeemed(l.log, code)
    == Issued(l.log, code)
  }

  ghost predicate LedgerInv(H: Bytes -> Bytes, l: Ledger, now: nat) {
    (forall i :: i in l.spent ==> i < |l.outputs| && l.spent[i].at <= now) &&
    (forall i :: i in l.spent && l.outputs[i].owner.Locked? ==> SettledProperly(H, l, i)) &&
    LogAgrees(l) &&
    CallsAgree(l) &&
    (forall code :: Conserved(l, code))
  }

  // ---------------------------------------------------------------------------------------------
  // Proofs

  /** Outputs are append-only, so a validated transaction stays well formed while others are committed. */
  lemma ShapeStable(H: Bytes -> Bytes, outputs: seq<Token>, more: seq<Token>, tx: Tx, now: nat)
    requires Shape(H, outputs, tx, now)
    ensures Shape(H, outputs + more, tx, now)
  {
    match tx.action
    case Issue(_, _, _) =>
    case Transfer(_, _, code, _) => SumIgnoresNew(outputs, more, Ids(tx.inputs), code);
    case Redeem(_, code, _) => SumIgnoresNew(outputs, more, Ids(tx.inputs), code);
    case Lock(_, code, _, _) => SumIgnoresNew(outputs, more, Ids(tx.inputs), code);
    case Claim(_, _, _) =>
    case Reclaim(_, _) =>
  }

  lemma SumAllPair(a: Token, rest: seq<Token>, code: Code)
    requires |rest| <= 1
    ensures SumAll([a] + rest, code) == SumAll([a], code) + SumAll(rest, code)
    ensures SumAll([a], code) == if a.code == code then a.quantity else 0
    ensures SumAll(rest, code) == if |rest| == 1 && rest[0].code == code then rest[0].quantity else 0
  {
    assert SumAll([a], code) == SumAll([], code) + (if a.code == code then a.quantity else 0) by {
      assert [a][..0] == [];
    }
    if |rest| == 1 {
      assert rest[..0] == [];
      assert ([a] + rest)[..1] == [a];
    } else {
      assert [a] + rest == [a];
    }
  }

  /** A well-formed transaction creates what it consumes, plus what it issues, minus what it redeems. */
  lemma TxBalances(H: Bytes -> Bytes, outputs: seq<Token>, tx: Tx, now: nat, code: Code)
    requires Shape(H, outputs, tx, now)
    ensures SumAll(tx.outputs, code) + RedeemedBy(tx, code) == Sum(outputs, Ids(tx.inputs), code) + IssuedBy(tx, code)
  {
    match tx.action
    case Issue(_, _, _) =>
      SumOutOfRange(outputs, Ids(tx.inputs), code);
      SumAllPair(tx.outputs[0], [], code);
      assert tx.outputs == [tx.outputs[0]] + [];
    case Transfer(sender, _, c, quantity) =>
      SumAllPair(tx.outputs[0], Change(sender, c, Sum(outputs, Ids(tx.inputs), c) - quantity), code);
      if code != c { SumOfOtherCode(outputs, Ids(tx.inputs), c, code); }
    case Redeem(sender, c, quantity) =>
      SumAllPair(Token(Plain(sender), c, 0), tx.outputs, code);
      if code != c { SumOfOtherCode(outputs, Ids(tx.inputs), c, code); }
    case Lock(script, c, quantity, _) =>
      SumAllPair(tx.outputs[0], Change(script.sender, c, Sum(outputs, Ids(tx.inputs), c) - quantity), code);
      if code != c { SumOfOtherCode(outputs, Ids(tx.inputs), c, code); }
    case Claim(id, _, _) =>
      assert Ids(tx.inputs) == {id};
      SumSingleton(outputs, id, code);
      SumAllPair(tx.outputs[0], [], code);
      assert tx.outputs == [tx.outputs[0]] + [];
    case Reclaim(id, _) =>
      assert Ids(tx.inputs) == {id};
      SumSingleton(outputs, id, code);
      SumAllPair(tx.outputs[0], [], code);
      assert tx.outputs == [tx.outputs[0]] + [];
  }

  lemma UnspentValue(l: Ledger, code: Code)
    ensures Sum(l.outputs, UnspentIds(l), code) ==
            Sum(l.outputs, SpendableIds(l), code) + Sum(l.outputs, LockedIds(l), code)
  {
    SumSplit(l.outputs, SpendableIds(l), LockedIds(l), code);
    assert UnspentIds(l) == SpendableIds(l) + LockedIds(l);
  }

  lemma ApplyConserves(H: Bytes -> Bytes, l: Ledger, tx: Tx, e: nat, now: nat, code: Code)
    requires InputsUnspent(l, tx) && Shape(H, l.outputs, tx, e)
    requires Conserved(l, code) && forall i :: i in l.spent ==> i < |l.outputs|
    ensures Conserved(Apply(l, tx, now), code)
  {
    var l' := Apply(l, tx, now);
    var before, after := UnspentIds(l), UnspentIds(l');
    UnspentValue(l, code);
    UnspentValue(l', code);
    SumAppend(l.outputs, tx.outputs, after, code);
    var spent := Ids(tx.inputs);
    SumAgree(l.outputs, after, before - spent, code);
    SumSplit(l.outputs, before - spent, spent, code);
    assert (before - spent) + spent == before;
    TxBalances(H, l.outputs, tx, e, code);
    assert l'.log[..|l'.log| - 1] == l.log;
  }

  lemma ApplyLog(l: Ledger, tx: Tx, now: nat)
    requires InputsUnspent(l, tx) && LogAgrees(l)
    ensures LogAgrees(Apply(l, tx, now))
  {
    var l' := Apply(l, tx, now);
    var n := |l.log|;
    assert forall j :: 0 <= j < n ==> l'.log[j] == l.log[j];
    assert l'.log[n] == tx;
    forall i ensures i in l'.spent <==> exists j :: 0 <= j < |l'.log| && i in l'.log[j].inputs {
      if i in l.spent {
        var j :| 0 <= j < n && i in l.log[j].inputs;
        assert i in l'.log[j].inputs;
      }
      if i in tx.inputs {
        assert i in l'.log[n].inputs;
      }
    }
    forall j, k | 0 <= j < k < |l'.log| ensures Ids(l'.log[j].inputs) !! Ids(l'.log[k].inputs) {
      if k == n {
        forall i | i in tx.inputs ensures i !in l.log[j].inputs {
          assert i !in l.spent;
        }
      }
    }
  }

  lemma CallsAfterApply(H: Bytes -> Bytes, l: Ledger, tx: Tx, e: nat, now: nat)
    requires CallsAgree(l) && Shape(H, l.outputs, tx, e)
    requires tx.action.Lock? ==> tx.action.script.deadline == tx.action.call.at + tx.action.call.seconds * NANOS
    ensures CallsAgree(Apply(l, tx, now))
  {
    var l' := Apply(l, tx, now);
    var n := |l.outputs|;
    assert forall i :: 0 <= i < n ==> l'.outputs[i] == l.outputs[i];
    assert forall i :: n <= i < |l'.outputs| ==> l'.outputs[i] == tx.outputs[i - n];
    assert forall k :: 0 <= k < |tx.outputs| ==> (tx.outputs[k].owner.Locked? <==> tx.action.Lock? && k == 0);
    forall i | 0 <= i < |l'.outputs| && l'.outputs[i].owner.Locked? ensures i in l'.lockCalls {
      if i >= n { assert tx.outputs[i - n].owner.Locked?; }
    }
    if tx.action.Lock? {
      assert l'.outputs[n] == tx.outputs[0];
    }
  }

  lemma SpentAfterApply(l: Ledger, tx: Tx, now: nat)
    requires InputsUnspent(l, tx) && forall i :: i in l.spent ==> i < |l.outputs| && l.spent[i].at <= now
    ensures var l' := Apply(l, tx, now);
            forall i :: i in l'.spent ==> i < |l.outputs| && l'.spent[i].at <= now
  {
    assert forall i :: i in Ids(tx.inputs) ==> Unspent(l, i);
  }

  lemma ConservedAfterApply(H: Bytes -> Bytes, l: Ledger, tx: Tx, e: nat, now: nat)
    requires LedgerInv(H, l, now) && InputsUnspent(l, tx) && Shape(H, l.outputs, tx, e)
    ensures forall code :: Conserved(Apply(l, tx, now), code)
  {
    forall code ensures Conserved(Apply(l, tx, now), code) {
      ApplyConserves(H, l, tx, e, now, code);
    }
  }

  lemma SettledAfterApply(H: Bytes -> Bytes, l: Ledger, tx: Tx, e: nat, now: nat, i: nat)
    requires InputsUnspent(l, tx) && Shape(H, l.outputs, tx, e) && e <= now
    requires i in Apply(l, tx, now).spent && i < |l.outputs| && l.outputs[i].owner.Locked?
    requires i in l.spent ==> SettledProperly(H, l, i)
    ensures SettledProperly(H, Apply(l, tx, now), i)
  {
    assert Apply(l, tx, now).outputs[i] == l.outputs[i];
  }

  lemma ApplyExtends(l: Ledger, tx: Tx, now: nat)
    requires InputsUnspent(l, tx) && (forall i :: i in l.lockCalls ==> i < |l.outputs|)
    ensures Extends(l, Apply(l, tx, now))
  {
  }

  /** A transaction validated at `e` and committed at `now` keeps the ledger invariant. */
  lemma ApplyKeepsInv(H: Bytes -> Bytes, l: Ledger, tx: Tx, e: nat, now: nat)
    requires LedgerInv(H, l, now) && InputsUnspent(l, tx) && Shape(H, l.outputs, tx, e) && e <= now
    requires tx.action.Lock? ==> tx.action.script.deadline == tx.action.call.at + tx.action.call.seconds * NANOS
    ensures LedgerInv(H, Apply(l, tx, now), now)
  {
    var l' := Apply(l, tx, now);
    ConservedAfterApply(H, l, tx, e, now);
    SpentAfterApply(l, tx, now);
    assert LogAgrees(l') by { ApplyLog(l, tx, now); }
    assert CallsAgree(l') by { CallsAfterApply(H, l, tx, e, now); }
    forall i | i in l'.spent && l'.outputs[i].owner.Locked? ensures SettledProperly(H, l', i) {
      SettledAfterApply(H, l, tx, e, now, i);
    }
  }

  lemma ExtendsTransitive(a: Ledger, b: Ledger, c: Ledger)
    requires Extends(a, b) && Extends(b, c)
    ensures Extends(a, c)
  {
  }
}
