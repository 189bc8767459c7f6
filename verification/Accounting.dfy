/** What each kind of transaction does to the balances of the wallets, and when a payment can be covered. */
module Accounting {
  import opened Basics
  import opened Ledgers

  /** The part of `outputs` that goes to one wallet. */
  function SumTo(outputs: seq<Token>, wallet: Wallet, code: Code): nat {
    if outputs == [] then 0
    else
      var n := |outputs| - 1;
      SumTo(outputs[..n], wallet, code) +
      (if outputs[n].owner == Plain(wallet) && outputs[n].code == code then outputs[n].quantity else 0)
  }

  /** The part of the inputs that a wallet can spend. */
  function Spends(l: Ledger, tx: Tx, wallet: Wallet, code: Code): nat {
    Sum(l.outputs, Ids(tx.inputs) * WalletIds(l, wallet, code), code)
  }

  lemma {:induction false} SumAppendTo(outputs: seq<Token>, more: seq<Token>, ids: set<nat>, wallet: Wallet, code: Code)
    requires forall i :: |outputs| <= i < |outputs| + |more| ==>
                           (i in ids <==> more[i - |outputs|].owner == Plain(wallet) &&
                                          more[i - |outputs|].code == code)
    ensures Sum(outputs + more, ids, code) == Sum(outputs, ids, code) + SumTo(more, wallet, code)
  {
    if more == [] {
      assert outputs + more == outputs;
    } else {
      var n := |more| - 1;
      SumAppendTo(outputs, more[..n], ids, wallet, code);
      assert (outputs + more)[..|outputs| + n] == outputs + more[..n];
    }
  }

  /** A commit changes a balance by what the wallet receives minus what it spends. */
  lemma BalanceAfter(l: Ledger, tx: Tx, now: nat, wallet: Wallet, code: Code)
    requires InputsUnspent(l, tx) && forall i :: i in l.spent ==> i < |l.outputs|
    ensures WalletBalance(Apply(l, tx, now), wallet, code) + Spends(l, tx, wallet, code)
         == WalletBalance(l, wallet, code) + SumTo(tx.outputs, wallet, code)
  {
    var l' := Apply(l, tx, now);
    var before, after := WalletIds(l, wallet, code), WalletIds(l', wallet, code);
    var used := Ids(tx.inputs) * before;
    SumAppendTo(l.outputs, tx.outputs, after, wallet, code);
    SumAgree(l.outputs, after, before - used, code);
    SumSplit(l.outputs, before - used, used, code);
    assert (before - used) + used == before;
  }

  lemma SumToPair(a: Token, rest: seq<Token>, wallet: Wallet, code: Code)
    requires |rest| <= 1
    ensures SumTo([a] + rest, wallet, code) == SumTo([a], wallet, code) + SumTo(rest, wallet, code)
    ensures SumTo([a], wallet, code) == if a.owner == Plain(wallet) && a.code == code then a.quantity else 0
    ensures SumTo(rest, wallet, code) ==
            if |rest| == 1 && rest[0].owner == Plain(wallet) && rest[0].code == code then rest[0].quantity else 0
  {
    assert [a][..0] == [];
    assert SumTo([a], wallet, code) == SumTo([], wallet, code)
                                       + (if a.owner == Plain(wallet) && a.code == code then a.quantity else 0);
    if |rest| == 1 {
      assert rest[..0] == [];
      assert ([a] + rest)[..1] == [a];
    } else {
      assert [a] + rest == [a];
    }
  }

  /** The inputs of a payment are spent by their owner alone. */
  lemma SpendsOfPayment(l: Ledger, tx: Tx, sender: Wallet, c: Code, wallet: Wallet, code: Code)
    requires InputsUnspent(l, tx) && OwnedBy(l.outputs, tx.inputs, sender, c)
    ensures Spends(l, tx, wallet, code) == if wallet == sender &&
                                              code == c then Sum(l.outputs, Ids(tx.inputs), c) else 0
  {
    if wallet == sender && code == c {
      assert Ids(tx.inputs) * WalletIds(l, wallet, code) == Ids(tx.inputs);
    } else {
      assert Ids(tx.inputs) * WalletIds(l, wallet, code) == {};
      SumOutOfRange(l.outputs, {}, code);
    }
  }

  function Delta(condition: bool, quantity: nat): int {
    if condition then quantity else 0
  }

  /** A transfer takes exactly the quantity from the sender and gives it to the recipient; change comes back. */
  lemma TransferBalances(H: Bytes -> Bytes, l: Ledger, tx: Tx, e: nat, now: nat, wallet: Wallet, code: Code)
    requires tx.action.Transfer? && Valid(H, l, tx, e) && forall i :: i in l.spent ==> i < |l.outputs|
    ensures WalletBalance(Apply(l, tx, now), wallet, code) ==
            WalletBalance(l, wallet, code)
            - Delta(wallet == tx.action.sender && code == tx.action.code, tx.action.quantity)
            + Delta(wallet == tx.action.recipient && code == tx.action.code, tx.action.quantity)
  {
    var a := tx.action;
    BalanceAfter(l, tx, now, wallet, code);
    SpendsOfPayment(l, tx, a.sender, a.code, wallet, code);
    SumToPair(tx.outputs[0], Change(a.sender, a.code, Sum(l.outputs, Ids(tx.inputs), a.code) - a.quantity), wallet,
              code);
  }

  /** A redemption takes exactly the quantity from the sender and from nobody else. */
  lemma RedeemBalances(H: Bytes -> Bytes, l: Ledger, tx: Tx, e: nat, now: nat, wallet: Wallet, code: Code)
    requires tx.action.Redeem? && Valid(H, l, tx, e) && forall i :: i in l.spent ==> i < |l.outputs|
    ensures WalletBalance(Apply(l, tx, now), wallet, code) ==
            WalletBalance(l, wallet, code)
            - Delta(wallet == tx.action.sender && code == tx.action.code, tx.action.quantity)
  {
    var a := tx.action;
    BalanceAfter(l, tx, now, wallet, code);
    SpendsOfPayment(l, tx, a.sender, a.code, wallet, code);
    SumToPair(Token(Plain(a.sender), a.code, 0), tx.outputs, wallet, code);
  }

  /** A lock takes exactly the quantity from the spendable balance of the sender; nobody can spend it yet. */
  lemma LockBalances(H: Bytes -> Bytes, l: Ledger, tx: Tx, e: nat, now: nat, wallet: Wallet, code: Code)
    requires tx.action.Lock? && Valid(H, l, tx, e) && forall i :: i in l.spent ==> i < |l.outputs|
    ensures WalletBalance(Apply(l, tx, now), wallet, code) ==
            WalletBalance(l, wallet, code)
            - Delta(wallet == tx.action.script.sender && code == tx.action.code, tx.action.quantity)
  {
    var a := tx.action;
    BalanceAfter(l, tx, now, wallet, code);
    SpendsOfPayment(l, tx, a.script.sender, a.code, wallet, code);
    SumToPair(tx.outputs[0], Change(a.script.sender, a.code, Sum(l.outputs, Ids(tx.inputs), a.code) - a.quantity),
              wallet, code);
  }

  /** Issuing credits the recipient, claiming the recipient of the lock, reclaiming its sender: in full,
      and only them. */
  lemma CreditBalances(H: Bytes -> Bytes, l: Ledger, tx: Tx, e: nat, now: nat, wallet: Wallet, code: Code)
    requires tx.action.Issue? || tx.action.Claim? || tx.action.Reclaim?
    requires Valid(H, l, tx, e) && forall i :: i in l.spent ==> i < |l.outputs|
    ensures WalletBalance(Apply(l, tx, now), wallet, code) ==
            WalletBalance(l, wallet, code)
            + (match tx.action
               case Issue(recipient, c, quantity) => Delta(wallet == recipient && code == c, quantity)
               case Claim(id, _, _) =>
                 Delta(wallet == l.outputs[id].owner.script.recipient &&
                       code == l.outputs[id].code, l.outputs[id].quantity)
               case Reclaim(id, _) =>
                 Delta(wallet == l.outputs[id].owner.script.sender &&
                       code == l.outputs[id].code, l.outputs[id].quantity))
  {
    BalanceAfter(l, tx, now, wallet, code);
    assert Ids(tx.inputs) * WalletIds(l, wallet, code) == {};
    SumOutOfRange(l.outputs, {}, code);
    SumToPair(tx.outputs[0], [], wallet, code);
    assert tx.outputs == [tx.outputs[0]] + [];
  }

  // ---------------------------------------------------------------------------------------------
  // Selection

  /** A choice of unspent tokens of the wallet that covers the quantity. */
  predicate Covers(l: Ledger, inputs: seq<nat>, wallet: Wallet, code: Code, quantity: nat) {
    OwnedBy(l.outputs, inputs, wallet, code) &&
    (forall i :: i in inputs ==> Unspent(l, i)) &&
    quantity <= Sum(l.outputs, Ids(inputs), code)
  }

  lemma {:induction false} Listing(ids: set<nat>) returns (s: seq<nat>)
    ensures Ids(s) == ids
    decreases |ids|
  {
    if ids == {} {
      s := [];
    } else {
      var i :| i in ids;
      var rest := Listing(ids - {i});
      s := [i] + rest;
      assert forall j :: j in s <==> j == i || j in Ids(rest);
    }
  }

  /** Tokens can be selected exactly when the wallet's balance of the code covers the quantity. */
  lemma SelectionIffCovered(l: Ledger, wallet: Wallet, code: Code, quantity: nat)
    ensures (exists inputs :: Covers(l, inputs, wallet, code, quantity)) <==> quantity <= WalletBalance(l, wallet, code)
  {
    if quantity <= WalletBalance(l, wallet, code) {
      var inputs := Listing(WalletIds(l, wallet, code));
      assert forall i :: i in inputs ==> i in Ids(inputs);
      assert Covers(l, inputs, wallet, code, quantity);
    }
    forall inputs | Covers(l, inputs, wallet, code, quantity) ensures quantity <= WalletBalance(l, wallet, code) {
      SumMonotone(l.outputs, Ids(inputs), WalletIds(l, wallet, code), code);
    }
  }
}
