/**
 The token database of an owner node. It follows the committed transactions: own outputs are added, spent ones dropped.
 It always lists exactly the node's unspent tokens of the ledger, and so do the balances computed from it.
 */
module TokenStores {
  import opened Basics
  import opened Ledgers
  import opened OwnerAccounts
  import opened Quantities
  import opened Worlds

  // ---------------------------------------------------------------------------------------------
  // The ledger is its history

  /** All outputs that the transactions of `log` created, in order. */
  function OutputsOf(log: seq<Tx>): seq<Token> {
    if log == [] then [] else OutputsOf(log[..|log| - 1]) + log[|log| - 1].outputs
  }

  function InputsOf(log: seq<Tx>): set<nat> {
    if log == [] then {} else InputsOf(log[..|log| - 1]) + Ids(log[|log| - 1].inputs)
  }

  /** What the ordering lets through: each transaction spends earlier outputs, each output at most once. */
  predicate Committed(log: seq<Tx>) {
    log == [] ||
    var before, tx := log[..|log| - 1], log[|log| - 1];
    Committed(before) && forall i :: i in tx.inputs ==> i < |OutputsOf(before)| && i !in InputsOf(before)
  }

  predicate HasHistory(l: Ledger) {
    Committed(l.log) && l.outputs == OutputsOf(l.log) && l.spent.Keys == InputsOf(l.log)
  }

  lemma ApplyHistory(l: Ledger, tx: Tx, now: nat)
    requires HasHistory(l) && InputsUnspent(l, tx)
    ensures HasHistory(Apply(l, tx, now))
  {
    assert Apply(l, tx, now).log[..|l.log|] == l.log;
  }

  /** Every reachable ledger is the result of its log. */
  lemma {:induction false} ReachableHistory(H: Bytes -> Bytes, tmss: set<TmsId>, run: Run, t: TmsId)
    requires t in Exec(H, InitialWorld(tmss), run).ledgers
    ensures HasHistory(Exec(H, InitialWorld(tmss), run).ledgers[t])
  {
    match run
    case Start =>
    case Then(before, step) =>
      var w := Exec(H, InitialWorld(tmss), before);
      ReachableHistory(H, tmss, before, t);
      if step.Commit? && Committable(w, step.id) && w.pending[step.id].tms == t {
        ApplyHistory(w.ledgers[t], w.pending[step.id].tx, w.clock);
      }
  }

  lemma {:induction false} OutputAt(log: seq<Tx>, j: nat, k: nat)
    requires j < |log| && k < |log[j].outputs|
    ensures |OutputsOf(log[..j])| + k < |OutputsOf(log)|
    ensures OutputsOf(log)[|OutputsOf(log[..j])| + k] == log[j].outputs[k]
  {
    var n := |log| - 1;
    if j < n {
      OutputAt(log[..n], j, k);
      assert log[..n][..j] == log[..j];
    }
  }

  // ---------------------------------------------------------------------------------------------
  // What the database holds

  /** Rows by token, a token being identified by its position on the ledger. */
  type TokenDb = map<nat, seq<Row>>

  predicate IsMine(token: Token, mine: set<Wallet>) {
    token.owner.Plain? && token.owner.wallet in mine
  }

  function RowOf(token: Token): Row
    requires token.owner.Plain?
  {
    Row(token.owner.wallet, token.code, Hex(token.quantity))
  }

  predicate MirrorsAt(db: TokenDb, outputs: seq<Token>, spent: set<nat>, mine: set<Wallet>, id: nat) {
    if id < |outputs| && id !in spent && IsMine(outputs[id], mine) then id in db && db[id] == [RowOf(outputs[id])]
    else id !in db
  }

  /** Exactly the unspent tokens of the node's own wallets, as on the ledger. */
  ghost predicate Mirrors(db: TokenDb, outputs: seq<Token>, spent: set<nat>, mine: set<Wallet>) {
    (forall id: nat :: id in db <==> id < |outputs| && id !in spent && IsMine(outputs[id], mine)) &&
    (forall id: nat :: id in db ==> db[id] == [RowOf(outputs[id])])
  }

  lemma MirrorsEverywhere(db: TokenDb, outputs: seq<Token>, spent: set<nat>, mine: set<Wallet>)
    requires forall id: nat :: MirrorsAt(db, outputs, spent, mine, id)
    ensures Mirrors(db, outputs, spent, mine)
  {
    forall id: nat ensures id in db <==> id < |outputs| && id !in spent && IsMine(outputs[id], mine) {
      assert MirrorsAt(db, outputs, spent, mine, id);
    }
    forall id: nat | id in db ensures db[id] == [RowOf(outputs[id])] {
      assert MirrorsAt(db, outputs, spent, mine, id);
    }
  }

  /** The own outputs of a transaction, the first output of which is at `first`, are added. */
  function AddOwn(db: TokenDb, first: nat, outputs: seq<Token>, mine: set<Wallet>): TokenDb {
    if outputs == [] then db
    else
      var n := |outputs| - 1;
      var before := AddOwn(db, first, outputs[..n], mine);
      if IsMine(outputs[n], mine) then before[first + n := [RowOf(outputs[n])]] else before
  }

  /** The database after all transactions of `log`. */
  function FromLog(log: seq<Tx>, mine: set<Wallet>): TokenDb {
    if log == [] then map[]
    else
      var before, tx := log[..|log| - 1], log[|log| - 1];
      AddOwn(FromLog(before, mine) - Ids(tx.inputs), |OutputsOf(before)|, tx.outputs, mine)
  }

  lemma {:induction false} AddOwnAt(db: TokenDb, first: nat, outputs: seq<Token>, mine: set<Wallet>, id: nat)
    ensures var after := AddOwn(db, first, outputs, mine);
            if first <= id < first + |outputs| && IsMine(outputs[id - first], mine) then
              id in after && after[id] == [RowOf(outputs[id - first])]
            else (id in after <==> id in db) && (id in db ==> after[id] == db[id])
  {
    if outputs != [] { AddOwnAt(db, first, outputs[..|outputs| - 1], mine, id); }
  }

  lemma ProcessMirrors(db: TokenDb, outputs: seq<Token>, spent: set<nat>, inputs: set<nat>, more: seq<Token>,
                       mine: set<Wallet>)
    requires Mirrors(db, outputs, spent, mine)
    requires (forall id :: id in spent ==> id < |outputs|) && (forall id :: id in inputs ==> id < |outputs|)
    ensures Mirrors(AddOwn(db - inputs, |outputs|, more, mine), outputs + more, spent + inputs, mine)
  {
    forall id: nat ensures MirrorsAt(AddOwn(db - inputs, |outputs|, more, mine), outputs + more, spent + inputs,
                                     mine, id) {
      assert MirrorsAt(db, outputs, spent, mine, id);
      AddOwnAt(db - inputs, |outputs|, more, mine, id);
      if id < |outputs| {
        assert (outputs + more)[id] == outputs[id];
      } else if id < |outputs| + |more| {
        assert (outputs + more)[id] == more[id - |outputs|];
      }
    }
    MirrorsEverywhere(AddOwn(db - inputs, |outputs|, more, mine), outputs + more, spent + inputs, mine);
  }

  lemma {:induction false} InputsInRange(log: seq<Tx>)
    requires Committed(log)
    ensures forall id :: id in InputsOf(log) ==> id < |OutputsOf(log)|
  {
    if log != [] { InputsInRange(log[..|log| - 1]); }
  }

  /** Following the committed transactions, the database always lists exactly the unspent own tokens. */
  lemma {:induction false} LogMirrors(log: seq<Tx>, mine: set<Wallet>)
    requires Committed(log)
    ensures Mirrors(FromLog(log, mine), OutputsOf(log), InputsOf(log), mine)
  {
    if log != [] {
      var before, tx := log[..|log| - 1], log[|log| - 1];
      LogMirrors(before, mine);
      InputsInRange(before);
      ProcessMirrors(FromLog(before, mine), OutputsOf(before), InputsOf(before), Ids(tx.inputs), tx.outputs, mine);
    }
  }

  /** After any committed log, every row belongs to a wallet of the node. */
  lemma RowsAreOwn(log: seq<Tx>, mine: set<Wallet>, id: nat)
    requires Committed(log) && id in FromLog(log, mine)
    ensures id < |OutputsOf(log)| && |FromLog(log, mine)[id]| == 1 && FromLog(log, mine)[id][0].owner in mine
    ensures OutputsOf(log)[id].owner == Plain(FromLog(log, mine)[id][0].owner)
  {
    LogMirrors(log, mine);
  }

  /** Ownership, written out. */
  lemma MineMeans(token: Token, mine: set<Wallet>)
    ensures IsMine(token, mine) <==> exists x :: x in mine && token.owner == Plain(x)
  {
    if IsMine(token, mine) { assert token.owner == Plain(token.owner.wallet); }
  }

  /** For every ledger of every run, the database that followed it agrees with it. */
  lemma StoreAgreesWithLedger(H: Bytes -> Bytes, tmss: set<TmsId>, run: Run, t: TmsId, mine: set<Wallet>)
    requires t in Exec(H, InitialWorld(tmss), run).ledgers
    ensures var l := Exec(H, InitialWorld(tmss), run).ledgers[t];
            var db := FromLog(l.log, mine);
            Committed(l.log) && Mirrors(db, l.outputs, l.spent.Keys, mine) &&
            (forall id: nat :: id in db <==> id < |l.outputs| && id !in l.spent &&
                                             exists x :: x in mine && l.outputs[id].owner == Plain(x)) &&
            (forall id: nat :: id in db ==>
                                 l.outputs[id].owner.Plain? &&
                                 db[id] == [Row(l.outputs[id].owner.wallet, l.outputs[id].code,
                                                Hex(l.outputs[id].quantity))])
  {
    var l := Exec(H, InitialWorld(tmss), run).ledgers[t];
    ReachableHistory(H, tmss, run, t);
    LogMirrors(l.log, mine);
    forall id: nat | id < |l.outputs|
      ensures IsMine(l.outputs[id], mine) <==> exists x :: x in mine && l.outputs[id].owner == Plain(x)
    {
      MineMeans(l.outputs[id], mine);
    }
  }

  // ---------------------------------------------------------------------------------------------
  // Balances from the database

  /** `ids` are the tokens of a wallet in the database, each once, in any order. */
  predicate ListsWallet(ids: seq<nat>, db: TokenDb, wallet: Wallet) {
    (forall i, j :: 0 <= i < j < |ids| ==> ids[i] != ids[j]) &&
    (forall id :: id in ids ==> id in db && |db[id]| == 1 && db[id][0].owner == wallet) &&
    (forall id :: id in db && |db[id]| == 1 && db[id][0].owner == wallet ==> id in ids)
  }

  function RowsAt(ids: seq<nat>, db: TokenDb): seq<Row>
    requires forall id :: id in ids ==> id in db && |db[id]| == 1
  {
    seq(|ids|, i requires 0 <= i < |ids| => db[ids[i]][0])
  }

  lemma OneMoreRow(rows: seq<Row>, row: Row, quantity: nat, code: Code)
    requires row.quantity == Hex(quantity) && ParseUint(row.quantity).Ok?
    ensures TotalOf(rows + [row], code) == TotalOf(rows, code) + (if row.code == code then quantity else 0)
  {
    HexRoundTrip(quantity);
    assert (rows + [row])[..|rows|] == rows;
  }

  lemma OneMoreId(outputs: seq<Token>, ids: seq<nat>, id: nat, code: Code)
    requires id !in ids
    ensures Sum(outputs, Ids(ids + [id]), code) ==
            Sum(outputs, Ids(ids), code) + (if id < |outputs| &&
                                               outputs[id].code == code then outputs[id].quantity else 0)
  {
    assert Ids(ids + [id]) == Ids(ids) + {id};
    SumSplit(outputs, Ids(ids), {id}, code);
    SumSingleton(outputs, id, code);
  }

  lemma {:induction false} RowsTotal(outputs: seq<Token>, spent: set<nat>, mine: set<Wallet>, db: TokenDb,
                                     ids: seq<nat>, code: Code)
    requires Mirrors(db, outputs, spent, mine) && (forall id :: id in ids ==> id in db)
    requires forall i, j :: 0 <= i < j < |ids| ==> ids[i] != ids[j]
    requires Readable(RowsAt(ids, db))
    ensures TotalOf(RowsAt(ids, db), code) == Sum(outputs, Ids(ids), code)
  {
    if ids == [] {
      SumOutOfRange(outputs, Ids(ids), code);
    } else {
      var n := |ids| - 1;
      var rows, row := RowsAt(ids, db), RowsAt(ids, db)[n];
      assert ids == ids[..n] + [ids[n]] && rows == RowsAt(ids[..n], db) + [row];
      assert forall i :: 0 <= i < n ==> RowsAt(ids[..n], db)[i] == rows[i];
      RowsTotal(outputs, spent, mine, db, ids[..n], code);
      assert ids[n] in db && row == RowOf(outputs[ids[n]]);
      OneMoreRow(RowsAt(ids[..n], db), row, outputs[ids[n]].quantity, code);
      OneMoreId(outputs, ids[..n], ids[n], code);
    }
  }

  lemma WalletTotal(l: Ledger, mine: set<Wallet>, db: TokenDb, wallet: Wallet, ids: seq<nat>, code: Code)
    requires Mirrors(db, l.outputs, l.spent.Keys, mine) && wallet in mine
    requires ListsWallet(ids, db, wallet) && Readable(RowsAt(ids, db))
    ensures TotalOf(RowsAt(ids, db), code) == WalletBalance(l, wallet, code)
  {
    RowsTotal(l.outputs, l.spent.Keys, mine, db, ids, code);
    var own, coded := Ids(ids), WalletIds(l, wallet, code);
    assert forall id :: id in coded ==> id in db && id in ids;
    SumSplit(l.outputs, coded, own - coded, code);
    assert coded + (own - coded) == own;
    SumWithoutCode(l.outputs, own - coded, code);
  }

  lemma {:induction false} SumWithoutCode(outputs: seq<Token>, ids: set<nat>, code: Code)
    requires forall i :: i in ids && i < |outputs| ==> outputs[i].code != code
    ensures Sum(outputs, ids, code) == 0
  {
    if outputs != [] { SumWithoutCode(outputs[..|outputs| - 1], ids, code); }
  }

  /**
   For every ledger of every run, and the database of a node that followed it: the reported balances of a wallet, the
   tokens listed in any order, are those of the ledger modulo 2^64, the true ones exactly when they fit in 64 bits, and
   every code of which the wallet holds something is reported.
   */
  lemma BalancesAgreeWithLedger(H: Bytes -> Bytes, tmss: set<TmsId>, run: Run, t: TmsId, mine: set<Wallet>,
                                wallet: Wallet,
                                ids: seq<nat>, amounts: seq<Amount>)
    requires t in Exec(H, InitialWorld(tmss), run).ledgers && wallet in mine
    requires var db := FromLog(Exec(H, InitialWorld(tmss), run).ledgers[t].log, mine);
             ListsWallet(ids, db, wallet) && Readable(RowsAt(ids, db)) && AreBalances(amounts, RowsAt(ids, db))
    ensures var l := Exec(H, InitialWorld(tmss), run).ledgers[t];
            (forall i :: 0 <= i < |amounts| ==>
                           amounts[i].value == Wrap(WalletBalance(l, wallet, amounts[i].code)) &&
                           (amounts[i].value == WalletBalance(l, wallet, amounts[i].code)
                            <==> WalletBalance(l, wallet, amounts[i].code) < TWO_64)) &&
            (forall code :: WalletBalance(l, wallet, code) > 0 ==> exists i :: 0 <= i < |amounts| &&
                                                                               amounts[i].code == code)
  {
    var l := Exec(H, InitialWorld(tmss), run).ledgers[t];
    var db := FromLog(l.log, mine);
    StoreAgreesWithLedger(H, tmss, run, t, mine);
    forall i | 0 <= i < |amounts|
      ensures amounts[i].value == Wrap(WalletBalance(l, wallet, amounts[i].code)) &&
              (amounts[i].value == WalletBalance(l, wallet, amounts[i].code) <==>
               WalletBalance(l, wallet, amounts[i].code) < TWO_64)
    {
      WalletTotal(l, mine, db, wallet, ids, amounts[i].code);
      WrapIsExactIffFits(WalletBalance(l, wallet, amounts[i].code));
    }
    forall code | WalletBalance(l, wallet, code) > 0 ensures exists i :: 0 <= i < |amounts| && amounts[i].code == code {
      WalletTotal(l, mine, db, wallet, ids, code);
      if code !in CodesOf(RowsAt(ids, db)) { NoTokensOf(RowsAt(ids, db), code); }
    }
  }

  // ---------------------------------------------------------------------------------------------
  // The recipient's check

  predicate OutputAsserted(db: TokenDb, first: nat, k: nat, output: Token, mine: set<Wallet>) {
    if IsMine(output, mine) then
      first + k in db && |db[first + k]| == 1 &&
      db[first + k][0].quantity == Hex(output.quantity) && db[first + k][0].code == output.code
    else first + k !in db
  }

  /**
   The check that outputs of a transaction for the node's own wallets are in the database, as on the ledger, and others
   are not. The first output of the transaction is the token `first`.
   */
  method AssertTokens(db: TokenDb, first: nat, outputs: seq<Token>, mine: set<Wallet>) returns (ok: bool)
    ensures ok <==>
            forall k: nat :: k < |outputs| ==>
                               if outputs[k].owner.Plain? && outputs[k].owner.wallet in mine then
                                 first + k in db && |db[first + k]| == 1 &&
                                 db[first + k][0].quantity == Hex(outputs[k].quantity) &&
                                 db[first + k][0].code == outputs[k].code
                               else first + k !in db
  {
    for k := 0 to |outputs|
      invariant forall j: nat :: j < k ==> OutputAsserted(db, first, j, outputs[j], mine)
    {
      var output := outputs[k];
      if IsMine(output, mine) {
        if first + k !in db { assert !OutputAsserted(db, first, k, outputs[k], mine); return false; }
        var toks := db[first + k];
        if |toks| != 1 || Hex(output.quantity) != toks[0].quantity || output.code != toks[0].code {
          assert !OutputAsserted(db, first, k, outputs[k], mine);
          return false;
        }
      } else if first + k in db {
        assert !OutputAsserted(db, first, k, outputs[k], mine);
        return false;
      }
    }
    return true;
  }

  /** Tokens that pass the check are read back from the database with the quantity they have on the ledger. */
  lemma AssertedTokensReadBack(db: TokenDb, first: nat, k: nat, output: Token, mine: set<Wallet>)
    requires OutputAsserted(db, first, k, output, mine) && IsMine(output, mine) && output.quantity < TWO_64
    ensures ParseUint(db[first + k][0].quantity) == Ok(output.quantity)
  {
    HexRoundTrip(output.quantity);
  }

  lemma OutputPassesIff(log: seq<Tx>, at: nat, mine: set<Wallet>, k: nat)
    requires Committed(log) && at < |log| && k < |log[at].outputs|
    ensures var id := |OutputsOf(log[..at])| + k;
            OutputAsserted(FromLog(log, mine), |OutputsOf(log[..at])|, k, log[at].outputs[k], mine) <==>
            (IsMine(log[at].outputs[k], mine) ==> id !in InputsOf(log))
  {
    LogMirrors(log, mine);
    OutputAt(log, at, k);
    assert MirrorsAt(FromLog(log, mine), OutputsOf(log), InputsOf(log), mine, |OutputsOf(log[..at])| + k);
  }

  /** Against a database that follows the ledger, the check passes exactly when no own output is spent already. */
  lemma CheckPassesIff(log: seq<Tx>, at: nat, mine: set<Wallet>)
    requires Committed(log) && at < |log|
    ensures NoneSpent(log, at, mine) <==>
            forall k: nat :: k < |log[at].outputs| ==>
                               OutputAsserted(FromLog(log, mine), |OutputsOf(log[..at])|, k, log[at].outputs[k], mine)
  {
    forall k: nat | k < |log[at].outputs|
      ensures OutputAsserted(FromLog(log, mine), |OutputsOf(log[..at])|, k, log[at].outputs[k], mine) <==>
              (IsMine(log[at].outputs[k], mine) ==> |OutputsOf(log[..at])| + k !in InputsOf(log))
    {
      OutputPassesIff(log, at, mine, k);
    }
  }

  /** No own output of transaction `at` has been spent in `log`. */
  predicate NoneSpent(log: seq<Tx>, at: nat, mine: set<Wallet>)
    requires at < |log|
  {
    forall k :: 0 <= k < |log[at].outputs| && IsMine(log[at].outputs[k], mine) ==>
                  |OutputsOf(log[..at])| + k !in InputsOf(log)
  }

  // ---------------------------------------------------------------------------------------------
  // The node

  datatype TxStatus = Unknown | Pending | Confirmed | Deleted

  datatype AcceptResult = Refused | NotFinal | Aborted | Accepted

  /** The databases of an owner node; `log` is what it has seen of the ledger. */
  class OwnerStore {
    const mine: set<Wallet>
    var status: map<nat, TxStatus>
    var tokens: TokenDb
    var next: nat
    ghost var log: seq<Tx>

    ghost predicate Valid()
      reads this
    {
      Committed(log) && next == |OutputsOf(log)| && tokens == FromLog(log, mine)
    }

    constructor (mine: set<Wallet>)
      ensures Valid() && this.mine == mine && status == map[] && log == []
    {
      this.mine := mine;
      status, tokens, next, log := map[], map[], 0, [];
    }

    /** A committed transaction arrives: its inputs are dropped, its own outputs added. */
    method Process(tx: Tx)
      requires Valid() && Committed(log + [tx])
      modifies this
      ensures Valid() && log == old(log) + [tx] && status == old(status)
    {
      assert (log + [tx])[..|log|] == log;
      for k := 0 to |tx.inputs|
        invariant tokens == old(tokens) - Ids(tx.inputs[..k])
        invariant log == old(log) && next == old(next) && status == old(status)
      {
        assert Ids(tx.inputs[..k + 1]) == Ids(tx.inputs[..k]) + {tx.inputs[k]};
        tokens := tokens - {tx.inputs[k]};
      }
      assert tx.inputs[..|tx.inputs|] == tx.inputs;
      ghost var kept := tokens;
      for k := 0 to |tx.outputs|
        invariant tokens == AddOwn(kept, next, tx.outputs[..k], mine)
        invariant log == old(log) && next == old(next) && status == old(status)
      {
        assert tx.outputs[..k + 1][..k] == tx.outputs[..k];
        if IsMine(tx.outputs[k], mine) {
          tokens := tokens[next + k := [RowOf(tx.outputs[k])]];
        }
      }
      assert tx.outputs[..|tx.outputs|] == tx.outputs;
      next := next + |tx.outputs|;
      log := log + [tx];
    }

    method CatchUp(arriving: seq<Tx>)
      requires Valid() && Committed(log + arriving)
      modifies this
      ensures Valid() && log == old(log) + arriving && status == old(status)
    {
      for k := 0 to |arriving|
        invariant Valid() && log == old(log) + arriving[..k] && status == old(status)
      {
        NextCommitted(old(log), arriving, k);
        Process(arriving[k]);
        assert arriving[..k + 1] == arriving[..k] + [arriving[k]];
      }
      assert arriving[..|arriving|] == arriving;
    }

    /** The unspent tokens of a wallet, in whatever order the database yields them. */
    method ListUnspent(wallet: Wallet) returns (rows: seq<Row>, ghost ids: seq<nat>)
      ensures ListsWallet(ids, tokens, wallet) && rows == RowsAt(ids, tokens)
    {
      rows, ids := [], [];
      var todo := tokens.Keys;
      while todo != {}
        invariant todo <= tokens.Keys
        invariant forall i, j :: 0 <= i < j < |ids| ==> ids[i] != ids[j]
        invariant forall id :: id in ids <==> id in tokens && id !in todo && |tokens[id]| == 1 &&
                                              tokens[id][0].owner == wallet
        invariant rows == RowsAt(ids, tokens)
        decreases |todo|
      {
        var id :| id in todo;
        todo := todo - {id};
        if |tokens[id]| == 1 && tokens[id][0].owner == wallet {
          rows, ids := rows + tokens[id], ids + [id];
        }
      }
    }

    /**
     The balances of a wallet, from the database. With the ledger of the node's log, BalancesAgreeWithLedger says what
     they are worth.
     */
    method WalletBalances(wallet: Wallet) returns (r: Result<seq<Amount>, ParseError>)
      ensures exists ids :: ListsWallet(ids, tokens, wallet) &&
                            (r.Ok? <==> Readable(RowsAt(ids, tokens))) &&
                            (r.Ok? ==> AreBalances(r.value, RowsAt(ids, tokens)))
    {
      var rows, ids := ListUnspent(wallet);
      r := Balances(rows);
    }

    /** The closing check on the tokens of the transaction at `place` in the log. */
    method CheckTokens(first: nat, tx: Tx, ghost place: nat) returns (ok: bool)
      requires Valid() && place < |log| && log[place] == tx && first == |OutputsOf(log[..place])|
      ensures ok <==> NoneSpent(log, place, mine)
    {
      CheckPassesIff(log, place, mine);
      ok := AssertTokens(tokens, first, tx.outputs, mine);
    }

    /** Waiting until all of `arriving` is seen; `first` is the first output of the transaction at place `at`. */
    method Await(arriving: seq<Tx>, at: nat) returns (first: nat)
      requires Valid() && Committed(log + arriving) && at < |arriving|
      modifies this
      ensures Valid() && log == old(log) + arriving && status == old(status)
      ensures first == |OutputsOf(log[..|old(log)| + at])|
    {
      ghost var whole := log + arriving;
      assert whole[..|log| + at] == log + arriving[..at];
      CommittedPrefix(whole, |log| + at);
      CatchUp(arriving[..at]);
      first := next;
      assert log + arriving[at..] == whole;
      CatchUp(arriving[at..]);
    }

    /** The transaction is known and not final yet. */
    method Expect(id: nat)
      requires Valid()
      modifies this
      ensures Valid() && log == old(log) && tokens == old(tokens) && status == old(status)[id := TxStatus.Pending]
    {
      status := status[id := TxStatus.Pending];
    }

    method ExpectAndAwait(id: nat, arriving: seq<Tx>, at: nat) returns (first: nat)
      requires Valid() && Committed(log + arriving) && at < |arriving|
      modifies this
      ensures Valid() && log == old(log) + arriving && status == old(status)[id := TxStatus.Pending]
      ensures first == |OutputsOf(log[..|old(log)| + at])|
    {
      Expect(id);
      first := Await(arriving, at);
    }

    /** The rest of the view when the transaction is committed at place `at` of `arriving`. */
    method ConfirmCash(id: nat, tx: Tx, arriving: seq<Tx>, at: nat) returns (ok: bool, first: nat)
      requires Valid() && Committed(log + arriving) && at < |arriving| && arriving[at] == tx
      modifies this
      ensures Valid() && log == old(log) + arriving && status == old(status)[id := Confirmed]
      ensures first == |OutputsOf(log[..|old(log)| + at])|
      ensures ok <==> forall k :: 0 <= k < |tx.outputs| && (tx.outputs[k].owner.Plain? &&
                                                            tx.outputs[k].owner.wallet in mine) ==>
                                    first + k !in InputsOf(log)
    {
      ghost var place := |log| + at;
      first := ExpectAndAwait(id, arriving, at);
      assert log[place] == tx;
      ok := CheckTokens(first, tx, place);
      status := status[id := Confirmed];
    }

    /** The rest of the view when the transaction turns out not to be among those that arrive. */
    method DropCash(id: nat, arriving: seq<Tx>) returns (first: nat)
      requires Valid() && Committed(log + arriving)
      modifies this
      ensures Valid() && log == old(log) + arriving && status == old(status)[id := Deleted]
    {
      Expect(id);
      CatchUp(arriving);
      status := status[id := Deleted];
      first := next;
    }

    /** The view from the recipient's signature on. */
    method AwaitCash(id: nat, tx: Tx, arriving: seq<Tx>, at: Option<nat>) returns (r: AcceptResult, first: nat)
      requires Valid() && Committed(log + arriving)
      requires at.Some? ==> at.value < |arriving| && arriving[at.value] == tx
      modifies this
      ensures Valid() && log == old(log) + arriving
      ensures status == old(status)[id := if at.Some? then Confirmed else Deleted]
      ensures r == NotFinal || r == Accepted || r == Aborted
      ensures r == NotFinal <==> at.None?
      ensures at.Some? ==> first == |OutputsOf(log[..|old(log)| + at.value])|
      ensures at.Some? ==>
                (r == Accepted <==> forall k :: 0 <= k < |tx.outputs| && (tx.outputs[k].owner.Plain? &&
                                                                          tx.outputs[k].owner.wallet in mine) ==>
                                                  first + k !in InputsOf(log))
    {
      if at.None? {
        first := DropCash(id, arriving);
        r := NotFinal;
      } else {
        var ok;
        ok, first := ConfirmCash(id, tx, arriving, at.value);
        r := if ok then Accepted else Aborted;
      }
    }

    /**
     Accepting incoming tokens. While the view waits for finality the node sees the transactions `arriving`; `at` is the
     place of the accepted transaction among them, if it was committed, and `first` is then its first output. Something
     must come to `me`. A committed transaction goes from pending to confirmed, and the closing check passes exactly
     when none of its outputs for the node's own wallets has been spent again by then; a transaction that is not
     committed leaves no token behind.
     */
    method AcceptCash(id: nat, tx: Tx, me: Wallet, arriving: seq<Tx>, at: Option<nat>)
      returns (r: AcceptResult, first: nat)
      requires Valid() && id !in status && me in mine && Committed(log + arriving)
      requires at.Some? ==> at.value < |arriving| && arriving[at.value] == tx
      modifies this
      ensures Valid()
      ensures r == Refused <==> forall k :: 0 <= k < |tx.outputs| ==> tx.outputs[k].owner != Plain(me)
      ensures r == Refused ==> status == old(status) && tokens == old(tokens) && log == old(log)
      ensures r != Refused ==>
                log == old(log) + arriving && status == old(status)[id := if at.Some? then Confirmed else Deleted]
      ensures r == NotFinal <==> r != Refused && at.None?
      ensures r == Accepted || r == Aborted ==> at.Some? && first == |OutputsOf(log[..|old(log)| + at.value])|
      ensures r != Refused && at.Some? ==>
                (r == Accepted <==> forall k :: 0 <= k < |tx.outputs| && (tx.outputs[k].owner.Plain? &&
                                                                          tx.outputs[k].owner.wallet in mine) ==>
                                                  first + k !in InputsOf(log))
    {
      if forall k :: 0 <= k < |tx.outputs| ==> tx.outputs[k].owner != Plain(me) {
        return Refused, 0;
      }
      r, first := AwaitCash(id, tx, arriving, at);
    }
  }

  lemma NextCommitted(log: seq<Tx>, arriving: seq<Tx>, k: nat)
    requires Committed(log + arriving) && k < |arriving|
    ensures Committed(log + arriving[..k] + [arriving[k]])
  {
    CommittedPrefix(log + arriving, |log| + k + 1);
    assert (log + arriving)[..|log| + k + 1] == log + arriving[..k] + [arriving[k]];
  }

  lemma {:induction false} CommittedPrefix(log: seq<Tx>, n: nat)
    requires Committed(log) && n <= |log|
    ensures Committed(log[..n])
  {
    if n < |log| {
      CommittedPrefix(log[..|log| - 1], n);
      assert log[..|log| - 1][..n] == log[..n];
    } else {
      assert log[..n] == log;
    }
  }
}
