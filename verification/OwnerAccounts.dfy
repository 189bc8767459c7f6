/** The owner's balances: rows of the node's token database, summed per code in unsigned 64-bit arithmetic. */
module OwnerAccounts {
  import opened Basics
  import opened Quantities

  /** A row of the token database. */
  datatype Row = Row(owner: Wallet, code: Code, quantity: string)

  datatype Amount = Amount(code: Code, value: nat)

  predicate Readable(tokens: seq<Row>) {
    forall i :: 0 <= i < |tokens| ==> ParseUint(tokens[i].quantity).Ok?
  }

  /** The quantity of a token, and nothing for an unreadable one. */
  function QuantityOf(t: Row): nat {
    match ParseUint(t.quantity)
    case Ok(quantity) => quantity
    case Err(_) => 0
  }

  function Counted(t: Row, code: Code): nat {
    if t.code == code then QuantityOf(t) else 0
  }

  /** The true total of one code, without any bound. */
  function TotalOf(tokens: seq<Row>, code: Code): nat {
    if tokens == [] then 0
    else
      var n := |tokens| - 1;
      TotalOf(tokens[..n], code) + Counted(tokens[n], code)
  }

  function CodesOf(tokens: seq<Row>): set<Code> {
    set i | 0 <= i < |tokens| :: tokens[i].code
  }

  /** One amount per code present, each the 64-bit wrap of the true total. */
  ghost predicate AreBalances(amounts: seq<Amount>, tokens: seq<Row>) {
    (forall i :: 0 <= i < |amounts| ==> amounts[i].code in CodesOf(tokens)) &&
    (forall code :: code in CodesOf(tokens) ==> exists i :: 0 <= i < |amounts| && amounts[i].code == code) &&
    (forall i, j :: 0 <= i < j < |amounts| ==> amounts[i].code != amounts[j].code) &&
    (forall i :: 0 <= i < |amounts| ==> amounts[i].value == Wrap(TotalOf(tokens, amounts[i].code)))
  }

  lemma WrapSum(a: nat, b: nat)
    ensures Wrap(Wrap(a) + b) == Wrap(a + b)
  {
    var q := a / TWO_64;
    assert a + b == Wrap(a) + b + q * TWO_64;
    WrapMultiple(Wrap(a) + b, q);
  }

  lemma WrapIsExactIffFits(x: nat)
    ensures Wrap(x) == x <==> x < TWO_64
  {
  }

  lemma {:induction false} WrapMultiple(x: nat, q: nat)
    ensures Wrap(x + q * TWO_64) == Wrap(x)
  {
    if q > 0 {
      WrapMultiple(x, q - 1);
    }
  }

  /** The running totals: one entry per code seen, wrapped to 64 bits. */
  ghost predicate AreTotals(totals: map<Code, nat>, tokens: seq<Row>) {
    totals.Keys == CodesOf(tokens) && forall code :: code in totals ==> totals[code] == Wrap(TotalOf(tokens, code))
  }

  function Added(totals: map<Code, nat>, code: Code, value: nat): map<Code, nat> {
    totals[code := Wrap((if code in totals then totals[code] else 0) + value)]
  }

  lemma AddToken(totals: map<Code, nat>, before: seq<Row>, t: Row)
    requires AreTotals(totals, before)
    ensures AreTotals(Added(totals, t.code, QuantityOf(t)), before + [t])
  {
    var value := QuantityOf(t);
    var all := before + [t];
    CodesOfSnoc(before, t);
    assert all[..|before|] == before && all[|before|] == t;
    forall code | code in Added(totals, t.code, value)
      ensures Added(totals, t.code, value)[code] == Wrap(TotalOf(all, code))
    {
      assert TotalOf(all, code) == TotalOf(before, code) + Counted(t, code);
      if code == t.code {
        if code !in totals { NoTokensOf(before, code); }
        WrapSum(TotalOf(before, code), value);
      }
    }
  }

  /** All balances of a wallet. An unreadable quantity is an error; nothing else is. */
  method Balances(tokens: seq<Row>) returns (r: Result<seq<Amount>, ParseError>)
    ensures r.Ok? <==> forall i :: 0 <= i < |tokens| ==> ParseUint(tokens[i].quantity).Ok?
    ensures r.Ok? ==> AreBalances(r.value, tokens)
  {
    var totals: map<Code, nat> := map[];
    for k := 0 to |tokens|
      invariant Readable(tokens[..k]) && AreTotals(totals, tokens[..k])
    {
      var t := tokens[k];
      var parsed := ParseUint(t.quantity);
      if parsed.Err? {
        return Err(parsed.error);
      }
      AddToken(totals, tokens[..k], t);
      assert tokens[..k + 1] == tokens[..k] + [t];
      totals := Added(totals, t.code, parsed.value);
    }
    assert tokens[..|tokens|] == tokens;
    var amounts := ListAmounts(totals);
    return Ok(amounts);
  }

  /** `amounts` lists the entries of `totals` for the codes in `listed`, each once. */
  ghost predicate Lists(amounts: seq<Amount>, totals: map<Code, nat>, listed: set<Code>) {
    (forall i :: 0 <= i < |amounts| ==>
                   amounts[i].code in listed && amounts[i].code in totals &&
                   amounts[i].value == totals[amounts[i].code]) &&
    (forall code :: code in listed ==> exists i :: 0 <= i < |amounts| && amounts[i].code == code) &&
    (forall i, j :: 0 <= i < j < |amounts| ==> amounts[i].code != amounts[j].code)
  }

  lemma ListOneMore(amounts: seq<Amount>, totals: map<Code, nat>, listed: set<Code>, code: Code)
    requires Lists(amounts, totals, listed) && code in totals && code !in listed
    ensures Lists(amounts + [Amount(code, totals[code])], totals, listed + {code})
  {
    var more := amounts + [Amount(code, totals[code])];
    assert more[|amounts|].code == code;
    forall c | c in listed ensures exists i :: 0 <= i < |more| && more[i].code == c {
      var i :| 0 <= i < |amounts| && amounts[i].code == c;
      assert more[i].code == c;
    }
  }

  /** The entries of a map as a list, in whatever order the map yields them. */
  method ListAmounts(totals: map<Code, nat>) returns (amounts: seq<Amount>)
    ensures Lists(amounts, totals, totals.Keys)
  {
    amounts := [];
    var codes := totals.Keys;
    while codes != {}
      invariant codes <= totals.Keys && Lists(amounts, totals, totals.Keys - codes)
      decreases |codes|
    {
      var code :| code in codes;
      ListOneMore(amounts, totals, totals.Keys - codes, code);
      assert totals.Keys - (codes - {code}) == totals.Keys - codes + {code};
      amounts := amounts + [Amount(code, totals[code])];
      codes := codes - {code};
    }
    assert totals.Keys - codes == totals.Keys;
  }

  lemma CodesOfSnoc(tokens: seq<Row>, t: Row)
    ensures CodesOf(tokens + [t]) == CodesOf(tokens) + {t.code}
  {
    var all := tokens + [t];
    forall c ensures c in CodesOf(all) <==> c in CodesOf(tokens) + {t.code} {
      if c in CodesOf(tokens) {
        var i :| 0 <= i < |tokens| && tokens[i].code == c;
        assert all[i].code == c;
      }
      if c == t.code { assert all[|tokens|].code == c; }
    }
  }

  lemma {:induction false} NoTokensOf(tokens: seq<Row>, code: Code)
    requires code !in CodesOf(tokens)
    ensures TotalOf(tokens, code) == 0
  {
    if tokens != [] {
      var n := |tokens| - 1;
      assert tokens[n].code in CodesOf(tokens);
      assert tokens == tokens[..n] + [tokens[n]];
      CodesOfSnoc(tokens[..n], tokens[n]);
      NoTokensOf(tokens[..n], code);
    }
  }

  /** Cutting a total of any size to 64 bits: known only to leave what fits as it is. */
  ghost predicate Narrows(narrow: nat -> nat) {
    forall x: nat :: narrow(x) < TWO_64 && (x < TWO_64 ==> narrow(x) == x)
  }

  /** The balance of one code: the wallet's exact total, cut to 64 bits for the answer. */
  function Balance(narrow: nat -> nat, tokens: seq<Row>, code: Code): Amount {
    Amount(code, narrow(TotalOf(tokens, code)))
  }

  /** A cut that gives one too much for larger totals. */
  function OffByOne(x: nat): nat {
    if x < TWO_64 then x else Wrap(Wrap(x) + 1)
  }

  lemma OffByOneDiffers(x: nat)
    ensures OffByOne(x) < TWO_64 && (OffByOne(x) == Wrap(x) <==> x < TWO_64)
  {
  }

  lemma ListedOnce(tokens: seq<Row>, amounts: seq<Amount>, amount: Amount)
    requires AreBalances(amounts, tokens)
    ensures amount in amounts <==> amount.code in CodesOf(tokens) && amount.value == Wrap(TotalOf(tokens, amount.code))
  {
    if amount.code in CodesOf(tokens) {
      var i :| 0 <= i < |amounts| && amounts[i].code == amount.code;
      assert amounts[i].value == Wrap(TotalOf(tokens, amount.code));
    }
  }

  /**
   The two balance requests agree on a code, whatever the cut does to larger totals, if and only if its total fits in 64
   bits; a code without tokens has balance zero and is not listed.
   */
  lemma BalanceAgrees(tokens: seq<Row>, amounts: seq<Amount>, code: Code)
    requires AreBalances(amounts, tokens)
    ensures code in CodesOf(tokens) ==>
              ((forall narrow :: Narrows(narrow) ==>
                                   Balance(narrow, tokens, code) in amounts) <==> TotalOf(tokens, code) < TWO_64)
    ensures code !in CodesOf(tokens) ==>
              forall narrow :: Narrows(narrow) ==>
                                 Balance(narrow, tokens, code).value == 0 && Balance(narrow, tokens, code) !in amounts
  {
    var total := TotalOf(tokens, code);
    forall narrow | Narrows(narrow)
      ensures Balance(narrow, tokens, code) in amounts <==> code in CodesOf(tokens) && narrow(total) == Wrap(total)
    {
      ListedOnce(tokens, amounts, Balance(narrow, tokens, code));
    }
    forall x: nat ensures OffByOne(x) < TWO_64 && (OffByOne(x) == Wrap(x) <==> x < TWO_64) {
      OffByOneDiffers(x);
    }
    assert Narrows(OffByOne);
    assert Balance(OffByOne, tokens, code).value == OffByOne(total);
    if code !in CodesOf(tokens) { NoTokensOf(tokens, code); }
    WrapIsExactIffFits(total);
  }

  // ---------------------------------------------------------------------------------------------
  // Order does not matter

  lemma {:induction false} TotalOfConcat(a: seq<Row>, b: seq<Row>, code: Code)
    ensures TotalOf(a + b, code) == TotalOf(a, code) + TotalOf(b, code)
  {
    if b == [] {
      assert a + b == a;
    } else {
      var n := |b| - 1;
      TotalOfConcat(a, b[..n], code);
      assert (a + b)[..|a| + n] == a + b[..n];
      assert (a + b)[|a| + n] == b[n];
    }
  }

  lemma WithoutOne(tokens: seq<Row>, j: nat, code: Code)
    requires j < |tokens|
    ensures var rest := tokens[..j] + tokens[j + 1..];
            multiset(tokens) == multiset(rest) + multiset{tokens[j]} &&
            TotalOf(tokens, code) == TotalOf(rest, code) + Counted(tokens[j], code)
  {
    var front, one, back := tokens[..j], [tokens[j]], tokens[j + 1..];
    assert tokens == front + (one + back);
    TotalOfConcat(one, back, code);
    TotalOfConcat(front, one + back, code);
    TotalOfConcat(front, back, code);
    assert one[..0] == [];
    assert TotalOf(one, code) == TotalOf([], code) + Counted(tokens[j], code);
  }

  lemma IndexIn(a: seq<Row>, b: seq<Row>) returns (j: nat)
    requires a != [] && multiset(a) == multiset(b)
    ensures j < |b| && b[j] == a[0]
  {
    assert a[0] in multiset(a);
    assert a[0] in b;
    j :| j < |b| && b[j] == a[0];
  }

  lemma SameRest(x: multiset<Row>, y: multiset<Row>, t: Row)
    requires x + multiset{t} == y + multiset{t}
    ensures x == y
  {
    assert x == (x + multiset{t}) - multiset{t};
    assert y == (y + multiset{t}) - multiset{t};
  }

  /** The total is a property of the tokens, not of the order in which the database lists them. */
  lemma {:induction false} TotalIgnoresOrder(a: seq<Row>, b: seq<Row>, code: Code)
    requires multiset(a) == multiset(b)
    ensures TotalOf(a, code) == TotalOf(b, code)
    decreases |a|
  {
    if a == [] {
      assert |multiset(b)| == |b|;
    } else {
      var j := IndexIn(a, b);
      WithoutOne(a, 0, code);
      WithoutOne(b, j, code);
      SameRest(multiset(a[..0] + a[1..]), multiset(b[..j] + b[j + 1..]), a[0]);
      TotalIgnoresOrder(a[..0] + a[1..], b[..j] + b[j + 1..], code);
    }
  }

  /** Listing the same tokens in another order gives the same balances up to order. */
  lemma BalancesIgnoreOrder(a: seq<Row>, b: seq<Row>, x: seq<Amount>, y: seq<Amount>)
    requires multiset(a) == multiset(b)
    requires AreBalances(x, a) && AreBalances(y, b)
    ensures forall amount :: amount in x <==> amount in y
  {
    SameCodes(a, b);
    AmountsCarryOver(a, b, x, y);
    AmountsCarryOver(b, a, y, x);
  }

  lemma SameCodes(a: seq<Row>, b: seq<Row>)
    requires multiset(a) == multiset(b)
    ensures CodesOf(a) == CodesOf(b)
  {
    forall t: Row ensures t in a <==> t in b {
      assert t in multiset(a) <==> t in multiset(b);
    }
    forall c ensures c in CodesOf(a) <==> c in CodesOf(b) {
      if c in CodesOf(a) {
        var i :| 0 <= i < |a| && a[i].code == c;
        assert a[i] in b;
      }
      if c in CodesOf(b) {
        var i :| 0 <= i < |b| && b[i].code == c;
        assert b[i] in a;
      }
    }
  }

  lemma AmountsCarryOver(a: seq<Row>, b: seq<Row>, x: seq<Amount>, y: seq<Amount>)
    requires multiset(a) == multiset(b) && CodesOf(a) == CodesOf(b)
    requires AreBalances(x, a) && AreBalances(y, b)
    ensures forall amount :: amount in x ==> amount in y
  {
    forall amount | amount in x ensures amount in y {
      var i :| 0 <= i < |x| && x[i] == amount;
      var j :| 0 <= j < |y| && y[j].code == amount.code;
      TotalIgnoresOrder(a, b, amount.code);
      assert y[j] == amount;
    }
  }
}
