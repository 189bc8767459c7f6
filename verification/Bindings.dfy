/**
 The identity binding store of a node and the start-up loop that binds endorsing identities to P2P identities.
 A binding maps an ephemeral identity to a long-term one; it is inserted only if the ephemeral has none yet, and the
 long-term identity is first replaced by the one it is itself bound to.
 */
module Bindings {
  import opened Basics

  type Identity = Bytes

  type Rows = map<Identity, Identity>

  /** The long-term identity an identity stands for: its row, or itself without one. */
  function LongTerm(rows: Rows, id: Identity): Identity {
    if id in rows then rows[id] else id
  }

  function Bound(rows: Rows, longTerm: Identity, ephemeral: Identity): Rows {
    if ephemeral in rows then rows else rows[ephemeral := LongTerm(rows, longTerm)]
  }

  predicate IsBoundTo(rows: Rows, a: Identity, b: Identity) {
    LongTerm(rows, a) == LongTerm(rows, b)
  }

  /** Every long-term id is its own: resolving twice is resolving once. */
  predicate Flat(rows: Rows) {
    forall e :: e in rows ==> LongTerm(rows, rows[e]) == rows[e]
  }

  /** A configured pair: an endorsing identity and the P2P identity of the same party. */
  datatype Pair = Pair(endorsing: Identity, p2p: Identity)

  class BindingStore {
    var rows: Rows

    constructor ()
      ensures rows == map[]
    {
      rows := map[];
    }

    /** Bind never fails and never tells whether it had any effect. */
    method Bind(longTerm: Identity, ephemeral: Identity)
      modifies this
      ensures rows == Bound(old(rows), longTerm, ephemeral)
    {
      var canonical := if longTerm in rows then rows[longTerm] else longTerm;
      if ephemeral !in rows {
        rows := rows[ephemeral := canonical];
      }
    }
  }

  // ---------------------------------------------------------------------------------------------
  // The loop over the configured labels

  /** The pairs that the loop binds: names with both an MSP identity and a P2P identity configured. */
  function Configured(names: set<string>, labels: map<string, string>, msps: map<string, Identity>,
                      resolvers: map<string, Identity>): set<Pair>
    requires names <= labels.Keys
  {
    set name | name in names && name in msps && labels[name] in resolvers :: Pair(msps[name], resolvers[labels[name]])
  }

  /**
   No pair binds the endorsing identity of a pair. So it is when every endorsing identity was bound as its MSP was
   loaded, since no bound identity is bound again.
   */
  predicate Undisturbed(rows: Rows, pairs: set<Pair>) {
    forall p, q :: p in pairs && q in pairs && p.p2p == q.endorsing ==> p.p2p in rows
  }

  /**
   What the loop leaves, whatever the order: old rows are as they were, new rows are exactly those of the fresh P2P
   identities, and each comes from some pair with that identity.
   */
  ghost predicate LoopOutcome(before: Rows, pairs: set<Pair>, after: Rows) {
    (forall e :: e in before ==> e in after && after[e] == before[e]) &&
    (forall e :: e in after && e !in before ==>
                   exists p :: p in pairs && p.p2p == e && after[e] == LongTerm(before, p.endorsing)) &&
    (forall p :: p in pairs ==> p.p2p in after)
  }

  lemma LoopStep(before: Rows, done: set<Pair>, rows: Rows, p: Pair)
    requires LoopOutcome(before, done, rows) && Undisturbed(before, done + {p})
    ensures LoopOutcome(before, done + {p}, Bound(rows, p.endorsing, p.p2p))
  {
    var after := Bound(rows, p.endorsing, p.p2p);
    forall e | e in after && e !in before
      ensures exists q :: q in done + {p} && q.p2p == e && after[e] == LongTerm(before, q.endorsing)
    {
      if e in rows {
        var q :| q in done && q.p2p == e && rows[e] == LongTerm(before, q.endorsing);
        assert q in done + {p};
      } else {
        assert p in done + {p};
      }
    }
  }

  lemma ConfiguredOneMore(names: set<string>, name: string, labels: map<string, string>, msps: map<string, Identity>,
                          resolvers: map<string, Identity>)
    requires names <= labels.Keys && name in labels
    ensures Configured(names + {name}, labels, msps, resolvers) ==
            Configured(names, labels, msps, resolvers) +
            (if name in msps && labels[name] in resolvers then {Pair(msps[name], resolvers[labels[name]])} else {})
  {
    var more := names + {name};
    forall p ensures p in Configured(more, labels, msps, resolvers) <==>
                     p in Configured(names, labels, msps, resolvers) ||
                     (name in msps && labels[name] in resolvers && p == Pair(msps[name], resolvers[labels[name]]))
    {
      if p in Configured(names, labels, msps, resolvers) {
        var n :| n in names && n in msps && labels[n] in resolvers && p == Pair(msps[n], resolvers[labels[n]]);
        assert n in more;
      }
      if name in msps && labels[name] in resolvers && p == Pair(msps[name], resolvers[labels[name]]) {
        assert name in more;
      }
    }
  }

  // ---------------------------------------------------------------------------------------------
  // Does the order matter?

  /** Binding the pairs one after the other. */
  function BindAll(rows: Rows, order: seq<Pair>): Rows
    decreases |order|
  {
    if order == [] then rows else BindAll(Bound(rows, order[0].endorsing, order[0].p2p), order[1..])
  }

  lemma {:induction false} BindAllSnoc(rows: Rows, order: seq<Pair>, p: Pair)
    ensures BindAll(rows, order + [p]) == Bound(BindAll(rows, order), p.endorsing, p.p2p)
    ensures Members(order + [p]) == Members(order) + {p}
    decreases |order|
  {
    if order == [] {
      assert order + [p] == [p] && [p][1..] == [];
    } else {
      assert (order + [p])[1..] == order[1..] + [p];
      BindAllSnoc(Bound(rows, order[0].endorsing, order[0].p2p), order[1..], p);
    }
  }

  /** An order in which a map may yield the pairs. */
  ghost predicate IsOrderOf(order: seq<Pair>, pairs: set<Pair>) {
    (forall p :: p in order <==> p in pairs) && |order| == |pairs|
  }

  /** Pairs that share a fresh P2P identity agree on what it is bound to. */
  predicate Consistent(rows: Rows, pairs: set<Pair>) {
    forall p, q :: p in pairs && q in pairs && p.p2p == q.p2p && p.p2p !in rows ==>
                     LongTerm(rows, p.endorsing) == LongTerm(rows, q.endorsing)
  }

  lemma {:induction false} BindAllKeeps(rows: Rows, order: seq<Pair>)
    ensures forall e :: e in rows ==> e in BindAll(rows, order) && BindAll(rows, order)[e] == rows[e]
    decreases |order|
  {
    if order != [] { BindAllKeeps(Bound(rows, order[0].endorsing, order[0].p2p), order[1..]); }
  }

  function Members(order: seq<Pair>): set<Pair> {
    set p | p in order
  }

  lemma MembersCons(p: Pair, rest: seq<Pair>)
    ensures Members([p] + rest) == {p} + Members(rest)
  {
  }

  lemma {:induction false} BindAllOutcome(before: Rows, pairs: set<Pair>, done: set<Pair>, rows: Rows, order: seq<Pair>)
    requires Undisturbed(before, pairs) && done <= pairs && forall p :: p in order ==> p in pairs
    requires LoopOutcome(before, done, rows)
    ensures LoopOutcome(before, done + Members(order), BindAll(rows, order))
    decreases |order|
  {
    if order == [] {
      assert done + Members(order) == done;
    } else {
      var p, rest := order[0], order[1..];
      assert Undisturbed(before, done + {p});
      LoopStep(before, done, rows, p);
      MembersCons(p, rest);
      assert order == [p] + rest && done + {p} + Members(rest) == done + Members(order);
      BindAllOutcome(before, pairs, done + {p}, Bound(rows, p.endorsing, p.p2p), rest);
    }
  }

  lemma OrderGivesOutcome(rows: Rows, pairs: set<Pair>, order: seq<Pair>)
    requires Members(order) == pairs
    ensures Undisturbed(rows, pairs) ==> LoopOutcome(rows, pairs, BindAll(rows, order))
  {
    if Undisturbed(rows, pairs) {
      assert LoopOutcome(rows, {}, rows);
      BindAllOutcome(rows, pairs, {}, rows, order);
      assert {} + Members(order) == pairs;
    }
  }

  /** One turn of the loop: bind the pair of this name if both identities are there, else do nothing. */
  function Turn(rows: Rows, name: string, labels: map<string, string>, msps: map<string, Identity>,
                resolvers: map<string, Identity>): Rows
    requires name in labels
  {
    if name in msps && labels[name] in resolvers then Bound(rows, msps[name], resolvers[labels[name]]) else rows
  }

  /** Exactly the pairs of `names` have been bound, in some order. */
  ghost predicate BoundInSomeOrder(before: Rows, names: set<string>, rows: Rows, labels: map<string, string>,
                                   msps: map<string, Identity>, resolvers: map<string, Identity>)
    requires names <= labels.Keys
  {
    exists order :: Members(order) == Configured(names, labels, msps, resolvers) && rows == BindAll(before, order)
  }

  lemma TurnStep(before: Rows, done: set<string>, rows: Rows, name: string, labels: map<string, string>,
                 msps: map<string, Identity>, resolvers: map<string, Identity>)
    requires done <= labels.Keys && name in labels && BoundInSomeOrder(before, done, rows, labels, msps, resolvers)
    ensures BoundInSomeOrder(before, done + {name}, Turn(rows, name, labels, msps, resolvers), labels, msps, resolvers)
  {
    ConfiguredOneMore(done, name, labels, msps, resolvers);
    var order :| Members(order) == Configured(done, labels, msps, resolvers) && rows == BindAll(before, order);
    if name in msps && labels[name] in resolvers {
      var p := Pair(msps[name], resolvers[labels[name]]);
      BindAllSnoc(before, order, p);
      assert Members(order + [p]) == Configured(done + {name}, labels, msps, resolvers);
    } else {
      assert Members(order) == Configured(done + {name}, labels, msps, resolvers);
    }
  }

  lemma NothingBound(before: Rows, labels: map<string, string>, msps: map<string, Identity>,
                     resolvers: map<string, Identity>)
    ensures BoundInSomeOrder(before, {}, before, labels, msps, resolvers)
  {
    assert Members([]) == Configured({}, labels, msps, resolvers) && before == BindAll(before, []);
  }

  /**
   The loop as run at start-up; the map yields its labels in any order, and unconfigured ones are skipped. It binds
   exactly the configured pairs, one after the other.
   */
  method BindEndorsingIdentities(store: BindingStore, labels: map<string, string>,
                                 msps: map<string, Identity>, resolvers: map<string, Identity>)
    modifies store
    ensures BoundInSomeOrder(old(store.rows), labels.Keys, store.rows, labels, msps, resolvers)
    ensures var pairs := Configured(labels.Keys, labels, msps, resolvers);
            Undisturbed(old(store.rows), pairs) ==> LoopOutcome(old(store.rows), pairs, store.rows)
    ensures forall e :: e in old(store.rows) ==> e in store.rows && store.rows[e] == old(store.rows)[e]
    ensures forall name :: name in labels && name in msps && labels[name] in resolvers ==>
                             resolvers[labels[name]] in store.rows
    ensures forall e :: e in store.rows && e !in old(store.rows) ==>
                          exists name :: name in labels && name in msps && labels[name] in resolvers &&
                                         e == resolvers[labels[name]]
    ensures (forall a, b :: (a in labels && b in labels && a in msps && b in msps &&
                             labels[a] in resolvers && labels[b] in resolvers) ==>
                              resolvers[labels[a]] == msps[b] ==> msps[b] in old(store.rows)) ==>
              forall e :: e in store.rows && e !in old(store.rows) ==>
                            exists name :: name in labels && name in msps && labels[name] in resolvers &&
                                           e == resolvers[labels[name]] &&
                                           (msps[name] in old(store.rows) ==>
                                              store.rows[e] == old(store.rows)[msps[name]]) &&
                                           (msps[name] !in old(store.rows) ==> store.rows[e] == msps[name])
  {
    ghost var before := store.rows;
    var todo := labels.Keys;
    assert labels.Keys - todo == {};
    NothingBound(before, labels, msps, resolvers);
    while todo != {}
      invariant todo <= labels.Keys
      invariant BoundInSomeOrder(before, labels.Keys - todo, store.rows, labels, msps, resolvers)
      decreases |todo|
    {
      var name :| name in todo;
      TurnStep(before, labels.Keys - todo, store.rows, name, labels, msps, resolvers);
      assert labels.Keys - (todo - {name}) == labels.Keys - todo + {name};
      todo := todo - {name};
      if name !in msps {
        continue;
      }
      if labels[name] !in resolvers {
        continue;
      }
      store.Bind(msps[name], resolvers[labels[name]]);
    }
    assert labels.Keys - todo == labels.Keys;
    ghost var order :| Members(order) == Configured(labels.Keys, labels, msps,
                                                    resolvers) && store.rows == BindAll(before, order);
    OrderGivesOutcome(before, Members(order), order);
    OrderGivesRows(before, labels, msps, resolvers, order);
    OutcomeMeans(before, labels, msps, resolvers, store.rows);
  }

  lemma {:induction false} BindAllRows(rows: Rows, order: seq<Pair>)
    ensures forall e :: e in BindAll(rows, order) <==> e in rows || exists p :: p in order && p.p2p == e
    decreases |order|
  {
    if order != [] {
      BindAllRows(Bound(rows, order[0].endorsing, order[0].p2p), order[1..]);
      assert order == [order[0]] + order[1..];
      forall e ensures e in BindAll(rows, order) <==> e in rows || exists p :: p in order && p.p2p == e {
        if e == order[0].p2p { assert order[0] in order; }
        if p :| p in order && p.p2p == e { assert p == order[0] || p in order[1..]; }
      }
    }
  }

  /** Which rows the loop leaves, in the terms of the configuration. */
  lemma OrderGivesRows(before: Rows, labels: map<string, string>, msps: map<string, Identity>,
                       resolvers: map<string, Identity>, order: seq<Pair>)
    requires Members(order) == Configured(labels.Keys, labels, msps, resolvers)
    ensures var after := BindAll(before, order);
            (forall e :: e in before ==> e in after && after[e] == before[e]) &&
            (forall name :: name in labels && name in msps && labels[name] in resolvers ==>
                              resolvers[labels[name]] in after) &&
            (forall e :: e in after && e !in before ==>
                           exists name :: name in labels && name in msps && labels[name] in resolvers &&
                                          e == resolvers[labels[name]])
  {
    var after := BindAll(before, order);
    BindAllKeeps(before, order);
    BindAllRows(before, order);
    forall name | name in labels && name in msps && labels[name] in resolvers ensures resolvers[labels[name]] in after {
      var p := Pair(msps[name], resolvers[labels[name]]);
      assert p in Members(order);
      assert p in order && p.p2p == resolvers[labels[name]];
    }
    forall e | e in after && e !in before
      ensures exists name :: name in labels && name in msps && labels[name] in resolvers && e == resolvers[labels[name]]
    {
      var p :| p in order && p.p2p == e;
      assert p in Members(order);
    }
  }

  /** What the rows stand for, in the terms of the configuration. */
  lemma OutcomeMeans(before: Rows, labels: map<string, string>, msps: map<string, Identity>,
                     resolvers: map<string, Identity>, after: Rows)
    requires var pairs := Configured(labels.Keys, labels, msps, resolvers);
             Undisturbed(before, pairs) ==> LoopOutcome(before, pairs, after)
    ensures (forall a, b :: (a in labels && b in labels && a in msps && b in msps &&
                             labels[a] in resolvers && labels[b] in resolvers) ==>
                              resolvers[labels[a]] == msps[b] ==> msps[b] in before) ==>
              forall e :: e in after && e !in before ==>
                            exists name :: name in labels && name in msps && labels[name] in resolvers &&
                                           e == resolvers[labels[name]] &&
                                           after[e] == if msps[name] in before then before[msps[name]] else msps[name]
  {
    var pairs := Configured(labels.Keys, labels, msps, resolvers);
    if forall a, b :: (a in labels && b in labels && a in msps && b in msps &&
                       labels[a] in resolvers && labels[b] in resolvers) ==>
                        resolvers[labels[a]] == msps[b] ==> msps[b] in before
    {
      forall p, q | p in pairs && q in pairs && p.p2p == q.endorsing ensures p.p2p in before {
        var a :| a in labels && a in msps && labels[a] in resolvers && p == Pair(msps[a], resolvers[labels[a]]);
        var b :| b in labels && b in msps && labels[b] in resolvers && q == Pair(msps[b], resolvers[labels[b]]);
      }
      assert Undisturbed(before, pairs);
      forall e | e in after && e !in before
        ensures exists name :: name in labels && name in msps && labels[name] in resolvers &&
                               e == resolvers[labels[name]] &&
                               after[e] == if msps[name] in before then before[msps[name]] else msps[name]
      {
        var p :| p in pairs && p.p2p == e && after[e] == LongTerm(before, p.endorsing);
        var name :| name in labels && name in msps && labels[name] in resolvers &&
                    p == Pair(msps[name], resolvers[labels[name]]);
        assert e == resolvers[labels[name]];
      }
    }
  }

  lemma OutcomesAgree(rows: Rows, pairs: set<Pair>, a: Rows, b: Rows)
    requires Consistent(rows, pairs) && LoopOutcome(rows, pairs, a) && LoopOutcome(rows, pairs, b)
    ensures a == b
  {
    forall e ensures e in a <==> e in b {
      if e in a && e !in rows {
        var p :| p in pairs && p.p2p == e;
      }
      if e in b && e !in rows {
        var p :| p in pairs && p.p2p == e;
      }
    }
    forall e | e in a ensures a[e] == b[e] {
      if e !in rows {
        var p :| p in pairs && p.p2p == e && a[e] == LongTerm(rows, p.endorsing);
        var q :| q in pairs && q.p2p == e && b[e] == LongTerm(rows, q.endorsing);
      }
    }
  }

  lemma {:induction false} SomeOrder(pairs: set<Pair>) returns (order: seq<Pair>)
    ensures IsOrderOf(order, pairs)
    decreases |pairs|
  {
    if pairs == {} {
      order := [];
    } else {
      var p :| p in pairs;
      var rest := SomeOrder(pairs - {p});
      order := [p] + rest;
    }
  }

  lemma OrderStartingWith(pairs: set<Pair>, p: Pair) returns (order: seq<Pair>)
    requires p in pairs
    ensures IsOrderOf(order, pairs) && order[0] == p
  {
    var rest := SomeOrder(pairs - {p});
    order := [p] + rest;
  }

  lemma FirstWins(rows: Rows, order: seq<Pair>)
    requires order != [] && order[0].p2p !in rows
    ensures order[0].p2p in BindAll(rows, order)
    ensures BindAll(rows, order)[order[0].p2p] == LongTerm(rows, order[0].endorsing)
  {
    BindAllKeeps(Bound(rows, order[0].endorsing, order[0].p2p), order[1..]);
  }

  /** The store after the loop is the same for every iteration order exactly when the pairs are consistent. */
  lemma OrderIrrelevantIff(rows: Rows, pairs: set<Pair>)
    requires Undisturbed(rows, pairs)
    ensures (forall x, y :: IsOrderOf(x, pairs) && IsOrderOf(y, pairs) ==> BindAll(rows, x) == BindAll(rows, y))
       <==> Consistent(rows, pairs)
  {
    if Consistent(rows, pairs) {
      forall x, y | IsOrderOf(x, pairs) && IsOrderOf(y, pairs) ensures BindAll(rows, x) == BindAll(rows, y) {
        OrderGivesOutcome(rows, pairs, x);
        OrderGivesOutcome(rows, pairs, y);
        OutcomesAgree(rows, pairs, BindAll(rows, x), BindAll(rows, y));
      }
    } else {
      var p, q :| p in pairs && q in pairs && p.p2p == q.p2p && p.p2p !in rows &&
                  LongTerm(rows, p.endorsing) != LongTerm(rows, q.endorsing);
      var x := OrderStartingWith(pairs, p);
      var y := OrderStartingWith(pairs, q);
      FirstWins(rows, x);
      FirstWins(rows, y);
    }
  }

  /**
   Where a fresh P2P identity is also the endorsing identity of another fresh pair, consistent or not, the order decides
   what the second stands for, unless the first stands for itself.
   */
  lemma OrderMattersWhenDisturbed(rows: Rows, p: Pair, q: Pair)
    requires p.p2p == q.endorsing && p.p2p !in rows && q.p2p !in rows && q.p2p != p.p2p
    ensures BindAll(rows, [p, q]) == BindAll(rows, [q, p]) <==> LongTerm(rows, p.endorsing) == p.p2p
  {
    assert [p, q][1..] == [q] && [q, p][1..] == [p] && [q][1..] == [] && [p][1..] == [];
    var first, second := Bound(rows, p.endorsing, p.p2p), Bound(rows, q.endorsing, q.p2p);
    assert BindAll(rows, [p, q]) == BindAll(first, [q]) == Bound(first, q.endorsing, q.p2p);
    assert BindAll(rows, [q, p]) == BindAll(second, [p]) == Bound(second, p.endorsing, p.p2p);
    assert BindAll(rows, [p, q])[q.p2p] == LongTerm(rows, p.endorsing);
    assert BindAll(rows, [q, p])[q.p2p] == p.p2p;
  }

  /** As at start-up, all endorsing identities stand for the node's default one: any order binds every fresh pair. */
  lemma DefaultIdentityBindsAll(rows: Rows, pairs: set<Pair>, after: Rows, default: Identity)
    requires forall p :: p in pairs ==> p.endorsing in rows && rows[p.endorsing] == default
    requires LoopOutcome(rows, pairs, after)
    ensures Consistent(rows, pairs)
    ensures forall p :: p in pairs && p.p2p !in rows ==> after[p.p2p] == default && IsBoundTo(after, p.endorsing, p.p2p)
  {
    forall p | p in pairs && p.p2p !in rows ensures after[p.p2p] == default && IsBoundTo(after, p.endorsing, p.p2p) {
      var q :| q in pairs && q.p2p == p.p2p && after[p.p2p] == LongTerm(rows, q.endorsing);
    }
  }

  /** In general a pair ends up bound exactly when its P2P identity was already,
      or is fresh and not taken by another. */
  lemma PairBoundIff(rows: Rows, pairs: set<Pair>, after: Rows, p: Pair)
    requires Undisturbed(rows, pairs) && Consistent(rows, pairs) && LoopOutcome(rows, pairs, after) && p in pairs
    ensures IsBoundTo(after, p.endorsing, p.p2p) <==> p.p2p !in rows || IsBoundTo(rows, p.endorsing, p.p2p)
  {
    if p.p2p !in rows {
      var q :| q in pairs && q.p2p == p.p2p && after[p.p2p] == LongTerm(rows, q.endorsing);
    }
  }

  // ---------------------------------------------------------------------------------------------
  // Flatness and direction

  predicate IsLongTermOf(rows: Rows, id: Identity) {
    exists e :: e in rows && rows[e] == id
  }

  /** A bind keeps a flat store flat exactly when the new ephemeral is not already somebody else's long-term id. */
  lemma BindKeepsFlatIff(rows: Rows, longTerm: Identity, ephemeral: Identity)
    requires Flat(rows)
    ensures Flat(Bound(rows, longTerm, ephemeral)) <==>
            ephemeral in rows || ephemeral == LongTerm(rows, longTerm) || !IsLongTermOf(rows, ephemeral)
  {
    var after := Bound(rows, longTerm, ephemeral);
    var canonical := LongTerm(rows, longTerm);
    assert LongTerm(rows, canonical) == canonical;
    if ephemeral !in rows {
      if ephemeral != canonical && IsLongTermOf(rows, ephemeral) {
        var e :| e in rows && rows[e] == ephemeral;
        assert after[e] == ephemeral && LongTerm(after, ephemeral) == canonical;
      } else {
        forall e | e in after ensures LongTerm(after, after[e]) == after[e] {
          if e in rows { assert LongTerm(rows, rows[e]) == rows[e]; }
        }
      }
    }
  }

  /** The loop keeps a flat store flat exactly when no fresh P2P identity is somebody else's long-term id. */
  lemma LoopKeepsFlatIff(rows: Rows, pairs: set<Pair>, after: Rows)
    requires Flat(rows) && Undisturbed(rows, pairs) && Consistent(rows, pairs) && LoopOutcome(rows, pairs, after)
    ensures Flat(after) <==> forall p :: p in pairs && p.p2p !in rows && IsLongTermOf(rows, p.p2p) ==>
                                           p.p2p == LongTerm(rows, p.endorsing)
  {
    if Flat(after) {
      forall p | p in pairs && p.p2p !in rows &&
                 IsLongTermOf(rows, p.p2p) ensures p.p2p == LongTerm(rows, p.endorsing) {
        var e :| e in rows && rows[e] == p.p2p;
        assert LongTerm(after, after[e]) == after[e];
        var q :| q in pairs && q.p2p == p.p2p && after[p.p2p] == LongTerm(rows, q.endorsing);
      }
    }
    if forall p :: p in pairs && p.p2p !in rows && IsLongTermOf(rows, p.p2p) ==> p.p2p == LongTerm(rows, p.endorsing) {
      forall e | e in after ensures LongTerm(after, after[e]) == after[e] {
        LongTermStays(rows, pairs, after, e);
      }
    }
  }

  lemma LongTermStays(rows: Rows, pairs: set<Pair>, after: Rows, e: Identity)
    requires Flat(rows) && Undisturbed(rows, pairs) && LoopOutcome(rows, pairs, after) && e in after
    requires forall p :: p in pairs && p.p2p !in rows && IsLongTermOf(rows, p.p2p) ==>
                           p.p2p == LongTerm(rows, p.endorsing)
    ensures LongTerm(after, after[e]) == after[e]
  {
    var v := after[e];
    if e !in rows {
      var p :| p in pairs && p.p2p == e && v == LongTerm(rows, p.endorsing);
      if p.endorsing !in rows {
        assert forall q :: q in pairs ==> q.p2p != v;
        assert v !in after;
        return;
      }
    }
    assert IsLongTermOf(rows, v);
    var x :| x in rows && rows[x] == v;
    assert LongTerm(rows, rows[x]) == rows[x];
    if v in after && v !in rows {
      var q :| q in pairs && q.p2p == v && after[v] == LongTerm(rows, q.endorsing);
    }
  }

  /**
   Why the endorsing identity is the long-term side: it already has a row, so binding it as the ephemeral does nothing
   and leaves the pair unbound, while binding the fresh P2P identity to it makes both stand for the same identity.
   */
  lemma Direction(rows: Rows, endorsing: Identity, p2p: Identity)
    requires endorsing in rows && p2p !in rows
    ensures Bound(rows, p2p, endorsing) == rows
    ensures IsBoundTo(Bound(rows, p2p, endorsing), endorsing, p2p) <==> rows[endorsing] == p2p
    ensures var after := Bound(rows, endorsing, p2p);
            IsBoundTo(after, endorsing, p2p) && LongTerm(after, p2p) == rows[endorsing] == LongTerm(after, endorsing)
  {
  }
}
