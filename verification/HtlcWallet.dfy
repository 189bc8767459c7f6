/** What a wallet sees of its locks, the claim and reclaim requests built on that view, and what these can settle. */
module HtlcWallets {
  import opened Basics
  import opened Ledgers
  import opened Worlds

  /** The unexpired locks that `wallet` can claim with `preImage`. */
  function ListByPreImage(H: Bytes -> Bytes, l: Ledger, wallet: Wallet, preImage: Bytes, now: nat): set<nat> {
    set i | 0 <= i < |l.outputs| && LiveLock(l, i) && IsMatch(H, l.outputs[i].owner.script, wallet, preImage, now)
  }

  predicate IsMatch(H: Bytes -> Bytes, script: Script, wallet: Wallet, preImage: Bytes, now: nat) {
    script.recipient == wallet && script.hash == H(preImage) && now < script.deadline
  }

  /** The expired locks of `wallet` with this hash. A reclaim needs exactly one. */
  function ExpiredByHash(l: Ledger, wallet: Wallet, hash: Bytes, now: nat): set<nat> {
    set i | 0 <= i < |l.outputs| && LiveLock(l, i) && IsExpired(l.outputs[i].owner.script, wallet, hash, now)
  }

  predicate IsExpired(script: Script, wallet: Wallet, hash: Bytes, now: nat) {
    script.sender == wallet && script.hash == hash && script.deadline <= now
  }

  /** The two lists, written out. */
  lemma ListedAre(H: Bytes -> Bytes, l: Ledger, wallet: Wallet, preImage: Bytes, hash: Bytes, now: nat)
    ensures forall i: nat :: i in ListByPreImage(H, l, wallet, preImage, now) <==>
                             i < |l.outputs| && i !in l.spent && l.outputs[i].owner.Locked? &&
                             l.outputs[i].owner.script.recipient == wallet &&
                             l.outputs[i].owner.script.hash == H(preImage) && now < l.outputs[i].owner.script.deadline
    ensures forall i: nat :: i in ExpiredByHash(l, wallet, hash, now) <==>
                             i < |l.outputs| && i !in l.spent && l.outputs[i].owner.Locked? &&
                             l.outputs[i].owner.script.sender == wallet &&
                             l.outputs[i].owner.script.hash == hash && l.outputs[i].owner.script.deadline <= now
  {
  }

  /** The only member of a singleton. */
  function TheOne(s: set<nat>): (id: nat)
    requires |s| == 1
    ensures s == {id}
  {
    SingletonMember(s);
    var id :| id in s && s == {id};
    id
  }

  lemma SingletonMember(s: set<nat>)
    requires |s| == 1
    ensures exists id :: id in s && s == {id}
  {
    var id :| id in s;
    assert |s - {id}| == 0;
    assert s == {id};
  }

  lemma TwoMembers(s: set<nat>, a: nat, b: nat)
    requires a in s && b in s && a != b
    ensures |s| != 1
  {
    if |s| == 1 { SingletonMember(s); }
  }

  /** The world after a whole reclaim request that nothing interferes with. */
  function AfterReclaim(w: World, t: TmsId, wallet: Wallet, hash: Bytes): World {
    if t in w.ledgers && |ExpiredByHash(w.ledgers[t], wallet, hash, w.clock)| == 1 then
      var id := TheOne(ExpiredByHash(w.ledgers[t], wallet, hash, w.clock));
      Submitted(w, t, ReclaimTx(w.ledgers[t], id, wallet))
    else w
  }

  /** The world after a whole claim request that nothing interferes with. */
  function AfterClaim(H: Bytes -> Bytes, w: World, t: TmsId, wallet: Wallet, preImage: Bytes): World {
    if t in w.ledgers && |ListByPreImage(H, w.ledgers[t], wallet, preImage, w.clock)| == 1 then
      var id := TheOne(ListByPreImage(H, w.ledgers[t], wallet, preImage, w.clock));
      Submitted(w.(secrets := w.secrets[wallet := Secrets(w, wallet) + {preImage}]), t,
                ClaimTx(w.ledgers[t], id, wallet, preImage))
    else w
  }

  /** A reclaim request is a run of ordinary steps. */
  lemma ReclaimIsRun(H: Bytes -> Bytes, w: World, t: TmsId, wallet: Wallet, hash: Bytes)
    requires WorldInv(H, w)
    ensures exists run :: Exec(H, w, run) == AfterReclaim(w, t, wallet, hash)
  {
    if t in w.ledgers && |ExpiredByHash(w.ledgers[t], wallet, hash, w.clock)| == 1 {
      var id := TheOne(ExpiredByHash(w.ledgers[t], wallet, hash, w.clock));
      var tx := ReclaimTx(w.ledgers[t], id, wallet);
      assert id in ExpiredByHash(w.ledgers[t], wallet, hash, w.clock);
      SubmitEffect(H, w, Start, w, t, tx);
      assert Exec(H, w, Submit(Start, t, tx, w.nextTx)) == AfterReclaim(w, t, wallet, hash);
    } else {
      assert Exec(H, w, Start) == AfterReclaim(w, t, wallet, hash);
    }
  }

  /** A claim request is a run of ordinary steps; the caller knows the pre-image it passes. */
  lemma ClaimIsRun(H: Bytes -> Bytes, w: World, t: TmsId, wallet: Wallet, preImage: Bytes)
    requires WorldInv(H, w)
    ensures exists run :: Exec(H, w, run) == AfterClaim(H, w, t, wallet, preImage)
  {
    if t in w.ledgers && |ListByPreImage(H, w.ledgers[t], wallet, preImage, w.clock)| == 1 {
      var id := TheOne(ListByPreImage(H, w.ledgers[t], wallet, preImage, w.clock));
      var tx := ClaimTx(w.ledgers[t], id, wallet, preImage);
      assert id in ListByPreImage(H, w.ledgers[t], wallet, preImage, w.clock);
      var learnt := Then(Start, Learn(wallet, preImage));
      var w1 := w.(secrets := w.secrets[wallet := Secrets(w, wallet) + {preImage}]);
      assert Exec(H, w, Start) == w && Exec(H, w, learnt) == w1;
      SubmitEffect(H, w, learnt, w1, t, tx);
      assert Exec(H, w, Submit(learnt, t, tx, w.nextTx)) == AfterClaim(H, w, t, wallet, preImage);
    } else {
      assert Exec(H, w, Start) == AfterClaim(H, w, t, wallet, preImage);
    }
  }

  // ---------------------------------------------------------------------------------------------
  // Which requests settle a lock

  /** Another live unexpired lock that a claim request cannot tell from lock `id`. */
  predicate ClaimRival(l: Ledger, id: nat, other: nat, now: nat)
    requires LiveLock(l, id)
  {
    var script := l.outputs[id].owner.script;
    other != id && LiveLock(l, other) && now < l.outputs[other].owner.script.deadline &&
    l.outputs[other].owner.script.recipient == script.recipient && l.outputs[other].owner.script.hash == script.hash
  }

  /** Another live expired lock that a reclaim request cannot tell from lock `id`. */
  predicate ReclaimRival(l: Ledger, id: nat, other: nat, now: nat)
    requires LiveLock(l, id)
  {
    var script := l.outputs[id].owner.script;
    other != id && LiveLock(l, other) && l.outputs[other].owner.script.deadline <= now &&
    l.outputs[other].owner.script.sender == script.sender && l.outputs[other].owner.script.hash == script.hash
  }

  ghost predicate SoleClaimable(l: Ledger, id: nat, now: nat)
    requires LiveLock(l, id)
  {
    forall other: nat :: !ClaimRival(l, id, other, now)
  }

  ghost predicate SoleReclaimable(l: Ledger, id: nat, now: nat)
    requires LiveLock(l, id)
  {
    forall other: nat :: !ReclaimRival(l, id, other, now)
  }

  predicate SettledOn(w: World, t: TmsId, id: nat) {
    t in w.ledgers && id in w.ledgers[t].spent
  }

  /** A lock without a rival is the only one that a fitting pre-image lists. */
  lemma SoleIsListed(H: Bytes -> Bytes, l: Ledger, id: nat, wallet: Wallet, preImage: Bytes, now: nat)
    requires LiveLock(l, id) && IsMatch(H, l.outputs[id].owner.script, wallet, preImage, now) &&
             SoleClaimable(l, id, now)
    ensures ListByPreImage(H, l, wallet, preImage, now) == {id}
  {
    var s := ListByPreImage(H, l, wallet, preImage, now);
    assert forall other: nat :: other in s ==> ClaimRival(l, id, other, now) || other == id;
  }

  /** A claim request settles a live lock exactly when it fits the lock and no other lock. */
  lemma ClaimSettlesIff(H: Bytes -> Bytes, w: World, t: TmsId, id: nat, wallet: Wallet, preImage: Bytes)
    requires t in w.ledgers && LiveLock(w.ledgers[t], id)
    ensures var l := w.ledgers[t];
            SettledOn(AfterClaim(H, w, t, wallet, preImage), t, id) <==>
            IsMatch(H, l.outputs[id].owner.script, wallet, preImage, w.clock) && SoleClaimable(l, id, w.clock)
  {
    var l, now := w.ledgers[t], w.clock;
    var s := ListByPreImage(H, l, wallet, preImage, now);
    if |s| == 1 {
      var one := TheOne(s);
      assert one in s;
      assert AfterClaim(H, w, t, wallet, preImage).ledgers[t].spent.Keys == l.spent.Keys + Ids([one]);
      assert id in Ids([one]) <==> id == one;
    }
    if IsMatch(H, l.outputs[id].owner.script, wallet, preImage, now) {
      assert id in s;
      if SoleClaimable(l, id, now) {
        SoleIsListed(H, l, id, wallet, preImage, now);
      } else {
        var j: nat :| ClaimRival(l, id, j, now);
        TwoMembers(s, id, j);
      }
    }
  }

  /** A reclaim request settles a live lock exactly when it fits the lock and no other lock. */
  lemma ReclaimSettlesIff(w: World, t: TmsId, id: nat, wallet: Wallet, hash: Bytes)
    requires t in w.ledgers && LiveLock(w.ledgers[t], id)
    ensures var l := w.ledgers[t];
            SettledOn(AfterReclaim(w, t, wallet, hash), t, id) <==>
            IsExpired(l.outputs[id].owner.script, wallet, hash, w.clock) && SoleReclaimable(l, id, w.clock)
  {
    var l, now := w.ledgers[t], w.clock;
    var s := ExpiredByHash(l, wallet, hash, now);
    if |s| == 1 {
      var one := TheOne(s);
      assert one in s;
      assert AfterReclaim(w, t, wallet, hash).ledgers[t].spent.Keys == l.spent.Keys + Ids([one]);
      assert id in Ids([one]) <==> id == one;
    }
    if IsExpired(l.outputs[id].owner.script, wallet, hash, now) {
      assert id in s;
      if SoleReclaimable(l, id, now) {
        assert forall other: nat :: other in s ==> ReclaimRival(l, id, other, now) || other == id;
        assert s == {id};
      } else {
        var j: nat :| ReclaimRival(l, id, j, now);
        TwoMembers(s, id, j);
      }
    }
  }

  /**
   What a claim request made on `w0` brings about by `w1`, whatever else goes on in between: the lock that the wallet
   saw as the only match is settled, unless it expired first; without exactly one match the request is refused at
   once.
   */
  ghost predicate ClaimRequested(H: Bytes -> Bytes, w0: World, w1: World, t: TmsId, wallet: Wallet, preImage: Bytes) {
    t in w0.ledgers &&
    var matched := ListByPreImage(H, w0.ledgers[t], wallet, preImage, w0.clock);
    if |matched| == 1 then
      SettledOn(w1, t, TheOne(matched)) || w0.ledgers[t].outputs[TheOne(matched)].owner.script.deadline <= w1.clock
    else w1 == w0
  }

  /** Some claim request settles the lock. */
  ghost predicate ClaimOpen(H: Bytes -> Bytes, w: World, t: TmsId, id: nat) {
    exists wallet, preImage :: SettledOn(AfterClaim(H, w, t, wallet, preImage), t, id)
  }

  /** Some reclaim request settles the lock. */
  ghost predicate ReclaimOpen(w: World, t: TmsId, id: nat) {
    exists wallet, hash :: SettledOn(AfterReclaim(w, t, wallet, hash), t, id)
  }

  lemma ClaimOpenIff(H: Bytes -> Bytes, w: World, t: TmsId, id: nat)
    requires t in w.ledgers && LiveLock(w.ledgers[t], id)
    ensures var script := w.ledgers[t].outputs[id].owner.script;
            ClaimOpen(H, w, t, id) <==>
            w.clock < script.deadline && (exists p :: H(p) == script.hash) && SoleClaimable(w.ledgers[t], id, w.clock)
  {
    var script := w.ledgers[t].outputs[id].owner.script;
    if ClaimOpen(H, w, t, id) {
      var wallet, p :| SettledOn(AfterClaim(H, w, t, wallet, p), t, id);
      ClaimSettlesIff(H, w, t, id, wallet, p);
      assert H(p) == script.hash;
    }
    if w.clock < script.deadline && (exists p :: H(p) == script.hash) && SoleClaimable(w.ledgers[t], id, w.clock) {
      var p :| H(p) == script.hash;
      ClaimSettlesIff(H, w, t, id, script.recipient, p);
    }
  }

  lemma ReclaimOpenIff(w: World, t: TmsId, id: nat)
    requires t in w.ledgers && LiveLock(w.ledgers[t], id)
    ensures ReclaimOpen(w, t, id) <==>
            w.ledgers[t].outputs[id].owner.script.deadline <= w.clock && SoleReclaimable(w.ledgers[t], id, w.clock)
  {
    var script := w.ledgers[t].outputs[id].owner.script;
    if ReclaimOpen(w, t, id) {
      var wallet, hash :| SettledOn(AfterReclaim(w, t, wallet, hash), t, id);
      ReclaimSettlesIff(w, t, id, wallet, hash);
    }
    ReclaimSettlesIff(w, t, id, script.sender, script.hash);
  }

  lemma OpenByRun(H: Bytes -> Bytes, w: World, t: TmsId, id: nat)
    requires WorldInv(H, w)
    ensures ClaimOpen(H, w, t, id) || ReclaimOpen(w, t, id) ==> exists more :: SettledOn(Exec(H, w, more), t, id)
  {
    if ClaimOpen(H, w, t, id) {
      var wallet, p :| SettledOn(AfterClaim(H, w, t, wallet, p), t, id);
      ClaimIsRun(H, w, t, wallet, p);
    }
    if ReclaimOpen(w, t, id) {
      var wallet, hash :| SettledOn(AfterReclaim(w, t, wallet, hash), t, id);
      ReclaimIsRun(H, w, t, wallet, hash);
    }
  }

  /** The recipient claims before the deadline, or the sender reclaims from then on. */
  predicate SettlesInTime(l: Ledger, tx: Tx, id: nat, now: nat)
    requires LiveLock(l, id)
  {
    var script := l.outputs[id].owner.script;
    (now < script.deadline && tx.action.Claim? && tx.action.wallet == script.recipient) ||
    (script.deadline <= now && tx.action.Reclaim? && tx.action.wallet == script.sender)
  }

  lemma OnlyTheParties(H: Bytes -> Bytes, l: Ledger, id: nat, now: nat)
    requires LiveLock(l, id)
    ensures forall tx :: Valid(H, l, tx, now) && id in tx.inputs ==> SettlesInTime(l, tx, id, now)
  {
  }

  /**
   The ways out of a live lock of a reachable world. Before its deadline it can only be claimed, and that is so exactly
   when its hash has a pre-image and no other unexpired lock has the same recipient and hash; from its deadline on it
   can only be reclaimed, exactly when no other expired lock has the same sender and hash. Requests act by ordinary
   steps, and no valid transaction but a claim by the recipient or a reclaim by the sender consumes the lock.
   */
  lemma ExactlyOneWayOut(H: Bytes -> Bytes, tmss: set<TmsId>, run: Run, t: TmsId, id: nat)
    requires t in Exec(H, InitialWorld(tmss), run).ledgers && LiveLock(Exec(H, InitialWorld(tmss), run).ledgers[t], id)
    ensures var w := Exec(H, InitialWorld(tmss), run);
            var l := w.ledgers[t];
            var script := l.outputs[id].owner.script;
            (ClaimOpen(H, w, t, id) <==>
             w.clock < script.deadline && (exists p :: H(p) == script.hash) && SoleClaimable(l, id, w.clock)) &&
            (ReclaimOpen(w, t, id) <==> script.deadline <= w.clock && SoleReclaimable(l, id, w.clock))
    ensures var w := Exec(H, InitialWorld(tmss), run);
            ClaimOpen(H, w, t, id) || ReclaimOpen(w, t, id) ==>
              exists more :: SettledOn(Exec(H, InitialWorld(tmss), Append(run, more)), t, id)
    ensures var w := Exec(H, InitialWorld(tmss), run);
            forall tx :: Valid(H, w.ledgers[t], tx, w.clock) && id in tx.inputs ==>
                           SettlesInTime(w.ledgers[t], tx, id, w.clock)
  {
    var w := Exec(H, InitialWorld(tmss), run);
    Reachable(H, tmss, run);
    ClaimOpenIff(H, w, t, id);
    ReclaimOpenIff(w, t, id);
    OpenByRun(H, w, t, id);
    OnlyTheParties(H, w.ledgers[t], id, w.clock);
    if ClaimOpen(H, w, t, id) || ReclaimOpen(w, t, id) {
      var more :| SettledOn(Exec(H, w, more), t, id);
      ExecAppend(H, InitialWorld(tmss), run, more);
    }
  }

  // ---------------------------------------------------------------------------------------------
  // Repeated locks

  predicate IsLockFor(l: Ledger, id: nat, wallet: Wallet, hash: Bytes) {
    LiveLock(l, id) && l.outputs[id].owner.script.recipient == wallet && l.outputs[id].owner.script.hash == hash
  }

  /** Of the live locks for a recipient and hash, `id` is the only one with a deadline after `now`. */
  ghost predicate LastUnexpired(l: Ledger, id: nat, wallet: Wallet, hash: Bytes, now: nat) {
    IsLockFor(l, id, wallet, hash) && now < l.outputs[id].owner.script.deadline &&
    forall j: nat :: IsLockFor(l, j, wallet, hash) && j != id ==> l.outputs[j].owner.script.deadline <= now
  }

  /**
   Any number of locks with the same recipient and hash, say from repeated lock requests: at any later time a claim
   succeeds if and only if all of them but one have expired, and then it takes that one; otherwise it changes nothing.
   */
  lemma RetriedLockAndClaim(H: Bytes -> Bytes, w: World, t: TmsId, wallet: Wallet, preImage: Bytes, now: nat)
    requires t in w.ledgers
    ensures var l, later := w.ledgers[t], w.(clock := now);
            var after := AfterClaim(H, later, t, wallet, preImage);
            (after != later <==> exists id: nat :: LastUnexpired(l, id, wallet, H(preImage), now)) &&
            (forall id: nat :: LastUnexpired(l, id, wallet, H(preImage), now) ==>
                                 after.ledgers[t] == Apply(l, ClaimTx(l, id, wallet, preImage), now))
  {
    var l, later := w.ledgers[t], w.(clock := now);
    var s := ListByPreImage(H, l, wallet, preImage, now);
    assert forall i: nat :: i in s <==> IsLockFor(l, i, wallet, H(preImage)) &&
                                        now < l.outputs[i].owner.script.deadline;
    forall id: nat | LastUnexpired(l, id, wallet, H(preImage), now) ensures s == {id} {
      assert id in s;
      assert forall i :: i in s ==> i == id;
    }
    if |s| == 1 {
      var id := TheOne(s);
      assert id in s;
      forall j: nat | IsLockFor(l, j, wallet, H(preImage)) &&
                      j != id ensures l.outputs[j].owner.script.deadline <= now {
        assert j !in s;
      }
      assert LastUnexpired(l, id, wallet, H(preImage), now);
      var after := AfterClaim(H, later, t, wallet, preImage);
      assert after.ledgers[t].log == l.log + [ClaimTx(l, id, wallet, preImage)];
      assert |after.ledgers[t].log| != |l.log|;
    }
  }
}
