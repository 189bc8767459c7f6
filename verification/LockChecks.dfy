/** The recipient's checks on a lock it is asked to sign, and what the locker reports back. */
module LockChecks {
  import opened Basics
  import opened Ledgers

  datatype AcceptError = WrongScriptCount(count: nat) | InvalidScript | NotRecipient | NotSender

  /** The script outputs of a transaction, in order. */
  function ByScript(outputs: seq<Token>): seq<Token> {
    if outputs == [] then []
    else ByScript(outputs[..|outputs| - 1])
         + (if outputs[|outputs| - 1].owner.Locked? then [outputs[|outputs| - 1]] else [])
  }

  function ScriptAt(outputs: seq<Token>, i: nat): Option<Script> {
    if i < |outputs| && outputs[i].owner.Locked? then Some(outputs[i].owner.script) else None
  }

  /** Output `i` is the only script output. */
  predicate OnlyScript(outputs: seq<Token>, i: nat) {
    i < |outputs| && outputs[i].owner.Locked? &&
    forall j :: 0 <= j < |outputs| && outputs[j].owner.Locked? ==> j == i
  }

  lemma {:induction false} NoScripts(outputs: seq<Token>)
    ensures ByScript(outputs) == [] <==> forall j :: 0 <= j < |outputs| ==> !outputs[j].owner.Locked?
  {
    if outputs != [] {
      NoScripts(outputs[..|outputs| - 1]);
      if outputs[|outputs| - 1].owner.Locked? {
        assert |ByScript(outputs)| > 0;
      } else {
        assert ByScript(outputs) == ByScript(outputs[..|outputs| - 1]);
      }
    }
  }

  /** Counting one script output means that there is exactly one, and it is the one that is then checked. */
  lemma {:induction false} OneScript(outputs: seq<Token>)
    ensures |ByScript(outputs)| == 1 <==> exists i: nat :: OnlyScript(outputs, i)
    ensures forall i: nat :: OnlyScript(outputs, i) ==> ByScript(outputs) == [outputs[i]]
  {
    if outputs != [] {
      var n := |outputs| - 1;
      var init := outputs[..n];
      OneScript(init);
      NoScripts(init);
      forall i: nat | OnlyScript(outputs, i) ensures ByScript(outputs) == [outputs[i]] {
        if i < n { assert OnlyScript(init, i); }
      }
      if |ByScript(outputs)| == 1 {
        if outputs[n].owner.Locked? {
          assert OnlyScript(outputs, n);
        } else {
          var i: nat :| OnlyScript(init, i);
          assert OnlyScript(outputs, i);
        }
      }
    }
  }

  /** A transaction that the recipient may accept: one script, unexpired, between exactly these two parties. */
  ghost predicate Acceptable(outputs: seq<Token>, me: Wallet, sender: Wallet, now: nat) {
    exists i: nat :: OnlyScript(outputs, i) &&
                     var script := outputs[i].owner.script;
                     now < script.deadline && script.recipient == me && script.sender == sender
  }

  method AcceptLock(outputs: seq<Token>, me: Wallet, sender: Wallet, now: nat) returns (r: Result<Script, AcceptError>)
    ensures r.Ok? <==> Acceptable(outputs, me, sender, now)
    ensures r.Ok? <==>
            exists i :: 0 <= i < |outputs| && outputs[i].owner.Locked? &&
                        (forall j :: 0 <= j < |outputs| && outputs[j].owner.Locked? ==> j == i) &&
                        now < outputs[i].owner.script.deadline && outputs[i].owner.script.recipient == me &&
                        outputs[i].owner.script.sender == sender
    ensures r.Ok? ==> exists i: nat :: OnlyScript(outputs, i) && outputs[i].owner == Locked(r.value)
    ensures r.Err? ==>
              match r.error
              case WrongScriptCount(count) => count != 1 && !exists i: nat :: OnlyScript(outputs, i)
              case InvalidScript => exists i: nat :: OnlyScript(outputs, i) && outputs[i].owner.script.deadline <= now
              case NotRecipient => exists i: nat :: OnlyScript(outputs, i) && outputs[i].owner.script.recipient != me
              case NotSender => exists i: nat :: OnlyScript(outputs, i) && outputs[i].owner.script.sender != sender
  {
    OneScript(outputs);
    var scripted := ByScript(outputs);
    if |scripted| != 1 {
      return Err(WrongScriptCount(|scripted|));
    }
    ghost var i: nat :| OnlyScript(outputs, i);
    assert forall j: nat :: OnlyScript(outputs, j) ==> j == i;
    var script := scripted[0].owner.script;
    if script.deadline <= now {
      return Err(InvalidScript);
    }
    if me != script.recipient {
      return Err(NotRecipient);
    }
    if sender != script.sender {
      return Err(NotSender);
    }
    return Ok(script);
  }

  /** The locker reports the hash of output 0; that is the accepted script exactly when the script comes first. */
  lemma ReportedHashIsAccepted(outputs: seq<Token>, me: Wallet, sender: Wallet, now: nat)
    requires Acceptable(outputs, me, sender, now)
    ensures ScriptAt(ByScript(outputs), 0).Some?
    ensures ScriptAt(outputs, 0) == ScriptAt(ByScript(outputs), 0) <==> outputs[0].owner.Locked?
  {
    OneScript(outputs);
  }

  /** What the SDK builds for a lock request passes the recipient's checks as long as the deadline is ahead. */
  lemma LockIsAcceptable(H: Bytes -> Bytes, outputs: seq<Token>, tx: Tx, e: nat, now: nat)
    requires tx.action.Lock? && Shape(H, outputs, tx, e)
    ensures ScriptAt(tx.outputs, 0) == Some(tx.action.script)
    ensures Acceptable(tx.outputs, tx.action.script.recipient, tx.action.script.sender, now)
       <==> now < tx.action.script.deadline
  {
    assert OnlyScript(tx.outputs, 0);
    assert forall i: nat :: OnlyScript(tx.outputs, i) ==> i == 0;
  }
}
