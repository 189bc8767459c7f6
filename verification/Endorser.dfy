/**
 The custom endorser: a world state with versions that follows the committed blocks, a simulation store that reads it
 at a fixed block height and captures reads and writes, and the sample get/set executor on top.
 */
module Endorser {
  import opened Basics

  /** A key of the world state belongs to a namespace. */
  datatype Key = Key(namespace: string, key: string)

  /** Either scheme of versions: the place in the chain, or a number that grows with every write of the key. */
  datatype Version = Place(block: nat, tx: nat) | Serial(number: nat)

  /** A committed write, or a deletion, with the version that the committer gave it. */
  datatype Write = Write(tx: nat, key: Key, value: Option<string>, version: Version)

  type Block = seq<Write>

  datatype Entry = Entry(value: string, version: Version)

  type State = map<Key, Entry>

  // ---------------------------------------------------------------------------------------------
  // The simple form: replay all blocks

  function ApplyWrite(state: State, write: Write): State {
    match write.value
    case Some(value) => state[write.key := Entry(value, write.version)]
    case None => state - {write.key}
  }

  function ApplyBlock(state: State, block: Block): State {
    if block == [] then state
    else ApplyWrite(ApplyBlock(state, block[..|block| - 1]), block[|block| - 1])
  }

  /** The world state after all blocks of `chain`, the first one numbered 0. */
  function Replay(chain: seq<Block>): State {
    if chain == [] then map[]
    else ApplyBlock(Replay(chain[..|chain| - 1]), chain[|chain| - 1])
  }

  function Find(state: State, key: Key): Option<Entry> {
    if key in state then Some(state[key]) else None
  }

  // ---------------------------------------------------------------------------------------------
  // The stored form: rows that are only ever added, read backwards up to a height

  datatype Row = Row(key: Key, value: Option<string>, version: Version, block: nat)

  function BlockRows(block: Block, number: nat): seq<Row> {
    seq(|block|, i requires 0 <= i < |block| => Row(block[i].key, block[i].value, block[i].version, number))
  }

  function RowsOf(chain: seq<Block>): seq<Row> {
    if chain == [] then []
    else RowsOf(chain[..|chain| - 1]) + BlockRows(chain[|chain| - 1], |chain| - 1)
  }

  /** The position of the last row of a key, or None. */
  function Latest(rows: seq<Row>, key: Key): (r: Option<nat>)
    ensures r.Some? ==> r.value < |rows| && rows[r.value].key == key
    ensures forall i :: 0 <= i < |rows| && rows[i].key == key ==> r.Some? && i <= r.value
  {
    if rows == [] then None
    else if rows[|rows| - 1].key == key then Some(|rows| - 1)
    else Latest(rows[..|rows| - 1], key)
  }

  function EntryAt(rows: seq<Row>, key: Key): Option<Entry> {
    match Latest(rows, key)
    case None => None
    case Some(i) => if rows[i].value.Some? then Some(Entry(rows[i].value.value, rows[i].version)) else None
  }

  lemma {:induction false} BlockFind(state: State, rows: seq<Row>, block: Block, number: nat, key: Key)
    requires EntryAt(rows, key) == Find(state, key)
    ensures EntryAt(rows + BlockRows(block, number), key) == Find(ApplyBlock(state, block), key)
  {
    if block == [] {
      assert rows + BlockRows(block, number) == rows;
    } else {
      var n := |block| - 1;
      var all := rows + BlockRows(block, number);
      BlockFind(state, rows, block[..n], number, key);
      assert all[..|all| - 1] == rows + BlockRows(block[..n], number);
      assert all[|all| - 1] == Row(block[n].key, block[n].value, block[n].version, number);
    }
  }

  /** Looking up the last row of a key is looking it up after replaying every block. */
  lemma {:induction false} RowsRefineReplay(chain: seq<Block>, key: Key)
    ensures EntryAt(RowsOf(chain), key) == Find(Replay(chain), key)
  {
    if chain != [] {
      var n := |chain| - 1;
      RowsRefineReplay(chain[..n], key);
      BlockFind(Replay(chain[..n]), RowsOf(chain[..n]), chain[n], n, key);
    }
  }

  /** The rows of the first blocks come first, and the block number tells where they end. */
  lemma {:induction false} RowsUpTo(chain: seq<Block>, height: nat)
    requires height <= |chain|
    ensures RowsOf(chain[..height]) <= RowsOf(chain)
    ensures forall i :: 0 <= i < |RowsOf(chain)| ==>
                          RowsOf(chain)[i].block < |chain| &&
                          (RowsOf(chain)[i].block < height <==> i < |RowsOf(chain[..height])|)
  {
    if height == |chain| {
      assert chain[..height] == chain;
      if chain != [] {
        var n := |chain| - 1;
        RowsUpTo(chain[..n], n);
        assert chain[..n][..n] == chain[..n];
      }
    } else {
      var n := |chain| - 1;
      RowsUpTo(chain[..n], height);
      assert chain[..n][..height] == chain[..height];
    }
  }

  /** The first blocks, all of them when there are fewer. */
  function UpTo(chain: seq<Block>, height: nat): seq<Block> {
    if height <= |chain| then chain[..height] else chain
  }

  /** The last row of a key below a height is what replaying that many blocks finds. */
  lemma RowFound(chain: seq<Block>, at: nat, key: Key, i: nat)
    requires i < |RowsOf(chain)| && RowsOf(chain)[i].key == key && RowsOf(chain)[i].block < at
    requires forall j :: i < j < |RowsOf(chain)| ==> !(RowsOf(chain)[j].key == key && RowsOf(chain)[j].block < at)
    ensures var row := RowsOf(chain)[i];
            Find(Replay(UpTo(chain, at)), key) ==
            if row.value.Some? then Some(Entry(row.value.value, row.version)) else None
  {
    var seen := RowsOf(UpTo(chain, at));
    RowsRefineReplay(UpTo(chain, at), key);
    RowsUpTo(chain, |UpTo(chain, at)|);
    assert seen[i] == RowsOf(chain)[i];
    assert Latest(seen, key) == Some(i);
  }

  lemma NoRowFound(chain: seq<Block>, at: nat, key: Key)
    requires forall j :: 0 <= j < |RowsOf(chain)| ==> !(RowsOf(chain)[j].key == key && RowsOf(chain)[j].block < at)
    ensures Find(Replay(UpTo(chain, at)), key) == None
  {
    var seen := RowsOf(UpTo(chain, at));
    RowsRefineReplay(UpTo(chain, at), key);
    RowsUpTo(chain, |UpTo(chain, at)|);
    assert forall j :: 0 <= j < |seen| ==> seen[j] == RowsOf(chain)[j];
    assert Latest(seen, key) == None;
  }

  /** The node's copy of the world state. */
  class VersionedDB {
    var height: nat
    var rows: seq<Row>
    ghost var chain: seq<Block>

    ghost predicate Valid()
      reads this
    {
      height == |chain| && rows == RowsOf(chain)
    }

    constructor ()
      ensures Valid() && chain == []
    {
      height, rows, chain := 0, [], [];
    }

    /** The synchronizer adds the next committed block. */
    method AddBlock(block: Block)
      requires Valid()
      modifies this
      ensures Valid() && chain == old(chain) + [block]
    {
      rows := rows + BlockRows(block, height);
      chain := chain + [block];
      height := height + 1;
      assert chain[..|chain| - 1] == old(chain);
    }

    method AddBlocks(blocks: seq<Block>)
      requires Valid()
      modifies this
      ensures Valid() && chain == old(chain) + blocks
    {
      for k := 0 to |blocks|
        invariant Valid() && chain == old(chain) + blocks[..k]
      {
        AddBlock(blocks[k]);
      }
    }

    /** The entry of a key at a height: what replaying that many blocks, as far as there are, gives. */
    method Get(key: Key, at: nat) returns (r: Option<Entry>)
      requires Valid()
      ensures r == Find(Replay(UpTo(chain, at)), key)
    {
      var i := |rows|;
      while i > 0
        invariant 0 <= i <= |rows|
        invariant forall j :: i <= j < |rows| ==> !(rows[j].key == key && rows[j].block < at)
      {
        i := i - 1;
        if rows[i].key == key && rows[i].block < at {
          RowFound(chain, at, key, i);
          return if rows[i].value.Some? then Some(Entry(rows[i].value.value, rows[i].version)) else None;
        }
      }
      NoRowFound(chain, at, key);
      return None;
    }
  }

  // ---------------------------------------------------------------------------------------------
  // Simulation and execution

  /** The reads with their versions, None for an absent key, and the writes. */
  datatype ReadWriteSet = ReadWriteSet(readSet: map<string, Option<Version>>, writeSet: map<string, Option<string>>)

  datatype ExecutionResult = BadRequest(message: string) | Success(rwset: ReadWriteSet, payload: string)

  class SimulationStore {
    const db: VersionedDB
    const namespace: string
    const height: nat
    var readSet: map<string, Option<Version>>
    var writeSet: map<string, Option<string>>

    /** Opens a store at a block height, 0 standing for the current one. */
    constructor (db: VersionedDB, namespace: string, blockNum: nat)
      requires db.Valid()
      ensures this.db == db && this.namespace == namespace && readSet == map[] && writeSet == map[]
      ensures height == if blockNum == 0 then |db.chain| else blockNum
    {
      this.db, this.namespace := db, namespace;
      height := if blockNum == 0 then db.height else blockNum;
      readSet, writeSet := map[], map[];
    }

    /** Reads the world state at the store's height; an absent key reads as the empty value. */
    method GetState(key: string) returns (value: string)
      requires db.Valid()
      modifies this
      ensures var found := Find(Replay(UpTo(db.chain, height)), Key(namespace, key));
              value == (if found.Some? then found.value.value else "") &&
              readSet == old(readSet)[key := if found.Some? then Some(found.value.version) else None] &&
              writeSet == old(writeSet)
    {
      var found := db.Get(Key(namespace, key), height);
      readSet := readSet[key := if found.Some? then Some(found.value.version) else None];
      value := if found.Some? then found.value.value else "";
    }

    method PutState(key: string, value: string)
      modifies this
      ensures writeSet == old(writeSet)[key := Some(value)] && readSet == old(readSet)
    {
      writeSet := writeSet[key := Some(value)];
    }

    method DelState(key: string)
      modifies this
      ensures writeSet == old(writeSet)[key := None] && readSet == old(readSet)
    {
      writeSet := writeSet[key := None];
    }

    function Result(): ReadWriteSet
      reads this
    {
      ReadWriteSet(readSet, writeSet)
    }
  }

  /** What the sample executor answers on a world state. */
  function Answer(state: State, namespace: string, args: seq<string>): ExecutionResult {
    if args == [] then BadRequest("no function specified")
    else if args[0] == "get" then
      if |args| < 2 then BadRequest("usage: get [key]")
      else
        var found := Find(state, Key(namespace, args[1]));
        Success(ReadWriteSet(map[args[1] := if found.Some? then Some(found.value.version) else None], map[]),
                if found.Some? then found.value.value else "")
    else if args[0] == "set" then
      if |args| < 3 then BadRequest("usage: set [key] [value]")
      else Success(ReadWriteSet(map[], map[args[1] := Some(args[2])]), args[1] + "=" + args[2])
    else BadRequest("usage: get [key] || set [key] [value]")
  }

  /** What may go wrong around an execution: opening the store, reading or writing it, signing the answer. */
  datatype Faults = Faults(opening: bool, access: bool, signing: bool)

  /** The arguments make the sample executor read or write the store. */
  predicate UsesStore(args: seq<string>) {
    args != [] && ((args[0] == "get" && |args| >= 2) || (args[0] == "set" && |args| >= 3))
  }

  /**
   The sample executor. The answer is that of the world state at the time the store was opened, although the blocks in
   `incoming` are added while it runs; and nothing but these blocks is added to the world state. There is none if the
   store fails.
   */
  method Execute(db: VersionedDB, namespace: string, args: seq<string>, incoming: seq<Block>, faults: Faults)
    returns (r: Option<ExecutionResult>)
    requires db.Valid()
    modifies db
    ensures db.Valid() && db.chain == old(db.chain) + incoming
    ensures r == if faults.opening || (faults.access && UsesStore(args)) then None
                 else Some(Answer(Replay(old(db.chain)), namespace, args))
    ensures (r.Some? && |args| >= 2 && args[0] == "get" ==>
               var found := Find(Replay(old(db.chain)), Key(namespace, args[1]));
               r.value.Success? && r.value.rwset.writeSet == map[] &&
               r.value.rwset.readSet == map[args[1] := if found.Some? then Some(found.value.version) else None] &&
               r.value.payload == if found.Some? then found.value.value else "") &&
            (r.Some? && |args| >= 3 && args[0] == "set" ==>
               r.value.Success? && r.value.rwset.readSet == map[] &&
               r.value.rwset.writeSet == map[args[1] := Some(args[2])] &&
               r.value.payload == args[1] + "=" + args[2]) &&
            (r.Some? && !(|args| >= 2 && args[0] == "get") && !(|args| >= 3 && args[0] == "set") ==>
               r.value == BadRequest(if |args| == 0 then "no function specified"
                                     else if args[0] == "get" then "usage: get [key]"
                                     else if args[0] == "set" then "usage: set [key] [value]"
                                     else "usage: get [key] || set [key] [value]"))
  {
    ghost var start := db.chain;
    var store := new SimulationStore(db, namespace, 0);
    db.AddBlocks(incoming);
    assert db.chain[..store.height] == start;
    if faults.opening {
      return None;
    }
    if |args| == 0 {
      return Some(BadRequest("no function specified"));
    }
    if args[0] == "get" {
      if |args| < 2 {
        return Some(BadRequest("usage: get [key]"));
      }
      if faults.access {
        return None;
      }
      var value := store.GetState(args[1]);
      return Some(Success(store.Result(), value));
    } else if args[0] == "set" {
      if |args| < 3 {
        return Some(BadRequest("usage: set [key] [value]"));
      }
      if faults.access {
        return None;
      }
      store.PutState(args[1], args[2]);
      return Some(Success(store.Result(), args[1] + "=" + args[2]));
    } else {
      return Some(BadRequest("usage: get [key] || set [key] [value]"));
    }
  }

  // ---------------------------------------------------------------------------------------------
  // Any executor: a program of reads and writes

  datatype Op = Get(key: string) | Put(key: string, value: string) | Del(key: string)

  function VersionOf(state: State, key: Key): Option<Version> {
    if key in state then Some(state[key].version) else None
  }

  function AfterOp(state: State, namespace: string, before: ReadWriteSet, op: Op): ReadWriteSet {
    match op
    case Get(key) => before.(readSet := before.readSet[key := VersionOf(state, Key(namespace, key))])
    case Put(key, value) => before.(writeSet := before.writeSet[key := Some(value)])
    case Del(key) => before.(writeSet := before.writeSet[key := None])
  }

  function ReadBy(state: State, namespace: string, op: Op): seq<string> {
    if op.Get? then [ValueOf(state, Key(namespace, op.key))] else []
  }

  /** The read/write set of a program on one world state. */
  function Simulated(state: State, namespace: string, ops: seq<Op>): ReadWriteSet {
    if ops == [] then ReadWriteSet(map[], map[])
    else AfterOp(state, namespace, Simulated(state, namespace, ops[..|ops| - 1]), ops[|ops| - 1])
  }

  /** The values that a program reads, in order. */
  function ReadValues(state: State, namespace: string, ops: seq<Op>): seq<string> {
    if ops == [] then []
    else ReadValues(state, namespace, ops[..|ops| - 1]) + ReadBy(state, namespace, ops[|ops| - 1])
  }

  function ValueOf(state: State, key: Key): string {
    if key in state then state[key].value else ""
  }

  function Concat(parts: seq<seq<Block>>): seq<Block> {
    if parts == [] then [] else Concat(parts[..|parts| - 1]) + parts[|parts| - 1]
  }

  lemma {:induction false} WrittenKey(state: State, namespace: string, ops: seq<Op>, key: string)
    ensures key in Simulated(state, namespace, ops).writeSet <==>
            exists i :: 0 <= i < |ops| && !ops[i].Get? && ops[i].key == key
  {
    if ops != [] {
      var n := |ops| - 1;
      WrittenKey(state, namespace, ops[..n], key);
      assert forall i :: 0 <= i < n ==> ops[..n][i] == ops[i];
      if i :| 0 <= i < |ops| && !ops[i].Get? && ops[i].key == key {
        if i < n { assert !ops[..n][i].Get? && ops[..n][i].key == key; }
      }
    }
  }

  lemma {:induction false} ReadKey(state: State, namespace: string, ops: seq<Op>, key: string)
    ensures var seen := Simulated(state, namespace, ops).readSet;
            (key in seen <==> exists i :: 0 <= i < |ops| && ops[i] == Get(key)) &&
            (key in seen ==>
               var found := Find(state, Key(namespace, key));
               seen[key] == if found.Some? then Some(found.value.version) else None)
  {
    if ops != [] {
      var n := |ops| - 1;
      ReadKey(state, namespace, ops[..n], key);
      assert forall i :: 0 <= i < n ==> ops[..n][i] == ops[i];
      if i :| 0 <= i < |ops| && ops[i] == Get(key) {
        if i < n { assert ops[..n][i] == Get(key); }
      }
    }
  }

  /** No later operation than `i` writes or deletes its key. */
  predicate IsLastWrite(ops: seq<Op>, i: nat) {
    i < |ops| && !ops[i].Get? && forall j :: i < j < |ops| ==> ops[j].Get? || ops[j].key != ops[i].key
  }

  lemma {:induction false} LastWrite(state: State, namespace: string, ops: seq<Op>, i: nat)
    requires IsLastWrite(ops, i)
    ensures var writes := Simulated(state, namespace, ops).writeSet;
            ops[i].key in writes && writes[ops[i].key] == if ops[i].Put? then Some(ops[i].value) else None
  {
    var n := |ops| - 1;
    if i < n {
      assert ops[..n][i] == ops[i];
      assert IsLastWrite(ops[..n], i);
      LastWrite(state, namespace, ops[..n], i);
    }
  }

  /** What a program captures, operation by operation written out. */
  lemma SimulatedExact(state: State, namespace: string, ops: seq<Op>)
    ensures var rwset := Simulated(state, namespace, ops);
            (forall key :: key in rwset.writeSet <==>
                           exists i :: 0 <= i < |ops| && !ops[i].Get? && ops[i].key == key) &&
            (forall i :: 0 <= i < |ops| && !ops[i].Get? &&
                         (forall j :: i < j < |ops| ==> ops[j].Get? || ops[j].key != ops[i].key) ==>
                           ops[i].key in rwset.writeSet &&
                           rwset.writeSet[ops[i].key] == if ops[i].Put? then Some(ops[i].value) else None) &&
            (forall key :: key in rwset.readSet <==> exists i :: 0 <= i < |ops| && ops[i] == Get(key)) &&
            (forall key :: key in rwset.readSet ==>
                             var found := Find(state, Key(namespace, key));
                             rwset.readSet[key] == if found.Some? then Some(found.value.version) else None)
  {
    var rwset := Simulated(state, namespace, ops);
    forall key ensures key in rwset.writeSet <==> exists i :: 0 <= i < |ops| && !ops[i].Get? && ops[i].key == key {
      WrittenKey(state, namespace, ops, key);
    }
    forall i | 0 <= i < |ops| && !ops[i].Get? && (forall j :: i < j < |ops| ==> ops[j].Get? || ops[j].key != ops[i].key)
      ensures ops[i].key in rwset.writeSet &&
              rwset.writeSet[ops[i].key] == if ops[i].Put? then Some(ops[i].value) else None
    {
      LastWrite(state, namespace, ops, i);
    }
    forall key ensures (key in rwset.readSet <==> exists i :: 0 <= i < |ops| && ops[i] == Get(key)) &&
                       (key in rwset.readSet ==>
                          var found := Find(state, Key(namespace, key));
                          rwset.readSet[key] == if found.Some? then Some(found.value.version) else None)
    {
      ReadKey(state, namespace, ops, key);
    }
  }

  /** The positions of the reads of a program, in order. */
  predicate ArePositions(at: seq<nat>, ops: seq<Op>) {
    (forall j :: 0 <= j < |at| ==> at[j] < |ops| && ops[at[j]].Get?) &&
    (forall j, k :: 0 <= j < k < |at| ==> at[j] < at[k]) &&
    (forall i :: 0 <= i < |ops| && ops[i].Get? ==> i in at)
  }

  lemma PositionsSnoc(at: seq<nat>, ops: seq<Op>)
    requires ops != [] && ArePositions(at, ops[..|ops| - 1])
    ensures ArePositions(if ops[|ops| - 1].Get? then at + [|ops| - 1] else at, ops)
  {
    var n := |ops| - 1;
    assert forall i :: 0 <= i < n ==> ops[..n][i] == ops[i];
    if ops[n].Get? {
      forall i | 0 <= i < |ops| && ops[i].Get? ensures i in at + [n] {
        if i < n { assert i in at; }
      }
    }
  }

  function Positions(ops: seq<Op>): seq<nat> {
    if ops == [] then []
    else Positions(ops[..|ops| - 1]) + (if ops[|ops| - 1].Get? then [|ops| - 1] else [])
  }

  lemma {:induction false} PositionsAre(ops: seq<Op>)
    ensures ArePositions(Positions(ops), ops)
  {
    if ops != [] {
      PositionsAre(ops[..|ops| - 1]);
      PositionsSnoc(Positions(ops[..|ops| - 1]), ops);
      assert !ops[|ops| - 1].Get? ==> Positions(ops) == Positions(ops[..|ops| - 1]);
    }
  }

  predicate ValueIs(state: State, namespace: string, op: Op, value: string) {
    op.Get? &&
    var found := Find(state, Key(namespace, op.key));
    value == if found.Some? then found.value.value else ""
  }

  lemma {:induction false} ReadsExact(state: State, namespace: string, ops: seq<Op>)
    ensures |ReadValues(state, namespace, ops)| == |Positions(ops)|
    ensures forall j :: 0 <= j < |Positions(ops)| ==>
                          Positions(ops)[j] < |ops| &&
                          ValueIs(state, namespace, ops[Positions(ops)[j]], ReadValues(state, namespace, ops)[j])
  {
    if ops != [] {
      var n := |ops| - 1;
      var at, values := Positions(ops[..n]), ReadValues(state, namespace, ops[..n]);
      ReadsExact(state, namespace, ops[..n]);
      forall j | 0 <= j < |at| ensures at[j] < |ops| && ValueIs(state, namespace, ops[at[j]], values[j]) {
        assert ops[..n][at[j]] == ops[at[j]];
      }
      assert ops[n].Get? ==> ValueIs(state, namespace, ops[n], ReadBy(state, namespace, ops[n])[0]);
    }
  }

  method RunOp(store: SimulationStore, op: Op) returns (values: seq<string>)
    requires store.db.Valid()
    modifies store
    ensures var state := Replay(UpTo(store.db.chain, store.height));
            store.Result() == AfterOp(state, store.namespace, old(store.Result()), op) &&
            values == ReadBy(state, store.namespace, op)
  {
    values := [];
    match op
    case Get(key) =>
      var value := store.GetState(key);
      values := [value];
    case Put(key, value) => store.PutState(key, value);
    case Del(key) => store.DelState(key);
  }

  /**
   Running a program. Whatever blocks arrive before each of its operations, all of them act on the world state at the
   time the store was opened, and only these blocks are added to the world state. `at` are the positions of the reads.
   */
  method Simulate(db: VersionedDB, namespace: string, ops: seq<Op>, incoming: seq<seq<Block>>)
    returns (rwset: ReadWriteSet, values: seq<string>, ghost at: seq<nat>)
    requires db.Valid() && |incoming| == |ops|
    modifies db
    ensures db.Valid() && db.chain == old(db.chain) + Concat(incoming)
    ensures rwset == Simulated(Replay(old(db.chain)), namespace, ops)
    ensures values == ReadValues(Replay(old(db.chain)), namespace, ops)
    ensures forall key :: key in rwset.writeSet <==> exists i :: 0 <= i < |ops| && !ops[i].Get? && ops[i].key == key
    ensures forall i :: 0 <= i < |ops| && !ops[i].Get? &&
                        (forall j :: i < j < |ops| ==> ops[j].Get? || ops[j].key != ops[i].key) ==>
                          ops[i].key in rwset.writeSet &&
                          rwset.writeSet[ops[i].key] == if ops[i].Put? then Some(ops[i].value) else None
    ensures forall key :: key in rwset.readSet <==> exists i :: 0 <= i < |ops| && ops[i] == Get(key)
    ensures forall key :: key in rwset.readSet ==>
                            var found := Find(Replay(old(db.chain)), Key(namespace, key));
                            rwset.readSet[key] == if found.Some? then Some(found.value.version) else None
    ensures |at| == |values| && forall j :: 0 <= j < |at| ==> at[j] < |ops| && ops[at[j]].Get?
    ensures (forall j, k :: 0 <= j < k < |at| ==> at[j] < at[k]) &&
            forall i :: 0 <= i < |ops| && ops[i].Get? ==> i in at
    ensures forall j :: 0 <= j < |values| ==>
                          var found := Find(Replay(old(db.chain)), Key(namespace, ops[at[j]].key));
                          values[j] == if found.Some? then found.value.value else ""
  {
    ghost var start := db.chain;
    var store := new SimulationStore(db, namespace, 0);
    values := [];
    for k := 0 to |ops|
      invariant db.Valid() && db.chain == start + Concat(incoming[..k])
      invariant store.Result() == Simulated(Replay(start), namespace, ops[..k])
      invariant values == ReadValues(Replay(start), namespace, ops[..k])
    {
      assert ops[..k + 1][..k] == ops[..k] && incoming[..k + 1][..k] == incoming[..k];
      db.AddBlocks(incoming[k]);
      assert UpTo(db.chain, store.height) == start;
      var more := RunOp(store, ops[k]);
      values := values + more;
    }
    assert ops[..|ops|] == ops && incoming[..|ops|] == incoming;
    rwset := store.Result();
    SimulatedExact(Replay(start), namespace, ops);
    at := Positions(ops);
    PositionsAre(ops);
    ReadsExact(Replay(start), namespace, ops);
    forall j | 0 <= j < |at| ensures ValueIs(Replay(start), namespace, ops[at[j]], values[j]) {
    }
  }

  datatype Invocation = Invocation(channel: string, namespace: string, version: string, args: seq<string>)

  /** `Fault` is the failing index in the log line, which names the first argument even when there is none. */
  datatype ProposalError = Malformed | WrongChannel | UnknownNamespace | Internal | Fault

  /** A signed answer: the chaincode version it names, and the result. */
  datatype Endorsement = Endorsement(version: string, result: ExecutionResult)

  class Service {
    const channel: string
    const namespaces: set<string>
    const readDB: VersionedDB

    constructor (channel: string, namespaces: set<string>, readDB: VersionedDB)
      ensures this.channel == channel && this.namespaces == namespaces && this.readDB == readDB
    {
      this.channel, this.namespaces, this.readDB := channel, namespaces, readDB;
    }

    /**
     A proposal, None when it does not parse. It is answered exactly when it is for this channel and a known namespace
     and has an argument, unless the store or the signature fails. The world state only ever grows by the committed
     blocks that arrive meanwhile, never by the proposal.
     */
    method ProcessProposal(proposal: Option<Invocation>, incoming: seq<Block>, faults: Faults)
      returns (r: Result<Endorsement, ProposalError>)
      requires readDB.Valid()
      modifies readDB
      ensures readDB.Valid()
      ensures r == Err(Malformed) <==> proposal.None?
      ensures proposal.Some? ==>
                var inv := proposal.value;
                var accepted := inv.channel == channel && inv.namespace in namespaces;
                var failed := faults.opening || (faults.access && UsesStore(inv.args)) || faults.signing;
                (r == Err(WrongChannel) <==> inv.channel != channel) &&
                (r == Err(UnknownNamespace) <==> inv.channel == channel && inv.namespace !in namespaces) &&
                (r == Err(Internal) <==> accepted && failed) &&
                (r == Err(Fault) <==> accepted && !failed && inv.args == []) &&
                (r.Ok? ==> r.value == Endorsement(if inv.version == "" then "1.0" else inv.version,
                                                  Answer(Replay(old(readDB.chain)), inv.namespace, inv.args)))
      ensures proposal.Some? ==>
                var inv := proposal.value;
                (r.Ok? && |inv.args| >= 2 && inv.args[0] == "get" ==>
                   var found := Find(Replay(old(readDB.chain)), Key(inv.namespace, inv.args[1]));
                   r.value.result.Success? && r.value.result.rwset.writeSet == map[] &&
                   r.value.result.rwset.readSet ==
                   map[inv.args[1] := if found.Some? then Some(found.value.version) else None] &&
                   r.value.result.payload == if found.Some? then found.value.value else "") &&
                (r.Ok? && |inv.args| >= 3 && inv.args[0] == "set" ==>
                   r.value.result.Success? && r.value.result.rwset.readSet == map[] &&
                   r.value.result.rwset.writeSet == map[inv.args[1] := Some(inv.args[2])] &&
                   r.value.result.payload == inv.args[1] + "=" + inv.args[2]) &&
                (r.Ok? && !(|inv.args| >= 2 && inv.args[0] == "get") && !(|inv.args| >= 3 && inv.args[0] == "set") ==>
                   r.value.result == BadRequest(if |inv.args| == 0 then "no function specified"
                                                else if inv.args[0] == "get" then "usage: get [key]"
                                                else if inv.args[0] == "set" then "usage: set [key] [value]"
                                                else "usage: get [key] || set [key] [value]"))
      ensures readDB.chain == old(readDB.chain) || readDB.chain == old(readDB.chain) + incoming
    {
      if proposal.None? {
        return Err(Malformed);
      }
      var inv := proposal.value;
      if inv.channel != channel {
        return Err(WrongChannel);
      }
      if inv.namespace !in namespaces {
        return Err(UnknownNamespace);
      }
      var version := inv.version;
      if version == "" {
        version := "1.0";
      }
      var result := Execute(readDB, inv.namespace, inv.args, incoming, faults);
      if result.None? || faults.signing {
        return Err(Internal);
      }
      if |inv.args| == 0 {
        return Err(Fault);
      }
      return Ok(Endorsement(version, result.value));
    }
  }

  // ---------------------------------------------------------------------------------------------
  // Two endorsers

  /** A key never gets the same version for two different writes. */
  ghost predicate VersionsIdentify(chain: seq<Block>) {
    forall i, j :: 0 <= i < j < |RowsOf(chain)| ==>
                     !(RowsOf(chain)[i].key == RowsOf(chain)[j].key &&
                       RowsOf(chain)[i].version == RowsOf(chain)[j].version)
  }

  lemma RowBehindEntry(chain: seq<Block>, height: nat, key: Key) returns (i: nat)
    requires height <= |chain| && Find(Replay(chain[..height]), key).Some?
    ensures i < |RowsOf(chain)| && RowsOf(chain)[i].key == key
    ensures var e := Find(Replay(chain[..height]), key).value;
            RowsOf(chain)[i].value == Some(e.value) && RowsOf(chain)[i].version == e.version
  {
    RowsRefineReplay(chain[..height], key);
    RowsUpTo(chain, height);
    i := Latest(RowsOf(chain[..height]), key).value;
  }

  /** Along one chain, the version of a key determines its value. */
  lemma VersionDeterminesEntry(chain: seq<Block>, g: nat, h: nat, key: Key)
    requires VersionsIdentify(chain) && g <= |chain| && h <= |chain|
    requires Find(Replay(chain[..g]), key).Some? && Find(Replay(chain[..h]), key).Some?
    requires Find(Replay(chain[..g]), key).value.version == Find(Replay(chain[..h]), key).value.version
    ensures Find(Replay(chain[..g]), key) == Find(Replay(chain[..h]), key)
  {
    var i := RowBehindEntry(chain, g, key);
    var j := RowBehindEntry(chain, h, key);
    assert i == j;
  }

  /**
   Two endorsers that have synchronized different numbers of the committed blocks sign the same answer exactly when the
   proposal is no read, or they see the same version of the key it reads: in any scheme whose versions identify writes.
   */
  lemma EndorsersAgreeIff(chain: seq<Block>, g: nat, h: nat, namespace: string, args: seq<string>)
    requires VersionsIdentify(chain) && g <= |chain| && h <= |chain|
    ensures Answer(Replay(chain[..g]), namespace, args) == Answer(Replay(chain[..h]), namespace, args) <==>
            (|args| >= 2 && args[0] == "get" ==>
               VersionOf(Replay(chain[..g]), Key(namespace, args[1])) ==
               VersionOf(Replay(chain[..h]), Key(namespace, args[1])))
  {
    if |args| >= 2 && args[0] == "get" {
      var key := Key(namespace, args[1]);
      var a, b := Replay(chain[..g]), Replay(chain[..h]);
      var x, y := Answer(a, namespace, args), Answer(b, namespace, args);
      assert x.rwset.readSet[args[1]] == VersionOf(a, key) && y.rwset.readSet[args[1]] == VersionOf(b, key);
      if VersionOf(a, key) == VersionOf(b, key) && key in a {
        VersionDeterminesEntry(chain, g, h, key);
      }
    }
  }

  lemma {:induction false} SimulatedVersions(state: State, namespace: string, ops: seq<Op>, k: nat)
    requires k < |ops| && ops[k].Get?
    ensures var seen := Simulated(state, namespace, ops).readSet;
            ops[k].key in seen && seen[ops[k].key] == VersionOf(state, Key(namespace, ops[k].key))
  {
    var n := |ops| - 1;
    if k < n { SimulatedVersions(state, namespace, ops[..n], k); }
  }

  lemma {:induction false} SimulationsAgree(a: State, b: State, namespace: string, ops: seq<Op>)
    requires forall op :: op in ops && op.Get? ==> Find(a, Key(namespace, op.key)) == Find(b, Key(namespace, op.key))
    ensures Simulated(a, namespace, ops) == Simulated(b, namespace, ops)
    ensures ReadValues(a, namespace, ops) == ReadValues(b, namespace, ops)
  {
    if ops != [] {
      var n := |ops| - 1;
      SimulationsAgree(a, b, namespace, ops[..n]);
      if ops[n].Get? {
        assert ops[n] in ops;
        assert Find(a, Key(namespace, ops[n].key)) == Find(b, Key(namespace, ops[n].key));
      }
    }
  }

  /**
   Whatever program an executor runs: two endorsers at different heights get the same read/write set exactly when they
   see the same version of every key it reads, and then they read the same values too.
   */
  lemma SimulationsAgreeIff(chain: seq<Block>, g: nat, h: nat, namespace: string, ops: seq<Op>)
    requires VersionsIdentify(chain) && g <= |chain| && h <= |chain|
    ensures var a, b := Replay(chain[..g]), Replay(chain[..h]);
            (Simulated(a, namespace, ops) == Simulated(b, namespace, ops) <==>
             forall op :: op in ops && op.Get? ==>
                            VersionOf(a, Key(namespace, op.key)) == VersionOf(b, Key(namespace, op.key))) &&
            (Simulated(a, namespace, ops) == Simulated(b, namespace, ops) ==>
               ReadValues(a, namespace, ops) == ReadValues(b, namespace, ops))
  {
    var a, b := Replay(chain[..g]), Replay(chain[..h]);
    if Simulated(a, namespace, ops) == Simulated(b, namespace, ops) {
      forall op | op in ops && op.Get? ensures VersionOf(a, Key(namespace, op.key)) ==
                                               VersionOf(b, Key(namespace, op.key)) {
        var k :| 0 <= k < |ops| && ops[k] == op;
        SimulatedVersions(a, namespace, ops, k);
        SimulatedVersions(b, namespace, ops, k);
      }
    }
    if forall op :: op in ops && op.Get? ==>
                      VersionOf(a, Key(namespace, op.key)) == VersionOf(b, Key(namespace, op.key)) {
      forall op | op in ops && op.Get? ensures Find(a, Key(namespace, op.key)) == Find(b, Key(namespace, op.key)) {
        if Key(namespace, op.key) in a { VersionDeterminesEntry(chain, g, h, Key(namespace, op.key)); }
      }
      SimulationsAgree(a, b, namespace, ops);
    }
  }

  // ---------------------------------------------------------------------------------------------
  // Two schemes of versions

  /** In one block a transaction writes a key at most once, as its write set is a map. */
  predicate WritesOnce(block: Block) {
    forall i, j :: 0 <= i < j < |block| ==> !(block[i].tx == block[j].tx && block[i].key == block[j].key)
  }

  /** The version of a write is its block and its transaction. */
  predicate PlaceVersions(chain: seq<Block>) {
    forall k :: 0 <= k < |chain| ==>
                  WritesOnce(chain[k]) && forall i :: 0 <= i < |chain[k]| ==>
                                                        chain[k][i].version == Place(k, chain[k][i].tx)
  }

  lemma {:induction false} PlacesDiffer(chain: seq<Block>, i: nat, j: nat)
    requires PlaceVersions(chain) && i < j < |RowsOf(chain)|
    ensures RowsOf(chain)[i].version.Place? && RowsOf(chain)[i].version.block == RowsOf(chain)[i].block
    ensures RowsOf(chain)[j].version.Place? && RowsOf(chain)[j].version.block == RowsOf(chain)[j].block
    ensures !(RowsOf(chain)[i].key == RowsOf(chain)[j].key && RowsOf(chain)[i].version == RowsOf(chain)[j].version)
  {
    var n := |chain| - 1;
    var before := RowsOf(chain[..n]);
    RowsUpTo(chain, n);
    assert forall k :: |before| <= k < |RowsOf(chain)| ==> RowsOf(chain)[k] == BlockRows(chain[n], n)[k - |before|];
    if j < |before| {
      PlacesDiffer(chain[..n], i, j);
    } else if i < |before| {
      RowHasPlace(chain[..n], i);
    } else {
      assert WritesOnce(chain[n]);
    }
  }

  lemma {:induction false} RowHasPlace(chain: seq<Block>, i: nat)
    requires PlaceVersions(chain) && i < |RowsOf(chain)|
    ensures RowsOf(chain)[i].version.Place? && RowsOf(chain)[i].version.block == RowsOf(chain)[i].block
  {
    var n := |chain| - 1;
    var before := RowsOf(chain[..n]);
    if i < |before| {
      RowHasPlace(chain[..n], i);
    } else {
      assert RowsOf(chain)[i] == BlockRows(chain[n], n)[i - |before|];
    }
  }

  lemma PlacesIdentify(chain: seq<Block>)
    requires PlaceVersions(chain)
    ensures VersionsIdentify(chain)
  {
    forall i, j | 0 <= i < j < |RowsOf(chain)|
      ensures !(RowsOf(chain)[i].key == RowsOf(chain)[j].key && RowsOf(chain)[i].version == RowsOf(chain)[j].version)
    {
      PlacesDiffer(chain, i, j);
    }
  }

  function WritesOf(rows: seq<Row>, key: Key): nat {
    if rows == [] then 0 else WritesOf(rows[..|rows| - 1], key) + (if rows[|rows| - 1].key == key then 1 else 0)
  }

  /** The version of a write is the number of earlier writes of its key. */
  predicate SerialVersions(chain: seq<Block>) {
    var rows := RowsOf(chain);
    forall i :: 0 <= i < |rows| ==> rows[i].version == Serial(WritesOf(rows[..i], rows[i].key))
  }

  lemma {:induction false} WritesGrow(rows: seq<Row>, i: nat, j: nat)
    requires i < j <= |rows|
    ensures WritesOf(rows[..i], rows[i].key) < WritesOf(rows[..j], rows[i].key)
  {
    assert rows[..j][..j - 1] == rows[..j - 1];
    if i < j - 1 { WritesGrow(rows, i, j - 1); }
  }

  lemma SerialsIdentify(chain: seq<Block>)
    requires SerialVersions(chain)
    ensures VersionsIdentify(chain)
  {
    var rows := RowsOf(chain);
    forall i, j | 0 <= i < j < |rows| ensures !(rows[i].key == rows[j].key && rows[i].version == rows[j].version) {
      WritesGrow(rows, i, j);
    }
  }

  // ---------------------------------------------------------------------------------------------
  // Committed writes

  /** The committed form of a write set: one transaction of the next block. */
  predicate Carries(block: Block, namespace: string, writes: map<string, Option<string>>) {
    (forall i :: 0 <= i < |block| ==>
                   block[i].key.namespace == namespace && block[i].key.key in writes &&
                   block[i].value == writes[block[i].key.key]) &&
    (forall k :: k in writes ==> exists i :: 0 <= i < |block| && block[i].key == Key(namespace, k))
  }

  lemma {:induction false} BlockEntry(state: State, block: Block, key: Key, value: Option<string>)
    requires exists i :: 0 <= i < |block| && block[i].key == key
    requires forall i :: 0 <= i < |block| && block[i].key == key ==> block[i].value == value
    ensures var found := Find(ApplyBlock(state, block), key);
            if value.Some? then found.Some? && found.value.value == value.value else found.None?
  {
    var n := |block| - 1;
    if block[n].key != key {
      var i :| 0 <= i < |block| && block[i].key == key;
      assert block[..n][i].key == key;
      BlockEntry(state, block[..n], key, value);
    }
  }

  lemma {:induction false} BlockLeaves(state: State, block: Block, key: Key)
    requires forall i :: 0 <= i < |block| ==> block[i].key != key
    ensures Find(ApplyBlock(state, block), key) == Find(state, key)
  {
    if block != [] { BlockLeaves(state, block[..|block| - 1], key); }
  }

  /** Committing a write set puts and deletes exactly what it says,
      and leaves every other key and namespace as it was. */
  lemma CommittedWrites(chain: seq<Block>, namespace: string, writes: map<string, Option<string>>, block: Block,
                        key: Key)
    requires Carries(block, namespace, writes)
    ensures var found := Find(Replay(chain + [block]), key);
            if key.namespace != namespace || key.key !in writes then found == Find(Replay(chain), key)
            else if writes[key.key].Some? then found.Some? && found.value.value == writes[key.key].value
            else found.None?
  {
    var all := chain + [block];
    assert all[..|all| - 1] == chain;
    if key.namespace == namespace && key.key in writes {
      BlockEntry(Replay(chain), block, key, writes[key.key]);
    } else {
      BlockLeaves(Replay(chain), block, key);
    }
  }

  /** Once the write set of a set proposal is committed, a get proposal for the key is answered with the value. */
  lemma SetThenGet(chain: seq<Block>, namespace: string, key: string, value: string, block: Block)
    requires Carries(block, namespace, Answer(Replay(chain), namespace, ["set", key, value]).rwset.writeSet)
    ensures var after := Answer(Replay(chain + [block]), namespace, ["get", key]);
            after.Success? && after.payload == value
  {
    var writes := Answer(Replay(chain), namespace, ["set", key, value]).rwset.writeSet;
    assert key in writes && writes[key] == Some(value);
    CommittedWrites(chain, namespace, writes, block, Key(namespace, key));
  }

  /** Committing what a get proposal writes changes nothing. */
  lemma GetLeavesAll(chain: seq<Block>, namespace: string, key: string, block: Block, any: Key)
    requires Carries(block, namespace, Answer(Replay(chain), namespace, ["get", key]).rwset.writeSet)
    ensures Find(Replay(chain + [block]), any) == Find(Replay(chain), any)
  {
    CommittedWrites(chain, namespace, Answer(Replay(chain), namespace, ["get", key]).rwset.writeSet, block, any);
  }

  /** It leaves every other key, and every other namespace, as it was. */
  lemma SetLeavesOthers(chain: seq<Block>, namespace: string, key: string, value: string, block: Block, other: Key)
    requires Carries(block, namespace, Answer(Replay(chain), namespace, ["set", key, value]).rwset.writeSet)
    requires other != Key(namespace, key)
    ensures Find(Replay(chain + [block]), other) == Find(Replay(chain), other)
  {
    var writes := Answer(Replay(chain), namespace, ["set", key, value]).rwset.writeSet;
    assert writes == map[key := Some(value)];
    CommittedWrites(chain, namespace, writes, block, other);
  }
}
