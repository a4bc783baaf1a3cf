/** In which order transactions leave the store. */
module Order {
  import opened Prelude
  import opened PoolLists
  import opened Protocol
  import opened Ownership

  /** What the run has recorded: the batches get_uncommited handed out, the transactions
      force_commit took, and the transactions whose statements have finished. */
  datatype Log = Log(drained: seq<seq<nat>>, forced: seq<nat>, finished: set<nat>)

  const BLANK := Log([], [], {})

  function Record(s: Sys, o: Log, l: Label): Log
    requires Enabled(s, l)
  {
    match l
    case Finish(i, _) =>
      if s.stmts[i].txn.None? then o
      else
        var t := s.stmts[i].txn.value;
        var batch := Batch(s.pool, t);
        o.(finished := o.finished + {t}, drained := o.drained + (if batch == [] then [] else [Ids(batch)]))
    case ForceCommit(_, _, _) => o.(forced := o.forced + Ids(ReadyOnes(s.pool.store)))
    case _ => o
  }

  function Flatten(bs: seq<seq<nat>>): seq<nat> {
    if bs == [] then [] else Flatten(bs[..|bs| - 1]) + bs[|bs| - 1]
  }

  ghost predicate Listed(v: Lists<nat>, id: nat) {
    exists k :: 0 <= k < |v.store| && v.store[k].id == id
  }

  ghost predicate Stored(s: Sys, id: nat) {
    Listed(s.pool, id)
  }

  /** No number is lost or repeated: n transactions were created, and the stored ones are `ids`. */
  ghost predicate Conserved(n: nat, ids: seq<nat>, o: Log) {
    && multiset(Flatten(o.drained)) + multiset(o.forced) + multiset(ids) == multiset(UpTo(n))
    && (forall b :: 0 <= b < |o.drained| ==> Increasing(o.drained[b]))
  }

  /** Unless some were forced, the batches one after another and then the store are 1, 2, ..., n. */
  ghost predicate InSequence(n: nat, ids: seq<nat>, o: Log) {
    o.forced == [] ==> Flatten(o.drained) + ids == UpTo(n)
  }

  ghost predicate FlagsMatch(v: Lists<nat>, finished: set<nat>) {
    && (forall k :: 0 <= k < |v.store| ==> (v.store[k].ready <==> v.store[k].id in finished))
    && (forall id :: 1 <= id <= v.txnSeq && id !in finished ==> Listed(v, id))
    && (forall id :: id in finished ==> 1 <= id <= v.txnSeq)
  }

  ghost predicate FlagsOk(s: Sys, o: Log) {
    FlagsMatch(s.pool, o.finished)
  }

  ghost predicate OrderOk(s: Sys, o: Log) {
    var n, ids := s.pool.txnSeq, Ids(s.pool.store);
    Conserved(n, ids, o) && InSequence(n, ids, o) && FlagsOk(s, o)
  }

  lemma IdsOfTwo(a: seq<Txn<nat>>, b: seq<Txn<nat>>)
    ensures Ids(a + b) == Ids(a) + Ids(b)
  {
  }

  lemma {:induction false} SplitConserves(store: seq<Txn<nat>>)
    ensures multiset(Ids(store)) == multiset(Ids(Unready(store))) + multiset(Ids(ReadyOnes(store)))
  {
    if store != [] {
      var head, rest := [store[0]], store[1..];
      SplitConserves(rest);
      assert store == head + rest;
      IdsOfTwo(head, rest);
      IdsOfTwo(head, Unready(rest));
      IdsOfTwo(head, ReadyOnes(rest));
      if store[0].ready {
        assert Unready(store) == Unready(rest);
      } else {
        assert ReadyOnes(store) == ReadyOnes(rest);
      }
    }
  }

  /** The only steps that touch the store are Begin, Finish and ForceCommit. */
  lemma StoreUntouched(s: Sys, l: Label)
    requires Enabled(s, l) && Inv(s)
    requires !(l.Begin? && s.stmts[l.stmt].conf.transaction) && !(l.Finish? && s.stmts[l.stmt].txn.Some?) &&
        !l.ForceCommit?
    ensures Apply(s, l).pool.store == s.pool.store && Apply(s, l).pool.txnSeq == s.pool.txnSeq
  {
  }

  lemma FinishKeepsIds(v: Lists<nat>, id: nat)
    requires Ordered(v.store)
    ensures Ids(Batch(v, id)) + Ids(PoolLists.Finish(v, id).store) == Ids(v.store)
    ensures Ordered(Batch(v, id))
  {
    var marked := MarkReady(v.store, id);
    var n := if marked == [] || marked[0].id != id then 0 else ReadyPrefix(marked);
    assert Ids(marked) == Ids(v.store);
    assert marked == marked[..n] + marked[n..];
    IdsOfTwo(marked[..n], marked[n..]);
    assert marked[n..] == PoolLists.Finish(v, id).store;
  }

  lemma UpToNext(n: nat)
    ensures UpTo(n + 1) == UpTo(n) + [n + 1]
  {
  }

  lemma CreateConserves(n: nat, ids: seq<nat>, o: Log)
    requires Conserved(n, ids, o) && InSequence(n, ids, o)
    ensures Conserved(n + 1, ids + [n + 1], o) && InSequence(n + 1, ids + [n + 1], o)
  {
    UpToNext(n);
    assert Flatten(o.drained) + (ids + [n + 1]) == (Flatten(o.drained) + ids) + [n + 1];
  }

  lemma FlattenNext(bs: seq<seq<nat>>, b: seq<nat>)
    ensures Flatten(bs + [b]) == Flatten(bs) + b
  {
    assert (bs + [b])[..|bs|] == bs;
  }

  lemma Regroup(a: seq<nat>, b: seq<nat>, c: seq<nat>)
    ensures (a + b) + c == a + (b + c)
    ensures multiset(a + b) + multiset(c) == multiset(a) + multiset(b + c)
  {
    assert multiset(b + c) == multiset(b) + multiset(c);
  }

  lemma DrainConserves(n: nat, ids: seq<nat>, o: Log, batch: seq<nat>, rest: seq<nat>)
    requires Conserved(n, ids, o) && InSequence(n, ids, o) && ids == batch + rest && Increasing(batch)
    ensures var o' := o.(drained := o.drained + [batch]); Conserved(n, rest, o') && InSequence(n, rest, o')
  {
    var flat := Flatten(o.drained);
    FlattenNext(o.drained, batch);
    Regroup(flat, batch, rest);
    assert multiset(flat + batch) + multiset(rest) + multiset(o.forced) == multiset(flat) + multiset(ids) +
      multiset(o.forced);
  }

  lemma ForceConserves(n: nat, store: seq<Txn<nat>>, o: Log)
    requires Conserved(n, Ids(store), o) && InSequence(n, Ids(store), o)
    ensures var o' := o.(forced := o.forced + Ids(ReadyOnes(store)));
            Conserved(n, Ids(Unready(store)), o') && InSequence(n, Ids(Unready(store)), o')
  {
    SplitConserves(store);
    if ReadyOnes(store) == [] { NothingForced(store); }
  }

  lemma ConservedFinish(s: Sys, o: Log, l: Label)
    requires Ordered(s.pool.store) && OrderOk(s, o) && Enabled(s, l) && l.Finish? && s.stmts[l.stmt].txn.Some?
    ensures var s', o' := Apply(s, l), Record(s, o, l);
            var n, ids := s'.pool.txnSeq, Ids(s'.pool.store);
            Conserved(n, ids, o') && InSequence(n, ids, o')
  {
    var t := s.stmts[l.stmt].txn.value;
    var batch, rest := Batch(s.pool, t), PoolLists.Finish(s.pool, t).store;
    FinishKeepsIds(s.pool, t);
    assert Apply(s, l).pool == PoolLists.Finish(s.pool, t);
    FinishConserves(s.pool.txnSeq, Ids(s.pool.store), o, Ids(batch), Ids(rest), Record(s, o, l));
  }

  lemma ConservedCreate(s: Sys, o: Log, l: Label)
    requires OrderOk(s, o) && Enabled(s, l) && l.Begin? && s.stmts[l.stmt].conf.transaction
    ensures var s' := Apply(s, l);
            var n, ids := s'.pool.txnSeq, Ids(s'.pool.store);
            Conserved(n, ids, o) && InSequence(n, ids, o)
  {
    CreateConserves(s.pool.txnSeq, Ids(s.pool.store), o);
    assert Ids(AddTxn(s.pool, s.stmts[l.stmt].conn).store) == Ids(s.pool.store) + [s.pool.txnSeq + 1];
  }

  lemma ConservedForce(s: Sys, o: Log, l: Label)
    requires Inv(s) && OrderOk(s, o) && Enabled(s, l) && l.ForceCommit?
    ensures var s', o' := Apply(s, l), Record(s, o, l);
            var n, ids := s'.pool.txnSeq, Ids(s'.pool.store);
            Conserved(n, ids, o') && InSequence(n, ids, o')
  {
    ForceKeeps(s, l);
    ForceKeepsCounter(s, l);
    ForceConserves(s.pool.txnSeq, s.pool.store, o);
  }

  lemma ConservedKeeps(s: Sys, o: Log, l: Label)
    requires Inv(s) && OrderOk(s, o) && Enabled(s, l)
    ensures var s', o' := Apply(s, l), Record(s, o, l);
            var n, ids := s'.pool.txnSeq, Ids(s'.pool.store);
            Conserved(n, ids, o') && InSequence(n, ids, o')
  {
    if l.Begin? && s.stmts[l.stmt].conf.transaction {
      ConservedCreate(s, o, l);
    } else if l.Finish? && s.stmts[l.stmt].txn.Some? {
      ConservedFinish(s, o, l);
    } else if l.ForceCommit? {
      ConservedForce(s, o, l);
    } else {
      StoreUntouched(s, l);
      assert Record(s, o, l) == o;
    }
  }

  lemma FinishConserves(n: nat, ids: seq<nat>, o: Log, batch: seq<nat>, rest: seq<nat>, o': Log)
    requires Conserved(n, ids, o) && InSequence(n, ids, o) && ids == batch + rest && Increasing(batch)
    requires o'.forced == o.forced && o'.drained == o.drained + (if batch == [] then [] else [batch])
    ensures Conserved(n, rest, o') && InSequence(n, rest, o')
  {
    if batch == [] {
      assert rest == ids && o'.drained == o.drained;
    } else {
      DrainConserves(n, ids, o, batch, rest);
    }
  }

  lemma ForceKeepsCounter(s: Sys, l: Label)
    requires Inv(s) && l.ForceCommit? && Enabled(s, l)
    ensures Apply(s, l).pool.txnSeq == s.pool.txnSeq
  {
    DeferredApart(s);
    GiveBackAllSeparates(s.pool.(store := Unready(s.pool.store)), Conns(ReadyOnes(s.pool.store)), l.alive,
      l.poolSockets);
  }

  lemma {:induction false} NothingForced(store: seq<Txn<nat>>)
    requires ReadyOnes(store) == []
    ensures Unready(store) == store
  {
    if store != [] {
      NothingForced(store[1..]);
      assert store == [store[0]] + store[1..];
    }
  }

  lemma FlagsBegin(s: Sys, o: Log, l: Label)
    requires FlagsOk(s, o) && Enabled(s, l) && l.Begin?
    ensures FlagsOk(Apply(s, l), o)
  {
    FlagsCreate(s.pool, o.finished, s.stmts[l.stmt].conn);
  }

  lemma FlagsForce(s: Sys, o: Log, l: Label)
    requires Inv(s) && FlagsOk(s, o) && Enabled(s, l) && l.ForceCommit?
    ensures FlagsOk(Apply(s, l), o)
  {
    ForceKeeps(s, l);
    ForceKeepsCounter(s, l);
    FlagsKeepForce(s, o);
    FlagsSame(s.pool.(store := Unready(s.pool.store)), Apply(s, l).pool, o.finished);
  }

  /** FlagsMatch reads no more of the lists than the store and the counter. */
  lemma FlagsSame(v: Lists<nat>, v': Lists<nat>, finished: set<nat>)
    requires FlagsMatch(v, finished) && v'.store == v.store && v'.txnSeq == v.txnSeq
    ensures FlagsMatch(v', finished)
  {
    forall id | 1 <= id <= v'.txnSeq && id !in finished ensures Listed(v', id) { assert Listed(v, id); }
  }

  lemma FlagsKeep(s: Sys, o: Log, l: Label)
    requires Inv(s) && FlagsOk(s, o) && Enabled(s, l)
    ensures FlagsOk(Apply(s, l), Record(s, o, l))
  {
    match l
    case Begin(_) => FlagsBegin(s, o, l);
    case ForceCommit(_, _, _) => FlagsForce(s, o, l);
    case Finish(i, _) =>
      if s.stmts[i].txn.Some? { FlagsKeepFinish(s, o, l); } else { FlagsSame(s.pool, Apply(s, l).pool, o.finished); }
    case _ =>
      StoreUntouched(s, l);
      FlagsSame(s.pool, Apply(s, l).pool, o.finished);
  }

  lemma FlagsCreate(v: Lists<nat>, finished: set<nat>, c: nat)
    requires FlagsMatch(v, finished)
    ensures FlagsMatch(AddTxn(v, c), finished)
  {
    var v' := AddTxn(v, c);
    assert v'.store[|v.store|].id == v'.txnSeq;
    forall id | 1 <= id <= v'.txnSeq && id !in finished ensures Listed(v', id) {
      if id <= v.txnSeq {
        var k :| 0 <= k < |v.store| && v.store[k].id == id;
        assert v'.store[k].id == id;
      }
    }
  }

  lemma FlagsKeepForce(s: Sys, o: Log)
    requires FlagsOk(s, o)
    ensures FlagsOk(s.(pool := s.pool.(store := Unready(s.pool.store))), o)
  {
    var s' := s.(pool := s.pool.(store := Unready(s.pool.store)));
    var store, store' := s.pool.store, s'.pool.store;
    SplitByReady(store);
    forall k | 0 <= k < |store'| ensures store'[k].ready <==> store'[k].id in o.finished {
      var t := store'[k];
      var m :| 0 <= m < |store| && store[m] == t;
    }
    forall id | 1 <= id <= s.pool.txnSeq && id !in o.finished ensures Stored(s', id) {
      var k :| 0 <= k < |store| && store[k].id == id;
      var t := store[k];
      assert t in store';
    }
  }

  lemma FlagsKeepFinish(s: Sys, o: Log, l: Label)
    requires Inv(s) && FlagsOk(s, o) && Enabled(s, l) && l.Finish? && s.stmts[l.stmt].txn.Some?
    ensures FlagsOk(Apply(s, l), Record(s, o, l))
  {
    var s' := Apply(s, l);
    var t := s.stmts[l.stmt].txn.value;
    var p := OwnPosition(s, l.stmt);
    assert TxnOk(s, s.pool.store[p]);
    FlagsMark(s.pool, o.finished, t, p);
    assert s'.pool == PoolLists.Finish(s.pool, t);
    assert Record(s, o, l).finished == o.finished + {t};
  }

  /** Finishing transaction t keeps flags and finished set in step. */
  lemma FlagsMark(v: Lists<nat>, finished: set<nat>, t: nat, p: nat)
    requires Ordered(v.store) && p < |v.store| && v.store[p].id == t && 1 <= t <= v.txnSeq
    requires FlagsMatch(v, finished)
    ensures FlagsMatch(PoolLists.Finish(v, t), finished + {t})
  {
    var marked := v.(store := MarkReady(v.store, t));
    var n := if marked.store[0].id == t then ReadyPrefix(marked.store) else 0;
    FlagsMarked(v, finished, t);
    FlagsDrop(marked, finished + {t}, n);
  }

  lemma FlagsMarked(v: Lists<nat>, finished: set<nat>, t: nat)
    requires FlagsMatch(v, finished) && 1 <= t <= v.txnSeq
    ensures FlagsMatch(v.(store := MarkReady(v.store, t)), finished + {t})
  {
    var v' := v.(store := MarkReady(v.store, t));
    forall id | 1 <= id <= v.txnSeq && id !in finished + {t} ensures Listed(v', id) {
      var k :| 0 <= k < |v.store| && v.store[k].id == id;
      assert v'.store[k].id == id;
    }
  }

  /** Removing a ready prefix keeps them in step too. */
  lemma FlagsDrop(v: Lists<nat>, finished: set<nat>, n: nat)
    requires FlagsMatch(v, finished) && n <= |v.store| && forall k :: 0 <= k < n ==> v.store[k].ready
    ensures FlagsMatch(v.(store := v.store[n..]), finished)
  {
    var v' := v.(store := v.store[n..]);
    forall id | 1 <= id <= v.txnSeq && id !in finished ensures Listed(v', id) {
      var k :| 0 <= k < |v.store| && v.store[k].id == id;
      assert v'.store[k - n].id == id;
    }
  }

  lemma OrderKeeps(s: Sys, o: Log, l: Label)
    requires Inv(s) && OrderOk(s, o) && Enabled(s, l)
    ensures OrderOk(Apply(s, l), Record(s, o, l))
  {
    ConservedKeeps(s, o, l);
    FlagsKeep(s, o, l);
  }

  // ----- the reference machine: transactions retire strictly in creation order

  /** The transaction and every one created before it have finished. */
  ghost predicate AllFinishedUpTo(o: Log, id: nat) {
    forall j :: 1 <= j <= id ==> j in o.finished
  }

  /** Handed out for commit (drained or forced) is the same as created and no longer stored. */
  ghost predicate HandedOut(s: Sys, id: nat) {
    1 <= id <= s.pool.txnSeq && !Stored(s, id)
  }

  /** No stranded commit: whatever is stored waits for an unfinished transaction created no later. */
  lemma StoredWaitsForUnfinished(s: Sys, o: Log, id: nat) returns (j: nat)
    requires Inv(s) && OrderOk(s, o) && Stored(s, id)
    ensures 1 <= j <= id && j !in o.finished && j == s.pool.store[0].id
  {
    var k :| 0 <= k < |s.pool.store| && s.pool.store[k].id == id;
    j := s.pool.store[0].id;
    assert TxnOk(s, s.pool.store[0]);
    assert k == 0 || j < id;
  }

  /** Position arithmetic of a list that is 1, 2, ..., n. */
  lemma SuffixHasAllLater(n: nat, front: seq<nat>, ids: seq<nat>, j: nat, id: nat)
    requires front + ids == UpTo(n) && j in ids && j <= id <= n
    ensures id in ids
  {
    var k :| 0 <= k < |ids| && ids[k] == j;
    assert (front + ids)[|front| + k] == j;
    assert (front + ids)[id - 1] == id;
    assert ids[id - 1 - |front|] == id;
  }

  /** Without force_commit nothing created after an unfinished transaction has been handed out. */
  lemma UnfinishedHoldsBackLater(s: Sys, o: Log, j: nat, id: nat)
    requires OrderOk(s, o) && o.forced == []
    requires 1 <= j <= id <= s.pool.txnSeq && j !in o.finished
    ensures Stored(s, id)
  {
    var store := s.pool.store;
    assert Listed(s.pool, j);
    var k :| 0 <= k < |store| && store[k].id == j;
    assert Ids(store)[k] == j;
    SuffixHasAllLater(s.pool.txnSeq, Flatten(o.drained), Ids(store), j, id);
    var m :| 0 <= m < |Ids(store)| && Ids(store)[m] == id;
    assert store[m].id == id;
  }

  /** The store's list surgery refines in-order retirement: a transaction has been handed out if
      it and all earlier ones have finished, and only if, unless some were forced. */
  lemma HandOutIsInOrder(s: Sys, o: Log, id: nat)
    requires Inv(s) && OrderOk(s, o) && 1 <= id <= s.pool.txnSeq
    ensures AllFinishedUpTo(o, id) ==> HandedOut(s, id)
    ensures o.forced == [] && HandedOut(s, id) ==> AllFinishedUpTo(o, id)
  {
    if Stored(s, id) {
      var j := StoredWaitsForUnfinished(s, o, id);
    }
    if o.forced == [] && !AllFinishedUpTo(o, id) {
      var j :| 1 <= j <= id && j !in o.finished;
      UnfinishedHoldsBackLater(s, o, j, id);
    }
  }
}
