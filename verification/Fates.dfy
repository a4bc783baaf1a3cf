/** What a run has done with every transaction. */
module Fates {
  import opened Prelude
  import opened PoolLists
  import opened Protocol
  import opened Ownership
  import opened Order

  datatype Fate = Kept | Batched(stmt: nat) | Attempted

  datatype Ledger = Ledger(at: map<nat, Fate>, attempted: seq<nat>)

  function Assign(at: map<nat, Fate>, ids: seq<nat>, fate: Fate): map<nat, Fate> {
    map id | id in at :: if id in ids then fate else at[id]
  }

  function RecordFate(s: Sys, f: Ledger, l: Label): Ledger
    requires Enabled(s, l)
  {
    match l
    case Begin(i) =>
      if s.stmts[i].conf.transaction then f.(at := f.at[s.pool.txnSeq + 1 := Kept]) else f
    case Finish(i, _) =>
      if s.stmts[i].txn.None? then f
      else
        var ids := Ids(Batch(s.pool, s.stmts[i].txn.value));
        f.(at := Assign(f.at, ids, Batched(i)))
    case SendCommit(i, _) =>
      Ledger(f.at[Current(s, i).id := Attempted], f.attempted + [Current(s, i).id])
    case ForceCommit(_, _, _) =>
      var ids := Ids(ReadyOnes(s.pool.store));
      Ledger(Assign(f.at, ids, Attempted), f.attempted + ids)
    case _ => f
  }

  /** The first transaction of a batch whose COMMIT has not been attempted. */
  function Unsent(p: Phase): nat
    requires p.Committing?
  {
    if p.stage.ToSend? then p.next else p.next + 1
  }

  /** Statement i has drained the transaction and not yet tried to commit it. */
  ghost predicate Pending(s: Sys, i: nat, id: nat) {
    At(s, i).Committing? && exists k :: Unsent(At(s, i)) <= k < |At(s, i).batch| && At(s, i).batch[k].id == id
  }

  ghost predicate FateTrue(s: Sys, f: Ledger, id: nat)
    requires id in f.at
  {
    match f.at[id]
    case Kept => Stored(s, id)
    case Batched(i) => Pending(s, i, id)
    case Attempted => id in f.attempted
  }

  ghost predicate BatchFate(s: Sys, f: Ledger, i: nat) {
    At(s, i).Committing? ==>
      forall k :: Unsent(At(s, i)) <= k < |At(s, i).batch| ==>
        At(s, i).batch[k].id in f.at && f.at[At(s, i).batch[k].id] == Batched(i)
  }

  ghost predicate FateOk(s: Sys, f: Ledger) {
    && (forall id :: id in f.at <==> 1 <= id <= s.pool.txnSeq)
    && (forall k :: 0 <= k < |s.pool.store| ==> s.pool.store[k].id in f.at && f.at[s.pool.store[k].id] == Kept)
    && (forall i :: 0 <= i < |s.stmts| ==> BatchFate(s, f, i))
    && (forall id :: id in f.at ==> FateTrue(s, f, id))
    && (forall id :: id in f.attempted ==> id in f.at && f.at[id] == Attempted)
    && NoDup(f.attempted)
  }

  lemma FateBegin(s: Sys, f: Ledger, l: Label)
    requires Inv(s) && FateOk(s, f) && l.Begin? && Enabled(s, l)
    ensures FateOk(Apply(s, l), RecordFate(s, f, l))
  {
    var s', i := Apply(s, l), l.stmt;
    if s.stmts[i].conf.transaction {
      assert forall k :: 0 <= k < |s.pool.store| ==> TxnOk(s, s.pool.store[k]);
      FateCreate(s, s', f, i, s.stmts[i].conn);
    } else {
      FateStill(s, s', f, i);
    }
  }

  lemma FateCreate(s: Sys, s': Sys, f: Ledger, i: nat, c: nat)
    requires FateOk(s, f) && i < |s.stmts| && !At(s, i).Committing? && !At(s', i).Committing?
    requires s'.pool == AddTxn(s.pool, c)
    requires |s'.stmts| == |s.stmts| && forall j :: 0 <= j < |s.stmts| && j != i ==> s'.stmts[j] == s.stmts[j]
    ensures FateOk(s', f.(at := f.at[s.pool.txnSeq + 1 := Kept]))
  {
    var n, f' := s.pool.txnSeq + 1, f.(at := f.at[s.pool.txnSeq + 1 := Kept]);
    forall j | 0 <= j < |s'.stmts| ensures BatchFate(s', f', j) { assert BatchFate(s, f, j); }
    forall k | 0 <= k < |s'.pool.store| ensures s'.pool.store[k].id in f'.at && f'.at[s'.pool.store[k].id] == Kept {
      if k < |s.pool.store| { assert s'.pool.store[k] == s.pool.store[k]; }
    }
    forall id | id in f'.at ensures FateTrue(s', f', id) {
      if id == n {
        assert s'.pool.store[|s.pool.store|].id == n;
      } else {
        assert FateTrue(s, f, id);
        if f.at[id].Kept? {
          var k :| 0 <= k < |s.pool.store| && s.pool.store[k].id == id;
          assert s'.pool.store[k].id == id;
        } else if f.at[id].Batched? {
          assert At(s', f.at[id].stmt) == At(s, f.at[id].stmt);
        }
      }
    }
  }

  /** The states and fates around a drain. */
  ghost predicate Draining(s: Sys, s': Sys, f: Ledger, f': Ledger, i: nat, n: nat) {
    && Ordered(s.pool.store) && FateOk(s, f) && Drained(s, s', i, n) && s'.stmts[i].phase.stage.ToSend?
    && f' == f.(at := Assign(f.at, Ids(s'.stmts[i].phase.batch), Batched(i)))
  }

  lemma BatchIds(s: Sys, s': Sys, i: nat, n: nat)
    requires Drained(s, s', i, n)
    ensures var ids := Ids(s'.stmts[i].phase.batch);
            |ids| == n && forall k :: 0 <= k < n ==> ids[k] == s.pool.store[k].id && ids[k] in ids
  {
    var batch, store := s'.stmts[i].phase.batch, s.pool.store;
    assert batch == [store[0].(ready := true)] + store[1..n];
    forall k | 0 <= k < n ensures batch[k].id == store[k].id {
      if k > 0 { assert batch[k] == store[1..n][k - 1]; }
    }
  }

  /** A transaction that is not among the first n of the store is not in the batch drained from it. */
  lemma NotBatched(s: Sys, s': Sys, f: Ledger, f': Ledger, i: nat, n: nat, id: nat)
    requires Draining(s, s', f, f', i, n)
    requires (id in f.at && f.at[id] != Kept) || (exists k :: n <= k < |s.pool.store| && s.pool.store[k].id == id)
    ensures id !in Ids(s'.stmts[i].phase.batch)
  {
    BatchIds(s, s', i, n);
  }

  lemma DrainBatchFate(s: Sys, s': Sys, f: Ledger, f': Ledger, i: nat, n: nat, j: nat)
    requires Draining(s, s', f, f', i, n) && j < |s.stmts|
    ensures BatchFate(s', f', j)
  {
    assert BatchFate(s, f, j);
    BatchIds(s, s', i, n);
    if j == i {
      var batch := At(s', i).batch;
      forall k | 0 <= k < |batch| ensures batch[k].id in f'.at && f'.at[batch[k].id] == Batched(i) {
        assert Ids(batch)[k] == s.pool.store[k].id;
      }
    } else if At(s, j).Committing? {
      var batch := At(s, j).batch;
      forall k | Unsent(At(s, j)) <= k < |batch| ensures batch[k].id in f'.at && f'.at[batch[k].id] == Batched(j) {
        NotBatched(s, s', f, f', i, n, batch[k].id);
      }
    }
  }

  lemma StaysStored(store: seq<Txn<nat>>, n: nat, id: nat)
    requires n <= |store| && (exists k :: 0 <= k < |store| && store[k].id == id)
    ensures (exists k :: 0 <= k < |store[n..]| && store[n..][k].id == id) ||
        (exists k :: 0 <= k < n && store[k].id == id)
  {
    var k :| 0 <= k < |store| && store[k].id == id;
    if k >= n { assert store[n..][k - n].id == id; }
  }

  lemma DrainFateTrue(s: Sys, s': Sys, f: Ledger, f': Ledger, i: nat, n: nat, id: nat)
    requires Draining(s, s', f, f', i, n) && id in f.at
    ensures FateTrue(s', f', id)
  {
    assert FateTrue(s, f, id);
    if id in Ids(s'.stmts[i].phase.batch) {
      NowPending(s', i, id);
    } else if f.at[id].Kept? {
      BatchIds(s, s', i, n);
      StaysStored(s.pool.store, n, id);
    } else if f.at[id].Batched? {
      assert At(s', f.at[id].stmt) == At(s, f.at[id].stmt);
    }
  }

  lemma NowPending(s: Sys, i: nat, id: nat)
    requires At(s, i).Committing? && Unsent(At(s, i)) == 0 && id in Ids(At(s, i).batch)
    ensures Pending(s, i, id)
  {
    var k :| 0 <= k < |At(s, i).batch| && Ids(At(s, i).batch)[k] == id;
    assert At(s, i).batch[k].id == id;
  }

  lemma FateDrain(s: Sys, s': Sys, f: Ledger, f': Ledger, i: nat, n: nat)
    requires Draining(s, s', f, f', i, n)
    ensures FateOk(s', f')
  {
    forall j | 0 <= j < |s'.stmts| ensures BatchFate(s', f', j) { DrainBatchFate(s, s', f, f', i, n, j); }
    forall id | id in f'.at ensures FateTrue(s', f', id) { DrainFateTrue(s, s', f, f', i, n, id); }
    forall k | 0 <= k < |s'.pool.store|
      ensures s'.pool.store[k].id in f'.at && f'.at[s'.pool.store[k].id] == Kept
    {
      assert s'.pool.store[k] == s.pool.store[n + k];
      NotBatched(s, s', f, f', i, n, s.pool.store[n + k].id);
    }
    forall id | id in f'.attempted ensures id in f'.at && f'.at[id] == Attempted {
      NotBatched(s, s', f, f', i, n, id);
    }
  }

  lemma FateFinish(s: Sys, f: Ledger, l: Label)
    requires Inv(s) && FateOk(s, f) && l.Finish? && Enabled(s, l)
    ensures FateOk(Apply(s, l), RecordFate(s, f, l))
  {
    var s', f', i := Apply(s, l), RecordFate(s, f, l), l.stmt;
    if s.stmts[i].txn.None? {
      FateStill(s, s', f, i);
    } else {
      var p := OwnPosition(s, i);
      if p == 0 {
        var n := DrainShape(s, l);
        FateDrain(s, s', f, f', i, n);
      } else {
        DeferShape(s, l, p);
        DeferRecord(s, f, l, p);
        FateDefer(s, s', f, i, p);
      }
    }
  }

  lemma FateDefer(s: Sys, s': Sys, f: Ledger, i: nat, p: nat)
    requires FateOk(s, f) && Deferred(s, s', i, p)
    ensures FateOk(s', f)
  {
    FateStill(s, s', f, i);
  }

  /** A transaction that is not first is not drained. */
  lemma DeferRecord(s: Sys, f: Ledger, l: Label, p: nat)
    requires Ordered(s.pool.store) && l.Finish? && Enabled(s, l) && s.stmts[l.stmt].txn.Some?
    requires 0 < p < |s.pool.store| && s.pool.store[p].id == s.stmts[l.stmt].txn.value
    ensures RecordFate(s, f, l) == f
  {
    var n := FinishSplits(s.pool, s.stmts[l.stmt].txn.value, p);
    assert Assign(f.at, [], Batched(l.stmt)) == f.at;
  }

  /** A step of statement i that is outside its batch and keeps the store's numbers. */
  lemma FateStill(s: Sys, s': Sys, f: Ledger, i: nat)
    requires FateOk(s, f) && s'.pool.txnSeq == s.pool.txnSeq && |s'.pool.store| == |s.pool.store|
    requires forall k :: 0 <= k < |s.pool.store| ==> s'.pool.store[k].id == s.pool.store[k].id
    requires i < |s.stmts| <= |s'.stmts| && forall j :: 0 <= j < |s.stmts| && j != i ==> s'.stmts[j] == s.stmts[j]
    requires forall j :: |s.stmts| <= j < |s'.stmts| ==> !At(s', j).Committing?
    requires At(s, i).Committing? == At(s', i).Committing?
    requires At(s, i).Committing? ==> At(s', i).batch == At(s, i).batch && Unsent(At(s', i)) == Unsent(At(s, i))
    ensures FateOk(s', f)
  {
    forall j | 0 <= j < |s'.stmts| ensures BatchFate(s', f, j) {
      if j < |s.stmts| { assert BatchFate(s, f, j); }
    }
    forall id | id in f.at ensures FateTrue(s', f, id) {
      assert FateTrue(s, f, id);
      match f.at[id] {
        case Kept =>
          var k :| 0 <= k < |s.pool.store| && s.pool.store[k].id == id;
          assert s'.pool.store[k].id == id;
        case Batched(j) =>
          var k :| Unsent(At(s, j)) <= k < |At(s, j).batch| && At(s, j).batch[k].id == id;
          assert At(s', j).batch[k].id == id;
        case Attempted =>
      }
    }
  }

  lemma FateSend(s: Sys, f: Ledger, l: Label)
    requires Inv(s) && FateOk(s, f) && l.SendCommit? && Enabled(s, l)
    ensures FateOk(Apply(s, l), RecordFate(s, f, l))
  {
    var s', i, p := Apply(s, l), l.stmt, At(s, l.stmt);
    assert StmtOk(s, i) && BatchFate(s, f, i);
    var id := p.batch[p.next].id;
    assert f.at[id] == Batched(i);
    assert RecordFate(s, f, l) == Ledger(f.at[id := Attempted], f.attempted + [id]);
    FateSent(s, s', f, i);
  }

  lemma FateSent(s: Sys, s': Sys, f: Ledger, i: nat)
    requires FateOk(s, f) && At(s, i).Committing? && At(s, i).stage.ToSend?
    requires At(s, i).next < |At(s, i).batch| && Ordered(At(s, i).batch)
    requires s'.pool == s.pool && |s'.stmts| == |s.stmts| && forall j :: 0 <= j < |s.stmts| && j != i ==>
        s'.stmts[j] == s.stmts[j]
    requires At(s', i).Committing? && At(s', i).batch == At(s, i).batch && At(s', i).next == At(s, i).next &&
        !At(s', i).stage.ToSend?
    ensures var id := At(s, i).batch[At(s, i).next].id;
            id in f.at && FateOk(s', Ledger(f.at[id := Attempted], f.attempted + [id]))
  {
    var p := At(s, i);
    var id := p.batch[p.next].id;
    var f' := Ledger(f.at[id := Attempted], f.attempted + [id]);
    assert BatchFate(s, f, i);
    forall j | 0 <= j < |s'.stmts| ensures BatchFate(s', f', j) { assert BatchFate(s, f, j); }
    assert f'.attempted[|f.attempted|] == id;
    forall x | x in f'.at ensures FateTrue(s', f', x) {
      assert FateTrue(s, f, x);
      if x != id && f.at[x].Batched? { StillPending(s, s', i, f.at[x].stmt, x); }
    }
  }

  lemma StillPending(s: Sys, s': Sys, i: nat, j: nat, x: nat)
    requires At(s, i).Committing? && At(s, i).stage.ToSend? && At(s, i).next < |At(s, i).batch|
    requires |s'.stmts| == |s.stmts| && forall j :: 0 <= j < |s.stmts| && j != i ==> s'.stmts[j] == s.stmts[j]
    requires At(s', i).Committing? && At(s', i).batch == At(s, i).batch && At(s', i).next == At(s, i).next &&
        !At(s', i).stage.ToSend?
    requires Pending(s, j, x) && x != At(s, i).batch[At(s, i).next].id
    ensures Pending(s', j, x)
  {
    var k :| Unsent(At(s, j)) <= k < |At(s, j).batch| && At(s, j).batch[k].id == x;
    assert At(s', j).batch[k].id == x;
  }

  lemma ForceRecorded(s: Sys, f: Ledger, l: Label)
    requires Inv(s) && FateOk(s, f) && l.ForceCommit? && Enabled(s, l)
    ensures Forcing(s, Apply(s, l), f, RecordFate(s, f, l))
  {
    ForceKeeps(s, l);
    ForceKeepsCounter(s, l);
    SplitKeepsOrder(s.pool.store, 0) by {
      assert forall k :: 0 <= k < |s.pool.store| ==> TxnOk(s, s.pool.store[k]);
    }
  }

  lemma FateForce(s: Sys, f: Ledger, l: Label)
    requires Inv(s) && FateOk(s, f) && l.ForceCommit? && Enabled(s, l)
    ensures FateOk(Apply(s, l), RecordFate(s, f, l))
  {
    ForceRecorded(s, f, l);
    FateForced(s, Apply(s, l), f, RecordFate(s, f, l));
  }

  lemma Member(store: seq<Txn<nat>>, t: Txn<nat>)
    ensures t in ReadyOnes(store) <==> t in store && t.ready
    ensures t in Unready(store) <==> t in store && !t.ready
  {
    SplitByReady(store);
  }

  lemma SameNumber(store: seq<Txn<nat>>, k: nat, u: Txn<nat>)
    requires Ordered(store) && k < |store| && u in store && u.id == store[k].id
    ensures u == store[k]
  {
    var m :| 0 <= m < |store| && store[m] == u;
    assert m == k;
  }

  /** Membership in the two halves of an ordered store, by number. */
  lemma ForcedIds(store: seq<Txn<nat>>, k: nat)
    requires Ordered(store) && k < |store|
    ensures store[k].ready <==> store[k].id in Ids(ReadyOnes(store))
    ensures !store[k].ready ==> store[k] in Unready(store)
  {
    var t, forced := store[k], ReadyOnes(store);
    Member(store, t);
    if t.ready {
      var q :| 0 <= q < |forced| && forced[q] == t;
      assert Ids(forced)[q] == t.id;
    } else if t.id in Ids(forced) {
      var q :| 0 <= q < |forced| && Ids(forced)[q] == t.id;
      Member(store, forced[q]);
      SameNumber(store, k, forced[q]);
      assert false;
    }
  }

  /** The states and fates around force_commit. */
  ghost predicate Forcing(s: Sys, s': Sys, f: Ledger, f': Ledger) {
    var ids := Ids(ReadyOnes(s.pool.store));
    && FateOk(s, f) && Ordered(s.pool.store) && Ordered(ReadyOnes(s.pool.store))
    && s'.pool.store == Unready(s.pool.store) && s'.pool.txnSeq == s.pool.txnSeq && s'.stmts == s.stmts
    && f' == Ledger(Assign(f.at, ids, Attempted), f.attempted + ids)
  }

  lemma ForcedWereKept(s: Sys, s': Sys, f: Ledger, f': Ledger, m: nat)
    requires Forcing(s, s', f, f') && m < |ReadyOnes(s.pool.store)|
    ensures var id := ReadyOnes(s.pool.store)[m].id; id in f.at && f.at[id] == Kept
  {
    var store, t := s.pool.store, ReadyOnes(s.pool.store)[m];
    SplitByReady(store);
    var k :| 0 <= k < |store| && store[k] == t;
  }

  lemma UnforcedStayKept(s: Sys, s': Sys, f: Ledger, f': Ledger, k: nat)
    requires Forcing(s, s', f, f') && k < |s'.pool.store|
    ensures s'.pool.store[k].id in f'.at && f'.at[s'.pool.store[k].id] == Kept
  {
    var store, t := s.pool.store, s'.pool.store[k];
    SplitByReady(store);
    var m :| 0 <= m < |store| && store[m] == t;
    ForcedIds(store, m);
  }

  lemma ForcedFateTrue(s: Sys, s': Sys, f: Ledger, f': Ledger, id: nat)
    requires Forcing(s, s', f, f') && id in f.at
    ensures FateTrue(s', f', id)
  {
    var store, ids := s.pool.store, Ids(ReadyOnes(s.pool.store));
    assert FateTrue(s, f, id);
    if id !in ids && f.at[id].Kept? {
      var k :| 0 <= k < |store| && store[k].id == id;
      ForcedIds(store, k);
      var t := store[k];
      var q :| 0 <= q < |s'.pool.store| && s'.pool.store[q] == t;
    } else if id !in ids && f.at[id].Batched? {
      assert Pending(s', f.at[id].stmt, id);
    }
  }

  lemma FateForced(s: Sys, s': Sys, f: Ledger, f': Ledger)
    requires Forcing(s, s', f, f')
    ensures FateOk(s', f')
  {
    forall m | 0 <= m < |ReadyOnes(s.pool.store)|
      ensures var id := ReadyOnes(s.pool.store)[m].id; id in f.at && f.at[id] == Kept
    {
      ForcedWereKept(s, s', f, f', m);
    }
    forall k | 0 <= k < |s'.pool.store| ensures s'.pool.store[k].id in f'.at && f'.at[s'.pool.store[k].id] == Kept {
      UnforcedStayKept(s, s', f, f', k);
    }
    forall i | 0 <= i < |s'.stmts| ensures BatchFate(s', f', i) { assert BatchFate(s, f, i); }
    forall id | id in f'.at ensures FateTrue(s', f', id) { ForcedFateTrue(s, s', f, f', id); }
    assert forall x :: x in f'.attempted ==> x in f.attempted || x in Ids(ReadyOnes(s.pool.store));
  }

  lemma FateKeeps(s: Sys, f: Ledger, l: Label)
    requires Inv(s) && FateOk(s, f) && Enabled(s, l)
    ensures FateOk(Apply(s, l), RecordFate(s, f, l))
  {
    match l
    case Begin(_) => FateBegin(s, f, l);
    case Finish(_, _) => FateFinish(s, f, l);
    case SendCommit(_, _) => FateSend(s, f, l);
    case ForceCommit(_, _, _) => FateForce(s, f, l);
    case NextCommit(_, _, _) => FateNext(s, f, l);
    case Arrive(_, _, _, _) => FateArrive(s, f, l);
    case _ =>
      StoreUntouched(s, l);
      FateStill(s, Apply(s, l), f, l.stmt);
  }

  lemma FateArrive(s: Sys, f: Ledger, l: Label)
    requires FateOk(s, f) && l.Arrive? && Enabled(s, l)
    ensures FateOk(Apply(s, l), f)
  {
    var s' := Apply(s, l);
    forall j | 0 <= j < |s'.stmts| ensures BatchFate(s', f, j) { if j < |s.stmts| { assert BatchFate(s, f, j); } }
    forall id | id in f.at ensures FateTrue(s', f, id) {
      assert FateTrue(s, f, id);
      if f.at[id].Batched? { assert At(s', f.at[id].stmt) == At(s, f.at[id].stmt); }
    }
  }

  lemma FateNext(s: Sys, f: Ledger, l: Label)
    requires Inv(s) && FateOk(s, f) && l.NextCommit? && Enabled(s, l)
    ensures FateOk(Apply(s, l), f)
  {
    var s', i := Apply(s, l), l.stmt;
    StoreUntouched(s, l);
    forall j | 0 <= j < |s'.stmts| ensures BatchFate(s', f, j) { assert BatchFate(s, f, j); }
    forall id | id in f.at ensures FateTrue(s', f, id) {
      assert FateTrue(s, f, id);
      if f.at[id].Batched? {
        var j := f.at[id].stmt;
        var k :| Unsent(At(s, j)) <= k < |At(s, j).batch| && At(s, j).batch[k].id == id;
        assert At(s', j).batch[k].id == id;
      }
    }
  }

  /** Exactly once: every created transaction is in the store, or in one statement's pending batch,
      or its commit has been attempted, and never in two of these places; no commit is attempted twice. */
  lemma OnePlacePerTransaction(s: Sys, f: Ledger, id: nat)
    requires FateOk(s, f) && 1 <= id <= s.pool.txnSeq
    ensures Stored(s, id) || (exists i :: Pending(s, i, id)) || id in f.attempted
    ensures !(Stored(s, id) && id in f.attempted)
    ensures forall i :: Pending(s, i, id) ==> !Stored(s, id) && id !in f.attempted
    ensures forall i, j :: Pending(s, i, id) && Pending(s, j, id) ==> i == j
    ensures NoDup(f.attempted)
  {
    assert FateTrue(s, f, id);
    forall i | Pending(s, i, id) ensures f.at[id] == Batched(i) { assert BatchFate(s, f, i); }
  }
}
