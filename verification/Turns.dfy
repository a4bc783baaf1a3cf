/** In what order COMMITs are attempted. */
module Turns {
  import opened Prelude
  import opened PoolLists
  import opened Protocol
  import opened Ownership
  import opened Order
  import opened Fates

  /** x was attempted before y. */
  ghost predicate Before(attempted: seq<nat>, x: nat, y: nat) {
    exists p, q :: 0 <= p < q < |attempted| && attempted[p] == x && attempted[q] == y
  }

  lemma BeforeGrows(attempted: seq<nat>, more: seq<nat>, x: nat, y: nat)
    requires Before(attempted, x, y)
    ensures Before(attempted + more, x, y)
  {
    var p, q :| 0 <= p < q < |attempted| && attempted[p] == x && attempted[q] == y;
    var longer := attempted + more;
    assert longer[p] == x && longer[q] == y;
  }

  lemma BeforeLast(attempted: seq<nat>, x: nat, y: nat)
    requires x in attempted
    ensures Before(attempted + [y], x, y)
  {
    var p :| 0 <= p < |attempted| && attempted[p] == x;
    var longer := attempted + [y];
    assert longer[p] == x && longer[|attempted|] == y;
  }

  /** Within the batch b nothing is attempted before what precedes it. */
  ghost predicate InTurn(b: seq<nat>, attempted: seq<nat>) {
    forall j, k :: 0 <= j < k < |b| && b[k] in attempted ==> Before(attempted, b[j], b[k])
  }

  /** Statement i is at work on the batch b. */
  ghost predicate Draws(s: Sys, i: nat, b: seq<nat>) {
    At(s, i).Committing? && Ids(At(s, i).batch) == b
  }

  /** No number of a drained batch is in the store, and one not yet attempted is with the batch's drainer. */
  ghost predicate Accounted(s: Sys, f: Ledger, b: seq<nat>) {
    forall k :: 0 <= k < |b| ==>
      b[k] in f.at && !f.at[b[k]].Kept? && (f.at[b[k]].Batched? ==> Draws(s, f.at[b[k]].stmt, b))
  }

  ghost predicate BatchTurn(s: Sys, f: Ledger, i: nat) {
    At(s, i).Committing? ==>
      && (forall k :: 0 <= k < Unsent(At(s, i)) && k < |At(s, i).batch| ==> At(s, i).batch[k].id in f.attempted)
      && (forall k, m :: 0 <= k < |At(s, i).batch| && 0 <= m < |s.pool.store| ==>
        At(s, i).batch[k].id < s.pool.store[m].id)
  }

  ghost predicate TurnOk(s: Sys, o: Log, f: Ledger) {
    && (forall d :: 0 <= d < |o.drained| ==> InTurn(o.drained[d], f.attempted) && Accounted(s, f, o.drained[d]))
    && (forall i :: 0 <= i < |s.stmts| ==> BatchTurn(s, f, i))
  }

  // ----- every step keeps the turns

  /** Whoever has an unattempted number is still at work on the same batch. */
  lemma AccountStays(s: Sys, s': Sys, f: Ledger, f': Ledger, b: seq<nat>)
    requires Accounted(s, f, b) && FateOk(s', f')
    requires forall k :: 0 <= k < |b| ==> b[k] in f'.at && (f'.at[b[k]] == f.at[b[k]] || f'.at[b[k]] == Attempted)
    requires forall j :: At(s', j).Committing? && At(s, j).Committing? ==> At(s', j).batch == At(s, j).batch
    ensures Accounted(s', f', b)
  {
    forall k | 0 <= k < |b| && f'.at[b[k]].Batched? ensures Draws(s', f'.at[b[k]].stmt, b) {
      assert FateTrue(s', f', b[k]);
    }
  }

  lemma Attempts(s: Sys, s': Sys, f: Ledger, f': Ledger, b: seq<nat>, more: seq<nat>)
    requires f'.attempted == f.attempted + more && InTurn(b, f.attempted) && forall k :: 0 <= k < |b| ==> b[k] !in more
    ensures InTurn(b, f'.attempted)
  {
    forall j, k | 0 <= j < k < |b| && b[k] in f'.attempted ensures Before(f'.attempted, b[j], b[k]) {
      BeforeGrows(f.attempted, more, b[j], b[k]);
    }
  }

  /** The stored numbers are old ones or larger than all so far. */
  ghost predicate StoreLater(s: Sys, s': Sys) {
    forall m :: 0 <= m < |s'.pool.store| ==>
      s'.pool.store[m].id > s.pool.txnSeq ||
      (exists k :: 0 <= k < |s.pool.store| && s.pool.store[k].id == s'.pool.store[m].id)
  }

  ghost predicate Numbered(s: Sys, i: nat) {
    At(s, i).Committing? ==> forall k :: 0 <= k < |At(s, i).batch| ==> At(s, i).batch[k].id <= s.pool.txnSeq
  }

  lemma BatchNumbers(s: Sys, i: nat)
    requires Inv(s)
    ensures Numbered(s, i)
  {
    if i < |s.stmts| { assert StmtOk(s, i); }
  }

  /** A statement whose batch and progress a step leaves alone. */
  lemma BatchTurnStays(s: Sys, s': Sys, f: Ledger, f': Ledger, i: nat)
    requires BatchTurn(s, f, i) && Numbered(s, i) && StoreLater(s, s') && f.attempted <= f'.attempted
    requires At(s', i).Committing? ==>
      At(s, i).Committing? && At(s', i).batch == At(s, i).batch && Unsent(At(s', i)) == Unsent(At(s, i))
    ensures BatchTurn(s', f', i)
  {
    if At(s', i).Committing? {
      forall k | 0 <= k < |f.attempted| ensures f.attempted[k] in f'.attempted {
        assert f'.attempted[k] == f.attempted[k];
      }
    }
  }

  /** A step that attempts and drains nothing. */
  lemma TurnStill(s: Sys, s': Sys, o: Log, f: Ledger, f': Ledger)
    requires Inv(s) && TurnOk(s, o, f) && FateOk(s', f') && StoreLater(s, s') && f'.attempted == f.attempted
    requires forall id :: id in f.at ==> id in f'.at && f'.at[id] == f.at[id]
    requires forall j :: At(s', j).Committing? ==>
      At(s, j).Committing? && At(s', j).batch == At(s, j).batch && Unsent(At(s', j)) == Unsent(At(s, j))
    ensures TurnOk(s', o, f')
  {
    forall d | 0 <= d < |o.drained| ensures Accounted(s', f', o.drained[d]) {
      assert Accounted(s, f, o.drained[d]);
      AccountStays(s, s', f, f', o.drained[d]);
    }
    forall i | 0 <= i < |s'.stmts| ensures BatchTurn(s', f', i) {
      BatchNumbers(s, i);
      assert i < |s.stmts| ==> BatchTurn(s, f, i);
      BatchTurnStays(s, s', f, f', i);
    }
  }

  // ----- draining

  lemma DrainedAccount(s: Sys, s': Sys, f: Ledger, f': Ledger, i: nat, n: nat, b: seq<nat>)
    requires Draining(s, s', f, f', i, n) && FateOk(s', f') && Accounted(s, f, b) && !At(s, i).Committing?
    ensures Accounted(s', f', b)
  {
    BatchIds(s, s', i, n);
    forall k | 0 <= k < |b| ensures b[k] in f'.at && f'.at[b[k]] == f.at[b[k]] {
      NotBatched(s, s', f, f', i, n, b[k]);
    }
    AccountStays(s, s', f, f', b);
  }

  lemma NewAccount(s: Sys, s': Sys, f: Ledger, f': Ledger, i: nat, n: nat)
    requires Draining(s, s', f, f', i, n) && FateOk(s', f')
    ensures var b := Ids(s'.stmts[i].phase.batch); Accounted(s', f', b) && InTurn(b, f'.attempted)
  {
    var b := Ids(s'.stmts[i].phase.batch);
    BatchIds(s, s', i, n);
    forall k | 0 <= k < |b| ensures b[k] in f'.at && f'.at[b[k]] == Batched(i) && b[k] !in f'.attempted {
      assert b[k] in b && s.pool.store[k].id in f.at;
    }
  }

  lemma DrainedBelow(s: Sys, s': Sys, f: Ledger, f': Ledger, i: nat, n: nat)
    requires Draining(s, s', f, f', i, n)
    ensures BatchTurn(s', f', i)
  {
    BatchIds(s, s', i, n);
    var batch, store := At(s', i).batch, s.pool.store;
    forall k, m | 0 <= k < |batch| && 0 <= m < |s'.pool.store| ensures batch[k].id < s'.pool.store[m].id {
      assert Ids(batch)[k] == store[k].id && s'.pool.store[m] == store[n + m];
    }
  }

  lemma DrainLater(s: Sys, s': Sys, i: nat, n: nat)
    requires Drained(s, s', i, n)
    ensures StoreLater(s, s')
  {
    forall m | 0 <= m < |s'.pool.store|
      ensures exists k :: 0 <= k < |s.pool.store| && s.pool.store[k].id == s'.pool.store[m].id
    {
      assert s'.pool.store[m] == s.pool.store[n + m];
    }
  }

  lemma TurnDrain(s: Sys, s': Sys, o: Log, o': Log, f: Ledger, f': Ledger, i: nat, n: nat)
    requires Inv(s) && TurnOk(s, o, f) && Draining(s, s', f, f', i, n) && FateOk(s', f') && !At(s, i).Committing?
    requires o'.drained == o.drained + [Ids(s'.stmts[i].phase.batch)]
    ensures TurnOk(s', o', f')
  {
    NewAccount(s, s', f, f', i, n);
    forall d | 0 <= d < |o'.drained| ensures InTurn(o'.drained[d], f'.attempted) && Accounted(s', f', o'.drained[d]) {
      if d < |o.drained| {
        assert o'.drained[d] == o.drained[d] && Accounted(s, f, o.drained[d]);
        DrainedAccount(s, s', f, f', i, n, o.drained[d]);
      }
    }
    DrainLater(s, s', i, n);
    forall j | 0 <= j < |s'.stmts| ensures BatchTurn(s', f', j) {
      if j == i {
        DrainedBelow(s, s', f, f', i, n);
      } else {
        assert s'.stmts[j] == s.stmts[j] && BatchTurn(s, f, j);
        BatchNumbers(s, j);
        BatchTurnStays(s, s', f, f', j);
      }
    }
  }

  // ----- sending a COMMIT

  /** The number now attempted belongs to this batch, and all before it in the batch were attempted. */
  lemma SendInTurn(s: Sys, f: Ledger, f': Ledger, i: nat, b: seq<nat>)
    requires FateOk(s, f) && Accounted(s, f, b) && InTurn(b, f.attempted) && BatchTurn(s, f, i) && Increasing(b)
    requires InBatch(s, i) && At(s, i).stage.ToSend? && f'.attempted == f.attempted + [Current(s, i).id]
    ensures InTurn(b, f'.attempted)
  {
    var id, next := Current(s, i).id, At(s, i).next;
    assert BatchFate(s, f, i);
    forall j, k | 0 <= j < k < |b| && b[k] in f'.attempted ensures Before(f'.attempted, b[j], b[k]) {
      if b[k] == id {
        assert f.at[id] == Batched(i) && Ids(At(s, i).batch) == b;
        assert b[next] == id && k == next;
        assert At(s, i).batch[j].id == b[j] && b[j] in f.attempted;
        BeforeLast(f.attempted, b[j], id);
      } else {
        BeforeGrows(f.attempted, [id], b[j], b[k]);
      }
    }
  }

  lemma SendBatchTurn(s: Sys, f: Ledger, l: Label, j: nat)
    requires Inv(s) && Enabled(s, l) && l.SendCommit? && BatchTurn(s, f, j)
    ensures BatchTurn(Apply(s, l), RecordFate(s, f, l), j)
  {
    var s', f' := Apply(s, l), RecordFate(s, f, l);
    assert f'.attempted == f.attempted + [Current(s, l.stmt).id];
    if j == l.stmt {
      assert f'.attempted[|f.attempted|] == Current(s, j).id;
      forall x | x in f.attempted ensures x in f'.attempted {}
    } else {
      BatchNumbers(s, j);
      BatchTurnStays(s, s', f, f', j);
    }
  }

  lemma TurnSend(s: Sys, o: Log, f: Ledger, l: Label)
    requires Inv(s) && OrderOk(s, o) && FateOk(s, f) && TurnOk(s, o, f) && l.SendCommit? && Enabled(s, l)
    ensures TurnOk(Apply(s, l), o, RecordFate(s, f, l))
  {
    var s', f' := Apply(s, l), RecordFate(s, f, l);
    FateKeeps(s, f, l);
    assert BatchTurn(s, f, l.stmt) && BatchFate(s, f, l.stmt);
    forall d | 0 <= d < |o.drained| ensures InTurn(o.drained[d], f'.attempted) && Accounted(s', f', o.drained[d]) {
      assert Accounted(s, f, o.drained[d]);
      SendInTurn(s, f, f', l.stmt, o.drained[d]);
      AccountStays(s, s', f, f', o.drained[d]);
    }
    forall j | 0 <= j < |s'.stmts| ensures BatchTurn(s', f', j) {
      assert BatchTurn(s, f, j);
      SendBatchTurn(s, f, l, j);
    }
  }

  // ----- a forced commit

  lemma TurnForce(s: Sys, s': Sys, o: Log, f: Ledger, f': Ledger)
    requires Inv(s) && TurnOk(s, o, f) && Forcing(s, s', f, f') && FateOk(s', f')
    ensures TurnOk(s', o, f')
  {
    var ids := Ids(ReadyOnes(s.pool.store));
    forall d | 0 <= d < |o.drained| ensures InTurn(o.drained[d], f'.attempted) && Accounted(s', f', o.drained[d]) {
      var b := o.drained[d];
      assert Accounted(s, f, b);
      forall k | 0 <= k < |b| ensures b[k] !in ids && f'.at[b[k]] == f.at[b[k]] { Unforceable(s, s', f, f', b[k]); }
      AccountStays(s, s', f, f', b);
      Attempts(s, s', f, f', b, ids);
    }
    ForceLater(s, s');
    forall j | 0 <= j < |s'.stmts| ensures BatchTurn(s', f', j) {
      assert BatchTurn(s, f, j);
      BatchNumbers(s, j);
      BatchTurnStays(s, s', f, f', j);
    }
  }

  lemma Unforceable(s: Sys, s': Sys, f: Ledger, f': Ledger, id: nat)
    requires Forcing(s, s', f, f') && id in f.at && !f.at[id].Kept?
    ensures id !in Ids(ReadyOnes(s.pool.store)) && f'.at[id] == f.at[id]
  {
    var ids := Ids(ReadyOnes(s.pool.store));
    forall m | 0 <= m < |ids| ensures ids[m] != id { ForcedWereKept(s, s', f, f', m); }
  }

  lemma ForceLater(s: Sys, s': Sys)
    requires s'.pool.store == Unready(s.pool.store)
    ensures StoreLater(s, s')
  {
    SplitByReady(s.pool.store);
    forall m | 0 <= m < |s'.pool.store|
      ensures exists k :: 0 <= k < |s.pool.store| && s.pool.store[k].id == s'.pool.store[m].id
    {
      var t := s'.pool.store[m];
      var k :| 0 <= k < |s.pool.store| && s.pool.store[k] == t;
    }
  }

  // ----- all steps

  lemma TurnDrained(s: Sys, o: Log, f: Ledger, l: Label, n: nat)
    requires Inv(s) && FateOk(s, f) && TurnOk(s, o, f) && l.Finish? && Enabled(s, l) &&
        Drained(s, Apply(s, l), l.stmt, n)
    ensures TurnOk(Apply(s, l), Record(s, o, l), RecordFate(s, f, l))
  {
    FateKeeps(s, f, l);
    DrainRecorded(s, o, f, l, n);
    TurnDrain(s, Apply(s, l), o, Record(s, o, l), f, RecordFate(s, f, l), l.stmt, n);
  }

  lemma TurnDeferral(s: Sys, s': Sys, o: Log, f: Ledger, i: nat, p: nat)
    requires Inv(s) && TurnOk(s, o, f) && Deferred(s, s', i, p) && FateOk(s', f)
    ensures TurnOk(s', o, f)
  {
    forall m | 0 <= m < |s'.pool.store|
      ensures exists k :: 0 <= k < |s.pool.store| && s.pool.store[k].id == s'.pool.store[m].id
    {
      assert s.pool.store[m].id == s'.pool.store[m].id;
    }
    assert forall j :: At(s', j).Committing? ==> At(s', j) == At(s, j);
    TurnStill(s, s', o, f, f);
  }

  lemma TurnDeferred(s: Sys, o: Log, f: Ledger, l: Label, p: nat)
    requires Inv(s) && FateOk(s, f) && TurnOk(s, o, f) && l.Finish? && Enabled(s, l) &&
        Deferred(s, Apply(s, l), l.stmt, p)
    ensures TurnOk(Apply(s, l), Record(s, o, l), RecordFate(s, f, l))
  {
    FateKeeps(s, f, l);
    DeferRecorded(s, o, f, l, p);
    TurnDeferral(s, Apply(s, l), o, f, l.stmt, p);
    SameDrains(Apply(s, l), o, Record(s, o, l), f);
  }

  lemma SameDrains(s: Sys, o: Log, o': Log, f: Ledger)
    requires TurnOk(s, o, f) && o'.drained == o.drained
    ensures TurnOk(s, o', f)
  {
  }

  lemma TurnFinish(s: Sys, o: Log, f: Ledger, l: Label)
    requires Inv(s) && FateOk(s, f) && TurnOk(s, o, f) && l.Finish? && Enabled(s, l)
    ensures TurnOk(Apply(s, l), Record(s, o, l), RecordFate(s, f, l))
  {
    var i := l.stmt;
    if s.stmts[i].txn.None? {
      FateKeeps(s, f, l);
      TurnQuiet(s, o, f, l);
    } else {
      var p := OwnPosition(s, i);
      if p == 0 {
        var n := DrainShape(s, l);
        TurnDrained(s, o, f, l, n);
      } else {
        DeferShape(s, l, p);
        TurnDeferred(s, o, f, l, p);
      }
    }
  }

  /** Steps that neither store, drain nor attempt anything. */
  lemma QuietPhases(s: Sys, l: Label)
    requires Enabled(s, l) && !l.Begin? && !l.SendCommit? && !l.ForceCommit? &&
        !(l.Finish? && s.stmts[l.stmt].txn.Some?)
    ensures var s' := Apply(s, l); forall j :: At(s', j).Committing? ==>
      At(s, j).Committing? && At(s', j).batch == At(s, j).batch && Unsent(At(s', j)) == Unsent(At(s, j))
  {
  }

  lemma TurnQuiet(s: Sys, o: Log, f: Ledger, l: Label)
    requires Inv(s) && FateOk(s, f) && TurnOk(s, o, f) && Enabled(s, l) && FateOk(Apply(s, l), f)
    requires !l.Begin? && !l.SendCommit? && !l.ForceCommit? && !(l.Finish? && s.stmts[l.stmt].txn.Some?)
    ensures TurnOk(Apply(s, l), o, f)
  {
    QuietPhases(s, l);
    StoreUntouched(s, l);
    TurnStill(s, Apply(s, l), o, f, f);
  }

  lemma DrainRecorded(s: Sys, o: Log, f: Ledger, l: Label, n: nat)
    requires Inv(s) && FateOk(s, f) && l.Finish? && Enabled(s, l) && Drained(s, Apply(s, l), l.stmt, n)
    ensures Draining(s, Apply(s, l), f, RecordFate(s, f, l), l.stmt, n)
    ensures Record(s, o, l).drained == o.drained + [Ids(Apply(s, l).stmts[l.stmt].phase.batch)]
  {
  }

  lemma DeferRecorded(s: Sys, o: Log, f: Ledger, l: Label, p: nat)
    requires Inv(s) && l.Finish? && Enabled(s, l) && Deferred(s, Apply(s, l), l.stmt, p)
    ensures Record(s, o, l).drained == o.drained && RecordFate(s, f, l) == f
  {
    assert Batch(s.pool, s.stmts[l.stmt].txn.value) == [];
    assert RecordFate(s, f, l).at == f.at;
  }

  lemma TurnBegin(s: Sys, o: Log, f: Ledger, l: Label)
    requires Inv(s) && FateOk(s, f) && TurnOk(s, o, f) && l.Begin? && Enabled(s, l)
    ensures TurnOk(Apply(s, l), o, RecordFate(s, f, l))
  {
    var s' := Apply(s, l);
    FateKeeps(s, f, l);
    forall m | 0 <= m < |s'.pool.store|
      ensures s'.pool.store[m].id > s.pool.txnSeq ||
          (exists k :: 0 <= k < |s.pool.store| && s.pool.store[k].id == s'.pool.store[m].id)
    {
      if m < |s.pool.store| { assert s'.pool.store[m] == s.pool.store[m]; }
    }
    TurnStill(s, s', o, f, RecordFate(s, f, l));
  }

  lemma TurnKeeps(s: Sys, o: Log, f: Ledger, l: Label)
    requires Inv(s) && OrderOk(s, o) && FateOk(s, f) && TurnOk(s, o, f) && Enabled(s, l)
    ensures TurnOk(Apply(s, l), Record(s, o, l), RecordFate(s, f, l))
  {
    if l.Begin? {
      TurnBegin(s, o, f, l);
    } else if l.Finish? {
      TurnFinish(s, o, f, l);
    } else if l.SendCommit? {
      TurnSend(s, o, f, l);
    } else if l.ForceCommit? {
      TurnForced(s, o, f, l);
    } else {
      FateKeeps(s, f, l);
      TurnQuiet(s, o, f, l);
    }
  }

  lemma TurnForced(s: Sys, o: Log, f: Ledger, l: Label)
    requires Inv(s) && FateOk(s, f) && TurnOk(s, o, f) && l.ForceCommit? && Enabled(s, l)
    ensures TurnOk(Apply(s, l), Record(s, o, l), RecordFate(s, f, l))
  {
    FateKeeps(s, f, l);
    ForceRecorded(s, f, l);
    TurnForce(s, Apply(s, l), o, f, RecordFate(s, f, l));
  }
}
