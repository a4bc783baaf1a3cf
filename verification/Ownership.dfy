/** Who owns which connection, and why no step of any statement breaks it. */
module Ownership {
  import opened Prelude
  import opened PoolLists
  import opened Protocol

  // ----- the invariant

  /** The statement holds a transaction that it has not finished. */
  predicate Open(st: Stmt) {
    st.txn.Some? && (st.phase.Begun? || st.phase.Serving? || st.phase.Finishing?)
  }

  ghost predicate ListsOk(s: Sys) {
    && Apart(s.pool)
    && (forall c :: c in s.pool.active ==> c < s.nextConn)
    && (forall c :: c in s.pool.ready ==> c < s.nextConn)
    && (forall c :: c in s.pool.active <==> c in s.own)
  }

  /** From position `from` on, the batch's connections belong to statement i. */
  ghost predicate BatchOk(s: Sys, i: nat, batch: seq<Txn<nat>>, from: nat) {
    && Ordered(batch)
    && (forall k :: 0 <= k < |batch| ==> batch[k].ready && 1 <= batch[k].id <= s.pool.txnSeq)
    && (forall k :: from <= k < |batch| && 1 <= k ==>
          batch[k].conn in s.own && s.own[batch[k].conn] == Drainer(i, batch[k].id))
  }

  ghost predicate StmtOk(s: Sys, i: nat)
    requires i < |s.stmts|
  {
    var st := s.stmts[i];
    st.phase.Done? ||
    (&& st.conn in s.own && s.own[st.conn] == Owner(i)
     && ((st.phase.Got? || st.phase.Linked?) ==> st.txn.None?)
     && (st.phase.Begun? ==> st.txn.Some?)
     && (Open(st) ==> Txn(st.txn.value, false, st.conn) in s.pool.store)
     && (st.phase.Committing? ==>
           && st.txn.Some?
           && st.phase.next < |st.phase.batch|
           && st.phase.batch[0] == Txn(st.txn.value, true, st.conn)
           && BatchOk(s, i, st.phase.batch, st.phase.next)))
  }

  ghost predicate RoleOk(s: Sys, c: nat)
    requires c in s.own
  {
    match s.own[c]
    case Owner(i) => !At(s, i).Done? && s.stmts[i].conn == c
    case Nobody(id) => Txn(id, true, c) in s.pool.store
    case Drainer(i, id) =>
      At(s, i).Committing? &&
      exists k :: 1 <= k < |At(s, i).batch| && At(s, i).next <= k && At(s, i).batch[k] == Txn(id, true, c)
  }

  ghost predicate TxnOk(s: Sys, t: Txn<nat>) {
    && 1 <= t.id <= s.pool.txnSeq
    && t.conn in s.own
    && if t.ready then s.own[t.conn] == Nobody(t.id)
       else s.own[t.conn].Owner? && s.own[t.conn].stmt < |s.stmts| &&
            Open(s.stmts[s.own[t.conn].stmt]) && s.stmts[s.own[t.conn].stmt].txn == Some(t.id)
  }

  ghost predicate StoreOk(s: Sys) {
    && Ordered(s.pool.store)
    && (forall k :: 0 <= k < |s.pool.store| ==> TxnOk(s, s.pool.store[k]))
    && (s.pool.store != [] ==> !s.pool.store[0].ready)
  }

  ghost predicate Inv(s: Sys) {
    && ListsOk(s)
    && (forall i :: 0 <= i < |s.stmts| ==> StmtOk(s, i))
    && (forall c :: c in s.own ==> RoleOk(s, c))
    && StoreOk(s)
  }

  // ----- every step keeps the invariant

  lemma ArriveKeeps(s: Sys, l: Label)
    requires Inv(s) && l.Arrive? && Enabled(s, l)
    ensures Inv(Apply(s, l))
  {
    var s' := Apply(s, l);
    var c := Chosen(s.pool, s.nextConn);
    GetSeparates(s.pool, s.nextConn);
    assert s.pool.ready != [] ==> c in s.pool.ready;
    assert c !in s.own;
    forall i | 0 <= i < |s'.stmts| ensures StmtOk(s', i) {
      if i < |s.stmts| { ArriveBeside(s, s', i, c, Owner(|s.stmts|)); }
    }
    forall d | d in s'.own ensures RoleOk(s', d) {
      if d != c { assert RoleOk(s, d); }
    }
    forall k | 0 <= k < |s'.pool.store| ensures TxnOk(s', s'.pool.store[k]) {
      assert TxnOk(s, s.pool.store[k]);
    }
  }

  /** Statements that were there see nothing of a connection handed out to a new one. */
  lemma ArriveBeside(s: Sys, s': Sys, i: nat, c: nat, role: Role)
    requires i < |s.stmts| <= |s'.stmts| && StmtOk(s, i) && s'.stmts[i] == s.stmts[i]
    requires c !in s.own && s'.own == s.own[c := role] && s'.pool.store == s.pool.store &&
        s'.pool.txnSeq == s.pool.txnSeq
    ensures StmtOk(s', i)
  {
  }

  /** A step that only moves statement i to a phase holding the same connection and transaction. */
  lemma MoveKeeps(s: Sys, i: nat, st: Stmt)
    requires Inv(s) && i < |s.stmts|
    requires var was := s.stmts[i];
      && !was.phase.Done? && !st.phase.Done? && st.conn == was.conn && st.txn == was.txn
      && Open(was) == Open(st)
      && ((st.phase.Got? || st.phase.Linked?) ==> st.txn.None?)
      && (st.phase.Begun? ==> st.txn.Some?)
      && (was.phase.Committing? <==> st.phase.Committing?)
      && (st.phase.Committing? ==> st.phase.batch == was.phase.batch && st.phase.next == was.phase.next)
    ensures Inv(s.(stmts := s.stmts[i := st]))
  {
    var s' := s.(stmts := s.stmts[i := st]);
    assert StmtOk(s, i);
    forall c | HeldBy(s.own, c, i) ensures RoleOk(s', c) { assert RoleOk(s, c); }
    MoveOn(s, s', i);
  }

  lemma BeginKeeps(s: Sys, l: Label)
    requires Inv(s) && l.Begin? && Enabled(s, l) && s.stmts[l.stmt].conf.transaction
    ensures Inv(Apply(s, l))
  {
    var s', i := Apply(s, l), l.stmt;
    var n := |s.pool.store|;
    assert StmtOk(s, i);
    assert s'.pool.store[n] == Txn(s.pool.txnSeq + 1, false, s.stmts[i].conn);
    forall j | 0 <= j < |s'.stmts| ensures StmtOk(s', j) {
      assert StmtOk(s, j);
      if j != i && Open(s.stmts[j]) {
        StillStored(s.pool.store, s'.pool.store, Txn(s.stmts[j].txn.value, false, s.stmts[j].conn));
      }
    }
    forall c | c in s'.own ensures RoleOk(s', c) {
      assert RoleOk(s, c);
      if s.own[c].Nobody? { StillStored(s.pool.store, s'.pool.store, Txn(s.own[c].txn, true, c)); }
    }
    forall k | 0 <= k <= n ensures TxnOk(s', s'.pool.store[k]) {
      if k < n { assert TxnOk(s, s.pool.store[k]); }
    }
    forall a, b | 0 <= a < b <= n ensures s'.pool.store[a].id < s'.pool.store[b].id {
      assert TxnOk(s, s.pool.store[a]);
    }
  }

  lemma StillStored(store: seq<Txn<nat>>, longer: seq<Txn<nat>>, t: Txn<nat>)
    requires t in store && store <= longer
    ensures t in longer
  {
    var k :| 0 <= k < |store| && store[k] == t;
    assert longer[k] == t;
  }

  ghost predicate HeldBy(own: map<nat, Role>, c: nat, i: nat) {
    c in own && !own[c].Nobody? && own[c].stmt == i
  }

  /** Statement i gives up connection c and changes only itself. */
  lemma DropKeeps(s: Sys, s': Sys, i: nat, c: nat)
    requires Inv(s) && i < |s.stmts| && HeldBy(s.own, c, i)
    requires s'.pool.store == s.pool.store && s'.pool.txnSeq == s.pool.txnSeq && ListsOk(s')
    requires s'.own == s.own - {c}
    requires |s'.stmts| == |s.stmts| && forall j :: 0 <= j < |s.stmts| && j != i ==> s'.stmts[j] == s.stmts[j]
    requires StmtOk(s', i) && !Open(s.stmts[i])
    requires forall d :: HeldBy(s'.own, d, i) ==> RoleOk(s', d)
    ensures Inv(s')
  {
    forall j | 0 <= j < |s'.stmts| ensures StmtOk(s', j) {
      assert StmtOk(s, j);
    }
    forall d | d in s'.own ensures RoleOk(s', d) {
      assert RoleOk(s, d);
    }
    forall k | 0 <= k < |s'.pool.store| ensures TxnOk(s', s'.pool.store[k]) {
      assert TxnOk(s, s.pool.store[k]);
    }
  }

  lemma GiveBackKeepsLists(s: Sys, c: nat, good: bool, poolSockets: nat)
    requires ListsOk(s) && c in s.own
    ensures ListsOk(s.(pool := GiveBack(s.pool, c, good, poolSockets), own := s.own - {c}))
  {
    GiveBackSeparates(s.pool, c, good, poolSockets);
  }

  lemma ReleaseKeeps(s: Sys, l: Label)
    requires Inv(s) && l.Release? && Enabled(s, l)
    ensures Inv(Apply(s, l))
  {
    var s', i := Apply(s, l), l.stmt;
    var c := s.stmts[i].conn;
    assert StmtOk(s, i);
    GiveBackKeepsLists(s, c, l.good, l.poolSockets);
    forall d | d in s'.own ensures !HeldBy(s'.own, d, i) { assert RoleOk(s, d); }
    DropKeeps(s, s', i, c);
  }

  /** The statement that moves on still has its own connection, and what remains of its batch. */
  lemma NextCommitStmt(s: Sys, l: Label)
    requires Inv(s) && l.NextCommit? && Enabled(s, l) && At(s, l.stmt).next > 0
    ensures Current(s, l.stmt).conn != s.stmts[l.stmt].conn && HeldBy(s.own, Current(s, l.stmt).conn, l.stmt)
    ensures Apply(s, l).own == s.own - {Current(s, l.stmt).conn}
    ensures StmtOk(Apply(s, l), l.stmt) && !Open(s.stmts[l.stmt])
  {
    assert StmtOk(s, l.stmt);
    NextStmtOk(s, l);
  }

  lemma NextStmtOk(s: Sys, l: Label)
    requires l.NextCommit? && Enabled(s, l) && At(s, l.stmt).next > 0 && StmtOk(s, l.stmt)
    ensures StmtOk(Apply(s, l), l.stmt)
  {
    var s', i, batch, next := Apply(s, l), l.stmt, At(s, l.stmt).batch, At(s, l.stmt).next;
    assert s'.own == s.own - {batch[next].conn};
    forall k | next < k < |batch| ensures batch[k].conn in s'.own && s'.own[batch[k].conn] == Drainer(i, batch[k].id) {
      assert batch[next].id < batch[k].id;
    }
  }

  /** Past its own transaction, the drainer gives the current connection back. */
  lemma NextCommitReturns(s: Sys, l: Label)
    requires Inv(s) && l.NextCommit? && Enabled(s, l) && At(s, l.stmt).next > 0
    ensures Inv(Apply(s, l))
  {
    var s', i := Apply(s, l), l.stmt;
    var c := Current(s, i).conn;
    NextCommitStmt(s, l);
    forall d | HeldBy(s'.own, d, i) ensures RoleOk(s', d) { StillHeld(s, l, d); }
    GiveBackKeepsLists(s, c, l.good, l.poolSockets);
    DropKeeps(s, s', i, c);
  }

  /** What the statement holds beside the connection it gives back. */
  lemma StillHeld(s: Sys, l: Label, d: nat)
    requires Inv(s) && l.NextCommit? && Enabled(s, l)
    requires HeldBy(s.own, d, l.stmt) && d in Apply(s, l).own && Apply(s, l).own[d] == s.own[d]
    ensures RoleOk(Apply(s, l), d)
  {
    var i, p := l.stmt, At(s, l.stmt);
    assert RoleOk(s, d) && StmtOk(s, i);
    if s.own[d].Drainer? {
      var k :| 1 <= k < |p.batch| && p.next <= k && p.batch[k] == Txn(s.own[d].txn, true, d);
      assert k != p.next;
    }
  }

  lemma NextCommitKeeps(s: Sys, l: Label)
    requires Inv(s) && l.NextCommit? && Enabled(s, l)
    ensures Inv(Apply(s, l))
  {
    var s', i := Apply(s, l), l.stmt;
    if At(s, i).next > 0 {
      NextCommitReturns(s, l);
    } else {
      assert StmtOk(s, i);
      forall d | HeldBy(s.own, d, i) ensures RoleOk(s', d) { StillHeld(s, l, d); }
      MoveOn(s, s', i);
    }
  }

  /** Statement i changes only itself and every connection keeps its role. */
  lemma MoveOn(s: Sys, s': Sys, i: nat)
    requires Inv(s) && i < |s.stmts| && s' == s.(stmts := s'.stmts)
    requires |s'.stmts| == |s.stmts| && forall j :: 0 <= j < |s.stmts| && j != i ==> s'.stmts[j] == s.stmts[j]
    requires StmtOk(s', i)
    requires Open(s.stmts[i]) ==> Open(s'.stmts[i]) && s'.stmts[i].txn == s.stmts[i].txn
    requires forall d :: HeldBy(s.own, d, i) ==> RoleOk(s', d)
    ensures Inv(s')
  {
    forall j | 0 <= j < |s'.stmts| ensures StmtOk(s', j) { assert StmtOk(s, j); }
    forall d | d in s'.own ensures RoleOk(s', d) { assert RoleOk(s, d); }
    forall k | 0 <= k < |s'.pool.store| ensures TxnOk(s', s'.pool.store[k]) {
      assert TxnOk(s, s.pool.store[k]);
    }
  }

  /** The transaction statement i is about to finish, by position. */
  lemma OwnPosition(s: Sys, i: nat) returns (p: nat)
    requires Inv(s) && i < |s.stmts| && Open(s.stmts[i])
    ensures p < |s.pool.store| && s.pool.store[p] == Txn(s.stmts[i].txn.value, false, s.stmts[i].conn)
    ensures forall k :: 0 <= k < |s.pool.store| && k != p ==> s.pool.store[k].id != s.stmts[i].txn.value
  {
    assert StmtOk(s, i);
    p :| 0 <= p < |s.pool.store| && s.pool.store[p] == Txn(s.stmts[i].txn.value, false, s.stmts[i].conn);
  }

  /** Finishing marks one transaction and nothing else. */
  lemma OnlyOwnMarked(s: Sys, i: nat, p: nat)
    requires Inv(s) && i < |s.stmts| && Open(s.stmts[i])
    requires p < |s.pool.store| && s.pool.store[p] == Txn(s.stmts[i].txn.value, false, s.stmts[i].conn)
    ensures var marked := MarkReady(s.pool.store, s.stmts[i].txn.value);
            marked == s.pool.store[p := s.pool.store[p].(ready := true)] && Ordered(marked)
  {
  }

  /** s' is s after statement i finished the p-th transaction of the store, p > 0. */
  ghost predicate Deferred(s: Sys, s': Sys, i: nat, p: nat) {
    && i < |s.stmts| && Open(s.stmts[i]) && 0 < p < |s.pool.store|
    && s.pool.store[p] == Txn(s.stmts[i].txn.value, false, s.stmts[i].conn)
    && s'.pool == s.pool.(store := s.pool.store[p := s.pool.store[p].(ready := true)])
    && s'.nextConn == s.nextConn
    && s'.own == s.own[s.stmts[i].conn := Nobody(s.stmts[i].txn.value)]
    && |s'.stmts| == |s.stmts| && (forall j :: 0 <= j < |s.stmts| && j != i ==> s'.stmts[j] == s.stmts[j])
    && s'.stmts[i].phase.Done?
  }

  lemma DeferShape(s: Sys, l: Label, p: nat)
    requires Inv(s) && l.Finish? && Enabled(s, l) && s.stmts[l.stmt].txn.Some?
    requires 0 < p < |s.pool.store| && s.pool.store[p] == Txn(s.stmts[l.stmt].txn.value, false, s.stmts[l.stmt].conn)
    ensures Deferred(s, Apply(s, l), l.stmt, p)
  {
    OnlyOwnMarked(s, l.stmt, p);
    assert s.pool.store[0].id < s.pool.store[p].id;
  }

  lemma DeferredRole(s: Sys, s': Sys, i: nat, p: nat, d: nat)
    requires Inv(s) && Deferred(s, s', i, p) && d in s'.own
    ensures RoleOk(s', d)
  {
    var store := s.pool.store;
    assert StmtOk(s, i);
    assert RoleOk(s, d);
    if d == s.stmts[i].conn {
      assert s'.pool.store[p] == Txn(s.stmts[i].txn.value, true, d);
    } else if s.own[d].Nobody? {
      var k :| 0 <= k < |store| && store[k] == Txn(s.own[d].txn, true, d);
      assert s'.pool.store[k] == store[k];
    }
  }

  lemma DeferredStmt(s: Sys, s': Sys, i: nat, p: nat, j: nat)
    requires Inv(s) && Deferred(s, s', i, p) && j < |s.stmts|
    ensures StmtOk(s', j)
  {
    var store := s.pool.store;
    assert StmtOk(s, i) && StmtOk(s, j);
    if j != i && Open(s.stmts[j]) {
      var k :| 0 <= k < |store| && store[k] == Txn(s.stmts[j].txn.value, false, s.stmts[j].conn);
      assert s'.pool.store[k] == store[k];
    }
  }

  lemma DeferredTxn(s: Sys, s': Sys, i: nat, p: nat, k: nat)
    requires Inv(s) && Deferred(s, s', i, p) && k < |s.pool.store|
    ensures TxnOk(s', s'.pool.store[k])
  {
    assert TxnOk(s, s.pool.store[k]);
    assert StmtOk(s, i);
    assert k != p ==> s.pool.store[k].id != s.pool.store[p].id;
  }

  lemma DeferKeeps(s: Sys, l: Label, p: nat)
    requires Inv(s) && l.Finish? && Enabled(s, l) && s.stmts[l.stmt].txn.Some?
    requires 0 < p < |s.pool.store| && s.pool.store[p] == Txn(s.stmts[l.stmt].txn.value, false, s.stmts[l.stmt].conn)
    ensures Inv(Apply(s, l))
  {
    var s', i := Apply(s, l), l.stmt;
    DeferShape(s, l, p);
    assert StmtOk(s, i);
    forall j | 0 <= j < |s'.stmts| ensures StmtOk(s', j) { DeferredStmt(s, s', i, p, j); }
    forall d | d in s'.own ensures RoleOk(s', d) { DeferredRole(s, s', i, p, d); }
    forall k | 0 <= k < |s'.pool.store| ensures TxnOk(s', s'.pool.store[k]) { DeferredTxn(s, s', i, p, k); }
  }

  /** s' is s after statement i, first in the store, drained the first n transactions. */
  ghost predicate Drained(s: Sys, s': Sys, i: nat, n: nat) {
    var store := s.pool.store;
    && i < |s.stmts| && Open(s.stmts[i]) && 1 <= n <= |store|
    && store[0] == Txn(s.stmts[i].txn.value, false, s.stmts[i].conn)
    && (forall k :: 1 <= k < n ==> store[k].ready)
    && (n < |store| ==> !store[n].ready)
    && var batch := [store[0].(ready := true)] + store[1..n];
    && s'.pool == s.pool.(store := store[n..])
    && s'.nextConn == s.nextConn
    && s'.own == HandOver(s.own, batch, i)
    && |s'.stmts| == |s.stmts| && (forall j :: 0 <= j < |s.stmts| && j != i ==> s'.stmts[j] == s.stmts[j])
    && s'.stmts[i].conn == s.stmts[i].conn && s'.stmts[i].txn == s.stmts[i].txn
    && s'.stmts[i].phase.Committing?
    && s'.stmts[i].phase.batch == batch && s'.stmts[i].phase.next == 0
  }

  lemma DrainShape(s: Sys, l: Label) returns (n: nat)
    requires Inv(s) && l.Finish? && Enabled(s, l) && s.stmts[l.stmt].txn.Some?
    requires s.pool.store != [] && s.pool.store[0] == Txn(s.stmts[l.stmt].txn.value, false, s.stmts[l.stmt].conn)
    ensures Drained(s, Apply(s, l), l.stmt, n)
  {
    var i, store := l.stmt, s.pool.store;
    OnlyOwnMarked(s, i, 0);
    var marked := MarkReady(store, s.stmts[i].txn.value);
    n := ReadyPrefix(marked);
    assert marked[0].ready;
    assert forall k :: 0 < k < |store| ==> marked[k] == store[k];
    assert marked[..n] == [store[0].(ready := true)] + store[1..n];
    assert marked[n..] == store[n..];
  }

  lemma DrainedBatch(s: Sys, s': Sys, i: nat, n: nat)
    requires Inv(s) && Drained(s, s', i, n)
    ensures StmtOk(s', i)
  {
    var store, batch := s.pool.store, s'.stmts[i].phase.batch;
    assert StmtOk(s, i);
    forall k | 0 <= k < |batch| ensures batch[k].ready && 1 <= batch[k].id <= s.pool.txnSeq {
      assert TxnOk(s, store[k]);
    }
    forall k | 1 <= k < |batch|
      ensures batch[k].conn in s'.own && s'.own[batch[k].conn] == Drainer(i, batch[k].id)
    {
      assert TxnOk(s, store[k]);
      assert Ids(batch)[k] == batch[k].id;
    }
  }

  lemma DrainedOthers(s: Sys, s': Sys, i: nat, n: nat, j: nat)
    requires Inv(s) && Drained(s, s', i, n) && j < |s.stmts| && j != i
    ensures StmtOk(s', j)
  {
    assert StmtOk(s, i) && StmtOk(s, j);
    if Open(s.stmts[j]) { StaysOpen(s, s', i, n, j); }
    DrainBeside(s, s', i, n, j);
  }

  /** Another statement's unfinished transaction is not among those drained. */
  lemma StaysOpen(s: Sys, s': Sys, i: nat, n: nat, j: nat)
    requires Drained(s, s', i, n) && j < |s.stmts| && j != i && StmtOk(s, i) && StmtOk(s, j) && Open(s.stmts[j])
    ensures Txn(s.stmts[j].txn.value, false, s.stmts[j].conn) in s'.pool.store
  {
    var store := s.pool.store;
    var k :| 0 <= k < |store| && store[k] == Txn(s.stmts[j].txn.value, false, s.stmts[j].conn);
    assert k != 0 && k >= n;
    assert s'.pool.store[k - n] == store[k];
  }

  lemma DrainBeside(s: Sys, s': Sys, i: nat, n: nat, j: nat)
    requires Drained(s, s', i, n) && j < |s.stmts| && j != i && StmtOk(s, j)
    requires Open(s.stmts[j]) ==> Txn(s.stmts[j].txn.value, false, s.stmts[j].conn) in s'.pool.store
    ensures StmtOk(s', j)
  {
  }

  lemma DrainedRole(s: Sys, s': Sys, i: nat, n: nat, d: nat)
    requires Inv(s) && Drained(s, s', i, n) && d in s.own
    ensures RoleOk(s', d)
  {
    assert RoleOk(s, d);
    if s.own[d].Nobody? {
      var store := s.pool.store;
      var k :| 0 <= k < |store| && store[k] == Txn(s.own[d].txn, true, d);
      HandedOver(s, s', i, n, k);
    }
  }

  /** A deferred transaction either passes, with its connection, to the drainer or stays deferred. */
  lemma HandedOver(s: Sys, s': Sys, i: nat, n: nat, k: nat)
    requires Ordered(s.pool.store) && Drained(s, s', i, n) && k < |s.pool.store| && s.pool.store[k].ready
    requires s.pool.store[k].conn in s.own && s.own[s.pool.store[k].conn] == Nobody(s.pool.store[k].id)
    ensures s.pool.store[k].conn in s'.own && RoleOk(s', s.pool.store[k].conn)
  {
    if k < n { PassedOn(s, s', i, n, k); } else { StaysBehind(s, s', i, n, k); }
  }

  lemma PassedOn(s: Sys, s': Sys, i: nat, n: nat, k: nat)
    requires Drained(s, s', i, n) && k < n && s.pool.store[k].ready
    requires s.pool.store[k].conn in s.own && s.own[s.pool.store[k].conn] == Nobody(s.pool.store[k].id)
    ensures s.pool.store[k].conn in s'.own && RoleOk(s', s.pool.store[k].conn)
  {
    var batch, t := s'.stmts[i].phase.batch, s.pool.store[k];
    assert Ids(batch)[k] == t.id;
    assert batch[k] == Txn(t.id, true, t.conn);
    assert s'.own[t.conn] == Drainer(i, t.id);
  }

  lemma StaysBehind(s: Sys, s': Sys, i: nat, n: nat, k: nat)
    requires Ordered(s.pool.store) && Drained(s, s', i, n) && n <= k < |s.pool.store| && s.pool.store[k].ready
    requires s.pool.store[k].conn in s.own && s.own[s.pool.store[k].conn] == Nobody(s.pool.store[k].id)
    ensures s.pool.store[k].conn in s'.own && RoleOk(s', s.pool.store[k].conn)
  {
    var store, batch, t := s.pool.store, s'.stmts[i].phase.batch, s.pool.store[k];
    assert s'.pool.store[k - n] == Txn(t.id, true, t.conn);
    forall m | 0 <= m < |batch| ensures Ids(batch)[m] != t.id { assert store[m].id < t.id; }
    assert s'.own[t.conn] == Nobody(t.id);
  }

  lemma DrainedStore(s: Sys, s': Sys, i: nat, n: nat)
    requires Inv(s) && Drained(s, s', i, n)
    ensures StoreOk(s')
  {
    var store, batch := s.pool.store, s'.stmts[i].phase.batch;
    forall k | 0 <= k < |s'.pool.store| ensures TxnOk(s', s'.pool.store[k]) {
      var t := store[n + k];
      assert s'.pool.store[k] == t;
      assert TxnOk(s, t) && TxnOk(s, store[0]);
      forall m | 0 <= m < |batch| ensures Ids(batch)[m] != t.id { assert store[m].id < t.id; }
    }
  }

  lemma DrainKeeps(s: Sys, l: Label)
    requires Inv(s) && l.Finish? && Enabled(s, l) && s.stmts[l.stmt].txn.Some?
    requires s.pool.store != [] && s.pool.store[0] == Txn(s.stmts[l.stmt].txn.value, false, s.stmts[l.stmt].conn)
    ensures Inv(Apply(s, l))
  {
    var s', i := Apply(s, l), l.stmt;
    var n := DrainShape(s, l);
    DrainedBatch(s, s', i, n);
    forall j | 0 <= j < |s'.stmts| && j != i ensures StmtOk(s', j) { DrainedOthers(s, s', i, n, j); }
    forall d | d in s'.own ensures RoleOk(s', d) { DrainedRole(s, s', i, n, d); }
    DrainedStore(s, s', i, n);
  }

  lemma FinishKeeps(s: Sys, l: Label)
    requires Inv(s) && l.Finish? && Enabled(s, l)
    ensures Inv(Apply(s, l))
  {
    var st := s.stmts[l.stmt];
    if st.txn.None? {
      assert StmtOk(s, l.stmt);
      MoveKeeps(s, l.stmt, st.(phase := Releasing));
    } else {
      var p := OwnPosition(s, l.stmt);
      if p == 0 { DrainKeeps(s, l); } else { DeferKeeps(s, l, p); }
    }
  }

  /** A deferred transaction's connection is nobody's. */
  lemma DeferredIsNobodys(s: Sys, t: Txn<nat>)
    requires StoreOk(s) && t in ReadyOnes(s.pool.store)
    ensures t.ready && t.conn in s.own && s.own[t.conn] == Nobody(t.id)
  {
    SplitByReady(s.pool.store);
    var k :| 0 <= k < |s.pool.store| && s.pool.store[k] == t;
    assert TxnOk(s, s.pool.store[k]);
  }

  /** Distinct deferred transactions hold distinct connections. */
  lemma DeferredApart(s: Sys)
    requires StoreOk(s)
    ensures var cs := Conns(ReadyOnes(s.pool.store));
            NoDup(cs) && forall c :: c in cs ==> c in s.own && s.own[c].Nobody?
    ensures forall t :: t in ReadyOnes(s.pool.store) ==> t.ready && t.conn in s.own && s.own[t.conn] == Nobody(t.id)
  {
    var forced := ReadyOnes(s.pool.store);
    assert forall k :: 0 <= k < |s.pool.store| ==> TxnOk(s, s.pool.store[k]);
    SplitKeepsOrder(s.pool.store, 0);
    forall t | t in forced ensures t.ready && t.conn in s.own && s.own[t.conn] == Nobody(t.id) {
      DeferredIsNobodys(s, t);
    }
    assert forall k :: 0 <= k < |forced| ==> forced[k] in forced;
  }

  /** s' is s without its deferred transactions. */
  ghost predicate Forced(s: Sys, s': Sys) {
    && s'.pool.store == Unready(s.pool.store) && s'.pool.txnSeq == s.pool.txnSeq && s'.stmts == s.stmts
    && (forall d :: d in s'.own <==> d in s.own && d !in Conns(ReadyOnes(s.pool.store)))
    && (forall d :: d in s'.own ==> s'.own[d] == s.own[d])
  }

  lemma ForcedConn(store: seq<Txn<nat>>, t: Txn<nat>)
    requires t in store && t.ready
    ensures t.conn in Conns(ReadyOnes(store))
  {
    SplitByReady(store);
    var k :| 0 <= k < |ReadyOnes(store)| && ReadyOnes(store)[k] == t;
    assert Conns(ReadyOnes(store))[k] == t.conn;
  }

  /** Everything force_commit leaves alone is still in order. */
  lemma ForcedRole(s: Sys, s': Sys, d: nat)
    requires Inv(s) && Forced(s, s') && d in s'.own
    ensures RoleOk(s', d) && !s'.own[d].Nobody?
  {
    assert RoleOk(s, d);
    if s.own[d].Nobody? {
      ForcedConn(s.pool.store, Txn(s.own[d].txn, true, d));
      assert false;
    }
  }

  lemma ForcedTxn(s: Sys, s': Sys, k: nat)
    requires Inv(s) && Forced(s, s') && k < |s'.pool.store|
    ensures TxnOk(s', s'.pool.store[k]) && !s'.pool.store[k].ready
  {
    var t := s'.pool.store[k];
    var m := WasStored(s.pool.store, k);
    assert TxnOk(s, s.pool.store[m]);
    DeferredApart(s);
  }

  lemma WasStored(store: seq<Txn<nat>>, k: nat) returns (m: nat)
    requires k < |Unready(store)|
    ensures m < |store| && store[m] == Unready(store)[k] && !store[m].ready
  {
    SplitByReady(store);
    m :| 0 <= m < |store| && store[m] == Unready(store)[k];
  }

  lemma ForcedStmt(s: Sys, s': Sys, i: nat)
    requires Inv(s) && Forced(s, s') && i < |s.stmts|
    ensures StmtOk(s', i)
  {
    assert StmtOk(s, i);
    SplitByReady(s.pool.store);
    DeferredApart(s);
  }

  lemma ForcedRest(s: Sys, s': Sys)
    requires Inv(s) && ListsOk(s') && Forced(s, s')
    ensures Inv(s')
  {
    SplitKeepsOrder(s.pool.store, 0) by { assert forall k :: 0 <= k < |s.pool.store| ==> TxnOk(s, s.pool.store[k]); }
    forall i | 0 <= i < |s'.stmts| ensures StmtOk(s', i) { ForcedStmt(s, s', i); }
    forall d | d in s'.own ensures RoleOk(s', d) { ForcedRole(s, s', d); }
    forall k | 0 <= k < |s'.pool.store| ensures TxnOk(s', s'.pool.store[k]) && !s'.pool.store[k].ready {
      ForcedTxn(s, s', k);
    }
  }

  lemma ForceKeeps(s: Sys, l: Label)
    requires Inv(s) && l.ForceCommit? && Enabled(s, l)
    ensures Inv(Apply(s, l)) && Apply(s, l).pool.store == Unready(s.pool.store)
  {
    var s', store := Apply(s, l), s.pool.store;
    DeferredApart(s);
    GiveBackAllSeparates(s.pool.(store := Unready(store)), Conns(ReadyOnes(store)), l.alive, l.poolSockets);
    ForcedRest(s, s');
  }

  /** Every step of every interleaving keeps the invariant. */
  lemma StepKeeps(s: Sys, l: Label)
    requires Inv(s) && Enabled(s, l)
    ensures Inv(Apply(s, l))
  {
    match l
    case Arrive(_, _, _, _) => ArriveKeeps(s, l);
    case Finish(_, _) => FinishKeeps(s, l);
    case NextCommit(_, _, _) => NextCommitKeeps(s, l);
    case Release(_, _, _) => ReleaseKeeps(s, l);
    case ForceCommit(_, _, _) => ForceKeeps(s, l);
    case Begin(i) =>
      assert StmtOk(s, i);
      if s.stmts[i].conf.transaction { BeginKeeps(s, l); } else { MoveKeeps(s, i, Apply(s, l).stmts[i]); }
    case Connect(i, _) => assert StmtOk(s, i); MoveKeeps(s, i, Apply(s, l).stmts[i]);
    case SendBegin(i, _) => assert StmtOk(s, i); MoveKeeps(s, i, Apply(s, l).stmts[i]);
    case SendRow(i, _) => MoveKeeps(s, i, Apply(s, l).stmts[i]);
    case Deinit(i) => MoveKeeps(s, i, Apply(s, l).stmts[i]);
    case SendCommit(i, _) => MoveKeeps(s, i, Apply(s, l).stmts[i]);
    case AwaitCommit(i, _) => MoveKeeps(s, i, Apply(s, l).stmts[i]);
  }

}
