/** The theorems: what holds of every run of a pool, in every interleaving, with failures and forced commits. */
module Runs {
  import opened Prelude
  import opened PoolLists
  import opened Protocol
  import opened Ownership
  import opened Order
  import opened Fates
  import opened Turns
  import opened Leases
  import opened Wire

  /** A pool with all that a run records about it. */
  datatype World = World(sys: Sys, log: Log, ledger: Ledger, book: Book, peaks: Peaks, net: Net)

  const START := World(Protocol.INIT, Order.BLANK, Ledger(map[], []), Book(map[], []), Peaks(0, 0), Wire.SILENCE)

  predicate CanStep(w: World, l: Label) {
    Enabled(w.sys, l) && Possible(w.sys, w.net, l)
  }

  function Step(w: World, l: Label): World
    requires CanStep(w, l)
  {
    World(Apply(w.sys, l), Record(w.sys, w.log, l), RecordFate(w.sys, w.ledger, l),
          RecordLease(w.sys, w.book, l), RecordPeaks(w.peaks, l), Carry(w.sys, w.net, l))
  }

  predicate IsRun(w: World, ls: seq<Label>)
    decreases ls
  {
    ls == [] || (CanStep(w, ls[0]) && IsRun(Step(w, ls[0]), ls[1..]))
  }

  function Run(w: World, ls: seq<Label>): World
    requires IsRun(w, ls)
    decreases ls
  {
    if ls == [] then w else Run(Step(w, ls[0]), ls[1..])
  }

  lemma {:induction false} RunExtends(w: World, ls: seq<Label>, l: Label)
    requires IsRun(w, ls) && CanStep(Run(w, ls), l)
    ensures IsRun(w, ls + [l]) && Run(w, ls + [l]) == Step(Run(w, ls), l)
    decreases ls
  {
    if ls == [] {
      assert ls + [l] == [l] && [l][1..] == [];
    } else {
      RunExtends(Step(w, ls[0]), ls[1..], l);
      assert (ls + [l])[0] == ls[0] && (ls + [l])[1..] == ls[1..] + [l];
    }
  }

  ghost predicate WorldOk(w: World) {
    && Inv(w.sys) && OrderOk(w.sys, w.log) && FateOk(w.sys, w.ledger) && TurnOk(w.sys, w.log, w.ledger) &&
      LeaseOk(w.sys, w.book)
    && WithinPeaks(w.sys, w.peaks) && NetOk(w.sys, w.net) && RepliesOk(w.sys, w.net)
  }

  lemma StartOk()
    ensures WorldOk(START)
  {
    var s := Protocol.INIT;
    assert Inv(s);
    assert Ids(s.pool.store) == [] == UpTo(0);
    assert OrderOk(s, Order.BLANK);
    assert FateOk(s, START.ledger) && LeaseOk(s, START.book);
    assert NetOk(s, Wire.SILENCE);
  }

  lemma StepOk(w: World, l: Label)
    requires WorldOk(w) && CanStep(w, l)
    ensures WorldOk(Step(w, l))
  {
    StepKeeps(w.sys, l);
    OrderKeeps(w.sys, w.log, l);
    FateKeeps(w.sys, w.ledger, l);
    TurnKeeps(w.sys, w.log, w.ledger, l);
    LeaseKeeps(w.sys, w.book, l);
    PeaksKeep(w.sys, w.peaks, l);
    NetKeeps(w.sys, w.net, l);
    RepliesKeep(w.sys, w.net, l);
  }

  lemma {:induction false} RunOk(w: World, ls: seq<Label>)
    requires WorldOk(w) && IsRun(w, ls)
    ensures WorldOk(Run(w, ls))
    decreases ls
  {
    if ls != [] {
      StepOk(w, ls[0]);
      RunOk(Step(w, ls[0]), ls[1..]);
    }
  }

  /** The state a run from the start ends in. */
  ghost predicate Reachable(w: World) {
    exists ls :: IsRun(START, ls) && Run(START, ls) == w
  }

  lemma ReachableOk(w: World)
    requires Reachable(w)
    ensures WorldOk(w)
  {
    var ls :| IsRun(START, ls) && Run(START, ls) == w;
    StartOk();
    RunOk(START, ls);
  }

  predicate Quiescent(s: Sys) {
    forall i :: 0 <= i < |s.stmts| ==> s.stmts[i].phase.Done?
  }

  // ----- no leak

  /** The first stored transaction belongs to a statement still in flight. */
  lemma HeadHasOwner(s: Sys) returns (i: nat)
    requires Inv(s) && s.pool.store != []
    ensures i < |s.stmts| && Open(s.stmts[i]) && s.stmts[i].txn == Some(s.pool.store[0].id)
  {
    assert TxnOk(s, s.pool.store[0]);
    i := s.own[s.pool.store[0].conn].stmt;
  }

  /** An active connection is held by a statement in flight or by a stored transaction. */
  lemma ActiveIsClaimed(s: Sys)
    requires Inv(s) && s.pool.active != []
    ensures s.pool.store != [] || !Quiescent(s)
  {
    var c := s.pool.active[0];
    assert c in s.own;
    assert RoleOk(s, c);
  }

  /** Once no statement is in flight the pool holds no transaction and no active connection, every
      transaction has had exactly one commit attempt, and every get has been answered by one return. */
  lemma NothingLeaks(w: World)
    requires Reachable(w) && Quiescent(w.sys)
    ensures w.sys.pool.store == [] && w.sys.pool.active == []
    ensures NoDup(w.ledger.attempted) && forall id :: 1 <= id <= w.sys.pool.txnSeq <==> id in w.ledger.attempted
    ensures NoDup(w.book.returned) && forall i :: 0 <= i < |w.sys.stmts| <==> i in w.book.returned
  {
    ReachableOk(w);
    var s := w.sys;
    if s.pool.store != [] { var i := HeadHasOwner(s); }
    if s.pool.active != [] { ActiveIsClaimed(s); }
    forall id | 1 <= id <= s.pool.txnSeq ensures id in w.ledger.attempted { assert FateTrue(s, w.ledger, id); }
  }

  // ----- single ownership

  /** Statement i works on connection c: its own, or one whose commit it drained and has not yet given back. */
  ghost predicate Operates(s: Sys, i: nat, c: nat) {
    && !At(s, i).Done?
    && (s.stmts[i].conn == c ||
        (At(s, i).Committing? && exists k :: At(s, i).next <= k < |At(s, i).batch| && At(s, i).batch[k].conn == c))
  }

  lemma OperatorHoldsRole(s: Sys, i: nat, c: nat)
    requires Inv(s) && Operates(s, i, c)
    ensures c in s.own && !s.own[c].Nobody? && s.own[c].stmt == i
  {
    assert StmtOk(s, i);
  }

  lemma StoredConnection(s: Sys, k: nat)
    requires Inv(s) && k < |s.pool.store|
    ensures var t := s.pool.store[k];
            && t.conn in s.pool.active
            && (t.ready ==> forall i :: !Operates(s, i, t.conn))
            && (!t.ready ==> exists i :: Operates(s, i, t.conn))
  {
    var t := s.pool.store[k];
    assert TxnOk(s, t);
    if t.ready {
      forall i ensures !Operates(s, i, t.conn) { if Operates(s, i, t.conn) { OperatorHoldsRole(s, i, t.conn); } }
    } else {
      assert RoleOk(s, t.conn);
      assert Operates(s, s.own[t.conn].stmt, t.conn);
    }
  }

  lemma StoredApart(s: Sys, j: nat, k: nat)
    requires Inv(s) && j < k < |s.pool.store|
    ensures s.pool.store[j].conn != s.pool.store[k].conn
  {
    assert TxnOk(s, s.pool.store[j]) && TxnOk(s, s.pool.store[k]);
  }

  /** Every handle names a live connection, and no connection has two operators. */
  lemma OneOperator(w: World, i: nat, j: nat, c: nat)
    requires Reachable(w) && Operates(w.sys, i, c)
    ensures c in w.sys.pool.active && c !in w.sys.pool.ready
    ensures Operates(w.sys, j, c) ==> i == j
  {
    ReachableOk(w);
    OperatorHoldsRole(w.sys, i, c);
    if Operates(w.sys, j, c) { OperatorHoldsRole(w.sys, j, c); }
  }

  /** Stored transactions name distinct active connections, and one has an operator exactly while
      its transaction is unfinished: a deferred connection belongs to nobody. */
  lemma DeferredHasNoOperator(w: World, j: nat, k: nat)
    requires Reachable(w) && j < |w.sys.pool.store| && k < |w.sys.pool.store|
    ensures w.sys.pool.store[k].conn in w.sys.pool.active
    ensures w.sys.pool.store[k].ready <==> forall i :: !Operates(w.sys, i, w.sys.pool.store[k].conn)
    ensures w.sys.pool.store[j].conn == w.sys.pool.store[k].conn ==> j == k
  {
    ReachableOk(w);
    StoredConnection(w.sys, k);
    if j < k { StoredApart(w.sys, j, k); } else if k < j { StoredApart(w.sys, k, j); }
  }

  // ----- order

  /** Without force_commit the drained batches, one after another, and then the store are the
      transactions in creation order; with it nothing is lost or repeated and each part stays in order. */
  lemma DrainedInCreationOrder(w: World)
    requires Reachable(w)
    ensures w.log.forced == [] ==> Flatten(w.log.drained) + Ids(w.sys.pool.store) == UpTo(w.sys.pool.txnSeq)
    ensures multiset(Flatten(w.log.drained)) + multiset(w.log.forced) + multiset(Ids(w.sys.pool.store)) ==
        multiset(UpTo(w.sys.pool.txnSeq))
    ensures Increasing(Ids(w.sys.pool.store)) && forall b :: 0 <= b < |w.log.drained| ==> Increasing(w.log.drained[b])
  {
    ReachableOk(w);
  }

  /** The pool's lists refine in-order retirement. */
  lemma RetiredInOrder(w: World, id: nat)
    requires Reachable(w) && 1 <= id <= w.sys.pool.txnSeq
    ensures AllFinishedUpTo(w.log, id) ==> HandedOut(w.sys, id)
    ensures w.log.forced == [] ==> (HandedOut(w.sys, id) <==> AllFinishedUpTo(w.log, id))
  {
    ReachableOk(w);
    HandOutIsInOrder(w.sys, w.log, id);
  }

  /** No stranded commit: every stored transaction waits for one created no later whose statement
      is in flight and has yet to come through get_uncommited. */
  lemma NobodyIsStranded(w: World, id: nat) returns (i: nat)
    requires Reachable(w) && Stored(w.sys, id)
    ensures i < |w.sys.stmts| && Open(w.sys.stmts[i]) && 1 <= w.sys.stmts[i].txn.value <= id
    ensures w.sys.pool.store[0].id == w.sys.stmts[i].txn.value && !w.sys.pool.store[0].ready
  {
    ReachableOk(w);
    var j := StoredWaitsForUnfinished(w.sys, w.log, id);
    i := HeadHasOwner(w.sys);
  }

  /** Every created transaction is in exactly one place, and no commit is attempted twice. */
  lemma CommittedAtMostOnce(w: World, id: nat)
    requires Reachable(w) && 1 <= id <= w.sys.pool.txnSeq
    ensures Stored(w.sys, id) || (exists i :: Pending(w.sys, i, id)) || id in w.ledger.attempted
    ensures !(Stored(w.sys, id) && id in w.ledger.attempted)
    ensures forall i :: Pending(w.sys, i, id) ==> !Stored(w.sys, id) && id !in w.ledger.attempted
    ensures forall i, j :: Pending(w.sys, i, id) && Pending(w.sys, j, id) ==> i == j
    ensures NoDup(w.ledger.attempted)
  {
    ReachableOk(w);
    OnePlacePerTransaction(w.sys, w.ledger, id);
  }

  // ----- the order of COMMITs

  /** Within a batch COMMITs are attempted in creation order: none before those that precede it there. */
  lemma BatchAttemptedInOrder(w: World, d: nat, j: nat, k: nat)
    requires Reachable(w) && d < |w.log.drained| && j < k < |w.log.drained[d]|
    ensures w.log.drained[d][j] < w.log.drained[d][k]
    ensures w.log.drained[d][k] in w.ledger.attempted ==>
        Before(w.ledger.attempted, w.log.drained[d][j], w.log.drained[d][k])
  {
    ReachableOk(w);
    assert InTurn(w.log.drained[d], w.ledger.attempted) && Increasing(w.log.drained[d]);
  }

  /** Statement i is about to attempt the COMMIT of its current transaction. */
  predicate AboutToCommit(w: World, i: nat) {
    InBatch(w.sys, i) && At(w.sys, i).stage.ToSend?
  }

  /** A number that is overtaken, earlier than the current one and not yet attempted, has been drained
      into another statement's batch, which does not contain the overtaker. */
  lemma OvertakenIsPending(w: World, i: nat, a: nat) returns (j: nat)
    requires Reachable(w) && AboutToCommit(w, i) && 1 <= a < Current(w.sys, i).id && a !in w.ledger.attempted
    ensures j != i && Pending(w.sys, j, a) && Current(w.sys, i).id !in Ids(At(w.sys, j).batch)
  {
    ReachableOk(w);
    j := OvertakenBy(w.sys, w.log, w.ledger, i, a);
  }

  lemma OvertakenBy(s: Sys, o: Log, f: Ledger, i: nat, a: nat) returns (j: nat)
    requires Inv(s) && FateOk(s, f) && TurnOk(s, o, f) && InBatch(s, i) && At(s, i).stage.ToSend?
    requires 1 <= a < Current(s, i).id && a !in f.attempted
    ensures j != i && Pending(s, j, a) && Current(s, i).id !in Ids(At(s, j).batch)
  {
    var b, next := Current(s, i).id, At(s, i).next;
    assert StmtOk(s, i) && BatchFate(s, f, i) && BatchTurn(s, f, i);
    assert FateTrue(s, f, a) && f.at[b] == Batched(i);
    assert !Stored(s, a) by { NotStored(s, f, i, a); }
    j := f.at[a].stmt;
    if j == i { NotOwn(s, i, a); }
    assert BatchTurn(s, f, j);
    OtherBatch(s, f, i, j);
  }

  /** What precedes a drained number is no longer stored. */
  lemma NotStored(s: Sys, f: Ledger, i: nat, a: nat)
    requires BatchTurn(s, f, i) && InBatch(s, i) && a < Current(s, i).id
    ensures !Stored(s, a)
  {
    forall m | 0 <= m < |s.pool.store| ensures s.pool.store[m].id != a {
      assert At(s, i).batch[At(s, i).next].id < s.pool.store[m].id;
    }
  }

  lemma NotOwn(s: Sys, i: nat, a: nat)
    requires Inv(s) && InBatch(s, i) && At(s, i).stage.ToSend? && a < Current(s, i).id
    ensures !Pending(s, i, a)
  {
    assert StmtOk(s, i);
  }

  lemma OtherBatch(s: Sys, f: Ledger, i: nat, j: nat)
    requires Inv(s) && FateOk(s, f) && InBatch(s, i) && At(s, i).stage.ToSend? && j != i && j < |s.stmts| &&
        At(s, j).Committing?
    requires forall k :: 0 <= k < Unsent(At(s, j)) && k < |At(s, j).batch| ==> At(s, j).batch[k].id in f.attempted
    ensures Current(s, i).id !in Ids(At(s, j).batch)
  {
    var b := Current(s, i).id;
    assert BatchFate(s, f, i) && BatchFate(s, f, j);
    forall k | 0 <= k < |At(s, j).batch| ensures At(s, j).batch[k].id != b { assert f.at[b] == Batched(i); }
  }

  /** The next COMMIT is in creation order over the whole pool, with every earlier one attempted, if and
      only if no other statement still holds an earlier transaction in its batch. Batches are drained in
      order, but nothing orders the COMMITs of two drainers. */
  lemma CommitInTurnIff(w: World, i: nat)
    requires Reachable(w) && AboutToCommit(w, i)
    ensures (forall a :: 1 <= a < Current(w.sys, i).id ==> a in w.ledger.attempted) <==>
            (forall j, a :: j != i && Pending(w.sys, j, a) ==> Current(w.sys, i).id < a)
  {
    ReachableOk(w);
    var b := Current(w.sys, i).id;
    assert Pending(w.sys, i, b);
    if forall a :: 1 <= a < b ==> a in w.ledger.attempted {
      forall j, a | j != i && Pending(w.sys, j, a) ensures b < a { LaterIfPending(w.sys, w.ledger, i, j, a); }
    }
    if forall j, a :: j != i && Pending(w.sys, j, a) ==> b < a {
      forall a | 1 <= a < b ensures a in w.ledger.attempted {
        if a !in w.ledger.attempted { var j := OvertakenBy(w.sys, w.log, w.ledger, i, a); }
      }
    }
  }

  lemma LaterIfPending(s: Sys, f: Ledger, i: nat, j: nat, a: nat)
    requires Inv(s) && FateOk(s, f) && InBatch(s, i) && At(s, i).stage.ToSend? && j != i && Pending(s, j, a)
    requires forall x :: 1 <= x < Current(s, i).id ==> x in f.attempted
    ensures Current(s, i).id < a
  {
    assert BatchFate(s, f, i) && BatchFate(s, f, j);
    assert f.at[Current(s, i).id] == Batched(i) && f.at[a] == Batched(j);
  }

  /** So far every COMMIT was attempted in creation order, without a gap. */
  ghost predicate InCreationOrder(w: World) {
    w.ledger.attempted == UpTo(|w.ledger.attempted|)
  }

  /** The attempts stay in creation order if and only if no other statement holds an earlier transaction. */
  lemma OrderStaysIff(w: World, i: nat, io: Io)
    requires Reachable(w) && CanStep(w, SendCommit(i, io)) && InCreationOrder(w)
    ensures InCreationOrder(Step(w, SendCommit(i, io))) <==>
            (forall j, a :: j != i && Pending(w.sys, j, a) ==> Current(w.sys, i).id < a)
  {
    CommitInTurnIff(w, i);
    ReachableOk(w);
    CurrentIsNew(w.sys, w.ledger, i);
    AppendedInOrder(w.ledger.attempted, Current(w.sys, i).id);
    assert Step(w, SendCommit(i, io)).ledger.attempted == w.ledger.attempted + [Current(w.sys, i).id];
  }

  lemma CurrentIsNew(s: Sys, f: Ledger, i: nat)
    requires Inv(s) && FateOk(s, f) && InBatch(s, i) && At(s, i).stage.ToSend?
    ensures 1 <= Current(s, i).id && Current(s, i).id !in f.attempted
  {
    assert StmtOk(s, i) && BatchFate(s, f, i);
  }

  lemma AppendedInOrder(attempted: seq<nat>, b: nat)
    requires attempted == UpTo(|attempted|) && 1 <= b && b !in attempted
    ensures attempted + [b] == UpTo(|attempted| + 1) <==> forall a :: 1 <= a < b ==> a in attempted
  {
    var n := |attempted|;
    forall a | 1 <= a <= n ensures a in attempted { assert UpTo(n)[a - 1] == a; }
    if b != n + 1 {
      assert n + 1 !in attempted;
      assert (attempted + [b])[n] == b && UpTo(n + 1)[n] == n + 1;
    }
  }

  /** Each get is answered by at most one return, never by both the drainer and the owner. */
  lemma ReturnedAtMostOnce(w: World, i: nat)
    requires Reachable(w) && i < |w.sys.stmts|
    ensures NoDup(w.book.returned)
    ensures i in w.book.returned <==> !Outstanding(w.book, i)
    ensures !At(w.sys, i).Done? ==> i !in w.book.returned
  {
    ReachableOk(w);
    if !At(w.sys, i).Done? { assert StmtOk(w.sys, i); }
  }

  // ----- erasing a pool

  /** store::erase tests only the number of active connections, and that is enough: nothing is
      stored, no batch is pending and no statement is in flight. */
  lemma EraseLosesNothing(w: World)
    requires Reachable(w)
    ensures w.sys.pool.active == [] <==> Quiescent(w.sys)
    ensures w.sys.pool.active == [] ==> w.sys.pool.store == [] && forall i, id :: !Pending(w.sys, i, id)
    ensures w.sys.pool.active == [] ==> forall id :: 1 <= id <= w.sys.pool.txnSeq ==> id in w.ledger.attempted
  {
    ReachableOk(w);
    var s := w.sys;
    if s.pool.active == [] {
      forall i | 0 <= i < |s.stmts| ensures s.stmts[i].phase.Done? { assert StmtOk(s, i); }
      NothingLeaks(w);
    } else if Quiescent(s) {
      NothingLeaks(w);
    }
  }

  // ----- force_commit

  /** From w to w' the finished transactions are taken and attempted, and their connections leave the
      active list, each once; the other transactions stay, in order. */
  ghost predicate TakesTheReady(w: World, w': World) {
    var store := w.sys.pool.store;
    && (forall t :: t in w'.sys.pool.store <==> t in store && !t.ready) && Ordered(w'.sys.pool.store)
    && |store| - |w'.sys.pool.store| == |ReadyOnes(store)|
    && (forall t :: t in store && t.ready ==> t.conn !in w'.sys.pool.active && t.id in w'.ledger.attempted)
    && |w'.sys.pool.active| == |w.sys.pool.active| - |ReadyOnes(store)|
  }

  /** force_commit takes exactly the ready transactions, keeps the others in order, and gives each
      taken connection back once, so that none of them stays active. */
  lemma ForceTakesTheReady(w: World, l: Label)
    requires Reachable(w) && CanStep(w, l) && l.ForceCommit?
    ensures TakesTheReady(w, Step(w, l))
  {
    ReachableOk(w);
    ForceTakes(w, l);
  }

  lemma ForceTakes(w: World, l: Label)
    requires Inv(w.sys) && CanStep(w, l) && l.ForceCommit?
    ensures TakesTheReady(w, Step(w, l))
  {
    ForceEmpties(w.sys, l);
    ForceAttempts(w.sys, w.ledger, l);
  }

  lemma ForceAttempts(s: Sys, f: Ledger, l: Label)
    requires Enabled(s, l) && l.ForceCommit?
    ensures forall t :: t in s.pool.store && t.ready ==> t.id in RecordFate(s, f, l).attempted
  {
    var f' := RecordFate(s, f, l);
    assert f'.attempted == f.attempted + Ids(ReadyOnes(s.pool.store));
    forall t | t in s.pool.store && t.ready ensures t.id in f'.attempted { ForcedId(s.pool.store, t); }
  }

  lemma ForceEmpties(s: Sys, l: Label)
    requires Inv(s) && Enabled(s, l) && l.ForceCommit?
    ensures var store, pool' := s.pool.store, Apply(s, l).pool;
            && (forall t :: t in pool'.store <==> t in store && !t.ready) && Ordered(pool'.store)
            && |store| - |pool'.store| == |ReadyOnes(store)|
            && |pool'.active| == |s.pool.active| - |ReadyOnes(store)|
            && (forall t :: t in store && t.ready ==> t.conn !in pool'.active)
  {
    ForceKeeps(s, l);
    UnreadyAre(s.pool.store);
    ForceFrees(s, l);
  }

  lemma UnreadyAre(store: seq<Txn<nat>>)
    ensures forall t :: t in Unready(store) <==> t in store && !t.ready
    ensures |store| - |Unready(store)| == |ReadyOnes(store)|
  {
    SplitByReady(store);
  }

  lemma ForceFrees(s: Sys, l: Label)
    requires Inv(s) && Enabled(s, l) && l.ForceCommit?
    ensures |Apply(s, l).pool.active| == |s.pool.active| - |ReadyOnes(s.pool.store)|
    ensures forall t :: t in s.pool.store && t.ready ==> t.conn !in Apply(s, l).pool.active
  {
    var store := s.pool.store;
    DeferredApart(s);
    GiveBackAllSeparates(s.pool.(store := Unready(store)), Conns(ReadyOnes(store)), l.alive, l.poolSockets);
    forall t | t in store && t.ready ensures t.conn !in Apply(s, l).pool.active { ForcedConn(store, t); }
  }

  lemma ForcedId(store: seq<Txn<nat>>, t: Txn<nat>)
    requires t in store && t.ready
    ensures t.id in Ids(ReadyOnes(store))
  {
    SplitByReady(store);
    var k :| 0 <= k < |ReadyOnes(store)| && ReadyOnes(store)[k] == t;
    assert Ids(ReadyOnes(store))[k] == t.id;
  }

  // ----- sockets

  /** Active and idle sockets together never exceed the largest limit in force at any get so far. */
  lemma SocketsBounded(w: World)
    requires Reachable(w)
    ensures |w.sys.pool.active| + |w.sys.pool.ready| <= w.peaks.sockets
    ensures |w.sys.pool.ready| <= w.peaks.idle
  {
    ReachableOk(w);
  }

  lemma {:induction false} PeaksWithin(w: World, ls: seq<Label>, limit: nat)
    requires IsRun(w, ls) && w.peaks.sockets <= limit
    requires forall k :: 0 <= k < |ls| && ls[k].Arrive? ==> ls[k].maxSockets <= limit
    ensures Run(w, ls).peaks.sockets <= limit
    decreases ls
  {
    if ls != [] { PeaksWithin(Step(w, ls[0]), ls[1..], limit); }
  }

  /** Transaction bracketing: on every socket SEND t lies after BEGIN t and before COMMIT t, and as long
      as every COMMIT attempt on an open socket was written whole, no frame on it was cut. */
  lemma EverySocketBracketed(w: World)
    requires Reachable(w)
    ensures forall c :: c in w.net.open ==> Bracketed(w.net.open[c].frames)
    ensures forall k :: 0 <= k < |w.net.closed| ==> Bracketed(w.net.closed[k].frames)
    ensures forall c :: c in w.net.open && w.net.open[c].whole ==> Torn !in w.net.open[c].frames
  {
    ReachableOk(w);
    forall c | c in w.net.open && w.net.open[c].whole ensures Torn !in w.net.open[c].frames {
      ScanHasNoTorn(w.net.open[c].frames);
    }
  }

  lemma IdleStance(w: World, c: nat)
    requires Inv(w.sys) && NetOk(w.sys, w.net) && c in w.net.open && c in w.sys.pool.ready
    ensures InStep(Idle, w.net.open[c].whole, w.net.open[c].frames)
  {
    assert c !in w.sys.own;
    assert StanceOf(w.sys, c) == Idle;
  }

  /** Socket by socket, in every run: a waiting socket carries complete BEGIN t, SEND t ..., COMMIT t
      blocks, LOGON and plain SENDs, and nothing else, if and only if every COMMIT attempt made on it
      was written whole. Only a COMMIT can leave a live socket out of step. */
  lemma IdleSocketCompleteIffCommitsWhole(w: World, c: nat)
    requires Reachable(w) && c in w.net.open && c in w.sys.pool.ready
    ensures (exists us :: w.net.open[c].frames == Frames(us)) <==> w.net.open[c].whole
  {
    ReachableOk(w);
    IdleStance(w, c);
    var fs := w.net.open[c].frames;
    if w.net.open[c].whole { var us, sends := ScanDecomposes(fs); }
    if us :| fs == Frames(us) { UnitsScan(us); }
  }

  /** A socket in use whose COMMIT attempts were written whole carries complete units and at most one
      open block. */
  lemma LiveSocketIsBlocks(w: World, c: nat) returns (us: seq<Unit>, sends: nat)
    requires Reachable(w) && c in w.net.open && w.net.open[c].whole
    ensures Reads(w.net.open[c].frames, Scan(w.net.open[c].frames), us, sends)
  {
    ReachableOk(w);
    assert SockFits(Stances(w.sys, w.net)[c], w.sys.pool.txnSeq, w.net.open[c]);
    us, sends := ScanDecomposes(w.net.open[c].frames);
  }

  /** In an error-free run every socket carries whole BEGIN t, SEND t ..., COMMIT t blocks and plain
      SENDs, the last block perhaps still open; idle and closed sockets carry complete blocks only. */
  lemma ErrorFreeSocketIsBlocks(w: World, c: nat) returns (us: seq<Unit>, sends: nat)
    requires Reachable(w) && w.net.clean && c in w.net.open
    ensures Reads(w.net.open[c].frames, Scan(w.net.open[c].frames), us, sends)
    ensures c in w.sys.pool.ready ==> w.net.open[c].frames == Frames(us)
    ensures forall k :: 0 <= k < |w.net.closed| ==> Scan(w.net.closed[k].frames) == Outside
  {
    ReachableOk(w);
    us, sends := LiveSocketIsBlocks(w, c);
    if c in w.sys.pool.ready { IdleStance(w, c); }
  }

  /** In a batch of two or more each COMMIT is sent only after the receipts for all before it have
      arrived: each COMMIT's own receipt, unless that COMMIT failed, lost its socket, or went out on a
      socket where an earlier COMMIT had failed. In an error-free run there is no such trouble. */
  lemma CommitsWaitForReplies(w: World, i: nat, k: nat)
    requires Reachable(w) && InBatch(w.sys, i) && |At(w.sys, i).batch| > 1
    requires At(w.sys, i).stage.ToSend? && k < At(w.sys, i).next
    ensures var t := At(w.sys, i).batch[k].id; t in w.net.replied || t in w.net.troubled
    ensures w.net.clean ==> w.net.troubled == {}
  {
    ReachableOk(w);
    assert BatchReplied(w.sys, w.net, i);
  }

  /** Between exchanges no receipt is outstanding on a socket on which no COMMIT has failed. */
  lemma NothingOutstanding(w: World, c: nat)
    requires Reachable(w) && c in w.net.open && !w.net.open[c].soured && !StanceOf(w.sys, c).Awaiting?
    ensures w.net.open[c].due == {}
  {
    ReachableOk(w);
    assert SockFits(Stances(w.sys, w.net)[c], w.sys.pool.txnSeq, w.net.open[c]);
  }
}
