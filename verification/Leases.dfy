/** Every connection a pool hands out comes back once, and how many sockets a pool may use. */
module Leases {
  import opened Prelude
  import opened PoolLists
  import opened Protocol
  import opened Ownership

  /** `held` says which statement's get an active connection answers; `returned` lists the
      statements whose connection has been given back, in order. */
  datatype Book = Book(held: map<nat, nat>, returned: seq<nat>)

  function Return(e: Book, c: nat): Book {
    if c in e.held then Book(e.held - {c}, e.returned + [e.held[c]]) else e
  }

  function ReturnAll(e: Book, cs: seq<nat>): Book
    decreases cs
  {
    if cs == [] then e else ReturnAll(Return(e, cs[0]), cs[1..])
  }

  function RecordLease(s: Sys, e: Book, l: Label): Book
    requires Enabled(s, l)
  {
    match l
    case Arrive(_, _, _, _) => e.(held := e.held[Chosen(s.pool, s.nextConn) := |s.stmts|])
    case NextCommit(i, _, _) =>
      var c := Current(s, i).conn;
      if c == s.stmts[i].conn then e else Return(e, c)
    case Release(i, _, _) => Return(e, s.stmts[i].conn)
    case ForceCommit(_, _, _) => ReturnAll(e, Conns(ReadyOnes(s.pool.store)))
    case _ => e
  }

  ghost predicate Outstanding(e: Book, i: nat) {
    exists c :: c in e.held && e.held[c] == i
  }

  /** Of n gets, each is either still answered by exactly one active connection or was returned once. */
  ghost predicate Balanced(keys: set<nat>, n: nat, e: Book) {
    && e.held.Keys == keys
    && (forall c, d :: c in e.held && d in e.held && e.held[c] == e.held[d] ==> c == d)
    && (forall c :: c in e.held ==> e.held[c] < n && e.held[c] !in e.returned)
    && NoDup(e.returned) && (forall i :: i in e.returned ==> i < n)
    && (forall i :: 0 <= i < n ==> i in e.returned || Outstanding(e, i))
  }

  ghost predicate LeaseOk(s: Sys, e: Book) {
    && Balanced(s.own.Keys, |s.stmts|, e)
    && (forall c :: c in s.own && s.own[c].Owner? ==> c in e.held && e.held[c] == s.own[c].stmt)
  }

  lemma ReturnBalances(keys: set<nat>, n: nat, e: Book, c: nat)
    requires Balanced(keys, n, e) && c in keys
    ensures Balanced(keys - {c}, n, Return(e, c))
    ensures forall d :: d in keys - {c} ==> Return(e, c).held[d] == e.held[d]
  {
    var e' := Return(e, c);
    forall i | 0 <= i < n ensures i in e'.returned || Outstanding(e', i) {
      if i in e.returned {
        assert i in e'.returned;
      } else {
        var d :| d in e.held && e.held[d] == i;
        if d == c { assert e'.returned[|e.returned|] == i; } else { assert d in e'.held; }
      }
    }
  }

  lemma {:induction false} ReturnAllBalances(n: nat, e: Book, cs: seq<nat>)
    requires Balanced(e.held.Keys, n, e) && NoDup(cs) && forall c :: c in cs ==> c in e.held
    ensures var e' := ReturnAll(e, cs);
            && Balanced(e'.held.Keys, n, e')
            && (forall d :: d in e'.held <==> d in e.held && d !in cs)
            && (forall d :: d in e'.held ==> e'.held[d] == e.held[d])
    decreases cs
  {
    if cs != [] {
      var c, rest := cs[0], cs[1..];
      ReturnBalances(e.held.Keys, n, e, c);
      assert cs == [c] + rest && c !in rest;
      var e1 := Return(e, c);
      assert e1.held.Keys == e.held.Keys - {c};
      ReturnAllBalances(n, e1, rest);
    }
  }

  /** Giving back connection c on both sides. */
  lemma LeaseReturn(s: Sys, s': Sys, e: Book, c: nat)
    requires LeaseOk(s, e) && c in s.own && s'.own == s.own - {c} && |s'.stmts| == |s.stmts|
    ensures LeaseOk(s', Return(e, c))
  {
    ReturnBalances(s.own.Keys, |s.stmts|, e, c);
    assert s'.own.Keys == s.own.Keys - {c};
  }

  /** Giving back several connections on both sides. */
  lemma LeaseReturnAll(s: Sys, s': Sys, e: Book, cs: seq<nat>)
    requires LeaseOk(s, e) && |s'.stmts| == |s.stmts|
    requires NoDup(cs) && (forall c :: c in cs ==> c in s.own)
    requires s'.own == s.own - set c | c in cs
    ensures LeaseOk(s', ReturnAll(e, cs))
  {
    ReturnAllBalances(|s.stmts|, e, cs);
    assert s'.own.Keys == ReturnAll(e, cs).held.Keys;
  }

  lemma LeaseForce(s: Sys, e: Book, l: Label)
    requires Inv(s) && LeaseOk(s, e) && Enabled(s, l) && l.ForceCommit?
    ensures LeaseOk(Apply(s, l), RecordLease(s, e, l))
  {
    DeferredApart(s);
    LeaseReturnAll(s, Apply(s, l), e, Conns(ReadyOnes(s.pool.store)));
  }

  lemma LeaseFinish(s: Sys, e: Book, l: Label)
    requires Inv(s) && LeaseOk(s, e) && Enabled(s, l) && l.Finish?
    ensures LeaseOk(Apply(s, l), e)
  {
    var s' := Apply(s, l);
    assert StmtOk(s, l.stmt);
    assert s'.own.Keys == s.own.Keys;
    assert forall c :: c in s'.own && s'.own[c].Owner? ==> s.own[c] == s'.own[c];
  }

  lemma LeaseHandBack(s: Sys, e: Book, l: Label)
    requires Inv(s) && LeaseOk(s, e) && Enabled(s, l) && (l.NextCommit? || l.Release?)
    ensures LeaseOk(Apply(s, l), RecordLease(s, e, l))
  {
    assert StmtOk(s, l.stmt);
    var c := if l.Release? then s.stmts[l.stmt].conn else Current(s, l.stmt).conn;
    if l.Release? || c != s.stmts[l.stmt].conn { LeaseReturn(s, Apply(s, l), e, c); }
  }

  lemma LeaseKeeps(s: Sys, e: Book, l: Label)
    requires Inv(s) && LeaseOk(s, e) && Enabled(s, l)
    ensures LeaseOk(Apply(s, l), RecordLease(s, e, l))
  {
    if l.Arrive? {
      LeaseArrive(s, e, l);
    } else if l.NextCommit? || l.Release? {
      LeaseHandBack(s, e, l);
    } else if l.ForceCommit? {
      LeaseForce(s, e, l);
    } else if l.Finish? {
      LeaseFinish(s, e, l);
    } else {
      assert Apply(s, l).own == s.own && |Apply(s, l).stmts| == |s.stmts|;
    }
  }

  /** A new get on a connection that answers none. */
  lemma LendBalances(keys: set<nat>, n: nat, e: Book, c: nat)
    requires Balanced(keys, n, e) && c !in keys
    ensures Balanced(keys + {c}, n + 1, e.(held := e.held[c := n]))
  {
    var e' := e.(held := e.held[c := n]);
    assert c in e'.held && e'.held[c] == n;
    forall i | 0 <= i < n + 1 ensures i in e'.returned || Outstanding(e', i) {
      if i < n && i !in e.returned {
        var d :| d in e.held && e.held[d] == i;
        assert d in e'.held && e'.held[d] == i;
      }
    }
  }

  /** The connection that get chooses is not active. */
  lemma FreshOrIdle(s: Sys)
    requires ListsOk(s)
    ensures Chosen(s.pool, s.nextConn) !in s.own
  {
    GetSeparates(s.pool, s.nextConn);
  }

  lemma LeaseArrive(s: Sys, e: Book, l: Label)
    requires Inv(s) && LeaseOk(s, e) && l.Arrive? && Enabled(s, l)
    ensures LeaseOk(Apply(s, l), RecordLease(s, e, l))
  {
    FreshOrIdle(s);
    LeaseLend(s, Apply(s, l), e, Chosen(s.pool, s.nextConn));
  }

  lemma LeaseLend(s: Sys, s': Sys, e: Book, c: nat)
    requires LeaseOk(s, e) && c !in s.own && s'.own == s.own[c := Owner(|s.stmts|)] && |s'.stmts| == |s.stmts| + 1
    ensures LeaseOk(s', e.(held := e.held[c := |s.stmts|]))
  {
    LendBalances(s.own.Keys, |s.stmts|, e, c);
    assert s'.own.Keys == s.own.Keys + {c};
  }

  // ----- sockets

  /** The largest max_pool_sockets and pool_sockets the pool has been run with. */
  datatype Peaks = Peaks(sockets: nat, idle: nat)

  function Max(a: nat, b: nat): nat {
    if a < b then b else a
  }

  function RecordPeaks(p: Peaks, l: Label): Peaks {
    match l
    case Arrive(_, _, _, maxSockets) => p.(sockets := Max(p.sockets, maxSockets))
    case NextCommit(_, _, poolSockets) => p.(idle := Max(p.idle, poolSockets))
    case Release(_, _, poolSockets) => p.(idle := Max(p.idle, poolSockets))
    case ForceCommit(_, poolSockets, _) => p.(idle := Max(p.idle, poolSockets))
    case _ => p
  }

  /** Reuse checks no limit, yet the limit holds of active and idle sockets together. */
  ghost predicate WithinPeaks(s: Sys, p: Peaks) {
    |s.pool.active| + |s.pool.ready| <= p.sockets && |s.pool.ready| <= p.idle
  }

  lemma PeaksKeep(s: Sys, p: Peaks, l: Label)
    requires Inv(s) && WithinPeaks(s, p) && Enabled(s, l)
    ensures WithinPeaks(Apply(s, l), RecordPeaks(p, l))
  {
    match l {
      case NextCommit(i, good, poolSockets) =>
        assert StmtOk(s, i);
        var c := Current(s, i).conn;
        if c != s.stmts[i].conn { GiveBackSeparates(s.pool, c, good, poolSockets); }
      case Release(i, good, poolSockets) =>
        assert StmtOk(s, i);
        GiveBackSeparates(s.pool, s.stmts[i].conn, good, poolSockets);
      case ForceCommit(alive, poolSockets, _) =>
        DeferredApart(s);
        GiveBackAllSeparates(s.pool.(store := Unready(s.pool.store)), Conns(ReadyOnes(s.pool.store)), alive,
          poolSockets);
      case _ =>
    }
  }
}
