/** A run in which COMMITs leave in the opposite order to their transactions. */
module Overtaking {
  import opened Prelude
  import opened PoolLists
  import opened Endpoint
  import Order
  import opened Protocol
  import opened Wire
  import opened Runs
  import opened Mishaps

  /** Two statements at once, on connections 0 and 1 of an otherwise empty pool. */
  function Pair(u: Uri, txns: seq<Option<nat>>, store: seq<Txn<nat>>, seqNo: nat, p: Phase, q: Phase): Sys
    requires |txns| == 2
  {
    Sys(Lists([1, 0], [], store, seqNo), 2,
        [Stmt(TRANSACTIONAL, u, 0, txns[0], 0, p), Stmt(TRANSACTIONAL, u, 1, txns[1], 0, q)],
        map[0 := Owner(0), 1 := Owner(1)])
  }

  /** Nothing has failed or been forced, both sockets are open, and these COMMITs were attempted. */
  predicate Fine(w: World, s: Sys, attempted: seq<nat>) {
    w.sys == s && w.ledger.attempted == attempted && w.log.forced == [] && w.net.clean && 0 in w.net.open &&
      1 in w.net.open
  }

  const NONE: seq<Option<nat>> := [None, None]
  const BOTH: seq<Option<nat>> := [Some(1), Some(2)]

  function First(ready: bool): Txn<nat> { Txn(1, ready, 0) }

  function Second(ready: bool): Txn<nat> { Txn(2, ready, 1) }

  function Drain(t: Txn<nat>, stage: Stage): Phase {
    Committing([t], 0, false, stage)
  }

  lemma Arrives(u: Uri)
    ensures var l := Arrive(TRANSACTIONAL, u, 0, 2);
            && CanStep(START, l) && CanStep(Step(START, l), l)
            && var w := Step(Step(START, l), l);
               w.sys == Pair(u, NONE, [], 0, Got, Got) && w.net == SILENCE && w.ledger.attempted == [] &&
                 w.log.forced == []
  {
  }

  lemma Connects(w: World, u: Uri)
    requires w.sys == Pair(u, NONE, [], 0, Got, Got) && w.net == SILENCE && w.ledger.attempted == [] &&
        w.log.forced == []
    ensures CanStep(w, Connect(0, Reopened)) && CanStep(Step(w, Connect(0, Reopened)), Connect(1, Reopened))
    ensures Fine(Step(Step(w, Connect(0, Reopened)), Connect(1, Reopened)), Pair(u, NONE, [], 0, Linked, Linked), [])
  {
  }

  lemma FirstBegins(w: World, u: Uri)
    requires Fine(w, Pair(u, NONE, [], 0, Linked, Linked), [])
    ensures CanStep(w, Begin(0)) &&
        Fine(Step(w, Begin(0)), Pair(u, [Some(1), None], [First(false)], 1, Begun, Linked), [])
  {
  }

  lemma SecondBegins(w: World, u: Uri)
    requires Fine(w, Pair(u, [Some(1), None], [First(false)], 1, Begun, Linked), [])
    ensures CanStep(w, Begin(1)) &&
        Fine(Step(w, Begin(1)), Pair(u, BOTH, [First(false), Second(false)], 2, Begun, Begun), [])
  {
    assert [First(false)] + [Second(false)] == [First(false), Second(false)];
  }

  lemma FirstSends(w: World, u: Uri)
    requires Fine(w, Pair(u, BOTH, [First(false), Second(false)], 2, Begun, Begun), [])
    ensures var l := SendBegin(0, SENT);
            CanStep(w, l) && Fine(Step(w, l), Pair(u, BOTH, [First(false), Second(false)], 2, Serving, Begun), [])
  {
  }

  lemma SecondSends(w: World, u: Uri)
    requires Fine(w, Pair(u, BOTH, [First(false), Second(false)], 2, Serving, Begun), [])
    ensures var l := SendBegin(1, SENT);
            CanStep(w, l) && Fine(Step(w, l), Pair(u, BOTH, [First(false), Second(false)], 2, Serving, Serving), [])
  {
  }

  lemma BothEnd(w: World, u: Uri)
    requires Fine(w, Pair(u, BOTH, [First(false), Second(false)], 2, Serving, Serving), [])
    ensures CanStep(w, Deinit(0)) && CanStep(Step(w, Deinit(0)), Deinit(1))
    ensures Fine(Step(Step(w, Deinit(0)), Deinit(1)),
        Pair(u, BOTH, [First(false), Second(false)], 2, Finishing, Finishing), [])
  {
  }

  lemma FirstDrains(w: World, u: Uri)
    requires Fine(w, Pair(u, BOTH, [First(false), Second(false)], 2, Finishing, Finishing), [])
    ensures var l := Label.Finish(0, false);
            CanStep(w, l) &&
              Fine(Step(w, l), Pair(u, BOTH, [Second(false)], 2, Drain(First(true), ToSend), Finishing), [])
  {
    var v := w.sys.pool;
    var n := PoolLists.FinishSplits(v, 1, 0);
    assert !v.store[1].ready;
    assert Batch(v, 1) == [First(true)] && PoolLists.Finish(v, 1).store == [Second(false)];
    assert HandOver(w.sys.own, Batch(v, 1), 0) == w.sys.own;
  }

  lemma SecondDrains(w: World, u: Uri)
    requires Fine(w, Pair(u, BOTH, [Second(false)], 2, Drain(First(true), ToSend), Finishing), [])
    ensures var l := Label.Finish(1, false);
            CanStep(w, l) &&
              Fine(Step(w, l), Pair(u, BOTH, [], 2, Drain(First(true), ToSend), Drain(Second(true), ToSend)), [])
  {
    var v := w.sys.pool;
    var n := PoolLists.FinishSplits(v, 2, 0);
    assert Batch(v, 2) == [Second(true)] && PoolLists.Finish(v, 2).store == [];
    assert HandOver(w.sys.own, Batch(v, 2), 1) == w.sys.own;
  }

  lemma SecondCommits(w: World, u: Uri)
    requires Fine(w, Pair(u, BOTH, [], 2, Drain(First(true), ToSend), Drain(Second(true), ToSend)), [])
    ensures var l := SendCommit(1, SENT);
            CanStep(w, l) &&
              Fine(Step(w, l), Pair(u, BOTH, [], 2, Drain(First(true), ToSend), Drain(Second(true), Settled)), [2])
  {
  }

  lemma FirstCommits(w: World, u: Uri)
    requires Fine(w, Pair(u, BOTH, [], 2, Drain(First(true), ToSend), Drain(Second(true), Settled)), [2])
    ensures var l := SendCommit(0, SENT);
            CanStep(w, l) &&
              Fine(Step(w, l), Pair(u, BOTH, [], 2, Drain(First(true), Settled), Drain(Second(true), Settled)), [2, 1])
  {
    assert [2] + [1] == [2, 1];
  }

  lemma Extends(ls: seq<Label>, l: Label) returns (longer: seq<Label>)
    requires IsRun(START, ls) && CanStep(Run(START, ls), l)
    ensures IsRun(START, longer) && Run(START, longer) == Step(Run(START, ls), l)
  {
    RunExtends(START, ls, l);
    longer := ls + [l];
  }

  lemma ToBegin(u: Uri) returns (ls: seq<Label>)
    ensures IsRun(START, ls) && Fine(Run(START, ls), Pair(u, BOTH, [First(false), Second(false)], 2, Begun, Begun), [])
  {
    var arrive := Arrive(TRANSACTIONAL, u, 0, 2);
    Arrives(u);
    ls := Extends([], arrive);
    ls := Extends(ls, arrive);
    Connects(Run(START, ls), u);
    ls := Extends(ls, Connect(0, Reopened));
    ls := Extends(ls, Connect(1, Reopened));
    FirstBegins(Run(START, ls), u);
    ls := Extends(ls, Begin(0));
    SecondBegins(Run(START, ls), u);
    ls := Extends(ls, Begin(1));
  }

  lemma ToFinish(u: Uri) returns (ls: seq<Label>)
    ensures IsRun(START, ls) &&
        Fine(Run(START, ls), Pair(u, BOTH, [First(false), Second(false)], 2, Finishing, Finishing), [])
  {
    ls := ToBegin(u);
    FirstSends(Run(START, ls), u);
    ls := Extends(ls, SendBegin(0, SENT));
    SecondSends(Run(START, ls), u);
    ls := Extends(ls, SendBegin(1, SENT));
    BothEnd(Run(START, ls), u);
    ls := Extends(ls, Deinit(0));
    ls := Extends(ls, Deinit(1));
  }

  /** Nothing fails and nothing is forced, transaction 1 is drained before transaction 2, and yet the COMMIT
      of 2 is sent first: get_uncommited orders the drains, and the mutex is gone when the COMMITs go out. */
  lemma Overtakes(u: Uri) returns (ls: seq<Label>)
    ensures IsRun(START, ls)
    ensures var w := Run(START, ls);
            w.net.clean && w.log.forced == [] && Order.Flatten(w.log.drained) == [1, 2] && w.ledger.attempted == [2, 1]
  {
    ls := ToFinish(u);
    FirstDrains(Run(START, ls), u);
    ls := Extends(ls, Label.Finish(0, false));
    SecondDrains(Run(START, ls), u);
    ls := Extends(ls, Label.Finish(1, false));
    SecondCommits(Run(START, ls), u);
    ls := Extends(ls, SendCommit(1, SENT));
    FirstCommits(Run(START, ls), u);
    ls := Extends(ls, SendCommit(0, SENT));
    DrainsInOrder(Run(START, ls));
  }

  /** The order of drains follows from the counter alone. */
  lemma DrainsInOrder(w: World)
    requires Reachable(w)
    ensures w.log.forced == [] && w.sys.pool.store == [] && w.sys.pool.txnSeq == 2 ==>
        Order.Flatten(w.log.drained) == [1, 2]
  {
    DrainedInCreationOrder(w);
    assert UpTo(2) == [1, 2];
  }
}
