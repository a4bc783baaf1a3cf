/** Every schedule reaches quiescence once no new statement arrives. */
module Termination {
  import opened PoolLists
  import opened Protocol
  import opened Ownership
  import opened Order
  import opened Wire
  import opened Runs

  /** How many steps a statement may still take by itself. */
  function Work(st: Stmt): nat {
    match st.phase
    case Got => 9 + st.rows
    case Linked => 8 + st.rows
    case Begun => 4 + st.rows
    case Serving => 3 + st.rows
    case Finishing => 2
    case Committing(batch, next, _, stage) =>
      if next < |batch| then
        3 * (|batch| - next) + (match stage case ToSend => 1 case Waiting => 0 case Settled => -1)
      else 1
    case Releasing => 1
    case Done => 0
  }

  function TotalWork(sts: seq<Stmt>): nat {
    if sts == [] then 0 else Work(sts[0]) + TotalWork(sts[1..])
  }

  /** Each stored transaction costs whoever drains it three steps. */
  function Measure(s: Sys): nat {
    TotalWork(s.stmts) + 3 * |s.pool.store|
  }

  /** Neither a new statement nor a force_commit that finds nothing ready. */
  predicate Progress(s: Sys, l: Label) {
    !l.Arrive? && (l.ForceCommit? ==> ReadyOnes(s.pool.store) != [])
  }

  lemma {:induction false} WorkMoves(sts: seq<Stmt>, i: nat, st: Stmt)
    requires i < |sts|
    ensures TotalWork(sts[i := st]) == TotalWork(sts) - Work(sts[i]) + Work(st)
  {
    var sts' := sts[i := st];
    if i == 0 {
      assert sts'[1..] == sts[1..];
    } else {
      assert sts'[1..] == sts[1..][i - 1 := st];
      WorkMoves(sts[1..], i - 1, st);
    }
  }

  /** The statement that a label moves. */
  lemma OthersStay(s: Sys, l: Label)
    requires Enabled(s, l) && !l.Arrive? && !l.ForceCommit?
    ensures l.stmt < |s.stmts|
    ensures Apply(s, l).stmts == s.stmts[l.stmt := Apply(s, l).stmts[l.stmt]]
  {
  }

  lemma DrainDrops(s: Sys, s': Sys, i: nat, n: nat)
    requires Drained(s, s', i, n) && s.stmts[i].phase.Finishing? && s'.stmts[i].phase.stage.ToSend?
    ensures Work(s'.stmts[i]) + 3 * |s'.pool.store| < Work(s.stmts[i]) + 3 * |s.pool.store|
  {
    assert |s'.stmts[i].phase.batch| == n && |s'.pool.store| == |s.pool.store| - n;
  }

  lemma DeferDrops(s: Sys, s': Sys, i: nat, p: nat)
    requires Deferred(s, s', i, p) && s.stmts[i].phase.Finishing?
    ensures Work(s'.stmts[i]) + 3 * |s'.pool.store| < Work(s.stmts[i]) + 3 * |s.pool.store|
  {
  }

  lemma FinishDrops(s: Sys, l: Label)
    requires Inv(s) && Enabled(s, l) && l.Finish?
    ensures Work(Apply(s, l).stmts[l.stmt]) + 3 * |Apply(s, l).pool.store| < Work(s.stmts[l.stmt]) + 3 * |s.pool.store|
  {
    var i := l.stmt;
    if s.stmts[i].txn.Some? {
      var p := OwnPosition(s, i);
      if p == 0 {
        var n := DrainShape(s, l);
        DrainDrops(s, Apply(s, l), i, n);
      } else {
        DeferShape(s, l, p);
        DeferDrops(s, Apply(s, l), i, p);
      }
    }
  }

  lemma OwnWorkDrops(s: Sys, l: Label)
    requires Inv(s) && Enabled(s, l) && !l.Arrive? && !l.ForceCommit?
    ensures Work(Apply(s, l).stmts[l.stmt]) + 3 * |Apply(s, l).pool.store| < Work(s.stmts[l.stmt]) + 3 * |s.pool.store|
  {
    if l.Finish? {
      FinishDrops(s, l);
    } else if !l.Begin? {
      StoreUntouched(s, l);
      StepWorkDrops(s, l);
    }
  }

  lemma StepWorkDrops(s: Sys, l: Label)
    requires Enabled(s, l) && !l.Arrive? && !l.ForceCommit? && !l.Finish? && !l.Begin?
    ensures Work(Apply(s, l).stmts[l.stmt]) < Work(s.stmts[l.stmt])
  {
    if l.SendCommit? || l.AwaitCommit? {
      StageDrops(s.stmts[l.stmt], Apply(s, l).stmts[l.stmt].phase.stage);
    } else if l.NextCommit? {
      NextDrops(s.stmts[l.stmt], Apply(s, l).stmts[l.stmt].phase);
    }
  }

  lemma StageDrops(st: Stmt, stage: Stage)
    requires st.phase.Committing? && st.phase.next < |st.phase.batch|
    requires (st.phase.stage.ToSend? && !stage.ToSend?) || (st.phase.stage.Waiting? && stage.Settled?)
    ensures Work(st.(phase := st.phase.(stage := stage))) < Work(st)
  {
  }

  lemma NextDrops(st: Stmt, p: Phase)
    requires st.phase.Committing? && st.phase.stage.Settled? && st.phase.next < |st.phase.batch|
    requires p == if st.phase.next + 1 == |st.phase.batch| then Releasing
        else st.phase.(next := st.phase.next + 1, stage := ToSend)
    ensures Work(st.(phase := p)) < Work(st)
  {
  }

  lemma MeasureDrops(s: Sys, l: Label)
    requires Inv(s) && Enabled(s, l) && Progress(s, l)
    ensures Measure(Apply(s, l)) < Measure(s)
  {
    if l.ForceCommit? {
      ForceKeeps(s, l);
      SplitByReady(s.pool.store);
    } else {
      OthersStay(s, l);
      OwnWorkDrops(s, l);
      WorkMoves(s.stmts, l.stmt, Apply(s, l).stmts[l.stmt]);
    }
  }

  /** A run in which every step makes progress. */
  predicate Busy(w: World, ls: seq<Label>)
    requires IsRun(w, ls)
    decreases ls
  {
    ls == [] || (Progress(w.sys, ls[0]) && Busy(Step(w, ls[0]), ls[1..]))
  }

  /** No schedule lasts longer than the measure. */
  lemma {:induction false} SchedulesAreFinite(w: World, ls: seq<Label>)
    requires WorldOk(w) && IsRun(w, ls) && Busy(w, ls)
    ensures |ls| + Measure(Run(w, ls).sys) <= Measure(w.sys)
    decreases ls
  {
    if ls != [] {
      StepOk(w, ls[0]);
      MeasureDrops(w.sys, ls[0]);
      SchedulesAreFinite(Step(w, ls[0]), ls[1..]);
    }
  }

  /** The next step of statement i, with what its socket does. */
  function NextStep(w: World, i: nat, dial: Dial, io: Io): Label
    requires i < |w.sys.stmts| && !w.sys.stmts[i].phase.Done?
  {
    match At(w.sys, i)
    case Got => Connect(i, dial)
    case Linked => Begin(i)
    case Begun => SendBegin(i, io)
    case Serving => if w.sys.stmts[i].rows > 0 then SendRow(i, io) else Deinit(i)
    case Finishing => Label.Finish(i, false)
    case Committing(batch, next, _, stage) =>
      (match stage
       case ToSend => SendCommit(i, io)
       case Waiting => AwaitCommit(i, io)
       case Settled => NextCommit(i, next < |batch| && batch[next].conn in w.net.open, 0))
    case Releasing => Release(i, w.sys.stmts[i].conn in w.net.open, 0)
  }

  /** A statement in flight has its next step enabled, whatever its socket does, and the step is progress. */
  lemma SomethingToDo(w: World, i: nat, dial: Dial, io: Io)
    requires Inv(w.sys) && i < |w.sys.stmts| && !w.sys.stmts[i].phase.Done?
    ensures Enabled(w.sys, NextStep(w, i, dial, io)) && Progress(w.sys, NextStep(w, i, dial, io))
  {
    assert StmtOk(w.sys, i);
  }

  /** And there is always something its socket may do: at worst the exchange fails. */
  lemma SomeOutcome(w: World, i: nat) returns (dial: Dial, io: Io)
    requires Inv(w.sys) && i < |w.sys.stmts| && !w.sys.stmts[i].phase.Done?
    ensures CanStep(w, NextStep(w, i, dial, io))
  {
    assert StmtOk(w.sys, i);
    var st := w.sys.stmts[i];
    dial := Refused;
    io := if st.phase.Serving? && st.conn !in w.net.open && st.conf.noError then Io(Nothing, false, false, false, {})
          else Io(Nothing, true, true, st.phase.Committing? && st.phase.receipt, {});
  }

  /** A schedule that cannot go on has reached quiescence, and then nothing is left in the pool. */
  lemma StuckMeansDone(w: World)
    requires Reachable(w) && forall l :: CanStep(w, l) ==> !Progress(w.sys, l)
    ensures Quiescent(w.sys) && w.sys.pool.store == [] && w.sys.pool.active == []
  {
    ReachableOk(w);
    forall i | 0 <= i < |w.sys.stmts| ensures w.sys.stmts[i].phase.Done? {
      if !w.sys.stmts[i].phase.Done? {
        var dial, io := SomeOutcome(w, i);
        SomethingToDo(w, i, dial, io);
      }
    }
    NothingLeaks(w);
  }
}
