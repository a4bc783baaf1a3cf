/** The life of one statement, step by step, and what capstomp_init has to do with it. */
module Calls {
  import opened Prelude
  import opened Protocol
  import opened Runs
  import opened SocketIo
  import opened Capstomp
  import SocketLaws
  import Udf
  import Wire

  /** A step of statement i, its arrival included. */
  predicate IsStep(w: World, l: Label, i: nat) {
    match l
    case Arrive(_, _, _, _) => i == |w.sys.stmts|
    case ForceCommit(_, _, _) => false
    case _ => l.stmt == i
  }

  /** capstomp_init has returned 0: MySQL asks for a row, or ends the call. */
  predicate Serves(next: Label) {
    next.SendRow? || next.Deinit?
  }

  /** What a statement may do after step l, in terms of src/udf.cpp. An exception before any row ends the call,
      unless errors are hidden, with the commit; rows and their failures do not. */
  predicate Follows(w: World, l: Label, i: nat, next: Label)
    requires l.Arrive? || i < |w.sys.stmts|
  {
    match l
    case Arrive(_, _, _, _) => next.Connect?
    case Connect(_, Refused) => if w.sys.stmts[i].conf.noError then Serves(next) else next.Finish?
    case Connect(_, _) => next.Begin?
    case Begin(_) => if w.sys.stmts[i].conf.transaction then next.SendBegin? else Serves(next)
    case SendBegin(_, io) => if io.failed && !w.sys.stmts[i].conf.noError then next.Finish? else Serves(next)
    case SendRow(_, _) => Serves(next)
    case Deinit(_) => next.Finish?
    case Finish(_, _) => if w.sys.stmts[i].txn.Some? then next.SendCommit? else next.Release?
    case SendCommit(_, io) =>
      if At(w.sys, i).Committing? && At(w.sys, i).receipt && !io.failed then next.AwaitCommit? else next.NextCommit?
    case AwaitCommit(_, _) => next.NextCommit?
    case NextCommit(_, _, _) =>
      if InBatch(w.sys, i) && At(w.sys, i).next + 1 < |At(w.sys, i).batch| then next.SendCommit? else next.Release?
    case Release(_, _, _) => false
    case ForceCommit(_, _, _) => true
  }

  /** Nobody else moves a statement on. */
  lemma OthersLeave(w: World, l: Label, i: nat)
    requires CanStep(w, l) && i < |w.sys.stmts| && !IsStep(w, l, i)
    ensures i < |Step(w, l).sys.stmts| && Step(w, l).sys.stmts[i] == w.sys.stmts[i]
  {
  }

  /** No step of these is statement i's. */
  predicate Elsewhere(w: World, ls: seq<Label>, i: nat)
    requires IsRun(w, ls)
    decreases ls
  {
    ls == [] || (!IsStep(w, ls[0], i) && Elsewhere(Step(w, ls[0]), ls[1..], i))
  }

  lemma {:induction false} RunLeaves(w: World, ls: seq<Label>, i: nat)
    requires IsRun(w, ls) && i < |w.sys.stmts| && Elsewhere(w, ls, i)
    ensures i < |Run(w, ls).sys.stmts| && Run(w, ls).sys.stmts[i] == w.sys.stmts[i]
    decreases ls
  {
    if ls != [] {
      OthersLeave(w, ls[0], i);
      RunLeaves(Step(w, ls[0]), ls[1..], i);
    }
  }

  /** In every run, whatever others do in between, a statement's next step follows from its last one. So one
      whose connect or BEGIN threw serves rows only if errors are hidden, and otherwise goes on to commit. */
  lemma LifeCycle(w: World, l: Label, i: nat, ls: seq<Label>, next: Label)
    requires CanStep(w, l) && IsStep(w, l, i) && IsRun(Step(w, l), ls) && Elsewhere(Step(w, l), ls, i)
    requires CanStep(Run(Step(w, l), ls), next) && IsStep(Run(Step(w, l), ls), next, i)
    ensures (l.Arrive? || i < |w.sys.stmts|) && Follows(w, l, i, next)
  {
    Advances(w, l, i);
    RunLeaves(Step(w, l), ls, i);
    NextIs(Run(Step(w, l), ls), i, next);
  }

  /** The only kinds of step a phase allows. */
  predicate Allows(p: Phase, next: Label) {
    match p
    case Got => next.Connect?
    case Linked => next.Begin?
    case Begun => next.SendBegin?
    case Serving => Serves(next)
    case Finishing => next.Finish?
    case Committing(_, _, _, stage) =>
      (match stage case ToSend => next.SendCommit? case Waiting => next.AwaitCommit? case Settled => next.NextCommit?)
    case Releasing => next.Release?
    case Done => false
  }

  lemma NextIs(w: World, i: nat, next: Label)
    requires CanStep(w, next) && IsStep(w, next, i) && i < |w.sys.stmts|
    ensures Allows(At(w.sys, i), next)
  {
  }

  lemma Advances(w: World, l: Label, i: nat)
    requires CanStep(w, l) && IsStep(w, l, i)
    ensures (l.Arrive? || i < |w.sys.stmts|) && i < |Step(w, l).sys.stmts|
    ensures forall next :: Allows(At(Step(w, l).sys, i), next) ==> Follows(w, l, i, next)
  {
  }

  // ----- capstomp_init of the object, as steps of the machine

  predicate AllEnabled(s: Sys, ls: seq<Label>)
    decreases ls
  {
    ls == [] || (Enabled(s, ls[0]) && AllEnabled(Apply(s, ls[0]), ls[1..]))
  }

  function ApplyAll(s: Sys, ls: seq<Label>): Sys
    requires AllEnabled(s, ls)
    decreases ls
  {
    if ls == [] then s else ApplyAll(Apply(s, ls[0]), ls[1..])
  }

  /** The connect step and the link it leaves: refused if it threw, else by what is open afterwards. */
  ghost function Dialling(conn: Connection, fragment: string, passhash: nat, dialled: bool, session: bool): Dial
    reads conn
  {
    var (st, _, e) := SocketIo.Reach(conn.State(), fragment, passhash, dialled, session, conn.encode(Wire.LogonF),
      conn.script);
    var (st0, _, alive) := Probe(conn.State(), conn.script);
    if e.Raised? then Refused
    else if alive.Ok? && alive.value && passhash == st0.passhash then Reused
    else if st.open then Reopened else Quiet
  }

  /** The steps that statement i takes while capstomp_init runs on this connection. */
  ghost function InitSteps(i: nat, conn: Connection, fragment: string, passhash: nat, dialled: bool, session: bool,
      limit: nat): seq<Label>
    reads conn, conn.pool
  {
    var (st, io, e) := SocketIo.Reach(conn.State(), fragment, passhash, dialled, session, conn.encode(Wire.LogonF),
      conn.script);
    var connect := Connect(i, Dialling(conn, fragment, passhash, dialled, session));
    if e.Raised? then [connect]
    else if !conn.conf.transaction then [connect, Begin(i)]
    else
      var st1, begin := st.(requests := st.requests + 1), conn.encode(Wire.BeginF(conn.pool.txnSeq + 1));
      var asks := conn.conf.receipt || st1.requests >= limit;
      var (st2, _, e2) := Exchange(st1, begin, asks, conn.receiptSeq, io);
      [connect, Begin(i), SendBegin(i, Outcome(st1, begin, asks, conn.receiptSeq, st2, e2))]
  }

  /** These steps are possible one after the other, and they end where rows are served exactly when Udf.Init
      returns 0, and where the commit comes next exactly when it returns 1. */
  lemma InitIsItsSteps(s: Sys, i: nat, conn: Connection, fragment: string, passhash: nat, dialled: bool, session: bool,
      limit: nat)
    requires At(s, i).Got? && s.stmts[i].conf == Settings(conn.conf.transaction, conn.conf.noError)
    ensures var ls := InitSteps(i, conn, fragment, passhash, dialled, session, limit);
            && AllEnabled(s, ls)
            && At(ApplyAll(s, ls), i) ==
               if Udf.Code(conn, fragment, passhash, dialled, session, limit) == 0 then Serving else Finishing
  {
    var ls := InitSteps(i, conn, fragment, passhash, dialled, session, limit);
    if |ls| == 1 {
      OneStep(s, i, ls[0]);
      assert ls == [ls[0]];
    } else if |ls| == 2 {
      TwoSteps(s, i, ls[0]);
      assert ls == [ls[0], Begin(i)];
    } else {
      ThreeSteps(s, i, ls[0], ls[2].io);
      assert ls == [ls[0], Begin(i), SendBegin(i, ls[2].io)];
    }
  }

  lemma OneStep(s: Sys, i: nat, connect: Label)
    requires At(s, i).Got? && connect == Connect(i, Refused)
    ensures AllEnabled(s, [connect])
    ensures At(ApplyAll(s, [connect]), i) == if s.stmts[i].conf.noError then Serving else Finishing
  {
    Single(s, connect);
  }

  lemma TwoSteps(s: Sys, i: nat, connect: Label)
    requires At(s, i).Got? && !s.stmts[i].conf.transaction && connect.Connect? && connect.stmt == i &&
        !connect.dial.Refused?
    ensures AllEnabled(s, [connect, Begin(i)]) && At(ApplyAll(s, [connect, Begin(i)]), i) == Serving
  {
    Single(Apply(s, connect), Begin(i));
    Steps(s, connect, [Begin(i)]);
    assert [connect] + [Begin(i)] == [connect, Begin(i)];
  }

  lemma ThreeSteps(s: Sys, i: nat, connect: Label, io: Io)
    requires At(s, i).Got? && s.stmts[i].conf.transaction && connect.Connect? && connect.stmt == i &&
        !connect.dial.Refused?
    ensures var ls := [connect, Begin(i), SendBegin(i, io)];
            && AllEnabled(s, ls)
            && At(ApplyAll(s, ls), i) == if io.failed && !s.stmts[i].conf.noError then Finishing else Serving
  {
    var sent := [SendBegin(i, io)];
    Single(Apply(Apply(s, connect), Begin(i)), sent[0]);
    Steps(Apply(s, connect), Begin(i), sent);
    Steps(s, connect, [Begin(i)] + sent);
    assert [connect] + ([Begin(i)] + sent) == [connect, Begin(i), SendBegin(i, io)];
  }

  lemma Single(s: Sys, l: Label)
    requires Enabled(s, l)
    ensures AllEnabled(s, [l]) && ApplyAll(s, [l]) == Apply(s, l)
  {
    var none: seq<Label> := [];
    assert [l][1..] == none && ApplyAll(Apply(s, l), none) == Apply(s, l);
  }

  lemma Steps(s: Sys, l: Label, ls: seq<Label>)
    requires Enabled(s, l) && AllEnabled(Apply(s, l), ls)
    ensures AllEnabled(s, [l] + ls) && ApplyAll(s, [l] + ls) == ApplyAll(Apply(s, l), ls)
  {
    assert ([l] + ls)[1..] == ls;
  }

  // ----- the socket that connect() leaves, as the machine records it

  /** If machine and object agree on whether statement i has a live socket, they agree after connect() too, an
      exception having closed it: a reused socket is the same one, a new one carries its LOGON alone. */
  lemma ConnectAgrees(s: Sys, n: Wire.Net, i: nat, conn: Connection, fragment: string, passhash: nat, dialled: bool,
      session: bool)
    requires At(s, i).Got? && conn.encode(Wire.LogonF) != "" && (s.stmts[i].conn in n.open <==> conn.open)
    ensures var (st, _, e) :=
        SocketIo.Reach(conn.State(), fragment, passhash, dialled, session, conn.encode(Wire.LogonF),
              conn.script);
            var dial, c := Dialling(conn, fragment, passhash, dialled, session), s.stmts[i].conn;
            var l := Connect(i, dial);
            && Wire.Possible(s, n, l)
            && var n' := Wire.Carry(s, n, l);
               && (c in n'.open <==> e.Returned? && st.open)
               && (dial.Reused? <==> SocketLaws.Reusable(conn.State(), passhash, conn.script))
               && (dial.Reused? ==> n'.open == n.open && SocketLaws.SameSocket(conn.State(), st))
               && (dial.Reopened? ==> st.sent == conn.encode(Wire.LogonF) && n'.open[c] == Wire.Opened(s.stmts[i].uri))
  {
    var was, logon := conn.State(), conn.encode(Wire.LogonF);
    if conn.open { SocketLaws.ProbeTells(was, conn.script); }
    if SocketLaws.Reusable(was, passhash, conn.script) {
      SocketLaws.ReachReuses(was, fragment, passhash, dialled, session, logon, conn.script);
    } else {
      SocketLaws.ReachOpensAnew(was, fragment, passhash, dialled, session, logon, conn.script);
    }
  }
}
