/** The objects and the protocol agree: a commit that no other statement interrupts changes the pool's
    lists exactly as the method connection::commit does in one go. */
module Alone {
  import opened PoolLists
  import opened Protocol
  import opened Ownership

  /** A step of statement i's commit, with `good` the connections whose socket is open when given back. */
  predicate OwnStep(s: Sys, i: nat, l: Label, good: set<nat>, poolSockets: nat) {
    match l
    case Finish(j, _) => j == i
    case SendCommit(j, _) => j == i
    case AwaitCommit(j, _) => j == i
    case NextCommit(j, g, p) => j == i && p == poolSockets && InBatch(s, i) && (g <==> Current(s, i).conn in good)
    case Release(j, g, p) => j == i && p == poolSockets && i < |s.stmts| && (g <==> s.stmts[i].conn in good)
    case _ => false
  }

  predicate IsAlone(s: Sys, i: nat, ls: seq<Label>, good: set<nat>, poolSockets: nat)
    decreases ls
  {
    ls == [] ||
    (Enabled(s, ls[0]) && OwnStep(s, i, ls[0], good, poolSockets) &&
      IsAlone(Apply(s, ls[0]), i, ls[1..], good, poolSockets))
  }

  function End(s: Sys, i: nat, ls: seq<Label>, good: set<nat>, poolSockets: nat): Sys
    requires IsAlone(s, i, ls, good, poolSockets)
    decreases ls
  {
    if ls == [] then s else End(Apply(s, ls[0]), i, ls[1..], good, poolSockets)
  }

  /** The lists when statement i, left alone, is done. */
  function Goal(s: Sys, i: nat, good: set<nat>, poolSockets: nat): Lists<nat>
    requires i < |s.stmts|
  {
    var st := s.stmts[i];
    match st.phase
    case Finishing => Retire(s.pool, st.txn, st.conn, good, poolSockets)
    case Committing(batch, next, _, _) =>
      GiveBack(GiveBackAll(s.pool, From(Conns(batch), next), good, poolSockets), st.conn, st.conn in good, poolSockets)
    case Releasing => GiveBack(s.pool, st.conn, st.conn in good, poolSockets)
    case _ => s.pool
  }

  /** The connections still to be given back: the first is the statement's own, and waits. */
  function From(cs: seq<nat>, next: nat): seq<nat> {
    var k := if next == 0 then 1 else next;
    if k <= |cs| then cs[k..] else []
  }

  lemma OwnIsFirst(s: Sys, i: nat)
    requires Inv(s) && InBatch(s, i)
    ensures Current(s, i).conn == s.stmts[i].conn <==> At(s, i).next == 0
  {
    assert StmtOk(s, i);
  }

  lemma NextFrom(v: Lists<nat>, cs: seq<nat>, next: nat, good: set<nat>, poolSockets: nat)
    requires next < |cs|
    ensures next > 0 ==> GiveBackAll(v, From(cs, next), good, poolSockets) ==
                         GiveBackAll(GiveBack(v, cs[next], cs[next] in good, poolSockets), From(cs, next + 1), good,
                           poolSockets)
    ensures next == 0 ==> From(cs, next + 1) == From(cs, next)
    ensures next + 1 == |cs| ==> From(cs, next + 1) == []
  {
    if next > 0 { NextGivenBack(v, cs, next, good, poolSockets); }
  }

  /** What remains to be given back once the current connection, unless it is `own`, has been. */
  lemma NextGoal(v: Lists<nat>, cs: seq<nat>, next: nat, own: nat, good: set<nat>, poolSockets: nat)
    requires next < |cs| && (cs[next] == own <==> next == 0)
    ensures var w := if cs[next] == own then v else GiveBack(v, cs[next], cs[next] in good, poolSockets);
            GiveBackAll(v, From(cs, next), good, poolSockets) ==
            if next + 1 == |cs| then w else GiveBackAll(w, From(cs, next + 1), good, poolSockets)
  {
    NextFrom(v, cs, next, good, poolSockets);
  }

  lemma NextKeepsGoal(s: Sys, i: nat, l: Label, good: set<nat>, poolSockets: nat)
    requires Enabled(s, l) && OwnStep(s, i, l, good, poolSockets) && l.NextCommit?
    requires Current(s, i).conn == s.stmts[i].conn <==> At(s, i).next == 0
    ensures Goal(Apply(s, l), i, good, poolSockets) == Goal(s, i, good, poolSockets)
  {
    var batch, next, own := At(s, i).batch, At(s, i).next, s.stmts[i].conn;
    assert Conns(batch)[next] == Current(s, i).conn;
    NextGoal(s.pool, Conns(batch), next, own, good, poolSockets);
    NextMoves(s, i, l, good, poolSockets);
  }

  lemma NextMoves(s: Sys, i: nat, l: Label, good: set<nat>, poolSockets: nat)
    requires Enabled(s, l) && OwnStep(s, i, l, good, poolSockets) && l.NextCommit?
    ensures var s', c := Apply(s, l), Current(s, i).conn;
      && s'.pool == (if c == s.stmts[i].conn then s.pool else GiveBack(s.pool, c, c in good, poolSockets))
      && |s'.stmts| == |s.stmts| && s'.stmts[i].conn == s.stmts[i].conn
      && if At(s, i).next + 1 == |At(s, i).batch| then At(s', i).Releasing?
         else At(s', i).Committing? && At(s', i).batch == At(s, i).batch && At(s', i).next == At(s, i).next + 1
  {
  }

  lemma StepKeepsGoal(s: Sys, i: nat, l: Label, good: set<nat>, poolSockets: nat)
    requires Inv(s) && Enabled(s, l) && OwnStep(s, i, l, good, poolSockets)
    ensures i < |s.stmts| && Goal(Apply(s, l), i, good, poolSockets) == Goal(s, i, good, poolSockets)
  {
    if l.NextCommit? { OwnIsFirst(s, i); NextKeepsGoal(s, i, l, good, poolSockets); }
  }

  lemma {:induction false} ReachesGoal(s: Sys, i: nat, ls: seq<Label>, good: set<nat>, poolSockets: nat)
    requires Inv(s) && i < |s.stmts| && IsAlone(s, i, ls, good, poolSockets)
    requires At(End(s, i, ls, good, poolSockets), i).Done?
    ensures End(s, i, ls, good, poolSockets).pool == Goal(s, i, good, poolSockets)
    decreases ls
  {
    if ls != [] {
      StepKeeps(s, ls[0]);
      StepKeepsGoal(s, i, ls[0], good, poolSockets);
      ReachesGoal(Apply(s, ls[0]), i, ls[1..], good, poolSockets);
    }
  }

  /** Whatever its exchanges do, an uninterrupted commit from the call to its end is Retire, which is
      what the connection object's commit and the statement object's calls are proved to be. */
  lemma UninterruptedCommitRetires(s: Sys, i: nat, ls: seq<Label>, good: set<nat>, poolSockets: nat)
    requires Inv(s) && At(s, i).Finishing? && IsAlone(s, i, ls, good, poolSockets)
    requires At(End(s, i, ls, good, poolSockets), i).Done?
    ensures End(s, i, ls, good, poolSockets).pool == Retire(s.pool, s.stmts[i].txn, s.stmts[i].conn, good, poolSockets)
  {
    ReachesGoal(s, i, ls, good, poolSockets);
  }
}
