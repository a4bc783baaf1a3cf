/** A run the code does take: a COMMIT cut short, and the next statement on the same socket. */
module Mishaps {
  import opened Prelude
  import opened PoolLists
  import opened Endpoint
  import opened Protocol
  import opened Wire
  import opened Runs
  import opened StoreRuns

  const TRANSACTIONAL := Settings(true, false)
  const SENT := Io(Whole, false, false, false, {})
  const CUT := Io(Part, true, false, true, {})

  /** Statement 0 on connection 0 of an otherwise empty pool. */
  function OneStmt(u: Uri, txn: Option<nat>, store: seq<Txn<nat>>, phase: Phase): Sys {
    Sys(Lists([0], [], store, if txn.Some? then 1 else 0), 1, [Stmt(TRANSACTIONAL, u, 0, txn, 0, phase)],
      map[0 := Owner(0)])
  }

  function Carrying(u: Uri, fs: seq<Frame>): Net {
    SILENCE.(open := map[0 := Opened(u).(frames := fs)])
  }

  /** The socket after the cut: open, with a receipt still due. */
  function Spoilt(u: Uri): Net {
    Net(map[0 := Sock(u, [LogonF, BeginF(1), Torn], 1, {0}, false, true)], [], {}, {1}, false)
  }

  predicate Looks(w: World, s: Sys, n: Net) {
    w.sys == s && w.net == n
  }

  lemma Opens(w: World, u: Uri)
    requires Looks(w, INIT, SILENCE)
    ensures var l := Arrive(TRANSACTIONAL, u, 0, 1);
            CanStep(w, l) && Looks(Step(w, l), OneStmt(u, None, [], Got), SILENCE)
  {
  }

  lemma Connects(w: World, u: Uri)
    requires Looks(w, OneStmt(u, None, [], Got), SILENCE)
    ensures var l := Connect(0, Reopened);
            CanStep(w, l) && Looks(Step(w, l), OneStmt(u, None, [], Linked), Carrying(u, [LogonF]))
  {
  }

  lemma Begins(w: World, u: Uri)
    requires Looks(w, OneStmt(u, None, [], Linked), Carrying(u, [LogonF]))
    ensures var l := Begin(0);
            CanStep(w, l) && Looks(Step(w, l), OneStmt(u, Some(1), [Txn(1, false, 0)], Begun), Carrying(u, [LogonF]))
  {
  }

  lemma SendsBegin(w: World, u: Uri)
    requires Looks(w, OneStmt(u, Some(1), [Txn(1, false, 0)], Begun), Carrying(u, [LogonF]))
    ensures var l := SendBegin(0, SENT);
            CanStep(w, l) &&
              Looks(Step(w, l), OneStmt(u, Some(1), [Txn(1, false, 0)], Serving), Carrying(u, [LogonF, BeginF(1)]))
  {
    assert [LogonF] + [BeginF(1)] == [LogonF, BeginF(1)];
  }

  lemma Ends(w: World, u: Uri)
    requires Looks(w, OneStmt(u, Some(1), [Txn(1, false, 0)], Serving), Carrying(u, [LogonF, BeginF(1)]))
    ensures var l := Deinit(0);
            CanStep(w, l) &&
              Looks(Step(w, l), OneStmt(u, Some(1), [Txn(1, false, 0)], Finishing), Carrying(u, [LogonF, BeginF(1)]))
  {
  }

  lemma Drains(w: World, u: Uri)
    requires Looks(w, OneStmt(u, Some(1), [Txn(1, false, 0)], Finishing), Carrying(u, [LogonF, BeginF(1)]))
    ensures var l := Label.Finish(0, true);
            CanStep(w, l) &&
              Looks(Step(w, l), OneStmt(u, Some(1), [], Committing([Txn(1, true, 0)], 0, true, ToSend)),
                Carrying(u, [LogonF, BeginF(1)]))
  {
    var v := w.sys.pool;
    var n := PoolLists.FinishSplits(v, 1, 0);
    assert Batch(v, 1) == [Txn(1, true, 0)] && PoolLists.Finish(v, 1).store == [];
    assert HandOver(w.sys.own, Batch(v, 1), 0) == w.sys.own;
  }

  lemma Cuts(w: World, u: Uri)
    requires Looks(w, OneStmt(u, Some(1), [], Committing([Txn(1, true, 0)], 0, true, ToSend)),
        Carrying(u, [LogonF, BeginF(1)]))
    ensures var l := SendCommit(0, CUT);
            CanStep(w, l) &&
              Looks(Step(w, l), OneStmt(u, Some(1), [], Committing([Txn(1, true, 0)], 0, true, Settled)), Spoilt(u))
  {
    assert [LogonF, BeginF(1)] + [Torn] == [LogonF, BeginF(1), Torn];
  }

  lemma MovesOn(w: World, u: Uri)
    requires Looks(w, OneStmt(u, Some(1), [], Committing([Txn(1, true, 0)], 0, true, Settled)), Spoilt(u))
    ensures var l := NextCommit(0, true, 1);
            CanStep(w, l) && Looks(Step(w, l), OneStmt(u, Some(1), [], Releasing), Spoilt(u))
  {
  }

  /** The pool once the statement is over: its connection waits for the next. */
  function Rested(u: Uri): Sys {
    Sys(Lists([], [0], [], 1), 1, [Stmt(TRANSACTIONAL, u, 0, Some(1), 0, Done)], map[])
  }

  lemma GivesBack(w: World, u: Uri)
    requires Looks(w, OneStmt(u, Some(1), [], Releasing), Spoilt(u))
    ensures var l := Release(0, true, 1); CanStep(w, l) && Looks(Step(w, l), Rested(u), Spoilt(u))
  {
    assert Without([0], 0) == [];
    assert Step(w, Release(0, true, 1)).sys.own == map[];
  }

  /** The second statement, for v, may reuse a socket opened for u that is out of step with a receipt due. */
  ghost predicate OutOfStep(w: World, u: Uri, v: Uri) {
    && CanStep(w, Connect(1, Reused)) && w.sys.stmts[1].uri == v && w.sys.stmts[1].conn in w.net.open
    && var k := w.net.open[w.sys.stmts[1].conn];
       k.uri == u && !k.whole && Torn in k.frames && k.due != {} && Scan(k.frames).Broken?
  }

  lemma SpoiltIs(u: Uri)
    ensures var k := Spoilt(u).open[0]; Torn in k.frames && k.due != {} && Scan(k.frames).Broken?
  {
    var k := Spoilt(u).open[0];
    assert k.frames == [LogonF, BeginF(1)] + [Torn] && k.frames[2] == Torn && 0 in k.due;
    ScanAppend([LogonF, BeginF(1)], Torn);
  }

  lemma Reuses(w: World, u: Uri, v: Uri)
    requires Looks(w, Rested(u), Spoilt(u))
    ensures var l := Arrive(TRANSACTIONAL, v, 0, 1); CanStep(w, l) && OutOfStep(Step(w, l), u, v)
  {
    SpoiltIs(u);
  }

  /** What happens inside the pool between the two gets. */
  function Inner(): seq<Label> {
    [Connect(0, Reopened)] + ([Begin(0)] + ([SendBegin(0, SENT)] + ([Deinit(0)] + Closing())))
  }

  function Closing(): seq<Label> {
    [Label.Finish(0, true), SendCommit(0, CUT), NextCommit(0, true, 1), Release(0, true, 1)]
  }

  lemma RunsOn(w: World, l: Label, ls: seq<Label>)
    requires CanStep(w, l) && IsRun(Step(w, l), ls)
    ensures IsRun(w, [l] + ls) && Run(w, [l] + ls) == Run(Step(w, l), ls)
  {
    assert ([l] + ls)[1..] == ls;
  }

  lemma InnerSecond(w: World, u: Uri)
    requires Looks(w, OneStmt(u, Some(1), [Txn(1, false, 0)], Finishing), Carrying(u, [LogonF, BeginF(1)]))
    ensures IsRun(w, Closing()) && Looks(Run(w, Closing()), Rested(u), Spoilt(u))
  {
    var l1, l2, l3, l4 := Label.Finish(0, true), SendCommit(0, CUT), NextCommit(0, true, 1), Release(0, true, 1);
    Drains(w, u);
    var w1 := Step(w, l1);
    Cuts(w1, u);
    var w2 := Step(w1, l2);
    MovesOn(w2, u);
    var w3 := Step(w2, l3);
    GivesBack(w3, u);
    RunsOn(w3, l4, []);
    RunsOn(w2, l3, [l4]);
    RunsOn(w1, l2, [l3, l4]);
    RunsOn(w, l1, [l2, l3, l4]);
    assert [l4] + [] == [l4] && [l3] + [l4] == [l3, l4] && [l2] + [l3, l4] == [l2, l3, l4];
    assert [l1] + [l2, l3, l4] == [l1, l2, l3, l4];
  }

  lemma InnerRun(w: World, u: Uri)
    requires Looks(w, OneStmt(u, None, [], Got), SILENCE)
    ensures IsRun(w, Inner()) && Looks(Run(w, Inner()), Rested(u), Spoilt(u))
  {
    var rest := Closing();
    Connects(w, u);
    var w1 := Step(w, Connect(0, Reopened));
    Begins(w1, u);
    var w2 := Step(w1, Begin(0));
    SendsBegin(w2, u);
    var w3 := Step(w2, SendBegin(0, SENT));
    Ends(w3, u);
    var w4 := Step(w3, Deinit(0));
    InnerSecond(w4, u);
    RunsOn(w3, Deinit(0), rest);
    RunsOn(w2, SendBegin(0, SENT), [Deinit(0)] + rest);
    RunsOn(w1, Begin(0), [SendBegin(0, SENT)] + ([Deinit(0)] + rest));
    RunsOn(w, Connect(0, Reopened), [Begin(0)] + ([SendBegin(0, SENT)] + ([Deinit(0)] + rest)));
  }

  lemma PrefixRuns(u: Uri)
    ensures var ls := [Arrive(TRANSACTIONAL, u, 0, 1)] + Inner();
            IsRun(START, ls) && Looks(Run(START, ls), Rested(u), Spoilt(u))
  {
    Opens(START, u);
    InnerRun(Step(START, Arrive(TRANSACTIONAL, u, 0, 1)), u);
    RunsOn(START, Arrive(TRANSACTIONAL, u, 0, 1), Inner());
  }

  /** A COMMIT cut short leaves its socket open, in the pool, out of step and with a receipt due, and the
      next statement is handed that socket and reuses it. */
  lemma CutCommitIsReused(u: Uri, v: Uri) returns (ls: seq<Label>)
    ensures IsRun(START, ls) && OutOfStep(Run(START, ls), u, v)
  {
    ls := [Arrive(TRANSACTIONAL, u, 0, 1)] + Inner();
    PrefixRuns(u);
    Reuses(Run(START, ls), u, v);
    RunExtends(START, ls, Arrive(TRANSACTIONAL, v, 0, 1));
    ls := ls + [Arrive(TRANSACTIONAL, v, 0, 1)];
  }

  // ----- the same at the level of the store, for two URIs that share a pool

  function Insides(name: string, ls: seq<Label>): seq<Act> {
    if ls == [] then [] else [Act.Inside(name, ls[0])] + Insides(name, ls[1..])
  }

  lemma {:induction false} InsideRuns(d: Depot, name: string, ls: seq<Label>)
    requires name in d.pools && IsRun(d.pools[name], ls) && forall k :: 0 <= k < |ls| ==> !ls[k].Arrive?
    ensures IsHistory(d, Insides(name, ls))
    ensures After(d, Insides(name, ls)).pools == d.pools[name := Run(d.pools[name], ls)]
    decreases ls
  {
    if ls != [] {
      var a := Act.Inside(name, ls[0]);
      InsideRuns(Do(d, a), name, ls[1..]);
      assert Insides(name, ls)[1..] == Insides(name, ls[1..]);
    }
  }

  lemma ActsOn(d: Depot, a: Act, acts: seq<Act>)
    requires Allowed(d, a) && IsHistory(Do(d, a), acts)
    ensures IsHistory(d, [a] + acts) && After(d, [a] + acts) == After(Do(d, a), acts)
  {
    assert ([a] + acts)[1..] == acts;
  }

  lemma Regroup(a: seq<Act>, b: seq<Act>)
    ensures a + b == if a == [] then b else [a[0]] + (a[1..] + b)
  {
  }

  lemma {:induction false} HistoriesJoin(d: Depot, a: seq<Act>, b: seq<Act>)
    requires IsHistory(d, a) && IsHistory(After(d, a), b)
    ensures IsHistory(d, a + b) && After(d, a + b) == After(After(d, a), b)
    decreases a
  {
    Regroup(a, b);
    if a != [] {
      HistoriesJoin(Do(d, a[0]), a[1..], b);
      ActsOn(d, a[0], a[1..] + b);
    }
  }

  function Visit(u: Uri): Act {
    Act.Get(u, TRANSACTIONAL, 0, 0, 1)
  }

  lemma OneVisit(d: Depot, u: Uri)
    requires if Name(u) in d.pools then CanStep(d.pools[Name(u)], Arrival(Visit(u))) else d.pools == map[]
    ensures IsHistory(d, [Visit(u)])
    ensures CanStep(Select(d.pools, Name(u))[Name(u)], Arrival(Visit(u)))
    ensures After(d, [Visit(u)]).pools ==
        Select(d.pools, Name(u))[Name(u) := Step(Select(d.pools, Name(u))[Name(u)], Arrival(Visit(u)))]
  {
    assert [Visit(u)][1..] == [];
  }

  /** Statement i may reuse a socket that leads elsewhere. */
  ghost predicate Misdirected(pools: map<string, World>, name: string, i: nat) {
    && name in pools && CanStep(pools[name], Connect(i, Reused))
    && AskedAndOpened(pools[name], i).0.fragment != AskedAndOpened(pools[name], i).1.fragment
  }

  lemma VisitOpens(d: Depot, u: Uri)
    requires d.pools == map[]
    ensures IsHistory(d, [Visit(u)])
    ensures var pools := After(d, [Visit(u)]).pools;
            Name(u) in pools && Looks(pools[Name(u)], OneStmt(u, None, [], Got), SILENCE)
  {
    Opens(START, u);
    OneVisit(d, u);
  }

  lemma NoArrivals()
    ensures forall k :: 0 <= k < |Inner()| ==> !Inner()[k].Arrive?
  {
  }

  lemma InnerActs(d: Depot, name: string, u: Uri, ls: seq<Label>)
    requires name in d.pools && IsRun(d.pools[name], ls) && forall k :: 0 <= k < |ls| ==> !ls[k].Arrive?
    requires Looks(Run(d.pools[name], ls), Rested(u), Spoilt(u))
    ensures IsHistory(d, Insides(name, ls))
    ensures var pools := After(d, Insides(name, ls)).pools; name in pools && Looks(pools[name], Rested(u), Spoilt(u))
  {
    InsideRuns(d, name, ls);
  }

  lemma FirstVisit(d: Depot, u: Uri) returns (acts: seq<Act>)
    requires d.pools == map[]
    ensures IsHistory(d, acts)
    ensures var pools := After(d, acts).pools; Name(u) in pools && Looks(pools[Name(u)], Rested(u), Spoilt(u))
  {
    VisitOpens(d, u);
    var d1 := After(d, [Visit(u)]);
    InnerRun(d1.pools[Name(u)], u);
    NoArrivals();
    acts := ThenInside(d, u, d1, Inner());
  }

  lemma ThenInside(d: Depot, u: Uri, d1: Depot, ls: seq<Label>) returns (acts: seq<Act>)
    requires IsHistory(d, [Visit(u)]) && d1 == After(d, [Visit(u)]) && Name(u) in d1.pools &&
        IsRun(d1.pools[Name(u)], ls)
    requires (forall k :: 0 <= k < |ls| ==> !ls[k].Arrive?) && Looks(Run(d1.pools[Name(u)], ls), Rested(u), Spoilt(u))
    ensures IsHistory(d, acts)
    ensures var pools := After(d, acts).pools; Name(u) in pools && Looks(pools[Name(u)], Rested(u), Spoilt(u))
  {
    InnerActs(d1, Name(u), u, ls);
    HistoriesJoin(d, [Visit(u)], Insides(Name(u), ls));
    acts := [Visit(u)] + Insides(Name(u), ls);
  }

  lemma SecondVisit(d: Depot, u: Uri, v: Uri)
    requires Name(u) in d.pools && Name(v) == Name(u) && Looks(d.pools[Name(u)], Rested(u), Spoilt(u)) &&
        u.fragment != v.fragment
    ensures IsHistory(d, [Visit(v)]) && Misdirected(After(d, [Visit(v)]).pools, Name(u), 1)
  {
    Reuses(d.pools[Name(u)], u, v);
    OneVisit(d, v);
  }

  lemma SharedPoolMisdirects(u: Uri, v: Uri) returns (acts: seq<Act>)
    requires Name(u) == Name(v) && u.fragment != v.fragment
    ensures IsHistory(EMPTY, acts) && Misdirected(After(EMPTY, acts).pools, Name(u), 1)
  {
    acts := FirstVisit(EMPTY, u);
    SecondVisit(After(EMPTY, acts), u, v);
    HistoriesJoin(EMPTY, acts, [Visit(v)]);
    acts := acts + [Visit(v)];
  }

  lemma OneHashAims(acts: seq<Act>, name: string, i: nat)
    requires IsHistory(EMPTY, acts) && OneHash(name)
    ensures !Misdirected(After(EMPTY, acts).pools, name, i)
  {
    var pools := After(EMPTY, acts).pools;
    if name in pools && CanStep(pools[name], Connect(i, Reused)) { ReuseKeepsDestination(acts, name, i); }
  }

  ghost predicate NeverMisdirected(name: string) {
    forall acts, i :: IsHistory(EMPTY, acts) ==> !Misdirected(After(EMPTY, acts).pools, name, i)
  }

  /** No history of the store ever lets a statement with this pool name reuse a socket that leads
      elsewhere, if and only if the name has exactly one '#' after its first '@'. */
  lemma NeverMisdirectedIff(u: Uri)
    ensures NeverMisdirected(Name(u)) <==> OneHash(Name(u))
  {
    if OneHash(Name(u)) {
      forall acts, i | IsHistory(EMPTY, acts) ensures !Misdirected(After(EMPTY, acts).pools, Name(u), i) {
        OneHashAims(acts, Name(u), i);
      }
    } else {
      var v := TwoHashesLeaveAChoice(u);
      var acts := SharedPoolMisdirects(u, v);
    }
  }

  /** URIs as one parser leaves them: all cut at their first '#', or all at their last. */
  ghost predicate CutAlike(us: set<Uri>) {
    (forall u :: u in us ==> Unhashed(u)) || (forall u :: u in us ==> '#' !in u.fragment)
  }

  /** As long as every get's URI is cut by one rule, nothing is ever misdirected, whatever the names. */
  lemma CutAlikeIsNeverMisdirected(acts: seq<Act>, name: string, i: nat)
    requires IsHistory(EMPTY, acts) && CutAlike(Asked(acts))
    ensures !Misdirected(After(EMPTY, acts).pools, name, i)
  {
    var pools := After(EMPTY, acts).pools;
    if name in pools && CanStep(pools[name], Connect(i, Reused)) { ReuseKeepsDestination(acts, name, i); }
  }
}
