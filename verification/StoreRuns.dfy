/** The store: pools by name, each running the protocol, created on demand and erased when idle.

    store::get drops the store lock between choosing the pool and taking a connection; here the two
    are one step. */
module StoreRuns {
  import opened Prelude
  import opened Endpoint
  import opened Protocol
  import Wire
  import opened Runs

  /** The pools, and those erased so far as they were when erased. */
  datatype Depot = Depot(pools: map<string, World>, erased: seq<World>)

  const EMPTY := Depot(map[], [])

  datatype Act =
    | Get(uri: Uri, conf: Settings, rows: nat, maxPools: nat, maxSockets: nat)
    | Inside(name: string, step: Label)
    | Erase(name: string)

  /** select_pool refuses only a new name, and only when there are more pools than the limit. */
  predicate Selectable(names: set<string>, name: string, maxPools: nat) {
    name in names || |names| <= maxPools
  }

  function Select(pools: map<string, World>, name: string): map<string, World> {
    if name in pools then pools else pools[name := START]
  }

  function Arrival(a: Act): Label
    requires a.Get?
  {
    Arrive(a.conf, a.uri, a.rows, a.maxSockets)
  }

  /** What a pool does other than hand out a connection goes on by itself. */
  predicate Allowed(d: Depot, a: Act) {
    a.Inside? ==> a.name in d.pools && !a.step.Arrive? && CanStep(d.pools[a.name], a.step)
  }

  /** A get that finds its pool full throws, but leaves a pool it created; an erase of an unknown or
      busy pool throws and changes nothing. */
  function Do(d: Depot, a: Act): Depot
    requires Allowed(d, a)
  {
    match a
    case Get(uri, _, _, maxPools, _) =>
      if !Selectable(d.pools.Keys, Name(uri), maxPools) then d
      else
        var pools := Select(d.pools, Name(uri));
        var w := pools[Name(uri)];
        d.(pools := if CanStep(w, Arrival(a)) then pools[Name(uri) := Step(w, Arrival(a))] else pools)
    case Inside(name, step) => d.(pools := d.pools[name := Step(d.pools[name], step)])
    case Erase(name) =>
      if name in d.pools && d.pools[name].sys.pool.active == []
      then Depot(d.pools - {name}, d.erased + [d.pools[name]])
      else d
  }

  predicate IsHistory(d: Depot, acts: seq<Act>)
    decreases acts
  {
    acts == [] || (Allowed(d, acts[0]) && IsHistory(Do(d, acts[0]), acts[1..]))
  }

  function After(d: Depot, acts: seq<Act>): Depot
    requires IsHistory(d, acts)
    decreases acts
  {
    if acts == [] then d else After(Do(d, acts[0]), acts[1..])
  }

  // ----- every pool in the store is a run of the protocol

  lemma ReachableStep(w: World, l: Label)
    requires Reachable(w) && CanStep(w, l)
    ensures Reachable(Step(w, l))
  {
    var ls :| IsRun(START, ls) && Run(START, ls) == w;
    RunExtends(START, ls, l);
  }

  lemma StartReachable()
    ensures Reachable(START)
  {
    assert IsRun(START, []) && Run(START, []) == START;
  }

  ghost predicate DepotOk(d: Depot) {
    && (forall name :: name in d.pools ==> Reachable(d.pools[name]))
    && (forall k :: 0 <= k < |d.erased| ==> Reachable(d.erased[k]) && d.erased[k].sys.pool.active == [])
  }

  lemma DoKeeps(d: Depot, a: Act)
    requires DepotOk(d) && Allowed(d, a)
    ensures DepotOk(Do(d, a))
  {
    match a {
      case Get(uri, _, _, _, _) =>
        StartReachable();
        var w := Select(d.pools, Name(uri))[Name(uri)];
        if CanStep(w, Arrival(a)) { ReachableStep(w, Arrival(a)); }
      case Inside(name, step) => ReachableStep(d.pools[name], step);
      case Erase(name) =>
    }
  }

  lemma {:induction false} AfterOk(d: Depot, acts: seq<Act>)
    requires DepotOk(d) && IsHistory(d, acts)
    ensures DepotOk(After(d, acts))
    decreases acts
  {
    if acts != [] {
      DoKeeps(d, acts[0]);
      AfterOk(Do(d, acts[0]), acts[1..]);
    }
  }

  /** Nothing was lost by any erase: in every erased pool each created transaction had its one commit
      attempt and each connection handed out had come back, once. */
  lemma ErasedPoolsWereComplete(acts: seq<Act>, k: nat)
    requires IsHistory(EMPTY, acts) && k < |After(EMPTY, acts).erased|
    ensures var w := After(EMPTY, acts).erased[k];
            && Quiescent(w.sys) && w.sys.pool.store == []
            && NoDup(w.ledger.attempted) && (forall id :: 1 <= id <= w.sys.pool.txnSeq <==> id in w.ledger.attempted)
            && NoDup(w.book.returned) && (forall i :: 0 <= i < |w.sys.stmts| <==> i in w.book.returned)
  {
    AfterOk(EMPTY, acts);
    var w := After(EMPTY, acts).erased[k];
    EraseLosesNothing(w);
    NothingLeaks(w);
  }

  // ----- how many pools and sockets

  function Size(w: World): nat {
    |w.sys.pool.active| + |w.sys.pool.ready|
  }

  ghost function AnyOf(names: set<string>): (n: string)
    requires names != {}
    ensures n in names
  {
    var n :| n in names;
    n
  }

  /** The sockets held by the named pools. */
  ghost function Total(pools: map<string, World>, names: set<string>): nat
    requires names <= pools.Keys
  {
    if names == {} then 0
    else var n := AnyOf(names); Size(pools[n]) + Total(pools, names - {n})
  }

  /** The total does not depend on the order in which pools are counted. */
  lemma {:induction false} TotalSplits(pools: map<string, World>, names: set<string>, n: string)
    requires names <= pools.Keys && n in names
    ensures Total(pools, names) == Size(pools[n]) + Total(pools, names - {n})
    decreases names
  {
    var m := AnyOf(names);
    if m != n {
      TotalSplits(pools, names - {m}, n);
      TotalSplits(pools, names - {n}, m);
      assert names - {m} - {n} == names - {n} - {m};
    }
  }

  lemma {:induction false} TotalAtMost(pools: map<string, World>, names: set<string>, each: nat)
    requires names <= pools.Keys && forall n :: n in names ==> Size(pools[n]) <= each
    ensures Total(pools, names) <= |names| * each
    decreases names
  {
    if names != {} {
      var n := AnyOf(names);
      TotalAtMost(pools, names - {n}, each);
      assert |names - {n}| == |names| - 1;
      assert (|names| - 1) * each + each == |names| * each;
    }
  }

  /** Limits in force at every get. */
  predicate Within(acts: seq<Act>, maxPools: nat, maxSockets: nat) {
    forall k :: 0 <= k < |acts| && acts[k].Get? ==> acts[k].maxPools <= maxPools && acts[k].maxSockets <= maxSockets
  }

  ghost predicate Bounded(pools: map<string, World>, maxPools: nat, maxSockets: nat) {
    && |pools| <= maxPools + 1
    && (forall name :: name in pools ==> pools[name].peaks.sockets <= maxSockets)
  }

  lemma SetBound(pools: map<string, World>, name: string, w: World, maxPools: nat, maxSockets: nat)
    requires Bounded(pools, maxPools, maxSockets) && w.peaks.sockets <= maxSockets
    requires name in pools || |pools| <= maxPools
    ensures Bounded(pools[name := w], maxPools, maxSockets)
  {
    assert |pools| == |pools.Keys| && |pools[name := w]| == |pools[name := w].Keys|;
    assert pools[name := w].Keys == pools.Keys + {name};
    if name in pools { assert pools.Keys + {name} == pools.Keys; }
  }

  lemma GetBound(d: Depot, a: Act, maxPools: nat, maxSockets: nat)
    requires Bounded(d.pools, maxPools, maxSockets) && a.Get? && a.maxPools <= maxPools && a.maxSockets <= maxSockets
    ensures Bounded(Do(d, a).pools, maxPools, maxSockets)
  {
    var name := Name(a.uri);
    assert |d.pools| == |d.pools.Keys|;
    if Selectable(d.pools.Keys, name, a.maxPools) {
      if name !in d.pools { SetBound(d.pools, name, START, maxPools, maxSockets); }
      var pools := Select(d.pools, name);
      if CanStep(pools[name], Arrival(a)) {
        SetBound(pools, name, Step(pools[name], Arrival(a)), maxPools, maxSockets);
      }
    }
  }

  lemma DoBound(d: Depot, a: Act, maxPools: nat, maxSockets: nat)
    requires Bounded(d.pools, maxPools, maxSockets) && Allowed(d, a)
    requires a.Get? ==> a.maxPools <= maxPools && a.maxSockets <= maxSockets
    ensures Bounded(Do(d, a).pools, maxPools, maxSockets)
  {
    if a.Get? {
      GetBound(d, a, maxPools, maxSockets);
    } else if a.Inside? {
      SetBound(d.pools, a.name, Step(d.pools[a.name], a.step), maxPools, maxSockets);
    } else {
      assert |d.pools| == |d.pools.Keys| && |d.pools - {a.name}| == |(d.pools - {a.name}).Keys|;
      assert (d.pools - {a.name}).Keys <= d.pools.Keys;
      Fewer((d.pools - {a.name}).Keys, d.pools.Keys);
    }
  }

  lemma Fewer(a: set<string>, b: set<string>)
    requires a <= b
    ensures |a| <= |b|
  {
    assert b == a + (b - a);
  }

  lemma {:induction false} AfterBound(d: Depot, acts: seq<Act>, maxPools: nat, maxSockets: nat)
    requires IsHistory(d, acts) && Within(acts, maxPools, maxSockets) && Bounded(d.pools, maxPools, maxSockets)
    ensures Bounded(After(d, acts).pools, maxPools, maxSockets)
    decreases acts
  {
    if acts != [] {
      assert acts[0].Get? ==> acts[0].maxPools <= maxPools && acts[0].maxSockets <= maxSockets;
      DoBound(d, acts[0], maxPools, maxSockets);
      AfterBound(Do(d, acts[0]), acts[1..], maxPools, maxSockets);
    }
  }

  /** At most one pool more than the limit, and so many times the socket limit in sockets, busy and idle. */
  lemma StoreBounded(acts: seq<Act>, maxPools: nat, maxSockets: nat)
    requires IsHistory(EMPTY, acts) && Within(acts, maxPools, maxSockets)
    ensures var pools := After(EMPTY, acts).pools;
            |pools| <= maxPools + 1 && Total(pools, pools.Keys) <= (maxPools + 1) * maxSockets
  {
    AfterOk(EMPTY, acts);
    AfterBound(EMPTY, acts, maxPools, maxSockets);
    var pools := After(EMPTY, acts).pools;
    forall n | n in pools.Keys ensures Size(pools[n]) <= maxSockets { SocketsBounded(pools[n]); }
    TotalAtMost(pools, pools.Keys, maxSockets);
    assert |pools| == |pools.Keys|;
    assert |pools| * maxSockets <= (maxPools + 1) * maxSockets by { Grows(|pools|, maxPools + 1, maxSockets); }
  }

  lemma Grows(a: nat, b: nat, c: nat)
    requires a <= b
    ensures a * c <= b * c
  {
    assert b * c == a * c + (b - a) * c;
  }

  // ----- the extra pool is really possible

  function Nth(k: nat): Uri {
    Uri("", "", "", seq(k, _ => 'x'))
  }

  function Visits(n: nat, maxPools: nat): seq<Act> {
    if n == 0 then [] else Visits(n - 1, maxPools) + [Get(Nth(n), Settings(false, false), 0, maxPools, 0)]
  }

  lemma {:induction false} HistoryExtends(d: Depot, acts: seq<Act>, a: Act)
    requires IsHistory(d, acts) && Allowed(After(d, acts), a)
    ensures IsHistory(d, acts + [a]) && After(d, acts + [a]) == Do(After(d, acts), a)
    decreases acts
  {
    if acts == [] {
      assert acts + [a] == [a] && [a][1..] == [];
    } else {
      HistoryExtends(Do(d, acts[0]), acts[1..], a);
      assert (acts + [a])[0] == acts[0] && (acts + [a])[1..] == acts[1..] + [a];
    }
  }

  function Names(n: nat): set<string> {
    if n == 0 then {} else Names(n - 1) + {Name(Nth(n))}
  }

  lemma NamesDiffer(m: nat, n: nat)
    requires m != n
    ensures Name(Nth(m)) != Name(Nth(n))
  {
    NameFixesFragment(Nth(m));
    NameFixesFragment(Nth(n));
    assert |Nth(m).fragment| == m && |Nth(n).fragment| == n;
  }

  lemma {:induction false} NewName(n: nat, m: nat)
    requires m < n
    ensures Name(Nth(n)) !in Names(m)
  {
    if m > 0 {
      NewName(n, m - 1);
      NamesDiffer(m, n);
    }
  }

  /** Gets for n different URIs leave n pools, up to and including one more than the limit. */
  lemma {:induction false} VisitsFill(n: nat, maxPools: nat)
    requires n <= maxPools + 1
    ensures IsHistory(EMPTY, Visits(n, maxPools))
    ensures After(EMPTY, Visits(n, maxPools)).pools.Keys == Names(n) && |After(EMPTY, Visits(n, maxPools)).pools| == n
  {
    if n > 0 {
      VisitsFill(n - 1, maxPools);
      NewName(n, n - 1);
      HistoryExtends(EMPTY, Visits(n - 1, maxPools), Get(Nth(n), Settings(false, false), 0, maxPools, 0));
      VisitAdds(After(EMPTY, Visits(n - 1, maxPools)), Nth(n), maxPools);
    }
  }

  /** A get without room for a socket still creates the pool. */
  lemma VisitAdds(d: Depot, u: Uri, maxPools: nat)
    requires |d.pools| <= maxPools && Name(u) !in d.pools
    ensures var d' := Do(d, Get(u, Settings(false, false), 0, maxPools, 0));
            d'.pools.Keys == d.pools.Keys + {Name(u)} && |d'.pools| == |d.pools| + 1
  {
    var d' := Do(d, Get(u, Settings(false, false), 0, maxPools, 0));
    assert |d.pools| == |d.pools.Keys| && |d'.pools| == |d'.pools.Keys|;
    assert d'.pools.Keys == d.pools.Keys + {Name(u)};
  }

  /** The limit that is exceeded by one: the test in select_pool lets the last pool in. */
  lemma OnePoolTooMany(maxPools: nat) returns (acts: seq<Act>)
    ensures IsHistory(EMPTY, acts) && Within(acts, maxPools, 0)
    ensures |After(EMPTY, acts).pools| == maxPools + 1
  {
    acts := Visits(maxPools + 1, maxPools);
    VisitsFill(maxPools + 1, maxPools);
    VisitsWithin(maxPools + 1, maxPools);
  }

  lemma {:induction false} VisitsWithin(n: nat, maxPools: nat)
    ensures Within(Visits(n, maxPools), maxPools, 0)
  {
    if n > 0 { VisitsWithin(n - 1, maxPools); }
  }

  // ----- reuse keeps the destination

  /** The URIs that a history's gets ask for. */
  function Asked(acts: seq<Act>): set<Uri> {
    set k | 0 <= k < |acts| && acts[k].Get? :: acts[k].uri
  }

  /** Every statement and every open socket of a pool has one of these URIs, with the pool's name. */
  ghost predicate Aimed(pools: map<string, World>, us: set<Uri>) {
    forall name :: name in pools ==> Leads(pools[name], us, name)
  }

  ghost predicate Leads(w: World, us: set<Uri>, name: string) {
    Wire.Toward(w.sys, w.net, set u | u in us && Name(u) == name)
  }

  lemma PoolStepAims(pools: map<string, World>, us: set<Uri>, name: string, l: Label)
    requires Aimed(pools, us) && name in pools && CanStep(pools[name], l)
    requires l.Arrive? ==> l.uri in us && Name(l.uri) == name
    ensures Aimed(pools[name := Step(pools[name], l)], us)
  {
    Wire.TowardKeeps(pools[name].sys, pools[name].net, l, set u | u in us && Name(u) == name);
  }

  lemma DoAims(d: Depot, us: set<Uri>, a: Act)
    requires Aimed(d.pools, us) && Allowed(d, a) && (a.Get? ==> a.uri in us)
    ensures Aimed(Do(d, a).pools, us)
  {
    if a.Get? {
      var name := Name(a.uri);
      var pools := Select(d.pools, name);
      assert Leads(START, us, name);
      if CanStep(pools[name], Arrival(a)) { PoolStepAims(pools, us, name, Arrival(a)); }
    } else if a.Inside? {
      PoolStepAims(d.pools, us, a.name, a.step);
    }
  }

  lemma {:induction false} AfterAims(d: Depot, us: set<Uri>, acts: seq<Act>)
    requires Aimed(d.pools, us) && IsHistory(d, acts) && Asked(acts) <= us
    ensures Aimed(After(d, acts).pools, us)
    decreases acts
  {
    if acts != [] {
      assert acts[0].Get? ==> acts[0].uri in Asked(acts);
      forall u | u in Asked(acts[1..]) ensures u in us {
        var k :| 0 <= k < |acts[1..]| && acts[1..][k].Get? && acts[1..][k].uri == u;
        assert acts[k + 1] == acts[1..][k] && u in Asked(acts);
      }
      DoAims(d, us, acts[0]);
      AfterAims(Do(d, acts[0]), us, acts[1..]);
    }
  }

  /** The URI that statement i of a pool was called with, and the one its live socket was opened for. */
  function AskedAndOpened(w: World, i: nat): (Uri, Uri)
    requires CanStep(w, Connect(i, Reused))
  {
    (w.sys.stmts[i].uri, w.net.open[w.sys.stmts[i].conn].uri)
  }

  /** Whichever statement opened it, in whatever order pools were filled and erased, a socket that
      connect() reuses was opened for a URI that some get asked for, with the same pool name as the URI now
      asked for: for the same fragment when the name has one '#' after its first '@', or both were cut at
      their first '#' or both at their last; for the same login, fragment and joined address and path when
      no login has an '@' and no address or path a '#'; for the very same URI when both are well-formed. */
  lemma ReuseKeepsDestination(acts: seq<Act>, name: string, i: nat)
    requires IsHistory(EMPTY, acts)
    requires var pools := After(EMPTY, acts).pools; name in pools && CanStep(pools[name], Connect(i, Reused))
    ensures var (asked, first) := AskedAndOpened(After(EMPTY, acts).pools[name], i);
            && asked in Asked(acts) && first in Asked(acts) && Name(asked) == Name(first) == name
            && (OneHash(name) ==> asked.fragment == first.fragment)
            && (Unhashed(asked) && Unhashed(first) ==> asked.fragment == first.fragment == Decode(name).fragment)
            && ('#' !in asked.fragment && '#' !in first.fragment ==> asked.fragment == first.fragment)
            && (Splittable(asked) && Splittable(first) ==>
                  asked.login == first.login && asked.address + asked.path == first.address + first.path
                  && asked.fragment == first.fragment)
            && (WellFormed(asked) && WellFormed(first) ==> asked == first)
  {
    AfterAims(EMPTY, Asked(acts), acts);
    var w := After(EMPTY, acts).pools[name];
    assert Leads(w, Asked(acts), name);
    var (asked, first) := AskedAndOpened(w, i);
    SharedName(asked, first);
  }

  lemma SharedName(u: Uri, v: Uri)
    requires Name(u) == Name(v)
    ensures OneHash(Name(u)) ==> u.fragment == v.fragment
    ensures Unhashed(u) && Unhashed(v) ==> u.fragment == v.fragment == Decode(Name(u)).fragment
    ensures '#' !in u.fragment && '#' !in v.fragment ==> u.fragment == v.fragment
    ensures Splittable(u) && Splittable(v) ==>
        u.login == v.login && u.address + u.path == v.address + v.path && u.fragment == v.fragment
    ensures WellFormed(u) && WellFormed(v) ==> u == v
  {
    if OneHash(Name(u)) { OneHashFixes(u, v); }
    if (Unhashed(u) && Unhashed(v)) || ('#' !in u.fragment && '#' !in v.fragment) { SameNameSameFragment(u, v); }
    if Splittable(u) && Splittable(v) { SameNameSamePlace(u, v); }
    if WellFormed(u) && WellFormed(v) {
      NameDecodes(u);
      NameDecodes(v);
    }
    DecodesFragmentIff(u);
  }
}
