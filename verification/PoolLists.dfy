/** The three lists of a pool as values, and what each pool method does to them.

    `C` is the identity of a connection: list iterators stay valid while a node moves between
    lists, so a node's identity stands for its iterator. The imperative pool uses the connection
    objects themselves, the protocol uses numbers. */
module PoolLists {
  import opened Prelude

  datatype Txn<C> = Txn(id: nat, ready: bool, conn: C)

  datatype Lists<C> = Lists(active: seq<C>, ready: seq<C>, store: seq<Txn<C>>, txnSeq: nat)

  /** pool::get succeeds when a connection is waiting or another may be created. */
  predicate CanGet<C>(v: Lists<C>, maxSockets: nat) {
    v.ready != [] || |v.active| < maxSockets
  }

  /** The connection pool::get hands out: the most recently returned one, else a new one. */
  function Chosen<C>(v: Lists<C>, spare: C): C {
    if v.ready != [] then v.ready[0] else spare
  }

  function Get<C>(v: Lists<C>, spare: C): Lists<C> {
    v.(active := [Chosen(v, spare)] + v.active,
       ready := if v.ready != [] then v.ready[1..] else [])
  }

  /** pool::release_connection: keep a live connection for reuse, otherwise destroy it. */
  function GiveBack<C(==)>(v: Lists<C>, c: C, good: bool, poolSockets: nat): Lists<C> {
    v.(active := Without(v.active, c),
       ready := if good && |v.ready| < poolSockets then [c] + v.ready else v.ready)
  }

  function GiveBackAll<C(==)>(v: Lists<C>, cs: seq<C>, good: set<C>, poolSockets: nat): Lists<C>
    decreases cs
  {
    if cs == [] then v
    else GiveBackAll(GiveBack(v, cs[0], cs[0] in good, poolSockets), cs[1..], good, poolSockets)
  }

  /** pool::create_transaction: the next number, at the end of the store, not ready. */
  function AddTxn<C>(v: Lists<C>, c: C): Lists<C> {
    v.(store := v.store + [Txn(v.txnSeq + 1, false, c)], txnSeq := v.txnSeq + 1)
  }

  function MarkReady<C>(store: seq<Txn<C>>, id: nat): (r: seq<Txn<C>>)
    ensures |r| == |store|
  {
    seq(|store|, k requires 0 <= k < |store| =>
      if store[k].id == id then store[k].(ready := true) else store[k])
  }

  /** Length of the longest prefix of finished transactions. */
  function ReadyPrefix<C>(store: seq<Txn<C>>): (n: nat)
    ensures n <= |store|
    ensures forall k :: 0 <= k < n ==> store[k].ready
    ensures n < |store| ==> !store[n].ready
  {
    if store == [] || !store[0].ready then 0 else 1 + ReadyPrefix(store[1..])
  }

  /** What pool::get_uncommited hands to the caller that finishes transaction `id`. */
  function Batch<C>(v: Lists<C>, id: nat): seq<Txn<C>> {
    var marked := MarkReady(v.store, id);
    if marked == [] || marked[0].id != id then [] else marked[..ReadyPrefix(marked)]
  }

  /** The lists after pool::get_uncommited. */
  function Finish<C>(v: Lists<C>, id: nat): Lists<C> {
    var marked := MarkReady(v.store, id);
    v.(store := if marked == [] || marked[0].id != id then marked else marked[ReadyPrefix(marked)..])
  }

  function Unready<C>(store: seq<Txn<C>>): seq<Txn<C>> {
    if store == [] then []
    else (if store[0].ready then [] else [store[0]]) + Unready(store[1..])
  }

  function ReadyOnes<C>(store: seq<Txn<C>>): seq<Txn<C>> {
    if store == [] then []
    else (if store[0].ready then [store[0]] else []) + ReadyOnes(store[1..])
  }

  function Conns<C>(ts: seq<Txn<C>>): (r: seq<C>)
    ensures |r| == |ts| && forall k :: 0 <= k < |r| ==> r[k] == ts[k].conn
  {
    seq(|ts|, k requires 0 <= k < |ts| => ts[k].conn)
  }

  function Ids<C>(ts: seq<Txn<C>>): (r: seq<nat>)
    ensures |r| == |ts| && forall k :: 0 <= k < |r| ==> r[k] == ts[k].id
  {
    seq(|ts|, k requires 0 <= k < |ts| => ts[k].id)
  }

  /** pool::force_commit, in closed form: every ready transaction leaves the store and gives its
      connection back, in store order; the others stay, in order. */
  function Force<C(==)>(v: Lists<C>, good: set<C>, poolSockets: nat): Lists<C> {
    GiveBackAll(v.(store := Unready(v.store)), Conns(ReadyOnes(v.store)), good, poolSockets)
  }

  /** connection::commit by connection c, run to its end: a plain statement gives c back; a
      transactional one finishes, and if its transaction was first every drained connection comes
      back, c last. */
  function Retire<C(==)>(v: Lists<C>, txn: Option<nat>, c: C, good: set<C>, poolSockets: nat): Lists<C> {
    if txn.None? then GiveBack(v, c, c in good, poolSockets)
    else
      var batch := Batch(v, txn.value);
      if batch == [] then Finish(v, txn.value)
      else GiveBack(GiveBackAll(Finish(v, txn.value), Conns(batch)[1..], good, poolSockets), c, c in good, poolSockets)
  }

  // ----- facts about the list operations

  ghost predicate Apart<C>(v: Lists<C>) {
    && NoDup(v.active) && NoDup(v.ready)
    && forall c :: c in v.active ==> c !in v.ready
  }

  lemma GetSeparates<C>(v: Lists<C>, spare: C)
    requires Apart(v) && spare !in v.active && spare !in v.ready
    ensures var w := Get(v, spare); var c := Chosen(v, spare);
            && Apart(w) && c !in v.active
            && (forall d :: d in w.active <==> d in v.active || d == c)
            && (forall d :: d in w.ready <==> d in v.ready && d != c)
  {
    if v.ready != [] {
      var c, rest := v.ready[0], v.ready[1..];
      assert v.ready == [c] + rest && c in v.ready && c !in rest;
      assert Get(v, spare).active == [c] + v.active;
    }
  }

  lemma GiveBackSeparates<C>(v: Lists<C>, c: C, good: bool, poolSockets: nat)
    requires Apart(v) && c in v.active
    ensures var w := GiveBack(v, c, good, poolSockets);
            && Apart(w) && w.store == v.store && w.txnSeq == v.txnSeq
            && (forall d :: d in w.active <==> d in v.active && d != c)
            && (forall d :: d in w.ready ==> d in v.ready || (d == c && good))
            && (forall d :: d in v.ready ==> d in w.ready)
            && |w.active| == |v.active| - 1
            && |w.active| + |w.ready| <= |v.active| + |v.ready|
            && (|w.ready| <= |v.ready| || |w.ready| <= poolSockets)
  {
    WithoutRemoves(v.active, c);
  }

  /** The connection given back last is handed out first: a live one is kept exactly while there is room, and
      then the next get takes it and leaves the others waiting as they were; else nothing is added. */
  lemma LastBackFirstOut<C>(v: Lists<C>, c: C, good: bool, poolSockets: nat, spare: C)
    ensures var w := GiveBack(v, c, good, poolSockets);
            if good && |v.ready| < poolSockets
            then Chosen(w, spare) == c && Get(w, spare).ready == v.ready && Get(w, spare).active == [c] + w.active
            else w.ready == v.ready
  {
  }

  /** So live connections given back while there is room wait in the opposite order, before those that waited. */
  lemma {:induction false} LastInFirstOut<C>(v: Lists<C>, cs: seq<C>, good: set<C>, poolSockets: nat)
    requires (forall c :: c in cs ==> c in good) && |v.ready| + |cs| <= poolSockets
    ensures var w := GiveBackAll(v, cs, good, poolSockets);
            && |w.ready| == |cs| + |v.ready| && w.ready[|cs|..] == v.ready
            && forall k :: 0 <= k < |cs| ==> w.ready[k] == cs[|cs| - 1 - k]
    decreases cs
  {
    if cs != [] {
      var w1 := GiveBack(v, cs[0], cs[0] in good, poolSockets);
      assert w1.ready == [cs[0]] + v.ready;
      LastInFirstOut(w1, cs[1..], good, poolSockets);
      var w := GiveBackAll(v, cs, good, poolSockets);
      assert w.ready[|cs| - 1..] == [cs[0]] + v.ready;
      assert w.ready[|cs| - 1] == w.ready[|cs| - 1..][0];
      assert w.ready[|cs|..] == w.ready[|cs| - 1..][1..];
    }
  }

  lemma {:induction false} GiveBackAllSeparates<C>(v: Lists<C>, cs: seq<C>, good: set<C>, poolSockets: nat)
    requires Apart(v) && NoDup(cs) && forall c :: c in cs ==> c in v.active
    ensures var w := GiveBackAll(v, cs, good, poolSockets);
            && Apart(w) && w.store == v.store && w.txnSeq == v.txnSeq
            && (forall d :: d in w.active <==> d in v.active && d !in cs)
            && (forall d :: d in w.ready ==> d in v.ready || (d in cs && d in good))
            && |w.active| == |v.active| - |cs|
            && |w.active| + |w.ready| <= |v.active| + |v.ready|
            && (|w.ready| <= |v.ready| || |w.ready| <= poolSockets)
    decreases cs
  {
    if cs != [] {
      GiveBackSeparates(v, cs[0], cs[0] in good, poolSockets);
      assert cs == [cs[0]] + cs[1..];
      assert cs[0] !in cs[1..];
      GiveBackAllSeparates(GiveBack(v, cs[0], cs[0] in good, poolSockets), cs[1..], good, poolSockets);
    }
  }

  /** Both halves of a store, by membership. */
  lemma {:induction false} SplitByReady<C>(store: seq<Txn<C>>)
    ensures forall t :: t in Unready(store) <==> t in store && !t.ready
    ensures forall t :: t in ReadyOnes(store) <==> t in store && t.ready
    ensures |Unready(store)| + |ReadyOnes(store)| == |store|
  {
    if store != [] {
      assert store == [store[0]] + store[1..];
      SplitByReady(store[1..]);
    }
  }

  /** Transactions in creation order. */
  ghost predicate Ordered<C>(ts: seq<Txn<C>>) {
    forall i, j :: 0 <= i < j < |ts| ==> ts[i].id < ts[j].id
  }

  /** Every number in the list exceeds the floor. */
  ghost predicate Above<C>(ts: seq<Txn<C>>, floor: nat) {
    forall k :: 0 <= k < |ts| ==> floor < ts[k].id
  }

  lemma PrependKeepsOrder<C>(t: Txn<C>, ts: seq<Txn<C>>)
    requires Ordered(ts) && Above(ts, t.id)
    ensures Ordered([t] + ts)
  {
  }

  lemma {:induction false} SplitKeepsOrder<C>(store: seq<Txn<C>>, floor: nat)
    requires Ordered(store) && Above(store, floor)
    ensures Ordered(Unready(store)) && Above(Unready(store), floor)
    ensures Ordered(ReadyOnes(store)) && Above(ReadyOnes(store), floor)
  {
    if store != [] {
      var t, rest := store[0], store[1..];
      SplitKeepsOrder(rest, t.id);
      PrependKeepsOrder(t, Unready(rest));
      PrependKeepsOrder(t, ReadyOnes(rest));
    }
  }

  lemma NextGivenBack<C>(v: Lists<C>, cs: seq<C>, k: nat, good: set<C>, poolSockets: nat)
    requires k < |cs|
    ensures GiveBackAll(v, cs[k..], good, poolSockets) ==
            GiveBackAll(GiveBack(v, cs[k], cs[k] in good, poolSockets), cs[k + 1..], good, poolSockets)
  {
    assert cs[k..][1..] == cs[k + 1..];
  }

  /** get_uncommited on an ordered store: the caller's transaction, if first, and the n - 1 after it
      leave; else it is only marked. */
  lemma FinishSplits<C>(v: Lists<C>, id: nat, p: nat) returns (n: nat)
    requires Ordered(v.store) && p < |v.store| && v.store[p].id == id
    ensures p > 0 ==> n == 0 && Batch(v, id) == [] && Finish(v, id).store == v.store[p := v.store[p].(ready := true)]
    ensures p == 0 ==>
      && 1 <= n <= |v.store| && Batch(v, id) == [v.store[0].(ready := true)] + v.store[1..n]
      && Finish(v, id).store == v.store[n..] && (n < |v.store| ==> !v.store[n].ready)
      && forall k :: 1 <= k < n ==> v.store[k].ready
  {
    var marked := MarkReady(v.store, id);
    assert marked == v.store[p := v.store[p].(ready := true)];
    if p > 0 {
      n := 0;
      assert v.store[0].id < v.store[p].id;
    } else {
      n := ReadyPrefix(marked);
      assert marked[..n] == [marked[0]] + v.store[1..n];
      assert marked[n..] == v.store[n..];
    }
  }

  /** The walk over the finished prefix goes past the last transaction exactly when the drain empties the
      store, that is when every other transaction had finished. */
  lemma WalksPastEndIff<C>(v: Lists<C>, id: nat)
    requires Ordered(v.store) && v.store != [] && v.store[0].id == id
    ensures var marked := MarkReady(v.store, id);
      && (ReadyPrefix(marked) == |marked| <==> Finish(v, id).store == [])
      && (ReadyPrefix(marked) == |marked| <==> forall k :: 1 <= k < |v.store| ==> v.store[k].ready)
  {
    var marked := MarkReady(v.store, id);
    var n := FinishSplits(v, id, 0);
    assert forall k :: 1 <= k < |v.store| ==> marked[k] == v.store[k];
    assert n == |v.store| - |Finish(v, id).store|;
  }

  /** Stored transactions are on active connections, each on its own. */
  ghost predicate Placed<C>(v: Lists<C>) {
    && Apart(v) && Ordered(v.store)
    && (forall k :: 0 <= k < |v.store| ==> v.store[k].conn in v.active)
    && (forall j, k :: 0 <= j < k < |v.store| ==> v.store[j].conn != v.store[k].conn)
  }

  lemma {:induction false} ReadySublist<C>(store: seq<Txn<C>>, k: nat) returns (m: nat)
    requires k < |ReadyOnes(store)|
    ensures m < |store| && store[m] == ReadyOnes(store)[k] && store[m].ready
  {
    if store[0].ready && k == 0 {
      m := 0;
    } else {
      var i := ReadySublist(store[1..], if store[0].ready then k - 1 else k);
      m := i + 1;
    }
  }

  lemma {:induction false} ReadyPair<C>(store: seq<Txn<C>>, j: nat, k: nat) returns (m: nat, n: nat)
    requires j < k < |ReadyOnes(store)|
    ensures m < n < |store| && store[m] == ReadyOnes(store)[j] && store[n] == ReadyOnes(store)[k]
  {
    if store[0].ready && j == 0 {
      m := 0;
      n := ReadySublist(store[1..], k - 1);
      n := n + 1;
    } else {
      var d := if store[0].ready then 1 else 0;
      m, n := ReadyPair(store[1..], j - d, k - d);
      m, n := m + 1, n + 1;
    }
  }

  /** The finished transactions are on distinct active connections. */
  lemma ReadyConns<C>(v: Lists<C>)
    requires Placed(v)
    ensures NoDup(Conns(ReadyOnes(v.store))) && forall c :: c in Conns(ReadyOnes(v.store)) ==> c in v.active
  {
    var ts := ReadyOnes(v.store);
    forall k | 0 <= k < |ts| ensures Conns(ts)[k] in v.active { var m := ReadySublist(v.store, k); }
    forall j, k | 0 <= j < k < |ts| ensures Conns(ts)[j] != Conns(ts)[k] {
      var m, n := ReadyPair(v.store, j, k);
    }
  }

  /** A commit by connection c leaves alone any other connection that no finished transaction is on. */
  lemma RetireKeepsOthers<C>(v: Lists<C>, txn: Option<nat>, p: nat, c: C, good: set<C>, poolSockets: nat, d: C)
    requires Placed(v) && c in v.active && d in v.active && d != c
    requires txn.Some? ==> p < |v.store| && v.store[p] == Txn(txn.value, false, c)
    requires forall k :: 0 <= k < |v.store| && v.store[k].ready ==> v.store[k].conn != d
    ensures d in Retire(v, txn, c, good, poolSockets).active
  {
    if txn.None? {
      GiveBackSeparates(v, c, c in good, poolSockets);
    } else {
      var n := FinishSplits(v, txn.value, p);
      if n > 0 {
        var batch, after := Batch(v, txn.value), Finish(v, txn.value);
        var cs := Conns(batch)[1..];
        forall k | 0 <= k < |cs| ensures cs[k] == v.store[k + 1].conn && cs[k] != d && cs[k] != c {
          assert batch[k + 1] == v.store[k + 1];
        }
        GiveBackAllSeparates(after, cs, good, poolSockets);
        GiveBackSeparates(GiveBackAll(after, cs, good, poolSockets), c, c in good, poolSockets);
      }
    }
  }

  /** And whatever newly waits for reuse has its socket open. */
  lemma RetireKeepsOpen<C>(v: Lists<C>, txn: Option<nat>, p: nat, c: C, good: set<C>, poolSockets: nat, d: C)
    requires Placed(v) && c in v.active
    requires txn.Some? ==> p < |v.store| && v.store[p] == Txn(txn.value, false, c)
    ensures d in Retire(v, txn, c, good, poolSockets).ready ==> d in v.ready || d in good
  {
    if txn.None? {
      GiveBackSeparates(v, c, c in good, poolSockets);
    } else {
      var n := FinishSplits(v, txn.value, p);
      if n > 0 {
        var batch, after := Batch(v, txn.value), Finish(v, txn.value);
        var cs := Conns(batch)[1..];
        forall k | 0 <= k < |cs| ensures cs[k] == v.store[k + 1].conn && cs[k] != c {
          assert batch[k + 1] == v.store[k + 1];
        }
        GiveBackAllSeparates(after, cs, good, poolSockets);
        GiveBackSeparates(GiveBackAll(after, cs, good, poolSockets), c, c in good, poolSockets);
      }
    }
  }

  /** What it leaves in the store was there before, on the same connection. */
  lemma RetireAddsNothing<C>(v: Lists<C>, txn: Option<nat>, p: nat, c: C, good: set<C>, poolSockets: nat, m: nat)
    returns (k: nat)
    requires Ordered(v.store) && m < |Retire(v, txn, c, good, poolSockets).store|
    requires txn.Some? ==> p < |v.store| && v.store[p] == Txn(txn.value, false, c)
    ensures k < |v.store| && v.store[k].conn == Retire(v, txn, c, good, poolSockets).store[m].conn
  {
    k := m;
    RetireStore(v, txn, c, good, poolSockets);
    if txn.Some? {
      var n := FinishSplits(v, txn.value, p);
      k := m + n;
    }
  }

  /** Giving connections back leaves the store to get_uncommited. */
  lemma RetireStore<C>(v: Lists<C>, txn: Option<nat>, c: C, good: set<C>, poolSockets: nat)
    ensures Retire(v, txn, c, good, poolSockets).store == if txn.None? then v.store else Finish(v, txn.value).store
  {
    if txn.Some? && Batch(v, txn.value) != [] {
      GiveBackAllKeepsStore(Finish(v, txn.value), Conns(Batch(v, txn.value))[1..], good, poolSockets);
    }
  }

  /** When all the others are finished, the first one's commit empties the store and frees every connection. */
  lemma RetireDrainsAll<C>(v: Lists<C>, id: nat, c: C, good: set<C>, poolSockets: nat, m: nat)
    requires Placed(v) && m < |v.store| && v.store[0] == Txn(id, false, c)
    requires forall k :: 1 <= k < |v.store| ==> v.store[k].ready
    ensures var w := Retire(v, Some(id), c, good, poolSockets); w.store == [] && v.store[m].conn !in w.active
  {
    var n := FinishSplits(v, id, 0);
    var batch, after := Batch(v, id), Finish(v, id);
    assert n == |v.store|;
    var cs := Conns(batch)[1..];
    forall k | 0 <= k < |cs| ensures cs[k] == v.store[k + 1].conn && cs[k] != c {
      assert batch[k + 1] == v.store[k + 1];
    }
    GiveBackAllSeparates(after, cs, good, poolSockets);
    GiveBackSeparates(GiveBackAll(after, cs, good, poolSockets), c, c in good, poolSockets);
    if m > 0 { assert cs[m - 1] == v.store[m].conn; }
  }

  /** And it leaves every other unfinished transaction in the store. */
  lemma RetireKeepsUnfinished<C>(v: Lists<C>, txn: Option<nat>, p: nat, c: C, good: set<C>, poolSockets: nat, m: nat)
    requires Ordered(v.store) && m < |v.store| && !v.store[m].ready
    requires txn.Some? ==> p < |v.store| && p != m && v.store[p] == Txn(txn.value, false, c)
    ensures v.store[m] in Retire(v, txn, c, good, poolSockets).store
  {
    RetireStore(v, txn, c, good, poolSockets);
    if txn.Some? {
      var n := FinishSplits(v, txn.value, p);
      var after := Finish(v, txn.value);
      if n > 0 { assert m >= n && v.store[n..][m - n] == v.store[m]; } else { assert after.store[m] == v.store[m]; }
    }
  }

  /** A forced commit leaves alone every connection that no finished transaction is on. */
  lemma ForceKeepsOthers<C>(v: Lists<C>, good: set<C>, poolSockets: nat, d: C)
    requires Placed(v) && d in v.active && forall k :: 0 <= k < |v.store| && v.store[k].ready ==> v.store[k].conn != d
    ensures d in Force(v, good, poolSockets).active
  {
    var ts := ReadyOnes(v.store);
    ReadyConns(v);
    forall k | 0 <= k < |ts| ensures Conns(ts)[k] != d { var m := ReadySublist(v.store, k); }
    GiveBackAllSeparates(v.(store := Unready(v.store)), Conns(ts), good, poolSockets);
  }

  lemma ForceStore<C>(v: Lists<C>, good: set<C>, poolSockets: nat, t: Txn<C>)
    ensures t in Force(v, good, poolSockets).store <==> t in v.store && !t.ready
  {
    SplitByReady(v.store);
    GiveBackAllKeepsStore(v.(store := Unready(v.store)), Conns(ReadyOnes(v.store)), good, poolSockets);
  }

  // ----- force_commit one transaction at a time

  function Erase<C>(ts: seq<Txn<C>>, i: nat): seq<Txn<C>>
    requires i < |ts|
  {
    ts[..i] + ts[i + 1..]
  }

  lemma EraseIs<C>(ts: seq<Txn<C>>, i: nat)
    requires i < |ts| && Ordered(ts)
    ensures |Erase(ts, i)| == |ts| - 1 && Ordered(Erase(ts, i))
    ensures forall m :: 0 <= m < |ts| - 1 ==> Erase(ts, i)[m] == ts[if m < i then m else m + 1]
  {
  }

  /** The force_commit loop from position i of the store. */
  function ForceFrom<C(==)>(v: Lists<C>, i: nat, good: set<C>, poolSockets: nat): Lists<C>
    decreases |v.store| - i
  {
    if i >= |v.store| then v
    else if v.store[i].ready then
      var c := v.store[i].conn;
      ForceFrom(GiveBack(v, c, c in good, poolSockets).(store := Erase(v.store, i)), i, good, poolSockets)
    else ForceFrom(v, i + 1, good, poolSockets)
  }

  lemma HeadSplits<C>(ts: seq<Txn<C>>, k: nat)
    requires k < |ts|
    ensures var t, rest := ts[k], ts[k + 1..];
            && Unready(ts[k..]) == (if t.ready then [] else [t]) + Unready(rest)
            && ReadyOnes(ts[k..]) == (if t.ready then [t] else []) + ReadyOnes(rest)
            && Conns(ReadyOnes(ts[k..])) == (if t.ready then [t.conn] else []) + Conns(ReadyOnes(rest))
  {
    assert ts[k..][1..] == ts[k + 1..];
  }

  /** What the loop still has to do from position i, in closed form. */
  function ForceRest<C(==)>(v: Lists<C>, i: nat, good: set<C>, poolSockets: nat): Lists<C>
    requires i <= |v.store|
  {
    GiveBackAll(v.(store := v.store[..i] + Unready(v.store[i..])), Conns(ReadyOnes(v.store[i..])), good, poolSockets)
  }

  lemma RestSkips<C>(v: Lists<C>, i: nat, good: set<C>, poolSockets: nat)
    requires i < |v.store| && !v.store[i].ready
    ensures ForceRest(v, i, good, poolSockets) == ForceRest(v, i + 1, good, poolSockets)
  {
    HeadSplits(v.store, i);
    var t, rest := v.store[i], Unready(v.store[i + 1..]);
    assert v.store[..i + 1] + rest == v.store[..i] + ([t] + rest);
    assert v.store[..i] + Unready(v.store[i..]) == v.store[..i + 1] + rest;
    assert [] + Conns(ReadyOnes(v.store[i + 1..])) == Conns(ReadyOnes(v.store[i + 1..]));
  }

  lemma RestTakes<C>(v: Lists<C>, i: nat, good: set<C>, poolSockets: nat)
    requires i < |v.store| && v.store[i].ready
    ensures var c := v.store[i].conn;
            ForceRest(v, i, good, poolSockets) ==
            ForceRest(GiveBack(v, c, c in good, poolSockets).(store := Erase(v.store, i)), i, good, poolSockets)
  {
    HeadSplits(v.store, i);
    var left, c := Erase(v.store, i), v.store[i].conn;
    assert left[..i] == v.store[..i] && left[i..] == v.store[i + 1..];
    var cs, rest := Conns(ReadyOnes(v.store[i..])), Conns(ReadyOnes(left[i..]));
    assert cs == [c] + rest && cs[1..] == rest;
    assert v.store[..i] + Unready(v.store[i..]) == left[..i] + Unready(left[i..]);
  }

  /** The loop refines the closed form. */
  lemma {:induction false} LoopRefinesForce<C>(v: Lists<C>, i: nat, good: set<C>, poolSockets: nat)
    requires i <= |v.store|
    ensures ForceFrom(v, i, good, poolSockets) == ForceRest(v, i, good, poolSockets)
    decreases |v.store| - i
  {
    if i == |v.store| {
      assert v.store[..i] + Unready(v.store[i..]) == v.store;
    } else if v.store[i].ready {
      var c := v.store[i].conn;
      RestTakes(v, i, good, poolSockets);
      LoopRefinesForce(GiveBack(v, c, c in good, poolSockets).(store := Erase(v.store, i)), i, good, poolSockets);
    } else {
      RestSkips(v, i, good, poolSockets);
      LoopRefinesForce(v, i + 1, good, poolSockets);
    }
  }

  lemma LoopIsForce<C>(v: Lists<C>, good: set<C>, poolSockets: nat)
    ensures ForceFrom(v, 0, good, poolSockets) == Force(v, good, poolSockets)
  {
    LoopRefinesForce(v, 0, good, poolSockets);
    assert v.store[0..] == v.store && v.store[..0] == [];
    assert v.store[..0] + Unready(v.store[0..]) == Unready(v.store);
  }

  lemma {:induction false} GiveBackAllKeepsStore<C>(v: Lists<C>, cs: seq<C>, good: set<C>, poolSockets: nat)
    ensures GiveBackAll(v, cs, good, poolSockets).store == v.store
    decreases cs
  {
    if cs != [] { GiveBackAllKeepsStore(GiveBack(v, cs[0], cs[0] in good, poolSockets), cs[1..], good, poolSockets); }
  }

  lemma ForceCounts<C>(v: Lists<C>, good: set<C>, poolSockets: nat)
    ensures |v.store| - |Force(v, good, poolSockets).store| == |ReadyOnes(v.store)|
  {
    GiveBackAllKeepsStore(v.(store := Unready(v.store)), Conns(ReadyOnes(v.store)), good, poolSockets);
    SplitByReady(v.store);
  }
}
