/** The store object: a map of pools updated in place under its own lock. */
module Stores {
  import opened Prelude
  import opened PoolLists
  import opened Capstomp
  import Wire
  import StoreRuns

  ghost predicate InOrder(p: Pool)
    reads p, p.Handles()`transaction, p.Handles()`self
  {
    p.Valid() && p.BackPointers() && !p.locked
  }

  /** A pool's stored transactions are on connections it made, so no two pools share one. */
  ghost predicate OwnHandles(p: Pool)
    reads p`store
  {
    forall c :: c in p.Handles() ==> c.pool == p
  }

  lemma Owns(p: Pool)
    requires InOrder(p)
    ensures OwnHandles(p) && forall c :: c in p.Finished() ==> c.pool == p
  {
    forall c | c in p.Handles() ensures c.pool == p { var k :| 0 <= k < |p.store| && p.store[k].conn == c; }
    forall c | c in p.Finished() ensures c in p.Handles() {}
  }

  ghost function PoolsOf(ps: map<string, Pool>): set<Pool> {
    set n | n in ps :: ps[n]
  }

  /** The connections of all transactions stored in these pools. */
  ghost function AllHandles(ps: map<string, Pool>): set<Connection>
    reads PoolsOf(ps)`store
  {
    set n, c | n in ps && c in ps[n].Handles() :: c
  }

  ghost predicate AllInOrder(ps: map<string, Pool>)
    reads PoolsOf(ps), AllHandles(ps)`transaction, AllHandles(ps)`self
  {
    forall n {:trigger InOrder(ps[n])} :: n in ps ==> InOrder(ps[n])
  }

  lemma AllOwn(ps: map<string, Pool>)
    requires AllInOrder(ps)
    ensures forall n :: n in ps ==> InOrder(ps[n]) && OwnHandles(ps[n])
  {
    forall n | n in ps ensures InOrder(ps[n]) && OwnHandles(ps[n]) { Owns(ps[n]); }
  }

  ghost predicate Distinct(ps: map<string, Pool>) {
    forall m, n :: m in ps && n in ps && m != n ==> ps[m] != ps[n]
  }

  /** A forced commit in one pool leaves the others in order. */
  method ForceIn(ghost ps: map<string, Pool>, name: string, p: Pool, poolSockets: nat) returns (count: nat)
    requires AllInOrder(ps) && Distinct(ps) && name in ps && p == ps[name]
    modifies p, p.Finished()
    ensures AllInOrder(ps)
    ensures count == |ReadyOnes(old(p.store))| && p.Lists() == Force(old(p.Lists()), old(p.Survivors()), poolSockets)
    ensures p.Dealt(old(p.Finished()), old(p.Links()), old(p.Sent()))
  {
    AllOwn(ps);
    Owns(p);
    count := p.ForceCommit(poolSockets);
    forall n | n in ps ensures InOrder(ps[n]) {}
  }

  class Store {
    const encode: Wire.Frame -> string

    var locked: bool
    var pools: map<string, Pool>

    constructor (encode: Wire.Frame -> string)
      ensures Valid() && pools == map[]
    {
      this.encode := encode;
      locked, pools := false, map[];
    }

    /** The pools are in order, each with its back pointers intact, and no lock is held. */
    ghost predicate Valid()
      reads this, PoolsOf(pools), AllHandles(pools)`transaction, AllHandles(pools)`self
    {
      !locked && AllInOrder(pools) && Distinct(pools)
    }

    /** select_pool: an existing pool always; a new one unless there are already more than the limit. */
    method SelectPool(name: string, maxPools: nat) returns (r: Result<Pool>)
      requires Valid()
      modifies this
      ensures Valid()
      ensures r.Err? <==> name !in old(pools) && |old(pools)| > maxPools
      ensures name in old(pools) ==> r == Ok(old(pools)[name])
      ensures r.Ok? && name !in old(pools) ==> fresh(r.value) && r.value.Lists() == Lists([], [], [], 0)
      ensures pools == if r.Ok? then old(pools)[name := r.value] else old(pools)
    {
      locked := true;
      if name in pools {
        r := Ok(pools[name]);
      } else if |pools| > maxPools {
        r := Err("store: max pool count");
      } else {
        var pool := Add(name);
        r := Ok(pool);
      }
      locked := false;
      assert |pools| == |pools.Keys|;
    }

    /** Create the pool of a name that has none yet. */
    method Add(name: string) returns (pool: Pool)
      requires AllInOrder(pools) && name !in pools
      modifies this`pools
      ensures AllInOrder(pools) && pools == old(pools)[name := pool]
      ensures fresh(pool) && pool.Lists() == Lists([], [], [], 0)
    {
      pool := new Pool(encode);
      assert InOrder(pool);
      pools := pools[name := pool];
      forall n | n in pools ensures InOrder(pools[n]) { if n in old(pools) { assert old(InOrder(pools[n])); } }
    }

    /** get, for a URI with this pool name: select the pool, then take a connection from it. */
    method Get(name: string, conf: Conf, maxPools: nat, maxSockets: nat) returns (r: Result<Connection>)
      requires Valid()
      modifies this, if name in pools then {pools[name]} else {}
      modifies if name in pools && pools[name].ready != [] then {pools[name].ready[0]} else {}
      ensures Valid()
      ensures name in pools <==> StoreRuns.Selectable(old(pools).Keys, name, maxPools)
      ensures pools == if name in pools then old(pools)[name := pools[name]] else old(pools)
      ensures name in old(pools) ==> pools[name] == old(pools)[name]
      ensures var before := if name in old(pools) then old(pools[name].Lists()) else Lists([], [], [], 0);
        if name in pools && CanGet(before, maxSockets)
        then r.Ok? && r.value.Held() && r.value.conf == conf &&
          pools[name].Lists() == PoolLists.Get(before, r.value) && r.value == Chosen(before, r.value)
        else r.Err? && (name in pools ==> pools[name].Lists() == before)
    {
      var selected := SelectPool(name, maxPools);
      if selected.Err? { return Err(selected.reason); }
      r := GetFrom(name, conf, maxSockets);
    }

    /** Take a connection from a known pool. */
    method GetFrom(name: string, conf: Conf, maxSockets: nat) returns (r: Result<Connection>)
      requires Valid() && name in pools
      modifies pools[name], if pools[name].ready != [] then {pools[name].ready[0]} else {}
      ensures Valid()
      ensures if CanGet(old(pools[name].Lists()), maxSockets)
        then r.Ok? && r.value.Held() && r.value.conf == conf &&
          pools[name].Lists() == PoolLists.Get(old(pools[name].Lists()), r.value)
             && r.value == Chosen(old(pools[name].Lists()), r.value)
        else r.Err? && pools[name].Lists() == old(pools[name].Lists())
    {
      AllOwn(pools);
      r := pools[name].Get(conf, maxSockets);
      forall n | n in pools ensures InOrder(pools[n]) {}
    }

    /** erase: only a known pool with nothing active, which then has no transaction stored either. */
    method Erase(name: string) returns (r: Result<()>)
      requires Valid()
      modifies this, if name in pools then {pools[name]} else {}
      ensures Valid() && forall n :: n in old(pools) ==> old(pools)[n].Lists() == old(pools[n].Lists())
      ensures r.Ok? <==> name in old(pools) && old(pools[name].active) == []
      ensures pools == if r.Ok? then old(pools) - {name} else old(pools)
      ensures r.Ok? ==> old(pools[name].store) == []
    {
      assert name in pools ==> InOrder(pools[name]);
      locked := true;
      if name !in pools {
        r := Err("not found");
      } else {
        pools[name].IdleIsEmpty();
        var running := pools[name].ActiveSize();
        if running > 0 {
          r := Err("running");
        } else {
          pools := pools - {name};
          r := Ok(());
        }
      }
      locked := false;
      forall n | n in pools ensures InOrder(pools[n]) { assert old(InOrder(pools[n])); }
    }

    /** commit: force the commits of a known pool, and say how many. */
    method Commit(name: string, poolSockets: nat) returns (r: Result<nat>)
      requires Valid()
      modifies this`locked, if name in pools then {pools[name]} + pools[name].Finished() else {}
      ensures Valid()
      ensures r.Ok? <==> name in pools
      ensures r.Ok? ==>
        && r.value == |ReadyOnes(old(pools[name].store))|
        && pools[name].Lists() == Force(old(pools[name].Lists()), old(pools[name].Survivors()), poolSockets)
        && pools[name].Dealt(old(pools[name].Finished()), old(pools[name].Links()), old(pools[name].Sent()))
    {
      r := CommitLocked(name, poolSockets);
      label done:
      locked := false;
      forall n | n in pools ensures InOrder(pools[n]) { assert old@done(InOrder(pools[n])); }
    }

    method CommitLocked(name: string, poolSockets: nat) returns (r: Result<nat>)
      requires Valid()
      modifies this`locked, if name in pools then {pools[name]} + pools[name].Finished() else {}
      ensures AllInOrder(pools)
      ensures r.Ok? <==> name in pools
      ensures r.Ok? ==>
        && r.value == |ReadyOnes(old(pools[name].store))|
        && pools[name].Lists() == Force(old(pools[name].Lists()), old(pools[name].Survivors()), poolSockets)
        && pools[name].Dealt(old(pools[name].Finished()), old(pools[name].Links()), old(pools[name].Sent()))
    {
      locked := true;
      forall n | n in pools ensures InOrder(pools[n]) { assert old(InOrder(pools[n])); }
      if name !in pools { return Err("not found"); }
      pools[name].Unmoved();
      var count := ForceIn(pools, name, pools[name], poolSockets);
      r := Ok(count);
    }
  }
}
