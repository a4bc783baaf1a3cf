/** The pool, its connections and its transactions as objects, updated in place as the program does.

    The pool mutex is a flag: a method that takes it requires it free. Sockets follow a script
    (SocketIo), frames are turned into bytes by `encode`, and limits are parameters. */
module Capstomp {
  import opened Prelude
  import opened PoolLists
  import Wire
  import opened SocketIo
  import ReceiptWindow

  datatype Conf = Conf(receipt: bool, transaction: bool, noError: bool)

  /** The connections of a list of transactions, and of its finished ones. */
  ghost function HandlesOf(store: seq<Txn<Connection>>): set<Connection> {
    set t | t in store :: t.conn
  }

  ghost function FinishedOf(store: seq<Txn<Connection>>): set<Connection> {
    set t | t in store && t.ready :: t.conn
  }

  /** The sockets that these links leave open. */
  ghost function OpenIn(links: map<Connection, Link>): set<Connection> {
    set c | c in links && links[c].open
  }

  /** A pool's lists before and after a commit by `own` (or a forced one): connections and transactions
      of unfinished statements are where they were, and the store has nothing new. */
  ghost predicate LeavesOthers(v: Lists<Connection>, w: Lists<Connection>, own: set<Connection>) {
    && (forall c :: c in v.active && c !in own && c !in FinishedOf(v.store) ==> c in w.active)
    && (forall t :: t in v.store && t.conn !in own && !t.ready ==> t in w.store)
    && (forall t :: t in w.store ==> t.conn in HandlesOf(v.store))
  }

  /** A connection's link once it was given back: as it was left if kept, closed if destroyed. */
  function Parted(st: Link, kept: bool): Link {
    if kept then st else Closed(st)
  }

  /** The link of a connection whose owner gives it back: the counter is reset at the limit. */
  function Handed(st: Link, limit: nat, kept: bool): Link {
    Parted(st.(requests := ReceiptWindow.AfterRelease(st.requests, limit)), kept)
  }

  class Connection {
    const pool: Pool
    const encode: Wire.Frame -> string

    var conf: Conf
    var self: Connection?
    var transactionId: Option<nat>
    var transaction: Option<nat>

    var error: string
    var received: bool
    var armed: set<nat>
    var receiptSeq: nat
    var passhash: nat
    var destination: string
    var open: bool
    var sent: string
    var totalCount: nat
    var requestCount: nat
    var script: seq<Event>

    constructor (pool: Pool, encode: Wire.Frame -> string)
      ensures this.pool == pool && this.encode == encode && !open && self == null && State().sent == ""
    {
      this.pool, this.encode := pool, encode;
      conf, self, transactionId, transaction := Conf(false, false, false), null, None, None;
      error, received, armed, receiptSeq := "", true, {}, 0;
      passhash, destination, open, sent := 0, "", false, "";
      totalCount, requestCount, script := 0, 0, [];
    }

    function State(): Link
      reads this
    {
      Link(open, received, error, armed, sent, destination, passhash, requestCount)
    }

    method Close()
      modifies this
      ensures State() == Closed(old(State())) && script == old(script)
      ensures unchanged(`conf, `self, `transactionId, `transaction, `receiptSeq, `totalCount)
    {
      open := false;
      destination, passhash, requestCount, error := "", 0, 0, "";
    }

    method Init(conf: Conf)
      modifies this
      ensures this.conf == conf && transactionId == None && State() == old(State()).(error := "")
      ensures unchanged(`self, `transaction, `receiptSeq, `script, `totalCount)
    {
      transactionId, error := None, "";
      this.conf := conf;
    }

    method Handle(ds: seq<Delivery>)
      modifies this
      ensures State() == DeliverAll(old(State()), ds)
      ensures unchanged(`conf, `self, `transactionId, `transaction, `receiptSeq, `script, `totalCount)
    {
      var k := 0;
      while k < |ds|
        invariant 0 <= k <= |ds|
        invariant DeliverAll(State(), ds[k..]) == DeliverAll(old(State()), ds)
        invariant unchanged(`conf, `self, `transactionId, `transaction, `receiptSeq, `script, `totalCount)
      {
        ghost var before := State();
        match ds[k] {
          case Receipt(tag, ok, text) =>
            if tag in armed {
              received, armed := true, armed - {tag};
              if !ok { error := text; }
            }
          case Session(ok, text) =>
            received := true;
            if !ok { error := text; }
          case Failure(text) => received, error := true, "ERROR" + text;
          case Other =>
        }
        assert State() == Deliver(before, ds[k]);
        assert ds[k..][1..] == ds[k + 1..];
        k := k + 1;
      }
    }

    method ReadOnce(rx: Rx) returns (r: Result<bool>)
      modifies this
      ensures (State(), r) == ReadStomp(old(State()), rx)
      ensures unchanged(`conf, `self, `transactionId, `transaction, `receiptSeq, `script, `totalCount)
    {
      match rx {
        case RecvFail => r := Err("recv");
        case Eof => r := Ok(false);
        case BadParse(ds) => Handle(ds); r := Err("stomp parse");
        case Data(ds) => Handle(ds); r := Ok(true);
      }
    }

    method Read() returns (e: Exit)
      modifies this
      ensures (State(), script, e) == ReadLoop(old(State()), old(script))
      ensures unchanged(`conf, `self, `transactionId, `transaction, `receiptSeq)
    {
      ghost var goal := ReadLoop(State(), script);
      while !received
        invariant ReadLoop(State(), script) == goal
        invariant unchanged(`conf, `self, `transactionId, `transaction, `receiptSeq)
        decreases |script|
      {
        if !open || script == [] { return Raised("timeout"); }
        var ev := script[0];
        script := script[1..];
        match ev {
          case PollFail => return Raised("poll");
          case Readable(rx) =>
            var r := ReadOnce(rx);
            if r.Err? { return Raised(r.reason); }
            if !r.value {
              Close();
              // the program now rewrites a non-empty error text, but close() has just cleared it
              assert error == "";
              received := true;
            }
          case _ => return Raised("timeout");
        }
      }
      e := if error == "" then Returned else Raised(error);
    }

    method Connected() returns (r: Result<bool>)
      modifies this
      ensures (State(), script, r) == Probe(old(State()), old(script))
      ensures unchanged(`conf, `self, `transactionId, `transaction, `receiptSeq)
    {
      if !open { return Ok(false); }
      ghost var goal := Probe(State(), script);
      while script != []
        invariant open && Probe(State(), script) == goal
        invariant unchanged(`conf, `self, `transactionId, `transaction, `receiptSeq)
        decreases |script|
      {
        var ev := script[0];
        script := script[1..];
        match ev {
          case PollFail => return Err("poll");
          case Readable(rx) =>
            ghost var before := State();
            if rx.Data? || rx.BadParse? { DeliverKeepsSocket(before, rx.ds); }
            r := ReadOnce(rx);
            if r.Err? { return; }
            if !r.value { Close(); return Ok(false); }
          case _ => return Ok(true);
        }
      }
      r := Ok(true);
    }

    /** The loop that drains a buffer into the socket; n is the size it returns. */
    method SendBuffer(data: string) returns (e: Exit, n: nat)
      modifies this
      ensures (State(), script, e) == SendLoop(old(State()), data, old(script)) && n == |data|
      ensures totalCount == old(totalCount) + if e.Returned? then 1 else 0
      ensures unchanged(`conf, `self, `transactionId, `transaction, `receiptSeq)
    {
      n := |data|;
      var rest, again := data, true;
      ghost var goal := SendLoop(State(), data, script);
      while again
        invariant if again then SendLoop(State(), rest, script) == goal else goal == (State(), script, Returned)
        invariant unchanged(`conf, `self, `transactionId, `transaction, `receiptSeq, `totalCount)
        decreases again, |script|
      {
        if !open || script == [] { return Raised("send timeout"), n; }
        var ev := script[0];
        script := script[1..];
        match ev {
          case PollFail => return Raised("poll"), n;
          case NotReady => return Raised("send timeout"), n;
          case Readable(rx) =>
            var r := ReadOnce(rx);
            if r.Err? { return Raised(r.reason), n; }
            if !r.value { Close(); }
            return Raised("protocol error"), n;
          case Writable(WriteFail) => return Raised("send"), n;
          case Writable(WouldBlock) =>
          case Writable(Took(bytes)) =>
            var k := Least(bytes, |rest|);
            sent, rest := sent + rest[..k], rest[k..];
        }
        again := rest != "";
      }
      totalCount := totalCount + 1;
      e := Returned;
    }

    /** The send(frame, receipt) template. */
    method Send(f: Wire.Frame, receipt: bool) returns (e: Exit, n: nat)
      modifies this
      ensures (State(), script, e) == SendFrame(old(State()), encode(f), receipt, old(receiptSeq), old(script))
      ensures receiptSeq == old(receiptSeq) + (if receipt then 1 else 0) && n == |encode(f)|
      ensures unchanged(`conf, `self, `transactionId, `transaction)
    {
      if receipt {
        received, armed, receiptSeq := false, armed + {receiptSeq}, receiptSeq + 1;
      } else {
        received := true;
      }
      e, n := SendBuffer(encode(f));
    }

    function IsReceipt(limit: nat): bool
      reads this
    {
      ReceiptWindow.Asks(conf.receipt, requestCount, limit)
    }

    /** logon(): send LOGON, await the answer, and ask the parser for a session. */
    method Logon(session: bool) returns (e: Exit)
      modifies this
      ensures (State(), script, e) == SocketIo.Logon(old(State()), session, encode(Wire.LogonF), old(script))
      ensures unchanged(`conf, `self, `transactionId, `transaction, `receiptSeq)
    {
      received := false;
      var n;
      e, n := SendBuffer(encode(Wire.LogonF));
      if e.Raised? { return; }
      e := Read();
      if e.Returned? && !session { e := Raised("stomplay: no session"); }
    }

    /** connect() up to begin(). */
    method Reach(fragment: string, passhash: nat, dialled: bool, session: bool) returns (e: Exit)
      modifies this
      ensures (State(), script, e) ==
        SocketIo.Reach(old(State()), fragment, passhash, dialled, session, encode(Wire.LogonF), old(script))
      ensures unchanged(`conf, `self, `transactionId, `transaction, `receiptSeq)
    {
      var alive := Connected();
      if alive.Err? { return Raised(alive.reason); }
      if !(alive.value && passhash == this.passhash) {
        Close();
        if !dialled { return Raised("connect"); }
        open, sent, destination := true, "", fragment;
        e := Logon(session);
        if e.Raised? { return; }
        this.passhash := passhash;
      }
      e := Returned;
    }

    /** What holds of a connection between capstomp_init and capstomp_deinit. */
    ghost predicate Held()
      reads this`self, this`transactionId, this`transaction, pool, pool.Handles()`transaction, pool.Handles()`self
    {
      && pool.Valid() && pool.BackPointers() && !pool.locked && this in pool.active && self == this
      && if transactionId.Some? then transaction == transactionId && Txn(transaction.value, false, this) in pool.store
         else this !in pool.Handles()
    }

    /** Number a transaction, store it, and point back to it. */
    method Enlist() returns (id: nat)
      requires Held() && transactionId == None
      modifies this`transaction, this`transactionId, pool
      ensures Held() && pool.Lists() == AddTxn(old(pool.Lists()), this)
      ensures id == pool.txnSeq && transactionId == transaction == Some(id)
    {
      ghost var before := pool.store;
      id := pool.CreateTransaction(this);
      transaction, transactionId := Some(id), Some(id);
      assert pool.store == before + [Txn(id, false, this)] && pool.store[|before|].conn == this;
    }

    method BeginTransaction(limit: nat) returns (e: Exit)
      requires Held() && transactionId == None
      modifies this, pool
      ensures Held() && unchanged(`self, `conf) && pool.Lists() == AddTxn(old(pool.Lists()), this)
      ensures transactionId == Some(pool.txnSeq) && transaction == Some(pool.txnSeq)
      ensures (State(), script, e) ==
        Exchange(old(State()), encode(Wire.BeginF(pool.txnSeq)), old(IsReceipt(limit)), old(receiptSeq), old(script))
      ensures receiptSeq == old(receiptSeq) + if old(IsReceipt(limit)) then 1 else 0
    {
      var id := Enlist();
      var n;
      e, n := Converse(Wire.BeginF(id), IsReceipt(limit));
    }

    /** begin(): count the request and, for a transactional URI, number a transaction and send BEGIN. */
    method Begin(limit: nat) returns (e: Exit)
      requires Held() && transactionId == None
      modifies this, pool
      ensures Held() && unchanged(`self, `conf)
      ensures !conf.transaction ==>
        && e == Returned && unchanged(pool) && unchanged(`transactionId, `receiptSeq)
        && State() == old(State()).(requests := old(requestCount) + 1) && script == old(script)
      ensures conf.transaction ==>
        && pool.Lists() == AddTxn(old(pool.Lists()), this)
        && transactionId == Some(pool.txnSeq) && transaction == Some(pool.txnSeq)
      ensures conf.transaction ==> var asks := conf.receipt || old(requestCount) + 1 >= limit;
        && receiptSeq == old(receiptSeq) + (if asks then 1 else 0)
        && (State(), script, e) == Exchange(old(State()).(requests := old(requestCount) + 1),
             encode(Wire.BeginF(pool.txnSeq)), asks, old(receiptSeq), old(script))
    {
      requestCount := requestCount + 1;
      if !conf.transaction { return Returned; }
      e := BeginTransaction(limit);
    }

    /** Send a frame, then read; n is the size sent. */
    method Converse(f: Wire.Frame, receipt: bool) returns (e: Exit, n: nat)
      modifies this
      ensures (State(), script, e) == Exchange(old(State()), encode(f), receipt, old(receiptSeq), old(script))
      ensures n == |encode(f)|
      ensures receiptSeq == old(receiptSeq) + if receipt then 1 else 0
      ensures unchanged(`conf, `self, `transactionId, `transaction)
    {
      e, n := Send(f, receipt);
      if e.Returned? { e := Read(); }
    }

    /** A row: no receipt is asked between BEGIN and COMMIT; returns the size sent. */
    method SendContent(limit: nat) returns (e: Exit, n: nat)
      modifies this
      ensures var asks := transactionId.None? && (conf.receipt || old(requestCount) >= limit);
        && receiptSeq == old(receiptSeq) + (if asks then 1 else 0)
        && (State(), script, e) ==
             Exchange(old(State()), encode(Wire.SendF(transactionId)), asks, old(receiptSeq), old(script))
      ensures n == |encode(Wire.SendF(transactionId))|
      ensures unchanged(`conf, `self, `transactionId, `transaction)
    {
      var receipt := IsReceipt(limit);
      if transactionId.Some? { receipt := false; }
      e, n := Converse(Wire.SendF(transactionId), receipt);
    }

    /** The link after one COMMIT attempt. */
    ghost function Attempt(t: Txn<Connection>, receipt: bool): Link
      reads t.conn
    {
      CommitAttempt(t.conn.State(), t.conn.encode(Wire.CommitF(t.id)), receipt, t.conn.receiptSeq, t.conn.script).0
    }

    /** The link after the COMMIT attempt, with a receipt, for the transaction this connection points back to. */
    ghost function AfterCommit(): Link
      requires transaction.Some?
      reads this
    {
      CommitAttempt(State(), encode(Wire.CommitF(transaction.value)), true, receiptSeq, script).0
    }

    /** Sends one COMMIT on the transaction's own connection, swallowing every exception, and gives
        that connection back unless it is this one. */
    method CommitTransaction(t: Txn<Connection>, receipt: bool, poolSockets: nat)
      requires t.conn != self ==> pool.Separate() && !pool.locked && t.conn in pool.active
      modifies t.conn, if t.conn == self then {} else {pool}
      ensures t.conn == old(self) ==>
        (t.conn.State(), t.conn.script) ==
          CommitAttempt(old(t.conn.State()), t.conn.encode(Wire.CommitF(t.id)), receipt, old(t.conn.receiptSeq),
            old(t.conn.script))
      ensures t.conn == old(self) ==> unchanged(t.conn`conf, t.conn`self, t.conn`transactionId, t.conn`transaction)
      ensures t.conn == old(self) ==> t.conn.receiptSeq == old(t.conn.receiptSeq) + if receipt then 1 else 0
      ensures t.conn != old(self) ==>
        var good := CommitAttempt(old(t.conn.State()), t.conn.encode(Wire.CommitF(t.id)), receipt,
          old(t.conn.receiptSeq), old(t.conn.script)).0.open;
        && pool.Separate() && !pool.locked && pool.Lists() == GiveBack(old(pool.Lists()), t.conn, good, poolSockets)
      ensures t.conn != old(self) ==>
        var st := CommitAttempt(old(t.conn.State()), t.conn.encode(Wire.CommitF(t.id)), receipt,
          old(t.conn.receiptSeq), old(t.conn.script)).0;
        && t.conn.State() == Parted(st, t.conn in pool.ready)
        && (t.conn in pool.ready ==> t.conn.requestCount == old(t.conn.requestCount))
    {
      var c := t.conn;
      CommitKeepsCount(c.State(), c.encode(Wire.CommitF(t.id)), receipt, c.receiptSeq, c.script);
      if receipt {
        var e, n := c.Converse(Wire.CommitF(t.id), true);
      } else {
        var alive := c.Connected();
        if alive.Ok? && alive.value {
          var e, n := c.Converse(Wire.CommitF(t.id), false);
        }
      }
      if c != self { pool.Release(c, poolSockets); }
    }

    /** From position k on: other statements' transactions, on distinct active connections, where
        `links` says how their COMMIT leaves them and `good` which sockets survive it. */
    ghost predicate Others(batch: seq<Txn<Connection>>, k: nat, conns: set<Connection>, good: set<Connection>,
        links: map<nat, Link>)
      reads pool`active, conns
    {
      && this !in conns
      && (forall m :: k <= m < |batch| ==> batch[m].conn in conns && batch[m].conn in pool.active)
      && (forall j, m :: k <= j < m < |batch| ==> batch[j].conn != batch[m].conn)
      && (forall m :: k <= m < |batch| ==>
            m in links && Attempt(batch[m], true) == links[m] && (links[m].open <==> batch[m].conn in good))
    }

    /** Before position k: COMMITs already attempted, on connections given back since. */
    ghost predicate Served(batch: seq<Txn<Connection>>, k: nat, conns: set<Connection>, links: map<nat, Link>)
      reads pool`active, pool`ready, conns
    {
      forall m :: 1 <= m < |batch| && m < k ==>
        && batch[m].conn in conns && batch[m].conn !in pool.active
        && m in links && batch[m].conn.State() == Parted(links[m], batch[m].conn in pool.ready)
    }

    /** CommitTransaction for another statement's transaction. */
    method CommitForeign(t: Txn<Connection>, poolSockets: nat)
      requires self == this && t.conn != this && pool.Separate() && !pool.locked && t.conn in pool.active
      modifies pool, t.conn
      ensures pool.Separate() && !pool.locked && t.conn !in pool.active
      ensures pool.Lists() == GiveBack(old(pool.Lists()), t.conn, old(Attempt(t, true)).open, poolSockets)
      ensures t.conn.State() == Parted(old(Attempt(t, true)), t.conn in pool.ready)
    {
      WithoutRemoves(pool.active, t.conn);
      CommitTransaction(t, true, poolSockets);
    }

    /** The same for the transaction at position k, after those before it. */
    method CommitNext(batch: seq<Txn<Connection>>, k: nat, ghost conns: set<Connection>, ghost links: map<nat, Link>,
        poolSockets: nat)
      requires self == this && pool.Separate() && !pool.locked && 1 <= k < |batch|
      requires batch[k].conn != this && batch[k].conn in conns && batch[k].conn in pool.active
      requires k in links && Attempt(batch[k], true) == links[k] && Served(batch, k, conns, links)
      modifies pool, batch[k].conn
      ensures pool.Separate() && !pool.locked && Served(batch, k + 1, conns, links)
      ensures pool.Lists() == GiveBack(old(pool.Lists()), batch[k].conn, links[k].open, poolSockets)
    {
      WithoutRemoves(pool.active, batch[k].conn);
      CommitForeign(batch[k], poolSockets);
    }

    method CommitOther(batch: seq<Txn<Connection>>, k: nat, ghost conns: set<Connection>, ghost good: set<Connection>,
        ghost links: map<nat, Link>, poolSockets: nat)
      requires self == this && pool.Separate() && !pool.locked && 1 <= k < |batch|
      requires Others(batch, k, conns, good, links) && Served(batch, k, conns, links)
      modifies pool, batch[k].conn
      ensures pool.Separate() && !pool.locked && Others(batch, k + 1, conns, good, links) &&
          Served(batch, k + 1, conns, links)
      ensures pool.Lists() == GiveBack(old(pool.Lists()), batch[k].conn, batch[k].conn in good, poolSockets)
    {
      WithoutRemoves(pool.active, batch[k].conn);
      CommitNext(batch, k, conns, links, poolSockets);
    }

    /** The rest of the commit loop: COMMIT each in turn and give its connection back. */
    method CommitOthers(batch: seq<Txn<Connection>>, ghost conns: set<Connection>, ghost good: set<Connection>,
        ghost links: map<nat, Link>, poolSockets: nat)
      requires self == this && pool.Separate() && !pool.locked && batch != [] && Others(batch, 1, conns, good, links)
      modifies pool, conns
      ensures pool.Separate() && !pool.locked && Served(batch, |batch|, conns, links)
      ensures pool.Lists() == GiveBackAll(old(pool.Lists()), Conns(batch)[1..], good, poolSockets)
    {
      var k := 1;
      while k < |batch|
        invariant 1 <= k <= |batch| && pool.Separate() && !pool.locked
        invariant Others(batch, k, conns, good, links) && Served(batch, k, conns, links)
        invariant GiveBackAll(pool.Lists(), Conns(batch)[k..], good, poolSockets) ==
                  GiveBackAll(old(pool.Lists()), Conns(batch)[1..], good, poolSockets)
      {
        NextGivenBack(pool.Lists(), Conns(batch), k, good, poolSockets);
        CommitOther(batch, k, conns, good, links, poolSockets);
        k := k + 1;
      }
    }

    /** commit(batch): one COMMIT asks for a receipt by the usual rule, several always do; a batch begins
        with this connection's own transaction. An empty one commits nothing. */
    method CommitBatch(batch: seq<Txn<Connection>>, ghost conns: set<Connection>, ghost good: set<Connection>,
        ghost links: map<nat, Link>, limit: nat, poolSockets: nat) returns (count: nat)
      requires self == this && pool.Separate() && !pool.locked
      requires batch != [] ==> batch[0].conn == this && Others(batch, 1, conns, good, links)
      modifies this, pool, conns
      ensures pool.Separate() && !pool.locked && count == |batch|
      ensures unchanged(`self, `conf, `transactionId, `transaction)
      ensures batch == [] ==> unchanged(this) && unchanged(pool) && forall c :: c in conns ==> unchanged(c)
      ensures batch != [] ==> var asks := |batch| > 1 || conf.receipt || old(requestCount) >= limit;
        && State() == old(Attempt(batch[0], asks)) && receiptSeq == old(receiptSeq) + (if asks then 1 else 0)
        && Served(batch, |batch|, conns, links)
        && pool.Lists() == GiveBackAll(old(pool.Lists()), Conns(batch)[1..], good, poolSockets)
    {
      count := |batch|;
      var receipt := if count == 1 then IsReceipt(limit) else true;
      if batch == [] { return; }
      CommitTransaction(batch[0], receipt, poolSockets);
      CommitOthers(batch, conns, good, links, poolSockets);
    }

    /** This connection's link when commit() is about to give it back: after its COMMIT, if it sends one. */
    ghost function OwnLink(limit: nat): Link
      requires transactionId.Some? ==> transaction.Some?
      reads this, pool
    {
      if transactionId.None? then State()
      else Attempt(Txn(transaction.value, true, this), |Batch(pool.Lists(), transaction.value)| > 1 || IsReceipt(limit))
    }

    /** Which sockets are open when this connection's commit() gives them back. */
    ghost function Good(limit: nat): set<Connection>
      requires transactionId.Some? ==> transaction.Some?
      reads this, pool, pool.Finished()
    {
      pool.Survivors() + if OwnLink(limit).open then {this} else {}
    }

    /** The drained transactions, this connection's own first, and what stays in the store. */
    ghost predicate Drained(batch: seq<Txn<Connection>>, conns: set<Connection>, good: set<Connection>,
        links: map<nat, Link>)
      reads pool, conns
    {
      && batch != [] && batch[0].conn == this && conns == (set k | 1 <= k < |batch| :: batch[k].conn)
      && Others(batch, 1, conns, good, links)
      && (forall k :: 0 <= k < |pool.store| ==> pool.store[k].conn != this && pool.store[k].conn !in conns)
    }

    /** Commit the drained batch, then give this connection back. The connections of the finished
        transactions that stay behind, `rest`, are not touched. */
    method CommitDrained(batch: seq<Txn<Connection>>, ghost conns: set<Connection>, ghost good: set<Connection>,
        ghost links: map<nat, Link>, ghost rest: set<Connection>, ghost was: map<Connection, Link>, limit: nat,
            poolSockets: nat)
      requires pool.Valid() && pool.BackPointers() && !pool.locked && self == this && this in pool.active
      requires Drained(batch, conns, good, links) &&
          (this in good <==> Attempt(batch[0], |batch| > 1 || IsReceipt(limit)).open)
      requires this !in rest && rest !! conns && Pool.Still(rest, was)
      modifies this, pool, conns
      ensures pool.Valid() && pool.BackPointers() && !pool.locked && Pool.Still(rest, was)
      ensures pool.Lists() == GiveBack(GiveBackAll(old(pool.Lists()), Conns(batch)[1..], good, poolSockets), this,
          this in good, poolSockets)
      ensures this !in pool.active && Served(batch, |batch|, conns, links) && pool.store == old(pool.store)
      ensures State() == Handed(old(Attempt(batch[0], |batch| > 1 || IsReceipt(limit))), limit, this in pool.ready)
    {
      ghost var v := pool.Lists();
      var count := CommitBatch(batch, conns, good, links, limit, poolSockets);
      LeavesActive(v, batch, conns, good, poolSockets);
      Part(batch, conns, links, limit, poolSockets);
    }

    /** release(), after a batch was served. */
    method Part(ghost batch: seq<Txn<Connection>>, ghost conns: set<Connection>, ghost links: map<nat, Link>,
        limit: nat, poolSockets: nat)
      requires pool.Valid() && pool.BackPointers() && !pool.locked && self == this && this in pool.active
      requires this !in conns && this !in pool.Handles() && Served(batch, |batch|, conns, links)
      modifies this, pool
      ensures pool.Valid() && pool.BackPointers() && !pool.locked && this !in pool.active
      ensures pool.Lists() == GiveBack(old(pool.Lists()), this, old(open), poolSockets)
      ensures Served(batch, |batch|, conns, links) && State() == Handed(old(State()), limit, this in pool.ready)
    {
      WithoutRemoves(pool.active, this);
      Release(limit, poolSockets);
    }

    static lemma LeavesActive(v: PoolLists.Lists<Connection>, batch: seq<Txn<Connection>>, conns: set<Connection>,
        good: set<Connection>, poolSockets: nat)
      requires Apart(v) && batch != [] && conns == set k | 1 <= k < |batch| :: batch[k].conn
      requires forall k :: 1 <= k < |batch| ==> batch[k].conn in v.active
      requires forall j, k :: 1 <= j < k < |batch| ==> batch[j].conn != batch[k].conn
      ensures var w := GiveBackAll(v, Conns(batch)[1..], good, poolSockets);
              w.store == v.store && w.txnSeq == v.txnSeq && forall c :: c in v.active && c !in conns ==> c in w.active
    {
      GiveBackAllSeparates(v, Conns(batch)[1..], good, poolSockets);
    }

    /** The same for the first n transactions of a store whose rest has stayed behind. */
    method CommitPrefix(ghost ts: seq<Txn<Connection>>, ghost n: nat, batch: seq<Txn<Connection>>,
        ghost good: set<Connection>,
        ghost was: map<Connection, Link>, ghost sent: map<Connection, Link>, limit: nat, poolSockets: nat)
      requires pool.Valid() && pool.BackPointers() && !pool.locked && self == this && this in pool.active
      requires 1 <= n <= |ts| && !ts[0].ready && Strangers(ts, n, pool.active, FinishedOf(ts), good, sent) &&
          pool.store == ts[n..]
      requires batch != [] && batch[0].conn == this && batch == [batch[0]] + ts[1..n]
      requires this in good <==> Attempt(batch[0], |batch| > 1 || IsReceipt(limit)).open
      requires Primed(ts, was, sent)
      modifies this, pool, FinishedOf(ts)
      ensures pool.Valid() && pool.BackPointers() && !pool.locked && this !in pool.active
      ensures State() == Handed(old(Attempt(batch[0], |batch| > 1 || IsReceipt(limit))), limit, this in pool.ready)
      ensures pool.Dealt(FinishedOf(ts), was, sent)
      ensures pool.Lists() == GiveBack(GiveBackAll(old(pool.Lists()), Conns(batch)[1..], good, poolSockets), this,
          this in good, poolSockets)
    {
      ghost var conns := set k | 1 <= k < |batch| :: batch[k].conn;
      ghost var links := LinksOf(batch, sent);
      DrainedIs(ts, n, batch, good, conns, was, sent);
      CommitDrained(batch, conns, good, links, FinishedOf(ts) - conns, was, limit, poolSockets);
      ServedIsDealt(ts, n, batch, conns, was, sent);
    }

    /** How each transaction's COMMIT will leave its link. */
    static ghost function LinksOf(batch: seq<Txn<Connection>>, sent: map<Connection, Link>): map<nat, Link> {
      map m: nat | m < |batch| && batch[m].conn in sent :: sent[batch[m].conn]
    }

    lemma ServedIsDealt(ts: seq<Txn<Connection>>, n: nat, batch: seq<Txn<Connection>>, conns: set<Connection>,
        was: map<Connection, Link>, sent: map<Connection, Link>)
      requires pool.Valid() && 1 <= n <= |ts| && !ts[0].ready && pool.store == ts[n..] && batch != [] &&
          batch == [batch[0]] + ts[1..n]
      requires conns == set k | 1 <= k < |batch| :: batch[k].conn
      requires Served(batch, |batch|, conns, LinksOf(batch, sent))
      requires Pool.Still(FinishedOf(ts) - conns, was) && FinishedOf(ts) <= was.Keys * sent.Keys
      ensures pool.Dealt(FinishedOf(ts), was, sent)
    {
      forall c | c in FinishedOf(ts) ensures pool.DealtWith(c, was[c], sent[c]) {
        var k :| 0 <= k < |ts| && ts[k].ready && ts[k].conn == c;
        if k < n { assert batch[k] == ts[k]; } else { assert pool.store[k - n] == ts[k]; }
        if c in conns { var m :| 1 <= m < |batch| && batch[m].conn == c; }
      }
    }

    /** These transactions' connections point back to them; the finished ones have links `was`, and a
        COMMIT attempt will leave them with links `sent`. */
    static ghost predicate Primed(ts: seq<Txn<Connection>>, was: map<Connection, Link>, sent: map<Connection, Link>)
      reads HandlesOf(ts)
    {
      PointBack(ts) && Pool.Awaits(FinishedOf(ts), was, sent)
    }

    lemma Primes()
      requires pool.BackPointers()
      ensures Primed(pool.store, pool.Links(), pool.Sent())
    {
      pool.LinksAre();
      pool.AwaitsCommit();
    }

    method FinishOwn() returns (batch: seq<Txn<Connection>>)
      requires Held() && transactionId.Some?
      modifies pool`store, pool`locked
      ensures pool.Valid() && pool.BackPointers() && !pool.locked
      ensures pool.Lists() == Finish(old(pool.Lists()), transaction.value) &&
          batch == Batch(old(pool.Lists()), transaction.value)
      ensures Primed(old(pool.store), old(pool.Links()), old(pool.Sent()))
    {
      Primes();
      batch := pool.GetUncommitted(transaction.value);
    }

    /** get_uncommited for this connection: n is the length of the prefix it takes. */
    method TakeBatch(ghost good: set<Connection>, limit: nat) returns (batch: seq<Txn<Connection>>, ghost n: nat)
      requires Held() && transactionId.Some? && good == Good(limit)
      modifies pool`store, pool`locked
      ensures pool.Valid() && pool.BackPointers() && !pool.locked
      ensures pool.Lists() == Finish(old(pool.Lists()), transaction.value) &&
          batch == Batch(old(pool.Lists()), transaction.value)
      ensures n == 0 ==> batch == [] && Txn(transaction.value, true, this) in pool.store
      ensures forall k :: 0 <= k < |old(pool.store)| ==> old(pool.store)[k].conn in pool.active
      ensures Primed(old(pool.store), old(pool.Links()), old(pool.Sent()))
      ensures n > 0 ==>
        && n <= |old(pool.store)| && pool.store == old(pool.store)[n..]
        && batch == [Txn(transaction.value, true, this)] + old(pool.store)[1..n]
        && !old(pool.store)[0].ready &&
          Strangers(old(pool.store), n, pool.active, old(pool.Finished()), good, old(pool.Sent()))
        && (this in good <==> Attempt(batch[0], |batch| > 1 || IsReceipt(limit)).open)
    {
      var id := transaction.value;
      ghost var p;
      p, n := BatchIs(id, limit);
      batch := FinishOwn();
      if n == 0 { assert pool.store[p] == Txn(id, true, this); }
    }

    method CommitFinished(ghost good: set<Connection>, limit: nat, poolSockets: nat)
      requires Held() && transactionId.Some? && good == Good(limit)
      modifies this, pool, pool.Finished()
      ensures pool.Valid() && pool.BackPointers() && !pool.locked
      ensures pool.Lists() == Retire(old(pool.Lists()), old(transactionId), this, good, poolSockets)
      ensures this in pool.active ==> unchanged(this) && Txn(old(transaction.value), true, this) in pool.store
      ensures this in pool.active ==> forall c :: c in old(pool.Finished()) ==> unchanged(c)
      ensures this !in pool.active ==> State() == Handed(old(OwnLink(limit)), limit, this in pool.ready)
      ensures pool.Dealt(old(pool.Finished()), old(pool.Links()), old(pool.Sent()))
    {
      ghost var store, was, sent := pool.store, pool.Links(), pool.Sent();
      var batch;
      ghost var n;
      batch, n := TakeBatch(good, limit);
      if batch != [] {
        CommitPrefix(store, n, batch, good, was, sent, limit, poolSockets);
      } else {
        StillAll(store, was, sent);
      }
    }

    /** A deferred commit leaves every finished connection as it was. */
    lemma StillAll(ts: seq<Txn<Connection>>, was: map<Connection, Link>, sent: map<Connection, Link>)
      requires Pool.Still(FinishedOf(ts), was) && FinishedOf(ts) <= sent.Keys
      requires forall k :: 0 <= k < |ts| ==> ts[k].conn in pool.active
      ensures pool.Dealt(FinishedOf(ts), was, sent)
    {
    }

    method CommitPlain(limit: nat, poolSockets: nat)
      requires Held() && transactionId == None
      modifies this, pool
      ensures pool.Valid() && pool.BackPointers() && !pool.locked && this !in pool.active
      ensures pool.Lists() == GiveBack(old(pool.Lists()), this, old(open), poolSockets)
      ensures State() == Handed(old(State()), limit, this in pool.ready)
      ensures pool.Dealt(old(pool.Finished()), old(pool.Links()), old(pool.Sent()))
    {
      ghost var store, was, sent := pool.store, pool.Links(), pool.Sent();
      pool.LinksAre();
      assert forall k :: 0 <= k < |store| ==> store[k].conn in pool.Handles();
      WithoutRemoves(pool.active, this);
      Release(limit, poolSockets);
      StillAll(store, was, sent);
    }

    /** commit(): a plain statement just gives its connection back. A transactional one finishes its
        transaction; if it is not first it leaves everything, its connection included, to others,
        else it commits the whole ready prefix and then gives its own connection back. */
    method Commit(limit: nat, poolSockets: nat)
      requires Held()
      modifies this, pool, pool.Finished()
      ensures pool.Valid() && pool.BackPointers() && !pool.locked
      ensures pool.Lists() == Retire(old(pool.Lists()), old(transactionId), this, old(Good(limit)), poolSockets)
      ensures this in pool.active ==>
          unchanged(this) && transactionId.Some? && Txn(transaction.value, true, this) in pool.store
      ensures this in pool.active ==> forall c :: c in old(pool.Finished()) ==> unchanged(c)
      ensures this !in pool.active ==> State() == Handed(old(OwnLink(limit)), limit, this in pool.ready)
      ensures pool.Dealt(old(pool.Finished()), old(pool.Links()), old(pool.Sent()))
      ensures LeavesOthers(old(pool.Lists()), pool.Lists(), {this})
    {
      ghost var good := Good(limit);
      ghost var v, txn := pool.Lists(), transactionId;
      ghost var p := OwnPlace();
      if transactionId.Some? {
        CommitFinished(good, limit, poolSockets);
      } else {
        CommitPlain(limit, poolSockets);
      }
      Bystanders(v, txn, p, this, good, poolSockets);
    }

    /** A commit leaves the connections and transactions of unfinished statements where they are. */
    static lemma Bystanders(v: PoolLists.Lists<Connection>, txn: Option<nat>, p: nat, own: Connection,
        good: set<Connection>, poolSockets: nat)
      requires Placed(v) && own in v.active
      requires txn.Some? ==> p < |v.store| && v.store[p] == Txn(txn.value, false, own)
      ensures LeavesOthers(v, Retire(v, txn, own, good, poolSockets), {own})
    {
      var w := Retire(v, txn, own, good, poolSockets);
      forall c | c in v.active && c != own && c !in FinishedOf(v.store) ensures c in w.active {
        RetireKeepsOthers(v, txn, p, own, good, poolSockets, c);
      }
      forall t | t in v.store && t.conn != own && !t.ready ensures t in w.store {
        var m :| 0 <= m < |v.store| && v.store[m] == t;
        RetireKeepsUnfinished(v, txn, p, own, good, poolSockets, m);
      }
      forall t | t in w.store ensures t.conn in HandlesOf(v.store) {
        var m :| 0 <= m < |w.store| && w.store[m] == t;
        var k := RetireAddsNothing(v, txn, p, own, good, poolSockets, m);
        assert v.store[k] in v.store;
      }
    }

    /** Where this connection's transaction is stored. */
    lemma OwnPlace() returns (p: nat)
      requires Held()
      ensures Placed(pool.Lists())
      ensures transactionId.Some? ==> p < |pool.store| && pool.store[p] == Txn(transaction.value, false, this)
    {
      pool.Placing();
      p := 0;
      if transactionId.Some? { p :| 0 <= p < |pool.store| && pool.store[p] == Txn(transaction.value, false, this); }
    }

    /** What get_uncommited will hand to this connection: itself first, then n - 1 that follow it in the store. */
    lemma BatchIs(id: nat, limit: nat) returns (p: nat, n: nat)
      requires pool.Valid() && pool.BackPointers()
      requires transactionId == transaction == Some(id) && Txn(id, false, this) in pool.store
      ensures var store, batch, rest := pool.store, Batch(pool.Lists(), id), Finish(pool.Lists(), id).store;
        && n <= |store| && p < |store| && store[p] == Txn(id, false, this)
        && (n == 0 ==> batch == [] && rest == store[p := Txn(id, true, this)])
        && (n > 0 ==> p == 0 && batch == [Txn(id, true, this)] + store[1..n] && rest == store[n..]
                      && !store[0].ready && Strangers(store, n, pool.active, pool.Finished(), Good(limit), pool.Sent()))
        && (batch != [] ==> (this in Good(limit) <==> Attempt(batch[0], |batch| > 1 || IsReceipt(limit)).open))
    {
      p :| 0 <= p < |pool.store| && pool.store[p] == Txn(id, false, this);
      n := FinishSplits(pool.Lists(), id, p);
      if n > 0 { OthersAre(n, limit); }
    }

    /** From position 1 on the transactions belong to other active connections, each its own, and `good`
        says which of the first n keep their socket. */
    ghost predicate Strangers(ts: seq<Txn<Connection>>, n: nat, active: seq<Connection>, conns: set<Connection>,
        good: set<Connection>,
        sent: map<Connection, Link>)
    {
      && (forall k :: 1 <= k < |ts| ==> ts[k].conn != this && ts[k].conn in active && (k < n ==> ts[k].conn in conns))
      && (forall j, k :: 1 <= j < k < |ts| ==> ts[j].conn != ts[k].conn)
      && (forall k :: 1 <= k < |ts| && k < n ==> ts[k].conn in sent && (sent[ts[k].conn].open <==> ts[k].conn in good))
    }

    /** These transactions' connections point back to them. */
    static ghost predicate PointBack(ts: seq<Txn<Connection>>)
      reads HandlesOf(ts)`transaction
    {
      forall k :: 0 <= k < |ts| ==> ts[k].conn.transaction == Some(ts[k].id)
    }

    lemma OthersAre(n: nat, limit: nat)
      requires pool.Valid() && pool.BackPointers() && 1 <= n <= |pool.store| && pool.store[0].conn == this &&
          transaction.Some?
      requires forall k :: 1 <= k < n ==> pool.store[k].ready
      ensures Strangers(pool.store, n, pool.active, pool.Finished(), Good(limit), pool.Sent())
    {
      pool.SurvivorsAre();
      pool.LinksAre();
      forall j, k | 0 <= j < k < |pool.store| ensures pool.store[j].conn != pool.store[k].conn {
        pool.OwnConnections(j, k);
      }
      forall k | 1 <= k < n ensures pool.Sent()[pool.store[k].conn].open <==> pool.store[k].conn in Good(limit) {
        assert pool.Survives(pool.store[k]) <==> Attempt(pool.store[k], true).open;
      }
    }

    lemma DrainedIs(ts: seq<Txn<Connection>>, n: nat, batch: seq<Txn<Connection>>, good: set<Connection>,
        conns: set<Connection>,
        was: map<Connection, Link>, sent: map<Connection, Link>)
      requires 1 <= n <= |ts| && !ts[0].ready && Strangers(ts, n, pool.active, FinishedOf(ts), good, sent) &&
          Primed(ts, was, sent)
      requires batch != [] && batch[0].conn == this && batch == [batch[0]] + ts[1..n] && pool.store == ts[n..]
      requires conns == set k | 1 <= k < |batch| :: batch[k].conn
      ensures Drained(batch, conns, good, LinksOf(batch, sent)) && conns <= FinishedOf(ts) && this !in FinishedOf(ts)
    {
      assert forall k :: 1 <= k < n ==> batch[k] == ts[k];
      StrangersAre(ts, n, batch, good, conns, was, sent);
      assert forall k :: 0 <= k < |pool.store| ==> pool.store[k] == ts[n + k];
    }

    lemma StrangersAre(ts: seq<Txn<Connection>>, n: nat, batch: seq<Txn<Connection>>, good: set<Connection>,
        conns: set<Connection>,
        was: map<Connection, Link>, sent: map<Connection, Link>)
      requires 1 <= n <= |ts| && Strangers(ts, n, pool.active, FinishedOf(ts), good, sent) && PointBack(ts) &&
          |batch| == n && forall k :: 1 <= k < n ==> batch[k] == ts[k]
      requires conns == (set k | 1 <= k < |batch| :: batch[k].conn) && Pool.Awaits(FinishedOf(ts), was, sent)
      ensures Others(batch, 1, conns, good, LinksOf(batch, sent))
    {
      forall m | 1 <= m < |batch|
        ensures batch[m].conn in conns && m in LinksOf(batch, sent) &&
            Attempt(batch[m], true) == LinksOf(batch, sent)[m]
      {
        assert batch[m].conn in FinishedOf(ts) && batch[m].conn.AfterCommit() == Attempt(batch[m], true);
      }
    }

    /** Called with the pool mutex held. The back pointer makes the transaction's connection this one,
        so the branch that would take the mutex again is not reached. */
    method ForceCommit(poolSockets: nat)
      requires self == this && transaction.Some? && pool.Holds(transaction.value, this)
      modifies this
      ensures (State(), script) ==
        CommitAttempt(old(State()), encode(Wire.CommitF(old(transaction.value))), true, old(receiptSeq), old(script))
      ensures unchanged(`conf, `self, `transactionId, `transaction)
    {
      var t := pool.Find(transaction.value);
      CommitTransaction(t, true, poolSockets);
    }

    /** release(): reset the counter at the limit and hand this connection back. */
    method Release(limit: nat, poolSockets: nat)
      requires pool.Separate() && !pool.locked && this in pool.active && self == this
      modifies this, pool
      ensures pool.Separate() && !pool.locked
      ensures pool.Lists() == GiveBack(old(pool.Lists()), this, old(open), poolSockets)
      ensures transactionId == None && self == this
      ensures this in pool.ready <==> old(open) && |old(pool.ready)| < poolSockets
      ensures State() == Handed(old(State()), limit, this in pool.ready)
    {
      transactionId := None;
      if requestCount >= limit { requestCount := 0; }
      pool.Release(this, poolSockets);
    }
  }

  /** A transaction record is a value in the pool's list; its iterator is its number. */
  class Pool {
    const encode: Wire.Frame -> string

    var locked: bool
    var active: seq<Connection>
    var ready: seq<Connection>
    var store: seq<Txn<Connection>>
    var txnSeq: nat

    constructor (encode: Wire.Frame -> string)
      ensures Valid() && BackPointers() && !locked && Lists() == PoolLists.Lists([], [], [], 0) && this.encode == encode
    {
      this.encode := encode;
      locked, active, ready, store, txnSeq := false, [], [], [], 0;
    }

    function Lists(): PoolLists.Lists<Connection>
      reads this`active, this`ready, this`store, this`txnSeq
    {
      PoolLists.Lists(active, ready, store, txnSeq)
    }

    method ActiveSize() returns (n: nat)
      requires !locked
      modifies this`locked
      ensures !locked && n == |active|
    {
      locked := true;
      n := |active|;
      locked := false;
    }

    /** Nothing can be stored without an active connection. */
    lemma IdleIsEmpty()
      requires Valid()
      ensures |active| == 0 ==> store == []
    {
      if store != [] { assert store[0].conn in active; }
    }

    /** No connection is in two lists or twice in one, and all were made by this pool. */
    ghost predicate Separate()
      reads this`active, this`ready
    {
      && NoDup(active) && NoDup(ready)
      && (forall c :: c in active ==> c !in ready && c.pool == this)
      && (forall c :: c in ready ==> c.pool == this)
    }

    ghost predicate Valid()
      reads this`active, this`ready, this`store, this`txnSeq
    {
      && Separate() && Ordered(store)
      && (forall k :: 0 <= k < |store| ==> store[k].id <= txnSeq && store[k].conn in active)
    }

    /** The connections of the stored transactions. */
    ghost function Handles(): set<Connection>
      reads this`store
    {
      HandlesOf(store)
    }

    /** Those of the finished ones: the connections that other statements may work on. */
    ghost function Finished(): set<Connection>
      reads this`store
    {
      FinishedOf(store)
    }

    /** The links of the finished transactions' connections, now and after a COMMIT attempt on each. */
    ghost function Links(): map<Connection, Link>
      reads this`store, Finished()
    {
      map c | c in Finished() :: c.State()
    }

    ghost function Sent(): map<Connection, Link>
      reads this`store, Finished()
    {
      map c | c in Finished() && c.transaction.Some? :: c.AfterCommit()
    }

    /** These connections have links `was`, and a COMMIT attempt will leave them with links `sent`. */
    static ghost predicate Awaits(conns: set<Connection>, was: map<Connection, Link>, sent: map<Connection, Link>)
      reads conns
    {
      forall c :: c in conns ==>
        c in was && c.State() == was[c] && c in sent && c.transaction.Some? && c.AfterCommit() == sent[c]
    }

    static ghost predicate Still(conns: set<Connection>, was: map<Connection, Link>)
      reads conns
    {
      forall c :: c in conns ==> c in was && c.State() == was[c]
    }

    /** What a commit does with a connection whose transaction is finished: nothing, or one COMMIT attempt,
        `sent` being the link it leaves, after which the connection is given back. */
    ghost predicate DealtWith(c: Connection, was: Link, sent: Link)
      reads this`active, this`ready, c
    {
      c.State() == if c in active then was else Parted(sent, c in ready)
    }

    ghost predicate Dealt(conns: set<Connection>, was: map<Connection, Link>, sent: map<Connection, Link>)
      reads this`active, this`ready, conns
    {
      forall c :: c in conns ==> c in was && c in sent && DealtWith(c, was[c], sent[c])
    }

    lemma LinksAre()
      requires BackPointers()
      ensures Still(Finished(), Links()) && Finished() <= Sent().Keys
    {
      forall c | c in Finished() ensures c.transaction.Some? {
        var k :| 0 <= k < |store| && store[k].ready && store[k].conn == c;
      }
    }

    lemma AwaitsCommit()
      requires BackPointers()
      ensures Awaits(Finished(), Links(), Sent()) && Underway(Finished(), Links(), Sent())
    {
      LinksAre();
    }

    /** Every stored transaction's connection points back to it and to itself. */
    ghost predicate BackPointers()
      reads this`store, Handles()`transaction, Handles()`self
    {
      forall k :: 0 <= k < |store| ==>
        store[k].conn.transaction == Some(store[k].id) && store[k].conn.self == store[k].conn
    }

    ghost predicate Holds(id: nat, c: Connection)
      reads this`store
    {
      && (exists k :: 0 <= k < |store| && store[k].id == id)
      && (forall k :: 0 <= k < |store| && store[k].id == id ==> store[k].conn == c)
    }

    /** What an iterator into the store points at. */
    function Find(id: nat): (t: Txn<Connection>)
      requires exists k :: 0 <= k < |store| && store[k].id == id
      reads this
      ensures t in store && t.id == id
    {
      Pick(store, id)
    }

    static function Pick(ts: seq<Txn<Connection>>, id: nat): (t: Txn<Connection>)
      requires exists k :: 0 <= k < |ts| && ts[k].id == id
      ensures t in ts && t.id == id
    {
      if ts[0].id == id then ts[0] else Pick(ts[1..], id)
    }

    /** A waiting connection, the most recent first, else a new one, becomes active. */
    method Choose(maxSockets: nat) returns (r: Result<Connection>)
      requires Valid()
      modifies this`active, this`ready
      ensures r.Ok? <==> CanGet(old(Lists()), maxSockets)
      ensures r.Err? ==> Lists() == old(Lists())
      ensures r.Ok? ==>
        && Valid() && r.value.pool == this && r.value !in Handles() && r.value in active
        && Lists() == PoolLists.Get(old(Lists()), r.value) && r.value == Chosen(old(Lists()), r.value)
        && (old(ready) == [] ==> fresh(r.value) && !r.value.open)
    {
      if ready != [] {
        var c := ready[0];
        assert ready == [c] + ready[1..] && c in ready;
        active, ready := [c] + active, ready[1..];
        r := Ok(c);
      } else if |active| >= maxSockets {
        r := Err("pool: max pool sockets");
      } else {
        var c := new Connection(this, encode);
        active := [c] + active;
        r := Ok(c);
      }
    }

    /** The chosen connection points to itself and takes over the settings. */
    method HandOut(c: Connection, conf: Conf)
      requires Valid() && BackPointers() && c !in Handles() && c in active
      modifies c
      ensures BackPointers() && c.self == c && c.conf == conf && c.transactionId == None
      ensures c.State() == old(c.State()).(error := "")
    {
      c.self := c;
      c.Init(conf);
    }

    method Get(conf: Conf, maxSockets: nat) returns (r: Result<Connection>)
      requires Valid() && BackPointers() && !locked
      modifies this, if ready != [] then {ready[0]} else {}
      ensures r.Err? <==> old(ready) == [] && |old(active)| >= maxSockets
      ensures r.Ok? && old(ready) != [] ==> r.value == old(ready)[0] && ready == old(ready)[1..]
      ensures r.Err? ==> Valid() && BackPointers() && !locked && Lists() == old(Lists())
      ensures r.Ok? ==>
        && r.value.pool == this && r.value.Held() && (old(ready) == [] ==> fresh(r.value))
        && Lists() == PoolLists.Get(old(Lists()), r.value) && r.value == Chosen(old(Lists()), r.value)
        && r.value.conf == conf && r.value.transactionId == None && r.value.error == ""
        && (if old(ready) == [] then !r.value.open else r.value.State() == old(ready[0].State()).(error := ""))
    {
      locked := true;
      r := Choose(maxSockets);
      if r.Ok? {
        HandOut(r.value, conf);
      }
      locked := false;
    }

    /** Keep a live connection for reuse while there is room; otherwise destroy it, which closes it. */
    method ReleaseConnection(c: Connection, poolSockets: nat)
      requires Separate() && c in active
      modifies this`active, this`ready, c
      ensures Separate() && Lists() == GiveBack(old(Lists()), c, old(c.open), poolSockets)
      ensures c.State() == Parted(old(c.State()), c in ready)
      ensures c in ready <==> old(c.open) && |old(ready)| < poolSockets
      ensures unchanged(c`transactionId, c`transaction, c`conf) && (old(c.self) == c ==> c.self == c)
    {
      WithoutRemoves(active, c);
      if c.open && |ready| < poolSockets {
        active, ready := Without(active, c), [c] + ready;
        c.self := c;
      } else {
        active := Without(active, c);
        c.Close();
      }
    }

    method Release(c: Connection, poolSockets: nat)
      requires Separate() && !locked && c in active
      modifies this, c
      ensures Separate() && !locked
      ensures Lists() == GiveBack(old(Lists()), c, old(c.open), poolSockets)
      ensures c.State() == Parted(old(c.State()), c in ready)
      ensures c in ready <==> old(c.open) && |old(ready)| < poolSockets
      ensures unchanged(c`transactionId, c`transaction, c`conf) && (old(c.self) == c ==> c.self == c)
    {
      locked := true;
      ReleaseConnection(c, poolSockets);
      locked := false;
    }

    method CreateTransaction(c: Connection) returns (id: nat)
      requires Valid() && !locked && c in active
      modifies this
      ensures Valid() && !locked && Lists() == AddTxn(old(Lists()), c) && id == txnSeq
    {
      locked := true;
      txnSeq := txnSeq + 1;
      id := txnSeq;
      store := store + [Txn(id, false, c)];
      locked := false;
    }

    /** get_uncommited: mark the caller's transaction ready; if it is first, take the ready prefix. */
    method GetUncommitted(id: nat) returns (batch: seq<Txn<Connection>>)
      requires Valid() && !locked && exists k :: 0 <= k < |store| && store[k].id == id
      modifies this`store, this`locked
      ensures Valid() && !locked && Lists() == Finish(old(Lists()), id) && batch == Batch(old(Lists()), id)
      ensures old(BackPointers()) ==> BackPointers()
    {
      FinishCases(Lists(), id);
      locked := true;
      Mark(id);
      if store[0].id != id {
        batch := [];
      } else {
        batch := TakeReady();
      }
      locked := false;
    }

    method Mark(id: nat)
      requires Valid()
      modifies this`store
      ensures Valid() && store == MarkReady(old(store), id) && |store| == |old(store)|
      ensures old(BackPointers()) ==> BackPointers()
    {
      MarkKeepsValid(store, id);
      store := MarkReady(store, id);
    }

    /** The walk over the ready prefix, which is cut off the store. */
    method TakeReady() returns (batch: seq<Txn<Connection>>)
      requires Valid()
      modifies this`store
      ensures Valid() && store == old(store)[ReadyPrefix(old(store))..] &&
          batch == old(store)[..ReadyPrefix(old(store))]
      ensures old(BackPointers()) ==> BackPointers()
    {
      var i := 0;
      while i < |store| && store[i].ready
        invariant 0 <= i <= |store|
        invariant forall k :: 0 <= k < i ==> store[k].ready
      {
        i := i + 1;
      }
      PrefixIs(store, i);
      batch, store := store[..i], store[i..];
    }

    static lemma FinishCases(v: PoolLists.Lists<Connection>, id: nat)
      requires v.store != []
      ensures var marked := MarkReady(v.store, id);
              if marked[0].id == id
              then Batch(v, id) == marked[..ReadyPrefix(marked)] &&
                Finish(v, id) == v.(store := marked[ReadyPrefix(marked)..])
              else Batch(v, id) == [] && Finish(v, id) == v.(store := marked)
    {
    }

    static lemma MarkKeepsValid(ts: seq<Txn<Connection>>, id: nat)
      requires Ordered(ts)
      ensures var marked := MarkReady(ts, id);
              Ordered(marked) && forall k :: 0 <= k < |ts| ==> marked[k].id == ts[k].id && marked[k].conn == ts[k].conn
    {
    }

    static lemma PrefixIs(ts: seq<Txn<Connection>>, n: nat)
      requires n <= |ts| && (forall k :: 0 <= k < n ==> ts[k].ready) && (n < |ts| ==> !ts[n].ready)
      ensures ReadyPrefix(ts) == n
    {
    }

    /** Deferred connections whose socket survives the COMMIT attempt on it. */
    ghost function Survivors(): set<Connection>
      reads this`store, Finished()
    {
      OpenIn(Sent())
    }

    /** A COMMIT that leaves the socket open leaves its counter. */
    lemma SentKeepsCounts()
      requires BackPointers()
      ensures CountsKept(Links(), Sent()) && Links().Keys == Finished()
    {
      LinksAre();
      forall c | c in Sent() && Sent()[c].open ensures Sent()[c].requests == Links()[c].requests {
        CommitKeepsCount(c.State(), c.encode(Wire.CommitF(c.transaction.value)), true, c.receiptSeq, c.script);
      }
    }

    static ghost predicate CountsKept(was: map<Connection, Link>, sent: map<Connection, Link>) {
      was.Keys <= sent.Keys && forall c :: c in was && sent[c].open ==> sent[c].requests == was[c].requests
    }

    lemma DealtKeepsCounts(was: map<Connection, Link>, sent: map<Connection, Link>)
      requires CountsKept(was, sent) && Dealt(was.Keys, was, sent)
      ensures forall c :: c in was && c.open ==> c.requestCount == was[c].requests
    {
      forall c | c in was && c.open ensures c.requestCount == was[c].requests { assert DealtWith(c, was[c], sent[c]); }
    }

    /** What a commit will do to others is told by the finished transactions' connections. */
    twostate lemma Unmoved()
      requires Finished() == old(Finished()) && forall c :: c in old(Finished()) ==> unchanged(c)
      ensures Links() == old(Links()) && Sent() == old(Sent()) && Survivors() == old(Survivors())
    {
    }

    ghost predicate Survives(t: Txn<Connection>)
      reads t.conn
    {
      CommitAttempt(t.conn.State(), t.conn.encode(Wire.CommitF(t.id)), true, t.conn.receiptSeq, t.conn.script).0.open
    }

    /** Two stored transactions never share a connection, by the back pointers. */
    lemma OwnConnections(i: nat, j: nat)
      requires Valid() && BackPointers() && i < |store| && j < |store| && i != j
      ensures store[i].conn != store[j].conn
    {
    }

    /** No statement in flight has its connection among the finished ones. */
    lemma HeldIsUnfinished(a: Connection)
      requires Valid() && BackPointers() && a in active && a.Held()
      ensures a !in Finished()
    {
      if a.transactionId.Some? {
        var m :| 0 <= m < |store| && store[m] == Txn(a.transaction.value, false, a);
        forall k | 0 <= k < |store| && store[k].ready ensures store[k].conn != a { OwnConnections(k, m); }
      }
    }

    /** One round of force_commit: commit on the transaction's own connection, give it back, erase. */
    method ForceRound(i: nat, poolSockets: nat)
      requires Valid() && BackPointers() && locked && i < |store|
      modifies this`active, this`ready, this`store, store[i].conn
      ensures Valid() && BackPointers()
      ensures Lists() ==
          GiveBack(old(Lists()), old(store)[i].conn, old(Survives(store[i])),
          poolSockets).(store := Erase(old(store), i))
      ensures forall m :: i <= m < |store| ==>
          store[m] == old(store)[m + 1] && Survives(store[m]) == old(Survives(store[m + 1]))
      ensures old(store)[i].conn !in active
      ensures old(store)[i].conn.State() == Parted(old(store[i].conn.AfterCommit()), old(store)[i].conn in ready)
    {
      Others(i);
      EraseIs(store, i);
      ghost var ts, c, held := store, store[i].conn, active;
      WithoutRemoves(active, c);
      ForceOne(store[i], poolSockets);
      store := Erase(store, i);
      forall m | 0 <= m < |store|
        ensures store[m].id <= txnSeq && store[m].conn in active && store[m].conn.transaction == Some(store[m].id)
          && store[m].conn.self == store[m].conn
      {
        var j := if m < i then m else m + 1;
        assert store[m] == ts[j] && ts[j].conn != c && ts[j].conn in held;
      }
    }

    method ForceOne(t: Txn<Connection>, poolSockets: nat)
      requires Separate() && locked && t.conn in active
      requires t.conn.self == t.conn && t.conn.transaction == Some(t.id) && t.conn.pool == this && Holds(t.id, t.conn)
      modifies this`active, this`ready, t.conn
      ensures Separate() && Lists() == GiveBack(old(Lists()), t.conn, old(Survives(t)), poolSockets)
      ensures t.conn !in active && t.conn.State() == Parted(old(t.conn.AfterCommit()), t.conn in ready)
    {
      WithoutRemoves(active, t.conn);
      t.conn.ForceCommit(poolSockets);
      ReleaseConnection(t.conn, poolSockets);
    }

    lemma Others(i: nat)
      requires Valid() && BackPointers() && i < |store|
      ensures store[i].conn.self == store[i].conn && Holds(store[i].id, store[i].conn)
      ensures forall k :: 0 <= k < |store| && k != i ==> store[k].conn != store[i].conn
    {
      forall k | 0 <= k < |store| && k != i ensures store[k].conn != store[i].conn { OwnConnections(k, i); }
    }

    lemma SurvivorsAre()
      requires Valid() && BackPointers()
      ensures forall m :: 0 <= m < |store| && store[m].ready ==> (Survives(store[m]) <==> store[m].conn in Survivors())
    {
      forall m | 0 <= m < |store| && store[m].ready ensures Survives(store[m]) <==> store[m].conn in Survivors() {
        assert store[m] in store && store[m].conn.AfterCommit().open == Survives(store[m]);
      }
    }

    /** From position i on, `good` says which sockets survive their COMMIT. */
    ghost predicate Foretold(i: nat, good: set<Connection>)
      reads this`store, Handles()
    {
      forall m :: i <= m < |store| && store[m].ready ==> (Survives(store[m]) <==> store[m].conn in good)
    }

    /** Once nothing finished is left, all of them were dealt with. */
    lemma AllDealt(conns: set<Connection>, was: map<Connection, Link>, sent: map<Connection, Link>)
      requires Underway(conns, was, sent) && Finished() == {}
      ensures Dealt(conns, was, sent) && forall c :: c in conns ==> c !in active
    {
    }

    /** Of these connections, those still to be forced are as they were; the others had their COMMIT
        attempt and were given back. */
    ghost predicate Underway(conns: set<Connection>, was: map<Connection, Link>, sent: map<Connection, Link>)
      reads this`active, this`ready, this`store, conns
    {
      forall c :: c in conns ==>
        && c in was && c in sent
        && if c in Finished() then c.State() == was[c] && c.transaction.Some? && c.AfterCommit() == sent[c]
           else c !in active && c.State() == Parted(sent[c], c in ready)
    }

    static lemma EraseFinished(ts: seq<Txn<Connection>>, i: nat)
      requires i < |ts| && ts[i].ready && forall k :: 0 <= k < |ts| && k != i ==> ts[k].conn != ts[i].conn
      ensures FinishedOf(Erase(ts, i)) == FinishedOf(ts) - {ts[i].conn}
    {
      var rest := Erase(ts, i);
      forall c | c in FinishedOf(rest) ensures c in FinishedOf(ts) - {ts[i].conn} {
        var m :| 0 <= m < |rest| && rest[m].ready && rest[m].conn == c;
        assert rest[m] == ts[if m < i then m else m + 1];
      }
      forall c | c in FinishedOf(ts) && c != ts[i].conn ensures c in FinishedOf(rest) {
        var k :| 0 <= k < |ts| && ts[k].ready && ts[k].conn == c;
        assert rest[if k < i then k else k - 1] == ts[k];
      }
    }

    /** One round, with the record of what it did. */
    method ForceNext(i: nat, ghost good: set<Connection>, ghost conns: set<Connection>,
        ghost was: map<Connection, Link>,
        ghost sent: map<Connection, Link>, poolSockets: nat)
      requires Valid() && BackPointers() && locked && i < |store| && store[i].ready && Passed(store, i)
      requires Foretold(i, good) && Underway(conns, was, sent) && Finished() <= conns
      modifies this`active, this`ready, this`store, store[i].conn
      ensures Valid() && BackPointers() && |store| == |old(store)| - 1 && Passed(store, i)
      ensures Foretold(i, good) && Underway(conns, was, sent) && Finished() <= conns
      ensures ForceFrom(Lists(), i, good, poolSockets) == ForceFrom(old(Lists()), i, good, poolSockets)
    {
      Others(i);
      EraseFinished(store, i);
      assert store[i].conn in Finished();
      WithoutRemoves(active, store[i].conn);
      ForceRound(i, poolSockets);
    }

    /** Before position i only unfinished transactions are left. */
    static ghost predicate Passed(ts: seq<Txn<Connection>>, i: nat) {
      i <= |ts| && forall m :: 0 <= m < i ==> !ts[m].ready
    }

    static lemma OneMorePassed(ts: seq<Txn<Connection>>, i: nat)
      requires Passed(ts, i) && i < |ts| && !ts[i].ready
      ensures Passed(ts, i + 1)
    {
    }

    /** The loop of force_commit. */
    method ForceLoop(ghost good: set<Connection>, ghost conns: set<Connection>, ghost was: map<Connection, Link>,
        ghost sent: map<Connection, Link>, poolSockets: nat) returns (count: nat)
      requires Valid() && BackPointers() && locked && Foretold(0, good) && Underway(conns, was, sent) &&
          Finished() <= conns
      modifies this`active, this`ready, this`store, conns
      ensures Valid() && BackPointers() && Underway(conns, was, sent) && Finished() == {}
      ensures Lists() == ForceFrom(old(Lists()), 0, good, poolSockets) && count == |old(store)| - |store|
    {
      count := 0;
      var i := 0;
      while i < |store|
        invariant Valid() && BackPointers() && locked && Foretold(i, good) && Underway(conns, was, sent) &&
            Finished() <= conns
        invariant Passed(store, i) && count + |store| == |old(store)|
        invariant ForceFrom(Lists(), i, good, poolSockets) == ForceFrom(old(Lists()), 0, good, poolSockets)
        decreases |store| - i
      {
        if store[i].ready {
          ForceNext(i, good, conns, was, sent, poolSockets);
          count := count + 1;
        } else {
          OneMorePassed(store, i);
          i := i + 1;
        }
      }
    }

    /** force_commit: commit and give back every ready transaction, out of turn. */
    method ForceCommit(poolSockets: nat) returns (count: nat)
      requires Valid() && BackPointers() && !locked
      modifies this, Finished()
      ensures Valid() && BackPointers() && !locked
      ensures Lists() == Force(old(Lists()), old(Survivors()), poolSockets)
      ensures count == |ReadyOnes(old(store))|
      ensures Dealt(old(Finished()), old(Links()), old(Sent())) && forall c :: c in old(Finished()) ==> c !in active
    {
      count := ForceLocked(poolSockets);
      locked := false;
    }

    method ForceLocked(poolSockets: nat) returns (count: nat)
      requires Valid() && BackPointers() && !locked
      modifies this, Finished()
      ensures Valid() && BackPointers() && locked
      ensures Lists() == Force(old(Lists()), old(Survivors()), poolSockets)
      ensures count == |ReadyOnes(old(store))|
      ensures Dealt(old(Finished()), old(Links()), old(Sent())) && forall c :: c in old(Finished()) ==> c !in active
    {
      locked := true;
      Unmoved();
      ghost var good, conns, was, sent := Survivors(), Finished(), Links(), Sent();
      Foresee(good, poolSockets);
      AwaitsCommit();
      count := ForceLoop(good, conns, was, sent, poolSockets);
      AllDealt(conns, was, sent);
    }

    /** What the loop is about to do. */
    lemma Foresee(good: set<Connection>, poolSockets: nat)
      requires Valid() && BackPointers() && good == Survivors()
      ensures Foretold(0, good)
      ensures ForceFrom(Lists(), 0, good, poolSockets) == Force(Lists(), good, poolSockets)
      ensures |store| - |Force(Lists(), good, poolSockets).store| == |ReadyOnes(store)|
    {
      LoopIsForce(Lists(), good, poolSockets);
      ForceCounts(Lists(), good, poolSockets);
      SurvivorsAre();
    }

    lemma Placing()
      requires Valid() && BackPointers()
      ensures Placed(Lists())
    {
      forall j, k | 0 <= j < k < |store| ensures store[j].conn != store[k].conn { OwnConnections(j, k); }
    }

    /** A forced commit leaves the connections and transactions of unfinished statements where they are. */
    static lemma Unforced(v: PoolLists.Lists<Connection>, good: set<Connection>, poolSockets: nat)
      requires Placed(v)
      ensures LeavesOthers(v, Force(v, good, poolSockets), {})
    {
      var w := Force(v, good, poolSockets);
      forall t | t in v.store && !t.ready ensures t in w.store { ForceStore(v, good, poolSockets, t); }
      forall t | t in w.store ensures t.conn in HandlesOf(v.store) { ForceStore(v, good, poolSockets, t); }
      forall c | c in v.active && c !in FinishedOf(v.store) ensures c in w.active {
        forall k | 0 <= k < |v.store| && v.store[k].ready ensures v.store[k].conn != c { assert v.store[k] in v.store; }
        ForceKeepsOthers(v, good, poolSockets, c);
      }
    }
  }
}
