/** The entry points MySQL calls for one statement, over the connection objects. */
module Udf {
  import opened Prelude
  import opened PoolLists
  import opened SocketIo
  import SocketLaws
  import opened Capstomp
  import Wire
  import ReceiptWindow

  /** The lists once connect() has begun a transaction, or has not. */
  ghost function Begun(v: Lists<Connection>, conn: Connection, txn: Option<nat>): Lists<Connection> {
    if txn.None? then v else AddTxn(v, conn)
  }

  /** A transaction begun is not among the finished ones. */
  lemma BegunKeepsFinished(pool: Pool, before: seq<Txn<Connection>>, conn: Connection, txn: Option<nat>)
    requires pool.store == before + if txn.None? then [] else [Txn(txn.value, false, conn)]
    ensures pool.Finished() == set t | t in before && t.ready :: t.conn
  {
    var finished := set t | t in before && t.ready :: t.conn;
    assert forall t :: t in pool.store && t.ready <==> t in before && t.ready;
  }

  /** What the commit of `conn`, with transaction `txn` or none, has done to a pool with lists `v`, whose
      finished transactions' connections had links `was` and would be left with links `sent` by a COMMIT:
      the lists are retired, with the sockets surviving that `sent` says, its own if `kept`; of other
      statements only finished ones are touched, and each of those is as it was or had its COMMIT and was
      given back. The connection stays active only if its finished transaction waits in the store. */
  ghost predicate Committed(conn: Connection, txn: Option<nat>, v: Lists<Connection>,
      was: map<Connection, SocketIo.Link>, sent: map<Connection, SocketIo.Link>, kept: bool, poolSockets: nat)
    reads conn.pool, was.Keys
  {
    && conn.pool.Lists() == Retire(v, txn, conn, OpenIn(sent) + (if kept then {conn} else {}), poolSockets)
    && LeavesOthers(v, conn.pool.Lists(), {conn}) && conn.pool.Dealt(was.Keys, was, sent)
    && (conn in conn.pool.active ==> txn.Some? && Txn(txn.value, true, conn) in conn.pool.store)
  }

  /** The COMMIT keeps the counter and opens nothing. */
  lemma OwnLinkCounts(conn: Connection, limit: nat)
    requires conn.transactionId.Some? ==> conn.transaction.Some?
    ensures SocketIo.KeepsBook(conn.State(), conn.OwnLink(limit))
  {
    if conn.transactionId.Some? {
      ghost var receipt := |Batch(conn.pool.Lists(), conn.transaction.value)| > 1 || conn.IsReceipt(limit);
      CommitKeepsCount(conn.State(), conn.encode(Wire.CommitF(conn.transaction.value)), receipt, conn.receiptSeq,
        conn.script);
    }
  }

  /** A connection waits for reuse only if its COMMIT left its socket open. */
  lemma WaitsOpen(conn: Connection, limit: nat, poolSockets: nat)
    requires conn.Held()
    ensures conn in Retire(conn.pool.Lists(), conn.transactionId, conn, conn.Good(limit), poolSockets).ready ==>
        conn.OwnLink(limit).open
  {
    var p := conn.OwnPlace();
    RetireKeepsOpen(conn.pool.Lists(), conn.transactionId, p, conn, conn.Good(limit), poolSockets, conn);
    conn.pool.HeldIsUnfinished(conn);
  }

  /** The end of a statement, by capstomp_deinit or by the error exit of capstomp_init: hand everything on. */
  method Settle(conn: Connection, limit: nat, poolSockets: nat) returns (ghost kept: bool)
    requires conn.Held()
    modifies conn, conn.pool, conn.pool.Finished()
    ensures conn.pool.Valid() && conn.pool.BackPointers() && !conn.pool.locked
    ensures Committed(conn, old(conn.transactionId), old(conn.pool.Lists()), old(conn.pool.Links()),
        old(conn.pool.Sent()), kept, poolSockets)
    ensures kept || conn.open ==> old(conn.open)
    ensures conn.open ==> conn.passhash == old(conn.passhash)
    ensures conn in conn.pool.ready ==>
        kept && conn.requestCount == ReceiptWindow.AfterRelease(old(conn.requestCount), limit)
    ensures conn in conn.pool.active ==> unchanged(conn) && forall c :: c in old(conn.pool.Finished()) ==> unchanged(c)
  {
    kept := conn.OwnLink(limit).open;
    assert conn.Good(limit) == conn.pool.Survivors() + (if kept then {conn} else {});
    OwnLinkCounts(conn, limit);
    WaitsOpen(conn, limit, poolSockets);
    conn.Commit(limit, poolSockets);
  }

  /** The catch block of capstomp_init: with errors hidden the connection is kept, closed. */
  method Fail(conn: Connection, limit: nat, poolSockets: nat) returns (code: nat)
    requires conn.Held()
    modifies conn, conn.pool, conn.pool.Finished()
    ensures conn.pool.Valid() && conn.pool.BackPointers() && !conn.pool.locked && !conn.open
    ensures code == if old(conn.conf.noError) then 0 else 1
    ensures code == 0 ==>
      && conn.Held() && unchanged(conn.pool) && unchanged(conn`conf, conn`transactionId, conn`script) &&
        conn.State() == Closed(old(conn.State()))
      && forall c :: c in old(conn.pool.Finished()) ==> unchanged(c)
    ensures code == 1 ==>
      Committed(conn, old(conn.transactionId), old(conn.pool.Lists()), old(conn.pool.Links()), old(conn.pool.Sent()),
        false, poolSockets)
  {
    conn.pool.HeldIsUnfinished(conn);
    conn.Close();
    conn.pool.Unmoved();
    if conn.conf.noError { return 0; }
    ghost var kept := Settle(conn, limit, poolSockets);
    code := 1;
  }

  /** What connect() does on the socket: reuse it or log on anew, then BEGIN for a transactional URI. */
  ghost function Opening(conn: Connection, fragment: string, passhash: nat, dialled: bool, session: bool, limit: nat)
    : (SocketIo.Link, seq<Event>, Exit)
    reads conn, conn.pool
  {
    var (st, io, e) := SocketIo.Reach(conn.State(), fragment, passhash, dialled, session, conn.encode(Wire.LogonF),
      conn.script);
    var st1 := st.(requests := st.requests + 1);
    if e.Raised? then (st, io, e)
    else if !conn.conf.transaction then (st1, io, Returned)
    else Exchange(st1, conn.encode(Wire.BeginF(conn.pool.txnSeq + 1)),
                  ReceiptWindow.Asks(conn.conf.receipt, st1.requests, limit), conn.receiptSeq, io)
  }

  /** What capstomp_init returns: 1 when connect() threw and errors are not hidden. */
  ghost function Code(conn: Connection, fragment: string, passhash: nat, dialled: bool, session: bool, limit: nat): nat
    reads conn, conn.pool
  {
    if Opening(conn, fragment, passhash, dialled, session, limit).2.Raised? && !conn.conf.noError then 1 else 0
  }

  ghost function Opened(conn: Connection, fragment: string, passhash: nat, dialled: bool, session: bool,
      limit: nat): SocketIo.Link
    reads conn, conn.pool
  {
    Opening(conn, fragment, passhash, dialled, session, limit).0
  }

  /** The link once the socket is reached. */
  ghost function Reached(conn: Connection, fragment: string, passhash: nat, dialled: bool, session: bool): SocketIo.Link
    reads conn
  {
    SocketIo.Reach(conn.State(), fragment, passhash, dialled, session, conn.encode(Wire.LogonF), conn.script).0
  }

  /** By the events alone: the broker refuses this call's LOGON or its BEGIN, with a text. */
  ghost predicate Rejected(conn: Connection, fragment: string, passhash: nat, dialled: bool, session: bool, limit: nat)
    reads conn, conn.pool
  {
    (exists text :: LogonRejected(conn, passhash, dialled, text)) ||
    (exists text :: BeginRejected(conn, fragment, passhash, dialled, session, limit, text))
  }

  ghost predicate LogonRejected(conn: Connection, passhash: nat, dialled: bool, text: string)
    reads conn
  {
    && dialled && text != "" && conn.encode(Wire.LogonF) != ""
    && SocketLaws.LogonMeets(conn.State(), passhash, |conn.encode(Wire.LogonF)|, conn.script, text)
  }

  ghost predicate BeginRejected(conn: Connection, fragment: string, passhash: nat, dialled: bool, session: bool,
      limit: nat, text: string)
    reads conn, conn.pool
  {
    var (st, io, e) := SocketIo.Reach(conn.State(), fragment, passhash, dialled, session, conn.encode(Wire.LogonF),
      conn.script);
    var begin := conn.encode(Wire.BeginF(conn.pool.txnSeq + 1));
    && e.Returned? && st.open && begin != "" && text != ""
    && conn.conf.transaction && (conn.conf.receipt || st.requests + 1 >= limit)
    && SocketLaws.SentAndRefused(st.armed + {conn.receiptSeq}, |begin|, io, text)
  }

  /** Then connect() throws. */
  lemma RejectedThrows(conn: Connection, fragment: string, passhash: nat, dialled: bool, session: bool, limit: nat)
    requires Rejected(conn, fragment, passhash, dialled, session, limit)
    ensures Opening(conn, fragment, passhash, dialled, session, limit).2.Raised?
  {
    if text :| LogonRejected(conn, passhash, dialled, text) {
      SocketLaws.LogonRefused(conn.State(), fragment, passhash, session, conn.encode(Wire.LogonF), conn.script, text);
    } else {
      var text :| BeginRejected(conn, fragment, passhash, dialled, session, limit, text);
      var (st, io, _) := SocketIo.Reach(conn.State(), fragment, passhash, dialled, session, conn.encode(Wire.LogonF),
        conn.script);
      var st1 := st.(requests := st.requests + 1);
      SocketLaws.ExchangeRefused(st1, conn.encode(Wire.BeginF(conn.pool.txnSeq + 1)), conn.receiptSeq, io, text);
    }
  }

  /** connect() counts one request on the socket it leaves open, which holds the call's password. */
  lemma OpeningCounts(conn: Connection, fragment: string, passhash: nat, dialled: bool, session: bool, limit: nat)
    ensures var (st, _, e) := Opening(conn, fragment, passhash, dialled, session, limit);
            e.Returned? && st.open ==>
              && st.requests == Reached(conn, fragment, passhash, dialled, session).requests + 1
              && (conn.encode(Wire.LogonF) != "" ==> st.passhash == passhash)
  {
    if conn.encode(Wire.LogonF) != "" {
      SocketLaws.ReachRemembers(conn.State(), fragment, passhash, dialled, session, conn.encode(Wire.LogonF),
        conn.script);
    }
    var (st, io, e) := SocketIo.Reach(conn.State(), fragment, passhash, dialled, session, conn.encode(Wire.LogonF),
      conn.script);
    var st1 := st.(requests := st.requests + 1);
    ExchangeKeepsCount(st1, conn.encode(Wire.BeginF(conn.pool.txnSeq + 1)),
      ReceiptWindow.Asks(conn.conf.receipt, st1.requests, limit), conn.receiptSeq, io);
  }

  /** A transaction is begun exactly when the socket was reached and the URI asks for one. */
  ghost function Numbered(conn: Connection, fragment: string, passhash: nat, dialled: bool, session: bool): Option<nat>
    reads conn, conn.pool
  {
    var reached := SocketIo.Reach(conn.State(), fragment, passhash, dialled, session, conn.encode(Wire.LogonF),
      conn.script).2.Returned?;
    if conn.conf.transaction && reached then Some(conn.pool.txnSeq + 1) else None
  }

  /** How many receipts connect() asks for when it returns: one with the BEGIN, if the statement sends it and asks. */
  ghost function Asked(conn: Connection, fragment: string, passhash: nat, dialled: bool, session: bool, limit: nat): nat
    reads conn
  {
    var requests := Reached(conn, fragment, passhash, dialled, session).requests + 1;
    if ReceiptWindow.SendsFrame(AsUse(conn.conf, 0, true)) && (conn.conf.receipt || requests >= limit) then 1 else 0
  }

  method Connect(conn: Connection, fragment: string, passhash: nat, dialled: bool, session: bool, limit: nat)
    returns (e: Exit)
    requires conn.Held() && conn.transactionId == None
    modifies conn, conn.pool
    ensures conn.Held() && conn.conf == old(conn.conf)
    ensures (conn.State(), conn.script, e) == old(Opening(conn, fragment, passhash, dialled, session, limit))
    ensures conn.transactionId == old(Numbered(conn, fragment, passhash, dialled, session))
    ensures conn.pool.Lists() == Begun(old(conn.pool.Lists()), conn, conn.transactionId)
    ensures conn.pool.Finished() == old(conn.pool.Finished())
    ensures e.Returned? && conn.open ==>
        conn.requestCount == old(Reached(conn, fragment, passhash, dialled, session)).requests + 1
    ensures e.Returned? && conn.open && conn.encode(Wire.LogonF) != "" ==> conn.passhash == passhash
    ensures e.Returned? ==>
        conn.receiptSeq == old(conn.receiptSeq + Asked(conn, fragment, passhash, dialled, session, limit))
  {
    OpeningCounts(conn, fragment, passhash, dialled, session, limit);
    ghost var store := conn.pool.store;
    e := conn.Reach(fragment, passhash, dialled, session);
    if e.Returned? { e := conn.Begin(limit); }
    BegunKeepsFinished(conn.pool, store, conn, conn.transactionId);
  }

  /** capstomp_init from the moment store::get has returned: 0 when rows may follow, 1 when the call is
      refused. After an exception the socket is closed; unless errors are to be hidden the transaction,
      if begun, is finished and the connection handed on, so a refused call leaves nothing behind. */
  method Init(conn: Connection, fragment: string, passhash: nat, dialled: bool, session: bool, limit: nat,
      poolSockets: nat)
    returns (code: nat, ghost txn: Option<nat>)
    requires conn.Held() && conn.transactionId == None
    modifies conn, conn.pool, conn.pool.Finished()
    ensures conn.pool.Valid() && conn.pool.BackPointers() && !conn.pool.locked
    ensures txn == old(Numbered(conn, fragment, passhash, dialled, session))
    ensures var (st, io, e) := old(Opening(conn, fragment, passhash, dialled, session, limit));
      && code == (if e.Raised? && !old(conn.conf.noError) then 1 else 0)
      && (code == 0 ==> conn.script == io && conn.State() == if e.Raised? then Closed(st) else st)
    ensures code == old(Code(conn, fragment, passhash, dialled, session, limit))
    ensures code == 0 ==>
      && conn.Held() && conn.conf == old(conn.conf) && conn.transactionId == txn
      && conn.pool.Lists() == Begun(old(conn.pool.Lists()), conn, txn)
      && conn.pool.Finished() == old(conn.pool.Finished())
      && forall c :: c in old(conn.pool.Finished()) ==> unchanged(c)
    ensures code == 0 && conn.open ==>
      && conn.requestCount == old(Reached(conn, fragment, passhash, dialled, session)).requests + 1
      && old(Opened(conn, fragment, passhash, dialled, session, limit)).open
    ensures code == 0 && conn.open && conn.encode(Wire.LogonF) != "" ==> conn.passhash == passhash
    ensures old(Opening(conn, fragment, passhash, dialled, session, limit)).2.Returned? ==>
        conn.receiptSeq == old(conn.receiptSeq + Asked(conn, fragment, passhash, dialled, session, limit))
    ensures old(Rejected(conn, fragment, passhash, dialled, session, limit)) ==>
        !conn.open && code == if old(conn.conf.noError) then 0 else 1
    ensures code == 1 ==> !conn.open
    ensures code == 1 ==>
      Committed(conn, txn, Begun(old(conn.pool.Lists()), conn, txn), old(conn.pool.Links()), old(conn.pool.Sent()),
        false, poolSockets)
  {
    conn.pool.HeldIsUnfinished(conn);
    if Rejected(conn, fragment, passhash, dialled, session, limit) {
      RejectedThrows(conn, fragment, passhash, dialled, session, limit);
    }
    var e := Connect(conn, fragment, passhash, dialled, session, limit);
    txn := conn.transactionId;
    if e.Returned? { return 0, txn; }
    conn.pool.Unmoved();
    code := Fail(conn, limit, poolSockets);
  }

  /** By the events alone: a plain row is sent whole, with a receipt asked, and the broker refuses it. */
  ghost predicate RowRejected(conn: Connection, limit: nat, text: string)
    reads conn
  {
    var row := conn.encode(Wire.SendF(None));
    && conn.open && conn.transactionId.None? && (conn.conf.receipt || conn.requestCount >= limit)
    && row != "" && text != ""
    && SocketLaws.SentAndRefused(conn.armed + {conn.receiptSeq}, |row|, conn.script, text)
  }

  /** capstomp_content: with errors hidden a row on a closed socket is skipped; otherwise the row is sent,
      and an exception closes the socket. The pool is not touched. */
  method Row(conn: Connection, limit: nat) returns (size: nat, error: bool)
    requires conn.Held()
    modifies conn
    ensures conn.Held() && conn.transactionId == old(conn.transactionId) && conn.conf == old(conn.conf)
    ensures conn.open ==>
        old(conn.open) && conn.requestCount == old(conn.requestCount) && conn.passhash == old(conn.passhash)
    ensures conn.receiptSeq == old(conn.receiptSeq) +
        (if conn.transactionId.None? && (old(conn.open) || !conn.conf.noError) && old(conn.IsReceipt(limit))
          then 1 else 0)
    ensures forall text :: old(RowRejected(conn, limit, text)) ==> error && size == 0 && !conn.open
    ensures !old(conn.open) && conn.conf.noError ==> size == 0 && !error && unchanged(conn)
    ensures old(conn.open) || !conn.conf.noError ==>
      var (st, io, e) := Exchange(old(conn.State()), conn.encode(Wire.SendF(conn.transactionId)),
                                  conn.transactionId.None? && old(conn.IsReceipt(limit)),
                                  old(conn.receiptSeq), old(conn.script));
      && (error <==> e.Raised?) && conn.script == io
      && (if error then size == 0 && conn.State() == Closed(st)
          else size == |conn.encode(Wire.SendF(conn.transactionId))| && conn.State() == st)
  {
    if !conn.open && conn.conf.noError { return 0, false; }
    forall text | RowRejected(conn, limit, text)
      ensures Exchange(conn.State(), conn.encode(Wire.SendF(None)), true, conn.receiptSeq, conn.script).2.Raised?
    {
      SocketLaws.ExchangeRefused(conn.State(), conn.encode(Wire.SendF(None)), conn.receiptSeq, conn.script, text);
    }
    ExchangeKeepsCount(conn.State(), conn.encode(Wire.SendF(conn.transactionId)),
                       conn.transactionId.None? && conn.IsReceipt(limit), conn.receiptSeq, conn.script);
    var e;
    e, size := conn.SendContent(limit);
    error := e.Raised?;
    if error {
      size := 0;
      conn.Close();
    }
  }

  /** MySQL asks for one row after another until one fails. On a live socket the rows of a plain statement that
      asks do ask, if and only if it sends a frame at all. */
  method Rows(conn: Connection, rows: nat, limit: nat)
    requires conn.Held()
    modifies conn
    ensures conn.Held() && conn.transactionId == old(conn.transactionId)
    ensures conn.open ==>
        conn.requestCount == old(conn.requestCount) && old(conn.open) && conn.passhash == old(conn.passhash)
    ensures !conn.conf.transaction && conn.transactionId.None? && old(conn.open) && old(conn.IsReceipt(limit)) ==>
        (conn.receiptSeq > old(conn.receiptSeq) <==> ReceiptWindow.SendsFrame(AsUse(conn.conf, rows, true)))
  {
    var k, error := 0, false;
    while k < rows && !error
      invariant conn.Held() && conn.transactionId == old(conn.transactionId) && conn.conf == old(conn.conf)
      invariant k <= rows && (k == 0 ==> !error)
      invariant k == 0 ==> conn.State() == old(conn.State()) && conn.receiptSeq == old(conn.receiptSeq)
      invariant k > 0 && conn.transactionId.None? && old(conn.open) && old(conn.IsReceipt(limit)) ==>
        conn.receiptSeq > old(conn.receiptSeq)
      invariant conn.open ==>
        conn.requestCount == old(conn.requestCount) && old(conn.open) && conn.passhash == old(conn.passhash)
    {
      var size;
      size, error := Row(conn, limit);
      k := k + 1;
    }
  }

  /** Rows, then deinit. */
  method Serve(conn: Connection, rows: nat, limit: nat, poolSockets: nat) returns (ghost kept: bool)
    requires conn.Held()
    modifies conn, conn.pool, conn.pool.Finished()
    ensures conn.pool.Valid() && conn.pool.BackPointers() && !conn.pool.locked
    ensures Committed(conn, old(conn.transactionId), old(conn.pool.Lists()), old(conn.pool.Links()),
        old(conn.pool.Sent()), kept, poolSockets)
    ensures kept || conn.open ==> old(conn.open)
    ensures conn.open ==> conn.passhash == old(conn.passhash)
    ensures conn in conn.pool.ready ==>
        kept && conn.requestCount == ReceiptWindow.AfterRelease(old(conn.requestCount), limit)
    ensures conn.open && conn in conn.pool.active ==> conn.requestCount == old(conn.requestCount)
  {
    conn.pool.HeldIsUnfinished(conn);
    Rows(conn, rows, limit);
    conn.pool.Unmoved();
    kept := Settle(conn, limit, poolSockets);
  }

  /** A statement as the receipt window sees it. */
  function AsUse(conf: Conf, rows: nat, byOwner: bool): ReceiptWindow.Use {
    ReceiptWindow.Use(conf.receipt, conf.transaction, rows, byOwner)
  }

  /** A whole call, rows and all: of the pool it changes exactly what beginning at most one transaction
      and committing it change, and the connection stays active only if its finished transaction waits
      in the store for somebody else, whether init returned 0 or 1. If `uses` are the statements the socket has
      served so far, its counter afterwards is that of one use more. MySQL calls deinit once if and only
      if init returned 0. */
  method Statement(conn: Connection, fragment: string, passhash: nat, dialled: bool, session: bool,
      rows: nat, limit: nat, poolSockets: nat, ghost uses: seq<ReceiptWindow.Use>)
    returns (code: nat, ghost txn: Option<nat>, ghost kept: bool)
    requires conn.Held() && conn.transactionId == None
    modifies conn, conn.pool, conn.pool.Finished()
    ensures conn.pool.Valid() && conn.pool.BackPointers() && !conn.pool.locked
    ensures Committed(conn, txn, Begun(old(conn.pool.Lists()), conn, txn), old(conn.pool.Links()),
        old(conn.pool.Sent()), kept, poolSockets)
    ensures txn == old(Numbered(conn, fragment, passhash, dialled, session))
    ensures kept ==> code == 0 && old(Opened(conn, fragment, passhash, dialled, session, limit)).open
    ensures forall c :: c in old(conn.pool.Finished()) && c.open ==> c.requestCount == old(c.requestCount)
    ensures conn.open && conn.encode(Wire.LogonF) != "" ==> conn.passhash == passhash
    ensures (&& code == 0
             && old(Reached(conn, fragment, passhash, dialled, session)).requests ==
               ReceiptWindow.Count(uses, limit)) ==>
      && (conn in conn.pool.ready ==>
            conn.requestCount == ReceiptWindow.Count(uses + [AsUse(old(conn.conf), rows, true)], limit))
      && (conn in conn.pool.active && conn.open ==>
            conn.requestCount == ReceiptWindow.Count(uses + [AsUse(old(conn.conf), rows, false)], limit))
  {
    ghost var conf, was, sent := conn.conf, conn.pool.Links(), conn.pool.Sent();
    conn.pool.SentKeepsCounts();
    code, txn := Init(conn, fragment, passhash, dialled, session, limit, poolSockets);
    kept := false;
    if code == 0 {
      conn.pool.Unmoved();
      kept := Serve(conn, rows, limit, poolSockets);
    }
    conn.pool.DealtKeepsCounts(was, sent);
    ReceiptWindow.CountNext(uses, AsUse(conf, rows, true), limit);
    ReceiptWindow.CountNext(uses, AsUse(conf, rows, false), limit);
  }

  // ----- two statements at once

  /** The commit of one statement never touches another statement in flight. */
  method Deinit(conn: Connection, ghost other: Connection, limit: nat, poolSockets: nat) returns (ghost kept: bool)
    requires conn.Held() && other.Held() && other != conn && other.pool == conn.pool
    modifies conn, conn.pool, conn.pool.Finished()
    ensures other.Held() && unchanged(other)
    ensures Committed(conn, old(conn.transactionId), old(conn.pool.Lists()), old(conn.pool.Links()),
        old(conn.pool.Sent()), kept, poolSockets)
    ensures conn in conn.pool.active ==> unchanged(conn) && forall c :: c in old(conn.pool.Finished()) ==> unchanged(c)
  {
    conn.pool.HeldIsUnfinished(other);
    ghost var v := conn.pool.Lists();
    kept := Settle(conn, limit, poolSockets);
    StaysPut(other, v, conn.pool.Lists(), {conn});
  }

  /** What is in place before a commit that leaves it alone is in place afterwards. */
  lemma StaysPut(other: Connection, v: Lists<Connection>, w: Lists<Connection>, own: set<Connection>)
    requires LeavesOthers(v, w, own) && other !in own && other !in FinishedOf(v.store) && other in v.active
    ensures other in w.active
    ensures other.transaction.Some? && Txn(other.transaction.value, false, other) in v.store ==>
      Txn(other.transaction.value, false, other) in w.store
    ensures other !in HandlesOf(v.store) ==> other !in HandlesOf(w.store)
  {
  }

  /** Nor does a forced commit. */
  method Force(pool: Pool, ghost other: Connection, poolSockets: nat) returns (count: nat)
    requires other.Held() && other.pool == pool
    modifies pool, pool.Finished()
    ensures other.Held() && unchanged(other)
    ensures pool.Lists() == PoolLists.Force(old(pool.Lists()), old(pool.Survivors()), poolSockets)
    ensures count == |ReadyOnes(old(pool.store))|
    ensures pool.Dealt(old(pool.Finished()), old(pool.Links()), old(pool.Sent())) &&
        forall c :: c in old(pool.Finished()) ==> c !in pool.active
  {
    pool.HeldIsUnfinished(other);
    pool.Placing();
    ghost var v := pool.Lists();
    Pool.Unforced(v, pool.Survivors(), poolSockets);
    count := pool.ForceCommit(poolSockets);
    StaysPut(other, v, pool.Lists(), {});
  }

  /** A later transaction is only marked. */
  lemma Defers(b: Connection, m: nat)
    requires b.Held() && b.transactionId.Some? && 1 <= m < |b.pool.store| && b.pool.store[m].conn == b
    ensures b.transactionId == Some(b.pool.store[m].id) && !b.pool.store[m].ready
    ensures var v := b.pool.Lists(); forall good, poolSockets ::
      Retire(v, b.transactionId, b, good, poolSockets) == v.(store := v.store[m := v.store[m].(ready := true)])
  {
    b.pool.Placing();
    var k :| 0 <= k < |b.pool.store| && b.pool.store[k] == Txn(b.transaction.value, false, b);
    assert k == m;
    var n := FinishSplits(b.pool.Lists(), b.transactionId.value, m);
  }

  /** The first one's commit frees everybody when all others have finished. */
  lemma Drains(v: Lists<Connection>, id: nat, a: Connection, good: set<Connection>, poolSockets: nat)
    requires Placed(v) && v.store != [] && v.store[0] == Txn(id, false, a)
    requires forall k :: 1 <= k < |v.store| ==> v.store[k].ready
    ensures var w := Retire(v, Some(id), a, good, poolSockets);
      w.store == [] && forall k :: 0 <= k < |v.store| ==> v.store[k].conn !in w.active
  {
    forall k | 0 <= k < |v.store|
      ensures var w := Retire(v, Some(id), a, good, poolSockets); w.store == [] && v.store[k].conn !in w.active
    {
      RetireDrainsAll(v, id, a, good, poolSockets, k);
    }
  }

  /** A statement that is not first leaves everything as it was but for its mark, to the benefit of a. */
  method Defer(b: Connection, ghost a: Connection, ghost m: nat, limit: nat, poolSockets: nat)
    requires a.Held() && b.Held() && a != b && a.pool == b.pool && b.transactionId.Some?
    requires 1 <= m < |b.pool.store| && b.pool.store[m].conn == b
    modifies b, b.pool, b.pool.Finished()
    ensures a.Held() && unchanged(a) && unchanged(b) && forall c :: c in old(b.pool.Finished()) ==> unchanged(c)
    ensures b.pool.Lists() == old(b.pool.Lists().(store := b.pool.store[m := b.pool.store[m].(ready := true)]))
  {
    Defers(b, m);
    ghost var kept := Deinit(b, a, limit, poolSockets);
  }

  /** The first of the store commits for everybody when all others have finished: each COMMIT is made on
      its own connection, and every connection is given back. */
  method Drain(a: Connection, limit: nat, poolSockets: nat)
    requires a.Held() && a.transactionId.Some? && a.pool.store[0].conn == a
    requires forall k :: 1 <= k < |a.pool.store| ==> a.pool.store[k].ready
    modifies a, a.pool, a.pool.Finished()
    ensures a.pool.Valid() && a.pool.BackPointers() && !a.pool.locked && a.pool.store == []
    ensures forall c :: c in old(a.pool.Handles()) ==> c !in a.pool.active
    ensures Served(a.pool, old(a.pool.Finished()), old(a.pool.Sent()))
  {
    ghost var v, was, sent := a.pool.Lists(), a.pool.Links(), a.pool.Sent();
    ghost var id := a.transactionId.value;
    ghost var p := a.OwnPlace();
    assert p == 0;
    a.pool.SentKeepsCounts();
    ghost var kept := Settle(a, limit, poolSockets);
    Drains(v, id, a, OpenIn(sent) + (if kept then {a} else {}), poolSockets);
    AllServed(a.pool, v, was, sent);
  }

  /** Each had its COMMIT attempt, which left the link that `sent` says, and was given back. */
  ghost predicate Served(pool: Pool, conns: set<Connection>, sent: map<Connection, SocketIo.Link>)
    reads pool, conns
  {
    forall c :: c in conns ==> c in sent && c.State() == Parted(sent[c], c in pool.ready)
  }

  lemma AllServed(pool: Pool, v: Lists<Connection>, was: map<Connection, SocketIo.Link>,
      sent: map<Connection, SocketIo.Link>)
    requires pool.Dealt(was.Keys, was, sent) && was.Keys == FinishedOf(v.store)
    requires forall k :: 0 <= k < |v.store| ==> v.store[k].conn !in pool.active
    ensures Served(pool, was.Keys, sent) && forall c :: c in HandlesOf(v.store) ==> c !in pool.active
  {
    forall c | c in was ensures c in sent && c.State() == Parted(sent[c], c in pool.ready) {
      var k :| 0 <= k < |v.store| && v.store[k].conn == c;
      assert pool.DealtWith(c, was[c], sent[c]);
    }
  }

  /** The deferral itself, in a store of any length: a is first, b is anywhere behind it, everybody else has
      finished. When b finishes it leaves everything to a, which then makes the COMMIT of each, b's
      included, on that one's own connection, and gives every connection back. */
  method Handover(a: Connection, b: Connection, ghost m: nat, limit: nat, poolSockets: nat)
    requires a.Held() && b.Held() && a.pool == b.pool && a.transactionId.Some? && b.transactionId.Some?
    requires 1 <= m < |a.pool.store| && a.pool.store[0].conn == a && a.pool.store[m].conn == b
    requires forall k :: 1 <= k < |a.pool.store| && k != m ==> a.pool.store[k].ready
    modifies a, b, a.pool, a.pool.Finished()
    ensures a.pool.Valid() && a.pool.BackPointers() && !a.pool.locked && a.pool.store == []
    ensures forall c :: c in old(a.pool.Handles()) ==> c !in a.pool.active
    ensures Served(a.pool, old(a.pool.Finished()), old(a.pool.Sent()))
    ensures b.State() == Parted(old(b.AfterCommit()), b in a.pool.ready)
  {
    a.pool.OwnConnections(0, m);
    ghost var ts := a.pool.store;
    Defer(b, a, m, limit, poolSockets);
    MarkedJoins(ts, m);
    Drain(a, limit, poolSockets);
  }

  lemma MarkedJoins(ts: seq<Txn<Connection>>, m: nat)
    requires m < |ts| && !ts[m].ready
    ensures var marked := ts[m := ts[m].(ready := true)];
      FinishedOf(marked) == FinishedOf(ts) + {ts[m].conn} && HandlesOf(marked) == HandlesOf(ts)
  {
    var marked := ts[m := ts[m].(ready := true)];
    assert forall k :: 0 <= k < |ts| && k != m ==> marked[k] == ts[k];
    forall c | c in HandlesOf(ts) ensures c in HandlesOf(marked) && (c in FinishedOf(ts) ==> c in FinishedOf(marked)) {
      var k :| 0 <= k < |ts| && ts[k].conn == c && (c in FinishedOf(ts) ==> ts[k].ready);
      assert marked[k] in marked;
    }
    forall c | c in HandlesOf(marked)
      ensures c in HandlesOf(ts) && (c in FinishedOf(marked) ==> c in FinishedOf(ts) || c == ts[m].conn)
    {
      var k :| 0 <= k < |ts| && marked[k].conn == c && (c in FinishedOf(marked) ==> marked[k].ready);
      assert ts[k] in ts;
    }
    assert marked[m] in marked;
  }
}
