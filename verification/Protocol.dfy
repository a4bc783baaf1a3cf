/** The deferred, in-order commit protocol of one pool, as a state machine.

    Any number of statements run at once, one per MySQL call of the function. A step is one
    region run under the pool mutex, one exchange on a socket, or one hand-back of a connection,
    so every interleaving of statements is a sequence of steps. Whatever the code cannot choose
    (socket outcomes, limits an administrator may change at any time) is part of the step's label. */
module Protocol {
  import opened Prelude
  import opened PoolLists
  import opened Endpoint

  datatype Settings = Settings(transaction: bool, noError: bool)

  /** How much of a frame reached the socket. */
  datatype Wrote = Nothing | Part | Whole

  /** An exchange: what was written, whether it threw, whether the socket is closed after it, whether a
      receipt was asked for, and which receipts arrived, by the number under which they were asked. */
  datatype Io = Io(wrote: Wrote, failed: bool, closed: bool, ask: bool, got: set<nat>)

  /** Nothing can be written to a closed socket, and a normal return means the whole frame went out. */
  predicate WroteAsSaid(open: bool, io: Io) {
    && (!open ==> io.wrote.Nothing? && io.failed)
    && (!io.failed ==> io.wrote.Whole?)
  }

  /** A normal return from a wait on a socket that is still open has seen one of the receipts due. */
  predicate Heard(due: set<nat>, io: Io) {
    !io.failed && !io.closed ==> io.got * due != {}
  }

  /** What send and then read may come to, with these receipts due once the frame is sent. */
  predicate Sound(open: bool, due: set<nat>, io: Io) {
    && WroteAsSaid(open, io)
    && (if io.ask then Heard(due, io) else !io.failed ==> !io.closed)
  }

  /** What send alone may come to: it returns only on an open socket, and then has read nothing. */
  predicate SoundSend(open: bool, io: Io) {
    WroteAsSaid(open, io) && (!io.failed ==> !io.closed && io.got == {})
  }

  /** What read alone may come to while a receipt is awaited. */
  predicate SoundWait(open: bool, due: set<nat>, io: Io) {
    io.wrote.Nothing? && (!open ==> io.failed) && Heard(due, io)
  }

  /** Where one commit_transaction call stands: COMMIT not sent, reply awaited, or over. */
  datatype Stage = ToSend | Waiting | Settled

  datatype Phase =
    | Got                       // store::get returned, connect() has not
    | Linked                    // connect() reached begin()
    | Begun                     // transaction stored, BEGIN not sent
    | Serving                   // init returned 0: rows may be sent
    | Finishing                 // commit() called, get_uncommited not yet
    | Committing(batch: seq<Txn<nat>>, next: nat, receipt: bool, stage: Stage)
    | Releasing                 // batch done or no transaction: about to hand back its own connection
    | Done

  datatype Stmt = Stmt(conf: Settings, uri: Uri, conn: nat, txn: Option<nat>, rows: nat, phase: Phase)

  /** Who may operate an active connection: the statement that got it, nobody while its commit is
      deferred (`Nobody` names the transaction), or the statement that drained its transaction. */
  datatype Role = Owner(stmt: nat) | Nobody(txn: nat) | Drainer(stmt: nat, txn: nat)

  datatype Sys = Sys(pool: Lists<nat>, nextConn: nat, stmts: seq<Stmt>, own: map<nat, Role>)

  /** How connect() fared: a live socket reused, a new one logged on, one lost while waiting for the
      answer to LOGON, or an exception. */
  datatype Dial = Reused | Reopened | Quiet | Refused

  datatype Label =
    | Arrive(conf: Settings, uri: Uri, rows: nat, maxSockets: nat)
    | Connect(stmt: nat, dial: Dial)
    | Begin(stmt: nat)
    | SendBegin(stmt: nat, io: Io)
    | SendRow(stmt: nat, io: Io)
    | Deinit(stmt: nat)
    | Finish(stmt: nat, ask: bool)
    | SendCommit(stmt: nat, io: Io)
    | AwaitCommit(stmt: nat, io: Io)
    | NextCommit(stmt: nat, good: bool, poolSockets: nat)
    | Release(stmt: nat, good: bool, poolSockets: nat)
    | ForceCommit(alive: set<nat>, poolSockets: nat, ios: seq<Io>)

  const INIT := Sys(Lists([], [], [], 0), 0, [], map[])

  function At(s: Sys, i: nat): Phase {
    if i < |s.stmts| then s.stmts[i].phase else Done
  }

  predicate InBatch(s: Sys, i: nat) {
    At(s, i).Committing? && At(s, i).next < |At(s, i).batch|
  }

  /** The transaction whose COMMIT statement i is at. */
  function Current(s: Sys, i: nat): Txn<nat>
    requires InBatch(s, i)
  {
    At(s, i).batch[At(s, i).next]
  }

  predicate Enabled(s: Sys, l: Label) {
    match l
    case Arrive(_, _, _, maxSockets) => CanGet(s.pool, maxSockets)
    case Connect(i, _) => At(s, i).Got?
    case Begin(i) => At(s, i).Linked?
    case SendBegin(i, _) => At(s, i).Begun?
    case SendRow(i, _) => At(s, i).Serving? && s.stmts[i].rows > 0
    case Deinit(i) => At(s, i).Serving?
    case Finish(i, _) => At(s, i).Finishing?
    case SendCommit(i, _) => InBatch(s, i) && At(s, i).stage.ToSend?
    case AwaitCommit(i, _) => InBatch(s, i) && At(s, i).stage.Waiting?
    case NextCommit(i, _, _) => InBatch(s, i) && At(s, i).stage.Settled?
    case Release(i, _, _) => At(s, i).Releasing?
    case ForceCommit(_, _, ios) => |ios| == |ReadyOnes(s.pool.store)|
  }

  function To(s: Sys, i: nat, phase: Phase): Sys
    requires i < |s.stmts|
  {
    s.(stmts := s.stmts[i := s.stmts[i].(phase := phase)])
  }

  /** Where capstomp_init goes after connect() threw: with no_error it still returns 0. */
  function AfterThrow(conf: Settings): Phase {
    if conf.noError then Serving else Finishing
  }

  function DoArrive(s: Sys, conf: Settings, uri: Uri, rows: nat): Sys {
    var c := Chosen(s.pool, s.nextConn);
    Sys(Get(s.pool, s.nextConn),
        if s.pool.ready == [] then s.nextConn + 1 else s.nextConn,
        s.stmts + [Stmt(conf, uri, c, None, rows, Got)],
        s.own[c := Owner(|s.stmts|)])
  }

  function DoBegin(s: Sys, i: nat): Sys
    requires i < |s.stmts|
  {
    var st := s.stmts[i];
    if st.conf.transaction then
      s.(pool := AddTxn(s.pool, st.conn),
         stmts := s.stmts[i := st.(txn := Some(s.pool.txnSeq + 1), phase := Begun)])
    else To(s, i, Serving)
  }

  /** The drained transactions' connections pass from nobody to the draining statement. */
  function HandOver(own: map<nat, Role>, batch: seq<Txn<nat>>, i: nat): map<nat, Role> {
    map c | c in own ::
      if own[c].Nobody? && own[c].txn in Ids(batch) then Drainer(i, own[c].txn) else own[c]
  }

  function DoFinish(s: Sys, i: nat, ask: bool): Sys
    requires i < |s.stmts|
  {
    var st := s.stmts[i];
    if st.txn.None? then To(s, i, Releasing)
    else
      var batch := Batch(s.pool, st.txn.value);
      var pool := PoolLists.Finish(s.pool, st.txn.value);
      if batch == [] then To(s.(pool := pool, own := s.own[st.conn := Nobody(st.txn.value)]), i, Done)
      else To(s.(pool := pool, own := HandOver(s.own, batch, i)), i,
              Committing(batch, 0, if |batch| == 1 then ask else true, ToSend))
  }

  /** commit_transaction gives every connection but the drainer's own back to the pool. */
  function DoNextCommit(s: Sys, i: nat, good: bool, poolSockets: nat): Sys
    requires InBatch(s, i)
  {
    var st := s.stmts[i];
    var p := st.phase;
    var c := Current(s, i).conn;
    var s1 := if c == st.conn then s
              else s.(pool := GiveBack(s.pool, c, good, poolSockets), own := s.own - {c});
    To(s1, i, if p.next + 1 == |p.batch| then Releasing else p.(next := p.next + 1, stage := ToSend))
  }

  function DoRelease(s: Sys, i: nat, good: bool, poolSockets: nat): Sys
    requires i < |s.stmts|
  {
    var c := s.stmts[i].conn;
    To(s.(pool := GiveBack(s.pool, c, good, poolSockets), own := s.own - {c}), i, Done)
  }

  function DoForce(s: Sys, good: set<nat>, poolSockets: nat): Sys {
    s.(pool := Force(s.pool, good, poolSockets),
       own := s.own - set c | c in Conns(ReadyOnes(s.pool.store)))
  }

  function Apply(s: Sys, l: Label): Sys
    requires Enabled(s, l)
  {
    match l
    case Arrive(conf, uri, rows, _) => DoArrive(s, conf, uri, rows)
    case Connect(i, dial) => To(s, i, if dial.Refused? then AfterThrow(s.stmts[i].conf) else Linked)
    case Begin(i) => DoBegin(s, i)
    case SendBegin(i, io) => To(s, i, if io.failed then AfterThrow(s.stmts[i].conf) else Serving)
    case SendRow(i, _) => s.(stmts := s.stmts[i := s.stmts[i].(rows := s.stmts[i].rows - 1)])
    case Deinit(i) => To(s, i, Finishing)
    case Finish(i, ask) => DoFinish(s, i, ask)
    case SendCommit(i, io) =>
      To(s, i, At(s, i).(stage := if At(s, i).receipt && !io.failed then Waiting else Settled))
    case AwaitCommit(i, _) => To(s, i, At(s, i).(stage := Settled))
    case NextCommit(i, good, poolSockets) => DoNextCommit(s, i, good, poolSockets)
    case Release(i, good, poolSockets) => DoRelease(s, i, good, poolSockets)
    case ForceCommit(alive, poolSockets, _) => DoForce(s, alive, poolSockets)
  }
}
