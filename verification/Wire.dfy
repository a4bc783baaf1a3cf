/** What the sockets of a pool carry: BEGIN, SEND and COMMIT frames of STOMP 1.2. */
module Wire {
  import opened Prelude
  import opened PoolLists
  import opened Endpoint
  import opened Protocol
  import opened Ownership
  import opened Order

  /** `Torn` stands for a frame of which only a part was written. */
  datatype Frame = LogonF | BeginF(txn: nat) | SendF(tag: Option<nat>) | CommitF(txn: nat) | Torn

  /** A socket: the URI it was opened for and the frames written to it; how many receipts were asked
      on it and which of them may still arrive; whether every COMMIT attempt on it was written whole,
      and whether one of them failed. A receipt that a probe reads unrecorded stays in `due`. */
  datatype Sock = Sock(uri: Uri, frames: seq<Frame>, asked: nat, due: set<nat>, whole: bool, soured: bool)

  /** Open sockets by connection and those that were closed; the transactions whose COMMIT had its own
      receipt delivered; those whose COMMIT attempt failed or lost its socket, or was made on a socket
      where an earlier one had failed; and whether every exchange so far went without error or disconnect. */
  datatype Net = Net(open: map<nat, Sock>, closed: seq<Sock>, replied: set<nat>, troubled: set<nat>, clean: bool)

  const SILENCE := Net(map[], [], {}, {}, true)

  function HangUp(n: Net, c: nat): Net {
    if c in n.open then n.(open := n.open - {c}, closed := n.closed + [n.open[c]]) else n
  }

  function HangUpAll(n: Net, cs: seq<nat>): Net
    decreases cs
  {
    if cs == [] then n else HangUpAll(HangUp(n, cs[0]), cs[1..])
  }

  function Written(f: Frame, w: Wrote): seq<Frame> {
    match w case Nothing => [] case Part => [Torn] case Whole => [f]
  }

  /** The receipts that may arrive once a frame is sent. */
  function Due(k: Sock, ask: bool): set<nat> {
    k.due + if ask then {k.asked} else {}
  }

  function AfterSend(k: Sock, f: Frame, io: Io): Sock {
    Sock(k.uri, k.frames + Written(f, io.wrote), if io.ask then k.asked + 1 else k.asked, Due(k, io.ask) - io.got,
         k.whole && (f.CommitF? ==> io.wrote.Whole?), k.soured || (f.CommitF? && io.failed))
  }

  /** Connection c's socket becomes k, and is closed if the exchange says so. */
  function Put(n: Net, c: nat, k: Sock, io: Io): Net {
    var n1 := n.(clean := n.clean && !io.failed && !io.closed);
    if c !in n.open then n1
    else if io.closed then n1.(open := n.open - {c}, closed := n.closed + [k])
    else n1.(open := n.open[c := k])
  }

  /** The outcome of a COMMIT attempt on socket k, or on none, for the record; `own` is the number of its receipt. */
  function Judge(n: Net, t: nat, lost: bool, own: bool, io: Io): Net {
    n.(replied := if own then n.replied + {t} else n.replied,
       troubled := if lost || io.failed || io.closed then n.troubled + {t} else n.troubled)
  }

  /** One send-and-read on connection c, or the send alone. */
  function Exchange(n: Net, c: nat, f: Frame, io: Io): Net {
    if c !in n.open then
      var n1 := n.(clean := n.clean && !io.failed && !io.closed);
      if f.CommitF? then Judge(n1, f.txn, true, false, io) else n1
    else
      var k := n.open[c];
      var n1 := Put(n, c, AfterSend(k, f, io), io);
      if f.CommitF? then Judge(n1, f.txn, k.soured, io.ask && k.asked in io.got, io) else n1
  }

  /** The wait for the receipt asked for last on connection c, for the COMMIT of t. */
  function Await(n: Net, c: nat, t: nat, io: Io): Net {
    if c !in n.open then Judge(n.(clean := n.clean && !io.failed && !io.closed), t, true, false, io)
    else
      var k := n.open[c];
      Judge(Put(n, c, k.(due := k.due - io.got, soured := k.soured || io.failed), io),
            t, k.soured, k.asked > 0 && k.asked - 1 in io.got, io)
  }

  function ExchangeAll(n: Net, ts: seq<Txn<nat>>, ios: seq<Io>): Net
    requires |ios| == |ts|
    decreases ts
  {
    if ts == [] then n
    else ExchangeAll(Exchange(n, ts[0].conn, CommitF(ts[0].id), ios[0]), ts[1..], ios[1..])
  }

  /** What send and read may come to on connection c. */
  predicate SoundOn(n: Net, c: nat, io: Io) {
    Sound(c in n.open, if c in n.open then Due(n.open[c], io.ask) else {}, io)
  }

  predicate SoundAll(n: Net, ts: seq<Txn<nat>>, ios: seq<Io>)
    requires |ios| == |ts|
    decreases ts
  {
    ts == [] ||
    (SoundOn(n, ts[0].conn, ios[0]) && ios[0].ask &&
     SoundAll(Exchange(n, ts[0].conn, CommitF(ts[0].id), ios[0]), ts[1..], ios[1..]))
  }

  /** The outcomes a step may have, given the sockets: capstomp_init and capstomp_content close the
      socket after an exception, no receipt is asked for a row of a transaction, and with no_error a
      row is skipped once the socket is gone. */
  predicate Possible(s: Sys, n: Net, l: Label)
    requires Enabled(s, l)
  {
    match l
    case Connect(i, dial) => dial.Reused? ==> s.stmts[i].conn in n.open
    case SendBegin(i, io) => SoundOn(n, s.stmts[i].conn, io) && (io.failed ==> io.closed)
    case SendRow(i, io) =>
      if s.stmts[i].conn !in n.open && s.stmts[i].conf.noError then io == Io(Nothing, false, false, false, {})
      else SoundOn(n, s.stmts[i].conn, io) && (io.failed ==> io.closed) && (s.stmts[i].txn.Some? ==> !io.ask)
    case SendCommit(i, io) => SoundSend(Current(s, i).conn in n.open, io) && io.ask == At(s, i).receipt
    case AwaitCommit(i, io) =>
      var c := Current(s, i).conn;
      SoundWait(c in n.open, if c in n.open then n.open[c].due else {}, io)
    case NextCommit(i, good, _) => good <==> Current(s, i).conn in n.open
    case Release(i, good, _) => good <==> s.stmts[i].conn in n.open
    case ForceCommit(alive, _, ios) =>
      && SoundAll(n, ReadyOnes(s.pool.store), ios)
      && alive == ExchangeAll(n, ReadyOnes(s.pool.store), ios).open.Keys
    case _ => true
  }

  /** A connection that is given back and not kept for reuse is destroyed, which closes its socket. */
  function Settle(s: Sys, n: Net, c: nat, good: bool, poolSockets: nat): Net {
    if good && |s.pool.ready| < poolSockets then n else HangUp(n, c)
  }

  function Dropped(cs: seq<nat>, kept: seq<nat>): seq<nat> {
    if cs == [] then [] else (if cs[0] in kept then [] else [cs[0]]) + Dropped(cs[1..], kept)
  }

  function Opened(uri: Uri): Sock {
    Sock(uri, [LogonF], 0, {}, true, false)
  }

  /** A socket that dies during LOGON carries nothing else and is not recorded. */
  function Carry(s: Sys, n: Net, l: Label): Net
    requires Enabled(s, l) && Possible(s, n, l)
  {
    match l
    case Connect(i, dial) =>
      var c := s.stmts[i].conn;
      var hung := HangUp(n, c);
      (match dial
       case Reused => n
       case Reopened => hung.(open := hung.open[c := Opened(s.stmts[i].uri)])
       case Quiet => hung.(clean := false)
       case Refused => hung.(clean := false))
    case SendBegin(i, io) =>
      if s.stmts[i].txn.Some? then Exchange(n, s.stmts[i].conn, BeginF(s.stmts[i].txn.value), io) else n
    case SendRow(i, io) => Exchange(n, s.stmts[i].conn, SendF(s.stmts[i].txn), io)
    case SendCommit(i, io) =>
      Exchange(n, Current(s, i).conn, CommitF(Current(s, i).id), io)
    case AwaitCommit(i, io) => Await(n, Current(s, i).conn, Current(s, i).id, io)
    case NextCommit(i, good, poolSockets) =>
      var c := Current(s, i).conn;
      if c == s.stmts[i].conn then n else Settle(s, n, c, good, poolSockets)
    case Release(i, good, poolSockets) => Settle(s, n, s.stmts[i].conn, good, poolSockets)
    case ForceCommit(_, _, ios) =>
      var forced := ReadyOnes(s.pool.store);
      HangUpAll(ExchangeAll(n, forced, ios), Dropped(Conns(forced), Apply(s, l).pool.ready))
    case _ => n
  }

  // ----- transaction bracketing

  /** SEND t comes after BEGIN t and before any COMMIT t; BEGIN t and COMMIT t come at most once, in this order. */
  ghost predicate FitsAfter(before: seq<Frame>, f: Frame) {
    match f
    case SendF(Some(t)) => BeginF(t) in before && CommitF(t) !in before
    case CommitF(t) => BeginF(t) in before && CommitF(t) !in before
    case BeginF(t) => BeginF(t) !in before && CommitF(t) !in before && SendF(Some(t)) !in before
    case _ => true
  }

  ghost predicate Bracketed(fs: seq<Frame>) {
    forall k :: 0 <= k < |fs| ==> FitsAfter(fs[..k], fs[k])
  }

  /** Reading a socket from the start: outside any transaction, inside one, or out of step. */
  datatype Block = Outside | Inside(txn: nat) | Broken

  function ReadOn(b: Block, f: Frame): Block {
    match f
    case LogonF => if b.Outside? then Outside else Broken
    case BeginF(t) => if b.Outside? then Inside(t) else Broken
    case SendF(None) => if b.Outside? then Outside else Broken
    case SendF(Some(t)) => if b == Inside(t) then b else Broken
    case CommitF(t) => if b == Inside(t) then Outside else Broken
    case Torn => Broken
  }

  function Scan(fs: seq<Frame>): Block {
    if fs == [] then Outside else ReadOn(Scan(fs[..|fs| - 1]), fs[|fs| - 1])
  }

  /** What the protocol has sent on connection c: no open transaction, one numbered but not begun, one
      begun, or its COMMIT too while the reply is awaited. */
  datatype Stance = Idle | Fresh(txn: nat) | Engaged(txn: nat) | Awaiting(txn: nat)

  function InCommit(stage: Stage, t: nat): Stance {
    match stage case ToSend => Engaged(t) case Waiting => Awaiting(t) case Settled => Idle
  }

  function StanceOf(s: Sys, c: nat): Stance {
    if c !in s.own then Idle
    else match s.own[c]
      case Nobody(t) => Engaged(t)
      case Drainer(i, t) =>
        var p := At(s, i);
        if p.Committing? && p.next < |p.batch| && p.batch[p.next].id == t then InCommit(p.stage, t) else Engaged(t)
      case Owner(i) =>
        if i >= |s.stmts| || s.stmts[i].txn.None? then Idle
        else
          var t := s.stmts[i].txn.value;
          match s.stmts[i].phase
          case Begun => Fresh(t)
          case Serving => Engaged(t)
          case Finishing => Engaged(t)
          case Committing(_, next, _, stage) => if next == 0 then InCommit(stage, t) else Idle
          case _ => Idle
  }

  /** How a step changes the stance of a connection. */
  function NextStance(s: Sys, l: Label, c: nat): Stance
    requires Enabled(s, l)
  {
    match l
    case Begin(i) => if s.stmts[i].conf.transaction && c == s.stmts[i].conn then Fresh(s.pool.txnSeq + 1)
      else StanceOf(s, c)
    case SendBegin(i, _) => if s.stmts[i].txn.Some? && c == s.stmts[i].conn then Engaged(s.stmts[i].txn.value)
      else StanceOf(s, c)
    case SendCommit(i, io) =>
      if c != Current(s, i).conn then StanceOf(s, c)
      else if At(s, i).receipt && !io.failed then Awaiting(Current(s, i).id) else Idle
    case AwaitCommit(i, _) => if c == Current(s, i).conn then Idle else StanceOf(s, c)
    case ForceCommit(_, _, _) => if c in Conns(ReadyOnes(s.pool.store)) then Idle else StanceOf(s, c)
    case _ => StanceOf(s, c)
  }

  /** Connections that statement i does not hold see nothing of its step. */
  lemma StanceElsewhere(s: Sys, s': Sys, i: nat, c: nat)
    requires Inv(s) && i < |s.stmts| <= |s'.stmts|
    requires forall j :: 0 <= j < |s.stmts| && j != i ==> s'.stmts[j] == s.stmts[j]
    requires (c in s.own <==> c in s'.own) && (c in s.own ==> s'.own[c] == s.own[c])
    requires !HeldBy(s.own, c, i)
    ensures StanceOf(s', c) == StanceOf(s, c)
  {
    if c in s.own { assert RoleOk(s, c); }
  }

  /** What statement i holds: its own connection, or one in its batch. */
  lemma HeldStance(s: Sys, i: nat, c: nat)
    requires Inv(s) && i < |s.stmts| && HeldBy(s.own, c, i)
    ensures s.own[c].Owner? ==> c == s.stmts[i].conn
    ensures s.own[c].Drainer? ==>
        s.stmts[i].phase.Committing? && c != s.stmts[i].conn && s.own[c] == Drainer(i, s.own[c].txn)
    ensures s.own[c].Drainer? && InBatch(s, i) ==> (c == Current(s, i).conn <==> s.own[c].txn == Current(s, i).id)
    ensures InBatch(s, i) ==> (s.own[c].Owner? && c == Current(s, i).conn <==> s.own[c].Owner? && At(s, i).next == 0)
  {
    assert StmtOk(s, i) && RoleOk(s, c);
  }

  /** Steps of one statement that change no list and no role. */
  predicate Moves(s: Sys, l: Label)
    requires Enabled(s, l)
  {
    l.Connect? || l.SendBegin? || l.SendRow? || l.Deinit? || l.SendCommit? || l.AwaitCommit? ||
      (l.Begin? && !s.stmts[l.stmt].conf.transaction)
  }

  lemma StanceMove(s: Sys, l: Label, c: nat)
    requires Inv(s) && Enabled(s, l) && Moves(s, l)
    ensures StanceOf(Apply(s, l), c) == NextStance(s, l, c)
  {
    if HeldBy(s.own, c, l.stmt) {
      assert StmtOk(s, l.stmt);
      HeldStance(s, l.stmt, c);
      StanceHeld(s, l, c);
    } else {
      StanceBeside(s, l, c);
    }
  }

  lemma StanceBeside(s: Sys, l: Label, c: nat)
    requires Inv(s) && Enabled(s, l) && Moves(s, l) && !HeldBy(s.own, c, l.stmt)
    ensures StanceOf(Apply(s, l), c) == NextStance(s, l, c)
  {
    assert StmtOk(s, l.stmt);
    StanceElsewhere(s, Apply(s, l), l.stmt, c);
    if l.SendCommit? || l.AwaitCommit? { assert HeldBy(s.own, Current(s, l.stmt).conn, l.stmt); }
  }

  lemma StanceHeld(s: Sys, l: Label, c: nat)
    requires Enabled(s, l) && Moves(s, l) && StmtOk(s, l.stmt) && HeldBy(s.own, c, l.stmt)
    requires s.own[c].Owner? ==> c == s.stmts[l.stmt].conn
    requires s.own[c].Drainer? ==>
        At(s, l.stmt).Committing? && c != s.stmts[l.stmt].conn && s.own[c] == Drainer(l.stmt, s.own[c].txn)
    requires s.own[c].Drainer? && InBatch(s, l.stmt) ==>
        (c == Current(s, l.stmt).conn <==> s.own[c].txn == Current(s, l.stmt).id)
    requires InBatch(s, l.stmt) ==>
        (s.own[c].Owner? && c == Current(s, l.stmt).conn <==> s.own[c].Owner? && At(s, l.stmt).next == 0)
    ensures StanceOf(Apply(s, l), c) == NextStance(s, l, c)
  {
  }

  lemma StanceDrain(s: Sys, s': Sys, i: nat, n: nat, c: nat)
    requires Inv(s) && Drained(s, s', i, n) && s.stmts[i].phase.Finishing? && s'.stmts[i].phase.stage.ToSend?
    ensures StanceOf(s', c) == StanceOf(s, c)
  {
    if HeldBy(s.own, c, i) {
      HeldStance(s, i, c);
    } else if c in s.own && !s.own[c].Nobody? {
      assert s'.own[c] == s.own[c];
      StanceElsewhere(s, s', i, c);
    }
  }

  lemma StanceFinish(s: Sys, l: Label, c: nat)
    requires Inv(s) && Enabled(s, l) && l.Finish?
    ensures StanceOf(Apply(s, l), c) == StanceOf(s, c)
  {
    var s', i := Apply(s, l), l.stmt;
    assert StmtOk(s, i);
    if s.stmts[i].txn.Some? {
      var p := OwnPosition(s, i);
      if p == 0 {
        var n := DrainShape(s, l);
        StanceDrain(s, s', i, n, c);
        return;
      }
      OnlyOwnMarked(s, i, p);
      assert s.pool.store[0].id < s.pool.store[p].id;
      assert s'.own == s.own[s.stmts[i].conn := Nobody(s.stmts[i].txn.value)];
    }
    if HeldBy(s.own, c, i) { HeldStance(s, i, c); } else { StanceElsewhere(s, s', i, c); }
  }

  lemma StanceNext(s: Sys, l: Label, c: nat)
    requires Inv(s) && Enabled(s, l) && l.NextCommit?
    ensures StanceOf(Apply(s, l), c) == StanceOf(s, c)
  {
    var i := l.stmt;
    assert StmtOk(s, i);
    if HeldBy(s.own, c, i) {
      HeldStance(s, i, c);
      NextHeld(s, l, c);
    } else {
      assert c != Current(s, i).conn;
      StanceElsewhere(s, Apply(s, l), i, c);
    }
  }

  lemma NextHeld(s: Sys, l: Label, c: nat)
    requires Enabled(s, l) && l.NextCommit? && HeldBy(s.own, c, l.stmt) && l.stmt < |s.stmts|
    requires s.own[c].Owner? ==>
        c == s.stmts[l.stmt].conn && (c == Current(s, l.stmt).conn <==> At(s, l.stmt).next == 0)
    requires s.own[c].Drainer? ==>
        c != s.stmts[l.stmt].conn && (c == Current(s, l.stmt).conn <==> s.own[c].txn == Current(s, l.stmt).id)
    ensures StanceOf(Apply(s, l), c) == StanceOf(s, c)
  {
  }

  lemma StanceRelease(s: Sys, l: Label, c: nat)
    requires Inv(s) && Enabled(s, l) && l.Release?
    ensures StanceOf(Apply(s, l), c) == StanceOf(s, c)
  {
    var s', i := Apply(s, l), l.stmt;
    assert StmtOk(s, i);
    if HeldBy(s.own, c, i) { HeldStance(s, i, c); } else { StanceElsewhere(s, s', i, c); }
  }

  lemma StanceBegin(s: Sys, l: Label, c: nat)
    requires Inv(s) && Enabled(s, l) && l.Begin? && s.stmts[l.stmt].conf.transaction
    ensures StanceOf(Apply(s, l), c) == NextStance(s, l, c)
  {
    var s', i := Apply(s, l), l.stmt;
    assert StmtOk(s, i);
    if HeldBy(s.own, c, i) { HeldStance(s, i, c); } else { StanceElsewhere(s, s', i, c); }
  }

  lemma StanceArrive(s: Sys, l: Label, c: nat)
    requires Inv(s) && Enabled(s, l) && l.Arrive?
    ensures StanceOf(Apply(s, l), c) == StanceOf(s, c)
  {
    GetSeparates(s.pool, s.nextConn);
    if c in s.own { assert RoleOk(s, c); }
  }

  lemma StanceForce(s: Sys, l: Label, c: nat)
    requires Enabled(s, l) && l.ForceCommit?
    ensures StanceOf(Apply(s, l), c) == NextStance(s, l, c)
  {
    var s', cs := Apply(s, l), Conns(ReadyOnes(s.pool.store));
    assert s'.stmts == s.stmts;
    assert c in s'.own <==> c in s.own && c !in cs;
    if c in s'.own { assert s'.own[c] == s.own[c]; }
  }

  lemma StanceStep(s: Sys, l: Label, c: nat)
    requires Inv(s) && Enabled(s, l)
    ensures StanceOf(Apply(s, l), c) == NextStance(s, l, c)
  {
    match l
    case Arrive(_, _, _, _) => StanceArrive(s, l, c);
    case Finish(_, _) => StanceFinish(s, l, c);
    case ForceCommit(_, _, _) => StanceForce(s, l, c);
    case NextCommit(_, _, _) => StanceNext(s, l, c);
    case Release(_, _, _) => StanceRelease(s, l, c);
    case Begin(i) => if s.stmts[i].conf.transaction { StanceBegin(s, l, c); } else { StanceMove(s, l, c); }
    case _ => StanceMove(s, l, c);
  }

  // ----- one socket

  ghost predicate Mentions(fs: seq<Frame>, t: nat) {
    BeginF(t) in fs || CommitF(t) in fs || SendF(Some(t)) in fs
  }

  /** The frames agree with the stance; up to m transactions have been numbered. */
  ghost predicate Fits(b: Stance, m: nat, fs: seq<Frame>) {
    && Bracketed(fs)
    && (forall t: nat :: Mentions(fs, t) ==> t <= m)
    && (b.Fresh? ==> !Mentions(fs, b.txn))
    && (b.Engaged? ==> BeginF(b.txn) in fs && CommitF(b.txn) !in fs)
  }

  /** While every COMMIT attempt was written whole the socket reads as the stance says; afterwards it is
      never again between transactions. */
  ghost predicate InStep(b: Stance, whole: bool, fs: seq<Frame>) {
    if whole then Scan(fs) == if b.Engaged? then Inside(b.txn) else Outside
    else Scan(fs).Broken? || (Scan(fs).Inside? && !b.Engaged?)
  }

  /** Unless a COMMIT attempt failed, no receipt is outstanding but the one a COMMIT waits for. */
  predicate Quiet(b: Stance, k: Sock) {
    !k.soured ==> forall r :: r in k.due ==> b.Awaiting? && r == k.asked - 1
  }

  ghost predicate SockFits(b: Stance, m: nat, k: Sock) {
    Fits(b, m, k.frames) && InStep(b, k.whole, k.frames) && Quiet(b, k)
  }

  /** Frame f may be sent in stance b, which then becomes b'. */
  predicate Legal(b: Stance, f: Frame, b': Stance) {
    match f
    case BeginF(t) => b == Fresh(t) && b' == Engaged(t)
    case SendF(None) => b == Idle && b' == Idle
    case SendF(Some(t)) => b == Engaged(t) && b' == b
    case CommitF(t) => b == Engaged(t) && (b' == Idle || b' == Awaiting(t))
    case _ => false
  }

  /** An outcome with which the stance becomes b' if the socket stays open. */
  predicate Proper(f: Frame, b': Stance, due: set<nat>, io: Io) {
    && (io.failed ==> io.closed || (f.CommitF? && b' == Idle))
    && (!io.failed ==> io.wrote.Whole?)
    && (!io.failed && !io.closed && io.ask ==> b'.Awaiting? || io.got * due != {})
    && (b'.Awaiting? ==> io.ask)
  }

  lemma AppendBracketed(fs: seq<Frame>, f: Frame)
    requires Bracketed(fs) && FitsAfter(fs, f)
    ensures Bracketed(fs + [f]) && Scan(fs + [f]) == ReadOn(Scan(fs), f)
  {
    assert (fs + [f])[..|fs|] == fs;
    forall k | 0 <= k < |fs| + 1 ensures FitsAfter((fs + [f])[..k], (fs + [f])[k]) {
      if k < |fs| { assert (fs + [f])[..k] == fs[..k]; }
    }
  }

  lemma WholeFits(b: Stance, m: nat, fs: seq<Frame>, f: Frame, b': Stance)
    requires Fits(b, m, fs) && Legal(b, f, b') && (f.BeginF? ==> f.txn <= m)
    ensures Fits(b', m, fs + [f])
  {
    AppendBracketed(fs, f);
    forall t: nat | Mentions(fs + [f], t) ensures t <= m {
      assert Mentions(fs, t) || f == BeginF(t) || f == CommitF(t) || f == SendF(Some(t));
      if f == CommitF(t) || f == SendF(Some(t)) { assert Mentions(fs, t); }
    }
  }

  lemma WholeInStep(b: Stance, whole: bool, fs: seq<Frame>, f: Frame, b': Stance)
    requires InStep(b, whole, fs) && Legal(b, f, b')
    ensures InStep(b', whole, fs + [f])
  {
    assert (fs + [f])[..|fs|] == fs;
  }

  lemma TornFits(b: Stance, m: nat, fs: seq<Frame>)
    requires Fits(b, m, fs)
    ensures Fits(Idle, m, fs + [Torn]) && Bracketed(fs + [Torn]) && InStep(Idle, false, fs + [Torn])
  {
    AppendBracketed(fs, Torn);
    forall t: nat | Mentions(fs + [Torn], t) ensures Mentions(fs, t) {}
  }

  // ----- all sockets of a pool

  ghost predicate NetFits(g: map<nat, Stance>, m: nat, n: Net) {
    && (forall c :: c in n.open ==> c in g && SockFits(g[c], m, n.open[c]))
    && (forall k :: 0 <= k < |n.closed| ==> Bracketed(n.closed[k].frames))
    && (n.clean ==> Spotless(n))
  }

  /** What an error-free run leaves. */
  ghost predicate Spotless(n: Net) {
    && (forall c :: c in n.open ==> n.open[c].whole && !n.open[c].soured)
    && (forall k :: 0 <= k < |n.closed| ==> Scan(n.closed[k].frames) == Outside)
    && n.troubled == {}
  }

  ghost predicate NetOk(s: Sys, n: Net) {
    && (forall c :: c in n.open ==> c < s.nextConn)
    && NetFits(Stances(s, n), s.pool.txnSeq, n)
  }

  ghost function Stances(s: Sys, n: Net): map<nat, Stance> {
    map c | c in n.open :: StanceOf(s, c)
  }

  lemma HangUpFits(g: map<nat, Stance>, m: nat, n: Net, c: nat)
    requires NetFits(g, m, n) && (n.clean && c in n.open ==> !g[c].Engaged?)
    ensures NetFits(g, m, HangUp(n, c))
  {
  }

  lemma {:induction false} HangUpAllFits(g: map<nat, Stance>, m: nat, n: Net, cs: seq<nat>)
    requires NetFits(g, m, n) && forall c :: c in cs && c in n.open ==> !g[c].Engaged?
    ensures NetFits(g, m, HangUpAll(n, cs))
    ensures HangUpAll(n, cs).clean == n.clean && forall c :: c in HangUpAll(n, cs).open ==> c in n.open
    decreases cs
  {
    if cs != [] {
      HangUpFits(g, m, n, cs[0]);
      HangUpAllFits(g, m, HangUp(n, cs[0]), cs[1..]);
    }
  }

  lemma SendQuiet(b: Stance, k: Sock, f: Frame, io: Io, b': Stance)
    requires Quiet(b, k) && Legal(b, f, b') && Proper(f, b', Due(k, io.ask), io) && !io.closed
    ensures Quiet(b', AfterSend(k, f, io))
  {
  }

  /** Whatever part of a legal frame is written, the socket stays bracketed; if it stays open it fits b'. */
  lemma WriteFits(b: Stance, m: nat, k: Sock, f: Frame, io: Io, b': Stance)
    requires SockFits(b, m, k) && Legal(b, f, b') && (f.BeginF? ==> f.txn <= m)
    requires Proper(f, b', Due(k, io.ask), io)
    ensures Bracketed(AfterSend(k, f, io).frames)
    ensures io.closed || SockFits(b', m, AfterSend(k, f, io))
  {
    match io.wrote {
      case Whole =>
        WholeFits(b, m, k.frames, f, b');
        WholeInStep(b, k.whole, k.frames, f, b');
      case Part => TornFits(b, m, k.frames);
      case Nothing => UnsentFits(b, m, k, f);
    }
    if !io.closed { SendQuiet(b, k, f, io, b'); }
  }

  lemma UnsentFits(b: Stance, m: nat, k: Sock, f: Frame)
    requires Fits(b, m, k.frames) && InStep(b, k.whole, k.frames)
    ensures k.frames + [] == k.frames
    ensures f.CommitF? && b == Engaged(f.txn) ==> Fits(Idle, m, k.frames) && InStep(Idle, false, k.frames)
  {
  }

  /** A socket that fits what it becomes may be put in place of the old one, or closed. */
  lemma PutFits(g: map<nat, Stance>, m: nat, n: Net, c: nat, k: Sock, io: Io, b': Stance)
    requires NetFits(g, m, n) && c in n.open && Bracketed(k.frames)
    requires !io.closed ==> SockFits(b', m, k)
    requires n.clean && !io.failed ==> io.closed || (k.whole && !k.soured)
    ensures NetFits(g[c := b'], m, Put(n, c, k, io))
  {
  }

  lemma JudgeFits(g: map<nat, Stance>, m: nat, n: Net, t: nat, lost: bool, own: bool, io: Io)
    requires NetFits(g, m, n) && (n.clean ==> !lost && !io.failed && !io.closed)
    ensures NetFits(g, m, Judge(n, t, lost, own, io))
  {
  }

  /** An exchange that sends f and moves the stance of c to b'. */
  lemma ExchangeFits(g: map<nat, Stance>, m: nat, n: Net, c: nat, f: Frame, io: Io, b': Stance)
    requires NetFits(g, m, n) && c in n.open && Legal(g[c], f, b') && (f.BeginF? ==> f.txn <= m)
    requires Proper(f, b', Due(n.open[c], io.ask), io)
    ensures NetFits(g[c := b'], m, Exchange(n, c, f, io))
  {
    var k := n.open[c];
    var k' := AfterSend(k, f, io);
    WriteFits(g[c], m, k, f, io, b');
    PutFits(g, m, n, c, k', io, b');
    if f.CommitF? { JudgeFits(g[c := b'], m, Put(n, c, k', io), f.txn, k.soured, io.ask && k.asked in io.got, io); }
  }

  /** On a closed socket every exchange fails. */
  lemma ExchangeMisses(g: map<nat, Stance>, m: nat, n: Net, c: nat, f: Frame, io: Io)
    requires NetFits(g, m, n) && c !in n.open && (f.CommitF? ==> io.failed)
    ensures NetFits(g, m, Exchange(n, c, f, io)) && Exchange(n, c, f, io).open == n.open
  {
  }

  /** Only the stances of open sockets matter. */
  lemma Reface(g: map<nat, Stance>, m: nat, n: Net, s: Sys)
    requires NetFits(g, m, n) && m <= s.pool.txnSeq
    requires forall c :: c in n.open ==>
      (c in g && (g[c] == StanceOf(s, c) || (g[c] == Idle && StanceOf(s, c).Fresh? && m < StanceOf(s, c).txn)))
    ensures NetFits(Stances(s, n), s.pool.txnSeq, n)
  {
  }

  // ----- every step keeps the sockets in step with the protocol

  lemma OperatedStance(s: Sys, l: Label)
    requires Inv(s) && Enabled(s, l)
    ensures l.Connect? || l.Release? || (l.Begin? && s.stmts[l.stmt].conf.transaction) ==>
        StanceOf(s, s.stmts[l.stmt].conn) == Idle
    ensures l.SendBegin? ==>
        s.stmts[l.stmt].txn.Some? && StanceOf(s, s.stmts[l.stmt].conn) == Fresh(s.stmts[l.stmt].txn.value)
    ensures l.SendBegin? ==> s.stmts[l.stmt].txn.value <= s.pool.txnSeq
    ensures l.SendRow? ==> StanceOf(s, s.stmts[l.stmt].conn) == if s.stmts[l.stmt].txn.None? then Idle
        else Engaged(s.stmts[l.stmt].txn.value)
    ensures l.SendCommit? ==> StanceOf(s, Current(s, l.stmt).conn) == Engaged(Current(s, l.stmt).id)
    ensures l.AwaitCommit? ==> StanceOf(s, Current(s, l.stmt).conn) == Awaiting(Current(s, l.stmt).id)
    ensures l.NextCommit? ==> StanceOf(s, Current(s, l.stmt).conn) == Idle
  {
    if !l.Arrive? && !l.ForceCommit? {
      assert StmtOk(s, l.stmt);
    }
    if l.SendBegin? {
      var p := OwnPosition(s, l.stmt);
      assert TxnOk(s, s.pool.store[p]);
    }
  }

  predicate Sending(l: Label) {
    l.SendBegin? || l.SendRow? || l.SendCommit?
  }

  /** The connection and the frame of a step that sends one. */
  function Target(s: Sys, l: Label): (nat, Frame)
    requires Enabled(s, l) && Sending(l)
  {
    if l.SendCommit? then (Current(s, l.stmt).conn, CommitF(Current(s, l.stmt).id))
    else (s.stmts[l.stmt].conn, if l.SendBegin? && s.stmts[l.stmt].txn.Some? then BeginF(s.stmts[l.stmt].txn.value)
      else SendF(s.stmts[l.stmt].txn))
  }

  lemma SendIsLegal(s: Sys, n: Net, l: Label)
    requires Inv(s) && Enabled(s, l) && Possible(s, n, l) && Sending(l)
    ensures var (c, f) := Target(s, l); var b' := NextStance(s, l, c);
            && Carry(s, n, l) == Exchange(n, c, f, l.io)
            && Legal(StanceOf(s, c), f, b') && (f.BeginF? ==> f.txn <= s.pool.txnSeq) &&
              (f.CommitF? && c !in n.open ==> l.io.failed)
            && (c in n.open ==> Proper(f, b', Due(n.open[c], l.io.ask), l.io))
  {
    OperatedStance(s, l);
  }

  lemma NetExchange(s: Sys, n: Net, l: Label)
    requires Inv(s) && NetOk(s, n) && Enabled(s, l) && Possible(s, n, l) && Sending(l)
    ensures NetOk(Apply(s, l), Carry(s, n, l))
  {
    var (c, f) := Target(s, l);
    SendIsLegal(s, n, l);
    NetSend(s, n, l, c, f, NextStance(s, l, c));
  }

  lemma NetSend(s: Sys, n: Net, l: Label, c: nat, f: Frame, b': Stance)
    requires Inv(s) && NetOk(s, n) && Enabled(s, l) && Sending(l) && Target(s, l) == (c, f) && b' == NextStance(s, l, c)
    requires Legal(StanceOf(s, c), f, b') && (f.BeginF? ==> f.txn <= s.pool.txnSeq) &&
        (f.CommitF? && c !in n.open ==> l.io.failed)
    requires c in n.open ==> Proper(f, b', Due(n.open[c], l.io.ask), l.io)
    ensures NetOk(Apply(s, l), Exchange(n, c, f, l.io))
  {
    var s', n', g := Apply(s, l), Exchange(n, c, f, l.io), Stances(s, n);
    if c in n.open {
      ExchangeFits(g, s.pool.txnSeq, n, c, f, l.io, b');
    } else {
      ExchangeMisses(g, s.pool.txnSeq, n, c, f, l.io);
    }
    SentStances(s, n, l, c, f, b', n'.open.Keys);
    Reface(if c in n.open then g[c := b'] else g, s.pool.txnSeq, n', s');
  }

  lemma SentStances(s: Sys, n: Net, l: Label, c: nat, f: Frame, b': Stance, cs: set<nat>)
    requires Inv(s) && Enabled(s, l) && Sending(l) && Target(s, l) == (c, f) && b' == NextStance(s, l, c) &&
        cs <= n.open.Keys
    ensures var g' := if c in n.open then Stances(s, n)[c := b'] else Stances(s, n);
            forall d :: d in cs ==> g'[d] == StanceOf(Apply(s, l), d)
  {
    forall d | d in cs ensures StanceOf(Apply(s, l), d) == if d == c then b' else StanceOf(s, d) {
      StanceStep(s, l, d);
    }
  }

  /** Waiting for a reply writes nothing, and ends with the own receipt unless something failed. */
  lemma AwaitFits(g: map<nat, Stance>, m: nat, n: Net, c: nat, t: nat, io: Io)
    requires NetFits(g, m, n) && SoundWait(c in n.open, if c in n.open then n.open[c].due else {}, io)
    requires c in n.open ==> g[c] == Awaiting(t)
    ensures NetFits(if c in n.open then g[c := Idle] else g, m, Await(n, c, t, io)) &&
        Await(n, c, t, io).open.Keys <= n.open.Keys
    ensures t in Await(n, c, t, io).replied || t in Await(n, c, t, io).troubled
  {
    if c in n.open {
      var k := n.open[c];
      var k' := k.(due := k.due - io.got, soured := k.soured || io.failed);
      PutFits(g, m, n, c, k', io, Idle);
      JudgeFits(g[c := Idle], m, Put(n, c, k', io), t, k.soured, k.asked > 0 && k.asked - 1 in io.got, io);
    }
  }

  lemma NetAwait(s: Sys, n: Net, l: Label)
    requires Inv(s) && NetOk(s, n) && Enabled(s, l) && Possible(s, n, l) && l.AwaitCommit?
    ensures NetOk(Apply(s, l), Carry(s, n, l))
  {
    var s', n', g := Apply(s, l), Carry(s, n, l), Stances(s, n);
    var c, t := Current(s, l.stmt).conn, Current(s, l.stmt).id;
    OperatedStance(s, l);
    AwaitFits(g, s.pool.txnSeq, n, c, t, l.io);
    var g' := if c in n.open then g[c := Idle] else g;
    forall d | d in n'.open ensures g'[d] == StanceOf(s', d) { StanceStep(s, l, d); }
    Reface(g', s.pool.txnSeq, n', s');
  }

  lemma NetSettle(s: Sys, n: Net, l: Label)
    requires Inv(s) && NetOk(s, n) && Enabled(s, l) && Possible(s, n, l) && (l.NextCommit? || l.Release?)
    ensures NetOk(Apply(s, l), Carry(s, n, l))
  {
    var s', n', g := Apply(s, l), Carry(s, n, l), Stances(s, n);
    OperatedStance(s, l);
    HangUpFits(g, s.pool.txnSeq, n, if l.Release? then s.stmts[l.stmt].conn else Current(s, l.stmt).conn);
    forall d | d in n'.open ensures g[d] == StanceOf(s', d) { StanceStep(s, l, d); }
    Reface(g, s.pool.txnSeq, n', s');
  }

  lemma LogonFits(m: nat, uri: Uri)
    ensures SockFits(Idle, m, Opened(uri))
  {
    assert [LogonF][..0] == [];
    assert Scan([LogonF]) == Outside;
  }

  lemma OpenFits(g: map<nat, Stance>, m: nat, n: Net, c: nat, uri: Uri)
    requires NetFits(g, m, n)
    ensures NetFits(g[c := Idle], m, n.(open := n.open[c := Opened(uri)]))
  {
    LogonFits(m, uri);
  }

  lemma NetConnect(s: Sys, n: Net, l: Label)
    requires Inv(s) && NetOk(s, n) && Enabled(s, l) && Possible(s, n, l) && l.Connect?
    ensures NetOk(Apply(s, l), Carry(s, n, l))
  {
    var s', n', g, m := Apply(s, l), Carry(s, n, l), Stances(s, n), s.pool.txnSeq;
    var c := s.stmts[l.stmt].conn;
    assert StmtOk(s, l.stmt);
    OperatedStance(s, l);
    HangUpFits(g, m, n, c);
    if l.dial.Reopened? { OpenFits(g, m, HangUp(n, c), c, s.stmts[l.stmt].uri); }
    var g' := if l.dial.Reopened? then g[c := Idle] else g;
    forall d | d in n'.open ensures g'[d] == StanceOf(s', d) { StanceStep(s, l, d); }
    Reface(g', m, n', s');
  }

  lemma {:induction false} ExchangeAllFits(g: map<nat, Stance>, m: nat, n: Net, ts: seq<Txn<nat>>, ios: seq<Io>)
    returns (g': map<nat, Stance>)
    requires NetFits(g, m, n) && |ios| == |ts| && SoundAll(n, ts, ios) && NoDup(Conns(ts))
    requires forall k :: 0 <= k < |ts| && ts[k].conn in n.open ==> g[ts[k].conn] == Engaged(ts[k].id)
    ensures var n' := ExchangeAll(n, ts, ios);
            && NetFits(g', m, n') && (forall c :: c in n'.open ==> c in n.open)
            && (forall c :: c in n'.open ==> c in g && g'[c] == if c in Conns(ts) then Idle else g[c])
    decreases ts
  {
    if ts == [] {
      g' := g;
    } else {
      var t, rest := ts[0], ts[1..];
      var n1 := Exchange(n, t.conn, CommitF(t.id), ios[0]);
      assert Conns(ts) == [t.conn] + Conns(rest);
      forall k | 0 <= k < |rest| ensures rest[k].conn != t.conn { assert Conns(ts)[k + 1] != Conns(ts)[0]; }
      assert NoDup(Conns(rest));
      if t.conn in n.open {
        ExchangeFits(g, m, n, t.conn, CommitF(t.id), ios[0], Idle);
        g' := ExchangeAllFits(g[t.conn := Idle], m, n1, rest, ios[1..]);
      } else {
        ExchangeMisses(g, m, n, t.conn, CommitF(t.id), ios[0]);
        g' := ExchangeAllFits(g, m, n1, rest, ios[1..]);
      }
    }
  }

  lemma NetForce(s: Sys, n: Net, l: Label)
    requires Inv(s) && NetOk(s, n) && Enabled(s, l) && Possible(s, n, l) && l.ForceCommit?
    ensures NetOk(Apply(s, l), Carry(s, n, l))
  {
    var s', n', g, m := Apply(s, l), Carry(s, n, l), Stances(s, n), s.pool.txnSeq;
    var forced := ReadyOnes(s.pool.store);
    DeferredApart(s);
    var g' := ExchangeAllFits(g, m, n, forced, l.ios);
    var gone := Dropped(Conns(forced), s'.pool.ready);
    DroppedSome(Conns(forced), s'.pool.ready);
    HangUpAllFits(g', m, ExchangeAll(n, forced, l.ios), gone);
    ForceKeepsCounter(s, l);
    forall d | d in n'.open ensures g'[d] == StanceOf(s', d) { StanceStep(s, l, d); }
    Reface(g', m, n', s');
  }

  lemma {:induction false} DroppedSome(cs: seq<nat>, kept: seq<nat>)
    ensures forall c :: c in Dropped(cs, kept) ==> c in cs
  {
    if cs != [] { DroppedSome(cs[1..], kept); }
  }

  /** A step that writes nothing. */
  lemma NetSilent(s: Sys, n: Net, l: Label)
    requires Inv(s) && NetOk(s, n) && Enabled(s, l) && (l.Arrive? || l.Begin? || l.Deinit? || l.Finish?)
    ensures NetOk(Apply(s, l), n)
  {
    OperatedStance(s, l);
    forall d | d in n.open
      ensures Stances(s, n)[d] == StanceOf(Apply(s, l), d) ||
        (Stances(s, n)[d] == Idle && StanceOf(Apply(s, l), d) == Fresh(s.pool.txnSeq + 1))
    {
      StanceStep(s, l, d);
    }
    Reface(Stances(s, n), s.pool.txnSeq, n, Apply(s, l));
  }

  lemma NetKeeps(s: Sys, n: Net, l: Label)
    requires Inv(s) && NetOk(s, n) && Enabled(s, l) && Possible(s, n, l)
    ensures NetOk(Apply(s, l), Carry(s, n, l))
  {
    match l
    case SendBegin(_, _) => NetExchange(s, n, l);
    case SendRow(_, _) => NetExchange(s, n, l);
    case SendCommit(_, _) => NetExchange(s, n, l);
    case AwaitCommit(_, _) => NetAwait(s, n, l);
    case NextCommit(_, _, _) => NetSettle(s, n, l);
    case Release(_, _, _) => NetSettle(s, n, l);
    case Connect(_, _) => NetConnect(s, n, l);
    case ForceCommit(_, _, _) => NetForce(s, n, l);
    case _ => NetSilent(s, n, l);
  }

  // ----- the shape of an error-free socket

  /** One unit of traffic: LOGON, a SEND outside any transaction, or a whole transaction of n SENDs. */
  datatype Unit = Login | Plain | Cycle(txn: nat, sends: nat)

  function Sends(t: nat, n: nat): seq<Frame> {
    if n == 0 then [] else Sends(t, n - 1) + [SendF(Some(t))]
  }

  function UnitFrames(u: Unit): seq<Frame> {
    match u
    case Login => [LogonF]
    case Plain => [SendF(None)]
    case Cycle(t, n) => [BeginF(t)] + Sends(t, n) + [CommitF(t)]
  }

  function Frames(us: seq<Unit>): seq<Frame> {
    if us == [] then [] else Frames(us[..|us| - 1]) + UnitFrames(us[|us| - 1])
  }

  lemma FramesNext(us: seq<Unit>, u: Unit)
    ensures Frames(us + [u]) == Frames(us) + UnitFrames(u)
  {
    assert (us + [u])[..|us|] == us;
  }

  /** Complete units, then perhaps one open block. */
  ghost predicate Reads(fs: seq<Frame>, b: Block, us: seq<Unit>, sends: nat) {
    match b
    case Outside => fs == Frames(us)
    case Inside(t) => fs == Frames(us) + [BeginF(t)] + Sends(t, sends)
    case Broken => false
  }

  lemma ReadsSend(fs: seq<Frame>, t: nat, us: seq<Unit>, sends: nat)
    requires Reads(fs, Inside(t), us, sends)
    ensures Reads(fs + [SendF(Some(t))], Inside(t), us, sends + 1)
  {
  }

  lemma ReadsUnit(fs: seq<Frame>, us: seq<Unit>, u: Unit)
    requires fs == Frames(us)
    ensures Reads(fs + UnitFrames(u), Outside, us + [u], 0)
  {
    FramesNext(us, u);
  }

  lemma ReadsCommit(fs: seq<Frame>, t: nat, us: seq<Unit>, sends: nat)
    requires Reads(fs, Inside(t), us, sends)
    ensures Reads(fs + [CommitF(t)], Outside, us + [Cycle(t, sends)], 0)
  {
    FramesNext(us, Cycle(t, sends));
    Reassociate(Frames(us), [BeginF(t)], Sends(t, sends), [CommitF(t)]);
  }

  lemma Reassociate(a: seq<Frame>, b: seq<Frame>, c: seq<Frame>, d: seq<Frame>)
    ensures a + b + c + d == a + (b + c + d)
  {
  }

  /** A scan that ends well decomposes the socket into complete units and at most one open block. */
  lemma {:induction false} ScanDecomposes(fs: seq<Frame>) returns (us: seq<Unit>, sends: nat)
    requires !Scan(fs).Broken?
    ensures Reads(fs, Scan(fs), us, sends)
  {
    us, sends := [], 0;
    if fs != [] {
      var init, f := fs[..|fs| - 1], fs[|fs| - 1];
      assert fs == init + [f];
      us, sends := ScanDecomposes(init);
      match f
      case LogonF => ReadsUnit(init, us, Login); us := us + [Login];
      case SendF(None) => ReadsUnit(init, us, Plain); us := us + [Plain];
      case SendF(Some(t)) => ReadsSend(init, t, us, sends); sends := sends + 1;
      case BeginF(t) => sends := 0;
      case CommitF(t) => ReadsCommit(init, t, us, sends); us := us + [Cycle(t, sends)];
      case Torn => assert false;
    }
  }

  lemma ScanAppend(fs: seq<Frame>, f: Frame)
    ensures Scan(fs + [f]) == ReadOn(Scan(fs), f)
  {
    assert (fs + [f])[..|fs|] == fs;
  }

  lemma {:induction false} ScanSends(fs: seq<Frame>, t: nat, n: nat)
    requires Scan(fs) == Inside(t)
    ensures Scan(fs + Sends(t, n)) == Inside(t)
  {
    if n == 0 {
      assert fs + [] == fs;
    } else {
      ScanSends(fs, t, n - 1);
      ScanAppend(fs + Sends(t, n - 1), SendF(Some(t)));
      assert fs + Sends(t, n) == fs + Sends(t, n - 1) + [SendF(Some(t))];
    }
  }

  lemma ScanUnit(fs: seq<Frame>, u: Unit)
    requires Scan(fs) == Outside
    ensures Scan(fs + UnitFrames(u)) == Outside
  {
    match u
    case Login => ScanAppend(fs, LogonF);
    case Plain => ScanAppend(fs, SendF(None));
    case Cycle(t, n) =>
      ScanAppend(fs, BeginF(t));
      ScanSends(fs + [BeginF(t)], t, n);
      ScanAppend(fs + [BeginF(t)] + Sends(t, n), CommitF(t));
      Reassociate(fs, [BeginF(t)], Sends(t, n), [CommitF(t)]);
  }

  /** Complete units, and only they, scan to the outside. */
  lemma {:induction false} UnitsScan(us: seq<Unit>)
    ensures Scan(Frames(us)) == Outside
  {
    if us != [] {
      UnitsScan(us[..|us| - 1]);
      ScanUnit(Frames(us[..|us| - 1]), us[|us| - 1]);
    }
  }

  lemma {:induction false} ScanHasNoTorn(fs: seq<Frame>)
    requires !Scan(fs).Broken?
    ensures Torn !in fs
  {
    if fs != [] {
      ScanHasNoTorn(fs[..|fs| - 1]);
      assert fs == fs[..|fs| - 1] + [fs[|fs| - 1]];
    }
  }

  // ----- waiting for receipts

  /** The drainer moves on only after the receipt for the COMMIT before, or trouble with it. */
  ghost predicate RepliesOk(s: Sys, n: Net) {
    forall i :: 0 <= i < |s.stmts| ==> BatchReplied(s, n, i)
  }

  ghost predicate BatchReplied(s: Sys, n: Net, i: nat) {
    At(s, i).Committing? ==>
      && (|At(s, i).batch| > 1 ==> At(s, i).receipt)
      && (At(s, i).receipt ==> forall k :: 0 <= k < Answered(At(s, i)) && k < |At(s, i).batch| ==>
        Judged(n, At(s, i).batch[k].id))
  }

  predicate Judged(n: Net, t: nat) {
    t in n.replied || t in n.troubled
  }

  function Answered(p: Phase): nat
    requires p.Committing?
  {
    if p.stage.Settled? then p.next + 1 else p.next
  }

  lemma {:induction false} ExchangeAllGrows(n: Net, ts: seq<Txn<nat>>, ios: seq<Io>)
    requires |ios| == |ts|
    ensures n.replied <= ExchangeAll(n, ts, ios).replied && n.troubled <= ExchangeAll(n, ts, ios).troubled
    decreases ts
  {
    if ts != [] { ExchangeAllGrows(Exchange(n, ts[0].conn, CommitF(ts[0].id), ios[0]), ts[1..], ios[1..]); }
  }

  lemma {:induction false} HangUpAllGrows(n: Net, cs: seq<nat>)
    ensures HangUpAll(n, cs).replied == n.replied && HangUpAll(n, cs).troubled == n.troubled
    decreases cs
  {
    if cs != [] { HangUpAllGrows(HangUp(n, cs[0]), cs[1..]); }
  }

  lemma CarryGrows(s: Sys, n: Net, l: Label)
    requires Enabled(s, l) && Possible(s, n, l)
    ensures n.replied <= Carry(s, n, l).replied && n.troubled <= Carry(s, n, l).troubled
  {
    if l.ForceCommit? {
      var forced := ReadyOnes(s.pool.store);
      ExchangeAllGrows(n, forced, l.ios);
      HangUpAllGrows(ExchangeAll(n, forced, l.ios), Dropped(Conns(forced), Apply(s, l).pool.ready));
    }
  }

  /** The COMMIT that a step settles is judged. */
  lemma SettledIsJudged(s: Sys, n: Net, l: Label)
    requires Inv(s) && NetOk(s, n) && Enabled(s, l) && Possible(s, n, l)
    ensures l.SendCommit? && l.io.failed ==> Judged(Carry(s, n, l), Current(s, l.stmt).id)
    ensures l.AwaitCommit? ==> Judged(Carry(s, n, l), Current(s, l.stmt).id)
  {
    if l.AwaitCommit? {
      OperatedStance(s, l);
      AwaitFits(Stances(s, n), s.pool.txnSeq, n, Current(s, l.stmt).conn, Current(s, l.stmt).id, l.io);
    }
  }

  /** Steps that leave the batches alone. */
  lemma RepliesStill(s: Sys, n: Net, s': Sys, n': Net)
    requires RepliesOk(s, n) && n.replied <= n'.replied && n.troubled <= n'.troubled
    requires forall i :: 0 <= i < |s'.stmts| && At(s', i).Committing? ==> i < |s.stmts| && At(s', i) == At(s, i)
    ensures RepliesOk(s', n')
  {
    forall i | 0 <= i < |s'.stmts| ensures BatchReplied(s', n', i) {
      if i < |s.stmts| { assert BatchReplied(s, n, i); }
    }
  }

  lemma RepliesBatch(s: Sys, n: Net, l: Label)
    requires Inv(s) && NetOk(s, n) && RepliesOk(s, n) && Enabled(s, l) && Possible(s, n, l)
    requires l.SendCommit? || l.AwaitCommit? || l.NextCommit? || l.Finish?
    ensures RepliesOk(Apply(s, l), Carry(s, n, l))
  {
    CarryGrows(s, n, l);
    SettledIsJudged(s, n, l);
    BatchMoves(s, n, l, Carry(s, n, l));
  }

  lemma BatchMoves(s: Sys, n: Net, l: Label, n': Net)
    requires RepliesOk(s, n) && Enabled(s, l) && n.replied <= n'.replied && n.troubled <= n'.troubled
    requires l.SendCommit? || l.AwaitCommit? || l.NextCommit? || l.Finish?
    requires (l.SendCommit? && l.io.failed) || l.AwaitCommit? ==> Judged(n', Current(s, l.stmt).id)
    ensures RepliesOk(Apply(s, l), n')
  {
    var s' := Apply(s, l);
    assert BatchReplied(s, n, l.stmt);
    forall i | 0 <= i < |s'.stmts| ensures BatchReplied(s', n', i) { assert BatchReplied(s, n, i); }
  }

  lemma RepliesKeep(s: Sys, n: Net, l: Label)
    requires Inv(s) && NetOk(s, n) && RepliesOk(s, n) && Enabled(s, l) && Possible(s, n, l)
    ensures RepliesOk(Apply(s, l), Carry(s, n, l))
  {
    if l.SendCommit? || l.AwaitCommit? || l.NextCommit? || l.Finish? {
      RepliesBatch(s, n, l);
    } else {
      CarryGrows(s, n, l);
      RepliesStill(s, n, Apply(s, l), Carry(s, n, l));
    }
  }

  // ----- where sockets lead

  /** The URIs of the pool's statements and of its open sockets are among these. */
  ghost predicate Toward(s: Sys, n: Net, us: set<Uri>) {
    && (forall i :: 0 <= i < |s.stmts| ==> s.stmts[i].uri in us)
    && SocksToward(n, us)
  }

  ghost predicate SocksToward(n: Net, us: set<Uri>) {
    forall c :: c in n.open ==> n.open[c].uri in us
  }

  lemma {:induction false} ExchangeAllToward(n: Net, ts: seq<Txn<nat>>, ios: seq<Io>, us: set<Uri>)
    requires |ios| == |ts| && SocksToward(n, us)
    ensures SocksToward(ExchangeAll(n, ts, ios), us)
    decreases ts
  {
    if ts != [] { ExchangeAllToward(Exchange(n, ts[0].conn, CommitF(ts[0].id), ios[0]), ts[1..], ios[1..], us); }
  }

  lemma {:induction false} HangUpAllToward(n: Net, cs: seq<nat>, us: set<Uri>)
    requires SocksToward(n, us)
    ensures SocksToward(HangUpAll(n, cs), us)
    decreases cs
  {
    if cs != [] { HangUpAllToward(HangUp(n, cs[0]), cs[1..], us); }
  }

  lemma ForceToward(s: Sys, n: Net, l: Label, us: set<Uri>)
    requires SocksToward(n, us) && Enabled(s, l) && Possible(s, n, l) && l.ForceCommit?
    ensures SocksToward(Carry(s, n, l), us)
  {
    var forced := ReadyOnes(s.pool.store);
    ExchangeAllToward(n, forced, l.ios, us);
    HangUpAllToward(ExchangeAll(n, forced, l.ios), Dropped(Conns(forced), Apply(s, l).pool.ready), us);
  }

  lemma StepToward(s: Sys, n: Net, l: Label, us: set<Uri>)
    requires Toward(s, n, us) && Enabled(s, l) && Possible(s, n, l) && !l.ForceCommit?
    ensures SocksToward(Carry(s, n, l), us)
  {
  }

  lemma StatementsToward(s: Sys, l: Label, us: set<Uri>)
    requires Enabled(s, l) && (l.Arrive? ==> l.uri in us)
    requires forall i :: 0 <= i < |s.stmts| ==> s.stmts[i].uri in us
    ensures forall i :: 0 <= i < |Apply(s, l).stmts| ==> Apply(s, l).stmts[i].uri in us
  {
  }

  lemma TowardKeeps(s: Sys, n: Net, l: Label, us: set<Uri>)
    requires Toward(s, n, us) && Enabled(s, l) && Possible(s, n, l)
    requires l.Arrive? ==> l.uri in us
    ensures Toward(Apply(s, l), Carry(s, n, l), us)
  {
    StatementsToward(s, l, us);
    if l.ForceCommit? { ForceToward(s, n, l, us); } else { StepToward(s, n, l, us); }
  }
}
