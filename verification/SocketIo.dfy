/** The blocking send and read loops of a connection, over any behaviour of its socket.

    A script lists what successive polls, receives and writes report; a poll past its end times out.
    These functions are the specification; the loops that compute them are methods of Connection. */
module SocketIo {
  import opened Prelude
  import opened Protocol

  /** A frame handed over by the parser: a receipt, the answer to LOGON, an ERROR, or anything else. */
  datatype Delivery =
    | Receipt(tag: nat, ok: bool, text: string)
    | Session(ok: bool, text: string)
    | Failure(text: string)
    | Other

  datatype Rx = RecvFail | Eof | BadParse(ds: seq<Delivery>) | Data(ds: seq<Delivery>)

  datatype Tx = Took(bytes: nat) | WouldBlock | WriteFail

  datatype Event = PollFail | NotReady | Readable(rx: Rx) | Writable(tx: Tx)

  /** `received` is false while a reply is awaited, `armed` holds the receipts still expected, and
      `sent` is all bytes written to the present socket. */
  datatype Link = Link(open: bool, received: bool, error: string, armed: set<nat>, sent: string,
                       destination: string, passhash: nat, requests: nat)

  datatype Exit = Returned | Raised(text: string)

  function Closed(st: Link): Link {
    st.(open := false, destination := "", passhash := 0, requests := 0, error := "")
  }

  /** The handlers of connection.cpp:26-59 and connection.hpp:173-181; a receipt handler runs once. */
  function Deliver(st: Link, d: Delivery): Link {
    match d
    case Receipt(tag, ok, text) =>
      if tag in st.armed then
        st.(received := true, armed := st.armed - {tag}, error := if ok then st.error else text)
      else st
    case Session(ok, text) => st.(received := true, error := if ok then st.error else text)
    case Failure(text) => st.(received := true, error := "ERROR" + text)
    case Other => st
  }

  function DeliverAll(st: Link, ds: seq<Delivery>): Link
    decreases ds
  {
    if ds == [] then st else DeliverAll(Deliver(st, ds[0]), ds[1..])
  }

  /** read_stomp: Ok(false) is a disconnect. */
  function ReadStomp(st: Link, rx: Rx): (Link, Result<bool>) {
    match rx
    case RecvFail => (st, Err("recv"))
    case Eof => (st, Ok(false))
    case BadParse(ds) => (DeliverAll(st, ds), Err("stomp parse"))
    case Data(ds) => (DeliverAll(st, ds), Ok(true))
  }

  function Least(a: nat, b: nat): nat {
    if a < b then a else b
  }

  /** connection::send(buffer). */
  function SendLoop(st: Link, data: string, io: seq<Event>): (Link, seq<Event>, Exit)
    decreases io
  {
    if !st.open || io == [] then (st, io, Raised("send timeout"))
    else match io[0]
      case PollFail => (st, io[1..], Raised("poll"))
      case NotReady => (st, io[1..], Raised("send timeout"))
      case Readable(rx) =>
        var (st1, r) := ReadStomp(st, rx);
        if r.Err? then (st1, io[1..], Raised(r.reason))
        else (if r.value then st1 else Closed(st1), io[1..], Raised("protocol error"))
      case Writable(WriteFail) => (st, io[1..], Raised("send"))
      case Writable(WouldBlock) => if data == "" then (st, io[1..], Returned) else SendLoop(st, data, io[1..])
      case Writable(Took(bytes)) =>
        var k := Least(bytes, |data|);
        var st1 := st.(sent := st.sent + data[..k]);
        if data[k..] == "" then (st1, io[1..], Returned) else SendLoop(st1, data[k..], io[1..])
  }

  /** connection::read. */
  function ReadLoop(st: Link, io: seq<Event>): (Link, seq<Event>, Exit)
    decreases io
  {
    if st.received then (st, io, if st.error == "" then Returned else Raised(st.error))
    else if !st.open || io == [] then (st, io, Raised("timeout"))
    else match io[0]
      case PollFail => (st, io[1..], Raised("poll"))
      case Readable(rx) =>
        var (st1, r) := ReadStomp(st, rx);
        if r.Err? then (st1, io[1..], Raised(r.reason))
        else ReadLoop(if r.value then st1 else Closed(st1).(received := true), io[1..])
      case _ => (st, io[1..], Raised("timeout"))
  }

  /** connection::connected: drains what is waiting and notices a disconnect. */
  function Probe(st: Link, io: seq<Event>): (Link, seq<Event>, Result<bool>)
    decreases io
  {
    if !st.open then (st, io, Ok(false))
    else if io == [] then (st, io, Ok(true))
    else match io[0]
      case PollFail => (st, io[1..], Err("poll"))
      case Readable(rx) =>
        var (st1, r) := ReadStomp(st, rx);
        if r.Err? then (st1, io[1..], Err(r.reason))
        else if r.value then Probe(st1, io[1..])
        else (Closed(st1), io[1..], Ok(false))
      case _ => (st, io[1..], Ok(true))
  }

  /** The send(frame, receipt) template: arm the wait or cancel it, then write. */
  function Arm(st: Link, receipt: bool, tag: nat): Link {
    if receipt then st.(received := false, armed := st.armed + {tag}) else st.(received := true)
  }

  function SendFrame(st: Link, data: string, receipt: bool, tag: nat, io: seq<Event>): (Link, seq<Event>, Exit) {
    SendLoop(Arm(st, receipt, tag), data, io)
  }

  /** A frame sent and its reply awaited, as begin, send_content and commit_transaction do. */
  function Exchange(st: Link, data: string, receipt: bool, tag: nat, io: seq<Event>): (Link, seq<Event>, Exit) {
    var (st1, io1, e) := SendFrame(st, data, receipt, tag, io);
    if e.Raised? then (st1, io1, e) else ReadLoop(st1, io1)
  }

  /** The exchange of commit_transaction, which swallows every exception. */
  function CommitAttempt(st: Link, data: string, receipt: bool, tag: nat, io: seq<Event>): (Link, seq<Event>) {
    if receipt then
      var (st1, io1, _) := Exchange(st, data, true, tag, io);
      (st1, io1)
    else
      var (st0, io0, alive) := Probe(st, io);
      if alive.Ok? && alive.value then
        var (st1, io1, _) := Exchange(st0, data, false, tag, io0);
        (st1, io1)
      else (st0, io0)
  }

  /** connection::logon: LOGON, its answer, and whether the parser then knows a session. */
  function Logon(st: Link, session: bool, logon: string, io: seq<Event>): (Link, seq<Event>, Exit) {
    var (st1, io1, e1) := SendLoop(st.(received := false), logon, io);
    if e1.Raised? then (st1, io1, e1)
    else
      var (st2, io2, e2) := ReadLoop(st1, io1);
      (st2, io2, if e2.Returned? && !session then Raised("stomplay: no session") else e2)
  }

  /** A new socket, for this fragment. */
  function Dialled(st: Link, fragment: string): Link {
    Closed(st).(open := true, sent := "", destination := fragment)
  }

  /** connection::connect up to begin(): reuse a live socket with the same password, else log on anew.
      `dialled` says whether a socket could be connected, `session` whether the parser knows a session. */
  function Reach(st: Link, fragment: string, passhash: nat, dialled: bool, session: bool, logon: string, io: seq<Event>)
    : (Link, seq<Event>, Exit)
  {
    var (st0, io0, alive) := Probe(st, io);
    if alive.Err? then (st0, io0, Raised(alive.reason))
    else if alive.value && passhash == st0.passhash then (st0, io0, Returned)
    else if !dialled then (Closed(st0), io0, Raised("connect"))
    else
      var (st1, io1, e1) := Logon(Dialled(st0, fragment), session, logon, io0);
      if e1.Raised? then (st1, io1, e1) else (st1.(passhash := passhash), io1, Returned)
  }

  // ----- delivering frames leaves the socket itself alone

  lemma {:induction false} DeliverKeepsSocket(st: Link, ds: seq<Delivery>)
    ensures var st' := DeliverAll(st, ds);
            && st'.open == st.open && st'.sent == st.sent && st'.armed <= st.armed
            && st'.destination == st.destination && st'.passhash == st.passhash && st'.requests == st.requests
            && (st.received ==> st'.received)
    decreases ds
  {
    if ds != [] { DeliverKeepsSocket(Deliver(st, ds[0]), ds[1..]); }
  }

  // ----- sending

  /** Whatever the short writes and refusals, the bytes written are a prefix of the frame, and it is
      the whole of a non-empty frame exactly when send returns; no socket is opened on the way. */
  lemma {:induction false} SendWritesPrefix(st: Link, data: string, io: seq<Event>) returns (k: nat)
    ensures var (st', _, e) := SendLoop(st, data, io);
            && k <= |data| && st'.sent == st.sent + data[..k]
            && (data != "" ==> (e.Returned? <==> k == |data|))
            && (e.Returned? ==> st'.open && st' == st.(sent := st'.sent) && k == |data|)
            && (st'.open ==> st.open)
    decreases io
  {
    k := 0;
    if st.open && io != [] {
      match io[0]
      case Readable(BadParse(ds)) => DeliverKeepsSocket(st, ds);
      case Readable(Data(ds)) => DeliverKeepsSocket(st, ds);
      case Writable(WouldBlock) => if data != "" { k := SendWritesPrefix(st, data, io[1..]); }
      case Writable(Took(bytes)) =>
        var m := Least(bytes, |data|);
        if data[m..] == "" {
          k := m;
        } else {
          var st1 := st.(sent := st.sent + data[..m]);
          var rest := SendWritesPrefix(st1, data[m..], io[1..]);
          k := m + rest;
          assert data[..k] == data[..m] + data[m..][..rest];
        }
      case _ =>
    }
  }

  // ----- reading

  /** A normal return means the wait is over without error, on a socket that was open all along or
      was closed by a disconnect; bytes already sent stay as they were. */
  lemma {:induction false} ReadReturnsQuiet(st: Link, io: seq<Event>)
    ensures var (st', _, e) := ReadLoop(st, io);
            && (e.Returned? ==> st'.received && st'.error == "")
            && (e.Returned? && st.received ==> st' == st)
            && (st'.open ==> st.open) && st'.sent == st.sent && st'.armed <= st.armed
    decreases io
  {
    if !st.received && st.open && io != [] && io[0].Readable? {
      var (st1, r) := ReadStomp(st, io[0].rx);
      if io[0].rx.Data? || io[0].rx.BadParse? { DeliverKeepsSocket(st, io[0].rx.ds); }
      if r.Ok? { ReadReturnsQuiet(if r.value then st1 else Closed(st1).(received := true), io[1..]); }
    }
  }

  /** A disconnect while a reply is awaited is no error: close() has cleared the text that is tested
      next, so read returns normally, on a closed socket. */
  lemma DisconnectReturnsNormally(st: Link, rest: seq<Event>)
    requires st.open && !st.received
    ensures ReadLoop(st, [Readable(Eof)] + rest) == (Closed(st).(received := true), rest, Returned)
  {
    var io := [Readable(Eof)] + rest;
    assert io[1..] == rest;
    assert ReadLoop(st, io) == ReadLoop(Closed(st).(received := true), rest);
  }

  /** No answer to a LOGON is among the deliveries, as on any connection past its logon. */
  ghost predicate PastLogon(io: seq<Event>) {
    forall k :: 0 <= k < |io| && io[k].Readable? && (io[k].rx.Data? || io[k].rx.BadParse?) ==>
      forall j :: 0 <= j < |io[k].rx.ds| ==> !io[k].rx.ds[j].Session?
  }

  /** One of the receipts due has been delivered, or the wait goes on, or it has failed. */
  ghost predicate Waits(st: Link, due: set<nat>) {
    st.armed <= due && (st.received ==> st.armed != due || st.error != "" || !st.open)
  }

  lemma {:induction false} DeliverWaits(st: Link, ds: seq<Delivery>, due: set<nat>)
    requires Waits(st, due) && forall j :: 0 <= j < |ds| ==> !ds[j].Session?
    ensures Waits(DeliverAll(st, ds), due)
    decreases ds
  {
    if ds != [] {
      var st1 := Deliver(st, ds[0]);
      assert ds[0].Failure? ==> st1.error[0] == 'E';
      DeliverWaits(st1, ds[1..], due);
    }
  }

  /** Past the logon, a wait that returns normally on an open socket has seen one of the receipts due:
      with one due, the awaited reply. */
  lemma {:induction false} ReadWaits(st: Link, io: seq<Event>, due: set<nat>)
    requires Waits(st, due) && PastLogon(io)
    ensures var (st', _, e) := ReadLoop(st, io);
            st'.armed <= due && (e.Returned? && st'.open ==> st'.armed != due)
    decreases io
  {
    if !st.received && st.open && io != [] && io[0].Readable? {
      var (st1, r) := ReadStomp(st, io[0].rx);
      if io[0].rx.Data? || io[0].rx.BadParse? { DeliverWaits(st, io[0].rx.ds, due); }
      if r.Ok? { ReadWaits(if r.value then st1 else Closed(st1).(received := true), io[1..], due); }
    }
  }

  /** Every normal return with the socket still open has seen the awaited reply t. */
  ghost predicate AlwaysAnswered(st: Link, t: nat) {
    forall io :: PastLogon(io) && ReadLoop(st, io).2.Returned? && ReadLoop(st, io).0.open ==>
      t !in ReadLoop(st, io).0.armed
  }

  /** A receipt left over from an earlier frame can end the wait for this one: the wait is for the
      awaited reply if and only if no other receipt is still expected. */
  lemma WaitIsForTheReplyIffNoOther(st: Link, t: nat)
    requires st.open && !st.received && st.error == "" && t in st.armed
    ensures AlwaysAnswered(st, t) <==> st.armed == {t}
  {
    if st.armed == {t} {
      forall io | PastLogon(io)
        ensures ReadLoop(st, io).2.Returned? && ReadLoop(st, io).0.open ==> t !in ReadLoop(st, io).0.armed
      {
        ReadWaits(st, io, {t});
      }
    } else {
      var u :| u in st.armed && u != t;
      var late := [Receipt(u, true, "")];
      var io := [Readable(Data(late))];
      var st1 := st.(received := true, armed := st.armed - {u});
      assert DeliverAll(st, late) == st1 by { assert late[1..] == []; assert DeliverAll(st1, []) == st1; }
      assert io[1..] == [];
      assert ReadLoop(st, io) == ReadLoop(st1, []) == (st1, [], Returned);
    }
  }

  // ----- the request counter and the password

  /** A link still open has the counter and the password it had. */
  predicate KeepsBook(st: Link, after: Link) {
    after.open ==> st.open && after.requests == st.requests && after.passhash == st.passhash
  }

  lemma {:induction false} SendKeepsCount(st: Link, data: string, io: seq<Event>)
    ensures KeepsBook(st, SendLoop(st, data, io).0)
    decreases io
  {
    if st.open && io != [] {
      match io[0]
      case Readable(BadParse(ds)) => DeliverKeepsSocket(st, ds);
      case Readable(Data(ds)) => DeliverKeepsSocket(st, ds);
      case Writable(WouldBlock) => if data != "" { SendKeepsCount(st, data, io[1..]); }
      case Writable(Took(bytes)) =>
        var m := Least(bytes, |data|);
        if data[m..] != "" { SendKeepsCount(st.(sent := st.sent + data[..m]), data[m..], io[1..]); }
      case _ =>
    }
  }

  lemma {:induction false} ReadKeepsCount(st: Link, io: seq<Event>)
    ensures KeepsBook(st, ReadLoop(st, io).0)
    decreases io
  {
    if !st.received && st.open && io != [] && io[0].Readable? {
      var (st1, r) := ReadStomp(st, io[0].rx);
      if io[0].rx.Data? || io[0].rx.BadParse? { DeliverKeepsSocket(st, io[0].rx.ds); }
      if r.Ok? { ReadKeepsCount(if r.value then st1 else Closed(st1).(received := true), io[1..]); }
    }
  }

  lemma {:induction false} ProbeKeepsCount(st: Link, io: seq<Event>)
    ensures KeepsBook(st, Probe(st, io).0)
    decreases io
  {
    if st.open && io != [] && io[0].Readable? {
      var (st1, r) := ReadStomp(st, io[0].rx);
      if io[0].rx.Data? || io[0].rx.BadParse? { DeliverKeepsSocket(st, io[0].rx.ds); }
      if r.Ok? && r.value { ProbeKeepsCount(st1, io[1..]); }
    }
  }

  lemma ExchangeKeepsCount(st: Link, data: string, receipt: bool, tag: nat, io: seq<Event>)
    ensures KeepsBook(st, Exchange(st, data, receipt, tag, io).0)
  {
    var armed := Arm(st, receipt, tag);
    var (st1, io1, e1) := SendLoop(armed, data, io);
    SendKeepsCount(armed, data, io);
    ReadKeepsCount(st1, io1);
  }

  /** A COMMIT attempt that leaves its socket open, by whichever thread, leaves counter and password as they
      were. */
  lemma CommitKeepsCount(st: Link, data: string, receipt: bool, tag: nat, io: seq<Event>)
    ensures KeepsBook(st, CommitAttempt(st, data, receipt, tag, io).0)
  {
    if receipt {
      ExchangeKeepsCount(st, data, true, tag, io);
    } else {
      var (st0, io0, alive) := Probe(st, io);
      ProbeKeepsCount(st, io);
      ExchangeKeepsCount(st0, data, false, tag, io0);
    }
  }

  /** connect() keeps the counter of a live socket it reuses, and starts a new socket's at zero. */
  lemma ReachCounts(st: Link, fragment: string, passhash: nat, dialled: bool, session: bool, logon: string,
      io: seq<Event>)
    ensures var (st', _, e) := Reach(st, fragment, passhash, dialled, session, logon, io);
            var (st0, _, alive) := Probe(st, io);
            e.Returned? && st'.open ==>
              st'.requests == if alive.value && passhash == st0.passhash then st.requests else 0
  {
    var (st0, io0, alive) := Probe(st, io);
    ProbeKeepsCount(st, io);
    ProbeKeepsAim(st, io, st.destination);
    if alive.Ok? && dialled && !(alive.value && passhash == st0.passhash) {
      var st1 := Dialled(st0, fragment).(received := false);
      SendKeepsCount(st1, logon, io0);
      var (st2, io2, e2) := SendLoop(st1, logon, io0);
      ReadKeepsCount(st2, io2);
    }
  }

  // ----- where the socket leads

  ghost predicate Aimed(st: Link, fragment: string) {
    st.open ==> st.destination == fragment
  }

  lemma {:induction false} ProbeKeepsAim(st: Link, io: seq<Event>, fragment: string)
    requires Aimed(st, fragment)
    ensures var (st', _, r) := Probe(st, io);
            Aimed(st', fragment) && (st'.open ==> st.open && st'.sent == st.sent) && (r.Ok? ==> (r.value <==> st'.open))
    decreases io
  {
    if st.open && io != [] && io[0].Readable? {
      var (st1, r) := ReadStomp(st, io[0].rx);
      if io[0].rx.Data? || io[0].rx.BadParse? { DeliverKeepsSocket(st, io[0].rx.ds); }
      if r.Ok? && r.value { ProbeKeepsAim(st1, io[1..], fragment); }
    }
  }

  lemma {:induction false} SendKeepsAim(st: Link, data: string, io: seq<Event>, fragment: string)
    requires Aimed(st, fragment)
    ensures Aimed(SendLoop(st, data, io).0, fragment)
    decreases io
  {
    if st.open && io != [] {
      match io[0]
      case Readable(BadParse(ds)) => DeliverKeepsSocket(st, ds);
      case Readable(Data(ds)) => DeliverKeepsSocket(st, ds);
      case Writable(WouldBlock) => if data != "" { SendKeepsAim(st, data, io[1..], fragment); }
      case Writable(Took(bytes)) =>
        var m := Least(bytes, |data|);
        if data[m..] != "" { SendKeepsAim(st.(sent := st.sent + data[..m]), data[m..], io[1..], fragment); }
      case _ =>
    }
  }

  lemma {:induction false} ReadKeepsAim(st: Link, io: seq<Event>, fragment: string)
    requires Aimed(st, fragment)
    ensures Aimed(ReadLoop(st, io).0, fragment)
    decreases io
  {
    if !st.received && st.open && io != [] && io[0].Readable? {
      var (st1, r) := ReadStomp(st, io[0].rx);
      if io[0].rx.Data? || io[0].rx.BadParse? { DeliverKeepsSocket(st, io[0].rx.ds); }
      if r.Ok? { ReadKeepsAim(if r.value then st1 else Closed(st1).(received := true), io[1..], fragment); }
    }
  }

  /** If live sockets led to the URI's fragment before, whatever socket connect() leaves open leads
      there too, reused or new, whether it returned or threw. */
  lemma ReachKeepsAim(st: Link, fragment: string, passhash: nat, dialled: bool, session: bool, logon: string,
      io: seq<Event>)
    requires Aimed(st, fragment)
    ensures Aimed(Reach(st, fragment, passhash, dialled, session, logon, io).0, fragment)
  {
    var (st0, io0, alive) := Probe(st, io);
    ProbeKeepsAim(st, io, fragment);
    if alive.Ok? && dialled && !(alive.value && passhash == st0.passhash) {
      var st1 := Dialled(st0, fragment).(received := false);
      SendKeepsAim(st1, logon, io0, fragment);
      var (st2, io2, e2) := SendLoop(st1, logon, io0);
      ReadKeepsAim(st2, io2, fragment);
    }
  }

  // ----- the exchange as the protocol sees it

  lemma {:induction false} SendKeepsScript(st: Link, data: string, io: seq<Event>)
    requires PastLogon(io)
    ensures PastLogon(SendLoop(st, data, io).1)
    decreases io
  {
    if st.open && io != [] {
      match io[0]
      case Writable(WouldBlock) => if data != "" { SendKeepsScript(st, data, io[1..]); }
      case Writable(Took(bytes)) =>
        var m := Least(bytes, |data|);
        if data[m..] != "" { SendKeepsScript(st.(sent := st.sent + data[..m]), data[m..], io[1..]); }
      case _ =>
    }
  }

  lemma {:induction false} ReadKeepsScript(st: Link, io: seq<Event>)
    requires PastLogon(io)
    ensures PastLogon(ReadLoop(st, io).1)
    decreases io
  {
    if !st.received && st.open && io != [] && io[0].Readable? {
      var (st1, r) := ReadStomp(st, io[0].rx);
      if r.Ok? { ReadKeepsScript(if r.value then st1 else Closed(st1).(received := true), io[1..]); }
    }
  }

  lemma {:induction false} ProbeKeepsScript(st: Link, io: seq<Event>)
    requires PastLogon(io)
    ensures PastLogon(Probe(st, io).1) && Probe(st, io).0.armed <= st.armed
    decreases io
  {
    if st.open && io != [] && io[0].Readable? {
      var (st1, r) := ReadStomp(st, io[0].rx);
      if io[0].rx.Data? || io[0].rx.BadParse? { DeliverKeepsSocket(st, io[0].rx.ds); }
      if r.Ok? && r.value { ProbeKeepsScript(st1, io[1..]); }
    }
  }

  /** The receipts due once a frame is sent. */
  function DueThen(st: Link, receipt: bool, tag: nat): set<nat> {
    st.armed + if receipt then {tag} else {}
  }

  /** An exchange's outcome in the protocol's terms. */
  function Outcome(st: Link, data: string, receipt: bool, tag: nat, after: Link, e: Exit): Io {
    Io(if after.sent == st.sent + data then Whole else if after.sent == st.sent then Nothing else Part,
       e.Raised?, !after.open, receipt, DueThen(st, receipt, tag) - after.armed)
  }

  lemma {:induction false} SendNarrows(st: Link, data: string, io: seq<Event>)
    ensures SendLoop(st, data, io).0.armed <= st.armed
    decreases io
  {
    if st.open && io != [] {
      match io[0]
      case Readable(BadParse(ds)) => DeliverKeepsSocket(st, ds);
      case Readable(Data(ds)) => DeliverKeepsSocket(st, ds);
      case Writable(WouldBlock) => if data != "" { SendNarrows(st, data, io[1..]); }
      case Writable(Took(bytes)) =>
        var m := Least(bytes, |data|);
        if data[m..] != "" { SendNarrows(st.(sent := st.sent + data[..m]), data[m..], io[1..]); }
      case _ =>
    }
  }

  /** Sending alone is an outcome that the protocol allows for a COMMIT's first half. */
  lemma SendIsSound(st: Link, data: string, receipt: bool, tag: nat, io: seq<Event>)
    requires data != ""
    ensures var (st', _, e) := SendFrame(st, data, receipt, tag, io);
            SoundSend(st.open, Outcome(st, data, receipt, tag, st', e)) &&
              (e.Returned? ==> st' == Arm(st, receipt, tag).(sent := st.sent + data))
  {
    var armed := Arm(st, receipt, tag);
    var (st', _, e) := SendLoop(armed, data, io);
    var k := SendWritesPrefix(armed, data, io);
    WroteOf(st, data, st', k);
    if e.Returned? { assert data[..k] == data; }
  }

  lemma WroteOf(st: Link, data: string, after: Link, k: nat)
    requires data != "" && k <= |data| && after.sent == st.sent + data[..k]
    ensures after.sent == st.sent + data <==> k == |data|
    ensures after.sent == st.sent <==> k == 0
  {
    assert |after.sent| == |st.sent| + k;
    assert data[..0] == "" && st.sent + "" == st.sent && data[..|data|] == data;
  }

  /** Waiting alone is an outcome that the protocol allows for a COMMIT's second half. */
  lemma WaitIsSound(st: Link, io: seq<Event>)
    requires !st.received && PastLogon(io)
    ensures var (st', _, e) := ReadLoop(st, io);
            SoundWait(st.open, st.armed, Io(Nothing, e.Raised?, !st'.open, true, st.armed - st'.armed)) &&
              st'.sent == st.sent
  {
    var (st', _, e) := ReadLoop(st, io);
    ReadReturnsQuiet(st, io);
    ReadWaits(st, io, st.armed);
    Missing(st'.armed, st.armed);
  }

  lemma Missing(a: set<nat>, b: set<nat>)
    requires a <= b
    ensures a != b ==> (b - a) * b != {}
  {
    if a != b {
      var x :| x in b && x !in a;
      assert x in (b - a) * b;
    }
  }

  /** Every run of the two loops past the logon is an outcome the protocol allows for: nothing is written
      on a closed socket, a normal return has written the whole frame and, if it asked for a receipt and
      the socket is still open, has seen one that was due. */
  lemma ExchangeIsSound(st: Link, data: string, receipt: bool, tag: nat, io: seq<Event>)
    requires data != "" && PastLogon(io)
    ensures var (st', io', e) := Exchange(st, data, receipt, tag, io);
            && Sound(st.open, DueThen(st, receipt, tag), Outcome(st, data, receipt, tag, st', e))
            && st.sent <= st'.sent && st'.sent[|st.sent|..] <= data && PastLogon(io')
            && st'.armed <= DueThen(st, receipt, tag) && (st'.open ==> st.open)
  {
    var armed := Arm(st, receipt, tag);
    var (st1, io1, e1) := SendLoop(armed, data, io);
    var k := SendWritesPrefix(armed, data, io);
    SendNarrows(armed, data, io);
    SendKeepsScript(armed, data, io);
    ReadReturnsQuiet(st1, io1);
    ReadKeepsScript(st1, io1);
    var (st', _, e) := Exchange(st, data, receipt, tag, io);
    WroteOf(st, data, st', k);
    if e1.Returned? && receipt {
      ReadWaits(st1, io1, st1.armed);
      Missing(st'.armed, DueThen(st, receipt, tag));
    }
  }

  /** The outcome of commit_transaction's exchange, exceptions swallowed: without a receipt it is tried
      only if a probe finds the socket alive. */
  function CommitOutcome(st: Link, data: string, receipt: bool, tag: nat, io: seq<Event>): Io {
    if receipt then
      var (st1, _, e) := Exchange(st, data, true, tag, io);
      Outcome(st, data, true, tag, st1, e)
    else
      var (st0, io0, alive) := Probe(st, io);
      if alive.Ok? && alive.value then
        var (st1, _, e) := Exchange(st0, data, false, tag, io0);
        Outcome(st0, data, false, tag, st1, e).(got := st.armed - st1.armed)
      else Io(Nothing, true, !st0.open, false, st.armed - st0.armed)
  }

  /** So is every COMMIT attempt, with or without the probe. What the probe of one without a receipt reads,
      receipts among it, is dropped; but for that, such an attempt is the send alone. */
  lemma CommitIsSound(st: Link, data: string, receipt: bool, tag: nat, io: seq<Event>)
    requires data != "" && PastLogon(io)
    ensures var o, st' := CommitOutcome(st, data, receipt, tag, io), CommitAttempt(st, data, receipt, tag, io).0;
            && Sound(st.open, DueThen(st, receipt, tag), o) && o.ask == receipt && (o.closed <==> !st'.open)
            && (!receipt && !o.failed ==> SoundSend(st.open, o.(got := {})))
            && st'.armed == DueThen(st, receipt, tag) - o.got
            && (o.wrote.Whole? && st.open && st'.open ==> st'.sent == st.sent + data)
  {
    if receipt {
      ExchangeIsSound(st, data, true, tag, io);
    } else {
      ProbeKeepsScript(st, io);
      ProbeKeepsAim(st, io, st.destination);
      var (st0, io0, alive) := Probe(st, io);
      if alive.Ok? && alive.value { ExchangeIsSound(st0, data, false, tag, io0); }
    }
  }

  // ----- a history without failures

  /** Frames sent one after another, numbering the receipts asked for; it ends early when one fails. */
  function Dialogue(st: Link, asks: seq<(string, bool)>, tag: nat, io: seq<Event>): (Link, bool)
    decreases asks
  {
    if asks == [] then (st, true)
    else
      var (st1, io1, e) := Exchange(st, asks[0].0, asks[0].1, tag, io);
      if e.Raised? || !st1.open then (st1, false)
      else Dialogue(st1, asks[1..], tag + 1, io1)
  }

  /** Along a history without failures no receipt is left over: each frame that asked for one has had
      its own by the time the next is sent. */
  lemma {:induction false} NoReceiptIsLeftOver(st: Link, asks: seq<(string, bool)>, tag: nat, io: seq<Event>)
    requires st.armed == {} && PastLogon(io) && forall k :: 0 <= k < |asks| ==> asks[k].0 != ""
    ensures var (st', ok) := Dialogue(st, asks, tag, io); ok ==> st'.armed == {}
    decreases asks
  {
    if asks != [] {
      ExchangeIsSound(st, asks[0].0, asks[0].1, tag, io);
      var (st1, io1, e) := Exchange(st, asks[0].0, asks[0].1, tag, io);
      if e.Returned? && st1.open {
        OneLess(st1.armed, tag, asks[0].1);
        NoReceiptIsLeftOver(st1, asks[1..], tag + 1, io1);
      }
    }
  }

  lemma OneLess(left: set<nat>, tag: nat, receipt: bool)
    requires left <= (if receipt then {tag} else {})
    requires receipt ==> ({tag} - left) * {tag} != {}
    ensures left == {}
  {
  }

  /** A COMMIT whose reply never comes leaves its socket open and its receipt outstanding, and then a
      late reply ends the wait for another frame's. */
  lemma StaleReceiptEndsTheWait(st: Link, first: string, second: string)
    requires st.open && st.armed == {} && st.error == "" && first != "" && second != ""
    ensures var st1 := CommitAttempt(st, first, true, 0, [Writable(Took(|first|))]).0;
            && st1.open && st1.armed == {0} && st1.error == ""
            && var io := [Writable(Took(|second|)), Readable(Data([Receipt(0, true, "")]))];
               var (st2, _, e) := Exchange(st1, second, true, 1, io);
               e.Returned? && st2.open && st2.armed == {1}
  {
    var st1 := st.(received := false, armed := {0}, sent := st.sent + first);
    assert first[..|first|] == first && first[|first|..] == "";
    assert [Writable(Took(|first|))][1..] == [] && st.armed + {0} == {0};
    assert SendLoop(Arm(st, true, 0), first, [Writable(Took(|first|))]) == (st1, [], Returned);
    assert CommitAttempt(st, first, true, 0, [Writable(Took(|first|))]).0 == st1;
    SecondWaitEnds(st1, second);
  }

  lemma SecondWaitEnds(st1: Link, second: string)
    requires st1.open && st1.armed == {0} && st1.error == "" && second != ""
    ensures var io := [Writable(Took(|second|)), Readable(Data([Receipt(0, true, "")]))];
            var (st2, _, e) := Exchange(st1, second, true, 1, io);
            e.Returned? && st2.open && st2.armed == {1}
  {
    var late := [Receipt(0, true, "")];
    var io := [Writable(Took(|second|)), Readable(Data(late))];
    var sent := Arm(st1, true, 1).(sent := st1.sent + second);
    assert second[..|second|] == second && second[|second|..] == "";
    assert io[1..] == [Readable(Data(late))];
    assert SendLoop(Arm(st1, true, 1), second, io) == (sent, [Readable(Data(late))], Returned);
    var st2 := sent.(received := true, armed := {1});
    assert late[1..] == [] && DeliverAll(st2, []) == st2;
    assert sent.armed - {0} == {1};
    assert DeliverAll(sent, late) == st2;
    assert [Readable(Data(late))][1..] == [];
    assert ReadLoop(sent, [Readable(Data(late))]) == ReadLoop(st2, []) == (st2, [], Returned);
  }
}
