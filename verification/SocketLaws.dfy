/** What sending, waiting, probing and connecting come to, told by the events of the script alone. */
module SocketLaws {
  import opened Prelude
  import opened SocketIo

  // ----- sending

  /** The socket takes bytes, perhaps none of them yet. */
  predicate Accepts(e: Event) {
    e.Writable? && !e.tx.WriteFail?
  }

  function Bytes(e: Event): nat
    requires Accepts(e)
  {
    if e.tx.Took? then e.tx.bytes else 0
  }

  /** All that is accepted by the run of accepting events a script starts with. */
  function Accepted(io: seq<Event>): nat {
    if io == [] || !Accepts(io[0]) then 0 else Bytes(io[0]) + Accepted(io[1..])
  }

  /** Length of the run, or of the part of it after which n bytes have been accepted. */
  function Needed(io: seq<Event>, n: nat): (k: nat)
    ensures k <= |io| && (Accepted(io) < n && k < |io| ==> !Accepts(io[k]))
  {
    if n == 0 || io == [] || !Accepts(io[0]) then 0 else 1 + Needed(io[1..], n - Least(Bytes(io[0]), n))
  }

  /** How send fails on a link that has taken what was accepted, by the first event that accepts nothing. */
  ghost predicate SendFailsOn(st: Link, io: seq<Event>, k: nat, after: Link, rest: seq<Event>, e: Exit) {
    if k >= |io| then after == st && rest == [] && e == Raised("send timeout")
    else
      && rest == io[k + 1..]
      && match io[k]
         case PollFail => after == st && e == Raised("poll")
         case NotReady => after == st && e == Raised("send timeout")
         case Writable(_) => after == st && e == Raised("send")
         case Readable(rx) =>
           && e.Raised? && after.sent == st.sent && (after.open <==> !rx.Eof?)
           && (rx.Eof? || rx.Data? <==> e == Raised("protocol error"))
  }

  /** What a send comes to: it returns if and only if the accepted bytes reach the frame's length, having
      used no more events than that takes; else it fails on the first event that accepts nothing. */
  ghost predicate SendsTo(st: Link, data: string, io: seq<Event>, after: Link, rest: seq<Event>, e: Exit) {
    var k := Needed(io, |data|);
    if Accepted(io) >= |data|
    then e == Returned && after == st.(sent := st.sent + data) && rest == io[k..]
    else e.Raised? && SendFailsOn(st.(sent := st.sent + data[..Accepted(io)]), io, k, after, rest, e)
  }

  /** On an open socket a non-empty frame is sent if and only if the script starts with accepting events
      whose bytes reach its length; however short the writes, the loop goes on until then and no further.
      Otherwise what was accepted has been written, and the first other event decides the exception. */
  lemma {:induction false} SendReturnsIff(st: Link, data: string, io: seq<Event>)
    requires st.open && data != ""
    ensures var (st', rest, e) := SendLoop(st, data, io); SendsTo(st, data, io, st', rest, e)
    ensures SendLoop(st, data, io).2.Returned? <==> Accepted(io) >= |data|
    decreases io
  {
    assert st.sent + data[..0] == st.sent;
    if io != [] && Accepts(io[0]) {
      var m := Least(Bytes(io[0]), |data|);
      var st1, left := st.(sent := st.sent + data[..m]), data[m..];
      if m == 0 { assert st1 == st && left == data; }
      if m < |data| {
        SendReturnsIff(st1, left, io[1..]);
        var (st', rest, e) := SendLoop(st1, left, io[1..]);
        SendGoesOn(st, data, io, m, st', rest, e);
      } else {
        SendDone(st, data, io);
      }
    } else if io != [] && io[0].Readable? && (io[0].rx.Data? || io[0].rx.BadParse?) {
      DeliverKeepsSocket(st, io[0].rx.ds);
    }
  }

  lemma SendDone(st: Link, data: string, io: seq<Event>)
    requires st.open && data != "" && io != [] && io[0].Writable? && io[0].tx.Took? && io[0].tx.bytes >= |data|
    ensures SendLoop(st, data, io) == (st.(sent := st.sent + data), io[1..], Returned) && Needed(io, |data|) == 1
  {
    assert data[..|data|] == data && data[|data|..] == "";
  }

  /** One accepting event more in front. */
  lemma SendGoesOn(st: Link, data: string, io: seq<Event>, m: nat, after: Link, rest: seq<Event>, e: Exit)
    requires io != [] && Accepts(io[0]) && m == Bytes(io[0]) < |data|
    requires SendsTo(st.(sent := st.sent + data[..m]), data[m..], io[1..], after, rest, e)
    ensures SendsTo(st, data, io, after, rest, e)
  {
    var left := data[m..];
    var j, a := Needed(io[1..], |left|), Accepted(io[1..]);
    OneBefore(io, j);
    if a >= |left| {
      Regroups(st.sent, data, m, |left|);
      assert left[..|left|] == left && data[..|data|] == data;
    } else {
      Regroups(st.sent, data, m, a);
    }
  }

  lemma OneBefore(io: seq<Event>, j: nat)
    requires io != [] && j <= |io[1..]|
    ensures io[1..][j..] == io[j + 1..]
    ensures j < |io[1..]| ==> io[1..][j] == io[j + 1] && io[1..][j + 1..] == io[j + 2..]
  {
  }

  lemma Regroups(sent: string, data: string, m: nat, a: nat)
    requires m + a <= |data|
    ensures sent + data[..m] + data[m..][..a] == sent + data[..m + a]
  {
    assert data[..m] + data[m..][..a] == data[..m + a];
  }

  // ----- what the parser hands over

  /** The delivery ends a wait for these receipts, or for the answer to LOGON. */
  predicate Ends(armed: set<nat>, d: Delivery) {
    d.Session? || d.Failure? || (d.Receipt? && d.tag in armed)
  }

  /** It carries an error: ERROR, a refused LOGON, or a refusal in a receipt's place, heard once. */
  predicate Tells(armed: set<nat>, ds: seq<Delivery>, j: nat)
    requires j < |ds|
  {
    match ds[j]
    case Failure(_) => true
    case Session(ok, _) => !ok
    case Receipt(tag, ok, _) => !ok && tag in armed && forall i :: 0 <= i < j ==> !(ds[i].Receipt? && ds[i].tag == tag)
    case Other => false
  }

  predicate LastWord(armed: set<nat>, ds: seq<Delivery>, j: nat) {
    j < |ds| && Tells(armed, ds, j) && forall i :: j < i < |ds| ==> !Tells(armed, ds, i)
  }

  function TextOf(d: Delivery): string {
    match d
    case Receipt(_, _, text) => text
    case Session(_, text) => text
    case Failure(text) => "ERROR" + text
    case Other => ""
  }

  predicate Over(armed: set<nat>, ds: seq<Delivery>) {
    exists j :: 0 <= j < |ds| && Ends(armed, ds[j])
  }

  function TagsIn(ds: seq<Delivery>): set<nat> {
    set j | 0 <= j < |ds| && ds[j].Receipt? :: ds[j].tag
  }

  /** The wait is over if one delivery ends it, receipts handed over are no longer expected, and the
      error is the last one told, whatever came before; without any, error and socket are as they were. */
  lemma {:induction false} Delivered(st: Link, ds: seq<Delivery>)
    ensures var st' := DeliverAll(st, ds);
      && (st'.received <==> st.received || Over(st.armed, ds))
      && st'.armed == st.armed - TagsIn(ds)
      && LeavesError(st.armed, ds, st.error, st'.error)
    decreases ds
  {
    if ds != [] {
      var st1, rest := Deliver(st, ds[0]), ds[1..];
      Delivered(st1, rest);
      TagsSplit(ds);
      OverSplits(st.armed, st1.armed, ds);
      forall j | 0 < j < |ds| ensures Tells(st.armed, ds, j) <==> Tells(st1.armed, rest, j - 1) {
        TellsLater(st.armed, st1.armed, ds, j);
      }
      WordSplits(st.armed, st1.armed, ds, st.error, st1.error, DeliverAll(st, ds).error);
    }
  }

  lemma TagsSplit(ds: seq<Delivery>)
    requires ds != []
    ensures TagsIn(ds) == TagsIn(ds[1..]) + if ds[0].Receipt? then {ds[0].tag} else {}
  {
    forall t | t in TagsIn(ds[1..]) ensures t in TagsIn(ds) {
      var j :| 0 <= j < |ds[1..]| && ds[1..][j].Receipt? && ds[1..][j].tag == t;
      assert ds[j + 1] == ds[1..][j];
    }
    forall t | t in TagsIn(ds) && !(ds[0].Receipt? && t == ds[0].tag) ensures t in TagsIn(ds[1..]) {
      var j :| 0 <= j < |ds| && ds[j].Receipt? && ds[j].tag == t;
      assert ds[1..][j - 1] == ds[j];
    }
  }

  lemma OverSplits(armed: set<nat>, left: set<nat>, ds: seq<Delivery>)
    requires ds != [] && left == armed - (if ds[0].Receipt? then {ds[0].tag} else {})
    ensures Over(armed, ds) <==> Ends(armed, ds[0]) || Over(left, ds[1..])
  {
    if Over(armed, ds) && !Ends(armed, ds[0]) {
      var j :| 0 <= j < |ds| && Ends(armed, ds[j]);
      assert ds[1..][j - 1] == ds[j];
    }
    if Over(left, ds[1..]) {
      var j :| 0 <= j < |ds[1..]| && Ends(left, ds[1..][j]);
      assert ds[j + 1] == ds[1..][j];
    }
  }

  lemma TellsLater(armed: set<nat>, left: set<nat>, ds: seq<Delivery>, j: nat)
    requires 0 < j < |ds| && left == armed - (if ds[0].Receipt? then {ds[0].tag} else {})
    ensures Tells(armed, ds, j) <==> Tells(left, ds[1..], j - 1)
  {
    assert ds[1..][j - 1] == ds[j];
    assert forall i :: 0 <= i < |ds[1..]| ==> ds[1..][i] == ds[i + 1];
    if ds[j].Receipt? {
      assert (forall i :: 0 <= i < j ==> !(ds[i].Receipt? && ds[i].tag == ds[j].tag)) <==>
        !(ds[0].Receipt? && ds[0].tag == ds[j].tag)
        && forall i :: 0 <= i < j - 1 ==> !(ds[1..][i].Receipt? && ds[1..][i].tag == ds[j].tag);
    }
  }

  /** These deliveries leave this error: the text of the last word, or what was there. */
  ghost predicate LeavesError(armed: set<nat>, ds: seq<Delivery>, before: string, after: string) {
    && (forall j: nat :: LastWord(armed, ds, j) ==> after == TextOf(ds[j]))
    && ((forall j :: 0 <= j < |ds| ==> !Tells(armed, ds, j)) ==> after == before)
  }

  /** The last word is the later deliveries' if they have one. */
  lemma WordSplits(armed: set<nat>, left: set<nat>, ds: seq<Delivery>, before: string, next: string, after: string)
    requires ds != [] && forall j :: 0 < j < |ds| ==> (Tells(armed, ds, j) <==> Tells(left, ds[1..], j - 1))
    requires LeavesError(left, ds[1..], next, after) && next == if Tells(armed, ds, 0) then TextOf(ds[0]) else before
    ensures LeavesError(armed, ds, before, after)
  {
    var rest := ds[1..];
    forall i | 0 <= i < |rest| ensures Tells(left, rest, i) <==> Tells(armed, ds, i + 1) {}
    forall j: nat | LastWord(armed, ds, j) ensures after == TextOf(ds[j]) {
      if j > 0 { assert rest[j - 1] == ds[j] && LastWord(left, rest, j - 1); }
    }
  }

  /** If any delivery tells an error, one has the last word. */
  lemma {:induction false} WordExists(armed: set<nat>, ds: seq<Delivery>, j: nat) returns (w: nat)
    requires j < |ds| && Tells(armed, ds, j)
    ensures LastWord(armed, ds, w)
    decreases |ds| - j
  {
    w := j;
    if !LastWord(armed, ds, j) {
      var i :| j < i < |ds| && Tells(armed, ds, i);
      w := WordExists(armed, ds, i);
    }
  }

  // ----- waiting

  /** Frames arrive, none of which ends the wait. */
  predicate Quiet(armed: set<nat>, e: Event) {
    e.Readable? && e.rx.Data? && !Over(armed, e.rx.ds)
  }

  /** Position of the first event that is not quiet. */
  function Noise(armed: set<nat>, io: seq<Event>): (k: nat)
    ensures k <= |io| && (forall j :: 0 <= j < k ==> Quiet(armed, io[j])) && (k < |io| ==> !Quiet(armed, io[k]))
  {
    if io == [] || !Quiet(armed, io[0]) then 0 else 1 + Noise(armed, io[1..])
  }

  /** What a wait comes to: it outlasts quiet events, and the first other one decides, at once. */
  ghost predicate WaitEnds(st: Link, io: seq<Event>, k: nat, after: Link, rest: seq<Event>, e: Exit) {
    if k >= |io| then after == st && rest == [] && e == Raised("timeout")
    else
      && rest == io[k + 1..]
      && match io[k]
         case PollFail => after == st && e == Raised("poll")
         case NotReady => after == st && e == Raised("timeout")
         case Writable(_) => after == st && e == Raised("timeout")
         case Readable(RecvFail) => after == st && e == Raised("recv")
         case Readable(BadParse(ds)) => after == DeliverAll(st, ds) && e == Raised("stomp parse")
         case Readable(Eof) => after == Closed(st).(received := true) && e == Returned
         case Readable(Data(ds)) =>
           && after == DeliverAll(st, ds) && after.received
           && e == if after.error == "" then Returned else Raised(after.error)
  }

  /** A wait on an open socket goes on over everything that does not answer it, and ends with the first
      event that does, or that is no input, or with the script. */
  lemma {:induction false} WaitEndsAtNoise(st: Link, io: seq<Event>)
    requires st.open && !st.received
    ensures var (st', rest, e) := ReadLoop(st, io); WaitEnds(st, io, Noise(st.armed, io), st', rest, e)
    decreases io
  {
    if io != [] && io[0].Readable? {
      var (st1, r) := ReadStomp(st, io[0].rx);
      if Quiet(st.armed, io[0]) {
        NothingHeard(st, io[0].rx.ds);
        WaitEndsAtNoise(st, io[1..]);
        var (st', rest, e) := ReadLoop(st, io[1..]);
        WaitGoesOn(st, io, st', rest, e);
      } else if io[0].rx.Data? {
        Delivered(st, io[0].rx.ds);
      }
    }
  }

  /** One quiet event more in front. */
  lemma WaitGoesOn(st: Link, io: seq<Event>, after: Link, rest: seq<Event>, e: Exit)
    requires io != [] && Quiet(st.armed, io[0]) && WaitEnds(st, io[1..], Noise(st.armed, io[1..]), after, rest, e)
    ensures WaitEnds(st, io, Noise(st.armed, io), after, rest, e)
  {
    OneBefore(io, Noise(st.armed, io[1..]));
  }

  lemma {:induction false} NothingHeard(st: Link, ds: seq<Delivery>)
    requires !Over(st.armed, ds)
    ensures DeliverAll(st, ds) == st
    decreases ds
  {
    if ds != [] {
      assert !Ends(st.armed, ds[0]);
      forall j | 0 <= j < |ds[1..]| ensures !Ends(st.armed, ds[1..][j]) { assert ds[1..][j] == ds[j + 1]; }
      NothingHeard(st, ds[1..]);
    }
  }

  /** The wait is answered, and the last word of the answer is an error with this text. */
  ghost predicate Refused(armed: set<nat>, io: seq<Event>, text: string) {
    var k := Noise(armed, io);
    && k < |io| && io[k].Readable? && io[k].rx.Data?
    && exists j: nat :: LastWord(armed, io[k].rx.ds, j) && TextOf(io[k].rx.ds[j]) == text
  }

  /** A refusal is raised with its text, whether the frame was a LOGON or had a receipt asked, if and only if
      the text is not empty: an empty one reads as success. */
  lemma RefusalIsRaised(st: Link, io: seq<Event>, text: string)
    requires st.open && !st.received && Refused(st.armed, io, text)
    ensures var (st', _, e) := ReadLoop(st, io); st'.open && e == if text == "" then Returned else Raised(text)
  {
    var k := Noise(st.armed, io);
    WaitEndsAtNoise(st, io);
    Delivered(st, io[k].rx.ds);
    DeliverKeepsSocket(st, io[k].rx.ds);
    var j: nat :| LastWord(st.armed, io[k].rx.ds, j) && TextOf(io[k].rx.ds[j]) == text;
  }

  /** A frame of n bytes is sent whole, and then refused. */
  ghost predicate SentAndRefused(armed: set<nat>, n: nat, io: seq<Event>, text: string) {
    Accepted(io) >= n && Refused(armed, io[Needed(io, n)..], text)
  }

  lemma ExchangeRefused(st: Link, data: string, tag: nat, io: seq<Event>, text: string)
    requires st.open && data != "" && text != "" && SentAndRefused(st.armed + {tag}, |data|, io, text)
    ensures Exchange(st, data, true, tag, io).2 == Raised(text)
  {
    SendReturnsIff(Arm(st, true, tag), data, io);
    var (st1, io1, _) := SendFrame(st, data, true, tag, io);
    RefusalIsRaised(st1, io1, text);
  }

  /** The wait is answered without a last word that has a text, or cut off by a disconnect. */
  ghost predicate Favourable(armed: set<nat>, io: seq<Event>) {
    var k := Noise(armed, io);
    && k < |io| && io[k].Readable?
    && (io[k].rx.Eof? ||
        (io[k].rx.Data? && forall j: nat :: LastWord(armed, io[k].rx.ds, j) ==> TextOf(io[k].rx.ds[j]) == ""))
  }

  /** A frame of n bytes is sent whole, and then answered favourably. */
  ghost predicate GoesThrough(armed: set<nat>, n: nat, io: seq<Event>) {
    Accepted(io) >= n && Favourable(armed, io[Needed(io, n)..])
  }

  /** A frame with a receipt asked goes through, on a link without an old error, if and only if the socket
      accepts all of it and the answer is favourable. */
  lemma AskedReturnsIff(st: Link, data: string, tag: nat, io: seq<Event>)
    requires st.open && data != "" && st.error == ""
    ensures Exchange(st, data, true, tag, io).2.Returned? <==> GoesThrough(st.armed + {tag}, |data|, io)
  {
    SendReturnsIff(Arm(st, true, tag), data, io);
    var (st1, io1, e1) := SendFrame(st, data, true, tag, io);
    if e1.Returned? { WaitReturnsIff(st1, io1); }
  }

  lemma WaitReturnsIff(st: Link, io: seq<Event>)
    requires st.open && !st.received && st.error == ""
    ensures ReadLoop(st, io).2.Returned? <==> Favourable(st.armed, io)
  {
    var k := Noise(st.armed, io);
    WaitEndsAtNoise(st, io);
    if k < |io| && io[k].Readable? && io[k].rx.Data? {
      var ds := io[k].rx.ds;
      Delivered(st, ds);
      if j :| 0 <= j < |ds| && Tells(st.armed, ds, j) { var w := WordExists(st.armed, ds, j); }
    }
  }

  /** Without a receipt nothing is awaited: no event is used beyond those that send the frame. */
  lemma UnaskedNeverWaits(st: Link, data: string, tag: nat, io: seq<Event>)
    requires st.open && data != ""
    ensures var (st', rest, e) := Exchange(st, data, false, tag, io);
      && (e.Returned? <==> Accepted(io) >= |data| && st.error == "")
      && (Accepted(io) >= |data| ==>
            rest == io[Needed(io, |data|)..] && st' == st.(received := true, sent := st.sent + data))
  {
    SendReturnsIff(Arm(st, false, tag), data, io);
  }

  // ----- probing

  /** How many times something waits to be read and the parser accepts it. */
  function Waiting(io: seq<Event>): (k: nat)
    ensures k <= |io| && (k < |io| ==> !(io[k].Readable? && io[k].rx.Data?))
  {
    if io == [] || !(io[0].Readable? && io[0].rx.Data?) then 0 else 1 + Waiting(io[1..])
  }

  /** Then nothing more waits, and no failure or disconnect is seen. */
  predicate Alive(io: seq<Event>) {
    var k := Waiting(io);
    k < |io| ==> io[k].NotReady? || io[k].Writable?
  }

  predicate Gone(io: seq<Event>) {
    var k := Waiting(io);
    k < |io| && io[k].Readable? && io[k].rx.Eof?
  }

  /** The receipts still expected once all that waits has been read. */
  function ArmedPast(armed: set<nat>, io: seq<Event>): set<nat> {
    if io == [] || !(io[0].Readable? && io[0].rx.Data?) then armed
    else ArmedPast(armed - TagsIn(io[0].rx.ds), io[1..])
  }

  function Past(io: seq<Event>): seq<Event> {
    if Waiting(io) < |io| then io[Waiting(io) + 1..] else []
  }

  /** The same socket: nothing written, nothing closed, nothing forgotten. */
  predicate SameSocket(st: Link, after: Link) {
    && after.open == st.open && after.sent == st.sent && after.destination == st.destination
    && after.passhash == st.passhash && after.requests == st.requests
  }

  /** The probe reads all that waits and then tells a live socket from a disconnect and from a failure. */
  lemma {:induction false} ProbeTells(st: Link, io: seq<Event>)
    requires st.open
    ensures var (st', rest, r) := Probe(st, io);
      && rest == Past(io) && (Alive(io) || Gone(io) ==> st'.armed == ArmedPast(st.armed, io))
      && (if Alive(io) then r == Ok(true) && SameSocket(st, st')
          else if Gone(io) then r == Ok(false) && !st'.open && st'.passhash == 0
          else r.Err? && SameSocket(st, st'))
    decreases io
  {
    if io != [] && io[0].Readable? {
      if io[0].rx.Data? || io[0].rx.BadParse? { DeliverKeepsSocket(st, io[0].rx.ds); }
      if io[0].rx.Data? {
        Delivered(st, io[0].rx.ds);
        ProbeTells(DeliverAll(st, io[0].rx.ds), io[1..]);
        OneBefore(io, Waiting(io[1..]));
      }
    }
  }

  /** A COMMIT with a receipt is written whole if and only if the socket accepts it. */
  lemma AskedCommitWritesIff(st: Link, data: string, tag: nat, io: seq<Event>)
    requires st.open && data != ""
    ensures CommitAttempt(st, data, true, tag, io).0.sent == st.sent + data <==> Accepted(io) >= |data|
  {
    SendReturnsIff(Arm(st, true, tag), data, io);
    var (st1, io1, e1) := SendFrame(st, data, true, tag, io);
    if e1.Returned? { ReadReturnsQuiet(st1, io1); } else { Shorter(st.sent, data, Accepted(io)); }
  }

  lemma Shorter(sent: string, data: string, n: nat)
    requires n < |data|
    ensures sent + data[..n] != sent + data
  {
    assert |sent + data[..n]| < |sent + data|;
  }

  /** A COMMIT without a receipt is tried only past a probe that finds the socket alive, and then it is
      written whole if and only if the socket accepts it; input that waits before it is no error. */
  lemma UnaskedCommitWritesIff(st: Link, data: string, tag: nat, io: seq<Event>)
    requires st.open && data != ""
    ensures var (st', rest) := CommitAttempt(st, data, false, tag, io);
      && (st'.sent == st.sent + data <==> Alive(io) && Accepted(Past(io)) >= |data|)
      && (!Alive(io) ==> st'.sent == st.sent && rest == Past(io))
  {
    ProbeTells(st, io);
    ProbeKeepsSent(st, io);
    var (st0, io0, alive) := Probe(st, io);
    if Alive(io) {
      SendReturnsIff(Arm(st0, false, tag), data, io0);
      UnaskedNeverWaits(st0, data, tag, io0);
      var (st1, _, _) := Exchange(st0, data, false, tag, io0);
      if Accepted(io0) < |data| { WritesLess(st0, data, tag, io0); }
    }
  }

  lemma {:induction false} ProbeKeepsSent(st: Link, io: seq<Event>)
    ensures Probe(st, io).0.sent == st.sent
    decreases io
  {
    if st.open && io != [] && io[0].Readable? {
      if io[0].rx.Data? || io[0].rx.BadParse? { DeliverKeepsSocket(st, io[0].rx.ds); }
      if io[0].rx.Data? { ProbeKeepsSent(DeliverAll(st, io[0].rx.ds), io[1..]); }
    }
  }

  lemma WritesLess(st: Link, data: string, tag: nat, io: seq<Event>)
    requires st.open && data != "" && Accepted(io) < |data|
    ensures Exchange(st, data, false, tag, io).0.sent == st.sent + data[..Accepted(io)] != st.sent + data
  {
    SendReturnsIff(Arm(st, false, tag), data, io);
    Shorter(st.sent, data, Accepted(io));
  }

  // ----- connecting

  /** A live socket on which nothing but frames waits, logged on with this password. */
  predicate Reusable(st: Link, passhash: nat, io: seq<Event>) {
    st.open && Alive(io) && st.passhash == passhash
  }

  /** Such a socket is kept: nothing is written, and no event is used beyond the probe. */
  lemma ReachReuses(st: Link, fragment: string, passhash: nat, dialled: bool, session: bool, logon: string,
      io: seq<Event>)
    requires Reusable(st, passhash, io)
    ensures var (st', rest, e) := Reach(st, fragment, passhash, dialled, session, logon, io);
      e == Returned && SameSocket(st, st') && rest == Past(io)
  {
    ProbeTells(st, io);
  }

  /** Logging on: what is open afterwards carries the LOGON or a part of it and is otherwise the socket that was
      dialled; it returns if and only if the LOGON goes through and the parser then knows a session. */
  lemma LogonCarries(st: Link, session: bool, logon: string, io: seq<Event>)
    requires st.open && logon != "" && st.sent == "" && st.error == ""
    ensures var (st', _, e) := Logon(st, session, logon, io);
      && (st'.open ==> st'.sent <= logon && st'.destination == st.destination && KeepsBook(st, st'))
      && (e.Returned? <==> session && GoesThrough(st.armed, |logon|, io)) && (e.Returned? ==> st'.sent == logon)
  {
    var waiting := st.(received := false);
    SendReturnsIff(waiting, logon, io);
    SendKeepsCount(waiting, logon, io);
    SendKeepsAim(waiting, logon, io, st.destination);
    var k := SendWritesPrefix(waiting, logon, io);
    var (st1, io1, e1) := SendLoop(waiting, logon, io);
    assert "" + logon[..k] == logon[..k] && logon[..|logon|] == logon;
    if e1.Returned? {
      WaitReturnsIff(st1, io1);
      ReadReturnsQuiet(st1, io1);
      ReadKeepsCount(st1, io1);
      ReadKeepsAim(st1, io1, st.destination);
    }
  }

  /** A socket opened by this call: for the fragment, with its counter at zero and the LOGON in front. */
  predicate Anew(after: Link, fragment: string, logon: string) {
    after.destination == fragment && after.requests == 0 && after.sent <= logon
  }

  /** Connecting anew succeeds: the probe did not throw, a socket could be dialled, the LOGON went through. */
  ghost predicate LogsOn(st: Link, dialled: bool, session: bool, n: nat, io: seq<Event>) {
    && dialled && session && (st.open ==> Alive(io) || Gone(io))
    && if st.open then GoesThrough(ArmedPast(st.armed, io), n, Past(io)) else GoesThrough(st.armed, n, io)
  }

  /** Any other socket is given up: what the call leaves open is new, unless the probe itself threw. It returns
      if and only if logging on succeeds, and then it has stored the password. */
  lemma ReachOpensAnew(st: Link, fragment: string, passhash: nat, dialled: bool, session: bool, logon: string,
      io: seq<Event>)
    requires !Reusable(st, passhash, io) && logon != ""
    ensures var (st', _, e) := Reach(st, fragment, passhash, dialled, session, logon, io);
      && (st'.open ==> (dialled && Anew(st', fragment, logon)) ||
                       (e.Raised? && !Alive(io) && !Gone(io) && SameSocket(st, st')))
      && (e.Returned? <==> LogsOn(st, dialled, session, |logon|, io)) && (e.Returned? ==> st'.passhash == passhash)
      && (e.Returned? && st'.open ==> st'.sent == logon)
  {
    if st.open { ProbeTells(st, io); }
    var (st0, io0, alive) := Probe(st, io);
    if alive.Ok? && dialled { LogonCarries(Dialled(st0, fragment), session, logon, io0); }
  }

  /** The password is remembered: whatever socket connect leaves open on a normal return holds it. */
  lemma ReachRemembers(st: Link, fragment: string, passhash: nat, dialled: bool, session: bool, logon: string,
      io: seq<Event>)
    requires logon != ""
    ensures var (st', _, e) := Reach(st, fragment, passhash, dialled, session, logon, io);
      e.Returned? && st'.open ==> st'.passhash == passhash
  {
    if Reusable(st, passhash, io) {
      ReachReuses(st, fragment, passhash, dialled, session, logon, io);
    } else {
      ReachOpensAnew(st, fragment, passhash, dialled, session, logon, io);
    }
  }

  /** Two calls: when the first has returned with its socket open, and whatever was done since has kept that
      socket open with its password, a call with the same password on a quiet live socket writes nothing and
      keeps it; a call with another one leaves on return a new socket that carries its own LOGON. */
  lemma SecondCall(st: Link, fragment: string, passhash: nat, dialled: bool, session: bool, logon: string,
      io: seq<Event>, later: Link, fragment2: string, passhash2: nat, dialled2: bool, session2: bool, logon2: string,
      io2: seq<Event>)
    requires logon != "" && logon2 != "" && Alive(io2)
    requires var (st', _, e) := Reach(st, fragment, passhash, dialled, session, logon, io);
      e.Returned? && KeepsBook(st', later) && later.open
    ensures var (after, _, e) := Reach(later, fragment2, passhash2, dialled2, session2, logon2, io2);
      if passhash2 == passhash then e == Returned && SameSocket(later, after)
      else (after.open ==> Anew(after, fragment2, logon2)) && (e.Returned? && after.open ==> after.sent == logon2)
  {
    ReachRemembers(st, fragment, passhash, dialled, session, logon, io);
    if passhash2 == passhash {
      ReachReuses(later, fragment2, passhash2, dialled2, session2, logon2, io2);
    } else {
      ReachOpensAnew(later, fragment2, passhash2, dialled2, session2, logon2, io2);
    }
  }

  /** No socket can be reused, and the LOGON of n bytes on a new one is sent whole and then refused. */
  ghost predicate LogonMeets(st: Link, passhash: nat, n: nat, io: seq<Event>, text: string) {
    && !Reusable(st, passhash, io) && (st.open ==> Alive(io) || Gone(io))
    && if st.open then SentAndRefused(ArmedPast(st.armed, io), n, Past(io), text)
       else SentAndRefused(st.armed, n, io, text)
  }

  /** A refused LOGON makes connect throw the refusal's text. */
  lemma LogonRefused(st: Link, fragment: string, passhash: nat, session: bool, logon: string, io: seq<Event>,
      text: string)
    requires logon != "" && text != "" && LogonMeets(st, passhash, |logon|, io, text)
    ensures Reach(st, fragment, passhash, true, session, logon, io).2 == Raised(text)
  {
    if st.open { ProbeTells(st, io); }
    var (st0, io0, _) := Probe(st, io);
    var waiting := Dialled(st0, fragment).(received := false);
    SendReturnsIff(waiting, logon, io0);
    var (st1, io1, _) := SendLoop(waiting, logon, io0);
    RefusalIsRaised(st1, io1, text);
  }
}
