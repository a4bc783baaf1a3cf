/** How often a socket asks the broker for a receipt. */
module ReceiptWindow {
  /** connection::is_receipt: always when the URI wants it, else once the counter is at the limit. */
  predicate Asks(wanted: bool, requests: nat, limit: nat) {
    wanted || requests >= limit
  }

  /** connection::release resets a counter that is at the limit. */
  function AfterRelease(requests: nat, limit: nat): nat {
    if requests >= limit then 0 else requests
  }

  /** One statement on a socket that stays open: whether its URI wants receipts, whether it is
      transactional, its rows, and whether its own thread gives the connection back; a drained
      or forced connection skips the reset. */
  datatype Use = Use(wanted: bool, transaction: bool, rows: nat, byOwner: bool)

  /** The statement sends a frame that may carry a receipt request: BEGIN, or the SEND of a plain row. */
  predicate SendsFrame(u: Use) {
    u.transaction || u.rows > 0
  }

  /** The counter after these statements. */
  function Count(us: seq<Use>, limit: nat): nat {
    if us == [] then 0
    else
      var c := Count(us[..|us| - 1], limit) + 1;
      if us[|us| - 1].byOwner then AfterRelease(c, limit) else c
  }

  lemma CountNext(us: seq<Use>, u: Use, limit: nat)
    ensures Count(us + [u], limit) == if u.byOwner then AfterRelease(Count(us, limit) + 1, limit)
        else Count(us, limit) + 1
  {
    assert (us + [u])[..|us|] == us;
  }

  ghost predicate Requested(us: seq<Use>, k: nat, limit: nat)
    requires k < |us|
  {
    SendsFrame(us[k]) && Asks(us[k].wanted, Count(us[..k], limit) + 1, limit)
  }

  /** Among any `limit` statements in a row one asks for a receipt. */
  ghost predicate Windowed(us: seq<Use>, limit: nat) {
    forall k: nat :: AskedFrom(us, k, limit)
  }

  ghost predicate SomeRequest(us: seq<Use>, from: nat, end: nat, limit: nat)
    requires end <= |us|
  {
    exists j :: from <= j < end && Requested(us, j, limit)
  }

  ghost predicate AskedFrom(us: seq<Use>, k: nat, limit: nat) {
    k + limit <= |us| ==> SomeRequest(us, k, k + limit, limit)
  }

  /** A quiet stretch counts up, below the limit. */
  lemma {:induction false} QuietCountsUp(us: seq<Use>, from: nat, end: nat, limit: nat)
    requires from < end <= |us| && !SomeRequest(us, from, end, limit)
    requires forall u :: u in us ==> SendsFrame(u)
    ensures Count(us[..from], limit) + (end - from) == Count(us[..end], limit) < limit
    decreases end
  {
    var last := end - 1;
    assert !Requested(us, last, limit) && us[last] in us;
    assert us[..end][..last] == us[..last];
    if from < last {
      assert !SomeRequest(us, from, last, limit);
      QuietCountsUp(us, from, last, limit);
    }
  }

  lemma EveryWindowAsks(us: seq<Use>, limit: nat)
    requires 0 < limit && forall u :: u in us ==> SendsFrame(u)
    ensures Windowed(us, limit)
  {
    forall k: nat ensures AskedFrom(us, k, limit) {
      if k + limit <= |us| && !SomeRequest(us, k, k + limit, limit) { QuietCountsUp(us, k, k + limit, limit); }
    }
  }

  ghost predicate DrawnFrom(us: seq<Use>, kinds: set<Use>) {
    forall u :: u in us ==> u in kinds
  }

  /** The window is kept by every history of these kinds of statement if and only if each kind sends
      a frame: the counter of a plain statement without rows is reset unasked. */
  lemma WindowIffEveryKindSends(kinds: set<Use>, limit: nat)
    requires 0 < limit
    ensures (forall us :: DrawnFrom(us, kinds) ==> Windowed(us, limit)) <==> (forall u :: u in kinds ==> SendsFrame(u))
  {
    if forall u :: u in kinds ==> SendsFrame(u) {
      forall us | DrawnFrom(us, kinds) ensures Windowed(us, limit) { EveryWindowAsks(us, limit); }
    } else {
      var mute :| mute in kinds && !SendsFrame(mute);
      var us := seq(limit, k => mute);
      assert DrawnFrom(us, kinds);
      assert !SomeRequest(us, 0, 0 + limit, limit);
      assert !AskedFrom(us, 0, limit);
    }
  }

  /** The bound is tight: limit - 1 plain statements in a row may all go without a receipt. */
  lemma {:induction false} OneFewerMayBeQuiet(n: nat, limit: nat)
    requires n < limit
    ensures var us := seq(n, k => Use(false, false, 1, true)); !SomeRequest(us, 0, n, limit) && Count(us, limit) == n
  {
    var us := seq(n, k => Use(false, false, 1, true));
    if n > 0 {
      OneFewerMayBeQuiet(n - 1, limit);
      var shorter := seq(n - 1, k => Use(false, false, 1, true));
      assert us[..n - 1] == shorter;
      forall j | 0 <= j < n ensures !Requested(us, j, limit) {
        if j < n - 1 { assert us[..j] == shorter[..j]; assert !Requested(shorter, j, limit); }
      }
    }
  }

  /** A statement whose URI wants receipts asks with every frame that may ask, whatever the counter; one whose
      URI does not asks only when the counter has reached the limit. */
  lemma WantedAlwaysAsks(us: seq<Use>, k: nat, limit: nat)
    requires k < |us| && SendsFrame(us[k])
    ensures us[k].wanted ==> Requested(us, k, limit)
    ensures !us[k].wanted && Count(us[..k], limit) + 1 < limit ==> !Requested(us, k, limit)
  {
  }

  /** After its owner has given it back a socket's counter is below the limit. */
  lemma OwnerEndsBelow(us: seq<Use>, limit: nat)
    requires 0 < limit && us != [] && us[|us| - 1].byOwner
    ensures Count(us, limit) < limit
  {
  }

  /** Statements that do not want receipts, each given back by its owner: exactly every limit-th one asks. */
  lemma {:induction false} EveryLimitthAsks(us: seq<Use>, k: nat, limit: nat)
    requires 0 < limit && k < |us| && forall u :: u in us ==> SendsFrame(u) && !u.wanted && u.byOwner
    ensures Count(us[..k], limit) == k % limit
    ensures Requested(us, k, limit) <==> (k + 1) % limit == 0
    decreases k
  {
    ModNext(k, limit);
    if k > 0 {
      EveryLimitthAsks(us, k - 1, limit);
      ModNext(k - 1, limit);
      assert us[..k] == us[..k - 1] + [us[k - 1]] && us[k - 1] in us;
      CountNext(us[..k - 1], us[k - 1], limit);
    }
    assert us[k] in us;
  }

  lemma ModNext(k: nat, limit: nat)
    requires 0 < limit
    ensures (k + 1) % limit == if k % limit + 1 == limit then 0 else k % limit + 1
  {
    var q, r := k / limit, k % limit;
    assert k == q * limit + r;
    if r + 1 == limit {
      assert k + 1 == (q + 1) * limit;
      ModUnique(k + 1, q + 1, 0, limit);
    } else {
      ModUnique(k + 1, q, r + 1, limit);
    }
  }

  lemma ModUnique(x: nat, q: nat, r: nat, limit: nat)
    requires 0 < limit && r < limit && x == q * limit + r
    ensures x % limit == r
  {
    var p := x / limit;
    assert x == p * limit + x % limit;
    if p < q { Above(p, q, limit); }
    if q < p { Above(q, p, limit); }
  }

  lemma Above(a: nat, b: nat, limit: nat)
    requires a < b
    ensures a * limit + limit <= b * limit
  {
    assert b * limit == a * limit + (b - a) * limit;
    assert (b - a) * limit == limit + (b - a - 1) * limit;
  }
}
