/** The header arguments of a call, written key=value&key=value, and the SEND frame built from them. */
module Headers {
  import opened Prelude

  datatype Header = Header(key: string, value: string)

  // ----- the specification: split, keep the well-formed pieces

  /** The pieces between separators; a text without one is a single piece. */
  function Split(s: string, c: char): (r: seq<string>)
    ensures r != []
    decreases |s|
  {
    var k := Find(s, c);
    if k == |s| then [s] else [s[..k]] + Split(s[k + 1..], c)
  }

  lemma SplitLast(s: string, c: char)
    requires Find(s, c) == |s|
    ensures Split(s, c) == [s]
  {
  }

  lemma SplitStep(s: string, c: char, k: nat)
    requires k == Find(s, c) < |s|
    ensures Split(s, c) == [s[..k]] + Split(s[k + 1..], c)
  {
  }

  /** A piece is a header when something precedes its first '=' and something follows. */
  function Pair(piece: string): seq<Header> {
    var k := Find(piece, '=');
    if 0 < k && k + 1 < |piece| then [Header(piece[..k], piece[k + 1..])] else []
  }

  function Pairs(pieces: seq<string>): seq<Header> {
    if pieces == [] then [] else Pair(pieces[0]) + Pairs(pieces[1..])
  }

  function Parse(s: string): seq<Header> {
    Pairs(Split(s, '&'))
  }

  /** A call's argument: whether MySQL passes it as a string, and its bytes unless it is NULL. */
  datatype Arg = Arg(isString: bool, value: Option<string>)

  function ParseArg(a: Arg): seq<Header> {
    if a.isString && a.value.Some? then Parse(a.value.value) else []
  }

  function ParseArgs(args: seq<Arg>): seq<Header> {
    if args == [] then [] else ParseArg(args[0]) + ParseArgs(args[1..])
  }

  /** Position of the first c between two pointers, or the second pointer. */
  function Scan(s: string, c: char, ptr: nat, end: nat): (k: nat)
    requires ptr <= end <= |s|
    ensures ptr <= k <= end && (forall j :: ptr <= j < k ==> s[j] != c) && (k < end ==> s[k] == c)
    decreases end - ptr
  {
    if ptr == end || s[ptr] == c then ptr else Scan(s, c, ptr + 1, end)
  }

  /** The header of the piece between two pointers. */
  function PairIn(s: string, ptr: nat, end: nat): seq<Header>
    requires ptr <= end <= |s|
  {
    var f := Scan(s, '=', ptr, end);
    if ptr < f && f + 1 < end then [Header(s[ptr..f], s[f + 1..end])] else []
  }

  /** What is left to parse of a text at a pointer, piece by piece. */
  function ParseFrom(s: string, ptr: nat): seq<Header>
    decreases |s| + 1 - ptr, 1
  {
    if ptr > |s| then []
    else FromPiece(s, ptr, Scan(s, '&', ptr, |s|))
  }

  function FromPiece(s: string, ptr: nat, curr: nat): seq<Header>
    requires ptr <= curr <= |s|
    decreases |s| + 1 - ptr, 0
  {
    PairIn(s, ptr, curr) + ParseFrom(s, curr + 1)
  }

  /** What is left of the arguments at a position. */
  function ArgsFrom(args: seq<Arg>, i: nat): seq<Header> {
    if i <= |args| then ParseArgs(args[i..]) else []
  }

  predicate HasKey(hs: seq<Header>, key: string) {
    exists k :: 0 <= k < |hs| && hs[k].key == key
  }

  lemma HasKeySplits(a: seq<Header>, b: seq<Header>, key: string)
    ensures HasKey(a + b, key) <==> HasKey(a, key) || HasKey(b, key)
  {
    if HasKey(a, key) {
      var k :| 0 <= k < |a| && a[k].key == key;
      assert (a + b)[k].key == key;
    }
    if HasKey(b, key) {
      var k :| 0 <= k < |b| && b[k].key == key;
      assert (a + b)[|a| + k].key == key;
    }
  }

  lemma HasOnlyKey(h: Header, tag: string)
    ensures HasKey([h], tag) <==> h.key == tag
  {
    assert [h][0] == h;
  }

  // ----- the program: pointers into the argument, headers pushed onto the frame

  class SendFrame {
    var destination: string
    var headers: seq<Header>
    var payload: string

    constructor (destination: string)
      ensures this.destination == destination && headers == [] && payload == ""
    {
      this.destination, headers, payload := destination, [], "";
    }

    /** One piece text[ptr..end]; says whether its key is the tag. */
    method FillKvHeader(text: string, ptr: nat, end: nat, tag: string) returns (custom: bool)
      requires ptr <= end <= |text|
      modifies this`headers
      ensures headers == old(headers) + PairIn(text, ptr, end)
      ensures custom <==> HasKey(PairIn(text, ptr, end), tag)
    {
      custom := false;
      Associates(headers, [], []);
      var f := Scan(text, '=', ptr, end);
      if f != end && ptr != f {
        var key := text[ptr..f];
        f := f + 1;
        var val := text[f..end];
        if key == "" || val == "" { return; }
        custom := key == tag;
        headers := headers + [Header(key, val)];
        HasOnlyKey(Header(key, val), tag);
      }
    }

    /** One turn of the loop: the piece from ptr to curr, if it is not empty. */
    method TakePiece(text: string, ptr: nat, curr: nat, tag: string, ghost left: seq<Header>)
      returns (custom: bool, ghost rest: seq<Header>)
      requires ptr <= |text| && curr == Scan(text, '&', ptr, |text|) && left == ParseFrom(text, ptr)
      modifies this`headers
      ensures rest == ParseFrom(text, curr + 1) && headers + rest == old(headers) + left
      ensures HasKey(left, tag) <==> custom || HasKey(rest, tag)
    {
      custom, rest := false, ParseFrom(text, curr + 1);
      NextPairAt(headers, text, ptr, curr, tag);
      if ptr != curr { custom := FillKvHeader(text, ptr, curr, tag); }
    }

    /** The pointer loop. After the last piece ptr is one past the end, and is not used again. */
    method SplitKvHeader(text: string, tag: string) returns (custom: bool)
      modifies this`headers
      ensures headers == old(headers) + Parse(text)
      ensures custom <==> HasKey(Parse(text), tag)
    {
      custom := false;
      var ptr, curr, end := 0, 0, |text|;
      ghost var all := ParseFrom(text, 0);
      ghost var goal, left := headers + all, all;
      while curr != end && ptr != end
        invariant curr <= end && ptr <= end + 1 && (if curr == end then end <= ptr else ptr <= end)
        invariant left == ParseFrom(text, ptr) && headers + left == goal
        invariant custom || HasKey(left, tag) <==> HasKey(all, tag)
        decreases end + 1 - ptr
      {
        curr := Scan(text, '&', ptr, end);
        var more;
        more, left := TakePiece(text, ptr, curr, tag, left);
        custom := custom || more;
        ptr := curr + 1;
      }
      NothingLeft(text, ptr);
      Associates(headers, [], []);
      FromStart(text);
    }

    /** Headers from every non-empty string argument from position `from` on. */
    method FillHeaders(args: seq<Arg>, from: nat, tag: string) returns (custom: bool)
      modifies this`headers
      ensures headers == old(headers) + ArgsFrom(args, from)
      ensures custom <==> HasKey(ArgsFrom(args, from), tag)
    {
      custom := false;
      ghost var all := ArgsFrom(args, from);
      ghost var goal := headers + all;
      var i := from;
      while i < |args|
        invariant headers + ArgsFrom(args, i) == goal
        invariant custom || HasKey(ArgsFrom(args, i), tag) <==> HasKey(all, tag)
        decreases |args| - i
      {
        var arg := args[i];
        NextArgument(headers, args, i, tag);
        if arg.isString && arg.value.Some? && |arg.value.value| > 0 {
          var rc := SplitKvHeader(arg.value.value, tag);
          if rc { custom := true; }
        }
        i := i + 1;
      }
      assert ArgsFrom(args, i) == [];
      Associates(headers, [], []);
    }
  }

  /** Searching between pointers is searching the piece. */
  lemma {:induction false} ScanIsFind(s: string, c: char, ptr: nat, end: nat)
    requires ptr <= end <= |s|
    ensures Scan(s, c, ptr, end) == ptr + Find(s[ptr..end], c)
  {
    var piece, k, f := s[ptr..end], Scan(s, c, ptr, end), Find(s[ptr..end], c);
    assert forall j :: 0 <= j < |piece| ==> piece[j] == s[ptr + j];
    assert k < end ==> piece[k - ptr] == c;
    assert ptr + f < end ==> s[ptr + f] == c;
  }

  lemma {:induction false} PairAt(text: string, ptr: nat, end: nat)
    requires ptr <= end <= |text|
    ensures PairIn(text, ptr, end) == Pair(text[ptr..end])
  {
    var piece, f := text[ptr..end], Scan(text, '=', ptr, end);
    ScanIsFind(text, '=', ptr, end);
    assert piece[..f - ptr] == text[ptr..f];
    if f + 1 < end { assert piece[f - ptr + 1..] == text[f + 1..end]; }
  }

  lemma Associates(a: seq<Header>, b: seq<Header>, c: seq<Header>)
    ensures a + (b + c) == (a + b) + c
    ensures a + [] == a
  {
  }

  lemma {:induction false} NextArgument(before: seq<Header>, args: seq<Arg>, i: nat, tag: string)
    requires i < |args|
    ensures var text := args[i].value; var rest := ArgsFrom(args, i + 1);
      if args[i].isString && text.Some? && |text.value| > 0
      then before + ArgsFrom(args, i) == before + Parse(text.value) + rest
           && (HasKey(ArgsFrom(args, i), tag) <==> HasKey(Parse(text.value), tag) || HasKey(rest, tag))
      else ArgsFrom(args, i) == rest
  {
    var given, rest := ParseArg(args[i]), ArgsFrom(args, i + 1);
    ArgumentsFollow(args, i);
    Associates(before, given, rest);
    HasKeySplits(given, rest, tag);
  }

  lemma {:induction false} ArgumentsFollow(args: seq<Arg>, i: nat)
    requires i < |args|
    ensures ArgsFrom(args, i) == ParseArg(args[i]) + ArgsFrom(args, i + 1)
    ensures ParseArg(args[i]) == if args[i].isString && args[i].value.Some? && |args[i].value.value| > 0
        then Parse(args[i].value.value) else []
  {
    PairsOfNothing();
    assert args[i..][1..] == args[i + 1..];
  }

  lemma NothingLeft(text: string, ptr: nat)
    requires ptr >= |text|
    ensures ParseFrom(text, ptr) == []
  {
    if ptr == |text| { assert FromPiece(text, ptr, ptr) == PairIn(text, ptr, ptr) + ParseFrom(text, ptr + 1) == []; }
  }

  lemma {:induction false} WalkStep(text: string, ptr: nat, curr: nat)
    requires ptr <= |text| && curr == Scan(text, '&', ptr, |text|)
    ensures ParseFrom(text, ptr) == FromPiece(text, ptr, curr)
  {
  }

  /** The first piece of a text and the rest, under any names. */
  lemma {:induction false} FirstAndRest(left: string, k: nat, piece: string, rest: string)
    requires k == Find(left, '&') && piece == left[..k] && (k < |left| ==> rest == left[k + 1..])
    ensures Parse(left) == Pair(piece) + if k == |left| then [] else Parse(rest)
  {
    if k == |left| {
      assert piece == left;
      LastPiece(left);
    } else {
      NextPiece(left, k);
    }
  }

  lemma {:induction false} ParseStep(text: string, ptr: nat, curr: nat)
    requires ptr <= |text| && curr == ptr + Find(text[ptr..], '&')
    ensures Parse(text[ptr..]) == Pair(text[ptr..curr]) + if curr == |text| then [] else Parse(text[curr + 1..])
  {
    Slices(text, ptr, curr);
    FirstAndRest(text[ptr..], curr - ptr, text[ptr..curr], if curr < |text| then text[curr + 1..] else "");
  }

  /** Walking by pieces is splitting and keeping the well-formed ones. */
  lemma {:induction false} WalkIsParse(text: string, ptr: nat)
    requires ptr <= |text|
    ensures ParseFrom(text, ptr) == Parse(text[ptr..])
    decreases |text| - ptr
  {
    var curr := Scan(text, '&', ptr, |text|);
    if curr == |text| { NothingLeft(text, curr + 1); } else { WalkIsParse(text, curr + 1); }
    PieceIsParse(text, ptr, curr);
    WalkStep(text, ptr, curr);
  }

  lemma {:induction false} PieceIsParse(text: string, ptr: nat, curr: nat)
    requires ptr <= |text| && curr == Scan(text, '&', ptr, |text|)
    requires ParseFrom(text, curr + 1) == if curr == |text| then [] else Parse(text[curr + 1..])
    ensures FromPiece(text, ptr, curr) == Parse(text[ptr..])
  {
    PairAt(text, ptr, curr);
    FindsNext(text, ptr, curr);
    ParseStep(text, ptr, curr);
    FromPieceIs(text, ptr, curr);
    Compose(FromPiece(text, ptr, curr), PairIn(text, ptr, curr), ParseFrom(text, curr + 1),
            Parse(text[ptr..]), Pair(text[ptr..curr]), if curr == |text| then [] else Parse(text[curr + 1..]));
  }

  lemma FromPieceIs(text: string, ptr: nat, curr: nat)
    requires ptr <= curr <= |text|
    ensures FromPiece(text, ptr, curr) == PairIn(text, ptr, curr) + ParseFrom(text, curr + 1)
  {
  }

  lemma Compose(x: seq<Header>, a: seq<Header>, b: seq<Header>, y: seq<Header>, c: seq<Header>, d: seq<Header>)
    requires x == a + b && y == c + d && a == c && b == d
    ensures x == y
  {
  }

  lemma {:induction false} FindsNext(text: string, ptr: nat, curr: nat)
    requires ptr <= |text| && curr == Scan(text, '&', ptr, |text|)
    ensures curr == ptr + Find(text[ptr..], '&')
  {
    ScanIsFind(text, '&', ptr, |text|);
    assert text[ptr..|text|] == text[ptr..];
  }

  lemma FromStart(text: string)
    ensures ParseFrom(text, 0) == Parse(text)
  {
    WalkIsParse(text, 0);
    assert text[0..] == text;
  }

  /** The piece at ptr, after the pairs found before it. */
  lemma {:induction false} NextPairAt(before: seq<Header>, text: string, ptr: nat, curr: nat, tag: string)
    requires ptr <= |text| && curr == Scan(text, '&', ptr, |text|)
    ensures before + ParseFrom(text, ptr) == before + PairIn(text, ptr, curr) + ParseFrom(text, curr + 1)
    ensures HasKey(ParseFrom(text, ptr), tag) <==>
        HasKey(PairIn(text, ptr, curr), tag) || HasKey(ParseFrom(text, curr + 1), tag)
    ensures ptr == curr ==> before + PairIn(text, ptr, curr) == before && !HasKey(PairIn(text, ptr, curr), tag)
  {
    var pair, rest := PairIn(text, ptr, curr), ParseFrom(text, curr + 1);
    WalkStep(text, ptr, curr);
    HasKeySplits(pair, rest, tag);
    Associates(before, pair, rest);
  }

  lemma Slices(text: string, ptr: nat, curr: nat)
    requires ptr <= curr <= |text|
    ensures text[ptr..][..curr - ptr] == text[ptr..curr] && (curr == |text| ==> text[ptr..] == text[ptr..curr])
    ensures curr < |text| ==> text[ptr..][curr - ptr + 1..] == text[curr + 1..]
  {
  }

  lemma PairsOfNothing()
    ensures Parse("") == []
  {
    assert Split("", '&') == [""];
    assert [""][1..] == [];
  }

  lemma PairsOfFirst(piece: string, rest: seq<string>)
    ensures Pairs([piece] + rest) == Pair(piece) + Pairs(rest)
  {
    assert ([piece] + rest)[1..] == rest;
  }

  lemma LastPiece(s: string)
    requires Find(s, '&') == |s|
    ensures Parse(s) == Pair(s)
  {
    SplitLast(s, '&');
    assert [s] + [] == [s];
    PairsOfFirst(s, []);
  }

  /** The first piece and what follows its separator. */
  lemma NextPiece(s: string, k: nat)
    requires k == Find(s, '&') < |s|
    ensures Parse(s) == Pair(s[..k]) + Parse(s[k + 1..])
  {
    SplitStep(s, '&', k);
    PairsOfFirst(s[..k], Split(s[k + 1..], '&'));
  }

  const CONTENT_TYPE := "content-type"

  /** The frame capstomp_content sends: a JSON call adds its content type unless a header gave one. */
  method Content(json: bool, jsonType: string, destination: string, args: seq<Arg>) returns (frame: SendFrame)
    requires |args| >= 3 && forall k :: 0 <= k < 3 ==> args[k].isString
    ensures fresh(frame) && frame.payload == Text(args[2])
    ensures frame.destination == destination + if Text(args[1]) == "" then "" else "/" + Text(args[1])
    ensures var given := ArgsFrom(args, 3);
            frame.headers == given + if json && !HasKey(given, CONTENT_TYPE)
              then [Header(CONTENT_TYPE, jsonType)] else []
  {
    var full := destination;
    var key := Text(args[1]);
    if key != "" { full := full + "/" + key; }
    assert destination + "" == destination;
    frame := new SendFrame(full);
    AddHeaders(frame, json, CONTENT_TYPE, jsonType, args);
    frame.payload := Text(args[2]);
  }

  method AddHeaders(frame: SendFrame, json: bool, tag: string, jsonType: string, args: seq<Arg>)
    requires |args| >= 3
    modifies frame
    ensures frame.destination == old(frame.destination)
    ensures var given := ArgsFrom(args, 3);
            frame.headers == old(frame.headers) + given + if json && !HasKey(given, tag)
              then [Header(tag, jsonType)] else []
  {
    var custom := frame.FillHeaders(args, 3, tag);
    if !custom {
      if json { frame.headers := frame.headers + [Header(tag, jsonType)]; }
    }
  }

  function Text(a: Arg): string {
    if a.value.Some? then a.value.value else ""
  }

  // ----- laws of the parser

  lemma {:induction false} PairsJoin(a: seq<string>, b: seq<string>)
    ensures Pairs(a + b) == Pairs(a) + Pairs(b)
  {
    if a == [] {
      assert a + b == b;
    } else {
      PairsJoin(a[1..], b);
      assert (a + b)[0] == a[0] && (a + b)[1..] == a[1..] + b;
      Associates(Pair(a[0]), Pairs(a[1..]), Pairs(b));
    }
  }

  lemma SplitFirst(a: string, c: char, b: string)
    requires c !in a
    ensures Split(a + [c] + b, c) == [a] + Split(b, c)
  {
    FindFirst(a, c, b);
    Halved(a, c, b);
    SplitStep(a + [c] + b, c, |a|);
  }

  lemma Halved(a: string, c: char, b: string)
    ensures var s := a + [c] + b; s[..|a|] == a && s[|a| + 1..] == b
  {
  }

  lemma {:induction false} SplitJoins(a: string, c: char, b: string)
    ensures Split(a + [c] + b, c) == Split(a, c) + Split(b, c)
    decreases |a|
  {
    var k := Find(a, c);
    if k == |a| {
      SplitLast(a, c);
      SplitFirst(a, c, b);
    } else {
      var x, y := a[..k], a[k + 1..];
      SplitStep(a, c, k);
      SplitFirst(x, c, y + [c] + b);
      Regroups(a, c, k, b);
      SplitJoins(y, c, b);
      Grouped(x, Split(y, c), Split(b, c));
    }
  }

  lemma Grouped(x: string, ys: seq<string>, bs: seq<string>)
    ensures [x] + (ys + bs) == ([x] + ys) + bs
  {
  }

  lemma Regroups(a: string, c: char, k: nat, b: string)
    requires k < |a| && a[k] == c
    ensures a + [c] + b == a[..k] + [c] + (a[k + 1..] + [c] + b)
  {
    assert a == a[..k] + [c] + a[k + 1..];
  }

  /** Parsing a & b is parsing a, then b. */
  lemma ParseJoins(a: string, b: string)
    ensures Parse(a + "&" + b) == Parse(a) + Parse(b)
  {
    SplitJoins(a, '&', b);
    PairsJoin(Split(a, '&'), Split(b, '&'));
  }

  /** Headers that can be written down: keys without '=' or '&', values without '&', neither empty. */
  predicate Printable(h: Header) {
    h.key != "" && '=' !in h.key && '&' !in h.key && h.value != "" && '&' !in h.value
  }

  predicate AllPrintable(hs: seq<Header>) {
    forall k :: 0 <= k < |hs| ==> Printable(hs[k])
  }

  function PrintOne(h: Header): string {
    h.key + "=" + h.value
  }

  function Print(hs: seq<Header>): string {
    if hs == [] then ""
    else if |hs| == 1 then PrintOne(hs[0])
    else PrintOne(hs[0]) + "&" + Print(hs[1..])
  }

  lemma ParseOne(h: Header)
    requires Printable(h)
    ensures Parse(PrintOne(h)) == [h]
  {
    var s := PrintOne(h);
    FindNone(s, '&');
    LastPiece(s);
    FindFirst(h.key, '=', h.value);
    assert s[..|h.key|] == h.key && s[|h.key| + 1..] == h.value;
  }

  /** The piece is this key and value around its first '=', neither of them empty. */
  predicate Writes(piece: string, key: string, value: string) {
    key != "" && value != "" && '=' !in key && piece == key + "=" + value
  }

  /** A piece is a header exactly when it writes one; any other piece, such as one without '=', is dropped. With
      ParseJoins this says what every text parses to. */
  lemma PieceGivesIff(piece: string, key: string, value: string)
    requires '&' !in piece
    ensures Parse(piece) == [Header(key, value)] <==> Writes(piece, key, value)
    ensures Parse(piece) == [] <==> forall k, v :: !Writes(piece, k, v)
  {
    FindNone(piece, '&');
    LastPiece(piece);
    PairWrites(piece);
    if Writes(piece, key, value) { WritesPair(piece, key, value); }
    if k, v :| Writes(piece, k, v) { WritesPair(piece, k, v); }
  }

  lemma WritesPair(piece: string, key: string, value: string)
    requires Writes(piece, key, value)
    ensures Pair(piece) == [Header(key, value)]
  {
    FindFirst(key, '=', value);
    assert piece == key + ['='] + value;
    assert piece[..|key|] == key && piece[|key| + 1..] == value;
  }

  lemma PairWrites(piece: string)
    ensures Pair(piece) != [] ==> |Pair(piece)| == 1 && Writes(piece, Pair(piece)[0].key, Pair(piece)[0].value)
  {
    var f := Find(piece, '=');
    if 0 < f && f + 1 < |piece| {
      assert piece[f] == '=' && piece == piece[..f] + "=" + piece[f + 1..];
      assert forall j :: 0 <= j < f ==> piece[..f][j] == piece[j];
    }
  }

  /** Printing headers and parsing the text gives them back. */
  lemma {:induction false} PrintThenParse(hs: seq<Header>)
    requires AllPrintable(hs)
    ensures Parse(Print(hs)) == hs
  {
    if hs == [] {
      PairsOfNothing();
    } else if |hs| == 1 {
      ParseOne(hs[0]);
    } else {
      var h, rest := hs[0], hs[1..];
      assert hs == [h] + rest;
      ParseOne(h);
      PrintThenParse(rest);
      ParseJoins(PrintOne(h), Print(rest));
    }
  }

  /** Whatever the argument, only headers that can be written down come out. */
  lemma {:induction false} ParsedIsPrintable(s: string)
    ensures AllPrintable(Parse(s))
    decreases |s|
  {
    var k := Find(s, '&');
    if k == |s| {
      LastPiece(s);
      PairIsPrintable(s);
    } else {
      NextPiece(s, k);
      PairIsPrintable(s[..k]);
      ParsedIsPrintable(s[k + 1..]);
    }
  }

  lemma PairIsPrintable(piece: string)
    requires '&' !in piece
    ensures AllPrintable(Pair(piece))
  {
    var k := Find(piece, '=');
    assert forall d :: d in piece[..k] ==> d in piece;
    if k < |piece| { assert forall d :: d in piece[k + 1..] ==> d in piece; }
  }

  /** The headers some argument denotes are exactly the printable ones, and printing what was parsed
      is a normal form of the argument. */
  lemma ParseRange(hs: seq<Header>)
    ensures (exists s :: Parse(s) == hs) <==> AllPrintable(hs)
    ensures AllPrintable(hs) ==> Parse(Print(hs)) == hs
  {
    if AllPrintable(hs) { PrintThenParse(hs); }
    if s :| Parse(s) == hs { ParsedIsPrintable(s); }
  }

  function JoinArgs(args: seq<Arg>): string {
    if args == [] then ""
    else (if args[0].isString then Text(args[0]) else "") + "&" + JoinArgs(args[1..])
  }

  /** Spreading headers over several arguments is the same as joining them with '&'. */
  lemma {:induction false} ArgsJoin(args: seq<Arg>)
    ensures ParseArgs(args) == Parse(JoinArgs(args))
  {
    PairsOfNothing();
    if args != [] {
      ArgsJoin(args[1..]);
      ParseJoins(if args[0].isString then Text(args[0]) else "", JoinArgs(args[1..]));
    }
  }
}
