/** The pool name of a URI, and what it determines. */
module Endpoint {
  import opened Prelude

  datatype Uri = Uri(login: string, address: string, path: string, fragment: string)

  /** endpoint(): login, '@', address with port, path, '#', fragment. */
  function Name(u: Uri): string {
    u.login + "@" + u.address + u.path + "#" + u.fragment
  }

  /** Read a name back: login up to the first '@', fragment after the first '#' that follows it,
      and the address up to the first '/' in between. */
  function Decode(name: string): Uri {
    DecodeRest(name[..Find(name, '@')], Past(name, '@'))
  }

  /** What follows the first c. */
  function Past(s: string, c: char): string {
    var k := Find(s, c);
    if k < |s| then s[k + 1..] else ""
  }

  function DecodeRest(login: string, rest: string): Uri {
    var hash := Find(rest, '#');
    var head := rest[..hash];
    var slash := Find(head, '/');
    Uri(login, head[..slash], head[slash..], if hash < |rest| then rest[hash + 1..] else "")
  }

  /** No '@' in the login, and no '#' before the fragment. */
  predicate Splittable(u: Uri) {
    '@' !in u.login && '#' !in u.address && '#' !in u.path
  }

  /** Also the path, if any, is where the first '/' after the login is. */
  predicate WellFormed(u: Uri) {
    Splittable(u) && '/' !in u.address && (u.path != "" ==> u.path[0] == '/')
  }

  lemma NameSplits(u: Uri)
    requires Splittable(u)
    ensures Find(Name(u), '@') == |u.login|
    ensures Name(u)[|u.login| + 1..] == u.address + u.path + "#" + u.fragment
    ensures Find(u.address + u.path + "#" + u.fragment, '#') == |u.address + u.path|
    ensures Name(u)[..|u.login|] == u.login
  {
    var rest := u.address + u.path + "#" + u.fragment;
    assert Name(u) == u.login + ['@'] + rest;
    FindFirst(u.login, '@', rest);
    assert rest == (u.address + u.path) + ['#'] + u.fragment;
    FindFirst(u.address + u.path, '#', u.fragment);
  }

  /** What decoding reads out of a name. */
  lemma DecodedParts(u: Uri)
    requires Splittable(u)
    ensures var v, head := Decode(Name(u)), u.address + u.path;
            && v.login == u.login && v.fragment == u.fragment
            && v.address == head[..Find(head, '/')] && v.path == head[Find(head, '/')..]
  {
    NameSplits(u);
    var rest, head := u.address + u.path + "#" + u.fragment, u.address + u.path;
    assert rest[..|head|] == head;
    assert rest[|head| + 1..] == u.fragment;
  }

  /** With no '@' in the login and no '#' in address and path, a pool's name determines the login, the
      fragment, and address and path put together. */
  lemma NameFixesFragment(u: Uri)
    requires Splittable(u)
    ensures Decode(Name(u)).fragment == u.fragment
    ensures Decode(Name(u)).login == u.login
    ensures Decode(Name(u)).address + Decode(Name(u)).path == u.address + u.path
  {
    DecodedParts(u);
    Halves(u.address + u.path, Find(u.address + u.path, '/'));
  }

  lemma Halves(s: string, k: nat)
    requires k <= |s|
    ensures s[..k] + s[k..] == s
  {
  }

  lemma SlashSplits(address: string, path: string)
    requires '/' !in address && (path != "" ==> path[0] == '/')
    ensures Find(address + path, '/') == |address|
  {
    if path == "" {
      assert address + path == address;
      FindNone(address, '/');
    } else {
      assert address + path == address + ['/'] + path[1..];
      FindFirst(address, '/', path[1..]);
    }
  }

  /** Round trip: a well-formed URI is read back from its pool's name. */
  lemma NameDecodes(u: Uri)
    requires WellFormed(u)
    ensures Decode(Name(u)) == u
  {
    DecodedParts(u);
    SlashSplits(u.address, u.path);
    var head := u.address + u.path;
    assert head[..|u.address|] == u.address && head[|u.address|..] == u.path;
  }

  /** The other round trip: a text with an '@' and a '#' somewhere after it is the name of what it decodes to. */
  lemma DecodeNames(name: string, a: nat, h: nat)
    requires a < h < |name| && name[a] == '@' && name[h] == '#'
    ensures Name(Decode(name)) == name
  {
    SplitsAt(name, '@', a);
    var at := Find(name, '@');
    var rest := name[at + 1..];
    assert rest[h - at - 1] == '#';
    RestJoins(name[..at], rest, h - at - 1);
    assert Decode(name) == DecodeRest(name[..at], rest);
  }

  /** The part after the '@', decoded and put together again. */
  lemma RestJoins(login: string, rest: string, h: nat)
    requires h < |rest| && rest[h] == '#'
    ensures Name(DecodeRest(login, rest)) == login + "@" + rest
  {
    SplitsAt(rest, '#', h);
    var hash := Find(rest, '#');
    Rejoin(login, rest[..hash], Find(rest[..hash], '/'), rest[hash + 1..]);
  }

  lemma Rejoin(login: string, head: string, slash: nat, fragment: string)
    requires slash <= |head|
    ensures Name(Uri(login, head[..slash], head[slash..], fragment)) == login + "@" + (head + "#" + fragment)
  {
    assert head[..slash] + head[slash..] == head;
    assert login + "@" + head[..slash] + head[slash..] == login + "@" + head;
  }

  // ----- when a name fixes the fragment

  /** What stands between the first '@' of a URI's name and the '#' of its fragment. */
  function Head(u: Uri): string {
    (if '@' in u.login then Past(u.login, '@') + "@" else "") + (u.address + u.path)
  }

  lemma PastAt(u: Uri)
    ensures Past(Name(u), '@') == Head(u) + "#" + u.fragment
  {
    var tail := u.address + u.path + "#" + u.fragment;
    if '@' in u.login {
      SplitsLogin(u.login, tail);
      assert Past(u.login, '@') + "@" + tail == Head(u) + "#" + u.fragment;
    } else {
      FindFirst(u.login, '@', tail);
      assert (u.login + ['@'] + tail)[|u.login| + 1..] == tail;
    }
    assert Name(u) == u.login + ['@'] + tail;
  }

  lemma SplitsLogin(login: string, tail: string)
    requires '@' in login
    ensures Past(login + ['@'] + tail, '@') == Past(login, '@') + "@" + tail
  {
    var k :| 0 <= k < |login| && login[k] == '@';
    SplitsAt(login, '@', k);
    var at := Find(login, '@');
    var more := login[at + 1..] + ['@'] + tail;
    assert login + ['@'] + tail == login[..at] + ['@'] + more;
    FindFirst(login[..at], '@', more);
    assert (login[..at] + ['@'] + more)[at + 1..] == more;
  }

  /** No '#' between the first '@' and the fragment, as in any URI cut at its first '#'. */
  predicate Unhashed(u: Uri) {
    '#' !in Head(u)
  }

  lemma PastHash(head: string, fragment: string)
    ensures Past(head + "#" + fragment, '#') == fragment <==> '#' !in head
  {
    var rest := head + "#" + fragment;
    if '#' in head {
      var k :| 0 <= k < |head| && head[k] == '#';
      assert rest[k] == '#';
      FindBefore(rest, '#', k);
      assert |Past(rest, '#')| > |fragment|;
    } else {
      FindFirst(head, '#', fragment);
      assert rest == head + ['#'] + fragment;
      assert rest[|head| + 1..] == fragment;
    }
  }

  /** Decoding a name gives the URI's own fragment if and only if nothing before it has a '#'. */
  lemma DecodesFragmentIff(u: Uri)
    ensures Decode(Name(u)).fragment == u.fragment <==> Unhashed(u)
  {
    PastAt(u);
    PastHash(Head(u), u.fragment);
    assert Decode(Name(u)).fragment == Past(Past(Name(u), '@'), '#');
  }

  /** Two URIs with one pool have one destination when both were cut at their first '#', or both at
      their last. */
  lemma SameNameSameFragment(u: Uri, v: Uri)
    requires Name(u) == Name(v)
    requires (Unhashed(u) && Unhashed(v)) || ('#' !in u.fragment && '#' !in v.fragment)
    ensures u.fragment == v.fragment
  {
    if Unhashed(u) && Unhashed(v) {
      DecodesFragmentIff(u);
      DecodesFragmentIff(v);
    } else {
      LastHash(u, v);
      LastHash(v, u);
    }
  }

  lemma NoneAfter(s: string, c: char, k: nat)
    requires k < |s| && c !in s[k + 1..]
    ensures forall j :: k < j < |s| ==> s[j] != c
  {
    forall j | k < j < |s| ensures s[j] != c { assert s[j] == s[k + 1..][j - k - 1]; }
  }

  lemma LastHash(u: Uri, v: Uri)
    requires Name(u) == Name(v) && '#' !in v.fragment
    ensures |v.fragment| <= |u.fragment|
    ensures |v.fragment| == |u.fragment| ==> v.fragment == u.fragment
  {
    var n, k := Name(u), |Name(u)| - |u.fragment| - 1;
    assert n[k] == '#' && n[k + 1..] == u.fragment;
    var m := |n| - |v.fragment| - 1;
    assert Name(v)[m + 1..] == v.fragment;
    NoneAfter(n, '#', m);
  }

  /** Exactly one '#' follows the first '@'. */
  predicate OneHash(name: string) {
    '#' !in Past(Past(name, '@'), '#')
  }

  /** Some URI has this name and the fragment that follows position h after the '@'. */
  lemma HashSplits(name: string, h: nat) returns (v: Uri)
    requires Find(name, '@') < |name| && h < |Past(name, '@')| && Past(name, '@')[h] == '#'
    ensures Name(v) == name && v.fragment == Past(name, '@')[h + 1..]
  {
    var at, rest := Find(name, '@'), Past(name, '@');
    v := Uri(name[..at], rest[..h], "", rest[h + 1..]);
    assert rest == rest[..h] + "#" + rest[h + 1..];
    assert name == name[..at] + "@" + rest;
    assert Name(v) == name[..at] + "@" + (rest[..h] + "#" + rest[h + 1..]);
  }

  lemma NamesHash(u: Uri)
    ensures Find(Name(u), '@') < |Name(u)| && |Head(u)| < |Past(Name(u), '@')|
    ensures Past(Name(u), '@')[|Head(u)|] == '#' && Past(Name(u), '@')[|Head(u)| + 1..] == u.fragment
  {
    PastAt(u);
    assert Name(u)[|u.login|] == '@';
    FindBefore(Name(u), '@', |u.login|);
  }

  lemma OnlyHash(rest: string, h: nat)
    requires h < |rest| && rest[h] == '#' && '#' !in Past(rest, '#')
    ensures h == Find(rest, '#')
  {
    FindBefore(rest, '#', h);
    NoneAfter(rest, '#', Find(rest, '#'));
  }

  lemma OneHashFixes(u: Uri, v: Uri)
    requires Name(v) == Name(u) && OneHash(Name(u))
    ensures v.fragment == u.fragment
  {
    NamesHash(u);
    NamesHash(v);
    OnlyHash(Past(Name(u), '@'), |Head(u)|);
    OnlyHash(Past(Name(u), '@'), |Head(v)|);
  }

  lemma TwoHashesLeaveAChoice(u: Uri) returns (v: Uri)
    requires !OneHash(Name(u))
    ensures Name(v) == Name(u) && v.fragment != u.fragment
  {
    var rest := Past(Name(u), '@');
    NamesHash(u);
    FindBefore(rest, '#', |Head(u)|);
    var first := Find(rest, '#');
    var k :| 0 <= k < |rest[first + 1..]| && rest[first + 1..][k] == '#';
    v := HashSplits(Name(u), if first == |Head(u)| then first + 1 + k else first);
    assert |v.fragment| != |u.fragment|;
  }

  /** A pool's name leaves no choice of destination if and only if it has one '#' after its first '@'. */
  lemma FragmentFixedIff(u: Uri)
    ensures (forall v :: Name(v) == Name(u) ==> v.fragment == u.fragment) <==> OneHash(Name(u))
  {
    if OneHash(Name(u)) {
      forall v | Name(v) == Name(u) ensures v.fragment == u.fragment { OneHashFixes(u, v); }
    } else {
      var v := TwoHashesLeaveAChoice(u);
    }
  }

  /** With login, address and path alike readable, a name fixes those too. */
  lemma SameNameSamePlace(u: Uri, v: Uri)
    requires Name(u) == Name(v) && Splittable(u) && Splittable(v)
    ensures u.login == v.login && u.address + u.path == v.address + v.path && u.fragment == v.fragment
  {
    NameFixesFragment(u);
    NameFixesFragment(v);
  }

  /** Raw text with two hashes, as "/v#a#b" with path "/v" and parts "a" and "b": both readings share a
      pool, so the condition fails for either. */
  lemma HashInPathIsAmbiguous(login: string, address: string, path: string, a: string, b: string)
    ensures var u, v := Uri(login, address, path, a + "#" + b), Uri(login, address, path + "#" + a, b);
            Name(u) == Name(v) && u.fragment != v.fragment && !OneHash(Name(u))
  {
    var u, v := Uri(login, address, path, a + "#" + b), Uri(login, address, path + "#" + a, b);
    Joined(u);
    Joined(v);
    assert path + "#" + (a + "#" + b) == (path + "#" + a) + "#" + b;
    assert |u.fragment| > |v.fragment|;
    FragmentFixedIff(u);
  }

  lemma Joined(u: Uri)
    ensures Name(u) == u.login + "@" + u.address + (u.path + "#" + u.fragment)
  {
  }
}
