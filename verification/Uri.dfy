/** Uri parsing and printing (gearbox/core/Uri.cc). */
module Uris {
  import opened Outcomes
  import opened Text

  /** Uri::Private. */
  datatype Parts = Parts(
    scheme: string, username: string, password: string, hostname: string,
    port: int, path: string, query: string, fragment: string)

  const Blank := Parts("", "", "", "", 0, "", "", "")

  function LowerChar(c: char): char { if 'A' <= c <= 'Z' then ((c as int) + 32) as char else c }

  function Lower(s: string): (r: string)
    ensures |r| == |s| && forall i | 0 <= i < |s| :: r[i] == LowerChar(s[i])
  {
    seq(|s|, i requires 0 <= i < |s| => LowerChar(s[i]))
  }

  predicate Known(scheme: string) { scheme == "http" || scheme == "https" || scheme == "file" }

  // ---- printing ------------------------------------------------------------------

  function DefaultPort(scheme: string): int {
    if scheme == "http" then 80 else if scheme == "https" then 443 else 0
  }

  function HostPort(u: Parts): string {
    if u.scheme == "file" then ""
    else if u.port == DefaultPort(u.scheme) then u.hostname
    else u.hostname + ":" + Show(u.port)
  }

  function UserText(u: Parts): string { u.username + After(':', u.password) }

  function UserInfo(u: Parts): string { if u.username == "" then "" else UserText(u) + "@" }

  function Authority(u: Parts): string {
    if u.scheme == "file" then "" else UserInfo(u) + HostPort(u)
  }

  /** A marker and a text, unless the text is empty. */
  function After(mark: char, s: string): string { if s == "" then "" else [mark] + s }

  /** What follows the slash after the authority. */
  function Tail(u: Parts): string { u.path + After('?', u.query) + After('#', u.fragment) }

  predicate Rooted(path: string) { path != "" && path[0] == '/' }

  /** Uri::str, for a known scheme. */
  function Print(u: Parts): string {
    u.scheme + "://" + Authority(u) + (if Rooted(u.path) then "" else "/") + Tail(u)
  }

  // ---- parsing -------------------------------------------------------------------

  /** Uri::parse_authority, for an object that is still blank. */
  function ParseAuthority(u: Parts, a: string): Option<Parts> {
    if a == "" then None
    else
      var at := Find(a, '@', 0);
      var user := if at < |a| then a[..at] else "";
      var host := if at < |a| then a[at + 1..] else a;
      Some(WithUserAndHost(u, user, host))
  }

  /** user[:password] and host[:port]. */
  function WithUserAndHost(u: Parts, user: string, host: string): Parts {
    var colon := Find(user, ':', 0);
    var p := Find(host, ':', 0);
    u.(username := user[..colon],
       password := if colon < |user| then user[colon + 1..] else "",
       hostname := Lower(host[..p]),
       port := if p < |host| then Atoi(host[p + 1..]) else 0)
  }

  /** Path, query and fragment. */
  function ParseTail(u: Parts, t: string): Parts {
    var hash := Find(t, '#', 0);
    var s := t[..hash];
    var mark := Find(s, '?', 0);
    u.(fragment := if hash < |t| then t[hash + 1..] else "",
       query := if mark < |s| then s[mark + 1..] else "",
       path := s[..mark])
  }

  function WithPort(u: Parts): Parts { if u.port == 0 then u.(port := DefaultPort(u.scheme)) else u }

  /** Uri::parse_uristr. The delimiter that ends the authority is dropped,
      whichever of the three it is. */
  function Parse(s: string): Option<Parts> {
    var pos := FindSep(s, 0);
    if pos == |s| then None
    else
      var scheme := Lower(s[..pos]);
      var rest := s[pos + 3..];
      if !Known(scheme) then None
      else if scheme == "file" then Some(Blank.(scheme := scheme, path := rest))
      else
        var cut := FindDelimiter(rest, 0);
        match ParseAuthority(Blank.(scheme := scheme), rest[..cut])
        case None => None
        case Some(u) => Some(WithPort(ParseTail(u, if cut < |rest| then rest[cut + 1..] else "")))
  }

  // ---- the object ----------------------------------------------------------------

  class Uri {
    var scheme: string
    var username: string
    var password: string
    var hostname: string
    var port: int
    var path: string
    var query: string
    var fragment: string

    function Value(): Parts
      reads this
    {
      Parts(scheme, username, password, hostname, port, path, query, fragment)
    }

    constructor ()
      ensures Value() == Blank
    {
      scheme, username, password, hostname := "", "", "", "";
      port, path, query, fragment := 0, "", "", "";
    }

    method ReadAuthority(authority: string) returns (ok: bool)
      requires username == "" && password == "" && port == 0
      modifies this
      ensures ok == ParseAuthority(old(Value()), authority).Some?
      ensures ok ==> Value() == ParseAuthority(old(Value()), authority).value
    {
      hide Find, Lower, Atoi;
      if authority == "" { return false; }
      var nl := authority;
      var pos := Find(nl, '@', 0);
      if pos < |nl| {
        username := nl[..pos];
        nl := nl[pos + 1..];
        pos := Find(username, ':', 0);
        if pos < |username| {
          password := username[pos + 1..];
          username := username[..pos];
        } else {
          assert username[..pos] == username;
        }
      }
      pos := Find(nl, ':', 0);
      if pos < |nl| {
        hostname := Lower(nl[..pos]);
        port := Atoi(nl[pos + 1..]);
      } else {
        assert nl[..pos] == nl;
        hostname := Lower(nl);
      }
      return true;
    }

    method ReadTail(rest: string)
      requires query == "" && fragment == ""
      modifies this
      ensures Value() == ParseTail(old(Value()), rest)
    {
      hide Find;
      var uri := rest;
      var pos := Find(uri, '#', 0);
      if pos < |uri| {
        fragment := uri[pos + 1..];
        uri := uri[..pos];
      }
      assert uri == rest[..pos];
      pos := Find(uri, '?', 0);
      if pos < |uri| {
        query := uri[pos + 1..];
        uri := uri[..pos];
      } else {
        assert uri[..pos] == uri;
      }
      path := uri;
    }

    method ReadUri(uristr: string) returns (ok: bool)
      requires Value() == Blank
      modifies this
      ensures ok == Parse(uristr).Some?
      ensures ok ==> Value() == Parse(uristr).value
    {
      hide FindSep, FindDelimiter, ParseAuthority, ParseTail, Lower;
      var pos := FindSep(uristr, 0);
      if pos == |uristr| { return false; }
      scheme := Lower(uristr[..pos]);
      if !Known(scheme) { return false; }
      var uri := uristr[pos + 3..];
      if scheme == "file" {
        path := uri;
        return true;
      }
      pos := FindDelimiter(uri, 0);
      ghost var named := Value();
      ok := ReadAuthority(uri[..pos]);
      if !ok { return false; }
      BlankTail(named, uri[..pos]);
      ReadTail(if pos < |uri| then uri[pos + 1..] else "");
      if port == 0 { port := DefaultPort(scheme); }
      return true;
    }

    /** hostport() throws for an object without a known scheme. */
    method Str() returns (text: Option<string>)
      ensures text == if Known(scheme) then Some(Print(Value())) else None
    {
      hide Authority;
      if !Known(scheme) { return None; }
      var r := scheme + "://" + Authority(Value()) + (if Rooted(path) then "" else "/");
      ghost var prefix := r;
      r := r + path;
      r := r + After('?', query);
      r := r + After('#', fragment);
      Concatenation(prefix, path, After('?', query), After('#', fragment));
      return Some(r);
    }
  }

  lemma Concatenation(a: string, b: string, c: string, d: string)
    ensures a + b + c + d == a + (b + c + d)
  {
  }

  lemma BlankTail(u: Parts, a: string)
    requires ParseAuthority(u, a).Some?
    ensures var v := ParseAuthority(u, a).value;
      v.query == u.query && v.fragment == u.fragment && v.path == u.path && v.scheme == u.scheme
  {
  }

  // ---- round trip ----------------------------------------------------------------

  predicate Undelimited(s: string) { forall i | 0 <= i < |s| :: !Delimiter(s[i]) }

  /** No field holds a character that would end it. */
  predicate Clean(u: Parts) {
    && (u.scheme == "http" || u.scheme == "https")
    && Undelimited(u.username) && '@' !in u.username && ':' !in u.username
    && Undelimited(u.password) && '@' !in u.password
    && Undelimited(u.hostname) && ':' !in u.hostname && Lower(u.hostname) == u.hostname
    && u.port != 0
    && '?' !in u.path && '#' !in u.path && '#' !in u.query
  }

  /** The Uris that survive printing: what a caller can check field by field. */
  predicate Printable(u: Parts) {
    if u.scheme == "file" then
      u == Blank.(scheme := "file", path := u.path) && Rooted(u.path)
    else
      && Clean(u)
      && (u.username == "" ==> u.password == "" && '@' !in u.hostname)
      && (u.username == "" && u.hostname == "" ==> u.port != DefaultPort(u.scheme))
      && !Rooted(u.path)
  }

  lemma FindNone(s: string, c: char)
    requires c !in s
    ensures Find(s, c, 0) == |s|
  {
    assert forall i | 0 <= i < |s| :: s[i] in s;
  }

  /** The first `c` of `a + [c] + b` is the one in the middle. */
  lemma FindMid(s: string, a: string, c: char, b: string)
    requires s == a + [c] + b && c !in a
    ensures Find(s, c, 0) == |a| && s[..|a|] == a && s[|a| + 1..] == b
  {
    FindAt(s, c, 0, |a|);
  }

  lemma TailReadsBack(u: Parts, v: Parts)
    requires '?' !in u.path && '#' !in u.path && '#' !in u.query
    ensures ParseTail(v, Tail(u)) == v.(path := u.path, query := u.query, fragment := u.fragment)
  {
    var s := u.path + After('?', u.query);
    assert '#' !in s;
    if u.fragment == "" {
      assert Tail(u) == s;
      FindNone(s, '#');
    } else {
      assert Tail(u) == s + ['#'] + u.fragment;
      FindMid(Tail(u), s, '#', u.fragment);
    }
    if u.query == "" {
      assert s == u.path;
      FindNone(s, '?');
    } else {
      assert s == u.path + ['?'] + u.query;
      FindMid(s, u.path, '?', u.query);
    }
  }

  lemma LowerIsLower(s: string)
    ensures Lower(Lower(s)) == Lower(s)
  {
  }

  /** User and password before the first '@'. */
  lemma AuthoritySplits(u: Parts, v: Parts)
    requires Printable(u) && u.scheme != "file"
    ensures ParseAuthority(v, Authority(u)) == Some(WithUserAndHost(v, UserText(u), HostPort(u)))
  {
    hide HostPort, WithUserAndHost, Lower, Undelimited;
    var a := Authority(u);
    AuthorityNotEmpty(u);
    if u.username == "" {
      NoAt(u);
      assert a == HostPort(u);
      FindNone(a, '@');
      assert UserText(u) == "";
    } else {
      var user := UserText(u);
      assert '@' !in user;
      assert a == user + ['@'] + HostPort(u);
      FindMid(a, user, '@', HostPort(u));
    }
  }

  lemma ShowIsPlain(n: int)
    ensures var s := Show(n); s != "" && '@' !in s && Undelimited(s)
  {
    var s := Show(n);
    assert forall i | 0 <= i < |s| :: s[i] == '-' || IsDigit(s[i]);
  }

  lemma NoAt(u: Parts)
    requires '@' !in u.hostname
    ensures '@' !in HostPort(u)
  {
    ShowIsPlain(u.port);
  }

  lemma AuthorityUndelimited(u: Parts)
    requires Clean(u)
    ensures Undelimited(Authority(u))
  {
    hide Show, Lower, Delimiter;
    ShowIsPlain(u.port);
    assert !Delimiter(':') && !Delimiter('@') by { Separators(); }
    assert Undelimited(HostPort(u)) && Undelimited(UserText(u));
  }

  lemma Separators()
    ensures !Delimiter(':') && !Delimiter('@')
  {
  }

  lemma AuthorityNotEmpty(u: Parts)
    requires u.scheme != "file"
    ensures Authority(u) == "" <==> u.username == "" && u.hostname == "" && u.port == DefaultPort(u.scheme)
  {
  }

  /** Host and port around the first ':'; a default port is not there. */
  lemma HostPortSplits(u: Parts)
    requires Printable(u) && u.scheme != "file"
    ensures var h := HostPort(u);
      var p := Find(h, ':', 0);
      && h[..p] == u.hostname
      && if u.port == DefaultPort(u.scheme) then p == |h| else p < |h| && Atoi(h[p + 1..]) == u.port
  {
    hide Show, Atoi;
    var h := HostPort(u);
    if u.port == DefaultPort(u.scheme) {
      FindNone(h, ':');
    } else {
      assert h == u.hostname + [':'] + Show(u.port);
      FindMid(h, u.hostname, ':', Show(u.port));
      AtoiShow(u.port);
    }
  }

  lemma AuthorityReadsBack(u: Parts, v: Parts)
    requires Printable(u) && u.scheme != "file" && v.scheme == u.scheme
    ensures ParseAuthority(v, Authority(u)).Some?
    ensures WithPort(ParseAuthority(v, Authority(u)).value)
      == v.(username := u.username, password := u.password, hostname := u.hostname, port := u.port)
  {
    hide Authority, HostPort, Atoi, Find, Lower, UserText, Undelimited, DefaultPort, ParseAuthority;
    AuthoritySplits(u, v);
    HostPortSplits(u);
    UserSplits(u);
  }

  lemma UserSplits(u: Parts)
    requires ':' !in u.username
    ensures var user := UserText(u);
      var colon := Find(user, ':', 0);
      && user[..colon] == u.username
      && (if colon < |user| then user[colon + 1..] else "") == u.password
  {
    var user := UserText(u);
    if u.password == "" {
      assert user == u.username;
      FindNone(user, ':');
    } else {
      assert user == u.username + [':'] + u.password;
      FindMid(user, u.username, ':', u.password);
    }
  }

  lemma SchemeReadsBack(scheme: string, rest: string)
    requires Known(scheme)
    ensures var s := scheme + "://" + rest;
      FindSep(s, 0) == |scheme| && s[..|scheme|] == scheme && s[|scheme| + 3..] == rest
    ensures Lower(scheme) == scheme
  {
    var s := scheme + "://" + rest;
    assert s[|scheme|..|scheme| + 3] == "://";
    assert forall i | 0 <= i < |scheme| :: s[i] == scheme[i] && scheme[i] != ':';
    FindSepAt(s, 0, |scheme|);
  }

  lemma FirstDelimiter(a: string, t: string)
    requires Undelimited(a)
    ensures FindDelimiter(a + "/" + t, 0) == |a|
  {
    var s := a + "/" + t;
    var r := FindDelimiter(s, 0);
    assert Delimiter(s[|a|]);
    assert forall i | 0 <= i < |a| :: s[i] == a[i];
  }

  /** Parsing a scheme, an authority, a slash and the rest. */
  lemma ParseShape(scheme: string, a: string, rest: string)
    requires (scheme == "http" || scheme == "https") && Undelimited(a)
    ensures var v := ParseAuthority(Blank.(scheme := scheme), a);
      Parse(scheme + "://" + (a + "/" + rest)) == if v.None? then None else Some(WithPort(ParseTail(v.value, rest)))
  {
    hide ParseAuthority, ParseTail, Find, FindSep, FindDelimiter, Lower, Undelimited;
    var all := a + "/" + rest;
    SchemeReadsBack(scheme, all);
    FirstDelimiter(a, rest);
    assert all[..|a|] == a && all[|a| + 1..] == rest;
  }

  lemma PrintShape(u: Parts, rest: string)
    requires Tail(u) == (if Rooted(u.path) then "/" else "") + rest
    ensures Print(u) == u.scheme + "://" + (Authority(u) + "/" + rest)
  {
    hide Authority, Tail;
    var a := u.scheme + "://";
    if Rooted(u.path) {
      assert Print(u) == a + Authority(u) + "" + ("/" + rest);
    } else {
      assert Tail(u) == rest;
      assert Print(u) == a + Authority(u) + "/" + rest;
    }
    Regroup(a, Authority(u), rest);
  }

  lemma Regroup(a: string, b: string, c: string)
    ensures a + b + "" + ("/" + c) == a + (b + "/" + c)
    ensures a + b + "/" + c == a + (b + "/" + c)
  {
  }

  lemma PrintableReadsBack(u: Parts)
    requires Printable(u)
    ensures Parse(Print(u)) == Some(u)
  {
    hide Authority, Tail, ParseAuthority, ParseTail, FindSep, Lower, Undelimited;
    if u.scheme == "file" {
      FileTail(u);
      assert Print(u) == u.scheme + "://" + u.path;
      SchemeReadsBack(u.scheme, u.path);
    } else {
      assert Tail(u) == "" + Tail(u);
      PrintShape(u, Tail(u));
      AuthorityUndelimited(u);
      ParseShape(u.scheme, Authority(u), Tail(u));
      var v := Blank.(scheme := u.scheme);
      AuthorityReadsBack(u, v);
      TailReadsBack(u, ParseAuthority(v, Authority(u)).value);
    }
  }

  lemma FileTail(u: Parts)
    requires u.scheme == "file" && u.query == "" && u.fragment == ""
    ensures Authority(u) == "" && Tail(u) == u.path
  {
  }

  // ---- only those --------------------------------------------------------------

  lemma HostIsClean(h: string)
    requires Undelimited(h) && ':' !in h
    ensures Undelimited(Lower(h)) && ':' !in Lower(h) && Lower(Lower(h)) == Lower(h)
  {
    LowerIsLower(h);
    assert forall i | 0 <= i < |h| :: h[i] in h;
  }

  lemma AuthorityIsClean(u: Parts, a: string)
    requires Undelimited(a) && ParseAuthority(u, a).Some?
    ensures var v := ParseAuthority(u, a).value;
      && Undelimited(v.username) && '@' !in v.username && ':' !in v.username
      && Undelimited(v.password) && '@' !in v.password
      && Undelimited(v.hostname) && ':' !in v.hostname && Lower(v.hostname) == v.hostname
  {
    hide Find, Atoi, Lower, Undelimited, WithUserAndHost;
    var at := Find(a, '@', 0);
    var user := if at < |a| then a[..at] else "";
    var host := if at < |a| then a[at + 1..] else a;
    BeforeFirst(a, '@');
    if at < |a| {
      Piece(a, 0, at, '@');
      Piece(a, at + 1, |a|, '@');
      assert a[..at] == a[0..at] && a[at + 1..|a|] == a[at + 1..];
    } else {
      assert Undelimited("") by { Piece(a, 0, 0, '@'); assert a[0..0] == ""; }
    }
    UserAndHostAreClean(u, user, host);
  }

  /** A piece of a text holds nothing that the text does not. */
  lemma Piece(s: string, i: nat, j: nat, c: char)
    requires i <= j <= |s|
    ensures Undelimited(s) ==> Undelimited(s[i..j])
    ensures c !in s ==> c !in s[i..j]
  {
    hide Delimiter;
    assert forall k | 0 <= k < j - i :: s[i..j][k] == s[i + k];
  }

  lemma BeforeFirst(s: string, c: char)
    ensures c !in s[..Find(s, c, 0)]
  {
  }

  lemma UserAndHostAreClean(u: Parts, user: string, host: string)
    requires Undelimited(user) && '@' !in user && Undelimited(host)
    ensures var v := WithUserAndHost(u, user, host);
      && Undelimited(v.username) && '@' !in v.username && ':' !in v.username
      && Undelimited(v.password) && '@' !in v.password
      && Undelimited(v.hostname) && ':' !in v.hostname && Lower(v.hostname) == v.hostname
  {
    hide Find, Atoi, Lower, Undelimited;
    var colon, p := Find(user, ':', 0), Find(host, ':', 0);
    BeforeFirst(user, ':');
    BeforeFirst(host, ':');
    Piece(user, 0, colon, '@');
    assert user[..colon] == user[0..colon];
    if colon < |user| {
      Piece(user, colon + 1, |user|, '@');
      assert user[colon + 1..|user|] == user[colon + 1..];
    } else {
      Piece(user, 0, 0, '@');
      assert user[0..0] == "";
    }
    Piece(host, 0, p, '@');
    assert host[..p] == host[0..p];
    HostIsClean(host[..p]);
  }

  lemma TailIsClean(u: Parts, t: string)
    ensures var v := ParseTail(u, t); '?' !in v.path && '#' !in v.path && '#' !in v.query
  {
    hide Find;
  }

  /** Whatever a parse yields has clean fields. */
  lemma ParsedIsClean(s: string, u: Parts)
    requires Parse(s) == Some(u)
    ensures if u.scheme == "file" then u == Blank.(scheme := "file", path := u.path) else Clean(u)
  {
    hide FindSep, FindDelimiter, ParseAuthority, ParseTail, Lower;
    var pos := FindSep(s, 0);
    var scheme, rest := Lower(s[..pos]), s[pos + 3..];
    if scheme != "file" {
      var cut := FindDelimiter(rest, 0);
      var v := Blank.(scheme := scheme);
      AuthorityIsClean(v, rest[..cut]);
      BlankTail(v, rest[..cut]);
      var w := ParseAuthority(v, rest[..cut]).value;
      TailIsClean(w, if cut < |rest| then rest[cut + 1..] else "");
      TailKeeps(w, if cut < |rest| then rest[cut + 1..] else "");
    }
  }

  lemma TailKeeps(u: Parts, t: string)
    ensures var v := ParseTail(u, t); v == u.(path := v.path, query := v.query, fragment := v.fragment)
  {
  }

  lemma HostFirst(u: Parts)
    requires u.scheme != "file"
    ensures |u.hostname| <= |HostPort(u)|
    ensures forall i | 0 <= i < |u.hostname| :: HostPort(u)[i] == u.hostname[i]
  {
    hide Show;
  }

  lemma HostWithAt(u: Parts)
    requires Clean(u) && u.username == "" && '@' in u.hostname
    ensures var a := Authority(u);
      var at := Find(a, '@', 0);
      at < |u.hostname| && at < |a| && a[..at] == u.hostname[..at] && a == HostPort(u)
  {
    hide Show, Lower, Undelimited, Authority, HostPort;
    NoUser(u);
    HostFirst(u);
    var a := HostPort(u);
    var at := Find(u.hostname, '@', 0);
    FindAt(a, '@', 0, at);
  }

  /** Without a user, the printed authority names no password, and an '@' in
      the host is taken for the end of a user. */
  lemma HostOnly(u: Parts, v: Parts)
    requires Clean(u) && u.username == "" && ParseAuthority(v, Authority(u)).Some?
    ensures var w := ParseAuthority(v, Authority(u)).value;
      && w.password == ""
      && ('@' in u.hostname ==> w.hostname != u.hostname)
  {
    hide Atoi, Find, HostPort, Authority, Undelimited;
    var a := Authority(u);
    if '@' in u.hostname {
      HostWithAt(u);
      var at := Find(a, '@', 0);
      FindNone(a[..at], ':');
      HostEnds(u, at);
    } else {
      NoAt(u);
      NoUser(u);
      FindNone(a, '@');
      FindNone("", ':');
    }
  }

  lemma NoUser(u: Parts)
    requires u.username == "" && u.scheme != "file"
    ensures Authority(u) == HostPort(u)
  {
    hide HostPort;
  }

  /** The host read after an '@' at `at` is shorter than the host printed. */
  lemma HostEnds(u: Parts, at: nat)
    requires ':' !in u.hostname && at < |u.hostname|
    ensures u.scheme != "file" ==> at < |HostPort(u)| && Find(HostPort(u)[at + 1..], ':', 0) < |u.hostname|
  {
    hide Show;
    if u.scheme != "file" {
      var rest := HostPort(u)[at + 1..];
      var end := |u.hostname| - at - 1;
      if u.port == DefaultPort(u.scheme) {
        assert |rest| == end;
      } else {
        assert rest[end] == ':';
      }
    }
  }

  /** Printing and then parsing gives the same Uri if and only if it is
      printable: every scheme, every port, every text in every field. */
  lemma UriRoundTrip(u: Parts)
    ensures Parse(Print(u)) == Some(u) <==> Printable(u)
  {
    hide Authority, Tail, ParseAuthority, ParseTail, Parse, Print, Clean;
    if Printable(u) {
      PrintableReadsBack(u);
    } else if Parse(Print(u)) == Some(u) {
      ParsedIsClean(Print(u), u);
      if u.scheme == "file" { FileRooted(u); } else { CleanSurvivor(u); }
    }
  }

  lemma Pair(a: string, b: string, c: string)
    ensures a + b + c == a + (b + c)
  {
  }

  lemma FileRooted(u: Parts)
    requires u == Blank.(scheme := "file", path := u.path) && Parse(Print(u)) == Some(u)
    ensures Rooted(u.path)
  {
    hide FindSep, Lower, Authority, Tail;
    var slash := if Rooted(u.path) then "" else "/";
    var rest := slash + u.path;
    FileTail(u);
    assert u.scheme + "://" + "" == u.scheme + "://";
    assert Print(u) == u.scheme + "://" + slash + u.path;
    Pair(u.scheme + "://", slash, u.path);
    SchemeReadsBack(u.scheme, rest);
    assert u.path == rest;
  }

  lemma CleanSurvivor(u: Parts)
    requires Clean(u) && Parse(Print(u)) == Some(u)
    ensures Printable(u)
  {
    hide Authority, ParseAuthority, ParseTail, Parse, Print, Lower, Undelimited;
    var rest := if Rooted(u.path) then Tail(u)[1..] else Tail(u);
    var shorter := if Rooted(u.path) then u.(path := u.path[1..]) else u;
    assert Tail(u) == (if Rooted(u.path) then "/" else "") + rest;
    assert Tail(shorter) == rest;
    PrintShape(u, rest);
    AuthorityUndelimited(u);
    ParseShape(u.scheme, Authority(u), rest);
    var v := Blank.(scheme := u.scheme);
    var w := ParseAuthority(v, Authority(u)).value;
    TailReadsBack(shorter, w);
    assert u.path == shorter.path;
    if u.username == "" { HostOnly(u, v); }
    AuthorityNotEmpty(u);
    EmptyAuthority(v);
  }

  lemma EmptyAuthority(u: Parts)
    ensures ParseAuthority(u, "").None?
  {
  }

  // ---- defaults and case ---------------------------------------------------------

  /** A host that is already in lower case has no letter from A to Z; other letters
      are not touched. */
  lemma LowerCase(s: string)
    ensures Lower(s) == s <==> forall i | 0 <= i < |s| :: !('A' <= s[i] <= 'Z')
    ensures forall i | 0 <= i < |s| :: !('A' <= Lower(s)[i] <= 'Z')
    ensures Lower("AZ") == "az"
  {
    assert LowerChar('A') == 'a' && LowerChar('Z') == 'z';
  }

  /** A plain host: the port is 80 for http and 443 for https. */
  lemma DefaultPorts(host: string, rest: string)
    requires host != "" && Undelimited(host) && '@' !in host && ':' !in host
    ensures var u := Parse("http" + "://" + (host + "/" + rest)); u.Some? && u.value.port == 80
    ensures var u := Parse("https" + "://" + (host + "/" + rest)); u.Some? && u.value.port == 443
  {
    hide ParseTail, Parse, Lower, Find;
    ParseShape("http", host, rest);
    ParseShape("https", host, rest);
    FindNone(host, '@');
    FindNone(host, ':');
    TailKeeps(ParseAuthority(Blank.(scheme := "http"), host).value, rest);
    TailKeeps(ParseAuthority(Blank.(scheme := "https"), host).value, rest);
  }

  /** These ports, and only these, are left out when a Uri is printed. */
  lemma ElidedPorts(u: Parts)
    requires u.scheme == "http" || u.scheme == "https"
    ensures HostPort(u) == u.hostname <==> (u.scheme == "http" && u.port == 80) || (u.scheme == "https" && u.port == 443)
  {
    ShowIsPlain(u.port);
    assert HostPort(u) != u.hostname ==> |HostPort(u)| > |u.hostname|;
  }

  // ---- what follows the authority ------------------------------------------------

  function Part(mark: char, s: Option<string>): string { if s.None? then "" else [mark] + s.value }

  function TextOf(s: Option<string>): string { if s.None? then "" else s.value }

  /** The syntax of section 3 of RFC 3986 after an authority: a path that is empty
      or starts with a slash, then a query, then a fragment. */
  predicate Rfc(rest: string, path: string, query: Option<string>, fragment: Option<string>) {
    && rest == path + Part('?', query) + Part('#', fragment)
    && (path == "" || path[0] == '/') && '?' !in path && '#' !in path
    && (query.Some? ==> '#' !in query.value)
  }

  /** What can follow an authority has such parts. */
  lemma RfcPartsExist(rest: string)
    requires rest == "" || Delimiter(rest[0])
    ensures exists path, query, fragment :: Rfc(rest, path, query, fragment)
  {
    var hash := Find(rest, '#', 0);
    var s := rest[..hash];
    var fragment := if hash < |rest| then Some(rest[hash + 1..]) else None;
    assert rest == s + Part('#', fragment);
    var mark := Find(s, '?', 0);
    var query := if mark < |s| then Some(s[mark + 1..]) else None;
    assert s == s[..mark] + Part('?', query);
    assert Rfc(rest, s[..mark], query, fragment);
  }

  lemma ParseTailOf(v: Parts, t: string, p: string, q: Option<string>, f: Option<string>)
    requires t == p + Part('?', q) + Part('#', f) && '?' !in p && '#' !in p && (q.Some? ==> '#' !in q.value)
    ensures ParseTail(v, t) == v.(path := p, query := TextOf(q), fragment := TextOf(f))
  {
    hide Find;
    var s := p + Part('?', q);
    assert '#' !in s;
    if f.None? {
      assert t == s;
      FindNone(s, '#');
    } else {
      assert t == s + ['#'] + f.value;
      FindMid(t, s, '#', f.value);
    }
    if q.None? {
      assert s == p;
      FindNone(s, '?');
    } else {
      assert s == p + ['?'] + q.value;
      FindMid(s, p, '?', q.value);
    }
  }

  lemma ParseAfterAuthority(scheme: string, a: string, rest: string)
    requires (scheme == "http" || scheme == "https") && Undelimited(a) && (rest == "" || Delimiter(rest[0]))
    ensures var v := ParseAuthority(Blank.(scheme := scheme), a);
      Parse(scheme + "://" + (a + rest)) ==
        if v.None? then None else Some(WithPort(ParseTail(v.value, if rest == "" then "" else rest[1..])))
  {
    hide ParseAuthority, ParseTail, Find, FindSep, Lower, FindDelimiter;
    var all := a + rest;
    SchemeReadsBack(scheme, all);
    var cut := FindDelimiter(all, 0);
    assert forall i | 0 <= i < |a| :: all[i] == a[i];
    assert rest != "" ==> all[|a|] == rest[0];
    assert cut == |a|;
    assert all[..cut] == a && all[cut..] == rest;
    assert rest != "" ==> all[cut + 1..] == rest[1..];
  }

  /** The code reads path, query and fragment as the RFC does. */
  predicate ReadAs(u: Parts, path: string, query: Option<string>, fragment: Option<string>) {
    u.path == (if path == "" then "" else path[1..]) && u.query == TextOf(query) && u.fragment == TextOf(fragment)
  }

  /** Nothing, a path, an empty query or fragment at the end, or an empty query
      before a fragment. */
  predicate Starts(rest: string) {
    rest == "" || rest[0] == '/' || |rest| == 1 || (rest[0] == '?' && rest[1] == '#')
  }

  /** A path: the delimiter that is dropped is its slash. */
  lemma TailWithPath(v: Parts, rest: string, path: string, query: Option<string>, fragment: Option<string>)
    requires Rfc(rest, path, query, fragment) && path != ""
    ensures ReadAs(ParseTail(v, rest[1..]), path, query, fragment) && Starts(rest)
  {
    hide ParseTail;
    assert rest[1..] == path[1..] + Part('?', query) + Part('#', fragment);
    ParseTailOf(v, rest[1..], path[1..], query, fragment);
  }

  lemma QueryStarts(rest: string, query: string, fragment: Option<string>)
    requires Rfc(rest, "", Some(query), fragment)
    ensures rest != "" && rest[1..] == query + Part('#', fragment)
    ensures Starts(rest) <==> query == ""
  {
    assert rest == ['?'] + query + Part('#', fragment);
    assert query != "" ==> rest[1] == query[0] && query[0] in query;
    assert query == "" && fragment.Some? ==> rest[1] == '#';
  }

  lemma PlainQueryTail(v: Parts, query: string, fragment: Option<string>)
    requires '?' !in query && '#' !in query
    ensures ParseTail(v, query + Part('#', fragment)) == v.(path := query, query := "", fragment := TextOf(fragment))
  {
    hide ParseTail;
    assert query + Part('?', None) == query;
    ParseTailOf(v, query + Part('#', fragment), query, None, fragment);
  }

  lemma MarkedQueryTail(v: Parts, p: string, q: string, fragment: Option<string>)
    requires '?' !in p && '#' !in p && '#' !in q
    ensures ParseTail(v, p + ['?'] + q + Part('#', fragment)) == v.(path := p, query := q, fragment := TextOf(fragment))
  {
    hide ParseTail;
    assert p + ['?'] + q == p + Part('?', Some(q));
    ParseTailOf(v, p + ['?'] + q + Part('#', fragment), p, Some(q), fragment);
  }

  /** A query is read as a path, or cut at its first question mark. */
  lemma QueryTail(v: Parts, query: string, fragment: Option<string>)
    requires '#' !in query
    ensures var w := ParseTail(v, query + Part('#', fragment));
      && w.fragment == TextOf(fragment)
      && (query == "" ==> w.path == "" && w.query == "")
      && (query != "" ==> w.path != "" || |w.query| < |query|)
  {
    hide ParseTail, Find, Part;
    if '?' in query {
      FirstMark(query);
      var m :| 0 <= m < |query| && query[m] == '?' && '?' !in query[..m];
      assert query == query[..m] + ['?'] + query[m + 1..];
      assert '#' !in query[..m] && '#' !in query[m + 1..];
      MarkedQueryTail(v, query[..m], query[m + 1..], fragment);
    } else {
      PlainQueryTail(v, query, fragment);
    }
  }

  lemma TailWithQuery(v: Parts, rest: string, query: string, fragment: Option<string>)
    requires Rfc(rest, "", Some(query), fragment)
    ensures rest != "" && (ReadAs(ParseTail(v, rest[1..]), "", Some(query), fragment) <==> Starts(rest))
  {
    QueryStarts(rest, query, fragment);
    QueryTail(v, query, fragment);
    hide ParseTail, Starts, Part, Rfc;
  }

  lemma FirstMark(s: string)
    requires '?' in s
    ensures exists m :: 0 <= m < |s| && s[m] == '?' && '?' !in s[..m]
  {
    var m := Find(s, '?', 0);
    assert m < |s| && s[m] == '?' && '?' !in s[..m];
  }

  lemma TailWithFragment(v: Parts, rest: string, fragment: string)
    requires Rfc(rest, "", None, Some(fragment))
    ensures rest != "" && (ReadAs(ParseTail(v, rest[1..]), "", None, Some(fragment)) <==> Starts(rest))
  {
    hide Find;
    assert rest == ['#'] + fragment && rest[1..] == fragment;
  }

  /** After any authority, the code reads path, query and fragment as the RFC
      does if and only if there is a path, or nothing, or just an empty query or
      fragment, or an empty query before a fragment. */
  lemma TailFollowsRfc(
    scheme: string, a: string, rest: string, path: string, query: Option<string>, fragment: Option<string>)
    requires (scheme == "http" || scheme == "https") && a != "" && Undelimited(a) && Rfc(rest, path, query, fragment)
    ensures Parse(scheme + "://" + (a + rest)).Some?
    ensures ReadAs(Parse(scheme + "://" + (a + rest)).value, path, query, fragment) <==> Starts(rest)
  {
    hide ParseAuthority, ParseTail, Parse;
    RestStarts(rest, path, query, fragment);
    ParseAfterAuthority(scheme, a, rest);
    NonEmptyAuthority(Blank.(scheme := scheme), a);
    var v := ParseAuthority(Blank.(scheme := scheme), a).value;
    if path != "" {
      TailWithPath(v, rest, path, query, fragment);
    } else if query.Some? {
      TailWithQuery(v, rest, query.value, fragment);
    } else if fragment.Some? {
      TailWithFragment(v, rest, fragment.value);
    } else {
      ParseTailOf(v, "", "", None, None);
    }
  }

  lemma RestStarts(rest: string, path: string, query: Option<string>, fragment: Option<string>)
    requires Rfc(rest, path, query, fragment)
    ensures rest == "" || Delimiter(rest[0])
  {
  }

  lemma NonEmptyAuthority(u: Parts, a: string)
    requires a != ""
    ensures ParseAuthority(u, a).Some?
  {
  }

  /** A query right after the authority is taken for the path, up to its own
      first question mark. */
  lemma QueryWithoutSlashIsPath(scheme: string, a: string, q: string)
    requires (scheme == "http" || scheme == "https") && a != "" && Undelimited(a) && '?' !in q && '#' !in q
    ensures var u := Parse(scheme + "://" + (a + ("?" + q)));
      u.Some? && u.value.path == q && u.value.query == "" && u.value.fragment == ""
  {
    hide ParseAuthority, ParseTail, Parse;
    var rest := "?" + q;
    ParseAfterAuthority(scheme, a, rest);
    NonEmptyAuthority(Blank.(scheme := scheme), a);
    assert rest[1..] == q && q == q + Part('?', None) + Part('#', None);
    ParseTailOf(ParseAuthority(Blank.(scheme := scheme), a).value, q, q, None, None);
  }

  /** And so is a fragment. */
  lemma FragmentWithoutSlashIsPath(scheme: string, a: string, f: string)
    requires (scheme == "http" || scheme == "https") && a != "" && Undelimited(a) && '?' !in f && '#' !in f
    ensures var u := Parse(scheme + "://" + (a + ("#" + f)));
      u.Some? && u.value.path == f && u.value.query == "" && u.value.fragment == ""
  {
    hide ParseAuthority, ParseTail, Parse;
    var rest := "#" + f;
    ParseAfterAuthority(scheme, a, rest);
    NonEmptyAuthority(Blank.(scheme := scheme), a);
    assert rest[1..] == f && f == f + Part('?', None) + Part('#', None);
    ParseTailOf(ParseAuthority(Blank.(scheme := scheme), a).value, f, f, None, None);
  }
}
