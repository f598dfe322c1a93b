/** parse_ws_uri of net-voip/freeswitch/files/mod_audio_fork/lws_glue.cpp, with
    the meaning of its regular expression ^(.+?):?(\d+)?(/.*)?$ spelled out. */
module WsUri {

  import opened Common

  const MAX_WS_URL_LEN: nat := 512
  const MAX_PATH_LEN: nat := 4096

  predicate Digit(c: char)
  {
    '0' <= c <= '9'
  }

  predicate LineEnd(c: char)
  {
    c == '\n' || c == '\r'
  }

  predicate OneLine(s: string)
  {
    forall k :: 0 <= k < |s| ==> !LineEnd(s[k])
  }

  predicate Digits(s: string)
  {
    forall k :: 0 <= k < |s| ==> Digit(s[k])
  }

  predicate PathOrNothing(s: string)
  {
    s == "" || (s[0] == '/' && OneLine(s))
  }

  // ------------------------------------------------------------------------
  // The regular expression

  /** A way to match the whole text: (.+?) :? (\d+)? (/.*)? */
  datatype Match = Match(host: string, colon: string, digits: string, path: string)

  predicate Matches(s: string, m: Match)
  {
    && s == m.host + m.colon + m.digits + m.path
    && m.host != "" && OneLine(m.host)
    && (m.colon == "" || m.colon == ":")
    && Digits(m.digits)
    && PathOrNothing(m.path)
  }

  /** How many digits the text starts with. */
  function DigitRun(s: string): (n: nat)
    ensures n <= |s| && Digits(s[..n]) && (n < |s| ==> !Digit(s[n]))
  {
    if s == "" || !Digit(s[0]) then 0
    else
      var n := 1 + DigitRun(s[1..]);
      assert s[..n] == [s[0]] + s[1..][..n - 1];
      n
  }

  function ColonLen(s: string): nat
  {
    if s != "" && s[0] == ':' then 1 else 0
  }

  /** The text after the host, taken apart greedily. */
  function Tail(host: string, rest: string): Match
  {
    var c := ColonLen(rest);
    var d := DigitRun(rest[c..]);
    Match(host, rest[..c], rest[c..][..d], rest[c..][d..])
  }

  /** A host of the first `n` characters lets the rest match. */
  predicate Stops(s: string, n: nat)
    requires n <= |s|
  {
    PathOrNothing(Tail(s[..n], s[n..]).path)
  }

  function Marks(s: string): (marks: seq<bool>)
    ensures |marks| == |s| + 1
  {
    seq(|s| + 1, n requires 0 <= n <= |s| => Stops(s, n))
  }

  /** The lazy host: the length of the shortest one, at least `n` long and on one
      line, that lets the rest match; 0 if there is none. */
  function HostLen(marks: seq<bool>, s: string, n: nat): (h: nat)
    requires 1 <= n && |marks| == |s| + 1
    ensures h == 0 || (n <= h <= |s| && marks[h] && forall k :: n - 1 <= k < h ==> !LineEnd(s[k]))
    decreases |s| - n
  {
    if n > |s| || LineEnd(s[n - 1]) then 0 else if marks[n] then n else HostLen(marks, s, n + 1)
  }

  lemma {:induction false} HostLenIsLeast(marks: seq<bool>, s: string, n: nat, h: nat)
    requires |marks| == |s| + 1 && 1 <= n <= h <= |s| && marks[h] && forall k :: n - 1 <= k < h ==> !LineEnd(s[k])
    ensures 0 < HostLen(marks, s, n) <= h
    decreases h - n
  {
    if !marks[n] {
      HostLenIsLeast(marks, s, n + 1, h);
    }
  }

  function Search(s: string, n: nat): (r: (bool, Match))
    requires 1 <= n
  {
    var h := HostLen(Marks(s), s, n);
    if h == 0 then (false, Match("", "", "", "")) else (true, Tail(s[..h], s[h..]))
  }

  /** Once the host is fixed the rest can be taken apart in one way only. */
  lemma TailUnique(s: string, m: Match)
    requires Matches(s, m)
    ensures m == Tail(m.host, s[|m.host|..])
  {
    var rest := s[|m.host|..];
    assert rest == m.colon + m.digits + m.path;
    assert ColonLen(rest) == |m.colon| by {
      if m.colon == "" && rest != "" {
        assert rest[0] == (m.digits + m.path)[0];
      }
    }
    var t := rest[|m.colon|..];
    assert t == m.digits + m.path;
    DigitRunIs(m.digits, m.path);
    assert rest[..|m.colon|] == m.colon;
    assert t[..|m.digits|] == m.digits && t[|m.digits|..] == m.path;
  }

  lemma {:induction false} DigitRunIs(digits: string, path: string)
    requires Digits(digits) && (path == "" || !Digit(path[0]))
    ensures DigitRun(digits + path) == |digits|
  {
    if digits != "" {
      assert (digits + path)[1..] == digits[1..] + path;
      DigitRunIs(digits[1..], path);
    } else {
      assert digits + path == path;
    }
  }

  lemma Assoc4(a: string, b: string, c: string, d: string)
    ensures a + b + c + d == a + (b + (c + d))
  {
  }

  lemma CutInFour(s: string, n: nat, c: nat, d: nat)
    requires n + c + d <= |s|
    ensures s == s[..n] + s[n..][..c] + s[n..][c..][..d] + s[n..][c..][d..]
  {
    var rest := s[n..];
    var t := rest[c..];
    Assoc4(s[..n], rest[..c], t[..d], t[d..]);
    assert t[..d] + t[d..] == t;
    assert rest[..c] + t == rest;
  }

  lemma TailIsMatch(s: string, n: nat)
    requires 1 <= n <= |s| && OneLine(s[..n]) && PathOrNothing(Tail(s[..n], s[n..]).path)
    ensures Matches(s, Tail(s[..n], s[n..]))
  {
    var c := ColonLen(s[n..]);
    var d := DigitRun(s[n..][c..]);
    CutInFour(s, n, c, d);
    assert s[n..][..c] == "" || s[n..][..c] == ":";
  }

  /** What Search returns is a match. */
  lemma SearchIsSound(s: string, n: nat)
    requires 1 <= n && (n - 1 <= |s| ==> OneLine(s[..n - 1]))
    ensures Search(s, n).0 ==> Matches(s, Search(s, n).1) && |Search(s, n).1.host| >= n
  {
    var h := HostLen(Marks(s), s, n);
    if h > 0 {
      assert Marks(s)[h] == Stops(s, h);
      LongerLine(s, n, h);
      TailIsMatch(s, h);
    }
  }

  lemma LongerLine(s: string, n: nat, h: nat)
    requires 1 <= n <= h <= |s| && OneLine(s[..n - 1]) && forall k :: n - 1 <= k < h ==> !LineEnd(s[k])
    ensures OneLine(s[..h])
  {
    forall k | 0 <= k < h ensures !LineEnd(s[..h][k]) {
      if k < n - 1 {
        assert s[..h][k] == s[..n - 1][k];
      } else {
        assert s[..h][k] == s[k];
      }
    }
  }

  /** A match stops the search at its own host, if nothing did before. */
  lemma MatchStops(s: string, m: Match)
    requires Matches(s, m)
    ensures |m.host| <= |s| && Stops(s, |m.host|) && Tail(s[..|m.host|], s[|m.host|..]) == m
    ensures forall k :: 0 <= k < |m.host| ==> !LineEnd(s[k])
  {
    TailUnique(s, m);
    assert s[..|m.host|] == m.host;
    assert forall k :: 0 <= k < |m.host| ==> s[k] == m.host[k];
  }

  lemma SearchUpTo(s: string, n: nat, h: nat, m: Match)
    requires 1 <= n <= h <= |s| && Stops(s, h) && Tail(s[..h], s[h..]) == m
    requires forall k :: 0 <= k < h ==> !LineEnd(s[k])
    ensures Search(s, n).0 && (Search(s, n).1 == m || |Search(s, n).1.host| < h)
  {
    var k := HostLenUpTo(s, n, h);
    SearchTakes(s, n, k);
    if k < h {
      assert |s[..k]| == k;
    }
  }

  lemma HostLenUpTo(s: string, n: nat, h: nat) returns (k: nat)
    requires 1 <= n <= h <= |s| && Stops(s, h) && forall k :: 0 <= k < h ==> !LineEnd(s[k])
    ensures k == HostLen(Marks(s), s, n) && 0 < k <= h
  {
    k := HostLen(Marks(s), s, n);
    assert Marks(s)[h] == Stops(s, h);
    HostLenIsLeast(Marks(s), s, n, h);
  }

  lemma SearchTakes(s: string, n: nat, k: nat)
    requires 1 <= n && 0 < k <= |s| && k == HostLen(Marks(s), s, n)
    ensures Search(s, n) == (true, Tail(s[..k], s[k..])) && Search(s, n).1.host == s[..k]
  {
  }

  /** Search finds the match with the shortest host, whatever other match exists. */
  lemma SearchIsLazy(s: string, n: nat, m: Match)
    requires 1 <= n <= |m.host| && Matches(s, m)
    ensures Search(s, n).0 && (Search(s, n).1 == m || |Search(s, n).1.host| < |m.host|)
  {
    MatchStops(s, m);
    SearchUpTo(s, n, |m.host|, m);
  }

  /** A one-line text matches exactly if it is not empty. */
  lemma OneLineMatches(s: string)
    requires OneLine(s)
    ensures Search(s, 1).0 <==> s != ""
  {
    if s != "" {
      SearchIsLazy(s, 1, Match(s, "", "", ""));
    }
  }

  // ------------------------------------------------------------------------
  // The parser

  /** Value of a digit string, as atoi reads it. */
  function Number(s: string): nat
    requires Digits(s)
  {
    if s == "" then 0 else 10 * Number(s[..|s| - 1]) + (s[|s| - 1] - '0') as nat
  }

  /** strncpy into a buffer of `n` characters. */
  function Clip(s: string, n: nat): string
  {
    if |s| <= n then s else s[..n]
  }

  predicate StartsWith(s: string, p: string)
  {
    |p| <= |s| && s[..|p|] == p
  }

  datatype Target = Target(host: string, path: string, port: nat, sslFlags: nat)

  /** What a caller gets for scheme, host, port and path. */
  function Result(m: Match, secure: bool, flags: nat): Target
    requires Digits(m.digits)
  {
    Target(Clip(m.host, MAX_WS_URL_LEN),
           if m.path == "" then "/" else Clip(m.path, MAX_PATH_LEN),
           if m.digits == "" then DefaultPort(secure) else Number(m.digits),
           if secure then flags else 0)
  }

  function DefaultPort(secure: bool): nat
  {
    if secure then 443 else 80
  }

  /** The scheme spellings that are accepted, and whether they ask for TLS. */
  predicate Scheme(p: string, secure: bool)
  {
    if secure then p in ["https://", "HTTPS://", "wss://", "WSS://"]
    else p in ["http://", "HTTP://", "ws://", "WS://"]
  }

  /** The text after the scheme, if the scheme is one of the accepted spellings. */
  predicate Schemed(uri: string, p: string, secure: bool)
  {
    Scheme(p, secure) && StartsWith(uri, p)
  }

  lemma SchemeEndsAtColon(p: string, secure: bool)
    requires Scheme(p, secure)
    ensures 5 <= |p| && p[|p| - 3] == ':' && forall k :: 0 <= k < |p| - 3 ==> p[k] != ':'
  {
  }

  lemma PrefixAgrees(uri: string, p: string)
    requires StartsWith(uri, p)
    ensures forall k :: 0 <= k < |p| ==> uri[k] == p[k]
  {
    assert forall k :: 0 <= k < |p| ==> uri[k] == uri[..|p|][k];
  }

  /** A text carries at most one scheme. */
  lemma SchemeUnique(uri: string, p: string, a: bool, q: string, b: bool)
    requires Schemed(uri, p, a) && Schemed(uri, q, b)
    ensures p == q && a == b
  {
    SchemeEndsAtColon(p, a);
    SchemeEndsAtColon(q, b);
    PrefixAgrees(uri, p);
    PrefixAgrees(uri, q);
    assert |p| == |q|;
    SameSchemeSameKind(p, a, b);
  }

  lemma SameSchemeSameKind(p: string, a: bool, b: bool)
    requires Scheme(p, a) && Scheme(p, b)
    ensures a == b
  {
  }

  predicate FitsBuffer(uri: string)
  {
    |uri| < MAX_WS_URL_LEN + MAX_PATH_LEN
  }

  /** The tests for the scheme, in their order. */
  method FindScheme(uri: string) returns (found: bool, offset: nat, secure: bool)
    ensures found ==> offset <= |uri| && Schemed(uri, uri[..offset], secure)
    ensures !found ==> forall p, secure' :: !Schemed(uri, p, secure')
  {
    if StartsWith(uri, "https://") || StartsWith(uri, "HTTPS://") {
      return true, 8, true;
    } else if StartsWith(uri, "wss://") || StartsWith(uri, "WSS://") {
      return true, 6, true;
    } else if StartsWith(uri, "http://") || StartsWith(uri, "HTTP://") {
      return true, 7, false;
    } else if StartsWith(uri, "ws://") || StartsWith(uri, "WS://") {
      return true, 5, false;
    }
    return false, 0, false;
  }

  /** What ParseWsUri returns for a text with a scheme and a match. */
  predicate ParsesTo(uri: string, p: string, secure: bool, flags: nat, t: Target)
  {
    Schemed(uri, p, secure) && |p| <= |uri| &&
    var r := Search(uri[|p|..], 1);
    r.0 && Digits(r.1.digits) && Result(r.1, secure, flags) == t
  }

  lemma OnlyScheme(uri: string, q: string, secure: bool)
    requires Schemed(uri, q, secure)
    ensures forall p, secure' :: Schemed(uri, p, secure') ==> p == q && secure' == secure
  {
    forall p, secure' | Schemed(uri, p, secure')
      ensures p == q && secure' == secure
    {
      SchemeUnique(uri, p, secure', q, secure);
    }
  }

  /** What the part after a known scheme says about the whole text. */
  lemma ParsedAfter(uri: string, q: string, secure: bool, flags: nat, ok: bool, out: Target)
    requires Schemed(uri, q, secure) && ok == Search(uri[|q|..], 1).0
    requires ok ==> Digits(Search(uri[|q|..], 1).1.digits) && out == Result(Search(uri[|q|..], 1).1, secure, flags)
    ensures ok ==> ParsesTo(uri, q, secure, flags, out)
    ensures forall p, secure, t :: ParsesTo(uri, p, secure, flags, t) ==> ok && out == t
    ensures OneLine(uri[|q|..]) ==> (ok <==> uri != q)
  {
    OnlyScheme(uri, q, secure);
    if OneLine(uri[|q|..]) {
      OneLineMatches(uri[|q|..]);
      assert uri == uri[..|q|] + uri[|q|..];
    }
  }

  /** parse_ws_uri.  An unknown scheme leaves the outputs as they were; a known one
      with nothing that matches behind it leaves its port and flags in them.  The
      text has to fit the fixed buffer it is first copied to. */
  method ParseWsUri(uri: string, flags: nat, before: Target) returns (ok: bool, out: Target)
    requires FitsBuffer(uri)
    ensures ok ==> exists p, secure :: ParsesTo(uri, p, secure, flags, out)
    ensures forall p, secure, t :: ParsesTo(uri, p, secure, flags, t) ==> ok && out == t
    ensures forall p, secure :: Schemed(uri, p, secure) ==> ok == Search(uri[|p|..], 1).0
    ensures forall p, secure :: Schemed(uri, p, secure) && OneLine(uri[|p|..]) ==> (ok <==> uri != p)
    ensures forall p, secure :: Schemed(uri, p, secure) && !ok ==>
              out == before.(sslFlags := if secure then flags else 0, port := DefaultPort(secure))
    ensures (forall p, secure :: !Schemed(uri, p, secure)) ==> !ok && out == before
  {
    var found, offset, secure := FindScheme(uri);
    if !found {
      return false, before;
    }
    out := before.(sslFlags := if secure then flags else 0, port := DefaultPort(secure));
    ok, out := ParseAddress(uri[offset..], out);
    ghost var q := uri[..offset];
    assert uri[|q|..] == uri[offset..];
    OnlyScheme(uri, q, secure);
    ParsedAfter(uri, q, secure, flags, ok, out);
  }

  /** The part of parse_ws_uri after the scheme. */
  method ParseAddress(strHost: string, before: Target) returns (ok: bool, out: Target)
    ensures var r := Search(strHost, 1);
      && ok == r.0
      && (ok ==> Digits(r.1.digits) && out.host == Clip(r.1.host, MAX_WS_URL_LEN)
                 && out.path == (if r.1.path == "" then "/" else Clip(r.1.path, MAX_PATH_LEN))
                 && out.port == (if r.1.digits == "" then before.port else Number(r.1.digits))
                 && out.sslFlags == before.sslFlags)
      && (!ok ==> out == before)
  {
    out := before;
    var r := Search(strHost, 1);
    SearchIsSound(strHost, 1);
    ok := r.0;
    if ok {
      out := out.(host := Clip(r.1.host, MAX_WS_URL_LEN));
      if |r.1.digits| > 0 {
        out := out.(port := Number(r.1.digits));
      }
      if |r.1.path| > 0 {
        out := out.(path := Clip(r.1.path, MAX_PATH_LEN));
      } else {
        out := out.(path := "/");
      }
    }
  }

  // ------------------------------------------------------------------------
  // Printing and parsing

  /** A host as it may stand in a printed address. */
  predicate PlainHost(h: string)
  {
    h != "" && forall k :: 0 <= k < |h| ==> h[k] != ':' && h[k] != '/' && !LineEnd(h[k])
  }

  /** What the characters after the host of a match are. */
  lemma PiecesOf(s: string, r: Match)
    requires Matches(s, r)
    ensures var h, c, d := |r.host|, |r.colon|, |r.digits|;
      && h + c + d <= |s| && c <= 1 && (c == 1 ==> s[h] == ':')
      && (forall k :: h + c <= k < h + c + d ==> Digit(s[k]))
      && (h + c + d < |s| ==> s[h + c + d] == '/')
  {
    var h, c, d := |r.host|, |r.colon|, |r.digits|;
    Assoc4(r.host, r.colon, r.digits, r.path);
    forall k | h + c <= k < h + c + d
      ensures Digit(s[k])
    {
      assert s[k] == r.digits[k - h - c];
    }
    if c == 1 {
      assert s[h] == r.colon[0];
    }
    if h + c + d < |s| {
      assert s[h + c + d] == r.path[0];
    }
  }

  /** A shorter host than a plain one would leave only digits behind it. */
  lemma ShorterHost(s: string, host: string, r: Match)
    requires PlainHost(host) && StartsWith(s, host) && Matches(s, r) && |r.host| < |host|
    ensures forall k :: |r.host| <= k < |host| ==> Digit(host[k])
    ensures |host| < |s| ==> s[|host|] != ':'
  {
    PiecesOf(s, r);
    PrefixAgrees(s, host);
  }

  /** host ":" digits path is taken apart where it was put together, although
      the expression looks for the shortest host. */
  lemma AddressWithPort(host: string, digits: string, path: string)
    requires PlainHost(host) && Digits(digits) && PathOrNothing(path)
    ensures Search(host + ":" + digits + path, 1) == (true, Match(host, ":", digits, path))
  {
    var s := host + ":" + digits + path;
    var m := Match(host, ":", digits, path);
    assert Matches(s, m);
    Assoc4(host, ":", digits, path);
    assert StartsWith(s, host) && s[|host|] == ':';
    SearchIsLazy(s, 1, m);
    SearchIsSound(s, 1);
    if |Search(s, 1).1.host| < |host| {
      ShorterHost(s, host, Search(s, 1).1);
    }
  }

  lemma PlainMatch(host: string, path: string)
    requires PlainHost(host) && PathOrNothing(path)
    ensures Matches(host + path, Match(host, "", "", path)) && StartsWith(host + path, host)
  {
  }

  /** Without a port the host survives exactly when it does not end in a digit,
      or is a single character. */
  lemma AddressWithoutPort(host: string, path: string)
    requires PlainHost(host) && PathOrNothing(path)
    ensures var r := Search(host + path, 1);
      && r.0 && Matches(host + path, r.1) && |r.1.host| <= |host|
      && (|r.1.host| == |host| ==> r.1 == Match(host, "", "", path))
      && (|r.1.host| == |host| <==> !Digit(host[|host| - 1]) || |host| == 1)
  {
    var s := host + path;
    PlainMatch(host, path);
    SearchIsLazy(s, 1, Match(host, "", "", path));
    SearchIsSound(s, 1);
    if |Search(s, 1).1.host| < |host| {
      ShorterHost(s, host, Search(s, 1).1);
    }
    if Digit(host[|host| - 1]) && |host| > 1 {
      LastDigitIsPort(host, path);
    }
  }

  lemma LastDigitIsPort(host: string, path: string)
    requires PlainHost(host) && PathOrNothing(path) && |host| > 1 && Digit(host[|host| - 1])
    ensures Search(host + path, 1).0 && |Search(host + path, 1).1.host| < |host|
  {
    var last := |host| - 1;
    var shorter := Match(host[..last], "", [host[last]], path);
    assert host == host[..last] + [host[last]];
    assert Matches(host + path, shorter);
    SearchIsLazy(host + path, 1, shorter);
  }

  /** The decimal digits of a number. */
  function Decimal(n: nat): string
    ensures Decimal(n) != "" && Digits(Decimal(n))
  {
    if n < 10 then ['0' + n as char] else Decimal(n / 10) + ['0' + (n % 10) as char]
  }

  lemma {:induction false} NumberInvertsDecimal(n: nat)
    ensures Number(Decimal(n)) == n
  {
    var front := if n < 10 then "" else Decimal(n / 10);
    assert Decimal(n)[..|Decimal(n)| - 1] == front;
    if n >= 10 {
      NumberInvertsDecimal(n / 10);
    }
  }

  /** Parsing scheme, host, port and path printed one after the other gives
      them back, "/" standing for an empty path. */
  lemma PrintedUri(p: string, secure: bool, host: string, port: nat, path: string, flags: nat)
    requires Scheme(p, secure) && PlainHost(host) && PathOrNothing(path)
    requires |host| < MAX_WS_URL_LEN && |path| < MAX_PATH_LEN && port <= MAX_INT
    requires FitsBuffer(p + (host + ":" + Decimal(port) + path))
    ensures ParsesTo(p + (host + ":" + Decimal(port) + path), p, secure, flags,
                     Target(host, if path == "" then "/" else path, port, if secure then flags else 0))
  {
    AddressWithPort(host, Decimal(port), path);
    NumberInvertsDecimal(port);
    AfterScheme(p, secure, host + ":" + Decimal(port) + path, flags, Match(host, ":", Decimal(port), path));
  }

  /** ... and without a port the scheme's default is used, exactly when the host
      has one character or does not end in a digit. */
  lemma PrintedWithoutPort(p: string, secure: bool, host: string, path: string, flags: nat)
    requires Scheme(p, secure) && PlainHost(host) && PathOrNothing(path)
    requires |host| < MAX_WS_URL_LEN && |path| < MAX_PATH_LEN && FitsBuffer(p + (host + path))
    ensures ParsesTo(p + (host + path), p, secure, flags,
                     Target(host, if path == "" then "/" else path, DefaultPort(secure), if secure then flags else 0))
      <==> !Digit(host[|host| - 1]) || |host| == 1
  {
    AddressWithoutPort(host, path);
    AfterScheme(p, secure, host + path, flags, Search(host + path, 1).1);
    HostIsWhole(host, path, Search(host + path, 1).1, secure, flags);
  }

  lemma AfterScheme(p: string, secure: bool, address: string, flags: nat, r: Match)
    requires Scheme(p, secure) && Search(address, 1) == (true, r) && Digits(r.digits)
    ensures forall t :: ParsesTo(p + address, p, secure, flags, t) <==> Result(r, secure, flags) == t
  {
    assert (p + address)[|p|..] == address && (p + address)[..|p|] == p;
  }

  lemma HostIsWhole(host: string, path: string, r: Match, secure: bool, flags: nat)
    requires |host| < MAX_WS_URL_LEN && |path| < MAX_PATH_LEN && Digits(r.digits)
    requires |r.host| <= |host| && (|r.host| == |host| ==> r == Match(host, "", "", path))
    ensures Result(r, secure, flags) ==
              Target(host, if path == "" then "/" else path, DefaultPort(secure), if secure then flags else 0)
      <==> |r.host| == |host|
  {
  }
}
