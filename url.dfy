/** A simplified `new URL(input)`: the decomposition into protocol, host
    name, path and query that the video-ID extractor reads, and
    `searchParams.get`. A `None` result stands for the TypeError the
    constructor throws on input it cannot parse. */
module WebUrl {
  import opened Js
  import opened Text

  /** `search` is the query without its leading '?'. */
  datatype Url = Url(protocol: string, hostname: string, pathname: string, search: string)

  predicate IsAsciiAlpha(c: char)
  {
    'a' <= c <= 'z' || 'A' <= c <= 'Z'
  }

  predicate IsSchemeChar(c: char)
  {
    IsAsciiAlpha(c) || IsDigit(c) || c == '+' || c == '-' || c == '.'
  }

  /** A URL scheme: a letter, then letters, digits, '+', '-' or '.'. */
  predicate IsScheme(s: string)
  {
    s != [] && IsAsciiAlpha(s[0]) && forall i :: 0 < i < |s| ==> IsSchemeChar(s[i])
  }

  /** Splits what follows the authority into the path (up to the first '?'
      or '#') and the query (after that '?', up to the next '#'). */
  function PathAndQuery(t: string): (r: (string, string))
    ensures forall i :: 0 <= i < |r.0| ==> r.0[i] != '?' && r.0[i] != '#'
    ensures forall i :: 0 <= i < |r.1| ==> r.1[i] != '#'
    ensures StartsWith(t, r.0)
  {
    var p := FirstOf(t, {'?', '#'});
    if p < |t| && t[p] == '?' then
      var rest := t[p + 1..];
      (t[..p], rest[..FirstOf(rest, {'#'})])
    else
      (t[..p], "")
  }

  /** A port: digits only, at most 65535. */
  predicate ValidPort(port: string)
  {
    AllDigits(port) && (port == [] || DecimalValue(port) <= 65535)
  }

  /** The host of an authority `userinfo@host:port`: everything after the
      last '@' up to the first ':'. None stands for the failure. */
  function HostName(authority: string, special: bool): (r: Option<string>)
    ensures r.Some? ==> forall i :: 0 <= i < |r.value| ==> r.value[i] != ':'
    ensures r.Some? && special ==> r.value != [] && forall i :: 0 <= i < |r.value| ==> !IsAsciiUpper(r.value[i])
  {
    var at := LastIndexOf(authority, "@");
    HostOfHostPort(if at >= 0 then authority[at + 1..] else authority, special, at >= 0)
  }

  /** The host of `host:port`. The port must be valid. A special scheme
      needs a non-empty host and has it lower-cased; for the other schemes
      the host is kept as written, and may be empty only when there is
      neither a userinfo nor a port. */
  function HostOfHostPort(hostPort: string, special: bool, hasUserinfo: bool): (r: Option<string>)
    ensures r.Some? ==> forall i :: 0 <= i < |r.value| ==> r.value[i] != ':'
    ensures r.Some? && special ==> r.value != [] && forall i :: 0 <= i < |r.value| ==> !IsAsciiUpper(r.value[i])
  {
    var colon := FirstOf(hostPort, {':'});
    var host := hostPort[..colon];
    if !ValidPort(if colon < |hostPort| then hostPort[colon + 1..] else "") then None
    else if host == [] && (special || hasUserinfo || colon < |hostPort|) then None
    else if special then
      var lower := AsciiLower(host);
      assert forall i :: 0 <= i < |lower| ==> lower[i] == ToAsciiLower(host[i]);
      Some(lower)
    else Some(host)
  }

  /** A C0 control character or a space: what the parser strips from both
      ends of its input. */
  predicate IsC0OrSpace(c: char)
  {
    c <= ' '
  }

  /** An ASCII tab or newline: what the parser removes everywhere. */
  predicate IsTabOrNewline(c: char)
  {
    c == '\t' || c == '\n' || c == '\r'
  }

  /** Input the pre-processing leaves alone. */
  predicate Printable(s: string)
  {
    forall i :: 0 <= i < |s| ==> !IsC0OrSpace(s[i])
  }

  function StripLeading(s: string): (r: string)
    ensures r == [] || !IsC0OrSpace(r[0])
    ensures |r| <= |s| && r == s[|s| - |r|..]
  {
    if s != [] && IsC0OrSpace(s[0]) then StripLeading(s[1..]) else s
  }

  function StripTrailing(s: string): (r: string)
    ensures r == [] || !IsC0OrSpace(r[|r| - 1])
    ensures |r| <= |s| && r == s[..|r|]
  {
    if s != [] && IsC0OrSpace(s[|s| - 1]) then StripTrailing(s[..|s| - 1]) else s
  }

  function RemoveTabNewline(s: string): (r: string)
    ensures |r| <= |s|
    ensures forall i :: 0 <= i < |r| ==> !IsTabOrNewline(r[i])
  {
    if s == [] then []
    else (if IsTabOrNewline(s[0]) then [] else [s[0]]) + RemoveTabNewline(s[1..])
  }

  /** What the parser reads: the input with leading and trailing C0
      controls and spaces stripped, then every tab and newline removed. */
  function Preprocess(s: string): (r: string)
    ensures forall i :: 0 <= i < |r| ==> !IsTabOrNewline(r[i])
  {
    RemoveTabNewline(StripTrailing(StripLeading(s)))
  }

  /** The schemes with a host: http, https, ws, wss and ftp. */
  predicate IsSpecial(protocol: string)
  {
    protocol == "http:" || protocol == "https:" || protocol == "ws:" || protocol == "wss:" || protocol == "ftp:"
  }

  predicate IsSlash(c: char)
  {
    c == '/' || c == '\\'
  }

  /** The number of '/' and '\\' characters `s` starts with. */
  function LeadingSlashes(s: string): (n: nat)
    ensures n <= |s|
    ensures forall i :: 0 <= i < n ==> IsSlash(s[i])
    ensures n < |s| ==> !IsSlash(s[n])
  {
    if s != [] && IsSlash(s[0]) then 1 + LeadingSlashes(s[1..]) else 0
  }

  /** A special scheme's path reads '\\' as '/'. */
  function SlashesForBackslashes(s: string): (r: string)
    ensures |r| == |s|
    ensures forall i :: 0 <= i < |s| ==> (s[i] == '\\' ==> r[i] == '/') && (s[i] != '\\' ==> r[i] == s[i])
  {
    seq(|s|, i requires 0 <= i < |s| => if s[i] == '\\' then '/' else s[i])
  }

  /** `new URL(input)`, simplified: after pre-processing, `scheme:`; for a
      special scheme, any run of slashes and then the authority; for
      another scheme, `//` and the authority, or directly a path. */
  function Parse(input: string): (r: Option<Url>)
    ensures r.Some? ==> forall i :: 0 <= i < |r.value.pathname| ==> r.value.pathname[i] != '?' && r.value.pathname[i] != '#'
    ensures r.Some? && IsSpecial(r.value.protocol) ==> r.value.hostname != [] && StartsWith(r.value.pathname, "/")
  {
    ParseProcessed(Preprocess(input))
  }

  function ParseProcessed(s: string): (r: Option<Url>)
    ensures r.Some? ==> FirstOf(s, {':'}) < |s| && IsScheme(s[..FirstOf(s, {':'})])
    ensures r.Some? ==> forall i :: 0 <= i < |r.value.pathname| ==> r.value.pathname[i] != '?' && r.value.pathname[i] != '#'
    ensures r.Some? && IsSpecial(r.value.protocol) ==> r.value.hostname != [] && StartsWith(r.value.pathname, "/")
  {
    var colon := FirstOf(s, {':'});
    if colon == |s| || !IsScheme(s[..colon]) then None
    else
      var protocol := AsciiLower(s[..colon]) + ":";
      var rest := s[colon + 1..];
      if IsSpecial(protocol) then ParseAuthority(protocol, rest[LeadingSlashes(rest)..], true)
      else if StartsWith(rest, "//") then ParseAuthority(protocol, rest[2..], false)
      else
        var pq := PathAndQuery(rest);
        Some(Url(protocol, "", pq.0, pq.1))
  }

  /** The part of `Parse` after the slashes: the authority runs up to the
      first '/', '?' or '#', or '\\' for a special scheme. */
  function ParseAuthority(protocol: string, after: string, special: bool): (r: Option<Url>)
    requires special <==> IsSpecial(protocol)
    ensures r.Some? ==> r.value.protocol == protocol
    ensures r.Some? && special ==> r.value.hostname != [] && StartsWith(r.value.pathname, "/")
    ensures r.Some? ==> forall i :: 0 <= i < |r.value.pathname| ==> r.value.pathname[i] != '?' && r.value.pathname[i] != '#'
  {
    var end := FirstOf(after, if special then {'/', '\\', '?', '#'} else {'/', '?', '#'});
    match HostName(after[..end], special)
    case None => None
    case Some(host) =>
      var pq := PathAndQuery(after[end..]);
      var path := if special then SlashesForBackslashes(pq.0) else pq.0;
      assert special && pq.0 != [] ==> after[end..][0] in {'/', '\\'} && pq.0[0] == after[end..][0];
      assert special && pq.0 != [] ==> path[0] == '/';
      Some(Url(protocol, host, if special && path == [] then "/" else path, pq.1))
  }

  /** The form decoding of a query component: '+' stands for a space. */
  function PlusToSpace(s: string): (r: string)
    ensures |r| == |s|
    ensures forall i :: 0 <= i < |s| ==> (s[i] == '+' ==> r[i] == ' ') && (s[i] != '+' ==> r[i] == s[i])
  {
    seq(|s|, i requires 0 <= i < |s| => if s[i] == '+' then ' ' else s[i])
  }

  /** `new URLSearchParams(query).get(name)`: the value of the first
      `&`-separated pair whose name is `name`, None when there is none. */
  function SearchParam(query: string, name: string): (r: Option<string>)
    ensures r.Some? ==> forall i :: 0 <= i < |r.value| ==> r.value[i] != '&'
    ensures r.Some? ==> |r.value| <= |query|
    decreases |query|
  {
    if query == [] then None
    else
      var amp := FirstOf(query, {'&'});
      var pair := query[..amp];
      var rest := if amp < |query| then query[amp + 1..] else [];
      var eq := FirstOf(pair, {'='});
      var key := PlusToSpace(pair[..eq]);
      var value := PlusToSpace(if eq < |pair| then pair[eq + 1..] else []);
      if pair != [] && key == name then
        assert forall i :: 0 <= i < |value| ==> value[i] != '&' by {
          forall i | 0 <= i < |value| ensures value[i] != '&' {
            assert pair[eq + 1..][i] == pair[eq + 1 + i];
          }
        }
        Some(value)
      else
        SearchParam(rest, name)
  }

  predicate NoneOf(s: string, chars: set<char>)
  {
    forall i :: 0 <= i < |s| ==> s[i] !in chars
  }


  lemma SchemeEndsAtColon(scheme: string, x: string)
    requires IsScheme(scheme)
    ensures FirstOf(scheme + ":" + x, {':'}) == |scheme|
  {
    assert forall i :: 0 <= i < |scheme| ==> scheme[i] != ':' by {
      forall i | 0 <= i < |scheme| ensures scheme[i] != ':' {
        if i > 0 { assert IsSchemeChar(scheme[i]); }
      }
    }
    FirstOfUnique(scheme + ":" + x, {':'}, |scheme|);
  }

  /** A plain lower-case host name is its own host name. */
  lemma PlainHostName(host: string)
    requires host != [] && NoneOf(host, {'@', ':'})
    requires forall i :: 0 <= i < |host| ==> !IsAsciiUpper(host[i])
    ensures HostName(host, true) == Some(host)
  {
    NoCharNoOccurrence(host, '@');
    assert "@" == ['@'];
    assert LastIndexOf(host, "@") == -1;
    FirstOfUnique(host, {':'}, |host|);
    assert host[..|host|] == host;
    assert ValidPort("");
    AsciiLowerOfLower(host);
  }

  /** A plain host, ':' and a valid port give the host. */
  lemma HostPortSplit(host: string, port: string, special: bool, hasUserinfo: bool)
    requires host != [] && NoneOf(host, {':'})
    requires forall i :: 0 <= i < |host| ==> !IsAsciiUpper(host[i])
    requires ValidPort(port)
    ensures HostOfHostPort(host + ":" + port, special, hasUserinfo) == Some(host)
  {
    var hp := host + ":" + port;
    FirstOfUnique(hp, {':'}, |host|);
    assert hp[..|host|] == host;
    assert hp[|host| + 1..] == port;
    AsciiLowerOfLower(host);
  }

  /** The last '@' of `user@rest` is the one before `rest`. */
  lemma LastAt(user: string, rest: string)
    requires NoneOf(rest, {'@'})
    ensures LastIndexOf(user + "@" + rest, "@") == |user|
  {
    var a := user + "@" + rest;
    assert a[|user|..|user| + 1] == "@";
    assert OccursAt(a, "@", |user|);
    var at := LastIndexOf(a, "@");
    assert at >= |user|;
    forall i | |user| < i ensures !OccursAt(a, "@", i) {
      if i < |a| {
        assert a[i] == rest[i - |user| - 1];
        assert a[i..i + 1][0] == a[i];
      }
    }
  }

  /** The host is what follows the last '@' up to the ':' of the port:
      the credentials before it and a valid port after it are dropped, for
      every scheme. */
  lemma HostNameDropsUserinfoAndPort(user: string, host: string, port: string, special: bool)
    requires host != [] && NoneOf(host, {'@', ':'})
    requires forall i :: 0 <= i < |host| ==> !IsAsciiUpper(host[i])
    requires ValidPort(port)
    ensures HostName(user + "@" + host + ":" + port, special) == Some(host)
    ensures HostName(host + ":" + port, special) == Some(host)
  {
    var rest := host + ":" + port;
    assert NoneOf(rest, {'@'}) by {
      forall i | 0 <= i < |rest| ensures rest[i] != '@' {
        if i > |host| {
          assert rest[i] == port[i - |host| - 1];
          assert IsDigit(port[i - |host| - 1]);
        }
      }
    }
    var a := user + "@" + rest;
    assert a == user + "@" + host + ":" + port;
    LastAt(user, rest);
    assert a[|user| + 1..] == rest;
    HostPortSplit(host, port, special, true);
    NoCharNoOccurrence(rest, '@');
    assert "@" == ['@'];
    HostPortSplit(host, port, special, false);
  }

  lemma {:induction false} RemoveTabNewlineOfPrintable(s: string)
    requires Printable(s)
    ensures RemoveTabNewline(s) == s
  {
    if s != [] {
      assert !IsTabOrNewline(s[0]);
      RemoveTabNewlineOfPrintable(s[1..]);
      assert [s[0]] + s[1..] == s;
    }
  }

  /** Input free of controls and spaces is read as it is. */
  lemma PreprocessPrintable(s: string)
    requires Printable(s)
    ensures Preprocess(s) == s
  {
    RemoveTabNewlineOfPrintable(s);
  }

  lemma PrintableJoin(x: string, y: string)
    requires Printable(x) && Printable(y)
    ensures Printable(x + y)
  {
    forall i | 0 <= i < |x + y| ensures !IsC0OrSpace((x + y)[i]) {
      if i >= |x| { assert (x + y)[i] == y[i - |x|]; }
    }
  }

  lemma SchemeIsPrintable(scheme: string)
    requires IsScheme(scheme)
    ensures Printable(scheme + ":")
  {
    forall i | 0 <= i < |scheme + ":"| ensures !IsC0OrSpace((scheme + ":")[i]) {
      if i < |scheme| && i > 0 { assert IsSchemeChar(scheme[i]); }
    }
  }

  /** A lower-case special scheme is split off as the protocol, and the
      authority starts after the slashes that follow it. */
  lemma SpecialSchemeForm(scheme: string, x: string)
    requires IsScheme(scheme) && forall i :: 0 <= i < |scheme| ==> !IsAsciiUpper(scheme[i])
    requires IsSpecial(scheme + ":")
    ensures ParseProcessed(scheme + ":" + x) == ParseAuthority(scheme + ":", x[LeadingSlashes(x)..], true)
  {
    var s := scheme + ":" + x;
    SchemeEndsAtColon(scheme, x);
    assert s[..|scheme|] == scheme;
    assert s[|scheme| + 1..] == x;
    AsciiLowerOfLower(scheme);
  }

  /** A slash in front changes nothing past the slashes. */
  lemma SlashPrefixSkipped(x: string)
    ensures ("/" + x)[LeadingSlashes("/" + x)..] == x[LeadingSlashes(x)..]
  {
    var y := "/" + x;
    assert y[1..] == x;
    assert LeadingSlashes(y) == 1 + LeadingSlashes(x);
    assert y[1 + LeadingSlashes(x)..] == x[LeadingSlashes(x)..];
  }

  /** Input free of controls and spaces, read whole. */
  lemma ParsePrintable(s: string)
    requires Printable(s)
    ensures Parse(s) == ParseProcessed(s)
  {
    PreprocessPrintable(s);
  }

  /** `scheme:x` for a lower-case special scheme and a printable `x`. */
  lemma SpecialParse(scheme: string, x: string)
    requires IsScheme(scheme) && forall i :: 0 <= i < |scheme| ==> !IsAsciiUpper(scheme[i])
    requires IsSpecial(scheme + ":") && Printable(x)
    ensures Parse(scheme + ":" + x) == ParseAuthority(scheme + ":", x[LeadingSlashes(x)..], true)
  {
    SchemeIsPrintable(scheme);
    PrintableJoin(scheme + ":", x);
    ParsePrintable(scheme + ":" + x);
    SpecialSchemeForm(scheme, x);
  }

  /** After a special scheme, no slash, one slash and two slashes read
      alike: `https:host/path` has the host of `https://host/path`. */
  lemma SpecialSlashesOptional(scheme: string, x: string)
    requires IsScheme(scheme) && forall i :: 0 <= i < |scheme| ==> !IsAsciiUpper(scheme[i])
    requires IsSpecial(scheme + ":") && Printable(x)
    ensures Parse(scheme + ":" + x) == Parse(scheme + ":" + ("//" + x))
    ensures Parse(scheme + ":" + ("/" + x)) == Parse(scheme + ":" + ("//" + x))
  {
    var x1 := "/" + x;
    var x2 := "/" + x1;
    assert x2 == "//" + x;
    PrintableJoin("/", x);
    PrintableJoin("/", x1);
    SpecialParse(scheme, x);
    SpecialParse(scheme, x1);
    SpecialParse(scheme, x2);
    SlashPrefixSkipped(x);
    SlashPrefixSkipped(x1);
  }

  /** Leading controls and spaces are stripped before parsing. */
  lemma ParseIgnoresLeadingControl(c: char, s: string)
    requires IsC0OrSpace(c)
    ensures Parse([c] + s) == Parse(s)
  {
    assert ([c] + s)[1..] == s;
  }

  /** The authority of a special URL: a plain lower-case host followed by a
      tail that is empty or starts the path, query or fragment. */
  lemma AuthorityForm(protocol: string, host: string, tail: string)
    requires IsSpecial(protocol)
    requires host != [] && NoneOf(host, {'/', '\\', '?', '#', '@', ':'})
    requires forall i :: 0 <= i < |host| ==> !IsAsciiUpper(host[i])
    requires tail == [] || tail[0] in {'/', '?', '#'}
    requires NoneOf(PathAndQuery(tail).0, {'\\'})
    ensures var pq := PathAndQuery(tail);
            ParseAuthority(protocol, host + tail, true) == Some(Url(protocol, host, if pq.0 == [] then "/" else pq.0, pq.1))
  {
    var after := host + tail;
    var delims := {'/', '\\', '?', '#'};
    FirstOfUnique(host, delims, |host|);
    FirstOfAppend(host, tail, delims);
    FirstOfUnique(tail, delims, 0);
    assert after[..|host|] == host && after[|host|..] == tail;
    PlainHostName(host);
    var pq := PathAndQuery(tail);
    assert SlashesForBackslashes(pq.0) == pq.0;
  }

  /** How `scheme://host<tail>` parses, for a lower-case special scheme, a
      plain lower-case host and a tail that is empty or starts the path,
      query or fragment, when nothing in it is stripped or removed. */
  lemma ParseAuthorityUrl(s: string, scheme: string, host: string, tail: string)
    requires s == scheme + ":" + ("//" + (host + tail)) && Printable(host + tail)
    requires IsScheme(scheme) && forall i :: 0 <= i < |scheme| ==> !IsAsciiUpper(scheme[i])
    requires IsSpecial(scheme + ":")
    requires host != [] && NoneOf(host, {'/', '\\', '?', '#', '@', ':'})
    requires forall i :: 0 <= i < |host| ==> !IsAsciiUpper(host[i])
    requires tail == [] || tail[0] in {'/', '?', '#'}
    requires NoneOf(PathAndQuery(tail).0, {'\\'})
    ensures var pq := PathAndQuery(tail);
            Parse(s) == Some(Url(scheme + ":", host, if pq.0 == [] then "/" else pq.0, pq.1))
  {
    var after := host + tail;
    var x1 := "/" + after;
    var x2 := "/" + x1;
    assert x2 == "//" + after;
    PrintableJoin("/", after);
    PrintableJoin("/", x1);
    SpecialParse(scheme, x2);
    SlashPrefixSkipped(after);
    SlashPrefixSkipped(x1);
    assert LeadingSlashes(after) == 0 by { assert after[0] == host[0]; }
    assert after[0..] == after;
    AuthorityForm(scheme + ":", host, tail);
  }
}
