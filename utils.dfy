/** The helpers of utils.ts: JSON parsing with a fixed error, slicing an
    HTML document out of a reply, and extracting a YouTube video ID. */
module Utils {
  import opened Js
  import opened Text
  import Json
  import WebUrl
  import IdPattern

  const NotValidJsonMessage: string := "The response from the API was not valid JSON."

  /** `parseJSON`: `JSON.parse` on the trimmed input; every parse failure
      becomes the same SyntaxError, whatever the parser's own message. */
  function ParseJson(str: string, parse: Json.Parser): (r: Result<Json.Value, Thrown>)
    ensures r.Failure? ==> r.error == ErrorObject(SyntaxError, NotValidJsonMessage)
    ensures r.Success? <==> parse(Trim(str)).Success?
    ensures r.Success? ==> r.value == parse(Trim(str)).value
  {
    match parse(Trim(str))
    case Success(v) => Success(v)
    case Failure(_) => Failure(ErrorObject(SyntaxError, NotValidJsonMessage))
  }

  /** Whitespace around the input never changes what `parseJSON` returns. */
  lemma ParseJsonIgnoresPadding(w1: string, str: string, w2: string, parse: Json.Parser)
    requires AllWhitespace(w1) && AllWhitespace(w2)
    ensures ParseJson(w1 + str + w2, parse) == ParseJson(str, parse)
  {
    TrimPadded(w1, str, w2);
  }

  /** Parsing text that is already trimmed gives what parsing the original
      gave. */
  lemma ParseJsonOfTrimmed(str: string, parse: Json.Parser)
    ensures ParseJson(Trim(str), parse) == ParseJson(str, parse)
  {
    TrimIdempotent(str);
  }

  const Doctype: string := "<!DOCTYPE html>"

  /** `parseHTML(str, opener, closer)`: from the first doctype up to, and
      not including, the last `closer`; '' when either is missing or the
      last closer does not come after the doctype. `opener` is not read. */
  function ParseHtml(str: string, opener: string, closer: string): (r: string)
    ensures r != [] ==> exists i, j :: 0 <= i < j <= |str| && r == str[i..j]
                          && OccursAt(str, Doctype, i) && (forall k :: k < i ==> !OccursAt(str, Doctype, k))
                          && OccursAt(str, closer, j) && (forall k :: j < k ==> !OccursAt(str, closer, k))
    ensures (forall i :: !OccursAt(str, Doctype, i)) ==> r == []
    ensures (forall j :: !OccursAt(str, closer, j)) ==> r == []
  {
    var start := IndexOf(str, Doctype);
    var end := LastIndexOf(str, closer);
    if start == -1 || end == -1 || end <= start then "" else str[start..end]
  }

  /** When the last closer follows the first doctype, the result is exactly
      the slice between them, as long as that distance. */
  lemma ParseHtmlSlice(str: string, opener: string, closer: string, i: nat, j: nat)
    requires OccursAt(str, Doctype, i) && forall k :: k < i ==> !OccursAt(str, Doctype, k)
    requires OccursAt(str, closer, j) && forall k :: j < k ==> !OccursAt(str, closer, k)
    requires i < j
    ensures ParseHtml(str, opener, closer) == str[i..j]
    ensures |ParseHtml(str, opener, closer)| == j - i
  {
  }

  /** When the last closer sits at or before the first doctype, the result
      is empty. */
  lemma ParseHtmlClosedBeforeDoctype(str: string, opener: string, closer: string, i: nat, j: nat)
    requires OccursAt(str, Doctype, i) && forall k :: k < i ==> !OccursAt(str, Doctype, k)
    requires OccursAt(str, closer, j) && forall k :: j < k ==> !OccursAt(str, closer, k)
    requires j <= i
    ensures ParseHtml(str, opener, closer) == []
  {
  }

  /** `opener` has no effect on the result. */
  lemma ParseHtmlIgnoresOpener(str: string, opener1: string, opener2: string, closer: string)
    ensures ParseHtml(str, opener1, closer) == ParseHtml(str, opener2, closer)
  {
  }

  predicate IsYouTubeHost(host: string)
  {
    host == "www.youtube.com" || host == "youtube.com"
  }

  /** The `v` branch applies: a youtube.com host and an eleven-character
      `v` query parameter. */
  predicate WatchBranch(u: WebUrl.Url)
  {
    var v := WebUrl.SearchParam(u.search, "v");
    IsYouTubeHost(u.hostname) && v.Some? && |v.value| == 11
  }

  /** The youtu.be branch applies: the path after its '/' has eleven
      characters. */
  predicate ShortBranch(u: WebUrl.Url)
  {
    u.hostname == "youtu.be" && |Substring(u.pathname, 1)| == 11
  }

  /** The embed branch applies: the path after '/embed/' has eleven
      characters. */
  predicate EmbedBranch(u: WebUrl.Url)
  {
    StartsWith(u.pathname, "/embed/") && |Substring(u.pathname, 7)| == 11
  }

  /** The structured branches of `getYouTubeVideoId`, tried in order: the
      `v` query parameter on a youtube.com host, the path after '/' on
      youtu.be, and the path after '/embed/'; each only when it is eleven
      characters long. */
  function StructuredId(u: WebUrl.Url): (r: Option<string>)
    ensures r.Some? ==> |r.value| == 11
    ensures WatchBranch(u) ==> r == WebUrl.SearchParam(u.search, "v")
    ensures !WatchBranch(u) && ShortBranch(u) ==> r == Some(Substring(u.pathname, 1))
    ensures !WatchBranch(u) && !ShortBranch(u) && EmbedBranch(u) ==> r == Some(Substring(u.pathname, 7))
    ensures r.None? <==> !WatchBranch(u) && !ShortBranch(u) && !EmbedBranch(u)
    ensures r.Some? ==> (IsYouTubeHost(u.hostname) && r == WebUrl.SearchParam(u.search, "v"))
                        || (u.hostname == "youtu.be" && r.value == Substring(u.pathname, 1))
                        || (StartsWith(u.pathname, "/embed/") && r.value == Substring(u.pathname, 7))
  {
    if WatchBranch(u) then WebUrl.SearchParam(u.search, "v")
    else if ShortBranch(u) then Some(Substring(u.pathname, 1))
    else if EmbedBranch(u) then Some(Substring(u.pathname, 7))
    else None
  }

  /** `getYouTubeVideoId`: null for the empty string; otherwise the
      structured reading of the parsed URL, and when the URL does not parse
      or no structured branch yields an ID, the pattern search. Every ID it
      returns is eleven characters long. */
  function GetYouTubeVideoId(url: string): (r: Option<string>)
    ensures url == [] ==> r.None?
    ensures r.Some? ==> |r.value| == 11
    ensures url != [] && WebUrl.Parse(url).Some? && StructuredId(WebUrl.Parse(url).value).Some?
            ==> r == StructuredId(WebUrl.Parse(url).value)
    ensures url != [] && (WebUrl.Parse(url).None? || StructuredId(WebUrl.Parse(url).value).None?)
            ==> r == IdPattern.MatchId(url)
  {
    if url == [] then None
    else
      var structured := match WebUrl.Parse(url)
        case None => None
        case Some(u) => StructuredId(u);
      if structured.Some? then structured else IdPattern.MatchId(url)
  }

  /** An ID that comes from the pattern search holds no '#', '&' or '?'. */
  lemma FallbackIdHasNoStops(url: string)
    requires url != [] && (WebUrl.Parse(url).None? || StructuredId(WebUrl.Parse(url).value).None?)
    requires GetYouTubeVideoId(url).Some?
    ensures forall i :: 0 <= i < 11 ==> !IdPattern.IsIdStop(GetYouTubeVideoId(url).value[i])
  {
  }

  lemma HttpsIsScheme()
    ensures WebUrl.IsScheme("https") && forall i :: 0 <= i < 5 ==> !IsAsciiUpper("https"[i])
    ensures WebUrl.IsSpecial("https" + ":")
  {
    assert "https" + ":" == "https:";
  }

  /** `searchParams.get('v')` on a query that is just `v=<id>`. */
  lemma {:induction false} SearchParamSingle(id: string)
    requires WebUrl.NoneOf(id, {'&', '+'})
    ensures WebUrl.SearchParam("v=" + id, "v") == Some(id)
  {
    var q := "v=" + id;
    FirstOfUnique(q, {'&'}, |q|);
    assert q[..|q|] == q;
    FirstOfUnique(q, {'='}, 1);
    assert q[..1] == "v" && q[2..] == id;
    assert WebUrl.PlusToSpace("v") == "v";
    assert WebUrl.PlusToSpace(id) == id;
  }

  /** A structured reading, when there is one, is the answer. */
  lemma StructuredWins(url: string, u: WebUrl.Url)
    requires url != [] && WebUrl.Parse(url) == Some(u) && StructuredId(u).Some?
    ensures GetYouTubeVideoId(url) == StructuredId(u)
  {
  }

  /** An https link with a plain lower-case host parses into that host and
      the path and query its tail splits into. */
  lemma HttpsLinkParses(url: string, host: string, tail: string, path: string, query: string)
    requires url == "https://" + host + tail && WebUrl.Printable(host + tail)
    requires host != [] && WebUrl.NoneOf(host, {'/', '\\', '?', '#', '@', ':'})
    requires forall i :: 0 <= i < |host| ==> !IsAsciiUpper(host[i])
    requires tail == [] || tail[0] in {'/', '?', '#'}
    requires WebUrl.PathAndQuery(tail) == (path, query) && path != [] && WebUrl.NoneOf(path, {'\\'})
    ensures WebUrl.Parse(url) == Some(WebUrl.Url("https:", host, path, query))
  {
    HttpsIsScheme();
    assert "https://" == "https" + ":" + "//";
    assert url == "https" + ":" + ("//" + (host + tail));
    WebUrl.ParseAuthorityUrl(url, "https", host, tail);
    assert "https" + ":" == "https:";
    assert WebUrl.Parse(url) == Some(WebUrl.Url("https" + ":", host, path, query));
  }

  lemma YouTubeHostsArePlain()
    ensures WebUrl.NoneOf("www.youtube.com", {'/', '\\', '?', '#', '@', ':'})
    ensures forall i :: 0 <= i < |"www.youtube.com"| ==> !IsAsciiUpper("www.youtube.com"[i])
    ensures WebUrl.NoneOf("youtu.be", {'/', '\\', '?', '#', '@', ':'})
    ensures forall i :: 0 <= i < |"youtu.be"| ==> !IsAsciiUpper("youtu.be"[i])
    ensures WebUrl.Printable("www.youtube.com") && WebUrl.Printable("youtu.be")
  {
  }

  /** The fixed parts of the links contain no controls, spaces or
      backslashes. */
  lemma LinkPartsArePlain()
    ensures WebUrl.Printable("/watch?v=") && WebUrl.NoneOf("/watch", {'\\'})
    ensures WebUrl.Printable("/embed/") && WebUrl.NoneOf("/embed/", {'\\'})
    ensures WebUrl.Printable("/") && WebUrl.NoneOf("/", {'\\'})
  {
  }

  /** The link prefixes, split into scheme, host and path. */
  lemma WatchPrefix()
    ensures "https://www.youtube.com/watch?v=" == "https://" + "www.youtube.com" + "/watch?v="
  {
  }

  lemma EmbedPrefix()
    ensures "https://www.youtube.com/embed/" == "https://" + "www.youtube.com" + "/embed/"
  {
  }

  lemma ShortPrefix()
    ensures "https://youtu.be/" == "https://" + "youtu.be" + "/"
  {
  }

  lemma WatchPathAndQuery(id: string)
    requires WebUrl.NoneOf(id, {'#'})
    ensures WebUrl.PathAndQuery("/watch?v=" + id) == ("/watch", "v=" + id)
  {
    var tail := "/watch?v=" + id;
    FirstOfUnique("/watch?v=", {'?', '#'}, 6);
    FirstOfAppend("/watch?v=", id, {'?', '#'});
    var rest := tail[7..];
    assert rest == "v=" + id;
    FirstOfUnique(rest, {'#'}, |rest|);
    assert rest[..|rest|] == rest;
    assert tail[..6] == "/watch";
  }

  lemma WatchLinkParses(url: string, id: string)
    requires url == "https://www.youtube.com/watch?v=" + id
    requires WebUrl.NoneOf(id, {'#'}) && WebUrl.Printable(id)
    ensures WebUrl.Parse(url) == Some(WebUrl.Url("https:", "www.youtube.com", "/watch", "v=" + id))
  {
    YouTubeHostsArePlain();
    LinkPartsArePlain();
    WatchPathAndQuery(id);
    var host, tail := "www.youtube.com", "/watch?v=" + id;
    WebUrl.PrintableJoin("/watch?v=", id);
    WebUrl.PrintableJoin(host, tail);
    WatchPrefix();
    assert url == "https://" + host + tail;
    HttpsLinkParses(url, host, tail, "/watch", "v=" + id);
  }

  /** Every watch link `https://www.youtube.com/watch?v=<id>` with an
      eleven-character ID yields that ID. */
  lemma {:induction false} WatchLinkYieldsId(id: string)
    requires |id| == 11 && IsVideoIdText(id)
    ensures GetYouTubeVideoId("https://www.youtube.com/watch?v=" + id) == Some(id)
  {
    VideoIdTextIsPlain(id);
    var url := "https://www.youtube.com/watch?v=" + id;
    var u := WebUrl.Url("https:", "www.youtube.com", "/watch", "v=" + id);
    WatchLinkParses(url, id);
    SearchParamSingle(id);
    assert StructuredId(u) == Some(id);
    StructuredWins(url, u);
  }

  /** A character of a YouTube video ID: an ASCII letter, a digit, '-' or
      '_'. URL parsing neither strips, rewrites, percent-encodes nor
      percent-decodes any of them. */
  predicate IsVideoIdChar(c: char)
  {
    'a' <= c <= 'z' || 'A' <= c <= 'Z' || '0' <= c <= '9' || c == '-' || c == '_'
  }

  predicate IsVideoIdText(s: string)
  {
    forall i :: 0 <= i < |s| ==> IsVideoIdChar(s[i])
  }

  /** ID text holds nothing that URL parsing or the link's structure would
      treat specially. */
  lemma VideoIdTextIsPlain(id: string)
    requires IsVideoIdText(id)
    ensures WebUrl.Printable(id) && WebUrl.NoneOf(id, {'&', '#', '+', '?', '\\'})
  {
  }

  lemma NoneOfJoin(x: string, y: string, chars: set<char>)
    requires WebUrl.NoneOf(x, chars) && WebUrl.NoneOf(y, chars)
    ensures WebUrl.NoneOf(x + y, chars)
  {
    forall i | 0 <= i < |x + y| ensures (x + y)[i] !in chars {
      if i >= |x| { assert (x + y)[i] == y[i - |x|]; }
    }
  }

  /** The path of `/<id><tail>` is `/<id>` when `id` has no '?' or '#'
      and the tail is empty or starts a query or fragment. */
  lemma PathBeforeTail(path: string, tail: string)
    requires WebUrl.NoneOf(path, {'?', '#'})
    requires tail == [] || tail[0] in {'?', '#'}
    ensures WebUrl.PathAndQuery(path + tail).0 == path
  {
    FirstOfUnique(path, {'?', '#'}, |path|);
    FirstOfAppend(path, tail, {'?', '#'});
    FirstOfUnique(tail, {'?', '#'}, 0);
    assert (path + tail)[..|path|] == path;
  }

  lemma ShortLinkParses(url: string, id: string, tail: string)
    requires url == "https://youtu.be/" + id + tail
    requires WebUrl.NoneOf(id, {'?', '#', '\\'}) && WebUrl.Printable(id) && WebUrl.Printable(tail)
    requires tail == [] || tail[0] in {'?', '#'}
    ensures WebUrl.Parse(url) == Some(WebUrl.Url("https:", "youtu.be", "/" + id, WebUrl.PathAndQuery("/" + id + tail).1))
  {
    var host, path := "youtu.be", "/" + id;
    YouTubeHostsArePlain();
    LinkPartsArePlain();
    NoneOfJoin("/", id, {'?', '#', '\\'});
    WebUrl.PrintableJoin("/", id);
    WebUrl.PrintableJoin(path, tail);
    WebUrl.PrintableJoin(host, path + tail);
    PathBeforeTail(path, tail);
    assert path + tail == "/" + id + tail;
    ShortPrefix();
    assert url == "https://" + host + (path + tail);
    HttpsLinkParses(url, host, path + tail, path, WebUrl.PathAndQuery(path + tail).1);
  }

  lemma ShortUrlStructured(id: string, u: WebUrl.Url)
    requires |id| == 11 && u.hostname == "youtu.be" && u.pathname == "/" + id
    ensures StructuredId(u) == Some(id)
  {
    assert !IsYouTubeHost(u.hostname);
    assert Substring(u.pathname, 1) == id;
  }

  /** Every short link `https://youtu.be/<id><tail>`, with an
      eleven-character ID and a tail that is empty or starts a query or
      fragment and holds no controls or spaces, yields that ID. */
  lemma {:induction false} ShortLinkYieldsId(id: string, tail: string)
    requires |id| == 11 && IsVideoIdText(id)
    requires WebUrl.Printable(tail)
    requires tail == [] || tail[0] in {'?', '#'}
    ensures GetYouTubeVideoId("https://youtu.be/" + id + tail) == Some(id)
  {
    VideoIdTextIsPlain(id);
    var url := "https://youtu.be/" + id + tail;
    var u := WebUrl.Url("https:", "youtu.be", "/" + id, WebUrl.PathAndQuery("/" + id + tail).1);
    ShortLinkParses(url, id, tail);
    ShortUrlStructured(id, u);
    StructuredWins(url, u);
  }

  /** A path followed by nothing or a fragment has no query. */
  lemma PathBeforeFragment(path: string, fragment: string)
    requires WebUrl.NoneOf(path, {'?', '#'})
    requires fragment == [] || fragment[0] == '#'
    ensures WebUrl.PathAndQuery(path + fragment) == (path, "")
  {
    PathBeforeTail(path, fragment);
    FirstOfUnique(path, {'?', '#'}, |path|);
    FirstOfAppend(path, fragment, {'?', '#'});
    FirstOfUnique(fragment, {'?', '#'}, 0);
    if fragment != [] {
      assert (path + fragment)[|path|] == '#';
    }
  }

  lemma EmbedLinkParses(url: string, id: string, fragment: string)
    requires url == "https://www.youtube.com/embed/" + id + fragment
    requires WebUrl.NoneOf(id, {'?', '#', '\\'}) && WebUrl.Printable(id) && WebUrl.Printable(fragment)
    requires fragment == [] || fragment[0] == '#'
    ensures WebUrl.Parse(url) == Some(WebUrl.Url("https:", "www.youtube.com", "/embed/" + id, ""))
  {
    var host, path := "www.youtube.com", "/embed/" + id;
    YouTubeHostsArePlain();
    LinkPartsArePlain();
    NoneOfJoin("/embed/", id, {'?', '#', '\\'});
    WebUrl.PrintableJoin("/embed/", id);
    WebUrl.PrintableJoin(path, fragment);
    WebUrl.PrintableJoin(host, path + fragment);
    PathBeforeFragment(path, fragment);
    EmbedPrefix();
    assert url == "https://" + host + (path + fragment);
    HttpsLinkParses(url, host, path + fragment, path, "");
  }

  lemma EmbedUrlStructured(id: string, u: WebUrl.Url)
    requires |id| == 11 && u.pathname == "/embed/" + id && u.search == ""
    ensures StructuredId(u) == Some(id)
  {
    assert WebUrl.SearchParam(u.search, "v").None?;
    assert u.hostname != "youtu.be" || |Substring(u.pathname, 1)| != 11;
    assert StartsWith(u.pathname, "/embed/") && Substring(u.pathname, 7) == id;
  }

  /** Every embed link `https://www.youtube.com/embed/<id>`, with an
      eleven-character ID and optionally a fragment holding no controls or
      spaces, yields that ID. */
  lemma {:induction false} EmbedLinkYieldsId(id: string, fragment: string)
    requires |id| == 11 && IsVideoIdText(id)
    requires WebUrl.Printable(fragment)
    requires fragment == [] || fragment[0] == '#'
    ensures GetYouTubeVideoId("https://www.youtube.com/embed/" + id + fragment) == Some(id)
  {
    VideoIdTextIsPlain(id);
    var url := "https://www.youtube.com/embed/" + id + fragment;
    var u := WebUrl.Url("https:", "www.youtube.com", "/embed/" + id, "");
    EmbedLinkParses(url, id, fragment);
    EmbedUrlStructured(id, u);
    StructuredWins(url, u);
  }
}
