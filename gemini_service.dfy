/** The service layer around the Gemini SDK (services/geminiService.ts):
    the post-processing of a video analysis and the conversion of a chat
    transcript into the SDK's history format. The SDK call itself is an
    input: the reply text, or the value the call threw. */
module GeminiService {
  import opened Js
  import opened Text
  import Json

  const InvalidUrlMessage: string := "Invalid YouTube URL provided."
  const MalformedMessage: string := "Received malformed data from API. Failed to parse the analysis structure."
  const ParseFailureMessage: string := "Failed to parse the analysis from the API. The response was not valid JSON."
  const GenericFailureMessage: string := "Failed to get analysis from Gemini API."
  /** What a browser engine says when `null.title` is read; the catch block
      replaces it, so only its class matters. */
  const NullTitleMessage: string := "Cannot read properties of null (reading 'title')"

  const JsonFence: string := "```json"
  const Fence: string := "```"

  /** The guard in front of any request. */
  predicate MentionsYouTube(url: string)
  {
    Contains(url, "youtube.com") || Contains(url, "youtu.be")
  }

  // ---------------------------------------------------------------------
  // Fence stripping

  /** Where the text left after the leading-fence removal begins: after
      "```json" and every whitespace character that follows it, or 0. */
  function FenceStart(t: string): (a: nat)
    ensures a <= |t|
    ensures StartsWith(t, JsonFence) ==> 7 <= a && AllWhitespace(t[7..a]) && (a == |t| || !IsWhitespace(t[a]))
    ensures !StartsWith(t, JsonFence) ==> a == 0
  {
    if StartsWith(t, JsonFence) then
      var rest := TrimStart(t[7..]);
      assert t[|t| - |rest|..] == t[7..][|t[7..]| - |rest|..];
      assert t[7..|t| - |rest|] == t[7..][..|t[7..]| - |rest|];
      |t| - |rest|
    else 0
  }

  /** The removals `^```json\s*` and `` ```$ `` leave `t[a..a + |r|]`: the
      front is empty or a fence with its whitespace, the back is empty or
      the closing fence. */
  predicate StripsAt(t: string, r: string, a: int)
  {
    0 <= a && a + |r| <= |t| && t[a..a + |r|] == r
    && (a == 0 || (StartsWith(t, JsonFence) && 7 <= a && AllWhitespace(t[7..a])))
    && (a + |r| == |t| || (a + |r| == |t| - 3 && EndsWith(t, Fence)))
  }

  /** `t.replace(/^```json\s*|```$/g, '')`. The global search resumes where
      the leading match ended, so a trailing fence is removed only when it
      begins at or after that point. */
  function StripFences(t: string): (r: string)
    ensures |r| <= |t|
    ensures StripsAt(t, r, FenceStart(t))
    ensures EndsWith(t, Fence) && |t| - 3 >= FenceStart(t) ==> FenceStart(t) + |r| == |t| - 3
  {
    var a := FenceStart(t);
    var e := if EndsWith(t, Fence) && |t| - 3 >= a then |t| - 3 else |t|;
    SliceStrips(t, a, e);
    t[a..e]
  }

  /** The slice between the two removals satisfies `StripsAt`. */
  lemma SliceStrips(t: string, a: nat, e: nat)
    requires a <= e <= |t|
    requires a == 0 || (StartsWith(t, JsonFence) && 7 <= a && AllWhitespace(t[7..a]))
    requires e == |t| || (e == |t| - 3 && EndsWith(t, Fence))
    ensures StripsAt(t, t[a..e], a)
  {
    assert t[a..a + (e - a)] == t[a..e];
  }

  /** After "```json" and a run of whitespace, the leading match ends
      where the first other character begins. */
  lemma FenceStartAfter(ws: string, rest: string)
    requires AllWhitespace(ws)
    requires rest == [] || !IsWhitespace(rest[0])
    ensures FenceStart(JsonFence + ws + rest) == 7 + |ws|
  {
    var t := JsonFence + ws + rest;
    assert StartsWith(t, JsonFence) by { assert t[..7] == JsonFence; }
    var tail := t[7..];
    assert tail == ws + rest;
    assert tail[..|ws|] == ws && tail[|ws|..] == rest;
    TrimStartAt(tail, |ws|);
  }

  /** A fenced reply, "```json", whitespace, the body and "```", is
      unwrapped to exactly the body when the body does not itself begin
      with whitespace. */
  lemma StripFencesUnwraps(ws: string, body: string)
    requires AllWhitespace(ws)
    requires body == [] || !IsWhitespace(body[0])
    ensures StripFences(JsonFence + ws + body + Fence) == body
  {
    var rest := body + Fence;
    assert rest[0] == if body == [] then '`' else body[0];
    FenceStartAfter(ws, rest);
    var t := JsonFence + ws + rest;
    assert t == JsonFence + ws + body + Fence;
    assert t[|t| - 3..] == Fence;
    assert t[7 + |ws|..|t| - 3] == body;
  }

  /** A reply without either fence passes through unchanged. */
  lemma StripFencesPlain(t: string)
    requires !StartsWith(t, JsonFence) && !EndsWith(t, Fence)
    ensures StripFences(t) == t
  {
    assert t[0..] == t;
  }

  /** Only a closing fence: it alone is removed. */
  lemma StripFencesClosingOnly(body: string)
    requires !StartsWith(body + Fence, JsonFence)
    ensures StripFences(body + Fence) == body
  {
    var t := body + Fence;
    assert t[|t| - 3..] == Fence;
    assert t[0..|t| - 3] == body;
  }

  // ---------------------------------------------------------------------
  // Validation and error classification

  /** `parsedData.key` is an array. */
  predicate ArrayProperty(v: Json.Value, key: string)
    requires !v.Null?
  {
    var p := Json.Property(v, key);
    p.Some? && p.value.Array?
  }

  /** The three checks on the parsed value: a truthy `title`, a truthy
      `summary` and an array `detailedAnalysis`. */
  predicate HasAnalysisShape(v: Json.Value)
  {
    !v.Null? && Json.TruthyProperty(v, "title") && Json.TruthyProperty(v, "summary")
    && ArrayProperty(v, "detailedAnalysis")
  }

  /** The body of the try block: what it returns, or what it throws. */
  function TryBlock(reply: Result<string, Thrown>, parse: Json.Parser): (r: Result<Json.Value, Thrown>)
    ensures r.Success? ==> HasAnalysisShape(r.value)
    ensures r.Success? <==> reply.Success? && parse(StripFences(Trim(reply.value))).Success?
                            && HasAnalysisShape(parse(StripFences(Trim(reply.value))).value)
    ensures r.Success? ==> r.value == parse(StripFences(Trim(reply.value))).value
  {
    match reply
    case Failure(e) => Failure(e)
    case Success(text) =>
      match parse(StripFences(Trim(text)))
      case Failure(m) => Failure(ErrorObject(SyntaxError, m))
      case Success(v) =>
        if v.Null? then Failure(ErrorObject(TypeError, NullTitleMessage))
        else if !HasAnalysisShape(v) then Failure(PlainError(MalformedMessage))
        else Success(v)
  }

  /** The catch block: a SyntaxError becomes the not-JSON message,
      anything else the generic one. */
  function Caught(t: Thrown): (e: Thrown)
    ensures e.ErrorObject? && e.kind == Error
    ensures e.message == ParseFailureMessage <==> t.ErrorObject? && t.kind == SyntaxError
    ensures e.message == ParseFailureMessage || e.message == GenericFailureMessage
  {
    if t.ErrorObject? && t.kind == SyntaxError then PlainError(ParseFailureMessage)
    else PlainError(GenericFailureMessage)
  }

  /** What `analyzeYouTubeVideo(url)` settles to, given the SDK reply. */
  function Analysis(url: string, reply: Result<string, Thrown>, parse: Json.Parser): (r: Result<Json.Value, Thrown>)
    ensures !MentionsYouTube(url) ==> r == Failure(PlainError(InvalidUrlMessage))
    ensures r.Success? ==> HasAnalysisShape(r.value) && r.value.Object?
    ensures r.Failure? ==> r.error.ErrorObject? && r.error.kind == Error
  {
    if !MentionsYouTube(url) then Failure(PlainError(InvalidUrlMessage))
    else
      match TryBlock(reply, parse)
      case Success(v) => Success(v)
      case Failure(t) => Failure(Caught(t))
  }

  /** `analyzeYouTubeVideo`, step by step: the guard, then inside the try
      the trim, the fence removal, the parse and the three checks, and the
      catch that rewrites whatever was thrown. */
  method AnalyzeYouTubeVideo(url: string, reply: Result<string, Thrown>, parse: Json.Parser)
    returns (r: Result<Json.Value, Thrown>)
    ensures r == Analysis(url, reply, parse)
  {
    if !(Contains(url, "youtube.com") || Contains(url, "youtu.be")) {
      return Failure(PlainError(InvalidUrlMessage));
    }
    var thrown: Option<Thrown> := None;
    var parsedData: Json.Value := Json.Null;
    if reply.Failure? {
      thrown := Some(reply.error);
    } else {
      var jsonText := Trim(reply.value);
      var cleanedJsonText := StripFences(jsonText);
      var parsed := parse(cleanedJsonText);
      if parsed.Failure? {
        thrown := Some(ErrorObject(SyntaxError, parsed.error));
      } else {
        parsedData := parsed.value;
        if parsedData.Null? {
          thrown := Some(ErrorObject(TypeError, NullTitleMessage));
        } else if !Json.TruthyProperty(parsedData, "title") || !Json.TruthyProperty(parsedData, "summary")
                  || !ArrayProperty(parsedData, "detailedAnalysis") {
          thrown := Some(PlainError(MalformedMessage));
        }
      }
    }
    if thrown.Some? {
      if thrown.value.ErrorObject? && thrown.value.kind == SyntaxError {
        r := Failure(PlainError(ParseFailureMessage));
      } else {
        r := Failure(PlainError(GenericFailureMessage));
      }
    } else {
      r := Success(parsedData);
    }
  }

  /** The analysis succeeds exactly when the URL passes the guard, the SDK
      answers, the cleaned text parses and the value has the three fields;
      it is then that value, unchanged. */
  lemma AnalysisSucceedsIff(url: string, reply: Result<string, Thrown>, parse: Json.Parser)
    ensures var r := Analysis(url, reply, parse);
            r.Success? <==> MentionsYouTube(url) && reply.Success?
                            && parse(StripFences(Trim(reply.value))).Success?
                            && HasAnalysisShape(parse(StripFences(Trim(reply.value))).value)
    ensures var r := Analysis(url, reply, parse);
            r.Success? ==> r.value == parse(StripFences(Trim(reply.value))).value
  {
  }

  /** Whatever goes wrong, the caller sees one of three fixed messages. */
  lemma AnalysisFailureMessages(url: string, reply: Result<string, Thrown>, parse: Json.Parser)
    ensures var r := Analysis(url, reply, parse);
            r.Failure? ==> r.error.message in {InvalidUrlMessage, ParseFailureMessage, GenericFailureMessage}
  {
  }

  /** Text that does not parse ends with the not-JSON message. */
  lemma UnparsableReplyMessage(url: string, text: string, parse: Json.Parser)
    requires MentionsYouTube(url) && parse(StripFences(Trim(text))).Failure?
    ensures Analysis(url, Success(text), parse) == Failure(PlainError(ParseFailureMessage))
  {
  }

  /** A parsed value that fails the checks (null included) is not a
      SyntaxError: it ends with the generic message. */
  lemma MalformedReplyMessage(url: string, text: string, parse: Json.Parser)
    requires MentionsYouTube(url)
    requires parse(StripFences(Trim(text))).Success? && !HasAnalysisShape(parse(StripFences(Trim(text))).value)
    ensures Analysis(url, Success(text), parse) == Failure(PlainError(GenericFailureMessage))
  {
  }

  /** A failed SDK call is classified by its class alone. */
  lemma SdkFailureMessage(url: string, t: Thrown, parse: Json.Parser)
    requires MentionsYouTube(url)
    ensures Analysis(url, Failure(t), parse)
            == Failure(PlainError(if t.ErrorObject? && t.kind == SyntaxError then ParseFailureMessage else GenericFailureMessage))
  {
  }

  /** Both the fenced reply and the bare JSON text come out of the trim and
      the fence removal as the bare text. */
  lemma FencedAndBareClean(ws: string, body: string)
    requires AllWhitespace(ws)
    requires body != [] && !IsWhitespace(body[0]) && !IsWhitespace(body[|body| - 1])
    requires !StartsWith(body, JsonFence) && !EndsWith(body, Fence)
    ensures StripFences(Trim(JsonFence + ws + body + Fence)) == body
    ensures StripFences(Trim(body)) == body
  {
    var t := JsonFence + ws + body + Fence;
    assert t[0] == JsonFence[0] == '`' && t[|t| - 1] == Fence[|Fence| - 1] == '`';
    TrimOfTrimmed(t);
    StripFencesUnwraps(ws, body);
    TrimOfTrimmed(body);
    StripFencesPlain(body);
  }

  /** A reply wrapped in a json fence analyses exactly as the bare JSON
      text: the wrapping the prompt forbids is undone. */
  lemma FencedReplyAnalysesAsBare(url: string, ws: string, body: string, parse: Json.Parser)
    requires AllWhitespace(ws)
    requires body != [] && !IsWhitespace(body[0]) && !IsWhitespace(body[|body| - 1])
    requires !StartsWith(body, JsonFence) && !EndsWith(body, Fence)
    ensures Analysis(url, Success(JsonFence + ws + body + Fence), parse) == Analysis(url, Success(body), parse)
  {
    FencedAndBareClean(ws, body);
    SameCleanTextSameAnalysis(url, JsonFence + ws + body + Fence, body, parse);
  }

  /** The analysis reads the reply only through its cleaned text. */
  lemma SameCleanTextSameAnalysis(url: string, t1: string, t2: string, parse: Json.Parser)
    requires StripFences(Trim(t1)) == StripFences(Trim(t2))
    ensures Analysis(url, Success(t1), parse) == Analysis(url, Success(t2), parse)
  {
  }

  // ---------------------------------------------------------------------
  // Chat history

  datatype Role = User | Model

  /** An entry of the chat transcript. */
  datatype ChatMessage = ChatMessage(role: Role, content: string)

  /** The SDK's history entry: a role and its parts. */
  datatype Part = Part(text: string)
  datatype Content = Content(role: Role, parts: seq<Part>)

  /** `history.map(msg => ({ role: msg.role, parts: [{ text: msg.content }] }))` */
  function ToChatHistory(history: seq<ChatMessage>): (r: seq<Content>)
    ensures |r| == |history|
    ensures forall i :: 0 <= i < |history| ==> r[i].role == history[i].role && r[i].parts == [Part(history[i].content)]
  {
    if history == [] then []
    else
      var last := history[|history| - 1];
      ToChatHistory(history[..|history| - 1]) + [Content(last.role, [Part(last.content)])]
  }

  /** Reads a transcript back from an SDK history: each entry's role and
      the text of its first part. */
  function FromChatHistory(contents: seq<Content>): (r: seq<ChatMessage>)
    ensures |r| == |contents|
  {
    if contents == [] then []
    else
      var last := contents[|contents| - 1];
      var text := if last.parts == [] then "" else last.parts[0].text;
      FromChatHistory(contents[..|contents| - 1]) + [ChatMessage(last.role, text)]
  }

  /** The mapping loses nothing: reading the history back gives the
      transcript. */
  lemma {:induction false} ChatHistoryRoundTrip(history: seq<ChatMessage>)
    ensures FromChatHistory(ToChatHistory(history)) == history
  {
    if history != [] {
      var front := history[..|history| - 1];
      ChatHistoryRoundTrip(front);
      var c := ToChatHistory(history);
      assert c[..|c| - 1] == ToChatHistory(front);
      assert history == front + [history[|history| - 1]];
    }
  }

  /** The mapping is entry by entry: a transcript extended by some messages
      maps to the old history extended by theirs. */
  lemma {:induction false} ChatHistoryAppend(a: seq<ChatMessage>, b: seq<ChatMessage>)
    ensures ToChatHistory(a + b) == ToChatHistory(a) + ToChatHistory(b)
    decreases |b|
  {
    if b != [] {
      var front := b[..|b| - 1];
      assert (a + b)[..|a + b| - 1] == a + front;
      ChatHistoryAppend(a, front);
      var cb := ToChatHistory(b);
      assert cb[..|cb| - 1] == ToChatHistory(front);
    }
  }
}
