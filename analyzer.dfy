/** The analyzer view (components/AnalyzerView.tsx): a URL is checked
    for a video ID with the shared pattern, sent for analysis, and the
    analysis shown beside the embedded video. */
module Analyzer {
  import opened Js
  import opened Text
  import Json
  import WebUrl
  import IdPattern
  import GeminiService
  import Utils

  const InvalidUrlMessage: string := "Invalid YouTube URL. Please provide a valid video link."
  const AnalysisFailedMessage: string := "Failed to analyze the video. Please check the URL or try again later."
  const SampleId: string := "4Tm6Z1y3h94"
  const SampleQuery: string := "si=BYmISzZW2IptXcui"
  /** The sample link, `https://youtu.be/4Tm6Z1y3h94?si=BYmISzZW2IptXcui`,
      written by its parts. */
  const SampleUrl: string := "https://youtu.be/" + SampleId + "?" + SampleQuery

  /** The pattern finds the sample video's ID in the sample link. */
  lemma SampleUrlId()
    ensures IdPattern.MatchId(SampleUrl) == Some(SampleId)
  {
    SampleIdIsPlain();
    SampleQueryIsPlain();
    IdPattern.ShortLinkMatchesId(SampleId, SampleQuery);
  }

  lemma SampleIdIsPlain()
    ensures IdPattern.NoMarkerPair(SampleId) && IdPattern.OneLine(SampleId)
    ensures forall i :: 0 <= i < |SampleId| ==> !IdPattern.IsIdStop(SampleId[i])
  {
    var a, b := "4Tm6Z", "1y3h94";
    assert SampleId == a + b;
    assert IdPattern.NoMarkerPair(a) && IdPattern.NoMarkerPair(b);
    IdPattern.NoMarkerPairJoin(a, b);
    assert IdPattern.OneLine(a) && IdPattern.OneLine(b);
    IdPattern.OneLineJoin(a, b);
    assert forall i :: 0 <= i < |a| ==> !IdPattern.IsIdStop(a[i]);
    assert forall i :: 0 <= i < |b| ==> !IdPattern.IsIdStop(b[i]);
    forall i | 0 <= i < |SampleId| ensures !IdPattern.IsIdStop(SampleId[i]) {
      if i >= |a| { assert SampleId[i] == b[i - |a|]; } else { assert SampleId[i] == a[i]; }
    }
  }

  lemma SampleQueryIsPlain()
    ensures IdPattern.NoMarkerPair(SampleQuery) && IdPattern.OneLine(SampleQuery)
  {
    var c, d, e, f := "si=BY", "mISzZ", "W2Ipt", "Xcui";
    assert SampleQuery == c + d + e + f;
    assert IdPattern.NoMarkerPair(c) && IdPattern.NoMarkerPair(d);
    assert IdPattern.NoMarkerPair(e) && IdPattern.NoMarkerPair(f);
    assert IdPattern.OneLine(c) && IdPattern.OneLine(d) && IdPattern.OneLine(e) && IdPattern.OneLine(f);
    IdPattern.NoMarkerPairJoin(c, d);
    IdPattern.NoMarkerPairJoin(c + d, e);
    IdPattern.NoMarkerPairJoin(c + d + e, f);
    IdPattern.OneLineJoin(c, d);
    IdPattern.OneLineJoin(c + d, e);
    IdPattern.OneLineJoin(c + d + e, f);
  }

  /** The address of the embedded player for a video ID. */
  function EmbedSource(videoId: string): string
  {
    "https://www.youtube.com/embed/" + videoId
  }

  /** The player shows the very video the pattern found: reading the embed
      address back with `getYouTubeVideoId` gives the same ID, when the ID
      is made of the characters of a YouTube video ID. */
  lemma EmbedSourceRoundTrip(url: string)
    requires IdPattern.MatchId(url).Some?
    requires Utils.IsVideoIdText(IdPattern.MatchId(url).value)
    ensures Utils.GetYouTubeVideoId(EmbedSource(IdPattern.MatchId(url).value)) == IdPattern.MatchId(url)
  {
    var id := IdPattern.MatchId(url).value;
    assert WebUrl.Printable([]);
    Utils.EmbedLinkYieldsId(id, []);
    assert EmbedSource(id) == "https://www.youtube.com/embed/" + id + [];
  }


  class AnalyzerView {
    var url: string
    var videoId: Option<string>
    var analysis: Option<Json.Value>
    var isLoading: bool
    var error: Option<string>

    constructor()
      ensures url == "" && videoId == None && analysis == None && !isLoading && error == None
    {
      url := "";
      videoId := None;
      analysis := None;
      isLoading := false;
      error := None;
    }

    /** The condition under which the player and the analysis are
        rendered. An analysis object is always truthy, so for one the panel
        depends only on a non-empty ID and loading being off. */
    function ShowsResult(): (r: bool)
      reads this
      ensures r ==> analysis.Some? && videoId.Some? && videoId.value != [] && !isLoading
      ensures analysis.Some? && analysis.value.Object? ==>
                (r <==> videoId.Some? && videoId.value != [] && !isLoading)
    {
      analysis.Some? && Json.Truthy(analysis.value) && videoId.Some? && videoId.value != [] && !isLoading
    }

    /** `handleUrlSubmit`: an empty URL changes nothing; a URL without an ID
        only sets the invalid-URL error. Otherwise the view is cleared and
        put into loading, and ends with the analysis and the ID, or with the
        failure message and neither; loading is off at the end. */
    method HandleUrlSubmit(submittedUrl: string, reply: Result<string, Thrown>, parse: Json.Parser)
      modifies this
      ensures url == old(url)
      ensures submittedUrl == [] ==> unchanged(this)
      ensures submittedUrl != [] && IdPattern.MatchId(submittedUrl).None? ==>
                error == Some(InvalidUrlMessage) && videoId == old(videoId)
                && analysis == old(analysis) && isLoading == old(isLoading)
      ensures submittedUrl != [] && IdPattern.MatchId(submittedUrl).Some? ==>
                var result := GeminiService.Analysis(submittedUrl, reply, parse);
                && !isLoading
                && analysis == (if result.Success? then Some(result.value) else None)
                && videoId == (if result.Success? then IdPattern.MatchId(submittedUrl) else None)
                && error == (if result.Success? then None else Some(AnalysisFailedMessage))
                && (ShowsResult() <==> result.Success?)
    {
      if submittedUrl == [] {
        return;
      }
      var id := IdPattern.MatchId(submittedUrl);
      if id.None? {
        error := Some(InvalidUrlMessage);
        return;
      }
      Begin();
      var result := GeminiService.AnalyzeYouTubeVideo(submittedUrl, reply, parse);
      Settle(result, id.value);
    }

    /** What `handleUrlSubmit` does before the try block: loading on, the
        previous analysis, error and ID cleared. */
    method Begin()
      modifies this
      ensures url == old(url) && isLoading
      ensures analysis == None && videoId == None && error == None
    {
      isLoading := true;
      analysis := None;
      error := None;
      videoId := None;
    }

    /** The end of the try block, the catch block and the finally block of
        `handleUrlSubmit`, from the cleared state. */
    method Settle(result: Result<Json.Value, Thrown>, id: string)
      requires id != [] && (result.Success? ==> result.value.Object?)
      requires analysis == None && videoId == None && error == None
      modifies this
      ensures url == old(url) && !isLoading
      ensures analysis == (if result.Success? then Some(result.value) else None)
      ensures videoId == (if result.Success? then Some(id) else None)
      ensures error == (if result.Success? then None else Some(AnalysisFailedMessage))
      ensures ShowsResult() <==> result.Success?
    {
      if result.Success? {
        analysis := Some(result.value);
        videoId := Some(id);
      } else {
        error := Some(AnalysisFailedMessage);
      }
      isLoading := false;
    }

    /** `handleSampleClick`: puts the sample link in the field and submits
        it. */
    method HandleSampleClick(reply: Result<string, Thrown>, parse: Json.Parser)
      modifies this
      ensures url == SampleUrl
      ensures var result := GeminiService.Analysis(SampleUrl, reply, parse);
                && !isLoading
                && analysis == (if result.Success? then Some(result.value) else None)
                && videoId == (if result.Success? then Some(SampleId) else None)
                && error == (if result.Success? then None else Some(AnalysisFailedMessage))
                && (ShowsResult() <==> result.Success?)
    {
      url := SampleUrl;
      SampleUrlId();
      HandleUrlSubmit(SampleUrl, reply, parse);
    }
  }
}
