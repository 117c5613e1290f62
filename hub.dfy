/** The content-generation hub (components/ContentGenerationHub.tsx): three
    panels (image, video, audio script) fed by suggested prompts, each with
    its own loading flag, result and error. */
module Hub {
  import opened Js
  import opened Text
  import VideoJob

  const VideoLoadingMessages: seq<string> := [
    "Warming up the video generator...",
    "Generation is in progress, this can take a few minutes...",
    "Still rendering frames...",
    "Finalizing the video now..."
  ]
  const VideoSuccessMessage: string := "Success! Fetching your video..."
  const PromptErrorMessage: string := "Could not load a suggested prompt."

  /** The `disabled` condition of a card's generate button: disabled
      exactly while its panel or the prompts are loading, or when a
      text-area card's prompt is blank. */
  function GenerateDisabled(isLoading: bool, isPromptLoading: bool, isTextArea: bool, prompt: string): (r: bool)
    ensures r <==> isLoading || isPromptLoading || (isTextArea && AllWhitespace(prompt))
  {
    TrimEmptyIff(prompt);
    isLoading || isPromptLoading || (isTextArea && Trim(prompt) == [])
  }

  /** However long the job runs, the hub's progress index never passes 3. */
  lemma VideoProgressNeverPassesLastMessage(polls: nat)
    ensures VideoJob.ProgressIndex(polls, |VideoLoadingMessages|) == Min(polls, 3)
  {
    VideoJob.ProgressIndexSaturates(polls, |VideoLoadingMessages|);
  }

  /** What `generateSuggestedPrompts` resolves to. */
  datatype Prompts = Prompts(videoPrompt: string, imagePrompt: string)

  /** The fields each card reads, so that a handler can promise to leave
      the other cards alone. */
  datatype ImagePanel = ImagePanel(prompt: string, isLoading: bool, url: Option<string>, error: Option<string>)
  datatype VideoPanel = VideoPanel(prompt: string, isLoading: bool, loadingMessage: string,
                                   url: Option<string>, error: Option<string>)
  datatype ScriptPanel = ScriptPanel(isLoading: bool, script: Option<string>, error: Option<string>, isSpeaking: bool)

  class ContentGenerationHub {
    const analysisText: string
    var isPromptLoading: bool
    var imagePrompt: string
    var videoPrompt: string
    var isLoadingImage: bool
    var isLoadingVideo: bool
    var isLoadingScript: bool
    var videoLoadingMessage: string
    var generatedImageUrl: Option<string>
    var generatedVideoUrl: Option<string>
    var generatedScript: Option<string>
    var imageError: Option<string>
    var videoError: Option<string>
    var scriptError: Option<string>
    var isSpeaking: bool

    /** The initial state: prompts loading, everything else empty. */
    constructor(analysisText: string)
      ensures this.analysisText == analysisText && isPromptLoading
      ensures Image() == ImagePanel("", false, None, None)
      ensures Video() == VideoPanel("", false, "", None, None)
      ensures Script() == ScriptPanel(false, None, None, false)
    {
      this.analysisText := analysisText;
      isPromptLoading := true;
      imagePrompt := "";
      videoPrompt := "";
      isLoadingImage := false;
      isLoadingVideo := false;
      isLoadingScript := false;
      videoLoadingMessage := "";
      generatedImageUrl := None;
      generatedVideoUrl := None;
      generatedScript := None;
      imageError := None;
      videoError := None;
      scriptError := None;
      isSpeaking := false;
    }

    function Image(): ImagePanel
      reads this
    {
      ImagePanel(imagePrompt, isLoadingImage, generatedImageUrl, imageError)
    }

    function Video(): VideoPanel
      reads this
    {
      VideoPanel(videoPrompt, isLoadingVideo, videoLoadingMessage, generatedVideoUrl, videoError)
    }

    function Script(): ScriptPanel
      reads this
    {
      ScriptPanel(isLoadingScript, generatedScript, scriptError, isSpeaking)
    }

    /** `fetchPrompts`: nothing for an empty analysis. Otherwise both
        prompts on success, or the same error on the image and video cards
        on failure, and the prompt spinner is off at the end. The script
        card and every loading flag and result are left alone. */
    method FetchPrompts(suggested: Result<Prompts, Thrown>)
      modifies this
      ensures analysisText == [] ==> unchanged(this)
      ensures analysisText != [] ==> !isPromptLoading
      ensures analysisText != [] && suggested.Success? ==>
                imagePrompt == suggested.value.imagePrompt && videoPrompt == suggested.value.videoPrompt
                && imageError == old(imageError) && videoError == old(videoError)
      ensures analysisText != [] && suggested.Failure? ==>
                imagePrompt == old(imagePrompt) && videoPrompt == old(videoPrompt)
                && imageError == Some(PromptErrorMessage) && videoError == Some(PromptErrorMessage)
      ensures Script() == old(Script())
      ensures isLoadingImage == old(isLoadingImage) && generatedImageUrl == old(generatedImageUrl)
      ensures isLoadingVideo == old(isLoadingVideo) && generatedVideoUrl == old(generatedVideoUrl)
      ensures videoLoadingMessage == old(videoLoadingMessage)
    {
      if analysisText == [] {
        return;
      }
      isPromptLoading := true;
      match suggested {
        case Success(prompts) =>
          videoPrompt := prompts.videoPrompt;
          imagePrompt := prompts.imagePrompt;
        case Failure(_) =>
          imageError := Some(PromptErrorMessage);
          videoError := Some(PromptErrorMessage);
      }
      isPromptLoading := false;
    }

    /** `handleGenerateImage`: the image card ends with the URL or the
        error message, never both, and loading off; no other card changes. */
    method HandleGenerateImage(image: Result<string, Thrown>)
      modifies this
      ensures Image() == ImagePanel(old(imagePrompt), false,
                                    if image.Success? then Some(image.value) else None,
                                    if image.Failure? then Some(MessageOf(image.error)) else None)
      ensures Video() == old(Video()) && Script() == old(Script()) && isPromptLoading == old(isPromptLoading)
    {
      isLoadingImage := true;
      imageError := None;
      generatedImageUrl := None;
      match image {
        case Success(imageUrl) =>
          generatedImageUrl := Some(imageUrl);
        case Failure(err) =>
          imageError := Some(MessageOf(err));
      }
      isLoadingImage := false;
    }

    /** `handleGenerateVideo`: the same job as the standalone generator,
        with this card's four messages and its own success message; a
        failure is stored with no prefix. The card ends with loading off and
        no loading message; no other card changes. */
    method HandleGenerateVideo(calls: seq<VideoJob.Call>, fetch: string -> VideoJob.FetchResponse, apiKey: string)
      returns (polls: nat, shown: seq<string>)
      requires VideoJob.Terminates(calls)
      modifies this
      ensures var outcome := VideoJob.Outcome(calls, fetch, apiKey);
              Video() == VideoPanel(old(videoPrompt), false, "",
                                    if outcome.Success? then Some(outcome.value) else None,
                                    if outcome.Failure? then Some(MessageOf(outcome.error)) else None)
      ensures polls == VideoJob.FirstStop(calls)
      ensures shown == VideoJob.ProgressMessages(VideoLoadingMessages, polls)
                       + (if VideoJob.ReachesFetch(calls) then [VideoSuccessMessage] else [])
      ensures Image() == old(Image()) && Script() == old(Script()) && isPromptLoading == old(isPromptLoading)
    {
      BeginVideo();
      var outcome;
      outcome, polls, shown := VideoJob.Run(calls, VideoLoadingMessages, VideoSuccessMessage, fetch, apiKey);
      SettleVideo(outcome);
    }

    /** What `handleGenerateVideo` does before the try block. */
    method BeginVideo()
      modifies this
      ensures Video() == VideoPanel(old(videoPrompt), true, VideoLoadingMessages[0], None, None)
      ensures Image() == old(Image()) && Script() == old(Script()) && isPromptLoading == old(isPromptLoading)
    {
      isLoadingVideo := true;
      videoError := None;
      generatedVideoUrl := None;
      videoLoadingMessage := VideoLoadingMessages[0];
    }

    /** The catch and finally blocks of `handleGenerateVideo`. */
    method SettleVideo(outcome: Result<string, Thrown>)
      modifies this
      ensures Video() == VideoPanel(old(videoPrompt), false, "",
                                    if outcome.Success? then Some(outcome.value) else old(generatedVideoUrl),
                                    if outcome.Failure? then Some(MessageOf(outcome.error)) else old(videoError))
      ensures Image() == old(Image()) && Script() == old(Script()) && isPromptLoading == old(isPromptLoading)
    {
      match outcome {
        case Success(videoUrl) =>
          generatedVideoUrl := Some(videoUrl);
        case Failure(err) =>
          videoError := Some(MessageOf(err));
      }
      isLoadingVideo := false;
      videoLoadingMessage := "";
    }

    /** `handleGenerateScript`: speech still playing (`engineSpeaking`) is
        cancelled and the speaking flag cleared before the request; the
        card then ends with the script or the error message and loading
        off. `cancelled` tells whether speech was cancelled. No other card
        changes. */
    method HandleGenerateScript(script: Result<string, Thrown>, engineSpeaking: bool)
      returns (cancelled: bool)
      modifies this
      ensures cancelled == engineSpeaking
      ensures Script() == ScriptPanel(false,
                                      if script.Success? then Some(script.value) else None,
                                      if script.Failure? then Some(MessageOf(script.error)) else None,
                                      if engineSpeaking then false else old(isSpeaking))
      ensures Image() == old(Image()) && Video() == old(Video()) && isPromptLoading == old(isPromptLoading)
    {
      isLoadingScript := true;
      scriptError := None;
      generatedScript := None;
      cancelled := false;
      if engineSpeaking {
        cancelled := true;
        isSpeaking := false;
      }
      match script {
        case Success(text) =>
          generatedScript := Some(text);
        case Failure(err) =>
          scriptError := Some(MessageOf(err));
      }
      isLoadingScript := false;
    }
  }
}
