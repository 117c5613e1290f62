/** The standalone video generator (components/GeneratorView.tsx): a
    prompt, a submit handler that runs a video job, and the fields the
    view renders. */
module Generator {
  import opened Js
  import opened Text
  import VideoJob

  const LoadingMessages: seq<string> := [
    "Kicking off the video generation process...",
    "The model is warming up and preparing the scene.",
    "Video generation is in progress. This can take a few minutes.",
    "Still working... rendering frames and composing the video.",
    "Finalizing the video... adding finishing touches.",
    "Almost there... preparing the video for display."
  ]
  const SuccessMessage: string := "Success! Fetching your video now."
  const ErrorPrefix: string := "Failed to generate video. "
  const SamplePrompt: string := "A cinematic, surreal, futuristic shot of a metallic, bioluminescent octopus swimming through a vibrant, glowing coral reef at night."

  /** However long the job runs, the progress index never passes 5, the
      last of the six messages. */
  lemma ProgressNeverPassesLastMessage(polls: nat)
    ensures VideoJob.ProgressIndex(polls, |LoadingMessages|) == Min(polls, 5)
  {
    VideoJob.ProgressIndexSaturates(polls, |LoadingMessages|);
  }

  class GeneratorView {
    var prompt: string
    var isLoading: bool
    var loadingMessage: string
    var generatedVideoUrl: Option<string>
    var error: Option<string>

    constructor()
      ensures prompt == "" && !isLoading && loadingMessage == ""
      ensures generatedVideoUrl == None && error == None
    {
      prompt := "";
      isLoading := false;
      loadingMessage := "";
      generatedVideoUrl := None;
      error := None;
    }

    /** The submit button may start a run. */
    function CanSubmit(): (r: bool)
      reads this
      ensures r <==> !AllWhitespace(prompt) && !isLoading
    {
      TrimEmptyIff(prompt);
      Trim(prompt) != [] && !isLoading
    }

    /** `handleSubmit`: a blank prompt or a run already in progress changes
        nothing. Otherwise the run starts from a cleared state on the first
        loading message, polls the job to its end, stores the video URL or
        the prefixed error message, and always finishes with loading off and
        no loading message. `polls` counts the status checks and `shown`
        lists the loading messages in the order they appeared. */
    method HandleSubmit(calls: seq<VideoJob.Call>, fetch: string -> VideoJob.FetchResponse, apiKey: string)
      returns (polls: nat, shown: seq<string>)
      requires CanSubmit() ==> VideoJob.Terminates(calls)
      modifies this
      ensures !old(CanSubmit()) ==> unchanged(this) && polls == 0 && shown == []
      ensures old(CanSubmit()) ==>
                var outcome := VideoJob.Outcome(calls, fetch, apiKey);
                && prompt == old(prompt) && !isLoading && loadingMessage == ""
                && polls == VideoJob.FirstStop(calls)
                && shown == VideoJob.ProgressMessages(LoadingMessages, polls)
                            + (if VideoJob.ReachesFetch(calls) then [SuccessMessage] else [])
                && generatedVideoUrl == (if outcome.Success? then Some(outcome.value) else None)
                && error == (if outcome.Failure? then Some(ErrorPrefix + MessageOf(outcome.error)) else None)
    {
      if Trim(prompt) == [] || isLoading {
        return 0, [];
      }
      polls, shown := Generate(calls, fetch, apiKey);
    }

    /** The body of the try block of `handleSubmit`, with what precedes it. */
    method Generate(calls: seq<VideoJob.Call>, fetch: string -> VideoJob.FetchResponse, apiKey: string)
      returns (polls: nat, shown: seq<string>)
      requires VideoJob.Terminates(calls)
      modifies this
      ensures var outcome := VideoJob.Outcome(calls, fetch, apiKey);
                && prompt == old(prompt) && !isLoading && loadingMessage == ""
                && polls == VideoJob.FirstStop(calls)
                && shown == VideoJob.ProgressMessages(LoadingMessages, polls)
                            + (if VideoJob.ReachesFetch(calls) then [SuccessMessage] else [])
                && generatedVideoUrl == (if outcome.Success? then Some(outcome.value) else None)
                && error == (if outcome.Failure? then Some(ErrorPrefix + MessageOf(outcome.error)) else None)
    {
      isLoading := true;
      error := None;
      generatedVideoUrl := None;
      loadingMessage := LoadingMessages[0];
      var outcome;
      outcome, polls, shown := VideoJob.Run(calls, LoadingMessages, SuccessMessage, fetch, apiKey);
      Settle(outcome);
    }

    /** The catch and finally blocks of `handleSubmit`: the video URL or the
        prefixed error message, then loading off and no loading message. */
    method Settle(outcome: Result<string, Thrown>)
      modifies this
      ensures prompt == old(prompt) && !isLoading && loadingMessage == ""
      ensures generatedVideoUrl == (if outcome.Success? then Some(outcome.value) else old(generatedVideoUrl))
      ensures error == (if outcome.Failure? then Some(ErrorPrefix + MessageOf(outcome.error)) else old(error))
    {
      match outcome {
        case Success(videoUrl) =>
          generatedVideoUrl := Some(videoUrl);
        case Failure(thrown) =>
          error := Some(ErrorPrefix + MessageOf(thrown));
      }
      isLoading := false;
      loadingMessage := "";
    }

    /** `handleSampleClick`: fills in the sample prompt. */
    method HandleSampleClick()
      modifies this
      ensures prompt == SamplePrompt
      ensures isLoading == old(isLoading) && loadingMessage == old(loadingMessage)
      ensures generatedVideoUrl == old(generatedVideoUrl) && error == old(error)
    {
      prompt := SamplePrompt;
    }
  }
}
