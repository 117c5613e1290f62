/** A video-generation job as both generation views run it
    (components/GeneratorView.tsx and components/ContentGenerationHub.tsx):
    start the job, poll its operation until it is done, advance a progress
    message that saturates at the last one, then fetch the video from the
    URI the finished operation names. The backend's answers and the fetch
    are inputs. */
module VideoJob {
  import opened Js
  import opened Text

  /** The parts of a generation operation the views read. */
  datatype Video = Video(uri: Option<string>)
  datatype GeneratedVideo = GeneratedVideo(video: Option<Video>)
  datatype OperationResponse = OperationResponse(generatedVideos: Option<seq<GeneratedVideo>>)
  datatype Operation = Operation(done: bool, response: Option<OperationResponse>)

  /** The answer to one backend call (the start call, then each status
      check): an operation, or the value the call threw. */
  type Call = Result<Operation, Thrown>

  /** What `fetch` gives back: the `ok` flag, the status code, and what
      `URL.createObjectURL(await response.blob())` then yields. A `fetch`
      that itself rejects (a network error) is given as `ok` with the
      rejection in place of the object URL: both throw the same value
      inside the try block, so the run ends the same way. */
  datatype FetchResponse = FetchResponse(ok: bool, status: nat, objectUrl: Result<string, Thrown>)

  const NoUriMessage: string := "Video generation completed, but no video URI was found."
  const FetchFailedPrefix: string := "Failed to fetch video file. Status: "

  /** `operation.response?.generatedVideos?.[0]?.video?.uri`, when it is
      truthy (present and not the empty string). */
  function VideoUri(op: Operation): (r: Option<string>)
    ensures r.Some? ==> r.value != []
    ensures r.Some? ==> op.response.Some? && op.response.value.generatedVideos.Some?
                        && |op.response.value.generatedVideos.value| > 0
  {
    match op.response
    case None => None
    case Some(response) =>
      match response.generatedVideos
      case None => None
      case Some(videos) =>
        if videos == [] || videos[0].video.None? then None
        else
          match videos[0].video.value.uri
          case None => None
          case Some(uri) => if uri == [] then None else Some(uri)
  }

  /** The polling loop leaves at this call: the operation is done, or the
      call threw. */
  predicate Stops(c: Call)
  {
    c.Failure? || c.value.done
  }

  /** The backend eventually answers with a done operation or throws (the
      source polls forever otherwise): the answers given end with one that
      stops the loop. Answers after the first stop are never asked for. */
  predicate Terminates(calls: seq<Call>)
  {
    |calls| > 0 && Stops(calls[|calls| - 1])
  }

  function FirstStopFrom(calls: seq<Call>, i: nat): (k: nat)
    requires i < |calls| && Stops(calls[|calls| - 1])
    ensures i <= k < |calls| && Stops(calls[k])
    ensures forall j :: i <= j < k ==> !Stops(calls[j])
    decreases |calls| - i
  {
    if Stops(calls[i]) then i else FirstStopFrom(calls, i + 1)
  }

  /** The index of the call the loop leaves at; it equals the number of
      status checks made. */
  function FirstStop(calls: seq<Call>): (k: nat)
    requires Terminates(calls)
    ensures k < |calls| && Stops(calls[k])
    ensures forall j :: 0 <= j < k ==> !Stops(calls[j])
  {
    FirstStopFrom(calls, 0)
  }

  /** The message index after `k` polls, as the loop computes it: 0 at the
      start, then `Math.min(messageIndex + 1, n - 1)` on every poll. */
  function ProgressIndex(k: nat, n: nat): (i: nat)
    requires n >= 1
    ensures i < n
  {
    if k == 0 then 0 else Min(ProgressIndex(k - 1, n) + 1, n - 1)
  }

  /** The index climbs one step per poll and then stays on the last
      message. */
  lemma {:induction false} ProgressIndexSaturates(k: nat, n: nat)
    requires n >= 1
    ensures ProgressIndex(k, n) == Min(k, n - 1)
  {
    if k > 0 {
      ProgressIndexSaturates(k - 1, n);
    }
  }

  /** The loading messages shown during `k` polls, in order: the first one
      before the start call, then one per poll. */
  function ProgressMessages(messages: seq<string>, k: nat): (r: seq<string>)
    requires |messages| >= 1
    ensures |r| == k + 1
    ensures forall i :: 0 <= i <= k ==> r[i] == messages[Min(i, |messages| - 1)]
  {
    if k == 0 then [messages[0]]
    else
      ProgressIndexSaturates(k, |messages|);
      ProgressMessages(messages, k - 1) + [messages[ProgressIndex(k, |messages|)]]
  }

  /** Once the polls outnumber the messages, the last one stays on screen. */
  lemma ProgressEndsOnLastMessage(messages: seq<string>, k: nat)
    requires |messages| >= 1 && k >= |messages| - 1
    ensures ProgressMessages(messages, k)[k] == messages[|messages| - 1]
  {
  }

  /** `${downloadLink}&key=${API_KEY}` */
  function DownloadUrl(uri: string, apiKey: string): string
  {
    uri + "&key=" + apiKey
  }

  /** `Failed to fetch video file. Status: ${response.status}` */
  function FetchFailedMessage(status: nat): string
  {
    FetchFailedPrefix + NatToString(status)
  }

  /** The status code can be read back from the message. */
  lemma FetchFailedMessageNamesStatus(status: nat)
    ensures var m := FetchFailedMessage(status);
            |m| > |FetchFailedPrefix| && m[..|FetchFailedPrefix|] == FetchFailedPrefix
            && AllDigits(m[|FetchFailedPrefix|..]) && DecimalValue(m[|FetchFailedPrefix|..]) == status
  {
    var m := FetchFailedMessage(status);
    assert m[|FetchFailedPrefix|..] == NatToString(status);
  }

  /** The loop ended on a finished operation that names a video. */
  predicate ReachesFetch(calls: seq<Call>)
    requires Terminates(calls)
  {
    var c := calls[FirstStop(calls)];
    c.Success? && VideoUri(c.value).Some?
  }

  /** How a run ends: the object URL of the fetched video, or the value
      thrown inside the try block. */
  function Outcome(calls: seq<Call>, fetch: string -> FetchResponse, apiKey: string): (r: Result<string, Thrown>)
    requires Terminates(calls)
    ensures r.Success? ==> (ReachesFetch(calls)
                            && fetch(DownloadUrl(VideoUri(calls[FirstStop(calls)].value).value, apiKey)).ok)
    ensures ReachesFetch(calls) && fetch(DownloadUrl(VideoUri(calls[FirstStop(calls)].value).value, apiKey)).ok
            ==> r == fetch(DownloadUrl(VideoUri(calls[FirstStop(calls)].value).value, apiKey)).objectUrl
  {
    var c := calls[FirstStop(calls)];
    if c.Failure? then Failure(c.error)
    else if VideoUri(c.value).None? then Failure(PlainError(NoUriMessage))
    else
      var response := fetch(DownloadUrl(VideoUri(c.value).value, apiKey));
      if !response.ok then Failure(PlainError(FetchFailedMessage(response.status)))
      else response.objectUrl
  }

  /** Every way a run can fail: a backend call threw, the finished
      operation names no video, the fetch was not OK (and the message
      carries its status), or reading the body threw. */
  lemma OutcomeFailures(calls: seq<Call>, fetch: string -> FetchResponse, apiKey: string)
    requires Terminates(calls)
    ensures var r := Outcome(calls, fetch, apiKey);
            var c := calls[FirstStop(calls)];
            r.Failure? <==>
              c.Failure?
              || (c.Success? && VideoUri(c.value).None?)
              || (ReachesFetch(calls) && (!fetch(DownloadUrl(VideoUri(c.value).value, apiKey)).ok
                                          || fetch(DownloadUrl(VideoUri(c.value).value, apiKey)).objectUrl.Failure?))
    ensures var r := Outcome(calls, fetch, apiKey);
            var c := calls[FirstStop(calls)];
            c.Failure? ==> r == Failure(c.error)
    ensures var c := calls[FirstStop(calls)];
            c.Success? && VideoUri(c.value).None? ==> Outcome(calls, fetch, apiKey) == Failure(PlainError(NoUriMessage))
    ensures var c := calls[FirstStop(calls)];
            ReachesFetch(calls) && !fetch(DownloadUrl(VideoUri(c.value).value, apiKey)).ok
            ==> Outcome(calls, fetch, apiKey)
                == Failure(PlainError(FetchFailedMessage(fetch(DownloadUrl(VideoUri(c.value).value, apiKey)).status)))
  {
  }

  /** A backend that finishes on the first poll with a video at `uri`,
      served OK: one status check, and the run ends with the object URL. */
  lemma OnePollScenario(start: Operation, finished: Operation, uri: string, fetch: string -> FetchResponse,
                        apiKey: string, objectUrl: string)
    requires !start.done && finished.done && VideoUri(finished) == Some(uri)
    requires fetch(uri + "&key=" + apiKey) == FetchResponse(true, 200, Success(objectUrl))
    ensures Terminates([Success(start), Success(finished)])
    ensures FirstStop([Success(start), Success(finished)]) == 1
    ensures Outcome([Success(start), Success(finished)], fetch, apiKey) == Success(objectUrl)
  {
    var calls: seq<Call> := [Success(start), Success(finished)];
    assert Stops(calls[1]);
    assert !Stops(calls[0]);
  }

  /** The polling loop and the completion branch shared by both views:
      one status check per operation that is not done, the progress
      message advanced before each, then the fetch of the finished video.
      `shown` lists the loading messages in the order they are shown. */
  method Run(calls: seq<Call>, messages: seq<string>, successMessage: string,
             fetch: string -> FetchResponse, apiKey: string)
    returns (outcome: Result<string, Thrown>, polls: nat, shown: seq<string>)
    requires Terminates(calls) && |messages| >= 1
    ensures outcome == Outcome(calls, fetch, apiKey)
    ensures polls == FirstStop(calls)
    ensures shown == ProgressMessages(messages, polls) + (if ReachesFetch(calls) then [successMessage] else [])
  {
    var messageIndex := 0;
    shown := [messages[messageIndex]];
    polls := 0;
    var call := calls[0];
    while call.Success? && !call.value.done
      invariant polls <= FirstStop(calls) && call == calls[polls]
      invariant messageIndex == ProgressIndex(polls, |messages|)
      invariant shown == ProgressMessages(messages, polls)
      decreases FirstStop(calls) - polls
    {
      messageIndex := Min(messageIndex + 1, |messages| - 1);
      polls := polls + 1;
      shown := shown + [messages[messageIndex]];
      call := calls[polls];
    }
    if call.Failure? {
      outcome := Failure(call.error);
      return;
    }
    var uri := VideoUri(call.value);
    if uri.None? {
      outcome := Failure(PlainError(NoUriMessage));
      return;
    }
    shown := shown + [successMessage];
    var response := fetch(DownloadUrl(uri.value, apiKey));
    if !response.ok {
      outcome := Failure(PlainError(FetchFailedMessage(response.status)));
      return;
    }
    outcome := response.objectUrl;
  }
}
