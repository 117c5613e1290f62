/** The chat view (components/ChatView.tsx): a transcript that a send
    appends to, a model reply streamed into its last entry fragment by
    fragment, and an apology entry when anything throws. */
module Chat {
  import opened Js
  import opened Text
  import opened GeminiService

  const Apology: string := "Sorry, I encountered an error. Please try again."

  /** How `streamChatResponse` and the iteration over its stream go: the
      call throws before a stream exists, or the stream yields these
      fragments' texts and then ends or throws. */
  datatype ChatReply =
    | NotOpened(error: Thrown)
    | Opened(fragments: seq<string>, failsAtEnd: bool)

  /** What the view hands to `streamChatResponse`. */
  datatype ChatRequest = ChatRequest(history: seq<Content>, newMessage: string)

  /** The fragments joined in order, as `fullResponse += chunk.text()`
      builds them. */
  function Concat(fragments: seq<string>): (r: string)
    ensures fragments == [] ==> r == []
    ensures |fragments| == 1 ==> r == fragments[0]
    ensures fragments != [] ==> EndsWith(r, fragments[|fragments| - 1])
  {
    if fragments == [] then []
    else Concat(fragments[..|fragments| - 1]) + fragments[|fragments| - 1]
  }

  /** Joining is associative over splits of the fragment list. */
  lemma {:induction false} ConcatAppend(a: seq<string>, b: seq<string>)
    ensures Concat(a + b) == Concat(a) + Concat(b)
    decreases |b|
  {
    if b != [] {
      var front := b[..|b| - 1];
      assert (a + b)[..|a + b| - 1] == a + front;
      ConcatAppend(a, front);
      assert (a + b)[|a + b| - 1] == b[|b| - 1];
    } else {
      assert a + b == a;
    }
  }

  /** Every fragment's text appears in the join, in place. */
  lemma {:induction false} ConcatContainsFragments(fragments: seq<string>, i: nat)
    requires i < |fragments|
    ensures var before := Concat(fragments[..i]);
            |before| + |fragments[i]| <= |Concat(fragments)|
            && Concat(fragments)[|before|..|before| + |fragments[i]|] == fragments[i]
  {
    var init := fragments[..|fragments| - 1];
    var c, last := Concat(init), fragments[|fragments| - 1];
    assert Concat(fragments) == c + last;
    if i == |fragments| - 1 {
      assert init == fragments[..i];
      assert (c + last)[|c|..|c| + |last|] == last;
    } else {
      ConcatContainsFragments(init, i);
      assert init[..i] == fragments[..i] && init[i] == fragments[i];
      var b, n := |Concat(fragments[..i])|, |fragments[i]|;
      assert b + n <= |c| && c[b..b + n] == fragments[i];
      assert (c + last)[b..b + n] == c[b..b + n];
    }
  }

  /** `["Hel", "lo", "!"]` streams into `"Hello!"`. */
  lemma ConcatExample()
    ensures Concat(["Hel", "lo", "!"]) == "Hello!"
  {
    assert ["Hel", "lo", "!"][..2] == ["Hel", "lo"];
    assert ["Hel", "lo"][..1] == ["Hel"];
    assert ["Hel"][..0] == [];
  }

  /** The entries a send adds after the user's message. */
  function ReplyEntries(reply: ChatReply): (r: seq<ChatMessage>)
    ensures |r| >= 1 && forall i :: 0 <= i < |r| ==> r[i].role == Model
    ensures reply.NotOpened? ==> r == [ChatMessage(Model, Apology)]
    ensures reply.Opened? ==> r[0] == ChatMessage(Model, Concat(reply.fragments))
    ensures reply.Opened? ==> |r| == (if reply.failsAtEnd then 2 else 1)
    ensures reply.Opened? && reply.failsAtEnd ==> r[1] == ChatMessage(Model, Apology)
  {
    match reply
    case NotOpened(_) => [ChatMessage(Model, Apology)]
    case Opened(fragments, failsAtEnd) =>
      [ChatMessage(Model, Concat(fragments))] + (if failsAtEnd then [ChatMessage(Model, Apology)] else [])
  }

  /** A send never removes or reorders entries and adds exactly one user
      entry, the first one it adds. */
  lemma SendOnlyAppends(transcript: seq<ChatMessage>, input: string, reply: ChatReply)
    ensures var after := transcript + [ChatMessage(User, input)] + ReplyEntries(reply);
            after[..|transcript|] == transcript
            && after[|transcript|] == ChatMessage(User, input)
            && forall i :: |transcript| < i < |after| ==> after[i].role == Model
  {
  }

  class ChatView {
    var messages: seq<ChatMessage>
    var input: string
    var isLoading: bool

    constructor()
      ensures messages == [] && input == "" && !isLoading
    {
      messages := [];
      input := "";
      isLoading := false;
    }

    /** The send button may send: the input is not blank and no reply is
        streaming. */
    function CanSend(): (r: bool)
      reads this
      ensures r <==> !AllWhitespace(input) && !isLoading
    {
      TrimEmptyIff(input);
      Trim(input) != [] && !isLoading
    }

    /** `handleSendMessage`: blank input or a send in progress changes
        nothing. Otherwise the user's entry is appended, the input cleared,
        the transcript as it was before that entry sent as history, the
        reply appended, and loading is off at the end. `shown` lists the
        content of the model entry after each fragment. */
    method HandleSendMessage(reply: ChatReply) returns (request: Option<ChatRequest>, shown: seq<string>)
      modifies this
      ensures !old(CanSend()) ==> unchanged(this) && request == None && shown == []
      ensures old(CanSend()) ==>
                && request == Some(ChatRequest(ToChatHistory(old(messages)), old(input)))
                && messages == old(messages) + [ChatMessage(User, old(input))] + ReplyEntries(reply)
                && input == [] && !isLoading
      ensures old(CanSend()) && reply.Opened? ==>
                |shown| == |reply.fragments|
                && forall i :: 0 <= i < |shown| ==> shown[i] == Concat(reply.fragments[..i + 1])
    {
      if Trim(input) == [] || isLoading {
        return None, [];
      }
      request, shown := Send(reply);
    }

    /** A send past the guard: the user's entry, the request, the reply's
        entries, and loading off in the finally block. */
    method Send(reply: ChatReply) returns (request: Option<ChatRequest>, shown: seq<string>)
      modifies this
      ensures request == Some(ChatRequest(ToChatHistory(old(messages)), old(input)))
      ensures messages == old(messages) + [ChatMessage(User, old(input))] + ReplyEntries(reply)
      ensures input == [] && !isLoading
      ensures reply.Opened? ==>
                |shown| == |reply.fragments|
                && forall i :: 0 <= i < |shown| ==> shown[i] == Concat(reply.fragments[..i + 1])
    {
      var history := messages;
      messages := messages + [ChatMessage(User, input)];
      var currentInput := input;
      input := [];
      isLoading := true;
      request := Some(ChatRequest(ToChatHistory(history), currentInput));
      shown := [];
      match reply {
        case NotOpened(_) =>
          messages := messages + [ChatMessage(Model, Apology)];
        case Opened(fragments, failsAtEnd) =>
          shown := StreamInto(fragments);
          if failsAtEnd {
            messages := messages + [ChatMessage(Model, Apology)];
          }
      }
      isLoading := false;
    }

    /** The placeholder entry and the `for await` loop: the last entry is
        rewritten with the running join after each fragment. */
    method StreamInto(fragments: seq<string>) returns (shown: seq<string>)
      modifies this
      ensures messages == old(messages) + [ChatMessage(Model, Concat(fragments))]
      ensures input == old(input) && isLoading == old(isLoading)
      ensures |shown| == |fragments|
      ensures forall i :: 0 <= i < |shown| ==> shown[i] == Concat(fragments[..i + 1])
    {
      var base := messages;
      messages := messages + [ChatMessage(Model, [])];
      var fullResponse := [];
      shown := [];
      for i := 0 to |fragments|
        invariant fullResponse == Concat(fragments[..i])
        invariant messages == base + [ChatMessage(Model, fullResponse)]
        invariant input == old(input) && isLoading == old(isLoading)
        invariant |shown| == i
        invariant forall j :: 0 <= j < i ==> shown[j] == Concat(fragments[..j + 1])
      {
        assert fragments[..i + 1][..i] == fragments[..i];
        fullResponse := fullResponse + fragments[i];
        assert fullResponse == Concat(fragments[..i + 1]);
        var last := messages[|messages| - 1];
        assert last.role == Model && messages[..|messages| - 1] == base;
        messages := messages[..|messages| - 1] + [ChatMessage(last.role, fullResponse)];
        shown := shown + [fullResponse];
      }
      assert fragments[..|fragments|] == fragments;
    }
  }
}
