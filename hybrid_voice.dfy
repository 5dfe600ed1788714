/** The voice interview of components/add/useHybridVoice.ts: the device recogniser's
    events, the turn-taking with the oracle client, the spoken transcript, and how the
    transcript is turned back into question/answer pairs. The hook's state is the
    fields of a `VoiceSession`; each handler is one atomic method. The recogniser, the
    speech synthesiser and the permission prompt are outcomes passed in; what is spoken
    is recorded in `spoken`. */
module HybridVoice {
  import opened Text
  import opened Oracle

  datatype Role = User | Ai

  datatype Entry = Entry(role: Role, text: string)

  /** How asking for the microphone and starting the recogniser went. */
  datatype ListenOutcome = Started | PermissionDenied | StartThrew

  const CompletionMessage := "Alright, I've got everything I need! Let me put together a plan for you."
  const PermissionDeniedMessage := "Microphone permission denied"
  const StartFailedMessage := "Failed to start speech recognition"
  const RecognitionPrefix := "Speech recognition: "

  // ----- history from a transcript -----

  /** An AI turn at `i` directly answered by a user turn. */
  predicate AnsweredAt(t: seq<Entry>, i: int) {
    0 <= i && i + 1 < |t| && t[i].role == Ai && t[i + 1].role == User
  }

  /** `t` ends with an answered AI turn. */
  predicate EndsAnswered(t: seq<Entry>) {
    |t| >= 2 && AnsweredAt(t, |t| - 2)
  }

  /** The history `getHistoryFromTranscript` builds, defined turn by turn: the pairs of
      `t` without its last turn, then the pair the last two turns form, if any. */
  function Pairs(t: seq<Entry>): seq<HistoryItem>
    decreases |t|
  {
    if |t| < 2 then []
    else Pairs(t[..|t| - 1]) + (if EndsAnswered(t) then [HistoryItem(t[|t| - 2].text, t[|t| - 1].text)] else [])
  }

  /** The positions of the AI turns that pair up, in the same recursion. */
  function PairIndices(t: seq<Entry>): seq<nat>
    decreases |t|
  {
    if |t| < 2 then []
    else PairIndices(t[..|t| - 1]) + (if EndsAnswered(t) then [|t| - 2] else [])
  }

  /** Appending a turn adds a pair exactly when it is a user turn after an AI turn. */
  lemma {:induction false} PairsAppend(t: seq<Entry>, e: Entry)
    ensures Pairs(t + [e]) ==
      Pairs(t) + (if |t| >= 1 && t[|t| - 1].role == Ai && e.role == User then [HistoryItem(t[|t| - 1].text, e.text)] else [])
  {
    var u := t + [e];
    if |u| >= 2 {
      assert u[..|u| - 1] == t;
      assert u[|u| - 2] == t[|t| - 1] && u[|u| - 1] == e;
    }
  }

  /** Each pair is the text of an answered AI turn and of the user turn after it. */
  lemma {:induction false} PairsAtIndices(t: seq<Entry>)
    ensures |PairIndices(t)| == |Pairs(t)|
    ensures forall k :: 0 <= k < |Pairs(t)| ==>
      AnsweredAt(t, PairIndices(t)[k]) && Pairs(t)[k] == HistoryItem(t[PairIndices(t)[k]].text, t[PairIndices(t)[k] + 1].text)
    decreases |t|
  {
    if |t| >= 2 {
      var s := t[..|t| - 1];
      PairsAtIndices(s);
      var ps, idx := Pairs(s), PairIndices(s);
      var last := |t| - 2;
      var newPairs := if EndsAnswered(t) then [HistoryItem(t[last].text, t[last + 1].text)] else [];
      var newIndices := if EndsAnswered(t) then [last] else [];
      assert Pairs(t) == ps + newPairs;
      assert PairIndices(t) == idx + newIndices;
      forall k | 0 <= k < |Pairs(t)|
        ensures AnsweredAt(t, PairIndices(t)[k]) && Pairs(t)[k] == HistoryItem(t[PairIndices(t)[k]].text, t[PairIndices(t)[k] + 1].text)
      {
        if k < |ps| {
          assert Pairs(t)[k] == ps[k] && PairIndices(t)[k] == idx[k];
          assert AnsweredAt(s, idx[k]);
          assert s[idx[k]] == t[idx[k]] && s[idx[k] + 1] == t[idx[k] + 1];
        } else {
          assert Pairs(t)[k] == newPairs[0] && PairIndices(t)[k] == last;
        }
      }
    }
  }

  /** The answered AI turns are listed in increasing order. */
  lemma {:induction false} PairIndicesIncreasing(t: seq<Entry>)
    ensures forall k :: 0 <= k < |PairIndices(t)| ==> PairIndices(t)[k] + 1 < |t|
    ensures forall k, l :: 0 <= k < l < |PairIndices(t)| ==> PairIndices(t)[k] < PairIndices(t)[l]
    decreases |t|
  {
    if |t| >= 2 {
      var s := t[..|t| - 1];
      PairIndicesIncreasing(s);
    }
  }

  /** Every answered AI turn, and nothing else, is listed. */
  lemma {:induction false} PairIndicesComplete(t: seq<Entry>)
    ensures forall i :: AnsweredAt(t, i) <==> i in PairIndices(t)
    decreases |t|
  {
    if |t| >= 2 {
      var s := t[..|t| - 1];
      PairIndicesComplete(s);
      forall i ensures AnsweredAt(t, i) <==> i in PairIndices(t) {
        if i < |t| - 2 {
          assert AnsweredAt(t, i) <==> AnsweredAt(s, i);
        } else if i == |t| - 2 {
          assert AnsweredAt(t, i) <==> EndsAnswered(t);
          assert AnsweredAt(t, i) ==> PairIndices(t)[|PairIndices(s)|] == i;
        }
        assert i in PairIndices(t) <==> i in PairIndices(s) || (EndsAnswered(t) && i == |t| - 2);
        assert forall j :: j in PairIndices(s) ==> AnsweredAt(s, j);
      }
    }
  }

  /** The history is exactly one pair (AI text, user text) per AI turn directly answered
      by a user turn, in transcript order. */
  lemma PairsExact(t: seq<Entry>)
    ensures |PairIndices(t)| == |Pairs(t)|
    ensures forall k :: 0 <= k < |Pairs(t)| ==>
      AnsweredAt(t, PairIndices(t)[k]) && Pairs(t)[k] == HistoryItem(t[PairIndices(t)[k]].text, t[PairIndices(t)[k] + 1].text)
    ensures forall k, l :: 0 <= k < l < |PairIndices(t)| ==> PairIndices(t)[k] < PairIndices(t)[l]
    ensures forall i :: AnsweredAt(t, i) <==> i in PairIndices(t)
  {
    PairsAtIndices(t);
    PairIndicesIncreasing(t);
    PairIndicesComplete(t);
  }

  /** Pairs never share a turn: a turn cannot both answer and be answered. So the
      history is at most half as long as the transcript, and a transcript of fewer than
      two turns yields none. */
  lemma {:induction false} PairsBound(t: seq<Entry>)
    ensures 2 * |Pairs(t)| <= |t|
    ensures |t| >= 1 ==> 2 * |Pairs(t)| <= |t| - 1 + (if EndsAnswered(t) then 1 else 0)
    decreases |t|
  {
    if |t| >= 2 {
      var s := t[..|t| - 1];
      PairsBound(s);
      if EndsAnswered(t) {
        assert !EndsAnswered(s) by {
          assert s[|s| - 1] == t[|t| - 2];
        }
      }
    }
  }

  /** `getHistoryFromTranscript`: the index loop over every turn but the last. */
  method HistoryFromTranscript(t: seq<Entry>) returns (history: seq<HistoryItem>)
    ensures history == Pairs(t)
  {
    history := [];
    if |t| == 0 {
      return;
    }
    var i := 0;
    while i < |t| - 1
      invariant 0 <= i <= |t| - 1
      invariant history == Pairs(t[..i + 1])
    {
      PairsAppend(t[..i + 1], t[i + 1]);
      assert t[..i + 1] + [t[i + 1]] == t[..i + 2];
      if t[i].role == Ai && t[i + 1].role == User {
        history := history + [HistoryItem(t[i].text, t[i + 1].text)];
      }
      i := i + 1;
    }
    assert t[..i + 1] == t;
  }

  /** When a reply carries neither `final` nor a question, the user turn stays
      unanswered; the next answer then enters the hook's own history but not the
      history read back from the transcript. */
  lemma UnansweredTurnIsLost(q: string, a1: string, a2: string)
    ensures Pairs([Entry(Ai, q), Entry(User, a1), Entry(User, a2)]) == [HistoryItem(q, a1)]
  {
    var t := [Entry(Ai, q), Entry(User, a1), Entry(User, a2)];
    var u := [Entry(Ai, q), Entry(User, a1)];
    assert t[..2] == u && !EndsAnswered(t);
    assert u[..1] == [Entry(Ai, q)] && EndsAnswered(u);
    assert Pairs(u) == [HistoryItem(q, a1)];
  }

  /** Error codes the recogniser reports that the hook does not show. */
  predicate IsBenignError(code: string) {
    code == "no-speech" || code == "aborted" || code == "client"
  }

  /** `currentQuestion?.question` is truthy. */
  predicate Askable(current: Option<InterviewResponse>) {
    current.Some? && HasQuestion(current.value)
  }

  class VoiceSession {
    const goalText: string
    var isListening: bool
    var isSpeaking: bool
    var isProcessing: bool
    var transcript: seq<Entry>
    var history: seq<HistoryItem>
    var currentQuestion: Option<InterviewResponse>
    var error: Option<string>
    var isComplete: bool
    var recognizedText: string
    /** Every text handed to the speech synthesiser, in order. */
    var spoken: seq<string>

    /** The hook's history is the one the transcript yields, and while the interview
        runs the transcript ends with the current question, spoken by the AI. */
    predicate InSync()
      reads this
    {
      && history == Pairs(transcript)
      && (currentQuestion.Some? ==> HasQuestion(currentQuestion.value))
      && (currentQuestion.Some? && !isComplete ==>
            transcript != [] && transcript[|transcript| - 1] == Entry(Ai, currentQuestion.value.question.value))
    }

    constructor (goal: string)
      ensures goalText == goal && InSync()
      ensures !isListening && !isSpeaking && !isProcessing && transcript == [] && history == []
      ensures currentQuestion.None? && error.None? && !isComplete && recognizedText == "" && spoken == []
    {
      goalText := goal;
      isListening, isSpeaking, isProcessing := false, false, false;
      transcript, history, currentQuestion, error := [], [], None, None;
      isComplete, recognizedText, spoken := false, "", [];
    }

    /** `speak`. */
    method Speak(text: string)
      modifies this
      ensures isSpeaking && spoken == old(spoken) + [text]
      ensures isListening == old(isListening) && isProcessing == old(isProcessing) && transcript == old(transcript)
      ensures history == old(history) && currentQuestion == old(currentQuestion) && error == old(error)
      ensures isComplete == old(isComplete) && recognizedText == old(recognizedText)
    {
      isSpeaking := true;
      spoken := spoken + [text];
    }

    /** `stopSpeaking`, and the synthesiser's done, stopped and error callbacks. */
    method StopSpeaking()
      modifies this
      ensures !isSpeaking && spoken == old(spoken)
      ensures isListening == old(isListening) && isProcessing == old(isProcessing) && transcript == old(transcript)
      ensures history == old(history) && currentQuestion == old(currentQuestion) && error == old(error)
      ensures isComplete == old(isComplete) && recognizedText == old(recognizedText)
    {
      isSpeaking := false;
    }

    /** The mount effect: the first question for the goal, asked with an empty history,
        becomes current and is spoken, provided it has question text. */
    method Init(reply: (string, seq<HistoryItem>) -> ModelCall, parse: string -> Option<InterviewResponse>)
      modifies this
      ensures var first := GenerateInterviewQuestion(reply(goalText, []), parse);
        && (HasQuestion(first) ==>
              && currentQuestion == Some(first) && transcript == old(transcript) + [Entry(Ai, first.question.value)]
              && spoken == old(spoken) + [first.question.value] && isSpeaking)
        && (!HasQuestion(first) ==>
              currentQuestion == old(currentQuestion) && transcript == old(transcript)
              && spoken == old(spoken) && isSpeaking == old(isSpeaking))
      ensures !isProcessing && history == old(history) && error == old(error) && isComplete == old(isComplete)
      ensures isListening == old(isListening) && recognizedText == old(recognizedText)
      ensures old(InSync()) ==> InSync()
    {
      isProcessing := true;
      var first := GenerateInterviewQuestion(reply(goalText, []), parse);
      if HasQuestion(first) {
        PairsAppend(transcript, Entry(Ai, first.question.value));
        currentQuestion := Some(first);
        transcript := transcript + [Entry(Ai, first.question.value)];
        Speak(first.question.value);
      }
      isProcessing := false;
    }

    /** The recogniser's "start" event. */
    method OnRecognitionStart()
      modifies this
      ensures isListening && recognizedText == ""
      ensures isSpeaking == old(isSpeaking) && isProcessing == old(isProcessing) && transcript == old(transcript)
      ensures history == old(history) && currentQuestion == old(currentQuestion) && error == old(error)
      ensures isComplete == old(isComplete) && spoken == old(spoken)
    {
      isListening := true;
      recognizedText := "";
    }

    /** The recogniser's "result" event: the transcript of the latest result, when it
        is non-empty, becomes the recognised text. */
    method OnRecognitionResult(results: seq<string>)
      modifies this
      ensures recognizedText == (if |results| > 0 && results[|results| - 1] != "" then results[|results| - 1] else old(recognizedText))
      ensures isListening == old(isListening) && isSpeaking == old(isSpeaking) && isProcessing == old(isProcessing)
      ensures transcript == old(transcript) && history == old(history) && currentQuestion == old(currentQuestion)
      ensures error == old(error) && isComplete == old(isComplete) && spoken == old(spoken)
    {
      if |results| > 0 && results[|results| - 1] != "" {
        recognizedText := results[|results| - 1];
      }
    }

    /** The recogniser's "error" event: listening stops; the benign codes leave `error`
        alone, any other is shown with its code. */
    method OnRecognitionError(code: string)
      modifies this
      ensures !isListening
      ensures error == (if IsBenignError(code) then old(error) else Some(RecognitionPrefix + code))
      ensures isSpeaking == old(isSpeaking) && isProcessing == old(isProcessing) && transcript == old(transcript)
      ensures history == old(history) && currentQuestion == old(currentQuestion)
      ensures isComplete == old(isComplete) && recognizedText == old(recognizedText) && spoken == old(spoken)
    {
      isListening := false;
      if IsBenignError(code) {
        return;
      }
      error := Some(RecognitionPrefix + code);
    }

    /** `handleUserInput`. Nothing happens without text or without a current question.
        Otherwise the user turn and the pair (current question, text) are recorded and
        the model is asked about the new history: a final reply completes the interview
        with the fixed closing line, a reply with a question becomes current, and any
        other reply adds nothing. `isProcessing` ends false. While the session is in
        sync and not complete, a final or questioning reply keeps it in sync. */
    method HandleUserInput(userText: string, reply: (string, seq<HistoryItem>) -> ModelCall, parse: string -> Option<InterviewResponse>)
      modifies this
      ensures userText == "" || !Askable(old(currentQuestion)) ==> unchanged(this)
      ensures userText != "" && Askable(old(currentQuestion)) ==>
        && history == old(history) + [HistoryItem(old(currentQuestion).value.question.value, userText)]
        && !isProcessing
        && isListening == old(isListening) && error == old(error) && recognizedText == old(recognizedText)
      ensures userText != "" && Askable(old(currentQuestion)) ==>
        var next := GenerateInterviewQuestion(reply(goalText, history), parse);
        && (IsFinal(next) ==>
              && isComplete && currentQuestion == old(currentQuestion) && isSpeaking
              && transcript == old(transcript) + [Entry(User, userText), Entry(Ai, CompletionMessage)]
              && spoken == old(spoken) + [CompletionMessage])
        && (!IsFinal(next) && HasQuestion(next) ==>
              && isComplete == old(isComplete) && currentQuestion == Some(next) && isSpeaking
              && transcript == old(transcript) + [Entry(User, userText), Entry(Ai, next.question.value)]
              && spoken == old(spoken) + [next.question.value])
        && (!IsFinal(next) && !HasQuestion(next) ==>
              && isComplete == old(isComplete) && currentQuestion == old(currentQuestion) && isSpeaking == old(isSpeaking)
              && transcript == old(transcript) + [Entry(User, userText)] && spoken == old(spoken))
      ensures old(InSync()) && !old(isComplete) && userText != "" && Askable(old(currentQuestion)) ==>
        var next := GenerateInterviewQuestion(reply(goalText, history), parse);
        IsFinal(next) || HasQuestion(next) ==> InSync()
    {
      if userText == "" || !Askable(currentQuestion) {
        return;
      }
      RecordUserTurn(userText);
      ghost var asked := transcript;
      var next := GenerateInterviewQuestion(reply(goalText, history), parse);
      Respond(next);
      if IsFinal(next) {
        AppendAssoc(old(transcript), [Entry(User, userText)], [Entry(Ai, CompletionMessage)]);
      } else if HasQuestion(next) {
        AppendAssoc(old(transcript), [Entry(User, userText)], [Entry(Ai, next.question.value)]);
      } else {
        assert transcript == asked;
      }
    }

    /** The first steps of `handleUserInput`: the user turn is added to the transcript
        and the pair to the history. */
    method RecordUserTurn(userText: string)
      modifies this
      requires userText != "" && Askable(currentQuestion)
      ensures history == old(history) + [HistoryItem(old(currentQuestion).value.question.value, userText)]
      ensures transcript == old(transcript) + [Entry(User, userText)]
      ensures isProcessing
      ensures isListening == old(isListening) && isSpeaking == old(isSpeaking) && currentQuestion == old(currentQuestion)
      ensures error == old(error) && isComplete == old(isComplete) && recognizedText == old(recognizedText) && spoken == old(spoken)
      ensures old(InSync()) && !isComplete ==> history == Pairs(transcript)
    {
      var q := currentQuestion.value.question.value;
      PairsAppend(transcript, Entry(User, userText));
      transcript := transcript + [Entry(User, userText)];
      isProcessing := true;
      history := history + [HistoryItem(q, userText)];
    }

    /** The reply step of `handleUserInput`, once the history holds the new pair and
        `next` is what the oracle made of it, together with the `finally` that clears
        `isProcessing` (the handler runs atomically, so clearing it first is the same). */
    method Respond(next: InterviewResponse)
      modifies this
      ensures IsFinal(next) ==>
        && isComplete && currentQuestion == old(currentQuestion) && isSpeaking
        && transcript == old(transcript) + [Entry(Ai, CompletionMessage)]
        && spoken == old(spoken) + [CompletionMessage]
      ensures !IsFinal(next) && HasQuestion(next) ==>
        && isComplete == old(isComplete) && currentQuestion == Some(next) && isSpeaking
        && transcript == old(transcript) + [Entry(Ai, next.question.value)]
        && spoken == old(spoken) + [next.question.value]
      ensures !IsFinal(next) && !HasQuestion(next) ==>
        && isComplete == old(isComplete) && currentQuestion == old(currentQuestion) && isSpeaking == old(isSpeaking)
        && transcript == old(transcript) && spoken == old(spoken)
      ensures history == old(history) && !isProcessing && isListening == old(isListening)
      ensures error == old(error) && recognizedText == old(recognizedText)
      ensures history == Pairs(old(transcript)) ==> history == Pairs(transcript)
      ensures history == Pairs(old(transcript)) && Askable(old(currentQuestion)) && (IsFinal(next) || HasQuestion(next)) ==> InSync()
    {
      isProcessing := false;
      if IsFinal(next) {
        PairsAppend(transcript, Entry(Ai, CompletionMessage));
        isComplete := true;
        transcript := transcript + [Entry(Ai, CompletionMessage)];
        Speak(CompletionMessage);
      } else if HasQuestion(next) {
        PairsAppend(transcript, Entry(Ai, next.question.value));
        currentQuestion := Some(next);
        transcript := transcript + [Entry(Ai, next.question.value)];
        Speak(next.question.value);
      }
    }

    /** The recogniser's "end" event: listening stops, and the recognised text, trimmed,
        is handed to `handleUserInput` when it is not blank. */
    method OnRecognitionEnd(reply: (string, seq<HistoryItem>) -> ModelCall, parse: string -> Option<InterviewResponse>)
      modifies this
      ensures !isListening
      ensures Trim(old(recognizedText)) == "" ==>
        && isSpeaking == old(isSpeaking) && isProcessing == old(isProcessing) && transcript == old(transcript)
        && history == old(history) && currentQuestion == old(currentQuestion) && error == old(error)
        && isComplete == old(isComplete) && recognizedText == old(recognizedText) && spoken == old(spoken)
      ensures Trim(old(recognizedText)) != "" && !Askable(old(currentQuestion)) ==>
        && isSpeaking == old(isSpeaking) && isProcessing == old(isProcessing) && transcript == old(transcript)
        && history == old(history) && currentQuestion == old(currentQuestion) && error == old(error)
        && isComplete == old(isComplete) && recognizedText == old(recognizedText) && spoken == old(spoken)
      ensures Trim(old(recognizedText)) != "" && Askable(old(currentQuestion)) ==>
        var text := Trim(old(recognizedText));
        && history == old(history) + [HistoryItem(old(currentQuestion).value.question.value, text)]
        && !isProcessing && error == old(error) && recognizedText == old(recognizedText)
        && var next := GenerateInterviewQuestion(reply(goalText, history), parse);
        && (IsFinal(next) ==>
              && isComplete && currentQuestion == old(currentQuestion) && isSpeaking
              && transcript == old(transcript) + [Entry(User, text), Entry(Ai, CompletionMessage)]
              && spoken == old(spoken) + [CompletionMessage])
        && (!IsFinal(next) && HasQuestion(next) ==>
              && isComplete == old(isComplete) && currentQuestion == Some(next) && isSpeaking
              && transcript == old(transcript) + [Entry(User, text), Entry(Ai, next.question.value)]
              && spoken == old(spoken) + [next.question.value])
        && (!IsFinal(next) && !HasQuestion(next) ==>
              && isComplete == old(isComplete) && currentQuestion == old(currentQuestion) && isSpeaking == old(isSpeaking)
              && transcript == old(transcript) + [Entry(User, text)] && spoken == old(spoken))
    {
      isListening := false;
      var text := Trim(recognizedText);
      if text != "" {
        HandleUserInput(text, reply, parse);
      }
    }

    /** `startListening`: speech stops first; a refused permission or a failed start is
        shown as an error. Listening itself begins with the "start" event. */
    method StartListening(outcome: ListenOutcome)
      modifies this
      ensures !isSpeaking
      ensures outcome == Started ==> error == old(error)
      ensures outcome == PermissionDenied ==> error == Some(PermissionDeniedMessage)
      ensures outcome == StartThrew ==> error == Some(StartFailedMessage)
      ensures isListening == old(isListening) && isProcessing == old(isProcessing) && transcript == old(transcript)
      ensures history == old(history) && currentQuestion == old(currentQuestion)
      ensures isComplete == old(isComplete) && recognizedText == old(recognizedText) && spoken == old(spoken)
    {
      StopSpeaking();
      match outcome
      case Started =>
      case PermissionDenied => error := Some(PermissionDeniedMessage);
      case StartThrew => error := Some(StartFailedMessage);
    }

    /** `stopListening`: a failure to stop is swallowed; listening ends either way. */
    method StopListening()
      modifies this
      ensures !isListening
      ensures isSpeaking == old(isSpeaking) && isProcessing == old(isProcessing) && transcript == old(transcript)
      ensures history == old(history) && currentQuestion == old(currentQuestion) && error == old(error)
      ensures isComplete == old(isComplete) && recognizedText == old(recognizedText) && spoken == old(spoken)
    {
      isListening := false;
    }

    /** `reset`: speech and listening stop and the conversation is cleared. */
    method Reset()
      modifies this
      ensures InSync()
      ensures !isSpeaking && !isListening
      ensures transcript == [] && history == [] && currentQuestion.None? && error.None?
      ensures !isComplete && recognizedText == ""
      ensures isProcessing == old(isProcessing) && spoken == old(spoken)
    {
      StopSpeaking();
      StopListening();
      transcript, history, currentQuestion, error := [], [], None, None;
      isComplete, recognizedText := false, "";
    }
  }
}
