/** The live voice session of services/voiceLiveApi.ts: the connection state the session
    keeps, which messages it lets onto the socket, what it reports to its callbacks for
    a server message, and the byte/binary-string conversions around base64. The
    WebSocket is represented by whether one is held and by the log of messages sent
    on it; its events are methods. `btoa`/`atob` are parameters. */
module VoiceLive {
  import opened Text

  newtype byte = x: int | 0 <= x < 256

  datatype ConnectionState = Disconnected | Connecting | Connected | Failed

  /** What the session sends over the socket. */
  datatype OutMessage = SetupMessage | AudioChunk(data: string) | TextTurn(text: string)

  datatype Role = User | Ai

  /** What the session reports to the callbacks of its config, in order. */
  datatype Report =
    | StateChanged(state: ConnectionState)
    | ErrorReported(message: string)
    | TranscriptReported(role: Role, text: string)
    | AudioReported(data: string)
    | CompletionScheduled

  /** One part of a model turn: its text and its inline data, when present. */
  datatype Part = Part(text: Option<string>, inlineMimeType: Option<string>, inlineData: string)

  datatype ServerContent = ServerContent(modelTurnParts: Option<seq<Part>>, inputTranscription: Option<string>)

  datatype ServerMessage = ServerMessage(setupComplete: bool, serverContent: Option<ServerContent>)

  const Greeting := "Hello! I'm ready to discuss my goal with you."
  const ConnectionErrorMessage := "Connection error occurred"
  const ConnectFailedMessage := "Failed to connect"
  const DonePhrase := "i've got everything i need"
  /** "let me put together a plan", kept as its first letter and the rest so that the
      sign-off sentence of the instruction and the searched phrase share one tail. */
  const PlanTail := "et me put together a plan"
  const PlanPhrase := "l" + PlanTail
  /** The sentence the system instruction tells the model to end with. */
  const SignOff := "L" + PlanTail

  /** The model's text signals the end of the interview. */
  predicate IsCompletionPhrase(text: string) {
    Contains(ToLower(text), DonePhrase) || Contains(ToLower(text), PlanPhrase)
  }

  lemma ToLowerAppend(a: string, b: string)
    ensures ToLower(a + b) == ToLower(a) + ToLower(b)
  {
  }

  /** Lower-casing leaves text without capitals unchanged and lowers a leading capital. */
  lemma LowerLeadingCapital(c: char, s: string)
    requires forall k :: 0 <= k < |s| ==> !('A' <= s[k] <= 'Z')
    ensures ToLower([c] + s) == [LowerChar(c)] + s
  {
    assert ToLower([c] + s) == [LowerChar(c)] + s;
  }

  lemma LowerPlanPhrase()
    ensures ToLower(SignOff) == PlanPhrase
  {
    assert forall k :: 0 <= k < |PlanTail| ==> !('A' <= PlanTail[k] <= 'Z');
    LowerLeadingCapital('L', PlanTail);
  }

  /** The sign-off the system instruction asks for is recognised wherever it appears in
      the model's text, whatever surrounds it. */
  lemma SignOffDetected(before: string, after: string)
    ensures IsCompletionPhrase(before + SignOff + after)
  {
    var text := before + SignOff + after;
    ToLowerAppend(before + SignOff, after);
    ToLowerAppend(before, SignOff);
    LowerPlanPhrase();
    var low := ToLower(text);
    assert low == ToLower(before) + PlanPhrase + ToLower(after);
    assert low[|before|..|before| + |PlanPhrase|] == PlanPhrase;
    assert OccursAt(low, PlanPhrase, |before|);
  }

  /** Text without the letter 'p' or 'g' cannot carry either phrase. */
  lemma NoSignOffWithoutLetters(text: string)
    requires forall k :: 0 <= k < |text| ==> text[k] !in "pPgG"
    ensures !IsCompletionPhrase(text)
  {
    var low := ToLower(text);
    forall i | 0 <= i <= |low| - |DonePhrase| ensures !OccursAt(low, DonePhrase, i) {
      assert DonePhrase[5] == 'g';
      assert low[i + 5] == LowerChar(text[i + 5]) != 'g';
    }
    forall i | 0 <= i <= |low| - |PlanPhrase| ensures !OccursAt(low, PlanPhrase, i) {
      assert PlanPhrase[7] == PlanTail[6] == 'p';
      assert low[i + 7] == LowerChar(text[i + 7]) != 'p';
    }
  }

  /** The reports for the parts of one model turn, in order. */
  function PartReports(parts: seq<Part>): (rs: seq<Report>)
    ensures parts == [] ==> rs == []
  {
    if parts == [] then [] else OnePartReports(parts[0]) + PartReports(parts[1..])
  }

  /** A part with text reports it as an AI transcript, then schedules completion when the
      text signs off; a part carrying audio passes the audio on. */
  function OnePartReports(p: Part): seq<Report> {
    (if p.text.Some? && p.text.value != "" then
       [TranscriptReported(Ai, p.text.value)] + (if IsCompletionPhrase(p.text.value) then [CompletionScheduled] else [])
     else [])
    + (if p.inlineMimeType.Some? && Contains(p.inlineMimeType.value, "audio") then [AudioReported(p.inlineData)] else [])
  }

  /** A part with text is reported as an AI transcript before anything else, a part
      without text reports no transcript, and completion is scheduled exactly when the
      part's text signs off. */
  lemma OnePartReportsShape(p: Part)
    ensures var rs := OnePartReports(p);
      |rs| <= 3
      && (p.text.Some? && p.text.value != "" ==> |rs| > 0 && rs[0] == TranscriptReported(Ai, p.text.value))
      && (!(p.text.Some? && p.text.value != "") ==> forall k :: 0 <= k < |rs| ==> !rs[k].TranscriptReported?)
      && (CompletionScheduled in rs <==> p.text.Some? && p.text.value != "" && IsCompletionPhrase(p.text.value))
  {
  }

  lemma {:induction false} PartReportsAppend(xs: seq<Part>, ys: seq<Part>)
    ensures PartReports(xs + ys) == PartReports(xs) + PartReports(ys)
  {
    if xs == [] {
      assert xs + ys == ys;
      assert PartReports(xs) == [];
    } else {
      var head, rest, tail := OnePartReports(xs[0]), PartReports(xs[1..]), PartReports(ys);
      assert (xs + ys)[0] == xs[0] && (xs + ys)[1..] == xs[1..] + ys;
      PartReportsAppend(xs[1..], ys);
      assert PartReports(xs + ys) == head + (rest + tail);
      assert PartReports(xs) == head + rest;
      AppendAssoc(head, rest, tail);
    }
  }

  /** One more part adds its own reports after those of the parts before it. */
  lemma PartReportsSnoc(ps: seq<Part>, p: Part)
    ensures PartReports(ps + [p]) == PartReports(ps) + OnePartReports(p)
  {
    PartReportsAppend(ps, [p]);
    assert PartReports([p]) == OnePartReports(p) by {
      assert [p][1..] == [];
    }
  }

  /** The loop over a turn's parts extends what was reported by the next part's reports. */
  lemma ReportsStep(earlier: seq<Report>, parts: seq<Part>, i: nat)
    requires i < |parts|
    ensures earlier + PartReports(parts[..i]) + OnePartReports(parts[i]) == earlier + PartReports(parts[..i + 1])
  {
    assert parts[..i + 1] == parts[..i] + [parts[i]];
    PartReportsSnoc(parts[..i], parts[i]);
  }

  /** Completion is scheduled for a model turn exactly when one of its texts signs off. */
  lemma {:induction false} CompletionIffSignOff(parts: seq<Part>)
    ensures CompletionScheduled in PartReports(parts) <==>
      exists k :: 0 <= k < |parts| && parts[k].text.Some? && parts[k].text.value != "" && IsCompletionPhrase(parts[k].text.value)
  {
    if parts != [] {
      CompletionIffSignOff(parts[1..]);
      var p := parts[0];
      OnePartReportsShape(p);
      if exists k :: 0 <= k < |parts[1..]| && parts[1..][k].text.Some? && parts[1..][k].text.value != "" && IsCompletionPhrase(parts[1..][k].text.value) {
        var k :| 0 <= k < |parts[1..]| && parts[1..][k].text.Some? && parts[1..][k].text.value != "" && IsCompletionPhrase(parts[1..][k].text.value);
        assert parts[k + 1] == parts[1..][k];
      }
      if exists k :: 0 <= k < |parts| && parts[k].text.Some? && parts[k].text.value != "" && IsCompletionPhrase(parts[k].text.value) {
        var k :| 0 <= k < |parts| && parts[k].text.Some? && parts[k].text.value != "" && IsCompletionPhrase(parts[k].text.value);
        if k > 0 {
          assert parts[1..][k - 1] == parts[k];
        }
      }
    }
  }

  /** The reports a server message yields, besides the greeting a finished setup sends. */
  function MessageReports(m: ServerMessage): seq<Report> {
    if m.setupComplete || m.serverContent.None? then []
    else
      var c := m.serverContent.value;
      PartReports(c.modelTurnParts.GetOr([]))
      + (if c.inputTranscription.Some? && c.inputTranscription.value != ""
         then [TranscriptReported(User, c.inputTranscription.value)] else [])
  }

  /** A setup message or one without content reports nothing; otherwise completion is
      scheduled exactly when one of the turn's texts signs off, and the user's
      transcription, when there is one, is reported last. */
  lemma MessageReportsShape(m: ServerMessage)
    ensures m.setupComplete || m.serverContent.None? ==> MessageReports(m) == []
    ensures !m.setupComplete && m.serverContent.Some? ==>
      var c := m.serverContent.value;
      var parts := c.modelTurnParts.GetOr([]);
      var rs := MessageReports(m);
      && (CompletionScheduled in rs <==>
            exists k :: 0 <= k < |parts| && parts[k].text.Some? && parts[k].text.value != "" && IsCompletionPhrase(parts[k].text.value))
      && (c.inputTranscription.Some? && c.inputTranscription.value != "" ==>
            |rs| > 0 && rs[|rs| - 1] == TranscriptReported(User, c.inputTranscription.value))
  {
    if !m.setupComplete && m.serverContent.Some? {
      CompletionIffSignOff(m.serverContent.value.modelTurnParts.GetOr([]));
    }
  }

  /** The last state reported, if any. */
  function LastReportedState(rs: seq<Report>): Option<ConnectionState> {
    if rs == [] then None
    else if rs[|rs| - 1].StateChanged? then Some(rs[|rs| - 1].state)
    else LastReportedState(rs[..|rs| - 1])
  }

  lemma {:induction false} LastReportedStateSkips(rs: seq<Report>, more: seq<Report>)
    requires forall k :: 0 <= k < |more| ==> !more[k].StateChanged?
    ensures LastReportedState(rs + more) == LastReportedState(rs)
  {
    if more != [] {
      assert (rs + more)[..|rs + more| - 1] == rs + more[..|more| - 1];
      LastReportedStateSkips(rs, more[..|more| - 1]);
    } else {
      assert rs + more == rs;
    }
  }

  /** `createVoiceLiveSession`'s closure: `ws` (held or not), `state`, and, as logs,
      what went over the socket and what was reported to the config's callbacks. */
  class Session {
    var state: ConnectionState
    var hasSocket: bool
    var sent: seq<OutMessage>
    var reports: seq<Report>

    /** The callback has always been told the current state (a fresh session is
        disconnected without telling). Being connected does not imply holding a socket:
        an earlier socket's `onclose` can drop `ws` before a later socket opens. */
    predicate Valid()
      reads this
    {
      LastReportedState(reports).GetOr(Disconnected) == state
    }

    constructor ()
      ensures Valid() && state == Disconnected && !hasSocket && sent == [] && reports == []
    {
      state := Disconnected;
      hasSocket := false;
      sent := [];
      reports := [];
    }

    /** `updateState`. */
    method UpdateState(s: ConnectionState)
      modifies this
      ensures Valid()
      ensures state == s && reports == old(reports) + [StateChanged(s)]
      ensures hasSocket == old(hasSocket) && sent == old(sent)
    {
      state := s;
      reports := reports + [StateChanged(s)];
    }

    /** `connect` up to the socket's creation; `created` is false when constructing the
        WebSocket throws. */
    method Connect(created: bool)
      modifies this
      ensures Valid()
      ensures created ==> state == Connecting && hasSocket && reports == old(reports) + [StateChanged(Connecting)]
      ensures !created ==> (state == Failed && hasSocket == old(hasSocket)
        && reports == old(reports) + [StateChanged(Connecting), StateChanged(Failed), ErrorReported(ConnectFailedMessage)])
      ensures sent == old(sent)
    {
      UpdateState(Connecting);
      if created {
        hasSocket := true;
      } else {
        UpdateState(Failed);
        reports := reports + [ErrorReported(ConnectFailedMessage)];
        LastReportedStateSkips(old(reports) + [StateChanged(Connecting), StateChanged(Failed)], [ErrorReported(ConnectFailedMessage)]);
      }
    }

    /** The socket's `onopen`: the setup message goes out through `ws?.send`, so only
        when a socket is still held, and the session is connected either way. */
    method OnOpen()
      modifies this
      ensures Valid()
      ensures state == Connected && sent == old(sent) + (if old(hasSocket) then [SetupMessage] else [])
      ensures reports == old(reports) + [StateChanged(Connected)] && hasSocket == old(hasSocket)
    {
      if hasSocket {
        sent := sent + [SetupMessage];
      }
      UpdateState(Connected);
    }

    /** The socket's `onerror`: the state becomes "error" and the error callback is told;
        the socket is kept. */
    method OnError()
      modifies this
      ensures Valid()
      ensures state == Failed && hasSocket == old(hasSocket) && sent == old(sent)
      ensures reports == old(reports) + [StateChanged(Failed), ErrorReported(ConnectionErrorMessage)]
    {
      UpdateState(Failed);
      reports := reports + [ErrorReported(ConnectionErrorMessage)];
      LastReportedStateSkips(old(reports) + [StateChanged(Failed)], [ErrorReported(ConnectionErrorMessage)]);
    }

    /** The socket's `onclose`: disconnected, socket dropped. */
    method OnClose()
      modifies this
      ensures Valid()
      ensures state == Disconnected && !hasSocket && sent == old(sent)
      ensures reports == old(reports) + [StateChanged(Disconnected)]
    {
      UpdateState(Disconnected);
      hasSocket := false;
    }

    /** `disconnect`: closes the socket if one is held (`closed`), and always ends
        disconnected. */
    method Disconnect() returns (closed: bool)
      modifies this
      ensures Valid()
      ensures closed == old(hasSocket)
      ensures state == Disconnected && !hasSocket && sent == old(sent)
      ensures reports == old(reports) + [StateChanged(Disconnected)]
    {
      closed := hasSocket;
      hasSocket := false;
      UpdateState(Disconnected);
    }

    /** `sendAudio`: sent only on a held, connected socket. */
    method SendAudio(base64Audio: string)
      modifies this
      ensures sent == old(sent) + (if old(hasSocket) && old(state) == Connected then [AudioChunk(base64Audio)] else [])
      ensures state == old(state) && hasSocket == old(hasSocket) && reports == old(reports)
    {
      if !hasSocket || state != Connected {
        return;
      }
      sent := sent + [AudioChunk(base64Audio)];
    }

    /** `sendText`: the same guard as `sendAudio`. */
    method SendText(text: string)
      modifies this
      ensures sent == old(sent) + (if old(hasSocket) && old(state) == Connected then [TextTurn(text)] else [])
      ensures state == old(state) && hasSocket == old(hasSocket) && reports == old(reports)
    {
      if !hasSocket || state != Connected {
        return;
      }
      sent := sent + [TextTurn(text)];
    }

    /** The body of the loop over a model turn's parts. */
    method ReportPart(part: Part)
      modifies this
      ensures reports == old(reports) + OnePartReports(part)
      ensures state == old(state) && hasSocket == old(hasSocket) && sent == old(sent)
    {
      if part.text.Some? && part.text.value != "" {
        reports := reports + [TranscriptReported(Ai, part.text.value)];
        if IsCompletionPhrase(part.text.value) {
          reports := reports + [CompletionScheduled];
        }
      }
      if part.inlineMimeType.Some? && Contains(part.inlineMimeType.value, "audio") {
        reports := reports + [AudioReported(part.inlineData)];
      }
    }

    /** `handleServerMessage`: a finished setup sends the greeting and nothing else;
        otherwise the parts of a model turn are reported in order, then the user's
        transcription. */
    method HandleServerMessage(m: ServerMessage)
      modifies this
      requires Valid()
      ensures Valid()
      ensures m.setupComplete ==> sent == old(sent) + (if old(hasSocket) && old(state) == Connected then [TextTurn(Greeting)] else [])
      ensures !m.setupComplete ==> sent == old(sent)
      ensures reports == old(reports) + MessageReports(m)
      ensures state == old(state) && hasSocket == old(hasSocket)
    {
      if m.setupComplete {
        SendText(Greeting);
        return;
      }
      if m.serverContent.Some? {
        var content := m.serverContent.value;
        ReportParts(content.modelTurnParts.GetOr([]));
        if content.inputTranscription.Some? && content.inputTranscription.value != "" {
          reports := reports + [TranscriptReported(User, content.inputTranscription.value)];
        }
      }
      assert reports == old(reports) + MessageReports(m);
      NoStateInMessageReports(m);
      LastReportedStateSkips(old(reports), MessageReports(m));
      assert LastReportedState(old(reports)).GetOr(Disconnected) == old(state);
    }

    /** The loop over a model turn's parts. */
    method ReportParts(parts: seq<Part>)
      modifies this
      ensures reports == old(reports) + PartReports(parts)
      ensures state == old(state) && hasSocket == old(hasSocket) && sent == old(sent)
    {
      var i := 0;
      while i < |parts|
        invariant 0 <= i <= |parts|
        invariant reports == old(reports) + PartReports(parts[..i])
        invariant state == old(state) && hasSocket == old(hasSocket) && sent == old(sent)
      {
        ReportPart(parts[i]);
        ReportsStep(old(reports), parts, i);
        i := i + 1;
      }
      assert parts[..i] == parts;
    }
  }

  lemma NoStateInMessageReports(m: ServerMessage)
    ensures forall k :: 0 <= k < |MessageReports(m)| ==> !MessageReports(m)[k].StateChanged?
  {
    if !m.setupComplete && m.serverContent.Some? {
      NoStateInPartReports(m.serverContent.value.modelTurnParts.GetOr([]));
    }
  }

  lemma {:induction false} NoStateInPartReports(parts: seq<Part>)
    ensures forall k :: 0 <= k < |PartReports(parts)| ==> !PartReports(parts)[k].StateChanged?
  {
    if parts != [] {
      NoStateInPartReports(parts[1..]);
    }
  }

  /** The string `audioBufferToBase64` hands to `btoa`: one character per byte, its code
      the byte's value. */
  function BinaryString(bytes: seq<byte>): (s: string)
    ensures |s| == |bytes|
    ensures forall k :: 0 <= k < |bytes| ==> s[k] as int == bytes[k] as int
  {
    seq(|bytes|, k requires 0 <= k < |bytes| => bytes[k] as int as char)
  }

  /** The bytes `base64ToAudioBuffer` stores for a string: each character's code,
      truncated to 8 bits as a `Uint8Array` store does. */
  function BytesOf(s: string): (b: seq<byte>)
    ensures |b| == |s|
    ensures forall k :: 0 <= k < |s| ==> b[k] as int == s[k] as int % 256
  {
    seq(|s|, k requires 0 <= k < |s| => (s[k] as int % 256) as byte)
  }

  /** Bytes survive the trip to a binary string and back. */
  lemma BytesRoundTrip(bytes: seq<byte>)
    ensures BytesOf(BinaryString(bytes)) == bytes
  {
    var back := BytesOf(BinaryString(bytes));
    forall k | 0 <= k < |bytes| ensures back[k] == bytes[k] {
      assert BinaryString(bytes)[k] as int == bytes[k] as int;
    }
  }

  /** A binary string (every code below 256, as `atob` yields) survives the trip to
      bytes and back. */
  lemma BinaryRoundTrip(s: string)
    requires forall k :: 0 <= k < |s| ==> s[k] as int < 256
    ensures BinaryString(BytesOf(s)) == s
  {
    var back := BinaryString(BytesOf(s));
    forall k | 0 <= k < |s| ensures back[k] == s[k] {
      assert back[k] as int == s[k] as int;
    }
  }

  /** `audioBufferToBase64`: the loop builds the binary string, `btoa` encodes it. */
  method AudioBufferToBase64(bytes: seq<byte>, btoa: string -> string) returns (encoded: string)
    ensures encoded == btoa(BinaryString(bytes))
  {
    var binary := "";
    var i := 0;
    while i < |bytes|
      invariant 0 <= i <= |bytes|
      invariant binary == BinaryString(bytes[..i])
    {
      binary := binary + [bytes[i] as int as char];
      i := i + 1;
    }
    assert bytes[..i] == bytes;
    encoded := btoa(binary);
  }

  /** `base64ToAudioBuffer`: `atob` decodes, the loop fills a fresh byte array. */
  method Base64ToAudioBuffer(base64: string, atob: string -> string) returns (buffer: array<byte>)
    ensures fresh(buffer)
    ensures buffer[..] == BytesOf(atob(base64))
  {
    var binaryString := atob(base64);
    buffer := new byte[|binaryString|];
    var i := 0;
    while i < |binaryString|
      invariant 0 <= i <= |binaryString|
      invariant buffer.Length == |binaryString|
      invariant buffer[..i] == BytesOf(binaryString)[..i]
      modifies buffer
    {
      buffer[i] := (binaryString[i] as int % 256) as byte;
      i := i + 1;
    }
    assert buffer[..] == buffer[..i];
  }
}
