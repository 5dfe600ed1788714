/** The oracle client of services/ai.ts: how the text a generative model returns is turned
    into an interview question, a schedule proposal or a milestone list, and which fixed
    payload replaces it when that fails. The model call and `JSON.parse` are not modelled;
    they come in as a `ModelCall` value and a `parse` function (None: parsing threw). */
module Oracle {
  import opened Text

  datatype InputType = TextInput | DateInput | SelectInput | ChipsInput

  /** `InterviewResponse`: every field is optional, as in the source. */
  datatype InterviewResponse = InterviewResponse(
    question: Option<string>,
    inputType: Option<InputType>,
    options: Option<seq<string>>,
    final: Option<bool>)

  datatype Cadence = Daily | Weekly | Custom

  /** One answered question of the interview history the model is prompted with. */
  datatype HistoryItem = HistoryItem(q: string, a: string)

  /** One entry of a proposed schedule, before the client gives it an id. */
  datatype ScheduleDraft = ScheduleDraft(kind: Cadence, time: string, task: string, activeDays: seq<int>)

  /** `ScheduleProposal`; a field the parsed JSON lacks is None. */
  datatype ScheduleProposal = ScheduleProposal(schedule: Option<seq<ScheduleDraft>>, motivations: Option<seq<string>>)

  datatype MilestoneDraft = MilestoneDraft(month: string, target: string, snark: string)

  /** What awaiting `generateContent` produced: an exception, a response whose `text` is
      undefined, or a response with text. */
  datatype ModelCall = Threw | NoText | Replied(text: string)

  /** `next.final` is truthy. */
  predicate IsFinal(r: InterviewResponse) {
    r.final == Some(true)
  }

  /** `r.question` is truthy: present and not the empty string. */
  predicate HasQuestion(r: InterviewResponse) {
    r.question.Some? && r.question.value != ""
  }

  const ConfusedQuestion := "I got confused. What exactly do you want to achieve?"
  const FailedQuestion := "Failed to think. Just tell me what you want."

  function TextQuestion(q: string): InterviewResponse {
    InterviewResponse(Some(q), Some(TextInput), None, None)
  }

  const NoSpanSchedule := ScheduleProposal(
    Some([ScheduleDraft(Daily, "08:00", "Work on your goal", [1, 2, 3, 4, 5])]),
    Some(["Because you said so"]))

  const FailedSchedule := ScheduleProposal(
    Some([ScheduleDraft(Daily, "08:00", "Do the thing", [0, 1, 2, 3, 4, 5, 6])]),
    Some(["Because you said so"]))

  const FallbackMilestones := [
    MilestoneDraft("Month 1", "Start trying (maybe)", "This is the easy part."),
    MilestoneDraft("Month 2", "Don't quit yet", "Most people give up by now. Following the trend?"),
    MilestoneDraft("Month 3", "Actually do something", "Shocking you made it this far.")]

  const Fence := "```"
  const JsonFence := "```json"

  /** `response.text || dflt`: an undefined or empty text becomes `dflt`. */
  function TextOr(call: ModelCall, dflt: string): (t: string)
    requires !call.Threw?
    ensures call.Replied? && call.text != "" ==> t == call.text
    ensures (call.NoText? || call.text == "") ==> t == dflt
  {
    if call.Replied? && call.text != "" then call.text else dflt
  }

  // ----- locating the JSON object in the reply -----

  /** Some `{` occurs before some `}`: the regex `\{[\s\S]*\}` has a match. */
  predicate HasBracePair(text: string) {
    exists i, j :: 0 <= i < j < |text| && text[i] == '{' && text[j] == '}'
  }

  function FirstIndex(s: string, c: char): (r: Option<nat>)
    ensures r.None? <==> c !in s
    ensures r.Some? ==> r.value < |s| && s[r.value] == c && c !in s[..r.value]
  {
    if s == [] then None
    else if s[0] == c then Some(0)
    else match FirstIndex(s[1..], c)
      case None => None
      case Some(i) => assert s[..i + 1] == [s[0]] + s[1..][..i]; Some(i + 1)
  }

  function LastIndex(s: string, c: char): (r: Option<nat>)
    ensures r.None? <==> c !in s
    ensures r.Some? ==> r.value < |s| && s[r.value] == c && c !in s[r.value + 1..]
  {
    if s == [] then None
    else if s[|s| - 1] == c then Some(|s| - 1)
    else match LastIndex(s[..|s| - 1], c)
      case None => assert s == s[..|s| - 1] + [s[|s| - 1]]; None
      case Some(j) => assert s[j + 1..] == s[..|s| - 1][j + 1..] + [s[|s| - 1]]; Some(j)
  }

  /** `text.match(/\{[\s\S]*\}/)[0]`. The match starts at the first `{` (the leftmost start
      that can match) and, the star being greedy, runs to the last `}` of the text. */
  function JsonSpan(text: string): (span: Option<string>)
    ensures span.None? <==> !HasBracePair(text)
    ensures span.Some? ==> exists i, j :: (0 <= i < j < |text| && span.value == text[i..j + 1]
      && text[i] == '{' && '{' !in text[..i] && text[j] == '}' && '}' !in text[j + 1..])
  {
    var first := FirstIndex(text, '{');
    var last := LastIndex(text, '}');
    if first.Some? && last.Some? && first.value < last.value then
      Some(text[first.value..last.value + 1])
    else
      None
  }

  // ----- fence stripping -----

  /** `s.replace(/p/g, '')`: every non-overlapping occurrence of `p`, scanning left to
      right, is removed. */
  function RemoveAll(s: string, p: string): (r: string)
    requires |p| > 0
    ensures |r| <= |s|
    decreases |s|
  {
    if |p| <= |s| && s[..|p|] == p then RemoveAll(s[|p|..], p)
    else if s == [] then []
    else [s[0]] + RemoveAll(s[1..], p)
  }

  /** The text handed to `JSON.parse`: both fence markers removed, then trimmed. */
  function StripFences(s: string): (r: string)
    ensures |r| <= |s|
    ensures r == [] || (!IsJsSpace(r[0]) && !IsJsSpace(r[|r| - 1]))
  {
    Trim(RemoveAll(RemoveAll(s, JsonFence), Fence))
  }

  /** Text without the pattern passes through untouched. */
  lemma {:induction false} RemoveAllAbsent(s: string, p: string)
    requires |p| > 0 && !Contains(s, p)
    ensures RemoveAll(s, p) == s
  {
    if s != [] {
      if |p| <= |s| {
        assert !OccursAt(s, p, 0);
      }
      forall i | 0 <= i <= |s[1..]| - |p| ensures !OccursAt(s[1..], p, i) {
        assert !OccursAt(s, p, i + 1);
        assert s[1..][i..i + |p|] == s[i + 1..i + 1 + |p|];
      }
      RemoveAllAbsent(s[1..], p);
    }
  }

  /** A first character that cannot begin the pattern is kept. */
  lemma RemoveAllCons(c: char, s: string, p: string)
    requires |p| > 0 && c != p[0]
    ensures RemoveAll([c] + s, p) == [c] + RemoveAll(s, p)
  {
    assert ([c] + s)[1..] == s;
  }

  /** A last character that cannot end the pattern is kept. */
  lemma {:induction false} RemoveAllSnoc(s: string, c: char, p: string)
    requires |p| > 0 && c != p[|p| - 1]
    ensures RemoveAll(s + [c], p) == RemoveAll(s, p) + [c]
    decreases |s|
  {
    var t := s + [c];
    if |p| <= |t| && t[..|p|] == p {
      assert |p| <= |s| && s[..|p|] == p;
      assert t[|p|..] == s[|p|..] + [c];
      RemoveAllSnoc(s[|p|..], c, p);
    } else if s == [] {
      assert RemoveAll([c], p) == [c] + RemoveAll([], p);
    } else {
      assert t[1..] == s[1..] + [c];
      RemoveAllSnoc(s[1..], c, p);
    }
  }

  /** Number of leading backticks. */
  function LeadingTicks(s: string): nat {
    if s != [] && s[0] == '`' then 1 + LeadingTicks(s[1..]) else 0
  }

  predicate NoFence(s: string) {
    !Contains(s, Fence)
  }

  lemma TwoLeadingTicks(s: string)
    ensures |s| >= 2 && s[0] == '`' && s[1] == '`' ==> LeadingTicks(s) >= 2
  {
    if |s| >= 2 && s[0] == '`' && s[1] == '`' {
      assert s[1..][0] == '`';
    }
  }

  /** A character put in front of fence-free text makes no fence, unless it is a
      backtick in front of two more. */
  lemma NoFenceCons(c: char, s: string)
    requires NoFence(s) && (c != '`' || LeadingTicks(s) <= 1)
    ensures NoFence([c] + s)
  {
    var t := [c] + s;
    TwoLeadingTicks(s);
    forall i | 0 <= i <= |t| - |Fence| ensures !OccursAt(t, Fence, i) {
      if i == 0 {
        assert t[..3] == [c, s[0], s[1]];
      } else {
        assert t[i..i + 3] == s[i - 1..i + 2];
        assert !OccursAt(s, Fence, i - 1);
      }
    }
  }

  /** Removing every "```" leaves no "```" behind: each run of k backticks shrinks to
      k mod 3, so no run of three survives, and the leading run never grows. */
  lemma {:induction false} RemoveFenceLeavesNone(t: string)
    ensures NoFence(RemoveAll(t, Fence))
    ensures LeadingTicks(RemoveAll(t, Fence)) <= LeadingTicks(t)
    ensures LeadingTicks(RemoveAll(t, Fence)) <= 2
    decreases |t|
  {
    var r := RemoveAll(t, Fence);
    if 3 <= |t| && t[..3] == Fence {
      RemoveFenceLeavesNone(t[3..]);
      assert LeadingTicks(t) == 3 + LeadingTicks(t[3..]) by {
        assert t[0] == Fence[0] && t[1] == Fence[1] && t[2] == Fence[2];
        assert t[1..][0] == '`' && t[1..][1..][0] == '`';
        assert t[1..][1..][1..] == t[3..];
        assert LeadingTicks(t[1..][1..]) == 1 + LeadingTicks(t[3..]);
        assert LeadingTicks(t[1..]) == 1 + LeadingTicks(t[1..][1..]);
      }
    } else if t == [] {
      assert !Contains(r, Fence);
    } else {
      RemoveFenceLeavesNone(t[1..]);
      var r' := RemoveAll(t[1..], Fence);
      assert r == [t[0]] + r';
      if t[0] == '`' {
        assert LeadingTicks(t[1..]) <= 1;
      }
      NoFenceCons(t[0], r');
    }
  }

  /** A slice of fence-free text is fence-free. */
  lemma NoFenceSlice(s: string, i: nat, j: nat)
    requires i <= j <= |s| && NoFence(s)
    ensures NoFence(s[i..j])
  {
    var u := s[i..j];
    assert !Contains(s, Fence);
    assert |Fence| == 3;
    forall k | 0 <= k <= |u| - 3 ensures !OccursAt(u, Fence, k) {
      assert !OccursAt(s, Fence, i + k);
      SliceOfSlice(s, i, j, k, k + 3);
    }
  }

  /** Whatever the reply, the text handed to `JSON.parse` contains no "```" (and so no
      "```json" either). */
  lemma StripFencesRemovesAll(s: string)
    ensures NoFence(StripFences(s))
  {
    var u := RemoveAll(RemoveAll(s, JsonFence), Fence);
    RemoveFenceLeavesNone(RemoveAll(s, JsonFence));
    var i, j :| 0 <= i <= j <= |u| && Trim(u) == u[i..j] && SpaceOutside(u, i, j);
    NoFenceSlice(u, i, j);
  }

  /** Braces around a text survive the removal of a pattern that neither starts with `{`
      nor ends with `}`. */
  lemma RemoveAllKeepsBraces(x: string, p: string)
    requires |p| > 0 && p[0] != '{' && p[|p| - 1] != '}'
    ensures RemoveAll("{" + x + "}", p) == "{" + RemoveAll(x, p) + "}"
  {
    assert "{" + x + "}" == [('{')] + (x + "}");
    RemoveAllCons('{', x + "}", p);
    RemoveAllSnoc(x, '}', p);
  }

  /** A span `{...}` keeps its braces through fence stripping and trimming. */
  lemma StripFencesKeepsBraces(mid: string)
    ensures StripFences("{" + mid + "}") == "{" + RemoveAll(RemoveAll(mid, JsonFence), Fence) + "}"
  {
    assert JsonFence[0] == '`' && JsonFence[|JsonFence| - 1] == 'n';
    assert Fence[0] == '`' && Fence[|Fence| - 1] == '`';
    RemoveAllKeepsBraces(mid, JsonFence);
    var a := RemoveAll(mid, JsonFence);
    RemoveAllKeepsBraces(a, Fence);
    TrimKeepsBraced(RemoveAll(a, Fence));
  }

  lemma TrimKeepsBraced(x: string)
    ensures Trim("{" + x + "}") == "{" + x + "}"
  {
    var w := "{" + x + "}";
    assert w[0] == '{' && w[|w| - 1] == '}';
    assert FirstNonSpace(w, 0) == 0;
    assert EndOfNonSpace(w, 0, |w|) == |w|;
    assert w[0..|w|] == w;
  }

  // ----- the three entry points -----

  /** The cleaned JSON text of a reply, when the reply has a `{...}` span. */
  function CleanJson(text: string): (j: Option<string>)
    ensures j.Some? <==> HasBracePair(text)
  {
    match JsonSpan(text)
    case None => None
    case Some(span) => Some(StripFences(span))
  }

  /** `generateInterviewQuestion`: never fails. An exception yields the "failed to think"
      question; a reply with no `{...}` span yields the "confused" question; otherwise the
      parse of the cleaned span, or the "failed to think" question when parsing throws. */
  function GenerateInterviewQuestion(call: ModelCall, parse: string -> Option<InterviewResponse>): (r: InterviewResponse)
    ensures call.Threw? ==> r == TextQuestion(FailedQuestion)
    ensures !call.Threw? && !HasBracePair(TextOr(call, "{}")) ==> r == TextQuestion(ConfusedQuestion)
    ensures !call.Threw? && HasBracePair(TextOr(call, "{}")) ==>
      var j := CleanJson(TextOr(call, "{}")).value;
      (parse(j).Some? && r == parse(j).value) || (parse(j).None? && r == TextQuestion(FailedQuestion))
  {
    if call.Threw? then TextQuestion(FailedQuestion)
    else
      match CleanJson(TextOr(call, "{}"))
      case None => TextQuestion(ConfusedQuestion)
      case Some(j) =>
        match parse(j)
        case None => TextQuestion(FailedQuestion)
        case Some(v) => v
  }

  /** `generateSchedule`: the same discipline with the two schedule fallbacks. */
  function GenerateSchedule(call: ModelCall, parse: string -> Option<ScheduleProposal>): (r: ScheduleProposal)
    ensures call.Threw? ==> r == FailedSchedule
    ensures !call.Threw? && !HasBracePair(TextOr(call, "{}")) ==> r == NoSpanSchedule
    ensures !call.Threw? && HasBracePair(TextOr(call, "{}")) ==>
      var j := CleanJson(TextOr(call, "{}")).value;
      (parse(j).Some? && r == parse(j).value) || (parse(j).None? && r == FailedSchedule)
  {
    if call.Threw? then FailedSchedule
    else
      match CleanJson(TextOr(call, "{}"))
      case None => NoSpanSchedule
      case Some(j) =>
        match parse(j)
        case None => FailedSchedule
        case Some(v) => v
  }

  /** `generateMilestones`: fences are stripped from the whole reply (no span is located);
      any failure yields the three fixed milestones. */
  function GenerateMilestones(call: ModelCall, parse: string -> Option<seq<MilestoneDraft>>): (r: seq<MilestoneDraft>)
    ensures call.Threw? ==> r == FallbackMilestones
    ensures !call.Threw? ==>
      var j := StripFences(TextOr(call, ""));
      (parse(j).Some? && r == parse(j).value) || (parse(j).None? && r == FallbackMilestones)
  {
    if call.Threw? then FallbackMilestones
    else
      match parse(StripFences(TextOr(call, "")))
      case None => FallbackMilestones
      case Some(v) => v
  }

  // ----- properties -----

  /** A reply with no `{` before a `}` yields the fixed "confused" text question,
      whatever the parser would have said. */
  lemma NoSpanYieldsConfused(text: string, parse: string -> Option<InterviewResponse>)
    requires text != "" && (forall k :: 0 <= k < |text| ==> text[k] != '{')
    ensures GenerateInterviewQuestion(Replied(text), parse) == TextQuestion(ConfusedQuestion)
    ensures GenerateInterviewQuestion(Replied(text), parse).inputType == Some(TextInput)
  {
  }

  /** Whenever the parser is consulted, it sees a `{...}` text with every fence gone:
      the span's outer braces survive stripping and trimming. */
  lemma ParsedTextIsBraced(text: string)
    requires HasBracePair(text)
    ensures var j := CleanJson(text).value;
      2 <= |j| && j[0] == '{' && j[|j| - 1] == '}' && NoFence(j)
  {
    var span := JsonSpan(text).value;
    var mid := span[1..|span| - 1];
    assert span == "{" + mid + "}";
    StripFencesKeepsBraces(mid);
    StripFencesRemovesAll(span);
  }

  /** A reply without text, or with empty text, is read as "{}" (`response.text || "{}"`):
      it has a span, so when "{}" parses to the empty response that response is returned,
      carrying neither question nor final. */
  lemma EmptyReplyIsNotFallback(call: ModelCall, parse: string -> Option<InterviewResponse>)
    requires call == NoText || call == Replied("")
    requires parse("{}") == Some(InterviewResponse(None, None, None, None))
    ensures var r := GenerateInterviewQuestion(call, parse);
      r.question.None? && !IsFinal(r) && r != TextQuestion(ConfusedQuestion) && r != TextQuestion(FailedQuestion)
  {
    EmptyReplyCleansToBraces(call);
  }

  lemma EmptyReplyCleansToBraces(call: ModelCall)
    requires call == NoText || call == Replied("")
    ensures CleanJson(TextOr(call, "{}")) == Some("{}")
  {
    var text := TextOr(call, "{}");
    assert text == "{}";
    assert FirstIndex(text, '{') == Some(0);
    assert LastIndex(text, '}') == Some(1);
    assert text[0..2] == text;
    assert JsonSpan(text) == Some("{}");
    StripFencesKeepsBraces("");
    assert RemoveAll("", JsonFence) == "";
    assert RemoveAll("", Fence) == "";
    assert "{" + "" + "}" == "{}";
    assert StripFences("{}") == "{}";
  }

  /** Both schedule fallbacks hold exactly one daily item at 08:00, motivated by
      "Because you said so"; they differ in task and active days. */
  lemma ScheduleFallbacks(call: ModelCall, parse: string -> Option<ScheduleProposal>)
    requires call.Threw? || !HasBracePair(TextOr(call, "{}"))
    ensures var r := GenerateSchedule(call, parse);
      r.schedule.Some? && |r.schedule.value| == 1
      && r.schedule.value[0].kind == Daily && r.schedule.value[0].time == "08:00"
      && r.motivations == Some(["Because you said so"])
      && (call.Threw? ==> r.schedule.value[0].task == "Do the thing" && r.schedule.value[0].activeDays == [0, 1, 2, 3, 4, 5, 6])
      && (!call.Threw? ==> r.schedule.value[0].task == "Work on your goal" && r.schedule.value[0].activeDays == [1, 2, 3, 4, 5])
  {
  }

  /** The milestone fallback is exactly "Month 1" to "Month 3". */
  lemma MilestoneFallbackMonths(call: ModelCall, parse: string -> Option<seq<MilestoneDraft>>)
    requires call.Threw? || parse(StripFences(TextOr(call, ""))).None?
    ensures var r := GenerateMilestones(call, parse);
      |r| == 3 && forall k :: 0 <= k < 3 ==> r[k].month == "Month " + Decimal(k + 1)
  {
    assert Decimal(1) == "1" && Decimal(2) == "2" && Decimal(3) == "3";
  }
}
