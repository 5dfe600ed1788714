/** The goal-creation screen of app/add.tsx: its React state is the fields of an
    `AddScreen` object and each handler is one method. The model calls go through the
    oracle client (`Oracle`), the image through the uploader (`Cloudinary`), the new goal
    through the store (`VisionStore`) and its reminders through `Notifications`. Replies,
    parsers, the upload outcome, the store's write outcome and the clock are parameters. */
module AddScreen {
  import opened Text
  import opened Oracle
  import opened VisionStore
  import Cloudinary
  import Notifications
  import Pdf

  /** The screen's `Stage`; the voice stage exists in the type but this screen never
      enters it. */
  datatype Stage = Setup | Interview | VoiceInterview | Proposal

  const RedoQuestion := "Fine. Tell me what was wrong with the plan and we'll try again."
  const SchedulePrefix := "schedule-"

  /** The id given to the `i`-th proposed schedule entry at time `t` (ms). */
  function ScheduleId(t: nat, i: nat): (id: string)
    ensures |id| > |SchedulePrefix| && id[..|SchedulePrefix|] == SchedulePrefix
    ensures AfterLast(id, '-') == Decimal(i)
  {
    var head := SchedulePrefix + Decimal(t);
    assert '-' !in Decimal(i) by {
      forall k | 0 <= k < |Decimal(i)| ensures Decimal(i)[k] != '-' {
        assert IsDigit(Decimal(i)[k]);
      }
    }
    AfterLastAppend(head, '-', Decimal(i));
    assert head + "-" + Decimal(i) == head + ['-'] + Decimal(i);
    head + "-" + Decimal(i)
  }

  /** Both the timestamp and the index can be read back from an id. */
  lemma ScheduleIdInjective(t1: nat, i1: nat, t2: nat, i2: nat)
    requires ScheduleId(t1, i1) == ScheduleId(t2, i2)
    ensures t1 == t2 && i1 == i2
  {
    var id := ScheduleId(t1, i1);
    assert Decimal(i1) == AfterLast(id, '-') == Decimal(i2);
    DecimalInjective(i1, i2);
    var h1, h2 := SchedulePrefix + Decimal(t1), SchedulePrefix + Decimal(t2);
    var n := |id| - |Decimal(i1)| - 1;
    assert h1 == id[..n] by {
      assert id == h1 + "-" + Decimal(i1);
    }
    assert h2 == id[..n] by {
      assert id == h2 + "-" + Decimal(i1);
    }
    assert Decimal(t1) == h1[|SchedulePrefix|..] == h2[|SchedulePrefix|..] == Decimal(t2);
    DecimalInjective(t1, t2);
  }

  /** The `map` over the proposal: every entry keeps its place and its fields and gets
      the id built from the clock reading taken for it and its index. */
  function AssignIds(drafts: seq<ScheduleDraft>, clock: nat -> nat): (items: seq<ScheduleItem>)
    ensures |items| == |drafts|
    ensures forall k :: 0 <= k < |drafts| ==> items[k].id == ScheduleId(clock(k), k)
    ensures forall k :: 0 <= k < |drafts| ==>
      && items[k].kind == drafts[k].kind && items[k].time == drafts[k].time
      && items[k].task == drafts[k].task && items[k].activeDays == drafts[k].activeDays
  {
    seq(|drafts|, k requires 0 <= k < |drafts| =>
      ScheduleItem(ScheduleId(clock(k), k), drafts[k].kind, drafts[k].time, drafts[k].task, drafts[k].activeDays))
  }

  predicate DistinctIds(s: seq<ScheduleItem>) {
    forall i, j :: 0 <= i < j < |s| ==> s[i].id != s[j].id
  }

  /** The ids of one proposal are pairwise distinct, whatever the clock reads for each
      entry (the source reads it once per entry). */
  lemma AssignIdsDistinct(drafts: seq<ScheduleDraft>, clock: nat -> nat)
    ensures DistinctIds(AssignIds(drafts, clock))
  {
    var items := AssignIds(drafts, clock);
    forall i, j | 0 <= i < j < |items| ensures items[i].id != items[j].id {
      if items[i].id == items[j].id {
        ScheduleIdInjective(clock(i), i, clock(j), j);
      }
    }
  }

  /** The `interviewData.questions` saved with the goal: one question/answer pair per
      history entry, in order. */
  function Questions(history: seq<HistoryItem>): (qs: seq<QuestionAnswer>)
    ensures |qs| == |history|
    ensures forall k :: 0 <= k < |history| ==> qs[k].question == history[k].q && qs[k].answer == history[k].a
  {
    seq(|history|, k requires 0 <= k < |history| => QuestionAnswer(history[k].q, history[k].a))
  }

  /** The item `saveVision` hands to the store: the uploaded image URL, the interview
      under the fixed summary "AI Generated", and the proposal. */
  function ItemData(goalText: string, url: string, history: seq<HistoryItem>, schedule: seq<ScheduleItem>, motivations: Option<seq<string>>): (item: NewItem)
    ensures item.text == goalText && item.imageUri == url
    ensures item.interviewData == Some(InterviewData(Questions(history), "AI Generated"))
    ensures item.schedule == Some(schedule) && item.motivations == motivations
  {
    NewItem(goalText, url, Some(InterviewData(Questions(history), "AI Generated")), Some(schedule), motivations)
  }

  /** The item whose reminders are scheduled right after the write. */
  function RecentItem(data: NewItem, createdAt: int): (v: VisionItem)
    ensures v.id == "temp-recent" && v.milestones == [] && v.createdAt == createdAt
    ensures v.schedule == data.schedule && v.motivations == data.motivations && v.text == data.text
  {
    VisionItem("temp-recent", data.text, data.imageUri, createdAt, [], None, data.interviewData, data.schedule, data.motivations)
  }

  /** `image` is truthy: a picture was picked and its URI is not empty. */
  predicate HasImage(image: Option<string>) {
    image.Some? && image.value != ""
  }

  /** What `submitAnswer` demands before doing anything: a non-blank answer and a
      current question with question text. */
  function CanSubmit(answer: string, currentQ: Option<InterviewResponse>): (b: bool)
    ensures b <==> !AllSpace(answer) && currentQ.Some? && HasQuestion(currentQ.value)
  {
    TrimEmptyIffAllSpace(answer);
    Trim(answer) != "" && currentQ.Some? && HasQuestion(currentQ.value)
  }

  /** An entry of the history: only guarded submissions create one. */
  predicate Answered(h: HistoryItem) {
    h.q != "" && Trim(h.a) != ""
  }

  predicate AllAnswered(history: seq<HistoryItem>) {
    forall k :: 0 <= k < |history| ==> Answered(history[k])
  }

  class AddScreen {
    var stage: Stage
    var goalText: string
    var image: Option<string>
    var history: seq<HistoryItem>
    var currentQ: Option<InterviewResponse>
    var answer: string
    var loading: bool
    var schedule: seq<ScheduleItem>
    /** Undefined when the parsed proposal lacked motivations. */
    var motivations: Option<seq<string>>
    var saving: bool
    var exporting: bool
    /** The screen navigated back. */
    var closed: bool

    /** Every history entry answers a real question with a non-blank answer, and the
        proposed schedule carries distinct ids. */
    predicate Valid()
      reads this
    {
      DistinctIds(schedule) && AllAnswered(history)
    }

    constructor ()
      ensures Valid()
      ensures stage == Setup && goalText == "" && image.None? && history == [] && currentQ.None?
      ensures answer == "" && !loading && schedule == [] && motivations == Some([])
      ensures !saving && !exporting && !closed
    {
      stage, goalText, image, history, currentQ, answer, loading := Setup, "", None, [], None, "", false;
      schedule, motivations, saving, exporting, closed := [], Some([]), false, false, false;
    }

    method SetGoalText(text: string)
      modifies this
      requires Valid()
      ensures Valid()
      ensures goalText == text
      ensures stage == old(stage) && image == old(image) && history == old(history) && currentQ == old(currentQ)
      ensures answer == old(answer) && loading == old(loading) && schedule == old(schedule) && motivations == old(motivations)
      ensures saving == old(saving) && exporting == old(exporting) && closed == old(closed)
    {
      goalText := text;
    }

    method SetAnswer(text: string)
      modifies this
      requires Valid()
      ensures Valid()
      ensures answer == text
      ensures stage == old(stage) && goalText == old(goalText) && image == old(image) && history == old(history)
      ensures currentQ == old(currentQ) && loading == old(loading) && schedule == old(schedule) && motivations == old(motivations)
      ensures saving == old(saving) && exporting == old(exporting) && closed == old(closed)
    {
      answer := text;
    }

    /** `pickImage`: a cancelled picker leaves the image as it was. */
    method PickImage(picked: Option<string>)
      modifies this
      requires Valid()
      ensures Valid()
      ensures image == (if picked.Some? then picked else old(image))
      ensures stage == old(stage) && goalText == old(goalText) && history == old(history) && currentQ == old(currentQ)
      ensures answer == old(answer) && loading == old(loading) && schedule == old(schedule) && motivations == old(motivations)
      ensures saving == old(saving) && exporting == old(exporting) && closed == old(closed)
    {
      if picked.Some? {
        image := picked;
      }
    }

    /** `startInterview`: the interview stage, with the first question asked for the
        goal and an empty history; `loading` is false again afterwards. */
    method StartInterview(reply: (string, seq<HistoryItem>) -> ModelCall, parseQuestion: string -> Option<InterviewResponse>)
      modifies this
      requires Valid()
      ensures Valid()
      ensures stage == Interview && !loading
      ensures currentQ == Some(GenerateInterviewQuestion(reply(goalText, []), parseQuestion))
      ensures goalText == old(goalText) && image == old(image) && history == old(history) && answer == old(answer)
      ensures schedule == old(schedule) && motivations == old(motivations)
      ensures saving == old(saving) && exporting == old(exporting) && closed == old(closed)
    {
      loading := true;
      stage := Interview;
      var first := GenerateInterviewQuestion(reply(goalText, []), parseQuestion);
      currentQ := Some(first);
      loading := false;
    }

    /** `submitAnswer`. Without a non-blank answer and a current question nothing
        happens. Otherwise the pair (question, answer as typed) is appended to the
        history and the answer box cleared; then a final reply turns the proposal for
        the new history into the schedule (with ids) and motivations and moves to the
        proposal stage, and any other reply becomes the current question. A proposal
        without a schedule makes the `map` throw: that is caught, and nothing beyond the
        history and the answer changes. `loading` always ends false. */
    method SubmitAnswer(reply: (string, seq<HistoryItem>) -> ModelCall, parseQuestion: string -> Option<InterviewResponse>,
                        proposalReply: (string, seq<HistoryItem>) -> ModelCall, parseProposal: string -> Option<ScheduleProposal>,
                        clock: nat -> nat)
      modifies this
      requires Valid()
      ensures Valid()
      ensures !CanSubmit(old(answer), old(currentQ)) ==> unchanged(this)
      ensures CanSubmit(old(answer), old(currentQ)) ==>
        && history == old(history) + [HistoryItem(old(currentQ).value.question.value, old(answer))]
        && answer == "" && !loading
      ensures CanSubmit(old(answer), old(currentQ)) ==>
        var next := GenerateInterviewQuestion(reply(goalText, history), parseQuestion);
        var proposal := GenerateSchedule(proposalReply(goalText, history), parseProposal);
        && (IsFinal(next) && proposal.schedule.Some? ==>
              && schedule == AssignIds(proposal.schedule.value, clock)
              && motivations == proposal.motivations && stage == Proposal && currentQ == old(currentQ))
        && (IsFinal(next) && proposal.schedule.None? ==>
              schedule == old(schedule) && motivations == old(motivations) && stage == old(stage) && currentQ == old(currentQ))
        && (!IsFinal(next) ==>
              currentQ == Some(next) && stage == old(stage) && schedule == old(schedule) && motivations == old(motivations))
      ensures goalText == old(goalText) && image == old(image)
      ensures saving == old(saving) && exporting == old(exporting) && closed == old(closed)
    {
      if !CanSubmit(answer, currentQ) {
        return;
      }
      RecordAnswer();
      AdvanceInterview(reply, parseQuestion, proposalReply, parseProposal, clock);
      loading := false;
    }

    /** The rest of a guarded `submitAnswer`, once the history holds the new pair: the
        model is asked for the next question about that history, and on a final reply
        for the proposal. */
    method AdvanceInterview(reply: (string, seq<HistoryItem>) -> ModelCall, parseQuestion: string -> Option<InterviewResponse>,
                            proposalReply: (string, seq<HistoryItem>) -> ModelCall, parseProposal: string -> Option<ScheduleProposal>,
                            clock: nat -> nat)
      modifies this
      requires Valid()
      ensures Valid()
      ensures var next := GenerateInterviewQuestion(reply(goalText, history), parseQuestion);
        var proposal := GenerateSchedule(proposalReply(goalText, history), parseProposal);
        && (IsFinal(next) && proposal.schedule.Some? ==>
              && schedule == AssignIds(proposal.schedule.value, clock)
              && motivations == proposal.motivations && stage == Proposal && currentQ == old(currentQ))
        && (IsFinal(next) && proposal.schedule.None? ==>
              schedule == old(schedule) && motivations == old(motivations) && stage == old(stage) && currentQ == old(currentQ))
        && (!IsFinal(next) ==>
              currentQ == Some(next) && stage == old(stage) && schedule == old(schedule) && motivations == old(motivations))
      ensures goalText == old(goalText) && image == old(image) && history == old(history) && answer == old(answer)
      ensures loading == old(loading) && saving == old(saving) && exporting == old(exporting) && closed == old(closed)
    {
      var next := GenerateInterviewQuestion(reply(goalText, history), parseQuestion);
      if IsFinal(next) {
        var proposal := GenerateSchedule(proposalReply(goalText, history), parseProposal);
        AdoptProposal(proposal, clock);
      } else {
        currentQ := Some(next);
      }
    }

    /** The first steps of a guarded `submitAnswer`: the pair is appended, the answer
        box cleared and `loading` set. */
    method RecordAnswer()
      modifies this
      requires Valid() && CanSubmit(answer, currentQ)
      ensures Valid()
      ensures history == old(history) + [HistoryItem(old(currentQ).value.question.value, old(answer))]
      ensures answer == "" && loading
      ensures stage == old(stage) && goalText == old(goalText) && image == old(image) && currentQ == old(currentQ)
      ensures schedule == old(schedule) && motivations == old(motivations)
      ensures saving == old(saving) && exporting == old(exporting) && closed == old(closed)
    {
      var entry := HistoryItem(currentQ.value.question.value, answer);
      assert Answered(entry);
      history := history + [entry];
      answer := "";
      loading := true;
    }

    /** The final branch of `submitAnswer` once the proposal is in: with a schedule,
        its entries get ids and the screen moves to the proposal stage; without one,
        the failing `map` leaves everything as it was. */
    method AdoptProposal(proposal: ScheduleProposal, clock: nat -> nat)
      modifies this
      requires Valid()
      ensures Valid()
      ensures proposal.schedule.Some? ==>
        schedule == AssignIds(proposal.schedule.value, clock) && motivations == proposal.motivations && stage == Proposal
      ensures proposal.schedule.None? ==>
        schedule == old(schedule) && motivations == old(motivations) && stage == old(stage)
      ensures goalText == old(goalText) && image == old(image) && history == old(history) && currentQ == old(currentQ)
      ensures answer == old(answer) && loading == old(loading)
      ensures saving == old(saving) && exporting == old(exporting) && closed == old(closed)
    {
      if proposal.schedule.Some? {
        AssignIdsDistinct(proposal.schedule.value, clock);
        schedule := AssignIds(proposal.schedule.value, clock);
        motivations := proposal.motivations;
        stage := Proposal;
      }
    }

    /** `handleRedo`: back to the interview with the fixed "what was wrong" text
        question; goal, history and proposal are kept. */
    method HandleRedo()
      modifies this
      requires Valid()
      ensures Valid()
      ensures stage == Interview && currentQ == Some(TextQuestion(RedoQuestion))
      ensures goalText == old(goalText) && image == old(image) && history == old(history) && answer == old(answer)
      ensures loading == old(loading) && schedule == old(schedule) && motivations == old(motivations)
      ensures saving == old(saving) && exporting == old(exporting) && closed == old(closed)
    {
      stage := Interview;
      currentQ := Some(TextQuestion(RedoQuestion));
    }

    /** `handleExportPDF`: the plan HTML of the current proposal (dated `dateStr`);
        `exporting` ends false. */
    method HandleExportPdf(dateStr: string) returns (html: string)
      modifies this
      requires Valid()
      ensures Valid()
      ensures html == Pdf.PlanHtml(Pdf.PlanData(goalText, motivations, schedule), dateStr)
      ensures !exporting
      ensures stage == old(stage) && goalText == old(goalText) && image == old(image) && history == old(history)
      ensures currentQ == old(currentQ) && answer == old(answer) && loading == old(loading)
      ensures schedule == old(schedule) && motivations == old(motivations)
      ensures saving == old(saving) && closed == old(closed)
    {
      exporting := true;
      html := Pdf.PlanHtml(Pdf.PlanData(goalText, motivations, schedule), dateStr);
      exporting := false;
    }

    /** `saveVision`. Without an image (none picked, or an empty URI), or while a save is under way, nothing happens.
        Otherwise the image is uploaded; on success the goal is written through the
        store, its reminders are scheduled (`msOfDay` is the local time of day) and the
        screen closes, keeping `saving` set. A failed upload or write resets `saving`
        and keeps the screen open. `sent` is the document the store was asked to write. */
    method SaveVision(config: Cloudinary.Config, outcome: Cloudinary.FetchOutcome, store: Store,
                      uid: Option<string>, writeFailure: Option<string>, createdAt: int,
                      enabled: bool, granted: bool, platform: Notifications.Platform, msOfDay: nat)
      returns (sent: Option<DocData>, registered: seq<Notifications.Registration>)
      modifies this, store
      requires Valid()
      requires msOfDay < Notifications.DayMs
      ensures Valid()
      ensures !HasImage(old(image)) || old(saving) ==>
        unchanged(this) && unchanged(store) && sent.None? && registered == []
      ensures HasImage(old(image)) && !old(saving) ==>
        var up := Cloudinary.Upload(config, old(image).value, outcome);
        var data := if up.Ok? then ItemData(goalText, up.value, history, schedule, motivations) else ItemData(goalText, "", history, schedule, motivations);
        && (up.Err? ==> !saving && closed == old(closed) && sent.None? && registered == [] && unchanged(store))
        && (up.Ok? ==> sent == Some(NewDocument(data, uid)))
        && (up.Ok? ==> store.items == old(store.items) && store.error == (if writeFailure.Some? then writeFailure else old(store.error)))
        && (up.Ok? && writeFailure.Some? ==> !saving && closed == old(closed) && registered == [])
        && (up.Ok? && writeFailure.None? ==>
              saving && closed && registered == Notifications.Regimen(RecentItem(data, createdAt), enabled, granted, platform, msOfDay))
      ensures stage == old(stage) && goalText == old(goalText) && image == old(image) && history == old(history)
      ensures currentQ == old(currentQ) && answer == old(answer) && loading == old(loading)
      ensures schedule == old(schedule) && motivations == old(motivations) && exporting == old(exporting)
    {
      sent, registered := None, [];
      if !HasImage(image) || saving {
        return;
      }
      saving := true;
      var up := Cloudinary.Upload(config, image.value, outcome);
      if up.Err? {
        saving := false;
        return;
      }
      var data := ItemData(goalText, up.value, history, schedule, motivations);
      var written, thrown := store.AddItem(data, uid, writeFailure);
      sent := Some(written);
      if thrown.Some? {
        saving := false;
        return;
      }
      var asked;
      asked, registered := Notifications.ScheduleRegimen(RecentItem(data, createdAt), enabled, granted, platform, msOfDay);
      closed := true;
    }
  }
}
