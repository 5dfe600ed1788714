/** The printable plan of services/pdfGenerator.ts. `generatePlanHTML` is modelled as the
    element tree its template produces, plus a serialiser for that tree; the style sheet,
    the head and the template's white space are not reproduced. The creation date comes
    in already formatted. */
module Pdf {
  import opened Text
  import opened Oracle
  import opened VisionStore

  /** An HTML element with its tag, its class attribute ("" for none) and its children,
      or text interpolated into the template as it is. */
  datatype Node = Elem(tag: string, cls: string, children: seq<Node>) | Raw(text: string)

  /** `PlanData`; `motivations` may be missing altogether. */
  datatype PlanData = PlanData(goalText: string, motivations: Option<seq<string>>, schedule: seq<ScheduleItem>)

  /** The first letters of `DAY_NAMES`, Sunday first. */
  const DayLetters := "SMTWTFS"

  function Render(n: Node): string
    decreases n, 1
  {
    match n
    case Raw(s) => s
    case Elem(tag, cls, cs) =>
      "<" + tag + (if cls == "" then "" else " class=\"" + cls + "\"") + ">" + RenderAll(cs) + "</" + tag + ">"
  }

  function RenderAll(ns: seq<Node>): string
    decreases ns, 0
  {
    if ns == [] then "" else Render(ns[0]) + RenderAll(ns[1..])
  }

  /** The number of elements in a tree whose class attribute is `cls`. */
  function Count(n: Node, cls: string): nat
    decreases n, 1
  {
    match n
    case Raw(_) => 0
    case Elem(_, c, cs) => (if c == cls then 1 else 0) + CountAll(cs, cls)
  }

  function CountAll(ns: seq<Node>, cls: string): nat
    decreases ns, 0
  {
    if ns == [] then 0 else Count(ns[0], cls) + CountAll(ns[1..], cls)
  }

  lemma {:induction false} CountAllAppend(xs: seq<Node>, ys: seq<Node>, cls: string)
    ensures CountAll(xs + ys, cls) == CountAll(xs, cls) + CountAll(ys, cls)
  {
    if xs == [] {
      assert xs + ys == ys;
    } else {
      assert (xs + ys)[1..] == xs[1..] + ys;
      CountAllAppend(xs[1..], ys, cls);
    }
  }

  /** Siblings that each hold `c` matching elements hold `c * |ns|` together. */
  lemma {:induction false} CountAllUniform(ns: seq<Node>, cls: string, c: nat)
    requires forall k :: 0 <= k < |ns| ==> Count(ns[k], cls) == c
    ensures CountAll(ns, cls) == c * |ns|
  {
    if ns != [] {
      CountAllUniform(ns[1..], cls, c);
    }
  }

  function Leaf(tag: string, cls: string, s: string): Node {
    Elem(tag, cls, [Raw(s)])
  }

  /** `<span class="day active|inactive">` with the day's initial. */
  function DaySpan(activeDays: seq<int>, idx: nat): (n: Node)
    requires idx < 7
    ensures n.Elem? && n.tag == "span" && n.children == [Raw([DayLetters[idx]])]
    ensures n.cls == "day active" <==> idx in activeDays
    ensures n.cls == "day inactive" <==> idx !in activeDays
  {
    Leaf("span", if idx in activeDays then "day active" else "day inactive", [DayLetters[idx]])
  }

  function DaysRow(activeDays: seq<int>): (n: Node)
    ensures n.Elem? && |n.children| == 7
    ensures forall idx :: 0 <= idx < 7 ==> n.children[idx] == DaySpan(activeDays, idx)
  {
    Elem("div", "days-row", seq(7, idx requires 0 <= idx < 7 => DaySpan(activeDays, idx)))
  }

  function CadenceName(k: Cadence): string {
    match k
    case Daily => "daily"
    case Weekly => "weekly"
    case Custom => "custom"
  }

  function ScheduleCard(item: ScheduleItem): Node {
    Elem("div", "schedule-card", [
      Elem("div", "schedule-header", [
        Leaf("span", "schedule-time", item.time),
        Leaf("span", "schedule-type", CadenceName(item.kind))]),
      Leaf("p", "schedule-task", item.task),
      DaysRow(item.activeDays)])
  }

  function MotivationItem(m: string): Node {
    Elem("li", "motivation-item", [Leaf("span", "check-icon", "✓"), Leaf("span", "motivation-text", m)])
  }

  function MotivationSection(ms: seq<string>): Node {
    Elem("div", "section", [
      Leaf("h2", "section-title", "Why You're Doing This"),
      Elem("ul", "motivation-list", seq(|ms|, k requires 0 <= k < |ms| => MotivationItem(ms[k])))])
  }

  function ScheduleSection(s: seq<ScheduleItem>): Node {
    Elem("div", "section", [Leaf("h2", "section-title", "The Regimen")]
      + seq(|s|, k requires 0 <= k < |s| => ScheduleCard(s[k])))
  }

  const Circle := Elem("span", "tracker-circle", [])

  function TrackerWeek(week: nat, circles: nat): Node {
    Elem("div", "tracker-week", [
      Leaf("span", "week-label", "Week " + Decimal(week)),
      Elem("div", "tracker-days", seq(circles, _ => Circle))])
  }

  /** The 30-day tracker: weeks 1-4 of seven circles, then week 5 of two. */
  function Tracker(): Node {
    Elem("div", "tracker-section", [
    Leaf("h2", "tracker-title", "30-Day Progress Tracker"),
    Leaf("p", "month-label", "Mark each circle as you complete your daily tasks ○ → ●"),
    Elem("div", "tracker-grid", seq(4, k requires 0 <= k < 4 => TrackerWeek(k + 1, 7)) + [TrackerWeek(5, 2)])])
  }

  predicate HasMotivations(data: PlanData) {
    data.motivations.Some? && |data.motivations.value| > 0
  }

  predicate HasSchedule(data: PlanData) {
    |data.schedule| > 0
  }

  function Header(goalText: string, dateStr: string): Node {
    Elem("div", "header", [
      Leaf("h1", "", goalText),
      Leaf("p", "subtitle", "Personal Action Plan"),
      Leaf("p", "date", "Created " + dateStr)])
  }

  const Footer := Elem("div", "footer", [Leaf("p", "", "Generated by Vision Board • Now get to work! \U{1F4AA}")])

  /** The body's children, in order. */
  function Sections(data: PlanData, dateStr: string): seq<Node> {
    [Header(data.goalText, dateStr)]
    + (if HasMotivations(data) then [MotivationSection(data.motivations.value)] else [])
    + (if HasSchedule(data) then [ScheduleSection(data.schedule)] else [])
    + [Tracker(), Footer]
  }

  /** `generatePlanHTML`, as a tree; `dateStr` is the formatted creation date. */
  function PlanDocument(data: PlanData, dateStr: string): Node {
    Elem("html", "", [Elem("body", "", [Elem("div", "container", Sections(data, dateStr))])])
  }

  function PlanHtml(data: PlanData, dateStr: string): string {
    Render(PlanDocument(data, dateStr))
  }

  lemma CountLeaf(tag: string, c: string, s: string, cls: string)
    ensures Count(Leaf(tag, c, s), cls) == if c == cls then 1 else 0
  {
    assert [Raw(s)][1..] == [];
    assert CountAll([Raw(s)], cls) == Count(Raw(s), cls) + CountAll([], cls) == 0;
  }

  lemma CountAll1(a: Node, cls: string)
    ensures CountAll([a], cls) == Count(a, cls)
  {
    assert [a][1..] == [];
  }

  lemma CountAll2(a: Node, b: Node, cls: string)
    ensures CountAll([a, b], cls) == Count(a, cls) + Count(b, cls)
  {
    assert [a, b][1..] == [b];
    CountAll1(b, cls);
  }

  lemma CountAll3(a: Node, b: Node, c: Node, cls: string)
    ensures CountAll([a, b, c], cls) == Count(a, cls) + Count(b, cls) + Count(c, cls)
  {
    assert [a, b, c][1..] == [b, c];
    CountAll2(b, c, cls);
  }

  lemma HeaderCount(goalText: string, dateStr: string, cls: string)
    requires cls !in {"", "header", "subtitle", "date"}
    ensures Count(Header(goalText, dateStr), cls) == 0
  {
    CountLeaf("h1", "", goalText, cls);
    CountLeaf("p", "subtitle", "Personal Action Plan", cls);
    CountLeaf("p", "date", "Created " + dateStr, cls);
    CountAll3(Leaf("h1", "", goalText), Leaf("p", "subtitle", "Personal Action Plan"), Leaf("p", "date", "Created " + dateStr), cls);
  }

  lemma FooterCount(cls: string)
    requires cls !in {"", "footer"}
    ensures Count(Footer, cls) == 0
  {
    CountAll1(Footer.children[0], cls);
    CountLeaf("p", "", "Generated by Vision Board • Now get to work! \U{1F4AA}", cls);
  }

  lemma MotivationSectionCount(ms: seq<string>, cls: string)
    requires cls !in {"section-title", "motivation-list", "check-icon", "motivation-text"}
    ensures Count(MotivationSection(ms), cls) ==
      (if cls == "section" then 1 else 0) + (if cls == "motivation-item" then |ms| else 0)
  {
    var c := if cls == "motivation-item" then 1 else 0;
    var list := seq(|ms|, k requires 0 <= k < |ms| => MotivationItem(ms[k]));
    forall k | 0 <= k < |list| ensures Count(list[k], cls) == c {
      CountLeaf("span", "check-icon", "✓", cls);
      CountLeaf("span", "motivation-text", ms[k], cls);
      CountAll2(Leaf("span", "check-icon", "✓"), Leaf("span", "motivation-text", ms[k]), cls);
    }
    CountAllUniform(list, cls, c);
    CountLeaf("h2", "section-title", "Why You're Doing This", cls);
    CountAll2(Leaf("h2", "section-title", "Why You're Doing This"), Elem("ul", "motivation-list", list), cls);
  }

  lemma DaysRowCount(activeDays: seq<int>, cls: string)
    requires cls !in {"days-row", "day active", "day inactive"}
    ensures Count(DaysRow(activeDays), cls) == 0
  {
    var row := DaysRow(activeDays);
    forall idx | 0 <= idx < 7 ensures Count(row.children[idx], cls) == 0 {
      var span := DaySpan(activeDays, idx);
      CountLeaf("span", span.cls, [DayLetters[idx]], cls);
    }
    CountAllUniform(row.children, cls, 0);
  }

  lemma CardCount(item: ScheduleItem, cls: string)
    requires cls !in {"schedule-header", "schedule-time", "schedule-type", "schedule-task", "days-row", "day active", "day inactive"}
    ensures Count(ScheduleCard(item), cls) == if cls == "schedule-card" then 1 else 0
  {
    var time := Leaf("span", "schedule-time", item.time);
    var kind := Leaf("span", "schedule-type", CadenceName(item.kind));
    var task := Leaf("p", "schedule-task", item.task);
    CountLeaf("span", "schedule-time", item.time, cls);
    CountLeaf("span", "schedule-type", CadenceName(item.kind), cls);
    CountLeaf("p", "schedule-task", item.task, cls);
    CountAll2(time, kind, cls);
    DaysRowCount(item.activeDays, cls);
    CountAll3(Elem("div", "schedule-header", [time, kind]), task, DaysRow(item.activeDays), cls);
  }

  lemma ScheduleSectionCount(s: seq<ScheduleItem>, cls: string)
    requires cls !in {"section-title", "schedule-header", "schedule-time", "schedule-type", "schedule-task", "days-row", "day active", "day inactive"}
    ensures Count(ScheduleSection(s), cls) ==
      (if cls == "section" then 1 else 0) + (if cls == "schedule-card" then |s| else 0)
  {
    var c := if cls == "schedule-card" then 1 else 0;
    var cards := seq(|s|, k requires 0 <= k < |s| => ScheduleCard(s[k]));
    forall k | 0 <= k < |cards| ensures Count(cards[k], cls) == c {
      CardCount(s[k], cls);
    }
    CountAllUniform(cards, cls, c);
    var title := Leaf("h2", "section-title", "The Regimen");
    CountLeaf("h2", "section-title", "The Regimen", cls);
    CountAll1(title, cls);
    CountAllAppend([title], cards, cls);
  }

  lemma TrackerWeekCount(week: nat, circles: nat, cls: string)
    requires cls !in {"week-label", "tracker-days"}
    ensures Count(TrackerWeek(week, circles), cls) ==
      (if cls == "tracker-week" then 1 else 0) + (if cls == "tracker-circle" then circles else 0)
  {
    var days := seq(circles, _ => Circle);
    forall k | 0 <= k < |days| ensures Count(days[k], cls) == if cls == "tracker-circle" then 1 else 0 {
    }
    CountAllUniform(days, cls, if cls == "tracker-circle" then 1 else 0);
    var weekLabel := Leaf("span", "week-label", "Week " + Decimal(week));
    CountLeaf("span", "week-label", "Week " + Decimal(week), cls);
    CountAll2(weekLabel, Elem("div", "tracker-days", days), cls);
  }

  lemma TrackerCount(cls: string)
    requires cls !in {"tracker-section", "tracker-title", "month-label", "tracker-grid", "week-label", "tracker-days"}
    ensures Count(Tracker(), cls) == (if cls == "tracker-week" then 5 else 0) + (if cls == "tracker-circle" then 30 else 0)
  {
    var c := (if cls == "tracker-week" then 1 else 0) + (if cls == "tracker-circle" then 7 else 0);
    var weeks := seq(4, k requires 0 <= k < 4 => TrackerWeek(k + 1, 7));
    forall k | 0 <= k < 4 ensures Count(weeks[k], cls) == c {
      TrackerWeekCount(k + 1, 7, cls);
    }
    CountAllUniform(weeks, cls, c);
    TrackerWeekCount(5, 2, cls);
    CountAll1(TrackerWeek(5, 2), cls);
    CountAllAppend(weeks, [TrackerWeek(5, 2)], cls);
    CountLeaf("h2", "tracker-title", "30-Day Progress Tracker", cls);
    CountLeaf("p", "month-label", "Mark each circle as you complete your daily tasks ○ → ●", cls);
    var t := Tracker();
    CountAll3(t.children[0], t.children[1], t.children[2], cls);
  }

  /** Below the html, body and container wrappers, the document is its sections. */
  lemma DocumentCount(data: PlanData, dateStr: string, cls: string)
    requires cls !in {"", "container"}
    ensures Count(PlanDocument(data, dateStr), cls) == CountAll(Sections(data, dateStr), cls)
  {
    var container := Elem("div", "container", Sections(data, dateStr));
    CountAll1(container, cls);
    CountAll1(Elem("body", "", [container]), cls);
  }

  /** The count over the sections is the sum over the blocks present. */
  lemma SectionsCount(data: PlanData, dateStr: string, cls: string)
    ensures CountAll(Sections(data, dateStr), cls) ==
      Count(Header(data.goalText, dateStr), cls)
      + (if HasMotivations(data) then Count(MotivationSection(data.motivations.value), cls) else 0)
      + (if HasSchedule(data) then Count(ScheduleSection(data.schedule), cls) else 0)
      + Count(Tracker(), cls) + Count(Footer, cls)
  {
    var head := [Header(data.goalText, dateStr)];
    var mot := if HasMotivations(data) then [MotivationSection(data.motivations.value)] else [];
    var sch := if HasSchedule(data) then [ScheduleSection(data.schedule)] else [];
    var tail := [Tracker(), Footer];
    assert Sections(data, dateStr) == head + mot + sch + tail;
    CountAllAppend(head, mot, cls);
    CountAllAppend(head + mot, sch, cls);
    CountAllAppend(head + mot + sch, tail, cls);
    CountAll1(head[0], cls);
    CountAll2(Tracker(), Footer, cls);
    if mot != [] {
      CountAll1(mot[0], cls);
    }
    if sch != [] {
      CountAll1(sch[0], cls);
    }
  }

  /** For a class the header and the footer do not use, the document's count is the
      sum over the motivation section, the schedule section and the tracker. */
  lemma BodyCount(data: PlanData, dateStr: string, cls: string)
    requires cls !in {"", "container", "header", "subtitle", "date", "footer"}
    ensures Count(PlanDocument(data, dateStr), cls) ==
      (if HasMotivations(data) then Count(MotivationSection(data.motivations.value), cls) else 0)
      + (if HasSchedule(data) then Count(ScheduleSection(data.schedule), cls) else 0)
      + Count(Tracker(), cls)
  {
    DocumentCount(data, dateStr, cls);
    SectionsCount(data, dateStr, cls);
    HeaderCount(data.goalText, dateStr, cls);
    FooterCount(cls);
  }

  /** The tracker's classes occur nowhere else in the document. */
  lemma OnlyInTracker(data: PlanData, dateStr: string, cls: string)
    requires cls == "tracker-circle" || cls == "tracker-week"
    ensures Count(PlanDocument(data, dateStr), cls) == Count(Tracker(), cls)
  {
    ScheduleSectionCount(data.schedule, cls);
    if HasMotivations(data) {
      MotivationSectionCount(data.motivations.value, cls);
    }
    BodyCount(data, dateStr, cls);
  }

  /** Whatever the plan, the tracker holds 30 circles in 5 weeks. */
  lemma ThirtyCircles(data: PlanData, dateStr: string)
    ensures Count(PlanDocument(data, dateStr), "tracker-circle") == 30
    ensures Count(PlanDocument(data, dateStr), "tracker-week") == 5
  {
    OnlyInTracker(data, dateStr, "tracker-circle");
    TrackerCount("tracker-circle");
    OnlyInTracker(data, dateStr, "tracker-week");
    TrackerCount("tracker-week");
  }

  /** One list item per motivation, inside the one section that appears exactly when
      there are motivations. */
  lemma MotivationItems(data: PlanData, dateStr: string)
    ensures Count(PlanDocument(data, dateStr), "motivation-item") ==
      if HasMotivations(data) then |data.motivations.value| else 0
  {
    var cls := "motivation-item";
    BodyCount(data, dateStr, cls);
    TrackerCount(cls);
    if HasMotivations(data) {
      MotivationSectionCount(data.motivations.value, cls);
    }
    ScheduleSectionCount(data.schedule, cls);
  }

  /** One card per schedule entry, in a section that appears exactly when there is a
      schedule. */
  lemma ScheduleCards(data: PlanData, dateStr: string)
    ensures Count(PlanDocument(data, dateStr), "schedule-card") == |data.schedule|
  {
    var cls := "schedule-card";
    BodyCount(data, dateStr, cls);
    TrackerCount(cls);
    if HasMotivations(data) {
      MotivationSectionCount(data.motivations.value, cls);
    }
    ScheduleSectionCount(data.schedule, cls);
  }

  /** The section blocks: one for motivations when there are any, one for the schedule
      when there is one. */
  lemma SectionBlocks(data: PlanData, dateStr: string)
    ensures Count(PlanDocument(data, dateStr), "section") ==
      (if HasMotivations(data) then 1 else 0) + (if HasSchedule(data) then 1 else 0)
  {
    var cls := "section";
    BodyCount(data, dateStr, cls);
    TrackerCount(cls);
    if HasMotivations(data) {
      MotivationSectionCount(data.motivations.value, cls);
    }
    ScheduleSectionCount(data.schedule, cls);
  }

  /** Siblings that each hold one element of class `a` or of class `b`, and not both,
      hold as many of the two together as there are siblings. */
  lemma {:induction false} CountAllSplit(ns: seq<Node>, a: string, b: string)
    requires forall k :: 0 <= k < |ns| ==> Count(ns[k], a) + Count(ns[k], b) == 1
    ensures CountAll(ns, a) + CountAll(ns, b) == |ns|
  {
    if ns != [] {
      CountAllSplit(ns[1..], a, b);
    }
  }

  /** Every card shows seven day initials, each marked either active or inactive. */
  lemma CardDaySpans(item: ScheduleItem)
    ensures Count(ScheduleCard(item), "day active") + Count(ScheduleCard(item), "day inactive") == 7
  {
    var row := DaysRow(item.activeDays);
    forall idx | 0 <= idx < 7 ensures Count(row.children[idx], "day active") + Count(row.children[idx], "day inactive") == 1 {
      var span := DaySpan(item.activeDays, idx);
      CountLeaf("span", span.cls, [DayLetters[idx]], "day active");
      CountLeaf("span", span.cls, [DayLetters[idx]], "day inactive");
    }
    CountAllSplit(row.children, "day active", "day inactive");
    forall cls | cls in {"day active", "day inactive"}
      ensures Count(ScheduleCard(item), cls) == Count(row, cls)
    {
      var time := Leaf("span", "schedule-time", item.time);
      var kind := Leaf("span", "schedule-type", CadenceName(item.kind));
      var task := Leaf("p", "schedule-task", item.task);
      CountLeaf("span", "schedule-time", item.time, cls);
      CountLeaf("span", "schedule-type", CadenceName(item.kind), cls);
      CountLeaf("p", "schedule-task", item.task, cls);
      CountAll2(time, kind, cls);
      CountAll3(Elem("div", "schedule-header", [time, kind]), task, row, cls);
    }
  }

  lemma {:induction false} RenderAllAppend(xs: seq<Node>, ys: seq<Node>)
    ensures RenderAll(xs + ys) == RenderAll(xs) + RenderAll(ys)
  {
    if xs == [] {
      assert xs + ys == ys;
    } else {
      assert (xs + ys)[0] == xs[0] && (xs + ys)[1..] == xs[1..] + ys;
      RenderAllAppend(xs[1..], ys);
      AppendAssoc(Render(xs[0]), RenderAll(xs[1..]), RenderAll(ys));
    }
  }

  lemma {:induction false} RenderAllContains(ns: seq<Node>, k: nat, p: string)
    requires k < |ns| && Contains(Render(ns[k]), p)
    ensures Contains(RenderAll(ns), p)
  {
    if k == 0 {
      ContainsWithin("", Render(ns[0]), RenderAll(ns[1..]), p);
      assert "" + Render(ns[0]) + RenderAll(ns[1..]) == RenderAll(ns);
    } else {
      RenderAllContains(ns[1..], k - 1, p);
      ContainsWithin(Render(ns[0]), RenderAll(ns[1..]), "", p);
      assert Render(ns[0]) + RenderAll(ns[1..]) + "" == RenderAll(ns);
    }
  }

  /** What a child's markup contains, its parent's markup contains. */
  lemma RenderChildContains(n: Node, k: nat, p: string)
    requires n.Elem? && k < |n.children| && Contains(Render(n.children[k]), p)
    ensures Contains(Render(n), p)
  {
    RenderAllContains(n.children, k, p);
    var open := "<" + n.tag + (if n.cls == "" then "" else " class=\"" + n.cls + "\"") + ">";
    assert Render(n) == open + RenderAll(n.children) + ("</" + n.tag + ">");
    ContainsWithin(open, RenderAll(n.children), "</" + n.tag + ">", p);
  }

  lemma RawContains(s: string)
    ensures Contains(Render(Raw(s)), s)
  {
    assert OccursAt(s, s, 0);
  }

  /** The goal is written into the page as it is, with no escaping: whatever markup it
      holds ends up in the document. */
  lemma GoalVerbatim(data: PlanData, dateStr: string)
    ensures Contains(PlanHtml(data, dateStr), data.goalText)
  {
    var p := data.goalText;
    RawContains(p);
    var h1 := Leaf("h1", "", p);
    RenderChildContains(h1, 0, p);
    var header := Header(p, dateStr);
    RenderChildContains(header, 0, p);
    var doc := PlanDocument(data, dateStr);
    var body := doc.children[0];
    var container := body.children[0];
    RenderChildContains(container, 0, p);
    RenderChildContains(body, 0, p);
    RenderChildContains(doc, 0, p);
  }

  /** What a schedule entry's card contains, the page contains. */
  lemma CardInPage(data: PlanData, dateStr: string, k: nat, p: string)
    requires k < |data.schedule| && Contains(Render(ScheduleCard(data.schedule[k])), p)
    ensures Contains(PlanHtml(data, dateStr), p)
  {
    var sec := ScheduleSection(data.schedule);
    assert sec.children[k + 1] == ScheduleCard(data.schedule[k]);
    RenderChildContains(sec, k + 1, p);
    var doc := PlanDocument(data, dateStr);
    var container := doc.children[0].children[0];
    var idx := if HasMotivations(data) then 2 else 1;
    assert container.children[idx] == sec;
    RenderChildContains(container, idx, p);
    RenderChildContains(doc.children[0], 0, p);
    RenderChildContains(doc, 0, p);
  }

  /** Each schedule entry's task is written into the page as it is. */
  lemma TaskVerbatim(data: PlanData, dateStr: string, k: nat)
    requires k < |data.schedule|
    ensures Contains(PlanHtml(data, dateStr), data.schedule[k].task)
  {
    var item := data.schedule[k];
    var p := item.task;
    RawContains(p);
    var card := ScheduleCard(item);
    RenderChildContains(card.children[1], 0, p);
    RenderChildContains(card, 1, p);
    CardInPage(data, dateStr, k, p);
  }

  /** Each schedule entry's time is written into its card's header. */
  lemma TimeVerbatim(data: PlanData, dateStr: string, k: nat)
    requires k < |data.schedule|
    ensures Contains(PlanHtml(data, dateStr), data.schedule[k].time)
  {
    var item := data.schedule[k];
    var p := item.time;
    RawContains(p);
    var card := ScheduleCard(item);
    var header := card.children[0];
    RenderChildContains(header.children[0], 0, p);
    RenderChildContains(header, 0, p);
    RenderChildContains(card, 0, p);
    CardInPage(data, dateStr, k, p);
  }

  /** Each schedule entry's cadence is named in its card's header. */
  lemma CadenceVerbatim(data: PlanData, dateStr: string, k: nat)
    requires k < |data.schedule|
    ensures Contains(PlanHtml(data, dateStr), CadenceName(data.schedule[k].kind))
  {
    var item := data.schedule[k];
    var p := CadenceName(item.kind);
    RawContains(p);
    var card := ScheduleCard(item);
    var header := card.children[0];
    RenderChildContains(header.children[1], 0, p);
    RenderChildContains(header, 1, p);
    RenderChildContains(card, 0, p);
    CardInPage(data, dateStr, k, p);
  }

  /** Each motivation, when there are any, is written into the page as it is. */
  lemma MotivationVerbatim(data: PlanData, dateStr: string, k: nat)
    requires HasMotivations(data) && k < |data.motivations.value|
    ensures Contains(PlanHtml(data, dateStr), data.motivations.value[k])
  {
    var ms := data.motivations.value;
    var p := ms[k];
    RawContains(p);
    var item := MotivationItem(p);
    RenderChildContains(item.children[1], 0, p);
    RenderChildContains(item, 1, p);
    var sec := MotivationSection(ms);
    var list := sec.children[1];
    assert list.children[k] == item;
    RenderChildContains(list, k, p);
    RenderChildContains(sec, 1, p);
    var doc := PlanDocument(data, dateStr);
    var container := doc.children[0].children[0];
    assert container.children[1] == sec;
    RenderChildContains(container, 1, p);
    RenderChildContains(doc.children[0], 0, p);
    RenderChildContains(doc, 0, p);
  }
}
