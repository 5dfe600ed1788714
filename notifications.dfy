/** The reminder scheduling of services/notifications.ts: which registrations
    `scheduleRegimen` hands to expo-notifications for a vision item. The settings flag,
    the permission answer, the platform and the time of day are parameters; each
    registration the source awaits is an element of the returned sequence. */
module Notifications {
  import opened Text
  import opened VisionStore

  datatype Platform = Android | OtherPlatform

  datatype Trigger =
    | Weekly(weekday: int, hour: nat, minute: nat)
    | Delay(seconds: int, repeats: bool)

  datatype Registration = Registration(title: string, body: string, itemId: string, trigger: Trigger)

  datatype TimeOfDay = TimeOfDay(hour: nat, minute: nat)

  const Title := "Time to Suffer \U{1F4AA}"
  const DefaultReason := "Because you said you would."
  const DayMs := 86400000

  /** The value of a string of ASCII digits, as `parseInt(s, 10)` reads it. */
  function DigitsValue(s: string): (n: nat)
    requires forall k :: 0 <= k < |s| ==> IsDigit(s[k])
    ensures |s| <= 1 ==> n < 10
    ensures |s| <= 2 ==> n < 100
  {
    if s == [] then 0
    else DigitsValue(s[..|s| - 1]) * 10 + DigitValue(s[|s| - 1])
  }

  function DigitValue(c: char): (d: nat)
    requires IsDigit(c)
    ensures d < 10
  {
    c as int - '0' as int
  }

  /** The shape `^(\d{1,2}):(\d{2})$`: one or two digits, a colon, two digits. */
  predicate MatchesTimeFormat(s: string) {
    (|s| == 4 && IsDigit(s[0]) && s[1] == ':' && IsDigit(s[2]) && IsDigit(s[3]))
    || (|s| == 5 && IsDigit(s[0]) && IsDigit(s[1]) && s[2] == ':' && IsDigit(s[3]) && IsDigit(s[4]))
  }

  /** The hours part of a string in that shape. */
  function HourPart(s: string): (h: string)
    requires MatchesTimeFormat(s)
    ensures 1 <= |h| <= 2 && forall k :: 0 <= k < |h| ==> IsDigit(h[k])
  {
    s[..|s| - 3]
  }

  function MinutePart(s: string): (m: string)
    requires MatchesTimeFormat(s)
    ensures |m| == 2 && forall k :: 0 <= k < |m| ==> IsDigit(m[k])
  {
    s[|s| - 2..]
  }

  /** The time an entry is scheduled at, or None when the entry is skipped: its time is
      empty, not in the `H:mm`/`HH:mm` shape, or out of the 0-23 / 0-59 ranges. */
  function ParseTime(s: string): (r: Option<TimeOfDay>)
    ensures r.Some? <==> MatchesTimeFormat(s) && DigitsValue(HourPart(s)) <= 23 && DigitsValue(MinutePart(s)) <= 59
    ensures r.Some? ==> r.value.hour == DigitsValue(HourPart(s)) && r.value.minute == DigitsValue(MinutePart(s))
  {
    if s == "" || !MatchesTimeFormat(s) then None
    else
      var h := DigitsValue(HourPart(s));
      var m := DigitsValue(MinutePart(s));
      if h > 23 || m > 59 then None else Some(TimeOfDay(h, m))
  }

  /** A clock time written as `HH:mm` parses back to itself. */
  lemma ParseFormattedTime(h: nat, m: nat)
    requires h < 24 && m < 60
    ensures ParseTime(Pad2(h) + ":" + Pad2(m)) == Some(TimeOfDay(h, m))
  {
    var s := Pad2(h) + ":" + Pad2(m);
    assert HourPart(s) == Pad2(h) && MinutePart(s) == Pad2(m);
    Pad2Value(h);
    Pad2Value(m);
  }

  /** An hour without its leading zero (`8:05`) is accepted too. */
  lemma ParseShortHour(h: nat, m: nat)
    requires h < 10 && m < 60
    ensures ParseTime(Decimal(h) + ":" + Pad2(m)) == Some(TimeOfDay(h, m))
  {
    var s := Decimal(h) + ":" + Pad2(m);
    assert HourPart(s) == Decimal(h) && MinutePart(s) == Pad2(m);
    assert Decimal(h) == [DigitChar(h)];
    assert DigitsValue(Decimal(h)) == h by {
      assert Decimal(h)[..0] == [];
    }
    Pad2Value(m);
  }

  lemma Pad2Value(n: nat)
    requires n < 100
    ensures DigitsValue(Pad2(n)) == n
  {
    var p := Pad2(n);
    assert p[..1][..0] == [];
    if n < 10 {
      assert p == "0" + [DigitChar(n)];
      assert p[..1] == "0";
    } else {
      assert Decimal(n / 10) == [DigitChar(n / 10)];
      assert p == [DigitChar(n / 10)] + [DigitChar(n % 10)];
      assert p[..1] == [DigitChar(n / 10)];
    }
  }

  /** A single digit reads back as the number it prints. */
  lemma OneDigitReadsBack(d: string)
    requires |d| == 1 && IsDigit(d[0])
    ensures Decimal(DigitsValue(d)) == d
  {
    assert d[..0] == [];
    var n := DigitsValue(d);
    assert n == DigitValue(d[0]);
    assert Decimal(n) == [DigitChar(n)];
  }

  /** Two digits read back as the padded number they print. */
  lemma TwoDigitsReadBack(d: string)
    requires |d| == 2 && IsDigit(d[0]) && IsDigit(d[1])
    ensures Pad2(DigitsValue(d)) == d
  {
    var a, b := DigitValue(d[0]), DigitValue(d[1]);
    assert d[..1] == [d[0]] && d[..1][..0] == [];
    assert DigitsValue(d[..1]) == a;
    var n := DigitsValue(d);
    assert n == DigitsValue(d[..1]) * 10 + b;
    if a == 0 {
      assert Decimal(n) == [DigitChar(b)];
    } else {
      assert n / 10 == a && n % 10 == b;
      assert Decimal(a) == [DigitChar(a)];
      assert Decimal(n) == [DigitChar(a)] + [DigitChar(b)];
    }
  }

  /** Conversely, an accepted time is written `HH:mm` or `H:mm` of the time it parses to. */
  lemma ParsedTimeIsFormatted(s: string)
    requires ParseTime(s).Some?
    ensures var t := ParseTime(s).value;
      (|s| == 5 && s == Pad2(t.hour) + ":" + Pad2(t.minute))
      || (|s| == 4 && s == Decimal(t.hour) + ":" + Pad2(t.minute))
  {
    var h, m := HourPart(s), MinutePart(s);
    TwoDigitsReadBack(m);
    if |s| == 5 {
      TwoDigitsReadBack(h);
    } else {
      OneDigitReadsBack(h);
    }
    assert s == h + ":" + m;
  }

  /** `String(n)` read back with `parseInt(·, 10)` is `n`. */
  lemma {:induction false} DecimalValue(n: nat)
    ensures DigitsValue(Decimal(n)) == n
    decreases n
  {
    var d := Decimal(n);
    if n < 10 {
      assert d == [DigitChar(n)] && d[..0] == [];
    } else {
      DecimalValue(n / 10);
      assert d[..|d| - 1] == Decimal(n / 10);
      assert d[|d| - 1] == DigitChar(n % 10);
    }
  }

  /** Entries the source skips: out of range, a word, a one-digit minute, nothing. */
  lemma RejectedTimes()
    ensures ParseTime("25:99").None? && ParseTime("noon").None? && ParseTime("08:5").None?
    ensures ParseTime("").None? && ParseTime("24:00").None? && ParseTime("8:60").None?
  {
    assert HourPart("25:99") == "25" && "25"[..1] == "2" && "2"[..0] == [];
    assert HourPart("24:00") == "24" && "24"[..1] == "2";
    assert MinutePart("8:60") == "60" && "60"[..1] == "6" && "6"[..0] == [];
    assert !IsDigit('n');
  }

  /** `${task} - ${item.motivations?.[0] || "Because you said you would."}`. */
  function Body(task: string, motivations: Option<seq<string>>): (b: string)
    ensures motivations.Some? && |motivations.value| > 0 && motivations.value[0] != "" ==>
      b == task + " - " + motivations.value[0]
    ensures !(motivations.Some? && |motivations.value| > 0 && motivations.value[0] != "") ==>
      b == task + " - " + DefaultReason
  {
    var reason :=
      if motivations.Some? && |motivations.value| > 0 && motivations.value[0] != ""
      then motivations.value[0] else DefaultReason;
    task + " - " + reason
  }

  /** Milliseconds from `nowMs` (time of day) to the next `hour:minute`, today if that is
      still ahead, else tomorrow. */
  function DelayMs(t: TimeOfDay, nowMs: nat): (d: int)
    requires t.hour < 24 && t.minute < 60 && nowMs < DayMs
    ensures 0 < d <= DayMs
    ensures (nowMs + d) % DayMs == (t.hour * 3600000 + t.minute * 60000) % DayMs
  {
    var target := t.hour * 3600000 + t.minute * 60000;
    if target <= nowMs then target + DayMs - nowMs else target - nowMs
  }

  /** `Math.floor(ms / 1000)`: whole seconds, at most one day. */
  function DelaySeconds(t: TimeOfDay, nowMs: nat): (s: int)
    requires t.hour < 24 && t.minute < 60 && nowMs < DayMs
    ensures 0 <= s <= 86400
    ensures s * 1000 <= DelayMs(t, nowMs) < s * 1000 + 1000
  {
    DelayMs(t, nowMs) / 1000
  }

  /** A target less than a second ahead is registered with a zero-second delay; a target
      exactly at the present moment waits a full day, and one half a minute past waits a
      day less those thirty seconds. */
  lemma DelayUnderASecond()
    ensures DelaySeconds(TimeOfDay(8, 0), 8 * 3600000 - 1) == 0
    ensures DelaySeconds(TimeOfDay(8, 0), 8 * 3600000) == 86400
    ensures DelaySeconds(TimeOfDay(8, 0), 8 * 3600000 + 30000) == 86370
  {
  }

  /** What one schedule entry contributes. */
  function EntryRegistrations(item: VisionItem, e: ScheduleItem, platform: Platform, nowMs: nat): (rs: seq<Registration>)
    requires nowMs < DayMs
    ensures ParseTime(e.time).None? ==> rs == []
    ensures ParseTime(e.time).Some? && platform == Android ==> |rs| == 1 && rs[0].trigger.Delay? && !rs[0].trigger.repeats
    ensures ParseTime(e.time).Some? && platform == OtherPlatform ==> |rs| == |e.activeDays|
    ensures forall k :: 0 <= k < |rs| ==>
      rs[k].title == Title && rs[k].itemId == item.id && rs[k].body == Body(e.task, item.motivations)
  {
    match ParseTime(e.time)
    case None => []
    case Some(t) =>
      if platform == Android then [DelayRegistration(item, e, t, nowMs)]
      else seq(|e.activeDays|, k requires 0 <= k < |e.activeDays| => WeeklyRegistration(item, e, t, e.activeDays[k]))
  }

  function DelayRegistration(item: VisionItem, e: ScheduleItem, t: TimeOfDay, nowMs: nat): (r: Registration)
    requires t.hour < 24 && t.minute < 60 && nowMs < DayMs
    ensures r.trigger == Delay(DelaySeconds(t, nowMs), false)
  {
    Registration(Title, Body(e.task, item.motivations), item.id, Delay(DelaySeconds(t, nowMs), false))
  }

  function WeeklyRegistration(item: VisionItem, e: ScheduleItem, t: TimeOfDay, day: int): (r: Registration)
    ensures r.trigger == Weekly(day + 1, t.hour, t.minute)
  {
    Registration(Title, Body(e.task, item.motivations), item.id, Weekly(day + 1, t.hour, t.minute))
  }

  /** On the calendar path each active day gives one weekly trigger, in order, at the
      parsed time, on weekday `day + 1`. */
  lemma WeeklyTriggers(item: VisionItem, e: ScheduleItem, nowMs: nat, k: nat)
    requires nowMs < DayMs && ParseTime(e.time).Some? && k < |e.activeDays|
    ensures var t := ParseTime(e.time).value;
      EntryRegistrations(item, e, OtherPlatform, nowMs)[k].trigger == Weekly(e.activeDays[k] + 1, t.hour, t.minute)
  {
  }

  /** The registrations for a run of entries, in order. */
  function AllRegistrations(item: VisionItem, entries: seq<ScheduleItem>, platform: Platform, nowMs: nat): (rs: seq<Registration>)
    requires nowMs < DayMs
    ensures entries == [] ==> rs == []
    ensures platform == Android ==> |rs| <= |entries|
    ensures forall k :: 0 <= k < |rs| ==> rs[k].title == Title && rs[k].itemId == item.id
  {
    if entries == [] then []
    else EntryRegistrations(item, entries[0], platform, nowMs) + AllRegistrations(item, entries[1..], platform, nowMs)
  }

  lemma {:induction false} AllRegistrationsAppend(item: VisionItem, xs: seq<ScheduleItem>, ys: seq<ScheduleItem>, platform: Platform, nowMs: nat)
    requires nowMs < DayMs
    ensures AllRegistrations(item, xs + ys, platform, nowMs)
      == AllRegistrations(item, xs, platform, nowMs) + AllRegistrations(item, ys, platform, nowMs)
  {
    if xs != [] {
      assert (xs + ys)[1..] == xs[1..] + ys;
      AllRegistrationsAppend(item, xs[1..], ys, platform, nowMs);
    } else {
      assert xs + ys == ys;
    }
  }

  /** A skipped entry contributes nothing and does not stop the entries after it. */
  lemma SkippedEntryIsTransparent(item: VisionItem, xs: seq<ScheduleItem>, e: ScheduleItem, ys: seq<ScheduleItem>, platform: Platform, nowMs: nat)
    requires nowMs < DayMs && ParseTime(e.time).None?
    ensures AllRegistrations(item, xs + [e] + ys, platform, nowMs)
      == AllRegistrations(item, xs, platform, nowMs) + AllRegistrations(item, ys, platform, nowMs)
  {
    var xe := xs + [e];
    AllRegistrationsAppend(item, xe, ys, platform, nowMs);
    AllRegistrationsAppend(item, xs, [e], platform, nowMs);
    assert AllRegistrations(item, [e], platform, nowMs) == [] by {
      assert [e][1..] == [];
    }
    assert AllRegistrations(item, xe, platform, nowMs) == AllRegistrations(item, xs, platform, nowMs);
  }

  /** Number of entries `scheduleRegimen` does not skip. */
  function ValidCount(entries: seq<ScheduleItem>): nat {
    if entries == [] then 0
    else (if ParseTime(entries[0].time).Some? then 1 else 0) + ValidCount(entries[1..])
  }

  /** On the delay path there is exactly one registration per entry that is not
      skipped. */
  lemma {:induction false} DelayPathCount(item: VisionItem, entries: seq<ScheduleItem>, nowMs: nat)
    requires nowMs < DayMs
    ensures |AllRegistrations(item, entries, Android, nowMs)| == ValidCount(entries)
  {
    if entries != [] {
      DelayPathCount(item, entries[1..], nowMs);
    }
  }

  /** Everything `scheduleRegimen` registers for `item`: nothing without a schedule,
      with reminders switched off, or without permission. */
  function Regimen(item: VisionItem, enabled: bool, granted: bool, platform: Platform, nowMs: nat): (rs: seq<Registration>)
    requires nowMs < DayMs
    ensures item.schedule.None? || !enabled || !granted ==> rs == []
  {
    if item.schedule.None? || !enabled || !granted then []
    else AllRegistrations(item, item.schedule.value, platform, nowMs)
  }

  /** `scheduleRegimen`: `asked` says whether permission was requested (only when there
      is a schedule and reminders are on); `registered` lists, in order, the
      registrations made. */
  method ScheduleRegimen(item: VisionItem, enabled: bool, granted: bool, platform: Platform, nowMs: nat)
    returns (asked: bool, registered: seq<Registration>)
    requires nowMs < DayMs
    ensures asked <==> item.schedule.Some? && enabled
    ensures registered == Regimen(item, enabled, granted, platform, nowMs)
  {
    asked := false;
    registered := [];
    if item.schedule.None? {
      return;
    }
    if !enabled {
      return;
    }
    asked := true;
    if !granted {
      return;
    }
    var entries := item.schedule.value;
    var i := 0;
    while i < |entries|
      invariant 0 <= i <= |entries|
      invariant registered == AllRegistrations(item, entries[..i], platform, nowMs)
    {
      var e := entries[i];
      var rs := RegisterEntry(item, e, platform, nowMs);
      AllRegistrationsAppend(item, entries[..i], [e], platform, nowMs);
      assert entries[..i + 1] == entries[..i] + [e];
      assert AllRegistrations(item, [e], platform, nowMs) == rs by {
        assert [e][1..] == [];
      }
      registered := registered + rs;
      i := i + 1;
    }
    assert entries[..i] == entries;
  }

  /** One pass of the loop over entries: an entry whose time does not parse is skipped,
      on Android one delay is registered, elsewhere one weekly trigger per active day. */
  method RegisterEntry(item: VisionItem, e: ScheduleItem, platform: Platform, nowMs: nat)
    returns (rs: seq<Registration>)
    requires nowMs < DayMs
    ensures rs == EntryRegistrations(item, e, platform, nowMs)
  {
    rs := [];
    var parsed := ParseTime(e.time);
    if parsed.None? {
      return;
    }
    var t := parsed.value;
    if platform == Android {
      rs := [DelayRegistration(item, e, t, nowMs)];
      return;
    }
    var j := 0;
    while j < |e.activeDays|
      invariant 0 <= j <= |e.activeDays|
      invariant rs == EntryRegistrations(item, e, platform, nowMs)[..j]
    {
      rs := rs + [WeeklyRegistration(item, e, t, e.activeDays[j])];
      j := j + 1;
    }
  }
}
