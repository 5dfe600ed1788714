/** The goal store of store/visionStore.ts: the vision items as read from the live
    Firestore feed, the documents written when a goal is created, the milestone toggle,
    and the `error` / `isLoading` fields each action sets. Firestore itself is not
    modelled: each write's success or failure (its error message) is a parameter. */
module VisionStore {
  import opened Text
  import opened Oracle

  datatype Milestone = Milestone(id: string, month: string, target: string, completed: bool, snark: Option<string>)

  datatype ScheduleItem = ScheduleItem(id: string, kind: Cadence, time: string, task: string, activeDays: seq<int>)

  datatype QuestionAnswer = QuestionAnswer(question: string, answer: string)

  datatype InterviewData = InterviewData(questions: seq<QuestionAnswer>, summary: string)

  datatype VisionItem = VisionItem(
    id: string,
    text: string,
    imageUri: string,
    createdAt: int,
    milestones: seq<Milestone>,
    userId: Option<string>,
    interviewData: Option<InterviewData>,
    schedule: Option<seq<ScheduleItem>>,
    motivations: Option<seq<string>>)

  /** What a caller hands to `addItem`: a vision item without id, createdAt and milestones. */
  datatype NewItem = NewItem(
    text: string,
    imageUri: string,
    interviewData: Option<InterviewData>,
    schedule: Option<seq<ScheduleItem>>,
    motivations: Option<seq<string>>)

  /** A stored `createdAt`: the server-timestamp sentinel (still pending when read back
      locally), a timestamp in milliseconds, or no field at all. */
  datatype CreatedAt = ServerTime | Millis(ms: int) | Absent

  /** The data of one `vision_items` document; `storedId` is an `id` field inside the
      data, which the source's spread lets override the document id. */
  datatype DocData = DocData(
    storedId: Option<string>,
    text: string,
    imageUri: string,
    createdAt: CreatedAt,
    milestones: seq<Milestone>,
    userId: Option<string>,
    interviewData: Option<InterviewData>,
    schedule: Option<seq<ScheduleItem>>,
    motivations: Option<seq<string>>)

  datatype Doc = Doc(id: string, data: DocData)

  /** `auth.currentUser?.uid || 'anonymous'`. */
  function UserIdOf(uid: Option<string>): (u: string)
    ensures u != ""
    ensures uid.Some? && uid.value != "" ==> u == uid.value
  {
    if uid.Some? && uid.value != "" then uid.value else "anonymous"
  }

  /** The document `addItem` writes: the caller's fields, a server timestamp, no
      milestones, and the signed-in user (or "anonymous"). */
  function NewDocument(item: NewItem, uid: Option<string>): (d: DocData)
    ensures d.createdAt == ServerTime && d.milestones == [] && d.storedId.None?
    ensures d.userId == Some(UserIdOf(uid))
    ensures d.text == item.text && d.imageUri == item.imageUri && d.interviewData == item.interviewData
    ensures d.schedule == item.schedule && d.motivations == item.motivations
  {
    DocData(None, item.text, item.imageUri, ServerTime, [], Some(UserIdOf(uid)),
            item.interviewData, item.schedule, item.motivations)
  }

  /** The snapshot mapping for one document; `now` is `Date.now()`. */
  function ItemFromDoc(doc: Doc, now: int): (v: VisionItem)
    ensures doc.data.storedId.None? ==> v.id == doc.id
    ensures doc.data.storedId.Some? ==> v.id == doc.data.storedId.value
    ensures doc.data.createdAt.Millis? && doc.data.createdAt.ms != 0 ==> v.createdAt == doc.data.createdAt.ms
    ensures !(doc.data.createdAt.Millis? && doc.data.createdAt.ms != 0) ==> v.createdAt == now
    ensures v.text == doc.data.text && v.milestones == doc.data.milestones && v.schedule == doc.data.schedule
    ensures v.imageUri == doc.data.imageUri && v.userId == doc.data.userId
    ensures v.interviewData == doc.data.interviewData && v.motivations == doc.data.motivations
  {
    var d := doc.data;
    VisionItem(
      d.storedId.GetOr(doc.id), d.text, d.imageUri,
      if d.createdAt.Millis? && d.createdAt.ms != 0 then d.createdAt.ms else now,
      d.milestones, d.userId, d.interviewData, d.schedule, d.motivations)
  }

  /** A document this app wrote reads back with its own id, and — while the server
      timestamp is pending — with the local clock as creation time. */
  lemma WrittenDocReadsBack(item: NewItem, uid: Option<string>, id: string, now: int)
    ensures var v := ItemFromDoc(Doc(id, NewDocument(item, uid)), now);
      v.id == id && v.createdAt == now && v.milestones == [] && v.userId == Some(UserIdOf(uid))
      && v.text == item.text && v.imageUri == item.imageUri && v.interviewData == item.interviewData
      && v.schedule == item.schedule && v.motivations == item.motivations
  {
  }

  function ItemsFromSnapshot(docs: seq<Doc>, now: int): (items: seq<VisionItem>)
    ensures |items| == |docs|
    ensures forall k :: 0 <= k < |docs| ==> items[k] == ItemFromDoc(docs[k], now)
  {
    seq(|docs|, k requires 0 <= k < |docs| => ItemFromDoc(docs[k], now))
  }

  /** `items.find(i => i.id === id)`: the first item with that id. */
  function FindItem(items: seq<VisionItem>, id: string): (r: Option<nat>)
    ensures r.None? <==> forall k :: 0 <= k < |items| ==> items[k].id != id
    ensures r.Some? ==> r.value < |items| && items[r.value].id == id
    ensures r.Some? ==> forall k :: 0 <= k < r.value ==> items[k].id != id
  {
    if items == [] then None
    else if items[0].id == id then Some(0)
    else match FindItem(items[1..], id)
      case None => None
      case Some(k) => Some(k + 1)
  }

  /** The list `toggleMilestone` writes back: the same milestones in the same order,
      where exactly those whose id matches have `completed` negated. */
  function ToggleMilestones(ms: seq<Milestone>, milestoneId: string): (r: seq<Milestone>)
    ensures |r| == |ms|
    ensures forall k :: 0 <= k < |ms| ==> r[k].(completed := ms[k].completed) == ms[k]
    ensures forall k :: 0 <= k < |ms| ==> (r[k].completed != ms[k].completed <==> ms[k].id == milestoneId)
  {
    seq(|ms|, k requires 0 <= k < |ms| =>
      if ms[k].id == milestoneId then ms[k].(completed := !ms[k].completed) else ms[k])
  }

  /** Toggling the same milestone twice restores the list. */
  lemma ToggleTwiceRestores(ms: seq<Milestone>, milestoneId: string)
    ensures ToggleMilestones(ToggleMilestones(ms, milestoneId), milestoneId) == ms
  {
    var once := ToggleMilestones(ms, milestoneId);
    var twice := ToggleMilestones(once, milestoneId);
    forall k | 0 <= k < |ms| ensures twice[k] == ms[k] {
      assert once[k].id == ms[k].id;
    }
  }

  /** Toggling an id no milestone carries changes nothing. */
  lemma ToggleUnknownIsIdentity(ms: seq<Milestone>, milestoneId: string)
    requires forall k :: 0 <= k < |ms| ==> ms[k].id != milestoneId
    ensures ToggleMilestones(ms, milestoneId) == ms
  {
    var r := ToggleMilestones(ms, milestoneId);
    forall k | 0 <= k < |ms| ensures r[k] == ms[k] {
    }
  }

  /** The zustand store `useVisionStore`. */
  class Store {
    var items: seq<VisionItem>
    var isLoading: bool
    var isRefreshing: bool
    var error: Option<string>

    constructor ()
      ensures items == [] && !isLoading && !isRefreshing && error.None?
    {
      items, isLoading, isRefreshing, error := [], false, false, None;
    }

    /** `subscribe`: the feed is opened and the store shows it is loading. */
    method Subscribe()
      modifies this
      ensures isLoading && items == old(items) && error == old(error) && isRefreshing == old(isRefreshing)
    {
      isLoading := true;
    }

    /** A snapshot replaces the items wholesale and clears loading and error. */
    method OnSnapshot(docs: seq<Doc>, now: int)
      modifies this
      ensures items == ItemsFromSnapshot(docs, now)
      ensures !isLoading && error.None? && isRefreshing == old(isRefreshing)
    {
      items := ItemsFromSnapshot(docs, now);
      isLoading := false;
      error := None;
    }

    /** A feed error is recorded; the items already shown stay. */
    method OnSnapshotError(message: string)
      modifies this
      ensures error == Some(message) && !isLoading && items == old(items) && isRefreshing == old(isRefreshing)
    {
      error := Some(message);
      isLoading := false;
    }

    /** `refresh`: shows the refresh indicator for a while, then clears it (the one
        second wait is not modelled). */
    method Refresh()
      modifies this
      ensures !isRefreshing && items == old(items) && error == old(error) && isLoading == old(isLoading)
    {
      isRefreshing := true;
      isRefreshing := false;
    }

    /** `addItem`: the written document is `NewDocument(item, uid)`; a failure (its
        message in `failure`) is recorded and rethrown. */
    method AddItem(item: NewItem, uid: Option<string>, failure: Option<string>) returns (written: DocData, thrown: Option<string>)
      modifies this
      ensures written == NewDocument(item, uid)
      ensures thrown == failure
      ensures error == (if failure.Some? then failure else old(error))
      ensures items == old(items) && isLoading == old(isLoading) && isRefreshing == old(isRefreshing)
    {
      written := NewDocument(item, uid);
      thrown := None;
      if failure.Some? {
        error := failure;
        thrown := failure;
      }
    }

    /** `updateItem`: the patch goes to Firestore unchanged; a failure is recorded, not
        rethrown. */
    method UpdateItem(id: string, failure: Option<string>)
      modifies this
      ensures error == (if failure.Some? then failure else old(error))
      ensures items == old(items) && isLoading == old(isLoading) && isRefreshing == old(isRefreshing)
    {
      if failure.Some? {
        error := failure;
      }
    }

    /** `deleteItem`: same error discipline as `updateItem`. */
    method DeleteItem(id: string, failure: Option<string>)
      modifies this
      ensures error == (if failure.Some? then failure else old(error))
      ensures items == old(items) && isLoading == old(isLoading) && isRefreshing == old(isRefreshing)
    {
      if failure.Some? {
        error := failure;
      }
    }

    /** `toggleMilestone`: an unknown item id writes nothing and sets no error; otherwise
        the toggled milestone list of the first item with that id is written, and a
        failed write is recorded without rethrowing. */
    method ToggleMilestone(itemId: string, milestoneId: string, failure: Option<string>)
      returns (written: Option<seq<Milestone>>)
      modifies this
      ensures FindItem(old(items), itemId).None? ==> written.None? && error == old(error)
      ensures FindItem(old(items), itemId).Some? ==>
        (written == Some(ToggleMilestones(old(items)[FindItem(old(items), itemId).value].milestones, milestoneId))
         && error == (if failure.Some? then failure else old(error)))
      ensures items == old(items) && isLoading == old(isLoading) && isRefreshing == old(isRefreshing)
    {
      var found := FindItem(items, itemId);
      if found.None? {
        written := None;
        return;
      }
      written := Some(ToggleMilestones(items[found.value].milestones, milestoneId));
      if failure.Some? {
        error := failure;
      }
    }
  }
}
