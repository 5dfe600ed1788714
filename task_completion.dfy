/** The per-day task check-off store of store/taskCompletionStore.ts: the storage key for
    a calendar day, the completion map, and how loading and toggling change it. The clock
    comes in as the local year, zero-based month and day; AsyncStorage reads come in as a
    `StorageRead` and `JSON.parse` as a function parameter. */
module TaskCompletion {
  import opened Text

  /** `getTodayKey`: `YYYY-MM-DD`, the month one-based, month and day padded to two
      digits. */
  function TodayKey(year: nat, month0: nat, day: nat): (key: string)
    requires month0 < 12 && day < 100
    ensures key == Decimal(year) + "-" + Pad2(month0 + 1) + "-" + Pad2(day)
    ensures |key| == |Decimal(year)| + 6
    ensures key[|key| - 6] == '-' && key[|key| - 3] == '-'
    ensures forall k :: 0 <= k < |key| && k != |key| - 6 && k != |key| - 3 ==> IsDigit(key[k])
  {
    Decimal(year) + "-" + Pad2(month0 + 1) + "-" + Pad2(day)
  }

  /** Different days get different keys, so one day's check-offs never leak into
      another's. */
  lemma TodayKeyInjective(y1: nat, m1: nat, d1: nat, y2: nat, m2: nat, d2: nat)
    requires m1 < 12 && d1 < 100 && m2 < 12 && d2 < 100
    requires TodayKey(y1, m1, d1) == TodayKey(y2, m2, d2)
    ensures y1 == y2 && m1 == m2 && d1 == d2
  {
    var key := TodayKey(y1, m1, d1);
    var n := |key| - 6;
    assert Decimal(y1) == key[..n] == Decimal(y2);
    DecimalInjective(y1, y2);
    assert Pad2(m1 + 1) == key[n + 1..n + 3] == Pad2(m2 + 1);
    Pad2Injective(m1 + 1, m2 + 1);
    assert Pad2(d1) == key[n + 4..] == Pad2(d2);
    Pad2Injective(d1, d2);
  }

  const StoragePrefix := "task_completions_"

  /** `getStorageKey`. */
  function StorageKey(year: nat, month0: nat, day: nat): (k: string)
    requires month0 < 12 && day < 100
    ensures |k| == |StoragePrefix| + |TodayKey(year, month0, day)|
    ensures k[..|StoragePrefix|] == StoragePrefix && k[|StoragePrefix|..] == TodayKey(year, month0, day)
  {
    StoragePrefix + TodayKey(year, month0, day)
  }

  /** The completion map after toggling `taskId`: its entry becomes the negation of its
      old value, an absent entry counting as false; every other entry is kept. */
  function Toggled(c: map<string, bool>, taskId: string): (r: map<string, bool>)
    ensures taskId in r && r[taskId] == !(taskId in c && c[taskId])
    ensures forall t :: t != taskId ==> (t in r <==> t in c)
    ensures forall t :: t in c && t != taskId ==> r[t] == c[t]
  {
    c[taskId := !(taskId in c && c[taskId])]
  }

  /** Toggling an unchecked task checks it, and toggling again leaves an explicit
      `false` rather than removing the entry. */
  lemma ToggleAbsentTwice(c: map<string, bool>, taskId: string)
    requires taskId !in c
    ensures Toggled(c, taskId)[taskId]
    ensures Toggled(Toggled(c, taskId), taskId) == c[taskId := false]
  {
  }

  /** Toggling a recorded task twice restores the map. */
  lemma ToggleRecordedTwice(c: map<string, bool>, taskId: string)
    requires taskId in c
    ensures Toggled(Toggled(c, taskId), taskId) == c
  {
    var r := Toggled(Toggled(c, taskId), taskId);
    assert r.Keys == c.Keys;
  }

  /** What `AsyncStorage.getItem` produced: a rejection, no entry, or the stored text. */
  datatype StorageRead = ReadFailed | NotStored | Stored(text: string)

  class CompletionStore {
    var completions: map<string, bool>
    var isLoading: bool

    constructor ()
      ensures completions == map[] && !isLoading
    {
      completions := map[];
      isLoading := false;
    }

    /** `loadTodayCompletions`: a stored record replaces the map; no record (or an empty
        one) empties it; a failed read or a record `parse` rejects keeps the map. Loading
        ends in every case. */
    method Load(read: StorageRead, parse: string -> Option<map<string, bool>>)
      modifies this
      ensures !isLoading
      ensures read.ReadFailed? ==> completions == old(completions)
      ensures read.NotStored? || read == Stored("") ==> completions == map[]
      ensures read.Stored? && read.text != "" ==> completions == parse(read.text).GetOr(old(completions))
    {
      isLoading := true;
      match read {
        case ReadFailed =>
        case NotStored =>
          completions := map[];
        case Stored(text) =>
          if text == "" {
            completions := map[];
          } else {
            match parse(text) {
              case Some(m) => completions := m;
              case None =>
            }
          }
      }
      isLoading := false;
    }

    /** `toggleTaskCompletion`: the map is updated first and `written` is what is handed to
        storage; a failed write (`saveOk` false) does not roll the toggle back. */
    method Toggle(taskId: string, saveOk: bool) returns (written: map<string, bool>)
      modifies this
      ensures completions == Toggled(old(completions), taskId)
      ensures written == completions
      ensures isLoading == old(isLoading)
    {
      completions := Toggled(completions, taskId);
      written := completions;
    }
  }
}
