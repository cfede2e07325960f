/** The persistence engine (lib/storage.ts): the initial aggregate, the
    slot-keyed answer upsert, and the browser store the aggregate is kept in.
    The text report is in module Report. */
module Storage {
  import opened Types

  /** The single, versionless key under which the aggregate is stored. */
  const STORAGE_KEY := "value-hierarchy-data"

  /** An empty aggregate stamped with the current time. */
  function CreateInitialData(now: int): (d: UserData)
    ensures d.answers == [] && d.groups == [] && d.insights == []
    ensures d.timestamp == now
    ensures WellFormed(d)
  {
    UserData([], [], [], now)
  }

  /** `answers.findIndex(a => a.id === id)`: the first position holding id,
      or -1. */
  function FindIndex(answers: seq<Answer>, id: int): (k: int)
    ensures -1 <= k < |answers|
    ensures k >= 0 ==> answers[k].id == id && forall j :: 0 <= j < k ==> answers[j].id != id
    ensures k == -1 <==> forall j :: 0 <= j < |answers| ==> answers[j].id != id
  {
    if answers == [] then -1
    else if answers[0].id == id then 0
    else
      var k := FindIndex(answers[1..], id);
      if k < 0 then -1 else k + 1
  }

  /** The answer a reader finds under id: the first one stored with it. */
  function FindAnswer(answers: seq<Answer>, id: int): (r: Option<Answer>)
    ensures r.Some? ==> r.value in answers && r.value.id == id
    ensures r.None? <==> forall a :: a in answers ==> a.id != id
  {
    var k := FindIndex(answers, id);
    if k >= 0 then Some(answers[k]) else None
  }

  /** The record written for a slot: exactly the given fields, no group. */
  function SlotRecord(categoryId: int, index: int, text: string, purpose: Option<string>): Answer {
    Answer(AnswerId(categoryId, index), categoryId, index, text, purpose, None)
  }

  /** `updateAnswer`: write the slot's record over the first answer with the
      slot's id, or append it when there is none. Only `answers` and
      `timestamp` change. */
  function UpdateAnswer(data: UserData, categoryId: int, index: int, text: string,
                        purpose: Option<string>, now: int): (r: UserData)
    ensures var k := FindIndex(data.answers, AnswerId(categoryId, index));
            var written := SlotRecord(categoryId, index, text, purpose);
            && (k >= 0 ==>
                  && |r.answers| == |data.answers|
                  && r.answers[k] == written
                  && forall j :: 0 <= j < |data.answers| && j != k ==> r.answers[j] == data.answers[j])
            && (k < 0 ==> r.answers == data.answers + [written])
    ensures r.groups == data.groups && r.insights == data.insights && r.timestamp == now
  {
    var written := SlotRecord(categoryId, index, text, purpose);
    var k := FindIndex(data.answers, written.id);
    var answers := if k >= 0 then data.answers[k := written] else data.answers + [written];
    data.(answers := answers, timestamp := now)
  }

  /** After the upsert, a reader looking up the slot's id finds exactly the
      written record, with any earlier purpose or group dropped. */
  lemma UpdateAnswerReadBack(data: UserData, categoryId: int, index: int, text: string,
                             purpose: Option<string>, now: int)
    ensures var r := UpdateAnswer(data, categoryId, index, text, purpose, now);
            FindAnswer(r.answers, AnswerId(categoryId, index))
              == Some(Answer(AnswerId(categoryId, index), categoryId, index, text, purpose, None))
  {
    var id := AnswerId(categoryId, index);
    var r := UpdateAnswer(data, categoryId, index, text, purpose, now);
    var k := FindIndex(data.answers, id);
    if k < 0 {
      assert r.answers[|data.answers|].id == id;
      assert FindIndex(r.answers, id) == |data.answers|;
    } else {
      assert r.answers[k].id == id;
      assert forall j :: 0 <= j < k ==> r.answers[j].id != id;
      assert FindIndex(r.answers, id) == k;
    }
  }

  /** The answers grow by one exactly when the slot was empty. */
  lemma UpdateAnswerLength(data: UserData, categoryId: int, index: int, text: string,
                           purpose: Option<string>, now: int)
    ensures var r := UpdateAnswer(data, categoryId, index, text, purpose, now);
            |r.answers| == |data.answers| + (if FindAnswer(data.answers, AnswerId(categoryId, index)).None? then 1 else 0)
  {
  }

  /** Writing the same slot twice gives the same answers as writing it once. */
  lemma UpdateAnswerIdempotent(data: UserData, categoryId: int, index: int, text: string,
                               purpose: Option<string>, now1: int, now2: int)
    ensures var once := UpdateAnswer(data, categoryId, index, text, purpose, now1);
            UpdateAnswer(once, categoryId, index, text, purpose, now2).answers == once.answers
  {
    var id := AnswerId(categoryId, index);
    var once := UpdateAnswer(data, categoryId, index, text, purpose, now1);
    var twice := UpdateAnswer(once, categoryId, index, text, purpose, now2);
    var k := FindIndex(data.answers, id);
    var k' := if k >= 0 then k else |data.answers|;
    assert once.answers[k'].id == id;
    assert forall j :: 0 <= j < k' ==> once.answers[j].id != id;
    assert FindIndex(once.answers, id) == k';
  }

  /** Distinct ids stay distinct: the upsert never introduces a second
      answer for one slot. */
  lemma UpdateAnswerKeepsIdsDistinct(data: UserData, categoryId: int, index: int, text: string,
                                     purpose: Option<string>, now: int)
    requires DistinctAnswerIds(data.answers)
    ensures DistinctAnswerIds(UpdateAnswer(data, categoryId, index, text, purpose, now).answers)
  {
    var id := AnswerId(categoryId, index);
    var r := UpdateAnswer(data, categoryId, index, text, purpose, now);
    var k := FindIndex(data.answers, id);
    forall i, j | 0 <= i < j < |r.answers|
      ensures r.answers[i].id != r.answers[j].id
    {
      if k < 0 && j == |data.answers| {
        assert r.answers[i] == data.answers[i];
      }
    }
  }

  /** The upsert of a valid slot keeps every keying rule of the aggregate. */
  lemma UpdateAnswerWellFormed(data: UserData, categoryId: int, index: int, text: string,
                               purpose: Option<string>, now: int)
    requires WellFormed(data) && ValidSlot(categoryId, index)
    ensures WellFormed(UpdateAnswer(data, categoryId, index, text, purpose, now))
  {
    var r := UpdateAnswer(data, categoryId, index, text, purpose, now);
    UpdateAnswerKeepsIdsDistinct(data, categoryId, index, text, purpose, now);
    forall a | a in r.answers
      ensures SlotConsistent(a)
      ensures a.groupId.Some? ==> a in data.answers
    {
      var i :| 0 <= i < |r.answers| && r.answers[i] == a;
      if a != SlotRecord(categoryId, index, text, purpose) {
        assert a == data.answers[i];
      }
    }
  }

  /** The half-open integer interval [lo, hi) as a set. */
  function Interval(lo: int, hi: int): (s: set<int>)
    ensures forall x :: x in s <==> lo <= x < hi
    ensures |s| == if lo < hi then hi - lo else 0
    decreases hi - lo
  {
    if lo >= hi then {} else {lo} + Interval(lo + 1, hi)
  }

  /** Answers with pairwise distinct ids drawn from a set are no more
      numerous than the set. */
  lemma {:induction false} DistinctIdsWithin(answers: seq<Answer>, ids: set<int>)
    requires DistinctAnswerIds(answers)
    requires forall i :: 0 <= i < |answers| ==> answers[i].id in ids
    ensures |answers| <= |ids|
  {
    if answers != [] {
      var rest, ids' := answers[1..], ids - {answers[0].id};
      assert ids' + {answers[0].id} == ids;
      forall i | 0 <= i < |rest| ensures rest[i].id in ids' {
        assert rest[i] == answers[i + 1];
      }
      DistinctIdsWithin(rest, ids');
    }
  }

  /** A well-formed aggregate never holds more than 24 answers. */
  lemma AtMostOneAnswerPerSlot(d: UserData)
    requires WellFormed(d)
    ensures |d.answers| <= CategoryCount * AnswersPerCategory
  {
    var slots := Interval(1, CategoryCount * AnswersPerCategory + 1);
    forall i | 0 <= i < |d.answers| ensures d.answers[i].id in slots {
      assert SlotConsistent(d.answers[i]);
      AnswerIdBijective(d.answers[i].category, d.answers[i].index);
    }
    DistinctIdsWithin(d.answers, slots);
  }

  /** What the browser keeps under a key: the serialisation of an aggregate,
      or some other text (absent data, an empty string, or text that does
      not parse). */
  datatype Stored = Encoded(data: UserData) | Raw(text: string)

  /** The browser's `localStorage`, reduced to the key-value map it holds. */
  class Store {
    var items: map<string, Stored>

    constructor (initial: map<string, Stored>)
      ensures items == initial
    {
      items := initial;
    }

    /** `saveData`: overwrite the aggregate under the fixed key. When the
        store refuses the write (`accepted` false: quota, disabled storage)
        the error is only logged and nothing changes. */
    method SaveData(data: UserData, accepted: bool)
      modifies this
      ensures items == if accepted then old(items)[STORAGE_KEY := Encoded(data)] else old(items)
    {
      if accepted {
        items := items[STORAGE_KEY := Encoded(data)];
      }
    }

    /** `loadData`: the stored aggregate, or None when the key is missing,
        holds the empty string, or holds text that does not parse. */
    method LoadData() returns (r: Option<UserData>)
      ensures r.Some? <==> STORAGE_KEY in items && items[STORAGE_KEY].Encoded?
      ensures r.Some? ==> r.value == items[STORAGE_KEY].data
    {
      if STORAGE_KEY !in items {
        return None;
      }
      match items[STORAGE_KEY]
      case Raw(_) =>
        r := None;
      case Encoded(d) =>
        r := Some(d);
    }

    /** `resetData`: remove the key; removing a missing key changes nothing. */
    method ResetData()
      modifies this
      ensures items == old(items) - {STORAGE_KEY}
    {
      items := items - {STORAGE_KEY};
    }
  }

  /** Saving an aggregate and loading it back returns that aggregate; other
      keys are untouched. */
  method SaveThenLoad(store: Store, data: UserData) returns (r: Option<UserData>)
    modifies store
    ensures r == Some(data)
    ensures forall k :: k != STORAGE_KEY ==> (k in store.items <==> k in old(store.items))
  {
    store.SaveData(data, true);
    r := store.LoadData();
  }

  /** After a reset, loading finds nothing. */
  method ResetThenLoad(store: Store) returns (r: Option<UserData>)
    modifies store
    ensures r == None
  {
    store.ResetData();
    r := store.LoadData();
  }
}
