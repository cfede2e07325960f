/** The analysis screen (app/analysis/page.tsx): the editable map of
    reflections, keyed by group id, that is loaded from and saved back into
    the aggregate, and the per-group figures behind the charts. */
module Analysis {
  import opened Types
  import Storage
  import Report

  // ---------------------------------------------------------------------
  // A JavaScript Map from group id to reflection, as its entries in
  // insertion order (the order `Array.from(map.entries())` reads them in).

  type Entries = seq<(string, string)>

  function Keys(m: Entries): (ks: seq<string>)
    ensures |ks| == |m|
    ensures forall i :: 0 <= i < |m| ==> ks[i] == m[i].0
  {
    if m == [] then [] else [m[0].0] + Keys(m[1..])
  }

  /** No key occurs twice. */
  predicate DistinctKeys(m: Entries) {
    var ks := Keys(m);
    forall i, j :: 0 <= i < j < |ks| ==> ks[i] != ks[j]
  }

  /** `map.get(k)`. */
  function Lookup(m: Entries, k: string): (r: Option<string>)
    ensures r.None? <==> k !in Keys(m)
    ensures r.Some? ==> (k, r.value) in m
  {
    if m == [] then None
    else if m[0].0 == k then Some(m[0].1)
    else Lookup(m[1..], k)
  }

  /** `map.set(k, v)`: a present key keeps its place and takes the new value;
      a new key goes last. */
  function Put(m: Entries, k: string, v: string): (r: Entries)
    ensures Keys(r) == if k in Keys(m) then Keys(m) else Keys(m) + [k]
  {
    if m == [] then [(k, v)]
    else if m[0].0 == k then [(k, v)] + m[1..]
    else [m[0]] + Put(m[1..], k, v)
  }

  /** After a set, the key reads back the new value and every other key reads
      what it read before. */
  lemma {:induction false} PutLookup(m: Entries, k: string, v: string, other: string)
    ensures Lookup(Put(m, k, v), k) == Some(v)
    ensures other != k ==> Lookup(Put(m, k, v), other) == Lookup(m, other)
  {
    if m != [] && m[0].0 != k {
      PutLookup(m[1..], k, v, other);
    }
  }

  /** A map never holds a key twice. */
  lemma PutKeepsDistinct(m: Entries, k: string, v: string)
    requires DistinctKeys(m)
    ensures DistinctKeys(Put(m, k, v))
  {
    var ks := Keys(m);
    if k !in ks {
      assert forall i :: 0 <= i < |ks| ==> ks[i] != k;
    }
  }

  /** Setting a key twice is the same as setting it once, to the later value. */
  lemma {:induction false} PutTwice(m: Entries, k: string, v1: string, v2: string)
    ensures Put(Put(m, k, v1), k, v2) == Put(m, k, v2)
  {
    if m != [] && m[0].0 != k {
      PutTwice(m[1..], k, v1, v2);
    }
  }

  /** The page's reflection map, filled and updated in place. */
  class InsightMap {
    var entries: Entries

    ghost predicate Valid()
      reads this
    {
      DistinctKeys(entries)
    }

    /** `new Map()`. */
    constructor ()
      ensures Valid() && entries == []
    {
      entries := [];
    }

    /** `new Map(other)`: a copy with the same entries in the same order. */
    constructor Copy(other: InsightMap)
      requires other.Valid()
      ensures Valid() && entries == other.entries
    {
      entries := other.entries;
    }

    function Get(k: string): Option<string>
      reads this
    {
      Lookup(entries, k)
    }

    /** `map.set(k, v)`. */
    method Set(k: string, v: string)
      requires Valid()
      modifies this
      ensures Valid()
      ensures entries == Put(old(entries), k, v)
    {
      PutKeepsDistinct(entries, k, v);
      entries := Put(entries, k, v);
    }
  }

  // ---------------------------------------------------------------------
  // Loading.

  /** The map the load loop has built after the given insights. */
  function Loaded(insights: seq<Insight>): Entries {
    if insights == [] then []
    else
      var last := insights[|insights| - 1];
      Put(Loaded(insights[..|insights| - 1]), last.groupId, last.reflection)
  }

  /** The reflection of the last stored insight for g, if any. */
  function LastReflection(insights: seq<Insight>, g: string): (r: Option<string>)
    ensures r.None? <==> forall x :: x in insights ==> x.groupId != g
    ensures r.Some? ==> Insight(g, r.value) in insights
  {
    if insights == [] then None
    else
      var last := insights[|insights| - 1];
      if last.groupId == g then Some(last.reflection)
      else
        var r := LastReflection(insights[..|insights| - 1], g);
        assert insights == insights[..|insights| - 1] + [last];
        r
  }

  /** Loading reads every group id back as its last stored reflection: when
      a group id is stored twice, the later one wins. */
  lemma {:induction false} LoadedLookup(insights: seq<Insight>, g: string)
    ensures Lookup(Loaded(insights), g) == LastReflection(insights, g)
  {
    if insights != [] {
      var init, last := insights[..|insights| - 1], insights[|insights| - 1];
      LoadedLookup(init, g);
      PutLookup(Loaded(init), last.groupId, last.reflection, g);
    }
  }

  lemma {:induction false} LoadedDistinct(insights: seq<Insight>)
    ensures DistinctKeys(Loaded(insights))
  {
    if insights != [] {
      var init, last := insights[..|insights| - 1], insights[|insights| - 1];
      LoadedDistinct(init);
      PutKeepsDistinct(Loaded(init), last.groupId, last.reflection);
    }
  }

  /** The load (lines 50-53): a fresh map, then `set(groupId, reflection)`
      for each stored insight in order. */
  method LoadInsightMap(insights: seq<Insight>) returns (m: InsightMap)
    ensures fresh(m) && m.Valid()
    ensures m.entries == Loaded(insights)
    ensures forall g :: m.Get(g) == LastReflection(insights, g)
  {
    m := new InsightMap();
    var i := 0;
    while i < |insights|
      invariant 0 <= i <= |insights|
      invariant m.Valid() && m.entries == Loaded(insights[..i])
    {
      assert insights[..i + 1][..i] == insights[..i];
      m.Set(insights[i].groupId, insights[i].reflection);
      i := i + 1;
    }
    assert insights[..i] == insights;
    forall g ensures m.Get(g) == LastReflection(insights, g) {
      LoadedLookup(insights, g);
    }
  }

  /** `handleInsightChange`: a copy of the current map with one key set; the
      current map is left as it is. */
  method InsightChange(current: InsightMap, groupId: string, reflection: string) returns (next: InsightMap)
    requires current.Valid()
    ensures fresh(next) && next.Valid()
    ensures next.entries == Put(current.entries, groupId, reflection)
  {
    next := new InsightMap.Copy(current);
    next.Set(groupId, reflection);
  }

  // ---------------------------------------------------------------------
  // Saving.

  /** One insight per map entry, in the map's order. */
  function ToInsights(m: Entries): (xs: seq<Insight>)
    ensures |xs| == |m|
    ensures forall i :: 0 <= i < |m| ==> xs[i] == Insight(m[i].0, m[i].1)
  {
    if m == [] then [] else [Insight(m[0].0, m[0].1)] + ToInsights(m[1..])
  }

  /** `handleSaveInsights`: the stored insights become the map's entries,
      whether or not their group still exists; nothing else but the
      timestamp changes. */
  function SaveInsights(data: UserData, m: Entries, now: int): (r: UserData)
    ensures r.answers == data.answers && r.groups == data.groups
    ensures r.timestamp == now
    ensures |r.insights| == |m|
    ensures forall i :: 0 <= i < |m| ==> r.insights[i].groupId == m[i].0 && r.insights[i].reflection == m[i].1
  {
    data.(insights := ToInsights(m), timestamp := now)
  }

  /** Saved group ids are pairwise distinct. */
  lemma SaveInsightsDistinct(data: UserData, m: Entries, now: int)
    requires DistinctKeys(m)
    ensures DistinctInsightKeys(SaveInsights(data, m, now).insights)
  {
    var xs, ks := SaveInsights(data, m, now).insights, Keys(m);
    forall i, j | 0 <= i < j < |xs| ensures xs[i].groupId != xs[j].groupId {
      assert xs[i].groupId == ks[i] && xs[j].groupId == ks[j];
    }
  }

  /** Dropping the last entry keeps the keys distinct, and the dropped key
      is not among the rest. */
  lemma DistinctKeysInit(m: Entries)
    requires DistinctKeys(m) && m != []
    ensures DistinctKeys(m[..|m| - 1]) && m[|m| - 1].0 !in Keys(m[..|m| - 1])
  {
    var init := m[..|m| - 1];
    var ks, ks' := Keys(m), Keys(init);
    forall i | 0 <= i < |ks'| ensures ks'[i] == ks[i] {
      assert ks'[i] == init[i].0 == m[i].0;
    }
    forall i | 0 <= i < |ks'| ensures ks'[i] != m[|m| - 1].0 {
      assert ks[|m| - 1] == m[|m| - 1].0;
    }
  }

  /** Setting a key the map lacks appends the entry. */
  lemma {:induction false} PutAbsentAppends(m: Entries, e: (string, string))
    requires e.0 !in Keys(m)
    ensures Put(m, e.0, e.1) == m + [e]
  {
    if m != [] {
      assert Keys(m) == [m[0].0] + Keys(m[1..]);
      PutAbsentAppends(m[1..], e);
      assert [m[0]] + (m[1..] + [e]) == m + [e];
    }
  }

  /** Loading the insights of a map with one more entry sets that entry last. */
  lemma LoadedSnoc(init: Entries, e: (string, string))
    ensures Loaded(ToInsights(init + [e])) == Put(Loaded(ToInsights(init)), e.0, e.1)
  {
    var m := init + [e];
    var xs, ys := ToInsights(m), ToInsights(init);
    assert xs[|xs| - 1] == Insight(e.0, e.1) by {
      assert m[|m| - 1] == e;
    }
    assert xs[..|xs| - 1] == ys by {
      forall i | 0 <= i < |ys| ensures xs[i] == ys[i] {
        assert m[i] == init[i];
      }
    }
  }

  /** Saving a map and loading it back gives the same map, entry for entry
      and in the same order, stale group ids included. */
  lemma {:induction false} SaveThenLoad(m: Entries)
    requires DistinctKeys(m)
    ensures Loaded(ToInsights(m)) == m
  {
    if m != [] {
      var init, last := m[..|m| - 1], m[|m| - 1];
      assert m == init + [last];
      DistinctKeysInit(m);
      SaveThenLoad(init);
      LoadedSnoc(init, last);
      PutAbsentAppends(init, last);
    }
  }

  /** Loading after a save reads each key back as its value in the saved map. */
  lemma SavedReflections(data: UserData, m: Entries, now: int, g: string)
    requires DistinctKeys(m)
    ensures LastReflection(SaveInsights(data, m, now).insights, g) == Lookup(m, g)
  {
    SaveThenLoad(m);
    LoadedLookup(ToInsights(m), g);
  }

  // ---------------------------------------------------------------------
  // The charts.

  /** One bar of the group chart. */
  datatype GroupStat = GroupStat(name: string, count: int, color: string)

  /** `groupData`: one entry per group in order; the count is the number of
      ids the group lists, present or not. */
  function GroupData(groups: seq<Group>): (r: seq<GroupStat>)
    ensures |r| == |groups|
    ensures forall i :: 0 <= i < |groups| ==>
              r[i].name == groups[i].caption && r[i].color == groups[i].color
              && r[i].count == |groups[i].answerIds|
  {
    seq(|groups|, i requires 0 <= i < |groups| =>
      GroupStat(groups[i].caption, |groups[i].answerIds|, groups[i].color))
  }

  lemma {:induction false} ElementsBound(ids: seq<int>)
    ensures |set x | x in ids| <= |ids|
  {
    if ids != [] {
      ElementsBound(ids[1..]);
      assert (set x | x in ids) == (set x | x in ids[1..]) + {ids[0]};
    }
  }

  lemma {:induction false} MembersDistinct(answers: seq<Answer>, ids: seq<int>)
    requires DistinctAnswerIds(answers)
    ensures DistinctAnswerIds(Report.MembersOf(answers, ids))
  {
    if answers != [] {
      MembersDistinct(answers[1..], ids);
      var rest := Report.MembersOf(answers[1..], ids);
      forall j | 0 <= j < |rest| ensures rest[j].id != answers[0].id {
        assert rest[j] in answers[1..];
      }
    }
  }

  /** The chart's count never falls below the number of members the report
      lists for the group. */
  lemma CountBoundsMembers(d: UserData, i: int)
    requires DistinctAnswerIds(d.answers) && 0 <= i < |d.groups|
    ensures |Report.MembersOf(d.answers, d.groups[i].answerIds)| <= GroupData(d.groups)[i].count
  {
    var ids := d.groups[i].answerIds;
    var members := Report.MembersOf(d.answers, ids);
    MembersDistinct(d.answers, ids);
    ElementsBound(ids);
    Storage.DistinctIdsWithin(members, set x | x in ids);
  }

  /** The count exceeds the members listed when the group lists an id that
      no answer carries any more. */
  lemma CountExceedsMembers(d: UserData, i: int, stale: int)
    requires DistinctAnswerIds(d.answers) && 0 <= i < |d.groups|
    requires stale in d.groups[i].answerIds && forall a :: a in d.answers ==> a.id != stale
    ensures |Report.MembersOf(d.answers, d.groups[i].answerIds)| < GroupData(d.groups)[i].count
  {
    var ids := d.groups[i].answerIds;
    var members := Report.MembersOf(d.answers, ids);
    var live := (set x | x in ids) - {stale};
    MembersDistinct(d.answers, ids);
    ElementsBound(ids);
    forall k | 0 <= k < |members| ensures members[k].id in live {
      assert members[k] in members;
    }
    Storage.DistinctIdsWithin(members, live);
  }
}
