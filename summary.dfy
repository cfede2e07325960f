/** The grouping screen (app/summary/page.tsx): the answer selection, the
    creation and removal of groups, and the per-category listing. Each
    handler computes the next aggregate from the current one; saving it is
    the store's business (module Storage). */
module Summary {
  import opened Types
  import opened Strings
  import Storage
  import Report
  import Analysis

  /** The eight group colours, handed out in turn. */
  const GROUP_COLORS: seq<string> := [
    "hsl(0, 70%, 60%)",
    "hsl(30, 70%, 60%)",
    "hsl(60, 70%, 60%)",
    "hsl(120, 70%, 60%)",
    "hsl(180, 70%, 60%)",
    "hsl(240, 70%, 60%)",
    "hsl(280, 70%, 60%)",
    "hsl(320, 70%, 60%)"
  ]

  /** Both pages send the user back to the start unless something was loaded
      and it holds at least one answer. */
  function CanProceed(loaded: Option<UserData>): (ok: bool)
    ensures ok <==> exists d :: loaded == Some(d) && |d.answers| > 0
  {
    assert loaded.Some? ==> loaded == Some(loaded.value);
    loaded.Some? && |loaded.value.answers| > 0
  }

  /** The guard lets the user through exactly once an answer has been
      written: never on a fresh aggregate or when nothing was stored,
      always after an upsert, and the grouping handlers do not change it. */
  lemma CanProceedAfterEdits(d: UserData, c: int, i: int, text: string, purpose: Option<string>,
                             selected: seq<int>, caption: string, idClock: int, gid: string, now: int)
    ensures !CanProceed(None) && !CanProceed(Some(Storage.CreateInitialData(now)))
    ensures CanProceed(Some(Storage.UpdateAnswer(d, c, i, text, purpose, now)))
    ensures var r := CreateGroup(d, selected, caption, idClock, now);
            r.Some? ==> (CanProceed(Some(r.value)) <==> CanProceed(Some(d)))
    ensures CanProceed(Some(RemoveGroup(d, gid, now))) <==> CanProceed(Some(d))
  {
  }

  // ---------------------------------------------------------------------
  // The selection: a JavaScript Set of answer ids, kept in insertion order
  // (the order `Array.from` later reads it in).

  predicate NoDuplicates(s: seq<int>) {
    forall i, j :: 0 <= i < j < |s| ==> s[i] != s[j]
  }

  /** `Set.prototype.delete`: the set without x, the rest in their order. */
  function Remove(s: seq<int>, x: int): (r: seq<int>)
    ensures |r| <= |s|
    ensures forall y :: y in r <==> y in s && y != x
    ensures NoDuplicates(s) ==> NoDuplicates(r)
  {
    if s == [] then []
    else
      var rest := Remove(s[1..], x);
      if s[0] == x then rest
      else
        assert NoDuplicates(s) ==> s[0] !in s[1..];
        [s[0]] + rest
  }

  /** The selection after one click on an answer. */
  function Toggled(selected: seq<int>, answerId: int): seq<int> {
    if answerId in selected then Remove(selected, answerId) else selected + [answerId]
  }

  /** `handleToggleAnswer`: copy the set, then delete the id from the copy
      if it is there and add it otherwise. Exactly one id changes
      membership. */
  method ToggleAnswer(selected: seq<int>, answerId: int) returns (newSelected: seq<int>)
    requires NoDuplicates(selected)
    ensures NoDuplicates(newSelected)
    ensures answerId in newSelected <==> answerId !in selected
    ensures forall x :: x != answerId ==> (x in newSelected <==> x in selected)
    ensures newSelected == Toggled(selected, answerId)
  {
    var copy := selected;
    if answerId in copy {
      copy := Remove(copy, answerId);
    } else {
      copy := copy + [answerId];
    }
    newSelected := copy;
  }

  /** Toggling the same id twice gives back the same set of ids. When the id
      was not selected, it gives back the very same sequence; when it was,
      the id comes back last in insertion order. */
  lemma ToggleTwice(selected: seq<int>, answerId: int)
    requires NoDuplicates(selected)
    ensures forall x :: x in Toggled(Toggled(selected, answerId), answerId) <==> x in selected
    ensures answerId !in selected ==> Toggled(Toggled(selected, answerId), answerId) == selected
    ensures answerId in selected ==>
              Toggled(Toggled(selected, answerId), answerId) == Remove(selected, answerId) + [answerId]
  {
    if answerId !in selected {
      RemoveAt(selected + [answerId], answerId, |selected|);
    }
  }

  /** Removing the element at position k of a duplicate-free sequence leaves
      the others in order. */
  lemma {:induction false} RemoveAt(s: seq<int>, x: int, k: int)
    requires 0 <= k < |s| && s[k] == x && NoDuplicates(s)
    ensures Remove(s, x) == s[..k] + s[k + 1..]
  {
    if k > 0 {
      RemoveAt(s[1..], x, k - 1);
      assert s[1..][..k - 1] + s[1..][k..] == s[1..k] + s[k + 1..];
      assert s[..k] == [s[0]] + s[1..k];
    } else {
      assert x !in s[1..];
      RemoveMissing(s[1..], x);
    }
  }

  lemma {:induction false} RemoveMissing(s: seq<int>, x: int)
    requires x !in s
    ensures Remove(s, x) == s
  {
    if s != [] {
      RemoveMissing(s[1..], x);
      assert s == [s[0]] + s[1..];
    }
  }

  // ---------------------------------------------------------------------
  // The group caption.

  /** The characters `String.prototype.trim` strips: the ECMAScript
      WhiteSpace and LineTerminator characters. */
  predicate IsJsWhitespace(c: char) {
    var n := c as int;
    n == 0x09 || n == 0x0A || n == 0x0B || n == 0x0C || n == 0x0D || n == 0x20
    || n == 0xA0 || n == 0x1680 || (0x2000 <= n <= 0x200A) || n == 0x2028 || n == 0x2029
    || n == 0x202F || n == 0x205F || n == 0x3000 || n == 0xFEFF
  }

  /** Strips the leading whitespace. */
  function TrimStart(s: string): (r: string)
    ensures |r| <= |s| && r == s[|s| - |r|..]
    ensures r == [] || !IsJsWhitespace(r[0])
    ensures forall i :: 0 <= i < |s| - |r| ==> IsJsWhitespace(s[i])
  {
    if s != [] && IsJsWhitespace(s[0]) then TrimStart(s[1..]) else s
  }

  /** Strips the trailing whitespace. */
  function TrimEnd(s: string): (r: string)
    ensures |r| <= |s| && r == s[..|r|]
    ensures r == [] || !IsJsWhitespace(r[|r| - 1])
    ensures forall i :: |r| <= i < |s| ==> IsJsWhitespace(s[i])
  {
    if s != [] && IsJsWhitespace(s[|s| - 1]) then TrimEnd(s[..|s| - 1]) else s
  }

  /** `String.prototype.trim`. */
  function Trim(s: string): string {
    TrimEnd(TrimStart(s))
  }

  /** `!groupLabel.trim()`: the caption trims to the empty string. */
  predicate IsBlank(caption: string) {
    Trim(caption) == ""
  }

  /** A caption is blank exactly when every one of its characters is
      whitespace. */
  lemma BlankIffAllWhitespace(caption: string)
    ensures IsBlank(caption) <==> forall i :: 0 <= i < |caption| ==> IsJsWhitespace(caption[i])
  {
    var t := TrimStart(caption);
    if forall i :: 0 <= i < |caption| ==> IsJsWhitespace(caption[i]) {
    } else {
      var i :| 0 <= i < |caption| && !IsJsWhitespace(caption[i]);
      assert t != [] && t[i - (|caption| - |t|)] == caption[i];
      assert TrimEnd(t) != [];
    }
  }

  // ---------------------------------------------------------------------
  // Creating a group.

  /** `group-${Date.now()}`: the clock reading is a parameter. */
  function GroupIdFor(clock: int): string {
    "group-" + IntToString(clock)
  }

  /** The colour of the group created when `count` groups exist. */
  function ColorFor(count: nat): (color: string)
    ensures color in GROUP_COLORS
    ensures color == GROUP_COLORS[count % 8]
  {
    GROUP_COLORS[count % |GROUP_COLORS|]
  }

  /** Every answer whose id is selected is put in group gid; the others are
      left alone. */
  function Assign(answers: seq<Answer>, selected: seq<int>, gid: string): seq<Answer> {
    seq(|answers|, i requires 0 <= i < |answers| =>
      if answers[i].id in selected then answers[i].(groupId := Some(gid)) else answers[i])
  }

  /** `handleCreateGroup`. Nothing happens (None) when nothing is selected or
      the caption is blank. Otherwise the selected answers move into a new
      group, appended last, whose caption is the caption as typed, whose colour
      is the next in the palette, and whose ids are the selection in
      insertion order; `idClock` and `now` are the two clock readings. */
  function CreateGroup(data: UserData, selected: seq<int>, caption: string, idClock: int, now: int)
    : (r: Option<UserData>)
    ensures r.None? <==> selected == [] || IsBlank(caption)
    ensures r.Some? ==>
              && |r.value.answers| == |data.answers|
              && (forall i :: 0 <= i < |data.answers| ==>
                    r.value.answers[i] == if data.answers[i].id in selected
                                          then data.answers[i].(groupId := Some(GroupIdFor(idClock)))
                                          else data.answers[i])
              && r.value.groups == data.groups + [Group(GroupIdFor(idClock), caption, ColorFor(|data.groups|), selected)]
              && r.value.insights == data.insights
              && r.value.timestamp == now
  {
    if selected == [] || IsBlank(caption) then None
    else
      var newGroup := Group(GroupIdFor(idClock), caption, ColorFor(|data.groups|), selected);
      Some(data.(answers := Assign(data.answers, selected, newGroup.id),
                 groups := data.groups + [newGroup],
                 timestamp := now))
  }

  /** Group colours cycle through the palette: a new group gets the palette
      entry for the number of groups before it, modulo 8. */
  lemma CreateGroupColor(data: UserData, selected: seq<int>, caption: string, idClock: int, now: int)
    requires CreateGroup(data, selected, caption, idClock, now).Some?
    ensures var g := CreateGroup(data, selected, caption, idClock, now).value.groups;
            g[|g| - 1].color in GROUP_COLORS && g[|g| - 1].color == GROUP_COLORS[(|g| - 1) % 8]
  {
  }

  /** A new group with a fresh id keeps every keying rule of the aggregate. */
  lemma CreateGroupWellFormed(data: UserData, selected: seq<int>, caption: string, idClock: int, now: int)
    requires WellFormed(data)
    requires forall g :: g in data.groups ==> g.id != GroupIdFor(idClock)
    ensures var r := CreateGroup(data, selected, caption, idClock, now);
            r.Some? ==> WellFormed(r.value)
  {
    var r := CreateGroup(data, selected, caption, idClock, now);
    if r.Some? {
      var d := r.value;
      var gid := GroupIdFor(idClock);
      var newGroup := d.groups[|d.groups| - 1];
      forall a | a in d.answers && a.groupId.Some?
        ensures exists g :: g in d.groups && g.id == a.groupId.value && a.id in g.answerIds
      {
        var i :| 0 <= i < |d.answers| && d.answers[i] == a;
        var old_ := data.answers[i];
        if old_.id in selected {
          assert newGroup in d.groups && newGroup.id == a.groupId.value;
        } else {
          assert old_ in data.answers;
          var g :| g in data.groups && g.id == a.groupId.value && a.id in g.answerIds;
          assert g in d.groups;
        }
      }
      forall a | a in d.answers ensures SlotConsistent(a) {
        var i :| 0 <= i < |d.answers| && d.answers[i] == a;
        assert data.answers[i] in data.answers;
      }
      forall i, j | 0 <= i < j < |d.groups| ensures d.groups[i].id != d.groups[j].id {
        if j == |data.groups| {
          assert data.groups[i] in data.groups;
        }
      }
    }
  }

  /** Moving an answer into a new group leaves it listed in the group it was
      in before: that group is kept as it was, ids and all, while the
      answer's own reference now names the new group. */
  lemma CreateGroupKeepsOldListing(data: UserData, selected: seq<int>, caption: string, idClock: int, now: int,
                                   i: int, g: Group)
    requires CreateGroup(data, selected, caption, idClock, now).Some?
    requires 0 <= i < |data.answers| && data.answers[i].id in selected
    requires g in data.groups && data.answers[i].id in g.answerIds
    ensures var d := CreateGroup(data, selected, caption, idClock, now).value;
            && g in d.groups && data.answers[i].id in g.answerIds
            && d.answers[i].groupId == Some(GroupIdFor(idClock))
  {
  }

  // ---------------------------------------------------------------------
  // Removing a group.

  /** The group reference gid is dropped from every answer that has it. */
  function Ungroup(answers: seq<Answer>, gid: string): seq<Answer> {
    seq(|answers|, i requires 0 <= i < |answers| =>
      if answers[i].groupId == Some(gid) then answers[i].(groupId := None) else answers[i])
  }

  /** `groups.filter(g => g.id !== gid)`. */
  function OtherGroups(groups: seq<Group>, gid: string): (r: seq<Group>)
    ensures |r| <= |groups|
    ensures forall g :: g in r <==> g in groups && g.id != gid
  {
    if groups == [] then []
    else (if groups[0].id != gid then [groups[0]] else []) + OtherGroups(groups[1..], gid)
  }

  /** `insights.filter(i => i.groupId !== gid)`. */
  function OtherInsights(insights: seq<Insight>, gid: string): (r: seq<Insight>)
    ensures |r| <= |insights|
    ensures forall x :: x in r <==> x in insights && x.groupId != gid
  {
    if insights == [] then []
    else (if insights[0].groupId != gid then [insights[0]] else []) + OtherInsights(insights[1..], gid)
  }

  /** `handleRemoveGroup`: the group, its insights and every reference to it
      go; all else stays. */
  function RemoveGroup(data: UserData, gid: string, now: int): (r: UserData)
    ensures |r.answers| == |data.answers|
    ensures forall i :: 0 <= i < |data.answers| ==>
              r.answers[i] == if data.answers[i].groupId == Some(gid)
                              then data.answers[i].(groupId := None) else data.answers[i]
    ensures forall a :: a in r.answers ==> a.groupId != Some(gid)
    ensures forall g :: g in r.groups <==> g in data.groups && g.id != gid
    ensures forall x :: x in r.insights <==> x in data.insights && x.groupId != gid
    ensures r.timestamp == now
  {
    UserData(Ungroup(data.answers, gid), OtherGroups(data.groups, gid), OtherInsights(data.insights, gid), now)
  }

  /** The filters keep the survivors in their order. */
  lemma {:induction false} OtherGroupsAppend(a: seq<Group>, b: seq<Group>, gid: string)
    ensures OtherGroups(a + b, gid) == OtherGroups(a, gid) + OtherGroups(b, gid)
  {
    if a == [] {
      assert a + b == b;
    } else {
      assert (a + b)[1..] == a[1..] + b;
      OtherGroupsAppend(a[1..], b, gid);
    }
  }

  lemma {:induction false} OtherInsightsAppend(a: seq<Insight>, b: seq<Insight>, gid: string)
    ensures OtherInsights(a + b, gid) == OtherInsights(a, gid) + OtherInsights(b, gid)
  {
    if a == [] {
      assert a + b == b;
    } else {
      assert (a + b)[1..] == a[1..] + b;
      OtherInsightsAppend(a[1..], b, gid);
    }
  }

  /** Removing a group leaves the reflection the report shows for every
      other group (the first stored) as it was. */
  lemma {:induction false} RemoveGroupKeepsFirstReflection(insights: seq<Insight>, gid: string, h: string)
    requires h != gid
    ensures Report.FindInsight(OtherInsights(insights, gid), h) == Report.FindInsight(insights, h)
  {
    if insights != [] {
      RemoveGroupKeepsFirstReflection(insights[1..], gid, h);
      var rest := OtherInsights(insights[1..], gid);
      if insights[0].groupId != gid {
        assert ([insights[0]] + rest)[1..] == rest;
      } else {
        assert [] + rest == rest;
      }
    }
  }

  /** Removing a group leaves the reflection the analysis screen loads for
      every other group (the last stored) as it was. */
  lemma {:induction false} RemoveGroupKeepsLastReflection(insights: seq<Insight>, gid: string, h: string)
    requires h != gid
    ensures Analysis.LastReflection(OtherInsights(insights, gid), h) == Analysis.LastReflection(insights, h)
    decreases |insights|
  {
    if insights != [] {
      var init, last := insights[..|insights| - 1], insights[|insights| - 1];
      assert insights == init + [last];
      OtherInsightsAppend(init, [last], gid);
      RemoveGroupKeepsLastReflection(init, gid, h);
      assert [last][1..] == [];
      var kept := OtherInsights(init, gid);
      assert OtherInsights([last], gid) == if last.groupId != gid then [last] else [];
      if last.groupId != gid {
        assert OtherInsights(insights, gid) == kept + [last];
        assert (kept + [last])[..|kept|] == kept;
      } else {
        assert OtherInsights(insights, gid) == kept;
      }
    }
  }

  lemma {:induction false} OtherGroupsNone(groups: seq<Group>, gid: string)
    requires forall g :: g in groups ==> g.id != gid
    ensures OtherGroups(groups, gid) == groups
  {
    if groups != [] {
      assert groups[0] in groups;
      OtherGroupsNone(groups[1..], gid);
      assert groups == [groups[0]] + groups[1..];
    }
  }

  lemma {:induction false} OtherInsightsNone(insights: seq<Insight>, gid: string)
    requires forall x :: x in insights ==> x.groupId != gid
    ensures OtherInsights(insights, gid) == insights
  {
    if insights != [] {
      assert insights[0] in insights;
      OtherInsightsNone(insights[1..], gid);
      assert insights == [insights[0]] + insights[1..];
    }
  }

  /** Removing an id no group, insight or answer carries changes nothing but
      the timestamp. */
  lemma RemoveUnknownGroup(data: UserData, gid: string, now: int)
    requires forall g :: g in data.groups ==> g.id != gid
    requires forall x :: x in data.insights ==> x.groupId != gid
    requires forall a :: a in data.answers ==> a.groupId != Some(gid)
    ensures RemoveGroup(data, gid, now) == data.(timestamp := now)
  {
    OtherGroupsNone(data.groups, gid);
    OtherInsightsNone(data.insights, gid);
    var r := RemoveGroup(data, gid, now);
    assert forall i :: 0 <= i < |data.answers| ==> data.answers[i] in data.answers;
    assert r.answers == data.answers;
  }

  lemma {:induction false} OtherGroupsDistinct(groups: seq<Group>, gid: string)
    requires DistinctGroupIds(groups)
    ensures DistinctGroupIds(OtherGroups(groups, gid))
  {
    if groups != [] {
      OtherGroupsDistinct(groups[1..], gid);
      var rest := OtherGroups(groups[1..], gid);
      if groups[0].id != gid {
        forall j | 0 <= j < |rest| ensures groups[0].id != rest[j].id {
          assert rest[j] in groups[1..];
        }
      }
    }
  }

  lemma {:induction false} OtherInsightsDistinct(insights: seq<Insight>, gid: string)
    requires DistinctInsightKeys(insights)
    ensures DistinctInsightKeys(OtherInsights(insights, gid))
  {
    if insights != [] {
      OtherInsightsDistinct(insights[1..], gid);
      var rest := OtherInsights(insights[1..], gid);
      if insights[0].groupId != gid {
        forall j | 0 <= j < |rest| ensures insights[0].groupId != rest[j].groupId {
          assert rest[j] in insights[1..];
        }
      }
    }
  }

  /** Removal keeps every keying rule of the aggregate: each remaining
      reference still names a remaining group. */
  lemma RemoveGroupWellFormed(data: UserData, gid: string, now: int)
    requires WellFormed(data)
    ensures WellFormed(RemoveGroup(data, gid, now))
  {
    var r := RemoveGroup(data, gid, now);
    OtherGroupsDistinct(data.groups, gid);
    OtherInsightsDistinct(data.insights, gid);
    forall a | a in r.answers
      ensures SlotConsistent(a)
      ensures a.groupId.Some? ==> exists g :: g in r.groups && g.id == a.groupId.value && a.id in g.answerIds
    {
      var i :| 0 <= i < |r.answers| && r.answers[i] == a;
      assert data.answers[i] in data.answers;
      if a.groupId.Some? {
        var g :| g in data.groups && g.id == a.groupId.value && a.id in g.answerIds;
        assert g in r.groups;
      }
    }
  }

  /** Creating a group with a fresh id and removing it again restores the
      groups and the insights, but not the answers: every selected answer
      ends up in no group at all, even one that was in another group before. */
  lemma CreateThenRemove(data: UserData, selected: seq<int>, caption: string, idClock: int, now1: int, now2: int)
    requires CreateGroup(data, selected, caption, idClock, now1).Some?
    requires forall g :: g in data.groups ==> g.id != GroupIdFor(idClock)
    requires forall x :: x in data.insights ==> x.groupId != GroupIdFor(idClock)
    requires forall a :: a in data.answers ==> a.groupId != Some(GroupIdFor(idClock))
    ensures var r := RemoveGroup(CreateGroup(data, selected, caption, idClock, now1).value, GroupIdFor(idClock), now2);
            && r.groups == data.groups
            && r.insights == data.insights
            && |r.answers| == |data.answers|
            && forall i :: 0 <= i < |data.answers| ==>
                 r.answers[i] == if data.answers[i].id in selected
                                 then data.answers[i].(groupId := None) else data.answers[i]
  {
    var gid := GroupIdFor(idClock);
    var d := CreateGroup(data, selected, caption, idClock, now1).value;
    var newGroup := Group(gid, caption, ColorFor(|data.groups|), selected);
    OtherGroupsAppend(data.groups, [newGroup], gid);
    OtherGroupsNone(data.groups, gid);
    assert OtherGroups([newGroup], gid) == [];
    OtherInsightsNone(data.insights, gid);
    var r := RemoveGroup(d, gid, now2);
    forall i | 0 <= i < |data.answers|
      ensures r.answers[i] == if data.answers[i].id in selected
                              then data.answers[i].(groupId := None) else data.answers[i]
    {
      assert data.answers[i] in data.answers;
    }
  }

  // ---------------------------------------------------------------------
  // The per-category listing.

  predicate SortedByIndex(xs: seq<Answer>) {
    forall i, j :: 0 <= i < j < |xs| ==> xs[i].index <= xs[j].index
  }

  /** Puts x before the first answer whose index is not smaller. */
  function InsertByIndex(x: Answer, ys: seq<Answer>): (r: seq<Answer>)
    ensures |r| == |ys| + 1
    ensures r[0] == x || (ys != [] && r[0] == ys[0])
    ensures multiset(r) == multiset(ys) + multiset{x}
    ensures SortedByIndex(ys) ==> SortedByIndex(r)
  {
    if ys == [] || x.index <= ys[0].index then [x] + ys
    else
      var rest := InsertByIndex(x, ys[1..]);
      assert ys == [ys[0]] + ys[1..];
      InsertStep(x, ys, rest);
      [ys[0]] + rest
  }

  /** x goes after ys[0]: the result stays sorted when ys was. */
  lemma InsertStep(x: Answer, ys: seq<Answer>, rest: seq<Answer>)
    requires ys != [] && x.index > ys[0].index
    requires rest != [] && (rest[0] == x || (|ys| > 1 && rest[0] == ys[1]))
    requires SortedByIndex(ys[1..]) ==> SortedByIndex(rest)
    ensures SortedByIndex(ys) ==> SortedByIndex([ys[0]] + rest)
  {
    if SortedByIndex(ys) {
      assert SortedByIndex(ys[1..]);
      forall i, j | 0 <= i < j < |[ys[0]] + rest|
        ensures ([ys[0]] + rest)[i].index <= ([ys[0]] + rest)[j].index
      {
        if i == 0 && j > 1 {
          assert rest[0].index <= rest[j - 1].index;
        }
      }
    }
  }

  /** `.sort((a, b) => a.index - b.index)`, a stable sort by index. */
  function SortByIndex(xs: seq<Answer>): (r: seq<Answer>)
    ensures SortedByIndex(r)
    ensures multiset(r) == multiset(xs)
  {
    if xs == [] then []
    else
      assert xs == [xs[0]] + xs[1..];
      InsertByIndex(xs[0], SortByIndex(xs[1..]))
  }

  /** The answers with a given index, in order. */
  function WithIndex(xs: seq<Answer>, k: int): seq<Answer> {
    if xs == [] then []
    else (if xs[0].index == k then [xs[0]] else []) + WithIndex(xs[1..], k)
  }

  lemma {:induction false} InsertByIndexStable(x: Answer, ys: seq<Answer>, k: int)
    ensures WithIndex(InsertByIndex(x, ys), k) == (if x.index == k then [x] else []) + WithIndex(ys, k)
  {
    if ys != [] && x.index > ys[0].index {
      InsertByIndexStable(x, ys[1..], k);
      var rest := InsertByIndex(x, ys[1..]);
      assert ([ys[0]] + rest)[1..] == rest;
    } else {
      assert ([x] + ys)[1..] == ys;
    }
  }

  /** The sort is stable: answers with equal index keep their stored order. */
  lemma {:induction false} SortByIndexStable(xs: seq<Answer>, k: int)
    ensures WithIndex(SortByIndex(xs), k) == WithIndex(xs, k)
  {
    if xs != [] {
      SortByIndexStable(xs[1..], k);
      InsertByIndexStable(xs[0], SortByIndex(xs[1..]), k);
    }
  }

  /** `answersByCategory`: one entry per catalogue category, in catalogue
      order, holding exactly that category's answers sorted by index. */
  function AnswersByCategory(answers: seq<Answer>): (r: seq<(Category, seq<Answer>)>)
    ensures |r| == |CATEGORIES|
    ensures forall k :: 0 <= k < |r| ==>
              && r[k].0 == CATEGORIES[k]
              && SortedByIndex(r[k].1)
              && multiset(r[k].1) == multiset(InCategory(answers, CATEGORIES[k].id))
  {
    CatalogueShape();
    seq(|CATEGORIES|, k requires 0 <= k < |CATEGORIES| =>
      (CATEGORIES[k], SortByIndex(InCategory(answers, CATEGORIES[k].id))))
  }

  /** The entry of category k + 1 lists the answers of that category and no
      other. */
  lemma AnswersByCategoryMembers(answers: seq<Answer>, k: int, a: Answer)
    requires 0 <= k < |CATEGORIES|
    ensures a in AnswersByCategory(answers)[k].1 <==> a in answers && a.category == k + 1
  {
    CatalogueShape();
    var entry := AnswersByCategory(answers)[k].1;
    var inCat := InCategory(answers, k + 1);
    assert multiset(entry) == multiset(inCat);
    assert a in entry <==> a in multiset(entry);
    assert a in inCat <==> a in multiset(inCat);
  }
}
