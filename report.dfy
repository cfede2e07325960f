/** The human-readable text export (`exportDataAsText`, lib/storage.ts).
    The report is specified as the list of its lines, `ReportLines`; the
    text is those lines, each followed by a newline. */
module Report {
  import opened Types
  import opened Strings

  const TITLE := "価値の序列 - 自己分析結果"
  const RULE_WIDTH := 50
  const CATEGORY_PREFIX := "カテゴリー "
  const PURPOSE_PREFIX := "   目的: "
  const GROUP_HEADING := "グループ分析"
  const MEMBER_PREFIX := "  - "
  const WHY_PREFIX := "  なぜ？: "

  /** `'='.repeat(50)` and `'-'.repeat(50)`. */
  const DOUBLE_RULE := Repeat('=', RULE_WIDTH)
  const SINGLE_RULE := Repeat('-', RULE_WIDTH)

  /** The title line, then a rule and a blank line. */
  function Header(): seq<string> {
    [TITLE] + [DOUBLE_RULE, ""]
  }

  /** `if (answer.purpose)`: present and not the empty string. */
  predicate HasPurpose(a: Answer) {
    a.purpose.Some? && a.purpose.value != ""
  }

  function AnswerLine(a: Answer): string {
    IntToString(a.index) + ". " + a.text
  }

  function PurposeLine(purpose: string): string {
    PURPOSE_PREFIX + purpose
  }

  /** The lines of one answer: its own line, then its purpose when it has one. */
  function AnswerLines(a: Answer): seq<string> {
    [AnswerLine(a)] + (if HasPurpose(a) then [PurposeLine(a.purpose.value)] else [])
  }

  function AnswersLines(answers: seq<Answer>): seq<string> {
    if answers == [] then []
    else AnswersLines(answers[..|answers| - 1]) + AnswerLines(answers[|answers| - 1])
  }

  function CategoryHeading(cat: int): string {
    CATEGORY_PREFIX + IntToString(cat)
  }

  /** The block of one category; nothing at all when it has no answer. */
  function CategoryBlock(answers: seq<Answer>, cat: int): seq<string> {
    var inCat := InCategory(answers, cat);
    if inCat == [] then []
    else [CategoryHeading(cat)] + [SINGLE_RULE] + AnswersLines(inCat) + [""]
  }

  /** The blocks of categories 1..upTo, in ascending order. */
  function CategorySections(answers: seq<Answer>, upTo: int): seq<string>
    decreases upTo
  {
    if upTo < 1 then []
    else CategorySections(answers, upTo - 1) + CategoryBlock(answers, upTo)
  }

  /** `answers.filter(a => ids.includes(a.id))`: in the answers' stored order. */
  function MembersOf(answers: seq<Answer>, ids: seq<int>): (r: seq<Answer>)
    ensures |r| <= |answers|
    ensures forall a :: a in r <==> a in answers && a.id in ids
  {
    if answers == [] then []
    else (if answers[0].id in ids then [answers[0]] else []) + MembersOf(answers[1..], ids)
  }

  /** `insights.find(i => i.groupId === gid)`: the first one, if any. */
  function FindInsight(insights: seq<Insight>, gid: string): (r: Option<Insight>)
    ensures r.None? <==> forall i :: i in insights ==> i.groupId != gid
    ensures r.Some? ==> exists k :: 0 <= k < |insights| && insights[k] == r.value
                          && r.value.groupId == gid
                          && forall j :: 0 <= j < k ==> insights[j].groupId != gid
  {
    if insights == [] then None
    else if insights[0].groupId == gid then Some(insights[0])
    else
      var r := FindInsight(insights[1..], gid);
      if r.Some? then
        var k :| 0 <= k < |insights| - 1 && insights[1..][k] == r.value
                 && forall j :: 0 <= j < k ==> insights[1..][j].groupId != gid;
        assert insights[k + 1] == r.value;
        assert forall j :: 1 <= j < k + 1 ==> insights[j] == insights[1..][j - 1];
        r
      else r
  }

  function MemberLines(members: seq<Answer>): seq<string> {
    if members == [] then []
    else MemberLines(members[..|members| - 1]) + [MEMBER_PREFIX + members[|members| - 1].text]
  }

  function GroupHeading(g: Group): string {
    "【" + g.caption + "】"
  }

  function InsightLines(insights: seq<Insight>, gid: string): seq<string> {
    match FindInsight(insights, gid)
    case Some(i) => [WHY_PREFIX + i.reflection]
    case None => []
  }

  /** One group's block: its bracketed label, its members' texts, its
      reflection if one is stored, and a blank line. */
  function GroupBlock(answers: seq<Answer>, insights: seq<Insight>, g: Group): seq<string> {
    [GroupHeading(g)] + MemberLines(MembersOf(answers, g.answerIds)) + InsightLines(insights, g.id) + [""]
  }

  function GroupBlocks(answers: seq<Answer>, insights: seq<Insight>, groups: seq<Group>): seq<string> {
    if groups == [] then []
    else GroupBlocks(answers, insights, groups[..|groups| - 1])
         + GroupBlock(answers, insights, groups[|groups| - 1])
  }

  /** A blank line and a rule, the group-analysis heading, a rule and a
      blank line. */
  function GroupSectionOpening(): seq<string> {
    ["", DOUBLE_RULE] + [GROUP_HEADING] + [DOUBLE_RULE, ""]
  }

  function GroupSection(d: UserData): seq<string> {
    if d.groups == [] then []
    else GroupSectionOpening() + GroupBlocks(d.answers, d.insights, d.groups)
  }

  /** The whole report, line by line. */
  function ReportLines(d: UserData): seq<string> {
    Header() + CategorySections(d.answers, CategoryCount) + GroupSection(d)
  }

  lemma AppendAssoc<T>(a: seq<T>, b: seq<T>, c: seq<T>)
    ensures (a + b) + c == a + (b + c)
  {
  }

  lemma AnswersLinesStep(answers: seq<Answer>, i: int)
    requires 0 <= i < |answers|
    ensures AnswersLines(answers[..i + 1]) == AnswersLines(answers[..i]) + AnswerLines(answers[i])
  {
    assert answers[..i + 1][..i] == answers[..i];
  }

  lemma MemberLinesStep(members: seq<Answer>, j: int)
    requires 0 <= j < |members|
    ensures MemberLines(members[..j + 1]) == MemberLines(members[..j]) + [MEMBER_PREFIX + members[j].text]
  {
    assert members[..j + 1][..j] == members[..j];
  }

  lemma GroupBlocksStep(answers: seq<Answer>, insights: seq<Insight>, groups: seq<Group>, g: int)
    requires 0 <= g < |groups|
    ensures GroupBlocks(answers, insights, groups[..g + 1])
            == GroupBlocks(answers, insights, groups[..g]) + GroupBlock(answers, insights, groups[g])
  {
    assert groups[..g + 1][..g] == groups[..g];
  }

  /** Appends the lines of the given answers, one answer at a time. */
  method WriteAnswers(lines0: seq<string>, answers: seq<Answer>) returns (lines: seq<string>)
    ensures lines == lines0 + AnswersLines(answers)
  {
    lines := lines0;
    var i := 0;
    while i < |answers|
      invariant 0 <= i <= |answers|
      invariant lines == lines0 + AnswersLines(answers[..i])
    {
      var answer := answers[i];
      ghost var before := lines;
      lines := lines + [AnswerLine(answer)];
      if answer.purpose.Some? && answer.purpose.value != "" {
        lines := lines + [PurposeLine(answer.purpose.value)];
      }
      assert lines == lines0 + AnswersLines(answers[..i + 1]) by {
        assert lines == before + AnswerLines(answer);
        AnswersLinesStep(answers, i);
        AppendAssoc(lines0, AnswersLines(answers[..i]), AnswerLines(answer));
      }
      i := i + 1;
    }
    assert answers[..i] == answers;
  }

  /** Appends one member line per answer. */
  method WriteMembers(lines0: seq<string>, members: seq<Answer>) returns (lines: seq<string>)
    ensures lines == lines0 + MemberLines(members)
  {
    lines := lines0;
    var j := 0;
    while j < |members|
      invariant 0 <= j <= |members|
      invariant lines == lines0 + MemberLines(members[..j])
    {
      ghost var before := lines;
      lines := lines + [MEMBER_PREFIX + members[j].text];
      assert lines == lines0 + MemberLines(members[..j + 1]) by {
        MemberLinesStep(members, j);
        AppendAssoc(lines0, MemberLines(members[..j]), [MEMBER_PREFIX + members[j].text]);
      }
      j := j + 1;
    }
    assert members[..j] == members;
  }

  /** The body of the category loop: nothing for an empty category. */
  method WriteCategory(lines0: seq<string>, answers: seq<Answer>, cat: int) returns (lines: seq<string>)
    ensures lines == lines0 + CategoryBlock(answers, cat)
  {
    var categoryAnswers := InCategory(answers, cat);
    if |categoryAnswers| == 0 {
      return lines0;
    }
    lines := lines0 + [CategoryHeading(cat)];
    lines := lines + [SINGLE_RULE];
    lines := WriteAnswers(lines, categoryAnswers);
    lines := lines + [""];
  }

  /** The body of the group loop. */
  method WriteGroup(lines0: seq<string>, answers: seq<Answer>, insights: seq<Insight>, group: Group)
    returns (lines: seq<string>)
    ensures lines == lines0 + GroupBlock(answers, insights, group)
  {
    lines := lines0 + [GroupHeading(group)];
    var groupAnswers := MembersOf(answers, group.answerIds);
    lines := WriteMembers(lines, groupAnswers);
    var insight := FindInsight(insights, group.id);
    if insight.Some? {
      lines := lines + [WHY_PREFIX + insight.value.reflection];
    }
    lines := lines + [""];
  }

  /** The category loop: categories 1..8 in ascending order. */
  method WriteCategories(lines0: seq<string>, answers: seq<Answer>) returns (lines: seq<string>)
    ensures lines == lines0 + CategorySections(answers, CategoryCount)
  {
    lines := lines0;
    var cat := 1;
    while cat <= CategoryCount
      invariant 1 <= cat <= CategoryCount + 1
      invariant lines == lines0 + CategorySections(answers, cat - 1)
    {
      ghost var before := lines;
      lines := WriteCategory(lines, answers, cat);
      assert lines == lines0 + CategorySections(answers, cat) by {
        assert CategorySections(answers, cat) == CategorySections(answers, cat - 1) + CategoryBlock(answers, cat);
        AppendAssoc(lines0, CategorySections(answers, cat - 1), CategoryBlock(answers, cat));
      }
      cat := cat + 1;
    }
  }

  /** The group loop: the groups in their stored order. */
  method WriteGroups(lines0: seq<string>, answers: seq<Answer>, insights: seq<Insight>, groups: seq<Group>)
    returns (lines: seq<string>)
    ensures lines == lines0 + GroupBlocks(answers, insights, groups)
  {
    lines := lines0;
    var g := 0;
    while g < |groups|
      invariant 0 <= g <= |groups|
      invariant lines == lines0 + GroupBlocks(answers, insights, groups[..g])
    {
      ghost var before := lines;
      lines := WriteGroup(lines, answers, insights, groups[g]);
      assert lines == lines0 + GroupBlocks(answers, insights, groups[..g + 1]) by {
        GroupBlocksStep(answers, insights, groups, g);
        AppendAssoc(lines0, GroupBlocks(answers, insights, groups[..g]), GroupBlock(answers, insights, groups[g]));
      }
      g := g + 1;
    }
    assert groups[..g] == groups;
  }

  /** `exportDataAsText`. The report is accumulated line by line, category
      by category and group by group, and joined with newlines at the end;
      every piece the source appends to its text ends in a newline, so the
      two accumulate the same text. */
  method ExportDataAsText(data: UserData) returns (text: string)
    ensures text == Unlines(ReportLines(data))
  {
    var lines := WriteCategories(Header(), data.answers);
    ghost var body := lines;
    if |data.groups| > 0 {
      lines := WriteGroups(lines + GroupSectionOpening(), data.answers, data.insights, data.groups);
      assert lines == body + GroupSection(data) by {
        AppendAssoc(body, GroupSectionOpening(), GroupBlocks(data.answers, data.insights, data.groups));
      }
    } else {
      assert lines == body + GroupSection(data) by {
        assert GroupSection(data) == [];
      }
    }
    text := Unlines(lines);
  }

  // ---------------------------------------------------------------------
  // What the report says, read back from its lines.

  /** The report opens with the title, a rule of exactly 50 '=', and a
      blank line. */
  lemma ReportOpensWithHeader(d: UserData)
    ensures |ReportLines(d)| >= 3
    ensures ReportLines(d)[0] == TITLE && ReportLines(d)[2] == ""
    ensures |ReportLines(d)[1]| == 50 && forall i :: 0 <= i < 50 ==> ReportLines(d)[1][i] == '='
  {
  }

  /** Order is kept: filtering a concatenation filters each part. */
  lemma {:induction false} InCategoryAppend(a: seq<Answer>, b: seq<Answer>, cat: int)
    ensures InCategory(a + b, cat) == InCategory(a, cat) + InCategory(b, cat)
  {
    if a == [] {
      assert a + b == b;
    } else {
      assert (a + b)[1..] == a[1..] + b;
      InCategoryAppend(a[1..], b, cat);
    }
  }

  lemma {:induction false} MembersOfAppend(a: seq<Answer>, b: seq<Answer>, ids: seq<int>)
    ensures MembersOf(a + b, ids) == MembersOf(a, ids) + MembersOf(b, ids)
  {
    if a == [] {
      assert a + b == b;
    } else {
      assert (a + b)[1..] == a[1..] + b;
      MembersOfAppend(a[1..], b, ids);
    }
  }

  /** An id in a group's `answerIds` that no answer carries contributes no
      member line: stale ids are silently skipped. */
  lemma {:induction false} MembersOfIgnoresStaleIds(answers: seq<Answer>, ids: seq<int>, stale: int)
    requires forall a :: a in answers ==> a.id != stale
    ensures MembersOf(answers, ids + [stale]) == MembersOf(answers, ids)
  {
    if answers != [] {
      assert answers[0] in answers;
      MembersOfIgnoresStaleIds(answers[1..], ids, stale);
    }
  }

  /** The categories 1..upTo that hold at least one answer, ascending. */
  function NonEmptyCategories(answers: seq<Answer>, upTo: int): (cats: seq<int>)
    ensures forall i, j :: 0 <= i < j < |cats| ==> cats[i] < cats[j]
    ensures forall c :: c in cats <==> 1 <= c <= upTo && exists a :: a in answers && a.category == c
    decreases upTo
  {
    if upTo < 1 then []
    else
      var earlier := NonEmptyCategories(answers, upTo - 1);
      if InCategory(answers, upTo) == [] then earlier
      else
        assert InCategory(answers, upTo)[0] in InCategory(answers, upTo);
        assert forall i :: 0 <= i < |earlier| ==> earlier[i] in earlier;
        earlier + [upTo]
  }

  function CategoryHeadings(cats: seq<int>): seq<string> {
    if cats == [] then [] else CategoryHeadings(cats[..|cats| - 1]) + [CategoryHeading(cats[|cats| - 1])]
  }

  function GroupHeadings(groups: seq<Group>): seq<string> {
    if groups == [] then [] else GroupHeadings(groups[..|groups| - 1]) + [GroupHeading(groups[|groups| - 1])]
  }

  /** No answer or purpose line begins with p. */
  lemma AnswerLinesWithout(a: Answer, p: string)
    requires |p| > 0 && !IsDigit(p[0]) && p[0] != '-' && p[0] != ' '
    ensures WithPrefix(AnswerLines(a), p) == []
  {
    var tail := if HasPurpose(a) then [PurposeLine(a.purpose.value)] else [];
    WithPrefixAppend([AnswerLine(a)], tail, p);
    assert AnswerLine(a)[0] == IntToString(a.index)[0];
    NotWithPrefix(AnswerLine(a), p);
    if HasPurpose(a) {
      NotWithPrefix(PurposeLine(a.purpose.value), p);
    }
  }

  lemma {:induction false} AnswersLinesWithout(xs: seq<Answer>, p: string)
    requires |p| > 0 && !IsDigit(p[0]) && p[0] != '-' && p[0] != ' '
    ensures WithPrefix(AnswersLines(xs), p) == []
  {
    if xs != [] {
      var init, last := xs[..|xs| - 1], xs[|xs| - 1];
      AnswersLinesWithout(init, p);
      AnswerLinesWithout(last, p);
      WithPrefixAppend(AnswersLines(init), AnswerLines(last), p);
    }
  }

  /** A non-empty category's block, filtered, is its parts filtered. */
  lemma CategoryBlockParts(answers: seq<Answer>, cat: int, p: string)
    requires InCategory(answers, cat) != []
    ensures WithPrefix(CategoryBlock(answers, cat), p)
            == WithPrefix([CategoryHeading(cat)], p) + WithPrefix([SINGLE_RULE], p)
               + WithPrefix(AnswersLines(InCategory(answers, cat)), p) + WithPrefix([""], p)
  {
    var h, body := [CategoryHeading(cat)], AnswersLines(InCategory(answers, cat));
    WithPrefixAppend(h + [SINGLE_RULE] + body, [""], p);
    WithPrefixAppend(h + [SINGLE_RULE], body, p);
    WithPrefixAppend(h, [SINGLE_RULE], p);
  }

  /** Of a category's block, only its heading can begin with p. */
  lemma CategoryBlockWith(answers: seq<Answer>, cat: int, p: string)
    requires |p| > 0 && !IsDigit(p[0]) && p[0] != '-' && p[0] != ' '
    ensures WithPrefix(CategoryBlock(answers, cat), p)
            == if InCategory(answers, cat) == [] then [] else WithPrefix([CategoryHeading(cat)], p)
  {
    var inCat := InCategory(answers, cat);
    if inCat != [] {
      CategoryBlockParts(answers, cat, p);
      NotWithPrefix(SINGLE_RULE, p);
      NotWithPrefix("", p);
      AnswersLinesWithout(inCat, p);
    }
  }

  lemma {:induction false} CategorySectionsWithout(answers: seq<Answer>, upTo: int, p: string)
    requires |p| > 0 && !IsDigit(p[0]) && p[0] != '-' && p[0] != ' ' && p[0] != 'カ'
    ensures WithPrefix(CategorySections(answers, upTo), p) == []
    decreases upTo
  {
    if upTo >= 1 {
      CategorySectionsWithout(answers, upTo - 1, p);
      CategoryBlockWith(answers, upTo, p);
      NotWithPrefix(CategoryHeading(upTo), p);
      WithPrefixAppend(CategorySections(answers, upTo - 1), CategoryBlock(answers, upTo), p);
    }
  }

  lemma {:induction false} CategorySectionHeadings(answers: seq<Answer>, upTo: int)
    ensures WithPrefix(CategorySections(answers, upTo), CATEGORY_PREFIX)
            == CategoryHeadings(NonEmptyCategories(answers, upTo))
    decreases upTo
  {
    if upTo >= 1 {
      CategorySectionHeadings(answers, upTo - 1);
      CategoryBlockWith(answers, upTo, CATEGORY_PREFIX);
      WithPrefixSingle(CategoryHeading(upTo), CATEGORY_PREFIX);
      WithPrefixAppend(CategorySections(answers, upTo - 1), CategoryBlock(answers, upTo), CATEGORY_PREFIX);
      var cats := NonEmptyCategories(answers, upTo);
      if InCategory(answers, upTo) != [] {
        assert cats == NonEmptyCategories(answers, upTo - 1) + [upTo];
        assert cats[..|cats| - 1] == NonEmptyCategories(answers, upTo - 1);
      }
    }
  }

  lemma {:induction false} MemberLinesWithout(members: seq<Answer>, p: string)
    requires |p| > 0 && p[0] != ' '
    ensures WithPrefix(MemberLines(members), p) == []
  {
    if members != [] {
      var init, last := members[..|members| - 1], members[|members| - 1];
      MemberLinesWithout(init, p);
      NotWithPrefix(MEMBER_PREFIX + last.text, p);
      WithPrefixAppend(MemberLines(init), [MEMBER_PREFIX + last.text], p);
    }
  }

  /** Of a group's block, only its bracketed heading can begin with p. */
  lemma GroupBlockWith(answers: seq<Answer>, insights: seq<Insight>, g: Group, p: string)
    requires |p| > 0 && p[0] != ' '
    ensures WithPrefix(GroupBlock(answers, insights, g), p) == WithPrefix([GroupHeading(g)], p)
  {
    var h, members, why := [GroupHeading(g)], MemberLines(MembersOf(answers, g.answerIds)), InsightLines(insights, g.id);
    WithPrefixAppend(h + members + why, [""], p);
    WithPrefixAppend(h + members, why, p);
    WithPrefixAppend(h, members, p);
    MemberLinesWithout(MembersOf(answers, g.answerIds), p);
    NotWithPrefix("", p);
    if why != [] {
      NotWithPrefix(why[0], p);
      assert why == [why[0]];
    }
  }

  lemma {:induction false} GroupBlocksWith(answers: seq<Answer>, insights: seq<Insight>, groups: seq<Group>, p: string)
    requires |p| > 0 && p[0] != ' '
    ensures p[0] != '【' ==> WithPrefix(GroupBlocks(answers, insights, groups), p) == []
    ensures p == "【" ==> WithPrefix(GroupBlocks(answers, insights, groups), p) == GroupHeadings(groups)
  {
    if groups != [] {
      var init, last := groups[..|groups| - 1], groups[|groups| - 1];
      GroupBlocksWith(answers, insights, init, p);
      GroupBlockWith(answers, insights, last, p);
      WithPrefixSingle(GroupHeading(last), p);
      if p[0] != '【' {
        NotWithPrefix(GroupHeading(last), p);
      }
      WithPrefixAppend(GroupBlocks(answers, insights, init), GroupBlock(answers, insights, last), p);
    }
  }

  /** A member line begins with the member marker and never with the
      reflection marker (the two differ in their third character). */
  lemma MemberLineMarkers(text: string)
    ensures WithPrefix([MEMBER_PREFIX + text], MEMBER_PREFIX) == [MEMBER_PREFIX + text]
    ensures WithPrefix([MEMBER_PREFIX + text], WHY_PREFIX) == []
  {
    WithPrefixSingle(MEMBER_PREFIX + text, MEMBER_PREFIX);
    WithPrefixSingle(MEMBER_PREFIX + text, WHY_PREFIX);
    assert MEMBER_PREFIX <= MEMBER_PREFIX + text;
    assert (MEMBER_PREFIX + text)[2] != WHY_PREFIX[2];
  }

  lemma {:induction false} MemberLinesMarkers(members: seq<Answer>)
    ensures WithPrefix(MemberLines(members), MEMBER_PREFIX) == MemberLines(members)
    ensures WithPrefix(MemberLines(members), WHY_PREFIX) == []
  {
    if members != [] {
      var init, last := members[..|members| - 1], members[|members| - 1];
      MemberLinesMarkers(init);
      MemberLineMarkers(last.text);
      WithPrefixAppend(MemberLines(init), [MEMBER_PREFIX + last.text], MEMBER_PREFIX);
      WithPrefixAppend(MemberLines(init), [MEMBER_PREFIX + last.text], WHY_PREFIX);
    }
  }

  /** The reflection line of a group, if any, never reads as a member line. */
  lemma InsightLinesMarkers(insights: seq<Insight>, gid: string)
    ensures WithPrefix(InsightLines(insights, gid), MEMBER_PREFIX) == []
    ensures WithPrefix(InsightLines(insights, gid), WHY_PREFIX) == InsightLines(insights, gid)
  {
    var why := InsightLines(insights, gid);
    if why != [] {
      var l := why[0];
      assert why == [l];
      WithPrefixSingle(l, MEMBER_PREFIX);
      WithPrefixSingle(l, WHY_PREFIX);
      assert l[2] != MEMBER_PREFIX[2];
      assert WHY_PREFIX <= l;
    }
  }

  /** A group's block, filtered, is its parts filtered. */
  lemma GroupBlockParts(answers: seq<Answer>, insights: seq<Insight>, g: Group, p: string)
    ensures WithPrefix(GroupBlock(answers, insights, g), p)
            == WithPrefix([GroupHeading(g)], p) + WithPrefix(MemberLines(MembersOf(answers, g.answerIds)), p)
               + WithPrefix(InsightLines(insights, g.id), p) + WithPrefix([""], p)
  {
    var h, members, why := [GroupHeading(g)], MemberLines(MembersOf(answers, g.answerIds)), InsightLines(insights, g.id);
    WithPrefixAppend(h + members + why, [""], p);
    WithPrefixAppend(h + members, why, p);
    WithPrefixAppend(h, members, p);
  }

  /** A group's block lists, as member lines, the texts of exactly the
      answers whose id the group lists, in the answers' stored order. */
  lemma GroupBlockMembers(answers: seq<Answer>, insights: seq<Insight>, g: Group)
    ensures WithPrefix(GroupBlock(answers, insights, g), MEMBER_PREFIX) == MemberLines(MembersOf(answers, g.answerIds))
  {
    GroupBlockParts(answers, insights, g, MEMBER_PREFIX);
    MemberLinesMarkers(MembersOf(answers, g.answerIds));
    InsightLinesMarkers(insights, g.id);
    NotWithPrefix(GroupHeading(g), MEMBER_PREFIX);
    NotWithPrefix("", MEMBER_PREFIX);
  }

  /** A group's block holds at most one reflection line: that of the first
      insight stored for the group, when there is one. */
  lemma GroupBlockReflection(answers: seq<Answer>, insights: seq<Insight>, g: Group)
    ensures WithPrefix(GroupBlock(answers, insights, g), WHY_PREFIX)
            == match FindInsight(insights, g.id)
               case Some(i) => [WHY_PREFIX + i.reflection]
               case None => []
  {
    GroupBlockParts(answers, insights, g, WHY_PREFIX);
    MemberLinesMarkers(MembersOf(answers, g.answerIds));
    InsightLinesMarkers(insights, g.id);
    NotWithPrefix(GroupHeading(g), WHY_PREFIX);
    NotWithPrefix("", WHY_PREFIX);
  }

  /** The report as its three parts: header, category sections, group section. */
  lemma ReportParts(d: UserData, p: string)
    ensures WithPrefix(ReportLines(d), p)
            == WithPrefix(Header(), p) + WithPrefix(CategorySections(d.answers, CategoryCount), p)
               + WithPrefix(GroupSection(d), p)
  {
    var sections := CategorySections(d.answers, CategoryCount);
    WithPrefixAppend(Header(), sections, p);
    WithPrefixAppend(Header() + sections, GroupSection(d), p);
  }

  lemma HeaderWithout(p: string)
    requires |p| > 0 && p[0] != '価' && p[0] != '='
    ensures WithPrefix(Header(), p) == []
  {
    WithPrefixAppend([TITLE], [DOUBLE_RULE, ""], p);
    WithPrefixPair(DOUBLE_RULE, "", p);
    NotWithPrefix(TITLE, p);
    NotWithPrefix(DOUBLE_RULE, p);
    NotWithPrefix("", p);
  }

  lemma OpeningWith(p: string)
    requires |p| > 0 && p[0] != '='
    ensures WithPrefix(GroupSectionOpening(), p) == WithPrefix([GROUP_HEADING], p)
  {
    var a, b := ["", DOUBLE_RULE], [DOUBLE_RULE, ""];
    WithPrefixAppend(a + [GROUP_HEADING], b, p);
    WithPrefixAppend(a, [GROUP_HEADING], p);
    WithPrefixPair("", DOUBLE_RULE, p);
    WithPrefixPair(DOUBLE_RULE, "", p);
    NotWithPrefix(DOUBLE_RULE, p);
    NotWithPrefix("", p);
  }

  /** Of the group section, only the group-analysis heading and the group
      headings can begin with p. */
  lemma GroupSectionWith(d: UserData, p: string)
    requires |p| > 0 && p[0] != '='
    ensures WithPrefix(GroupSection(d), p)
            == if d.groups == [] then []
               else WithPrefix([GROUP_HEADING], p) + WithPrefix(GroupBlocks(d.answers, d.insights, d.groups), p)
  {
    if d.groups != [] {
      OpeningWith(p);
      WithPrefixAppend(GroupSectionOpening(), GroupBlocks(d.answers, d.insights, d.groups), p);
    }
  }

  /** The category headings of the report, in order, are exactly those of
      the categories that hold an answer, ascending from 1 to 8. */
  lemma CategoryHeadingsOfReport(d: UserData)
    ensures WithPrefix(ReportLines(d), CATEGORY_PREFIX) == CategoryHeadings(NonEmptyCategories(d.answers, CategoryCount))
  {
    ReportParts(d, CATEGORY_PREFIX);
    HeaderWithout(CATEGORY_PREFIX);
    CategorySectionHeadings(d.answers, CategoryCount);
    GroupSectionWith(d, CATEGORY_PREFIX);
    NotWithPrefix(GROUP_HEADING, CATEGORY_PREFIX);
    GroupBlocksWith(d.answers, d.insights, d.groups, CATEGORY_PREFIX);
  }

  /** The bracketed group headings of the report are the groups' labels,
      one per group in stored order. */
  lemma GroupHeadingsOfReport(d: UserData)
    ensures WithPrefix(ReportLines(d), "【") == GroupHeadings(d.groups)
  {
    ReportParts(d, "【");
    HeaderWithout("【");
    CategorySectionsWithout(d.answers, CategoryCount, "【");
    GroupSectionWith(d, "【");
    NotWithPrefix(GROUP_HEADING, "【");
    GroupBlocksWith(d.answers, d.insights, d.groups, "【");
  }

  /** The group-analysis heading appears, once, exactly when there are groups. */
  lemma GroupSectionPresence(d: UserData)
    ensures WithPrefix(ReportLines(d), GROUP_HEADING) == if d.groups == [] then [] else [GROUP_HEADING]
  {
    ReportParts(d, GROUP_HEADING);
    HeaderWithout(GROUP_HEADING);
    CategorySectionsWithout(d.answers, CategoryCount, GROUP_HEADING);
    GroupSectionWith(d, GROUP_HEADING);
    WithPrefixSingle(GROUP_HEADING, GROUP_HEADING);
    GroupBlocksWith(d.answers, d.insights, d.groups, GROUP_HEADING);
  }

  /** Distinct categories have distinct headings. */
  lemma CategoryHeadingInjective(c1: int, c2: int)
    requires 1 <= c1 && 1 <= c2 && CategoryHeading(c1) == CategoryHeading(c2)
    ensures c1 == c2
  {
    assert NatToString(c1) == CategoryHeading(c1)[|CATEGORY_PREFIX|..];
    NatToStringInjective(c1, c2);
  }

  /** A heading of a category above all of cats is not among their headings. */
  lemma {:induction false} HeadingNotAmong(cats: seq<int>, c: int)
    requires c >= 1 && forall k :: 0 <= k < |cats| ==> 1 <= cats[k] < c
    ensures CategoryHeading(c) !in CategoryHeadings(cats)
  {
    if cats != [] {
      var init, last := cats[..|cats| - 1], cats[|cats| - 1];
      HeadingNotAmong(init, c);
      if CategoryHeading(c) == CategoryHeading(last) {
        CategoryHeadingInjective(c, last);
      }
    }
  }

  predicate Distinct(hs: seq<string>) {
    forall i, j :: 0 <= i < j < |hs| ==> hs[i] != hs[j]
  }

  lemma DistinctSnoc(hs: seq<string>, h: string)
    requires Distinct(hs) && h !in hs
    ensures Distinct(hs + [h])
  {
    forall i, j | 0 <= i < j < |hs| + 1 ensures (hs + [h])[i] != (hs + [h])[j] {
      if j == |hs| {
        assert (hs + [h])[i] == hs[i] && hs[i] in hs;
      } else {
        assert (hs + [h])[i] == hs[i] && (hs + [h])[j] == hs[j];
      }
    }
  }

  /** Ascending categories have pairwise distinct headings. */
  lemma {:induction false} CategoryHeadingsDistinct(cats: seq<int>)
    requires forall i, j :: 0 <= i < j < |cats| ==> cats[i] < cats[j]
    requires forall k :: 0 <= k < |cats| ==> 1 <= cats[k]
    ensures Distinct(CategoryHeadings(cats))
  {
    if cats != [] {
      var init, last := cats[..|cats| - 1], cats[|cats| - 1];
      CategoryHeadingsDistinct(init);
      HeadingNotAmong(init, last);
      DistinctSnoc(CategoryHeadings(init), CategoryHeading(last));
    }
  }

  /** No two category headings of the report are the same. */
  lemma CategoryHeadingsOfReportDistinct(d: UserData)
    ensures Distinct(WithPrefix(ReportLines(d), CATEGORY_PREFIX))
  {
    var cats := NonEmptyCategories(d.answers, CategoryCount);
    CategoryHeadingsOfReport(d);
    forall k | 0 <= k < |cats| ensures 1 <= cats[k] {
      assert cats[k] in cats;
    }
    CategoryHeadingsDistinct(cats);
  }

  lemma HeaderText()
    ensures Unlines(Header()) == TITLE + "\n" + DOUBLE_RULE + "\n" + "\n"
  {
    var h := Header();
    assert h[..2] == [TITLE, DOUBLE_RULE] && h[2] == "";
    assert [TITLE, DOUBLE_RULE][..1] == [TITLE];
    assert [TITLE][..0] == [];
    assert Unlines([TITLE]) == TITLE + "\n";
    assert Unlines([TITLE, DOUBLE_RULE]) == TITLE + "\n" + DOUBLE_RULE + "\n";
  }

  /** The exported text opens with the title line, the '=' rule and an
      empty line, whatever the user has written. */
  lemma ReportTextOpens(d: UserData)
    ensures TITLE + "\n" + DOUBLE_RULE + "\n" + "\n" <= Unlines(ReportLines(d))
  {
    var rest := CategorySections(d.answers, CategoryCount) + GroupSection(d);
    AppendAssoc(Header(), CategorySections(d.answers, CategoryCount), GroupSection(d));
    UnlinesAppend(Header(), rest);
    HeaderText();
    var head, tail := Unlines(Header()), Unlines(rest);
    assert Unlines(ReportLines(d)) == head + tail;
    assert head <= head + tail;
  }

  /** The purposes of the answers that have one, in order. */
  function Purposes(xs: seq<Answer>): (ps: seq<string>)
    ensures |ps| <= |xs|
  {
    if xs == [] then []
    else
      var last := xs[|xs| - 1];
      Purposes(xs[..|xs| - 1]) + (if HasPurpose(last) then [last.purpose.value] else [])
  }

  function PurposeLines(ps: seq<string>): seq<string> {
    if ps == [] then [] else PurposeLines(ps[..|ps| - 1]) + [PurposeLine(ps[|ps| - 1])]
  }

  /** An answer's lines hold a purpose line exactly when its purpose is
      present and non-empty. */
  lemma PurposeLineOfAnswer(a: Answer)
    ensures WithPrefix(AnswerLines(a), PURPOSE_PREFIX)
            == if HasPurpose(a) then [PurposeLine(a.purpose.value)] else []
  {
    var tail := if HasPurpose(a) then [PurposeLine(a.purpose.value)] else [];
    WithPrefixAppend([AnswerLine(a)], tail, PURPOSE_PREFIX);
    assert AnswerLine(a)[0] == IntToString(a.index)[0];
    NotWithPrefix(AnswerLine(a), PURPOSE_PREFIX);
    if HasPurpose(a) {
      assert PURPOSE_PREFIX <= PurposeLine(a.purpose.value);
      assert WithPrefix(tail, PURPOSE_PREFIX) == tail;
    }
  }

  /** Within a category section, a purpose line is written for exactly the
      answers with a non-empty purpose, in their order. */
  lemma {:induction false} PurposeLinesOfAnswers(xs: seq<Answer>)
    ensures WithPrefix(AnswersLines(xs), PURPOSE_PREFIX) == PurposeLines(Purposes(xs))
  {
    if xs != [] {
      var init, last := xs[..|xs| - 1], xs[|xs| - 1];
      PurposeLinesOfAnswers(init);
      PurposeLineOfAnswer(last);
      WithPrefixAppend(AnswersLines(init), AnswerLines(last), PURPOSE_PREFIX);
      var ps := Purposes(xs);
      if HasPurpose(last) {
        assert ps == Purposes(init) + [last.purpose.value];
        assert ps[..|ps| - 1] == Purposes(init);
        assert PurposeLines(ps) == PurposeLines(Purposes(init)) + [PurposeLine(last.purpose.value)];
      } else {
        assert ps == Purposes(init);
      }
    }
  }
}
