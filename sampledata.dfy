/** The demonstration aggregate (lib/sampleData.ts): eight categories of
    three answers each, sorted into seven groups, with no reflections yet.
    Its timestamp is the clock reading taken when the module is loaded,
    passed in here as `now`. */
module SampleData {
  import opened Types
  import Storage
  import Summary

  const SAMPLE_ANSWERS: seq<Answer> := [
    Answer(1, 1, 1, "会社のデスク周りの整理整頓された書類", None, Some("group-work")),
    Answer(2, 1, 2, "自宅のテーブルにある資格試験のテキスト", Some("今のスキルのままでは将来が不安で、何か手に職をつけたいから"), Some("group-prep")),
    Answer(3, 1, 3, "部屋の隅にある癒やしの観葉植物", None, Some("group-healing")),
    Answer(4, 2, 1, "会社での事務作業と調整業務", None, Some("group-work")),
    Answer(5, 2, 2, "寝る前のSNSチェックと将来に関する検索", Some("周りの友人の生活が気になったり、自分のキャリアの正解を探してしまうため"), Some("group-anxiety")),
    Answer(6, 2, 3, "週末の作り置きと家事", None, Some("group-life")),
    Answer(7, 3, 1, "職場での人間関係への気配り", None, Some("group-connect")),
    Answer(8, 3, 2, "ミスなく業務を遂行すること", Some("評価を下げたくない、安定した立場を失いたくないという思いがあるため"), Some("group-work")),
    Answer(9, 3, 3, "週末の友人とのお茶でのストレス発散", None, Some("group-healing")),
    Answer(10, 4, 1, "毎月の積立NISAとiDeCo", None, Some("group-prep")),
    Answer(11, 4, 2, "美容院や化粧品などの身だしなみ", Some("社会人として最低限のマナーを保ちつつ、少しでも自信を持ちたいため"), Some("group-life")),
    Answer(12, 4, 3, "たまの自分へのご褒美（スイーツやランチ）", None, Some("group-healing")),
    Answer(13, 5, 1, "「このまま会社にいていいのか」という漠然とした不安", None, Some("group-anxiety")),
    Answer(14, 5, 2, "結婚や出産とキャリアの両立への焦り", Some("年齢的なリミットや、ロールモデルが近くにいないことで悩んでいるため"), Some("group-anxiety")),
    Answer(15, 5, 3, "副業や転職で環境を変えるシミュレーション", None, Some("group-growth")),
    Answer(16, 6, 1, "職場の同僚との業務連絡やランチでの会話", None, Some("group-work")),
    Answer(17, 6, 2, "学生時代の友人との近況報告会", Some("お互いのライフステージの変化を確認し、自分だけが取り残されていないか安心したいため"), Some("group-connect")),
    Answer(18, 6, 3, "実家の親への定期的な連絡", None, Some("group-connect")),
    Answer(19, 7, 1, "TOEICや英語学習", None, Some("group-growth")),
    Answer(20, 7, 2, "簿記やFPなどのお金の知識", Some("会社の給料だけに頼らず、自分で資産を守れるようになりたいため"), Some("group-prep")),
    Answer(21, 7, 3, "転職サイトやキャリア形成の記事", None, Some("group-growth")),
    Answer(22, 8, 1, "毎日のスキンケアとサプリメント", None, Some("group-life")),
    Answer(23, 8, 2, "自炊による食費と健康の管理", Some("将来のために少しでも貯金をしつつ、体調を崩さないようにするため"), Some("group-life")),
    Answer(24, 8, 3, "手帳でのスケジュールとTo Do管理", None, Some("group-life"))
  ]

  const SAMPLE_GROUPS: seq<Group> := [
    Group("group-prep", "将来への備え", "hsl(120, 70%, 60%)", [2, 10, 20]),
    Group("group-work", "職場での役割遂行", "hsl(240, 70%, 60%)", [1, 4, 8, 16]),
    Group("group-healing", "心の安定・リフレッシュ", "hsl(320, 70%, 60%)", [3, 9, 12]),
    Group("group-connect", "他者との繋がり", "hsl(180, 70%, 60%)", [7, 17, 18]),
    Group("group-anxiety", "現状への不安・焦り", "hsl(280, 70%, 60%)", [5, 13, 14]),
    Group("group-growth", "自己成長・キャリア", "hsl(0, 70%, 60%)", [15, 19, 21]),
    Group("group-life", "生活規律・健康", "hsl(30, 70%, 60%)", [6, 11, 22, 23, 24])
  ]

  /** `SAMPLE_DATA`, stamped with the time it was built. */
  function SampleData(now: int): UserData {
    UserData(SAMPLE_ANSWERS, SAMPLE_GROUPS, [], now)
  }

  // ---------------------------------------------------------------------
  // Facts read off the literal.

  /** The answers fill the slots in order: the k-th answer has id k+1 and
      sits in the slot that id stands for. */
  lemma SampleIds()
    ensures |SAMPLE_ANSWERS| == CategoryCount * AnswersPerCategory
    ensures forall i :: 0 <= i < |SAMPLE_ANSWERS| ==>
              SAMPLE_ANSWERS[i].id == i + 1 && SlotConsistent(SAMPLE_ANSWERS[i])
  {
  }

  /** Only the second answer of each category carries a purpose. */
  lemma SamplePurposes()
    ensures forall i :: 0 <= i < |SAMPLE_ANSWERS| ==>
              (SAMPLE_ANSWERS[i].purpose.Some? <==> SAMPLE_ANSWERS[i].index == 2)
  {
  }

  /** The seven groups have distinct ids and take their colours from the
      summary screen's palette. */
  lemma SampleGroupIds()
    ensures |SAMPLE_GROUPS| == 7 && DistinctGroupIds(SAMPLE_GROUPS)
    ensures forall g :: g in SAMPLE_GROUPS ==> g.color in Summary.GROUP_COLORS
  {
  }

  /** Each answer names one of the seven groups, and that group lists it. */
  lemma SampleNamesOwn()
    ensures forall i :: 0 <= i < |SAMPLE_ANSWERS| ==> OneOfSeven(SAMPLE_ANSWERS[i], SAMPLE_GROUPS)
  {
    SampleNamesOwnFirstHalf();
    SampleNamesOwnSecondHalf();
  }

  lemma SampleNamesOwnFirstHalf()
    ensures forall i :: 0 <= i < 12 ==> OneOfSeven(SAMPLE_ANSWERS[i], SAMPLE_GROUPS)
  {
  }

  lemma SampleNamesOwnSecondHalf()
    ensures forall i :: 12 <= i < 24 ==> OneOfSeven(SAMPLE_ANSWERS[i], SAMPLE_GROUPS)
  {
  }

  /** No id is listed by two groups. */
  lemma SampleDisjoint()
    ensures forall k, l, x :: 0 <= k < l < |SAMPLE_GROUPS| && x in SAMPLE_GROUPS[k].answerIds ==>
              x !in SAMPLE_GROUPS[l].answerIds
  {
    SampleDisjointFrom(0, 2);
    SampleDisjointFrom(2, 4);
    SampleDisjointFrom(4, 7);
  }

  lemma SampleDisjointFrom(lo: int, hi: int)
    requires (lo, hi) == (0, 2) || (lo, hi) == (2, 4) || (lo, hi) == (4, 7)
    ensures forall k, l, x :: lo <= k < hi && k < l < |SAMPLE_GROUPS| && x in SAMPLE_GROUPS[k].answerIds ==>
              x !in SAMPLE_GROUPS[l].answerIds
  {
  }

  /** The listed ids are slot ids, and every slot id is listed. */
  lemma SampleListsSlots()
    ensures forall k, x :: 0 <= k < |SAMPLE_GROUPS| && x in SAMPLE_GROUPS[k].answerIds ==>
              1 <= x <= CategoryCount * AnswersPerCategory
    ensures forall x :: 1 <= x <= CategoryCount * AnswersPerCategory ==> ListedBySeven(x, SAMPLE_GROUPS)
  {
  }

  // ---------------------------------------------------------------------
  // The same facts, for any seven groups.

  /** The answer names group k (one of the first seven) and that group lists it. */
  predicate OneOfSeven(a: Answer, groups: seq<Group>)
    requires |groups| >= 7
  {
    || (a.groupId == Some(groups[0].id) && a.id in groups[0].answerIds)
    || (a.groupId == Some(groups[1].id) && a.id in groups[1].answerIds)
    || (a.groupId == Some(groups[2].id) && a.id in groups[2].answerIds)
    || (a.groupId == Some(groups[3].id) && a.id in groups[3].answerIds)
    || (a.groupId == Some(groups[4].id) && a.id in groups[4].answerIds)
    || (a.groupId == Some(groups[5].id) && a.id in groups[5].answerIds)
    || (a.groupId == Some(groups[6].id) && a.id in groups[6].answerIds)
  }

  /** One of the first seven groups lists x. */
  predicate ListedBySeven(x: int, groups: seq<Group>)
    requires |groups| >= 7
  {
    || x in groups[0].answerIds || x in groups[1].answerIds || x in groups[2].answerIds
    || x in groups[3].answerIds || x in groups[4].answerIds || x in groups[5].answerIds
    || x in groups[6].answerIds
  }

  lemma OneOfSevenResolves(d: UserData, a: Answer)
    requires |d.groups| >= 7 && OneOfSeven(a, d.groups)
    ensures a.groupId.Some?
    ensures exists g :: g in d.groups && g.id == a.groupId.value && a.id in g.answerIds
  {
    var G := d.groups;
    var k :=
      if a.groupId == Some(G[0].id) && a.id in G[0].answerIds then 0
      else if a.groupId == Some(G[1].id) && a.id in G[1].answerIds then 1
      else if a.groupId == Some(G[2].id) && a.id in G[2].answerIds then 2
      else if a.groupId == Some(G[3].id) && a.id in G[3].answerIds then 3
      else if a.groupId == Some(G[4].id) && a.id in G[4].answerIds then 4
      else if a.groupId == Some(G[5].id) && a.id in G[5].answerIds then 5
      else 6;
    assert G[k] in G;
  }

  lemma ListedBySevenListed(x: int, groups: seq<Group>)
    requires |groups| >= 7 && ListedBySeven(x, groups)
    ensures x in Listed(groups)
  {
    var k :=
      if x in groups[0].answerIds then 0
      else if x in groups[1].answerIds then 1
      else if x in groups[2].answerIds then 2
      else if x in groups[3].answerIds then 3
      else if x in groups[4].answerIds then 4
      else if x in groups[5].answerIds then 5
      else 6;
    assert x in groups[k].answerIds;
  }

  /** The ids the groups list, all together. */
  function Listed(groups: seq<Group>): (s: set<int>)
    ensures forall k, x :: 0 <= k < |groups| && x in groups[k].answerIds ==> x in s
  {
    set k, x | 0 <= k < |groups| && x in groups[k].answerIds :: x
  }

  // ---------------------------------------------------------------------
  // What the fixture is for.

  /** The seven groups partition the 24 slot ids: no id is listed twice,
      and the listed ids are exactly 1..24. */
  lemma SamplePartition()
    ensures forall k, l, x :: 0 <= k < l < |SAMPLE_GROUPS| && x in SAMPLE_GROUPS[k].answerIds ==>
              x !in SAMPLE_GROUPS[l].answerIds
    ensures Listed(SAMPLE_GROUPS) == Storage.Interval(1, CategoryCount * AnswersPerCategory + 1)
  {
    SampleDisjoint();
    SampleGroupIds();
    SampleListsSlots();
    forall x | x in Storage.Interval(1, CategoryCount * AnswersPerCategory + 1)
      ensures x in Listed(SAMPLE_GROUPS)
    {
      ListedBySevenListed(x, SAMPLE_GROUPS);
    }
  }

  /** The fixture obeys every keying rule of the aggregate, every answer in
      it is grouped, and it has no reflections yet. */
  lemma SampleWellFormed(now: int)
    ensures WellFormed(SampleData(now))
    ensures forall a :: a in SampleData(now).answers ==> a.groupId.Some?
    ensures SampleData(now).insights == [] && SampleData(now).timestamp == now
  {
    var d := SampleData(now);
    SampleIds();
    SampleGroupIds();
    SampleNamesOwn();
    forall a | a in d.answers
      ensures SlotConsistent(a) && a.groupId.Some?
      ensures exists g :: g in d.groups && g.id == a.groupId.value && a.id in g.answerIds
    {
      var i :| 0 <= i < |d.answers| && d.answers[i] == a;
      OneOfSevenResolves(d, a);
    }
  }

  /** Every slot of the catalogue is filled: a reader finds an answer under
      each of the 24 ids. */
  lemma SampleFillsEverySlot(category: int, index: int)
    requires ValidSlot(category, index)
    ensures Storage.FindAnswer(SAMPLE_ANSWERS, AnswerId(category, index)).Some?
  {
    SampleIds();
    AnswerIdBijective(category, index);
    var id := AnswerId(category, index);
    assert SAMPLE_ANSWERS[id - 1].id == id;
  }
}
