/** The record schema of the value-hierarchy data (lib/types.ts): answers,
    groups, insights, the aggregate UserData, and the fixed catalogue of the
    eight categories. */
module Types {

  datatype Option<+T> = None | Some(value: T)

  /** One free-text answer in the slot (category, index). `purpose` is the
      "what is it for?" note, `groupId` the group the summary screen put it in. */
  datatype Answer = Answer(
    id: int,
    category: int,
    index: int,
    text: string,
    purpose: Option<string>,
    groupId: Option<string>)

  /** A user-defined cluster of answers; `caption` is the source's `label`
      (a reserved word in Dafny). `answerIds` is kept as it was at
      creation time; nothing prunes it later. */
  datatype Group = Group(id: string, caption: string, color: string, answerIds: seq<int>)

  /** The reflection ("why do you do it?") attached to one group. */
  datatype Insight = Insight(groupId: string, reflection: string)

  /** The aggregate that is persisted as a whole. */
  datatype UserData = UserData(
    answers: seq<Answer>,
    groups: seq<Group>,
    insights: seq<Insight>,
    timestamp: int)

  datatype Category = Category(
    id: int,
    title: string,
    description: string,
    guidance: string,
    examples: seq<string>)

  const CategoryCount := 8
  const AnswersPerCategory := 3

  /** The documented ranges of an answer slot: category 1..8, index 1..3. */
  predicate ValidSlot(category: int, index: int) {
    1 <= category <= CategoryCount && 1 <= index <= AnswersPerCategory
  }

  /** The identity of the answer in slot (category, index); there is no
      other id allocator. */
  function AnswerId(category: int, index: int): int {
    (category - 1) * AnswersPerCategory + index
  }

  /** The slot an id in 1..24 stands for: the inverse of AnswerId. */
  function SlotOf(id: int): (slot: (int, int))
    requires 1 <= id <= CategoryCount * AnswersPerCategory
    ensures ValidSlot(slot.0, slot.1)
    ensures AnswerId(slot.0, slot.1) == id
  {
    ((id - 1) / AnswersPerCategory + 1, (id - 1) % AnswersPerCategory + 1)
  }

  /** Every valid slot has an id in 1..24, and the slot can be read back
      from it, so distinct slots have distinct ids. */
  lemma AnswerIdBijective(category: int, index: int)
    requires ValidSlot(category, index)
    ensures 1 <= AnswerId(category, index) <= CategoryCount * AnswersPerCategory
    ensures SlotOf(AnswerId(category, index)) == (category, index)
  {
    var id := AnswerId(category, index);
    assert id - 1 == (category - 1) * 3 + (index - 1);
    assert (id - 1) / 3 == category - 1;
  }

  lemma AnswerIdInjective(c1: int, i1: int, c2: int, i2: int)
    requires ValidSlot(c1, i1) && ValidSlot(c2, i2)
    requires AnswerId(c1, i1) == AnswerId(c2, i2)
    ensures c1 == c2 && i1 == i2
  {
    AnswerIdBijective(c1, i1);
    AnswerIdBijective(c2, i2);
  }

  /** The documented shape of one answer record: a valid slot whose id is
      the slot's id. */
  predicate SlotConsistent(a: Answer) {
    ValidSlot(a.category, a.index) && a.id == AnswerId(a.category, a.index)
  }

  predicate DistinctAnswerIds(answers: seq<Answer>) {
    forall i, j :: 0 <= i < j < |answers| ==> answers[i].id != answers[j].id
  }

  predicate DistinctGroupIds(groups: seq<Group>) {
    forall i, j :: 0 <= i < j < |groups| ==> groups[i].id != groups[j].id
  }

  predicate DistinctInsightKeys(insights: seq<Insight>) {
    forall i, j :: 0 <= i < j < |insights| ==> insights[i].groupId != insights[j].groupId
  }

  /** An answer's groupId, when present, names a group that lists the answer. */
  predicate GroupRefsResolve(d: UserData) {
    forall a :: a in d.answers && a.groupId.Some? ==>
      exists g :: g in d.groups && g.id == a.groupId.value && a.id in g.answerIds
  }

  /** The keying rules of the aggregate: answers unique by id and in their
      slot, groups unique by id, insights unique by groupId, and every
      answer's group reference resolvable. */
  predicate WellFormed(d: UserData) {
    && (forall a :: a in d.answers ==> SlotConsistent(a))
    && DistinctAnswerIds(d.answers)
    && DistinctGroupIds(d.groups)
    && DistinctInsightKeys(d.insights)
    && GroupRefsResolve(d)
  }

  /** The answers of one category, in stored order (`answers.filter(a => a.category === cat)`). */
  function InCategory(answers: seq<Answer>, cat: int): (r: seq<Answer>)
    ensures |r| <= |answers|
    ensures forall a :: a in r <==> a in answers && a.category == cat
  {
    if answers == [] then []
    else (if answers[0].category == cat then [answers[0]] else []) + InCategory(answers[1..], cat)
  }

  const CATEGORIES: seq<Category> := [
    Category(1, "空間の使い方", "あなたの空間を最も占めているものは何？",
      "自宅の自分のスペース（部屋、書斎等）や仕事場において置いているもの、飾っているもの、何に関連するものが多いか、特に目につくものを3つ挙げます。パソコンやスマートフォンがある人は、その中にあるアプリやウェブサイトを挙げてください。",
      ["本棚に並ぶビジネス書", "デスクの上のカメラ機材", "壁に飾られた家族の写真"]),
    Category(2, "時間の使い方", "あなたが最も時間を費やしている活動は何？",
      "あなたが最も時間を費やしていることは何？3つ挙げてみましょう。手帳やカレンダーで実際に確認してみましょう。",
      ["読書で知識を得ること", "家族との時間", "仕事のプロジェクト"]),
    Category(3, "エネルギーの注ぎ方", "あなたが最もエネルギーを注いでいるものは何？",
      "何をしているとき、活力が溢れてきますか？あなたが夢中になって取り組めること、また、それをする前よりする後の方が元気になるようなことを3つ挙げましょう。",
      ["新しい技術の学習", "チームでの問題解決", "創作活動"]),
    Category(4, "お金の使い方", "あなたが最もお金を使っていることは何？",
      "あなたが最もお金を使って買っているモノ、サービス、または情報は何？実際に自分が3ヶ月の間に使ったお金を思い出し、3つ書き出してみましょう。",
      ["オンライン学習コース", "健康食品・サプリメント", "旅行・体験"]),
    Category(5, "思考の傾向", "あなたが最もよく想像し、実現化しているものは何？",
      "あなたが最もよく想像している、人生で実現したいこと（なりたい状態、したいこと、手に入れたい物）は何？また、実現化している、実現に近づいていることは何？3つ挙げましょう。",
      ["独立して自分のビジネスを持つ", "海外で働く経験", "専門性を高める"]),
    Category(6, "コミュニケーション", "あなたがよく他人に話しかける話題は何？",
      "他人と話をするとき、どんな話題を持ちかけますか？または、SNSやブログで発信していることは何？相手と話したい、長時間話し続けていても楽しいことは何？3つ挙げましょう。",
      ["最新のテクノロジー", "子育ての工夫", "趣味のアウトドア"]),
    Category(7, "学習の方向性", "あなたが最も学びたい、知りたいことは何？",
      "あなたが最も知りたいこと、より深く学びたいこと、興味を抱いていることは何？よくネットで検索すること、書店でよく行くコーナーなどを考えながら3つ挙げましょう。",
      ["AI・機械学習", "心理学", "投資・資産運用"]),
    Category(8, "自己管理", "あなたが最も律することができているもの、整理整頓できているものは何？",
      "あなたが日常生活で、最も自分を制し、律することができていることは何？または、整理整頓できている場所、事柄は何？3つ挙げてみましょう。",
      ["毎朝のランニング習慣", "デスク周りの整理", "タスク管理"])
  ]

  /** The catalogue lists categories 1..8 in order, three examples each. */
  lemma CatalogueShape()
    ensures |CATEGORIES| == CategoryCount
    ensures forall k :: 0 <= k < |CATEGORIES| ==> CATEGORIES[k].id == k + 1
    ensures forall k :: 0 <= k < |CATEGORIES| ==> |CATEGORIES[k].examples| == AnswersPerCategory
  {
  }
}
