/**
 * The static question table (src/data/questions.ts): fifteen everyday questions, eight
 * praise cards and eight heart cards, in that order. Each card's id is its category's
 * name, an underscore and its 1-based number within the category.
 */
module QuestionPool {
  import opened GameContext
  import Strings

  /** The category's name as it appears in ids and in the `category` field. */
  function CategoryName(c: Category): (name: string)
    ensures 1 <= |name| && name[0] != '_'
  {
    match c
    case Normal => "normal"
    case Praise => "praise"
    case Heart => "heart"
  }

  /** The id of the `k`-th card of category `c`, such as "praise_3". */
  function IdOf(c: Category, k: nat): string {
    CategoryName(c) + "_" + Strings.NatToString(k)
  }

  /** The cards of one category, numbered from 1 in table order. */
  function Block(c: Category, texts: seq<string>): (qs: seq<Question>)
    ensures |qs| == |texts|
  {
    seq(|texts|, k requires 0 <= k < |texts| => Question(IdOf(c, k + 1), texts[k], c))
  }

  const NormalTexts: seq<string> := [
    "오늘 가장 기뻤던 순간은 언제였나요?",
    "어렸을 때 가장 좋아했던 놀이는 무엇이었나요?",
    "지금 가장 하고 싶은 일이 있다면 무엇인가요?",
    "가족과 함께 가보고 싶은 여행지가 있나요?",
    "요즘 새로 시작해보고 싶은 취미가 있나요?",
    "어떤 음식을 먹을 때 가장 행복한가요?",
    "스트레스를 받을 때 어떻게 해소하시나요?",
    "가장 기억에 남는 생일선물은 무엇이었나요?",
    "꿈에서 가장 신기했던 경험이 있나요?",
    "하루 중 가장 좋아하는 시간대는 언제인가요?",
    "어떤 날씨에 기분이 가장 좋아지나요?",
    "가장 좋아하는 계절과 그 이유를 말해주세요.",
    "친구들과 함께 할 때 가장 재미있는 활동은 무엇인가요?",
    "어떤 색깔을 보면 기분이 좋아지나요?",
    "가장 기억에 남는 가족 추억을 들려주세요."
  ]

  const PraiseTexts: seq<string> := [
    "왼쪽에 앉은 사람의 가장 멋진 점을 말해주세요.",
    "오른쪽에 앉은 사람이 잘하는 것을 칭찬해주세요.",
    "함께 있는 사람들 중에서 가장 웃음이 예쁜 사람을 칭찬해주세요.",
    "모든 사람에게 각각 다른 칭찬을 한 가지씩 해주세요.",
    "가장 친절하다고 생각하는 사람에게 감사 인사를 해주세요.",
    "함께 있는 사람 중에서 가장 멋진 장점을 가진 사람을 칭찬해주세요.",
    "나이가 가장 많은 사람의 지혜로운 점을 칭찬해주세요.",
    "나이가 가장 적은 사람의 밝은 에너지를 칭찬해주세요."
  ]

  const HeartTexts: seq<string> := [
    "지금 이 순간이 행복한 이유를 말해주세요.",
    "가족(친구들)과 함께 있어서 가장 고마운 점은 무엇인가요?",
    "사랑한다는 말을 가장 하고 싶은 사람은 누구인가요?",
    "함께 있는 모든 사람에게 '고마워요'라고 말해주세요.",
    "마음속 깊이 간직하고 있는 소중한 기억을 나눠주세요.",
    "지금 가장 사랑받고 있다고 느끼는 순간은 언제인가요?",
    "함께 있는 사람들에게 하고 싶은 따뜻한 말을 해주세요.",
    "어떨 때 가장 마음이 따뜻해지는지 말해주세요."
  ]

  const Questions: seq<Question> :=
    Block(Normal, NormalTexts) + Block(Praise, PraiseTexts) + Block(Heart, HeartTexts)

  /** `questions.filter(q => q.category === c)`, keeping table order. */
  function OfCategory(qs: seq<Question>, c: Category): (r: seq<Question>)
    ensures |r| <= |qs|
    ensures forall q :: q in r <==> q in qs && q.category == c
  {
    if |qs| == 0 then []
    else (if qs[0].category == c then [qs[0]] else []) + OfCategory(qs[1..], c)
  }

  /** The filter keeps every card of the category as often as the table lists it, and no other card. */
  lemma {:induction false} OfCategoryCounts(qs: seq<Question>, c: Category)
    ensures forall q :: multiset(OfCategory(qs, c))[q] == if q.category == c then multiset(qs)[q] else 0
    decreases |qs|
  {
    if |qs| > 0 {
      assert qs == [qs[0]] + qs[1..];
      OfCategoryCounts(qs[1..], c);
    }
  }

  lemma {:induction false} OfCategoryConcat(a: seq<Question>, b: seq<Question>, c: Category)
    ensures OfCategory(a + b, c) == OfCategory(a, c) + OfCategory(b, c)
    decreases |a|
  {
    if |a| == 0 {
      assert a + b == b;
    } else {
      assert (a + b)[1..] == a[1..] + b;
      OfCategoryConcat(a[1..], b, c);
    }
  }

  /** Filtering a block by its own category keeps it whole; by another category, drops it. */
  lemma {:induction false} OfCategoryBlock(c: Category, texts: seq<string>, d: Category)
    ensures OfCategory(Block(c, texts), d) == if c == d then Block(c, texts) else []
    decreases |texts|
  {
    if |texts| > 0 {
      var b := Block(c, texts);
      var front := texts[..|texts| - 1];
      assert b == Block(c, front) + [b[|b| - 1]];
      OfCategoryBlock(c, front, d);
      OfCategoryConcat(Block(c, front), [b[|b| - 1]], d);
    }
  }

  /** The pool has 31 cards: 15 normal, then 8 praise, then 8 heart. */
  lemma PoolLayout()
    ensures |Questions| == 31
    ensures forall i :: 0 <= i < 15 ==> Questions[i].category == Normal
    ensures forall i :: 15 <= i < 23 ==> Questions[i].category == Praise
    ensures forall i :: 23 <= i < 31 ==> Questions[i].category == Heart
  {
  }

  /** Filtering distributes over a concatenation of three lists. */
  lemma OfCategoryConcat3(a: seq<Question>, b: seq<Question>, d: seq<Question>, c: Category)
    ensures OfCategory(a + b + d, c) == OfCategory(a, c) + OfCategory(b, c) + OfCategory(d, c)
  {
    OfCategoryConcat(a + b, d, c);
    OfCategoryConcat(a, b, c);
  }

  /** Filtering three blocks, one per category, gives back the block of the chosen category. */
  lemma OfCategoryThree(tn: seq<string>, tp: seq<string>, th: seq<string>, c: Category)
    ensures OfCategory(Block(Normal, tn) + Block(Praise, tp) + Block(Heart, th), c)
            == if c == Normal then Block(Normal, tn)
               else if c == Praise then Block(Praise, tp)
               else Block(Heart, th)
  {
    var n, p, h := Block(Normal, tn), Block(Praise, tp), Block(Heart, th);
    OfCategoryConcat3(n, p, h, c);
    var fn, fp, fh := OfCategory(n, c), OfCategory(p, c), OfCategory(h, c);
    OfCategoryBlock(Normal, tn, c);
    OfCategoryBlock(Praise, tp, c);
    OfCategoryBlock(Heart, th, c);
    if c == Normal {
      assert fn + fp + fh == n + [] + [] == n;
    } else if c == Praise {
      assert fn + fp + fh == [] + p + [] == p;
    } else {
      assert fn + fp + fh == [] + [] + h == h;
    }
  }

  /**
   * Filtering the table by a category gives exactly that category's block, in table order,
   * so the card the board picks at index `k` is the category's `k`-th card.
   */
  lemma CategoryLists(c: Category)
    ensures OfCategory(Questions, c)
            == if c == Normal then Block(Normal, NormalTexts)
               else if c == Praise then Block(Praise, PraiseTexts)
               else Block(Heart, HeartTexts)
  {
    OfCategoryThree(NormalTexts, PraiseTexts, HeartTexts, c);
  }

  /** Each category holds as many cards as the table lists, so no filter the board uses is empty. */
  lemma {:induction false} CategorySizes()
    ensures |OfCategory(Questions, Normal)| == 15
    ensures |OfCategory(Questions, Praise)| == 8
    ensures |OfCategory(Questions, Heart)| == 8
    ensures forall c: Category :: |OfCategory(Questions, c)| > 0
  {
    CategoryLists(Normal);
    CategoryLists(Praise);
    CategoryLists(Heart);
  }

  /** Every card's position in the table determines its category and its number. */
  lemma CardAt(i: int)
    requires 0 <= i < |Questions|
    ensures Questions[i].id == IdOf(Questions[i].category, Ordinal(i))
  {
  }

  /** The 1-based number of the card at table index `i` within its category. */
  function Ordinal(i: int): (k: nat)
    requires 0 <= i < 31
    ensures 1 <= k <= 15
  {
    if i < 15 then i + 1 else if i < 23 then i - 14 else i - 22
  }

  /** Every id starts with the name of its card's category. */
  lemma IdNamesCategory(i: int)
    requires 0 <= i < |Questions|
    ensures CategoryName(Questions[i].category) + "_" <= Questions[i].id
  {
  }

  /** No two cards share an id. */
  lemma IdsDistinct(i: int, j: int)
    requires 0 <= i < j < |Questions|
    ensures Questions[i].id != Questions[j].id
  {
    var qi, qj := Questions[i], Questions[j];
    CardAt(i);
    CardAt(j);
    if qi.category != qj.category {
      assert qi.id[0] == CategoryName(qi.category)[0];
      assert qj.id[0] == CategoryName(qj.category)[0];
    } else {
      var pre := CategoryName(qi.category) + "_";
      assert Ordinal(i) != Ordinal(j);
      Strings.NatToStringInjective(Ordinal(i), Ordinal(j));
      PrefixCancels(pre, Strings.NatToString(Ordinal(i)), Strings.NatToString(Ordinal(j)));
    }
  }

  lemma PrefixCancels(pre: string, a: string, b: string)
    ensures pre + a == pre + b ==> a == b
  {
    if pre + a == pre + b {
      assert a == (pre + a)[|pre|..];
      assert b == (pre + b)[|pre|..];
    }
  }

  /** The ids are the literal ones of the table, for instance its first and last. */
  lemma LiteralIds()
    ensures Questions[0].id == "normal_1"
    ensures Questions[14].id == "normal_15"
    ensures Questions[30].id == "heart_8"
  {
  }
}
