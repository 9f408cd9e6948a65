/** `NLPParser.CATEGORY_KEYWORDS`, `INCOME_CATEGORIES` and `_extract_category`:
    every category is scored by how many (word, keyword) pairs are related,
    and the best-scoring category wins, the earliest in the table on ties. */
module Categories {
  import opened Base
  import opened Text

  datatype Category = Category(name: string, keywords: seq<string>)

  /** The keyword table, in its declaration order (which is also dict order). */
  const Table: seq<Category> := [
    Category("餐飲", ["吃", "餐", "飯", "午餐", "晚餐", "早餐", "宵夜", "飲料", "咖啡", "奶茶",
                     "便當", "麵", "火鍋", "燒烤", "外食", "食", "喝", "零食", "點心", "蛋糕"]),
    Category("交通", ["車", "捷運", "公車", "uber", "計程車", "高鐵", "火車", "機票", "加油",
                     "停車", "通勤", "騎", "搭", "坐車", "交通"]),
    Category("娛樂", ["電影", "遊戲", "KTV", "唱歌", "玩", "門票", "旅遊", "遊", "看展",
                     "演唱會", "娛樂", "訂閱", "Netflix", "Spotify"]),
    Category("購物", ["買", "購", "衣服", "鞋", "包", "3C", "電器", "手機", "電腦",
                     "網購", "蝦皮", "淘寶", "百貨", "超市", "便利商店", "全聯"]),
    Category("醫療", ["醫", "藥", "看診", "掛號", "健檢", "牙", "眼科", "診所", "醫院"]),
    Category("居住", ["房租", "水電", "電費", "水費", "瓦斯", "管理費", "網路", "cable",
                     "租金", "房貸", "維修"]),
    Category("教育", ["書", "課", "學費", "補習", "教材", "文具", "考試", "證照", "線上課程"]),
    Category("薪資", ["薪", "薪水", "工資", "發薪", "月薪", "獎金", "年終"]),
    Category("投資", ["股", "基金", "利息", "股利", "配息", "投資收益"]),
    Category("其他收入", ["收入", "入帳", "轉帳收入", "紅包", "禮金", "中獎"])
  ]

  const IncomeCategories: set<string> := {"薪資", "投資", "其他收入"}

  /** `keyword in word or word in keyword`. */
  predicate Related(word: string, keyword: string) {
    Contains(word, keyword) || Contains(keyword, word)
  }

  /** The number of keywords related to one word. */
  function Hits(word: string, keywords: seq<string>): nat {
    if keywords == [] then 0
    else Hits(word, keywords[..|keywords| - 1]) + (if Related(word, keywords[|keywords| - 1]) then 1 else 0)
  }

  /** The number of related (word, keyword) pairs. */
  function Score(words: seq<string>, keywords: seq<string>): nat {
    if words == [] then 0
    else Score(words[..|words| - 1], keywords) + Hits(words[|words| - 1], keywords)
  }

  /** The score of the category at index t of the table. */
  function CategoryScore(words: seq<string>, t: nat): nat
    requires t < |Table|
  {
    Score(words, Table[t].keywords)
  }

  /** Category t wins: it has a positive score, no category scores higher,
      and every earlier category scores strictly lower. */
  predicate IsBest(words: seq<string>, t: nat)
    requires t < |Table|
  {
    && CategoryScore(words, t) > 0
    && (forall u :: 0 <= u < |Table| ==> CategoryScore(words, u) <= CategoryScore(words, t))
    && (forall u :: 0 <= u < t ==> CategoryScore(words, u) < CategoryScore(words, t))
  }

  /** There is at most one winner. */
  lemma BestIsUnique(words: seq<string>, t: nat, u: nat)
    requires t < |Table| && u < |Table| && IsBest(words, t) && IsBest(words, u)
    ensures t == u
  {
  }

  /** A word that is itself a keyword of a category gives that category a positive score. */
  lemma {:induction false} KeywordWordScores(words: seq<string>, keywords: seq<string>, i: nat, j: nat)
    requires i < |words| && j < |keywords| && words[i] == keywords[j]
    ensures Score(words, keywords) > 0
  {
    var w := words[i];
    assert Contains(w, w) by {
      assert w[0..|w|] == w;
      assert OccursAt(w, w, 0);
    }
    HitsPositive(w, keywords, j);
    ScorePositive(words, keywords, i);
  }

  lemma {:induction false} HitsPositive(w: string, keywords: seq<string>, j: nat)
    requires j < |keywords| && Related(w, keywords[j])
    ensures Hits(w, keywords) > 0
    decreases |keywords|
  {
    if j < |keywords| - 1 {
      HitsPositive(w, keywords[..|keywords| - 1], j);
    }
  }

  lemma {:induction false} ScorePositive(words: seq<string>, keywords: seq<string>, i: nat)
    requires i < |words| && Hits(words[i], keywords) > 0
    ensures Score(words, keywords) > 0
    decreases |words|
  {
    if i < |words| - 1 {
      ScorePositive(words[..|words| - 1], keywords, i);
    }
  }

  /** The score loops of `_extract_category` for one category: one point
      per related (word, keyword) pair. */
  method ScoreWords(words: seq<string>, keywords: seq<string>) returns (score: nat)
    ensures score == Score(words, keywords)
  {
    score := 0;
    var w := 0;
    while w < |words|
      invariant 0 <= w <= |words|
      invariant score == Score(words[..w], keywords)
    {
      var k := 0;
      while k < |keywords|
        invariant 0 <= k <= |keywords|
        invariant score == Score(words[..w], keywords) + Hits(words[w], keywords[..k])
      {
        if Contains(words[w], keywords[k]) || Contains(keywords[k], words[w]) {
          score := score + 1;
        }
        assert keywords[..k + 1][..k] == keywords[..k];
        k := k + 1;
      }
      assert keywords[..k] == keywords;
      assert words[..w + 1][..w] == words[..w];
      w := w + 1;
    }
    assert words[..w] == words;
  }

  /** `scores` and `at` hold, in table order, the categories below t with a
      positive score: each with its name and score, and its table index. */
  predicate Collected(words: seq<string>, table: seq<Category>, t: nat, scores: seq<(string, nat)>, at: seq<nat>) {
    && t <= |table|
    && |at| == |scores|
    && (forall m :: 0 <= m < |at| ==> at[m] < t)
    && (forall m :: 0 <= m < |at| ==> scores[m] == (table[at[m]].name, Score(words, table[at[m]].keywords)))
    && (forall m :: 0 <= m < |at| ==> Score(words, table[at[m]].keywords) > 0)
    && (forall m, n :: 0 <= m < n < |at| ==> at[m] < at[n])
    && (forall u :: 0 <= u < t && Score(words, table[u].keywords) > 0 ==> u in at)
  }

  /** A category with a positive score is added at the end. */
  lemma CollectScored(words: seq<string>, table: seq<Category>, t: nat, scores: seq<(string, nat)>, at: seq<nat>)
    requires Collected(words, table, t, scores, at) && t < |table| && Score(words, table[t].keywords) > 0
    ensures Collected(words, table, t + 1, scores + [(table[t].name, Score(words, table[t].keywords))], at + [t])
  {
    var at' := at + [t];
    assert at'[|at|] == t;
    forall u | 0 <= u < t + 1 && Score(words, table[u].keywords) > 0
      ensures u in at'
    {
      if u < t {
        assert u in at;
      }
    }
  }

  /** A category with score 0 is skipped. */
  lemma CollectSkipped(words: seq<string>, table: seq<Category>, t: nat, scores: seq<(string, nat)>, at: seq<nat>)
    requires Collected(words, table, t, scores, at) && t < |table| && Score(words, table[t].keywords) == 0
    ensures Collected(words, table, t + 1, scores, at)
  {
  }

  /** The `scores` dict of `_extract_category` over a keyword table (the
      parser passes `Table`): the categories with a positive score, in table
      order, with the table index of each entry in `at`. */
  method PositiveScores(words: seq<string>, table: seq<Category>) returns (scores: seq<(string, nat)>, ghost at: seq<nat>)
    ensures Collected(words, table, |table|, scores, at)
  {
    scores := [];
    at := [];
    var t := 0;
    while t < |table|
      invariant Collected(words, table, t, scores, at)
    {
      var category := table[t];
      var score := ScoreWords(words, category.keywords);
      if score > 0 {
        CollectScored(words, table, t, scores, at);
        scores := scores + [(category.name, score)];
        at := at + [t];
      } else {
        CollectSkipped(words, table, t, scores, at);
      }
      t := t + 1;
    }
  }

  /** `max(scores, key=scores.get)`: the index of the first entry with the largest score. */
  method FirstMax(scores: seq<(string, nat)>) returns (best: nat)
    requires scores != []
    ensures best < |scores|
    ensures forall m :: 0 <= m < |scores| ==> scores[m].1 <= scores[best].1
    ensures forall m :: 0 <= m < best ==> scores[m].1 < scores[best].1
  {
    best := 0;
    var j := 1;
    while j < |scores|
      invariant 0 <= best < j <= |scores|
      invariant forall m :: 0 <= m < j ==> scores[m].1 <= scores[best].1
      invariant forall m :: 0 <= m < best ==> scores[m].1 < scores[best].1
    {
      if scores[j].1 > scores[best].1 {
        best := j;
      }
      j := j + 1;
    }
  }

  /** `_extract_category`, with the jieba segmentation of the text given as `words`. */
  method ExtractCategory(words: seq<string>) returns (r: Option<string>)
    ensures r.None? <==> forall t :: 0 <= t < |Table| ==> CategoryScore(words, t) == 0
    ensures r.Some? ==> exists t :: 0 <= t < |Table| && Table[t].name == r.value && IsBest(words, t)
  {
    var scores, at := PositiveScores(words, Table);
    if scores == [] {
      forall u | 0 <= u < |Table|
        ensures CategoryScore(words, u) == 0
      {
        assert u !in at;
      }
      return None;
    }
    var best := FirstMax(scores);
    r := Some(scores[best].0);
    var b := at[best];
    forall u | 0 <= u < |Table|
      ensures CategoryScore(words, u) <= CategoryScore(words, b)
    {
      if CategoryScore(words, u) > 0 {
        var m :| 0 <= m < |at| && at[m] == u;
        assert scores[m].1 <= scores[best].1;
      }
    }
    forall u | 0 <= u < b
      ensures CategoryScore(words, u) < CategoryScore(words, b)
    {
      if CategoryScore(words, u) > 0 {
        var m :| 0 <= m < |at| && at[m] == u;
        assert at[m] < at[best];
        assert m < best;
        assert scores[m].1 < scores[best].1;
      }
    }
    assert IsBest(words, b);
  }
}
