/** Keyword scoring (`rate_content`): every item earns 10 points per fixed
    keyword found, case-insensitively, in its title or description, and the
    list is then ranked by score, highest first. */
module Rating {
  import opened Wrappers
  import opened Ascii
  import opened Content
  import opened Ranking

  /** The fixed research keywords, as the application lists them. */
  const Keywords: seq<string> := ["Bayesian", "sports science", "health analytics", "peer-reviewed"]

  /** Documents the spellings actually searched for: "Bayesian" is the only
      keyword that lower-casing changes. */
  lemma SearchedKeywords()
    ensures Lower(Keywords[0]) == "bayesian"
    ensures forall i :: 1 <= i < |Keywords| ==> Lower(Keywords[i]) == Keywords[i]
  {
    assert Lower("Bayesian")[0] == 'b';
  }

  /** Points awarded per keyword found. */
  const KeywordPoints: nat := 10

  /** `item.get(key, "")`: a missing field reads as the empty string. */
  function FieldText(f: Option<string>): (r: string)
    ensures f.Some? ==> r == f.value
    ensures f.None? ==> r == ""
  {
    match f
    case Some(t) => t
    case None => ""
  }

  /** The keyword, lowered, occurs in the lowered title or the lowered
      description. */
  predicate Mentions(keyword: string, title: string, description: string)
    ensures Mentions(keyword, title, description) <==>
      (exists i :: OccursAt(title, Lower(keyword), i)) || (exists i :: OccursAt(description, Lower(keyword), i))
  {
    Contains(title, Lower(keyword)) || Contains(description, Lower(keyword))
  }

  /** The keyword loop: points for each listed keyword that `Mentions`
      reports for the (already lowered) title and description. */
  function ScoreOver(keywords: seq<string>, title: string, description: string): (r: nat)
    ensures r % KeywordPoints == 0
    ensures r <= KeywordPoints * |keywords|
    ensures r == 0 <==> forall i :: 0 <= i < |keywords| ==> !Mentions(keywords[i], title, description)
  {
    if |keywords| == 0 then 0
    else
      (if Mentions(keywords[0], title, description) then KeywordPoints else 0)
      + ScoreOver(keywords[1..], title, description)
  }

  /** The score `rate_content` gives one item. */
  function Score(x: Item): (r: nat)
    ensures r % KeywordPoints == 0 && r <= 40
  {
    ScoreOver(Keywords, Lower(FieldText(x.title)), Lower(FieldText(x.description)))
  }

  /** The set of distinct keywords among `keywords` that are mentioned. */
  ghost function MatchedIn(keywords: seq<string>, title: string, description: string): set<string> {
    set k | k in keywords && Mentions(k, title, description)
  }

  /** The set of distinct keywords an item mentions in either field. */
  ghost function Matched(x: Item): set<string> {
    MatchedIn(Keywords, Lower(FieldText(x.title)), Lower(FieldText(x.description)))
  }

  lemma MatchedInCons(keywords: seq<string>, title: string, description: string)
    requires |keywords| > 0
    ensures MatchedIn(keywords, title, description)
      == (if Mentions(keywords[0], title, description) then {keywords[0]} else {})
         + MatchedIn(keywords[1..], title, description)
  {
    assert keywords == [keywords[0]] + keywords[1..];
  }

  predicate Distinct(s: seq<string>) {
    forall i, j :: 0 <= i < j < |s| ==> s[i] != s[j]
  }

  /** The four keywords are pairwise different (they differ in length). */
  lemma KeywordsDistinct()
    ensures Distinct(Keywords)
  {
    assert |Keywords[0]| == 8 && |Keywords[1]| == 14;
    assert |Keywords[2]| == 16 && |Keywords[3]| == 13;
  }

  /** For distinct keywords the loop's total is 10 per distinct keyword
      found, however many fields it is found in. */
  lemma {:induction false} ScoreOverCountsKeywords(keywords: seq<string>, title: string, description: string)
    requires Distinct(keywords)
    ensures ScoreOver(keywords, title, description) == KeywordPoints * |MatchedIn(keywords, title, description)|
    decreases |keywords|
  {
    if |keywords| == 0 {
      assert MatchedIn(keywords, title, description) == {};
    } else {
      var rest := MatchedIn(keywords[1..], title, description);
      ScoreOverCountsKeywords(keywords[1..], title, description);
      MatchedInCons(keywords, title, description);
      assert keywords[0] !in rest by {
        forall i | 0 <= i < |keywords[1..]| ensures keywords[1..][i] != keywords[0] {
          assert keywords[1..][i] == keywords[i + 1];
        }
      }
    }
  }

  /** An item's score is exactly 10 times the number of distinct keywords it
      mentions. */
  lemma ScoreIsTenPerKeyword(x: Item)
    ensures Score(x) == KeywordPoints * |Matched(x)|
  {
    var title, description := Lower(FieldText(x.title)), Lower(FieldText(x.description));
    KeywordsDistinct();
    ScoreOverCountsKeywords(Keywords, title, description);
    assert Score(x) == ScoreOver(Keywords, title, description);
    assert Matched(x) == MatchedIn(Keywords, title, description);
  }

  /** A missing title or description scores exactly like an empty one, and
      an item with neither scores 0 instead of failing. */
  lemma MissingFieldsReadAsEmpty(x: Item)
    ensures Score(x.(title := None)) == Score(x.(title := Some("")))
    ensures Score(x.(description := None)) == Score(x.(description := Some("")))
    ensures x.title.None? && x.description.None? ==> Score(x) == 0
  {
    if x.title.None? && x.description.None? {
      forall i | 0 <= i < |Keywords| ensures !Mentions(Keywords[i], "", "") {
        assert |Lower(Keywords[i])| > 0;
      }
    }
  }

  /** The score ignores letter case in the title and description. */
  lemma ScoreIgnoresCase(x: Item, title: string, description: string)
    requires x.title == Some(title) && x.description == Some(description)
    ensures Score(x) == Score(x.(title := Some(Lower(title)), description := Some(Lower(description))))
  {
    LowerNormalises(title);
    LowerNormalises(description);
  }

  /** The item with its `score` key set (added or overwritten). */
  function Rate(x: Item): (r: Item)
    ensures r.score == Some(Score(x))
    ensures r.title == x.title && r.description == x.description
    ensures r.url == x.url && r.others == x.others
  {
    x.(score := Some(Score(x)))
  }

  /** Every item of the input, scored, in input order. */
  function RateAll(items: seq<Item>): (r: seq<Item>)
    ensures |r| == |items|
    ensures forall i :: 0 <= i < |items| ==> r[i] == Rate(items[i])
  {
    seq(|items|, i requires 0 <= i < |items| => Rate(items[i]))
  }

  /** `rate_content`: score every item, then rank by score, highest first,
      equal scores in input order. */
  function RateContent(items: seq<Item>): (r: seq<Item>)
    ensures |r| == |items|
    ensures multiset(r) == multiset(RateAll(items))
    ensures SortedDesc(r)
    ensures forall k :: WithKey(r, k) == WithKey(RateAll(items), k)
    ensures forall y :: y in r ==> exists i :: 0 <= i < |items| && y == Rate(items[i])
  {
    var r := SortByScore(RateAll(items));
    assert forall y :: y in r ==> y in RateAll(items) by {
      forall y | y in r ensures y in RateAll(items) { assert y in multiset(r); }
    }
    r
  }

  /** The ranked list is exactly what Python's stable
      `sorted(..., reverse=True)` yields: any arrangement of the scored items
      that is ordered by score and keeps equal scores in input order is
      `RateContent`'s result. */
  lemma RateContentIsPythonSorted(items: seq<Item>, out: seq<Item>)
    requires IsStableDescSortOf(out, RateAll(items))
    ensures out == RateContent(items)
  {
    SortByScoreIsTheStableSort(RateAll(items), out);
  }
}
