/** Top-N selection (`select_top_content`): the slice `rated_items[:n]`. */
module Selection {
  import opened Content
  import opened Ranking

  /** The number of items the application keeps. */
  const DefaultTopN: int := 3

  /** Python's `xs[:n]`: the first `n` items, or, for negative `n`, all but
      the last `-n` items (nothing once `-n` reaches the length). */
  function SelectTop<T>(xs: seq<T>, n: int): (r: seq<T>)
    ensures r <= xs
    ensures 0 <= n ==> |r| == if n < |xs| then n else |xs|
    ensures n < 0 ==> |r| == if |xs| + n < 0 then 0 else |xs| + n
  {
    var stop := if n >= 0 then n else |xs| + n;
    if stop <= 0 then [] else if stop >= |xs| then xs else xs[..stop]
  }

  /** Selecting from a ranked list keeps it ranked, and no item left out
      scores above an item kept. */
  lemma TopIsBest(xs: seq<Item>, n: int)
    requires SortedDesc(xs)
    ensures SortedDesc(SelectTop(xs, n))
    ensures forall i, j :: 0 <= i < |SelectTop(xs, n)| <= j < |xs| ==> Key(xs[i]) >= Key(xs[j])
    ensures forall i :: 0 <= i < |SelectTop(xs, n)| ==> SelectTop(xs, n)[i] == xs[i]
  {
  }
}
