/** The content item: one JSON object from the aggregator, as a Python dict.
    Only the keys the core reads are fields of their own; the rest travel
    untouched in `others`, which never holds "title", "description", "url"
    or "score": each dict key has exactly one place in an `Item`. */
module Content {
  import opened Wrappers

  /** A scraped item. A key absent from the dict is `None`. */
  datatype Item = Item(
    title: Option<string>,
    description: Option<string>,
    url: Option<string>,
    others: map<string, string>,
    score: Option<int>)

  /** The sort key `x.get("score", 0)`: the score when present, else 0. */
  function Key(x: Item): (r: int)
    ensures x.score.Some? ==> r == x.score.value
    ensures x.score.None? ==> r == 0
  {
    match x.score
    case Some(v) => v
    case None => 0
  }
}
