/** Draft list construction, lifted out of the application's main flow:
    for every selected item, one `{platform, content}` record per platform,
    item-major, platforms in the order LinkedIn, BlueSky, X. Any exception
    from drafting abandons the whole list. */
module Drafts {
  import opened Wrappers
  import opened Content
  import opened Ranking
  import opened Rating
  import opened Selection
  import opened Posts

  /** One `{"platform": ..., "content": ...}` record. */
  datatype Draft = Draft(platform: string, content: string)

  /** The item has the two keys drafting reads. */
  predicate Postable(x: Item) {
    x.title.Some? && x.url.Some?
  }

  /** The `KeyError` drafting raises for an item that is not postable. */
  function MissingKey(x: Item): Error {
    if x.title.None? then KeyError("title") else KeyError("url")
  }

  /** The inner loop over `platforms` for one item, stopping at the first
      platform whose post raises. */
  function PlatformDrafts(x: Item, platforms: seq<string>): (r: Result<seq<Draft>, Error>)
    ensures r.Success? <==> forall j :: 0 <= j < |platforms| ==> GeneratePost(x, platforms[j]).Success?
    ensures r.Success? ==> |r.value| == |platforms|
    ensures r.Success? ==> forall j :: 0 <= j < |platforms| ==>
      r.value[j].platform == platforms[j] && GeneratePost(x, platforms[j]) == Success(r.value[j].content)
    ensures r.Failure? ==>
      exists j ::
        && 0 <= j < |platforms|
        && GeneratePost(x, platforms[j]) == Failure(r.error)
        && forall h :: 0 <= h < j ==> GeneratePost(x, platforms[h]).Success?
  {
    if |platforms| == 0 then Success([])
    else
      var post :- GeneratePost(x, platforms[0]);
      var rest :- PlatformDrafts(x, platforms[1..]);
      Success([Draft(platforms[0], post)] + rest)
  }

  /** With the application's three platforms, an item yields its three
      drafts exactly when it has a title and a url; otherwise the first
      platform already raises the item's `KeyError`. */
  lemma ItemDrafts(x: Item)
    ensures PlatformDrafts(x, Platforms).Success? <==> Postable(x)
    ensures !Postable(x) ==> PlatformDrafts(x, Platforms) == Failure(MissingKey(x))
  {
  }

  /** `ds` are the three drafts of item `x`, in platform order. */
  predicate DraftsOf(x: Item, ds: seq<Draft>) {
    && |ds| == |Platforms|
    && forall j :: 0 <= j < |Platforms| ==>
      ds[j].platform == Platforms[j] && GeneratePost(x, Platforms[j]) == Success(ds[j].content)
  }

  /** `drafts` is the item-major draft list of `top`: the drafts of the
      first item, then those of the rest. */
  predicate ItemMajor(top: seq<Item>, drafts: seq<Draft>)
    decreases |top|
  {
    if |top| == 0 then drafts == []
    else
      && |drafts| >= 3
      && DraftsOf(top[0], drafts[..3])
      && ItemMajor(top[1..], drafts[3..])
  }

  /** `top[i]` is the first item without a title or a url. */
  predicate FirstUnpostable(top: seq<Item>, i: int) {
    && 0 <= i < |top|
    && !Postable(top[i])
    && forall h :: 0 <= h < i ==> Postable(top[h])
  }

  /** The nested loop over the selected items and the three platforms. */
  function BuildDrafts(top: seq<Item>): (r: Result<seq<Draft>, Error>)
    ensures r.Success? <==> forall i :: 0 <= i < |top| ==> Postable(top[i])
    ensures r.Success? ==> ItemMajor(top, r.value)
    ensures r.Failure? ==> exists i :: FirstUnpostable(top, i) && r.error == MissingKey(top[i])
  {
    if |top| == 0 then Success([])
    else
      ItemDrafts(top[0]);
      match PlatformDrafts(top[0], Platforms)
      case Failure(e) =>
        assert FirstUnpostable(top, 0);
        Failure(e)
      case Success(head) =>
        match BuildDrafts(top[1..])
        case Failure(e) =>
          FailureShift(top, e);
          Failure(e)
        case Success(rest) =>
          assert (head + rest)[..3] == head && (head + rest)[3..] == rest;
          Success(head + rest)
  }

  /** An item with a title and a url in front does not change which item
      fails first. */
  lemma FailureShift(top: seq<Item>, e: Error)
    requires |top| > 0 && Postable(top[0])
    requires exists i :: FirstUnpostable(top[1..], i) && e == MissingKey(top[1..][i])
    ensures exists i :: FirstUnpostable(top, i) && e == MissingKey(top[i])
  {
    var i :| FirstUnpostable(top[1..], i) && e == MissingKey(top[1..][i]);
    assert top[i + 1] == top[1..][i];
    assert forall h :: 1 <= h <= i ==> top[h] == top[1..][h - 1];
    assert FirstUnpostable(top, i + 1);
  }

  /** Item-major order by position: the list has 3·k entries for k items,
      and entry `n` is item `n / 3`'s post for platform `n % 3` of
      LinkedIn, BlueSky, X. */
  lemma {:induction false} ItemMajorIndexed(top: seq<Item>, drafts: seq<Draft>)
    requires ItemMajor(top, drafts)
    ensures |drafts| == 3 * |top|
    ensures forall n :: 0 <= n < |drafts| ==>
      drafts[n].platform == Platforms[n % 3]
      && GeneratePost(top[n / 3], Platforms[n % 3]) == Success(drafts[n].content)
    decreases |top|
  {
    if |top| > 0 {
      var rest := drafts[3..];
      ItemMajorIndexed(top[1..], rest);
      forall n | 0 <= n < |drafts|
        ensures drafts[n].platform == Platforms[n % 3]
        ensures GeneratePost(top[n / 3], Platforms[n % 3]) == Success(drafts[n].content)
      {
        if n < 3 {
          HeadEntry(top[0], drafts, n);
        } else {
          var m := n - 3;
          assert m / 3 < |top[1..]| && m < |rest|;
          RestEntry(top, drafts, n);
        }
      }
    }
  }

  /** Entry `n < 3` of the list is the first item's post for platform `n`. */
  lemma HeadEntry(x: Item, drafts: seq<Draft>, n: int)
    requires 0 <= n < 3 <= |drafts|
    requires DraftsOf(x, drafts[..3])
    ensures drafts[n].platform == Platforms[n % 3]
    ensures GeneratePost(x, Platforms[n % 3]) == Success(drafts[n].content)
  {
    assert n % 3 == n;
    assert drafts[n] == drafts[..3][n];
  }

  /** Entry `n >= 3` of the list is entry `n - 3` of the rest's list. */
  lemma RestEntry(top: seq<Item>, drafts: seq<Draft>, n: int)
    requires 3 <= n < |drafts| && 0 < |top|
    requires (n - 3) / 3 < |top| - 1
    requires drafts[3..][n - 3].platform == Platforms[(n - 3) % 3]
    requires GeneratePost(top[1..][(n - 3) / 3], Platforms[(n - 3) % 3]) == Success(drafts[3..][n - 3].content)
    ensures n / 3 < |top|
    ensures drafts[n].platform == Platforms[n % 3]
    ensures GeneratePost(top[n / 3], Platforms[n % 3]) == Success(drafts[n].content)
  {
    ShiftByThree(n);
    assert drafts[n] == drafts[3..][n - 3];
    assert top[n / 3] == top[1..][(n - 3) / 3];
  }

  lemma ShiftByThree(n: int)
    requires n >= 3
    ensures n / 3 == (n - 3) / 3 + 1 && n % 3 == (n - 3) % 3
  {
  }

  /** The items drafting receives: the three best-rated items, best first. */
  function Selected(raw: seq<Item>): seq<Item> {
    SelectTop(RateContent(raw), DefaultTopN)
  }

  /** The whole content-selection flow of one "Scrape and Generate Posts"
      press, after the items are fetched: rate, keep the top three, draft.
      It succeeds exactly when every selected item has a title and a url;
      then the list is item-major over the selected items, otherwise the
      error is the `KeyError` of the first selected item that lacks one. */
  function PrepareDrafts(raw: seq<Item>): (r: Result<seq<Draft>, Error>)
    ensures r.Success? <==> forall i :: 0 <= i < |Selected(raw)| ==> Postable(Selected(raw)[i])
    ensures r.Success? ==> ItemMajor(Selected(raw), r.value)
    ensures r.Failure? ==>
      exists i :: FirstUnpostable(Selected(raw), i) && r.error == MissingKey(Selected(raw)[i])
    ensures r.Success? ==> |r.value| == 3 * (if |raw| < DefaultTopN then |raw| else DefaultTopN)
    ensures r.Success? ==> forall n :: 0 <= n < |r.value| ==>
      exists i :: 0 <= i < |raw| && GeneratePost(Rate(raw[i]), r.value[n].platform) == Success(r.value[n].content)
  {
    var r := BuildDrafts(Selected(raw));
    if r.Success? then
      DraftsFromInput(raw, r.value);
      r
    else r
  }

  /** An item-major draft list of the selected items has three drafts per
      selected item; entry `n` is the post of the `n / 3`-th best item for
      platform `n % 3`, and that item is the rating of some input item. */
  lemma DraftsFromInput(raw: seq<Item>, drafts: seq<Draft>)
    requires ItemMajor(Selected(raw), drafts)
    ensures |drafts| == 3 * (if |raw| < DefaultTopN then |raw| else DefaultTopN)
    ensures forall n :: 0 <= n < |drafts| ==>
      && n / 3 < |Selected(raw)|
      && drafts[n].platform == Platforms[n % 3]
      && GeneratePost(Selected(raw)[n / 3], Platforms[n % 3]) == Success(drafts[n].content)
    ensures forall n :: 0 <= n < |drafts| ==>
      exists i :: 0 <= i < |raw| && GeneratePost(Rate(raw[i]), drafts[n].platform) == Success(drafts[n].content)
  {
    var top := Selected(raw);
    ItemMajorIndexed(top, drafts);
    forall n | 0 <= n < |drafts|
      ensures exists i :: 0 <= i < |raw| && GeneratePost(Rate(raw[i]), drafts[n].platform) == Success(drafts[n].content)
    {
      var x := top[n / 3];
      assert x in RateContent(raw);
      var i :| 0 <= i < |raw| && x == Rate(raw[i]);
      assert GeneratePost(Rate(raw[i]), drafts[n].platform) == Success(drafts[n].content);
    }
  }
}
