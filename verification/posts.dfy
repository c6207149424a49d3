/** Post drafting (`generate_social_posts`): a fixed text template with a
    per-platform image placeholder, for three platforms named by string. */
module Posts {
  import opened Wrappers
  import opened Content

  /** The exceptions drafting can raise. */
  datatype Error =
    | KeyError(key: string)              // `content_item[key]` on a missing key
    | UnsupportedPlatform(name: string)  // `ValueError("Unsupported platform: ...")`

  /** The supported platform names, in the order the application drafts them. */
  const Platforms: seq<string> := ["LinkedIn", "BlueSky", "X"]

  /** The trailing image placeholder for a platform's post. */
  function Placeholder(platform: string): string {
    "\n\n[" + platform + " Placeholder Image]"
  }

  /** The common opening of every post: the quoted title and the link. */
  function BasePost(title: string, url: string): string {
    "Check out this fascinating piece: '" + title + "'\nRead more: " + url
  }

  /** `generate_social_posts`. The title and the url are read (in that
      order) before the platform is inspected. */
  function GeneratePost(x: Item, platform: string): (r: Result<string, Error>)
    ensures x.title.None? ==> r == Failure(KeyError("title"))
    ensures x.title.Some? && x.url.None? ==> r == Failure(KeyError("url"))
    ensures x.title.Some? && x.url.Some? && platform !in Platforms
      ==> r == Failure(UnsupportedPlatform(platform))
    ensures r.Success? <==> x.title.Some? && x.url.Some? && platform in Platforms
    ensures r.Success? ==>
      r.value == BasePost(x.title.value, x.url.value) + Placeholder(platform)
  {
    match x.title
    case None => Failure(KeyError("title"))
    case Some(title) =>
      match x.url
      case None => Failure(KeyError("url"))
      case Some(url) =>
        var base := BasePost(title, url);
        if platform == "LinkedIn" then Success(base + Placeholder("LinkedIn"))
        else if platform == "BlueSky" then Success(base + Placeholder("BlueSky"))
        else if platform == "X" then Success(base + Placeholder("X"))
        else Failure(UnsupportedPlatform(platform))
  }

  predicate EndsWith(s: string, suffix: string) {
    |suffix| <= |s| && s[|s| - |suffix|..] == suffix
  }

  /** Reads the platform back off a drafted post from its placeholder. */
  function PlatformOf(post: string): Option<string> {
    if EndsWith(post, Placeholder("LinkedIn")) then Some("LinkedIn")
    else if EndsWith(post, Placeholder("BlueSky")) then Some("BlueSky")
    else if EndsWith(post, Placeholder("X")) then Some("X")
    else None
  }

  /** Every post names the platform it was drafted for, so the three posts
      of one item are pairwise different. */
  lemma PostNamesItsPlatform(x: Item, platform: string)
    requires GeneratePost(x, platform).Success?
    ensures PlatformOf(GeneratePost(x, platform).value) == Some(platform)
  {
    var post := GeneratePost(x, platform).value;
    var n := |post|;
    assert post[n - |Placeholder(platform)|..] == Placeholder(platform);
    if platform == "BlueSky" {
      assert post[n - 28] == '\n';
      assert Placeholder("LinkedIn")[2] == '[';
    } else if platform == "X" {
      assert post[n - 20] == 'X';
      assert Placeholder("LinkedIn")[10] == 'n';
      assert Placeholder("BlueSky")[9] == 'y';
    }
  }
}
