# Content selection of the news-scraping app, in Dafny

This project models the pure content-selection logic of `scrapping_app.py`,
a Streamlit app that fetches research news items from an aggregator, scores
them against four fixed keywords, keeps the best three and drafts one social
post per item for each of LinkedIn, BlueSky and X.

Modules, one per step of that flow:

- `Wrappers` (`wrappers.dfy`): `Option` for a dict key that may be absent and
  `Result` for a call that may raise.
- `Ascii` (`ascii.dfy`): ASCII lower-casing and substring search, for
  Python's `str.lower()` and `in` on strings.
- `Content` (`content.dfy`): the item. Title, description and url are
  `Option<string>`. The remaining keys are an opaque `others` map. `score` is
  `Option<int>`. The sort key `Key` is `x.get("score", 0)`.
- `Ranking` (`ranking.dfy`): a stable insertion sort by key, highest first.
  Stability is stated as "for every key, the subsequence of items with that
  key is unchanged" (`WithKey`). A uniqueness lemma shows this sort is the
  only result that is both ordered and stable, which is what Python's
  `sorted(..., reverse=True)` returns.
- `Rating` (`rating.dfy`): keyword scoring and `rate_content`.
- `Selection` (`selection.dfy`): `select_top_content`, i.e. Python's slice
  `xs[:n]`. Negative `n` is included.
- `Posts` (`posts.dfy`): `generate_social_posts`, with its two exceptions
  (`KeyError`, `ValueError` for an unsupported platform) as `Error` values.
- `Drafts` (`drafts.dfy`): the nested draft-building loop from the app's
  main flow, lifted into a pure function. `PrepareDrafts` chains rating, top-3
  selection and drafting.

Exceptions are `Result.Failure` values. A failure anywhere in the draft loop
abandons the whole list, because in the source the exception escapes the
loop and the app's catch-all handler only displays it.

Scoring and drafting treat a missing title differently. `rate_content`
reads it with a default of `""`. `generate_social_posts` indexes it directly.
An untitled item can therefore rank in the top three and then make the whole
draft list fail with `KeyError('title')`. `BuildDrafts` and `PrepareDrafts`
state both outcomes: the list exists exactly when every selected item has a
title and a url, and otherwise the error is the `KeyError` of the first
selected item that lacks one.

## Model

| member | source | states |
|---|---|---|
| `Ascii.Lower` | scrapping_app.py:28-29 | ASCII `str.lower()` keeps the length, turns each capital into the letter 32 code points above it, keeps every other character, and leaves no capital |
| `Ascii.LowerNormalises` | scrapping_app.py:28-31 | a lowered string has no capital left, and lowering it again changes nothing |
| `Ascii.Contains` | scrapping_app.py:31 | `keyword in text` holds exactly when the keyword occurs as a contiguous substring at some index of the text |
| `Rating.FieldText` | scrapping_app.py:28-29 | `item.get(key, "")`: a present field reads as its own text, a missing one as the empty string |
| `Rating.Mentions` | scrapping_app.py:31 | a keyword counts exactly when its lowered form occurs at some index of the title or at some index of the description |
| `Content.Key` | scrapping_app.py:34 | the sort key `x.get("score", 0)` is the item's score when present and 0 when absent |
| `Rating.ScoreOver` | scrapping_app.py:30-32 | the keyword loop adds a multiple of 10, at most 10 per keyword, and gives 0 exactly when no keyword is mentioned |
| `Rating.Score` | scrapping_app.py:25-33 | an item's score is a multiple of 10 between 0 and 40 |
| `Rating.ScoreOverCountsKeywords` | scrapping_app.py:30-33 | for distinct keywords the loop total is 10 times the number of distinct keywords found; a keyword found in both fields counts once |
| `Rating.ScoreIsTenPerKeyword` | scrapping_app.py:25-33 | an item's score is 10 times the size of the set of the four keywords it mentions in its lowered title or lowered description, where a keyword found in both fields counts once |
| `Rating.SearchedKeywords` | scrapping_app.py:25 | the keywords are searched for lowered: "bayesian", and the other three unchanged |
| `Rating.MissingFieldsReadAsEmpty` | scrapping_app.py:28-29 | a missing title or description scores like an empty one, and an item with neither scores 0 instead of failing |
| `Rating.ScoreIgnoresCase` | scrapping_app.py:28-31 | lower-casing the title and description beforehand does not change the score |
| `Rating.Rate` | scrapping_app.py:26-33 | rating sets the item's score to its keyword score and leaves title, description, url and every other key unchanged |
| `Rating.RateAll` | scrapping_app.py:26-33 | the scoring loop rates every item and keeps the input order and length |
| `Ranking.InsertPermutes` | scrapping_app.py:34 | insertion adds exactly the one item: the result is the old multiset plus that item |
| `Ranking.InsertSorted` | scrapping_app.py:34 | inserting into a ranked list keeps it ranked |
| `Ranking.InsertWithKey` | scrapping_app.py:34 | an inserted item goes before the items of equal score, and the order of items with any other score is unchanged |
| `Ranking.SortStep` | scrapping_app.py:34 | inserting the head into the sorted tail gives a ranked permutation of the whole list, with the same per-score subsequences |
| `Ranking.SortByScore` | scrapping_app.py:34 | the sort returns a permutation of its input with the same length, ordered by score highest first, with items of equal score in input order |
| `Ranking.StableSortUnique` | scrapping_app.py:34 | two score-ordered sequences with the same per-score subsequences are equal |
| `Ranking.SortByScoreIsTheStableSort` | scrapping_app.py:34 | every ordered, stable arrangement of the input is exactly the sort's result |
| `Rating.RateContent` | scrapping_app.py:21-34 | `rate_content` returns the rated items with the same length, as a permutation, ordered by score with ties in input order, each element the rating of some input item |
| `Rating.RateContentIsPythonSorted` | scrapping_app.py:34 | any arrangement of the rated items that is ordered by score and stable equals `rate_content`'s result |
| `Selection.SelectTop` | scrapping_app.py:37-41 | the result is a prefix of the input of length min(n, len) for n >= 0, and len + n (at least 0) for negative n |
| `Selection.TopIsBest` | scrapping_app.py:37-41 | selecting from a ranked list keeps it ranked, keeps each item in place, and every item kept scores at least as high as every item left out |
| `Posts.GeneratePost` | scrapping_app.py:44-56 | a missing title raises KeyError('title'); otherwise a missing url raises KeyError('url'); otherwise an unsupported platform raises the platform error. It succeeds exactly for an item with title and url on LinkedIn, BlueSky or X, and then the post is the quoted title, the link, and that platform's image placeholder |
| `Posts.PostNamesItsPlatform` | scrapping_app.py:48-54 | the platform can be read back from a post's placeholder, so the three posts for one item are pairwise different |
| `Drafts.PlatformDrafts` | scrapping_app.py:172-174 | the per-item loop yields one record per platform in platform order with that platform's post, and otherwise fails with the error of the first platform that raises |
| `Drafts.ItemDrafts` | scrapping_app.py:172-174 | an item yields its three drafts exactly when it has a title and a url; otherwise it fails with the KeyError for the missing key |
| `Drafts.BuildDrafts` | scrapping_app.py:168-174 | the draft list exists exactly when every selected item has a title and a url. It is then item-major: the three drafts of the first item, then those of the rest. Otherwise it fails with the KeyError of the first item lacking a key |
| `Drafts.FailureShift` | scrapping_app.py:171-173 | an item with both keys in front does not change which item's KeyError ends the loop |
| `Drafts.ItemMajorIndexed` | scrapping_app.py:168-174 | an item-major list for k items has 3·k entries, and entry n is the post of item n/3 for platform n%3 of LinkedIn, BlueSky, X |
| `Drafts.DraftsFromInput` | scrapping_app.py:164-174 | an item-major draft list of the top 3 rated items has 3·min(3, len) entries; entry n is the post of the (n/3)-th best item for platform n%3 of LinkedIn, BlueSky, X, and that item is the rating of some input item |
| `Drafts.PrepareDrafts` | scrapping_app.py:164-174 | rating, keeping the top 3 and drafting succeeds exactly when every selected item has a title and a url. On success the list is item-major over the selected items, has 3·min(3, len) entries, and each entry is a post of some rated input item for the platform it names. On failure the error is the KeyError of the first selected item lacking a key |

## Left out

- `scrape_content_from_api` (lines 10-18): an HTTP GET with JSON decoding. Its item list is the input of `RateContent` and `PrepareDrafts`.
- `post_to_platform` (lines 59-115): HTTP POSTs to LinkedIn and X, plus writing `.env` and `bluesky_post.js` and running Node for BlueSky. All of it is network, file and subprocess I/O.
- `check_password` and the rest of `main` (lines 118-186): Streamlit widgets, secrets, session state, display of the drafts, the approve button and the catch-all error display.
- Unicode lower-casing: `Ascii.Lower` changes only `A`-`Z`. The keywords are ASCII, but a non-ASCII capital in a title is left as it is.
- Values that are present but are not strings, because every field is `Option<string>`. A JSON `null` or a number under `title` or `description` makes `rate_content` raise at `.lower()` (lines 28-29), before any draft is built. A `null` or numeric `url` does not raise: the f-string at line 48 turns it into text with `str()`, so the LinkedIn post ends in, for example, `Read more: None` followed by `\n\n[LinkedIn Placeholder Image]`. The model cannot express such an item; its nearest value, a missing `url`, fails with `KeyError('url')` instead.
- In-place mutation: `rate_content` writes `score` into the caller's dicts. The model returns new item values instead.
- `Rating.ScoreIgnoresCase`: covers ASCII case only, because lower-casing is ASCII here.
