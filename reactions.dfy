/** The self-contained logic of social_reactions.py: the search keywords
    taken from an article title, the permalink format check, the reaction
    records built from a tweet or a Reddit post, and the diversity-filtered
    selection of the top reactions. The HTTP requests and the HTML and JSON
    parsing that produce the raw tweets and posts are not modelled; the
    candidates are the method's input. */
module Reactions {
  import opened Wrappers
  import opened Text
  import opened Sorting

  // ---------------------------------------------------------------------
  // _extract_keywords
  // ---------------------------------------------------------------------

  /** The stop words of social_reactions.py:66. */
  const StopWords: set<string> :=
    {"the", "a", "an", "and", "or", "but", "in", "on", "at", "to", "for", "of", "with", "by"}

  /** The keyword filter of social_reactions.py:73. */
  predicate Qualifies(w: string) {
    w !in StopWords && |w| > 3
  }

  /** The cleaned words of a title: lower-cased, punctuation turned into
      spaces, split on whitespace (social_reactions.py:69-70). */
  function TitleWords(title: string): seq<string> {
    Split(ReplaceNonWord(Lower(title)))
  }

  /** _extract_keywords (social_reactions.py:63-76). */
  function ExtractKeywords(title: string): seq<string> {
    Take(Filter(TitleWords(title), Qualifies), 5)
  }

  /** A lower-case word character. */
  predicate KeywordChar(c: char) {
    IsWordChar(c) && !IsUpper(c)
  }

  /** Every cleaned title word is lower case and free of punctuation. */
  lemma TitleWordsChars(title: string)
    ensures forall k :: 0 <= k < |TitleWords(title)| ==>
      IsWord(TitleWords(title)[k]) && AllChars(TitleWords(title)[k], KeywordChar)
  {
    var cleaned := ReplaceNonWord(Lower(title));
    assert NonSpacePass(cleaned, KeywordChar);
    SplitKeeps(cleaned, KeywordChar);
    SplitWords(cleaned);
  }

  /** What _extract_keywords promises: at most five keywords, each a word
      of the cleaned title in title order, lower case, without
      punctuation, longer than three characters and not a stop word; when
      fewer than five come back, every qualifying title word is among
      them. */
  lemma KeywordsProperties(title: string)
    ensures |ExtractKeywords(title)| <= 5
    ensures forall k :: 0 <= k < |ExtractKeywords(title)| ==>
      var w := ExtractKeywords(title)[k];
      && w in TitleWords(title) && Qualifies(w)
      && IsWord(w) && AllChars(w, KeywordChar)
    ensures exists idx :: SubsequenceAt(idx, ExtractKeywords(title), TitleWords(title))
    ensures |ExtractKeywords(title)| < 5 ==>
      forall w :: w in TitleWords(title) && Qualifies(w) ==> w in ExtractKeywords(title)
  {
    var words := TitleWords(title);
    var kept := Filter(words, Qualifies);
    var r := ExtractKeywords(title);
    var idx := FilterOrder(words, Qualifies);
    TitleWordsChars(title);
    forall k | 0 <= k < |r| ensures r[k] in words && Qualifies(r[k]) {
      assert r[k] == kept[k];
      FilterMembers(words, Qualifies, r[k]);
    }
    assert SubsequenceAt(idx[..|r|], r, words);
    if |r| < 5 {
      assert r == kept;
      forall w | w in words && Qualifies(w) ensures w in r {
        FilterMembers(words, Qualifies, w);
      }
    }
  }

  /** "with" is as long as the length filter allows, so only the stop list
      removes it; the short stop words would fail the length test anyway. */
  lemma StopWordsLengths()
    ensures forall w :: w in StopWords && w != "with" ==> |w| <= 3
    ensures "with" in StopWords && |"with"| > 3
  {
  }

  // ---------------------------------------------------------------------
  // _is_permalink_reachable
  // ---------------------------------------------------------------------

  /** _is_permalink_reachable (social_reactions.py:78-88): a format check,
      true exactly for http:// and https:// urls. */
  predicate PermalinkOk(url: string) {
    StartsWith(url, "http://") || StartsWith(url, "https://")
  }

  /** An accepted permalink starts with "http" followed by "://" or
      "s://"; anything else is refused. */
  lemma PermalinkShape(url: string)
    ensures PermalinkOk(url) <==>
      |url| >= 7 && url[..4] == "http" && (url[4..7] == "://" || (|url| >= 8 && url[4..8] == "s://"))
  {
    if |url| >= 7 {
      assert url[..7] == url[..4] + url[4..7];
    }
    if |url| >= 8 {
      assert url[..8] == url[..4] + url[4..8];
    }
  }

  lemma PrefixPasses(p: string, rest: string)
    requires p == "http://" || p == "https://"
    ensures PermalinkOk(p + rest)
  {
    assert (p + rest)[..|p|] == p;
  }

  // ---------------------------------------------------------------------
  // Reaction records
  // ---------------------------------------------------------------------

  datatype Platform = Twitter | Reddit

  /** The 'engagement' dictionary of a reaction. */
  datatype Engagement =
    | TweetEngagement(likes: int, retweets: int, replies: int)
    | PostEngagement(upvotes: int, comments: int)

  datatype Reaction = Reaction(platform: Platform, text: string, author: string,
                               engagement: Engagement, permalink: string, score: real)

  /** text[:200] + '...' if len(text) > 200 else text
      (social_reactions.py:149 and 199). */
  function Truncate(text: string): string {
    if |text| > 200 then text[..200] + "..." else text
  }

  /** A reaction text is at most 203 characters; a longer text keeps its
      first 200 characters and gains "...", a shorter one is unchanged, and
      truncating twice is truncating once. */
  lemma TruncateProperties(text: string)
    ensures |Truncate(text)| <= 203
    ensures |text| <= 200 ==> Truncate(text) == text
    ensures |text| > 200 ==>
      |Truncate(text)| == 203 && Truncate(text)[..200] == text[..200] && Truncate(text)[200..] == "..."
    ensures Truncate(Truncate(text)) == Truncate(text)
  {
    if |text| > 200 {
      var t := Truncate(text);
      assert t[..200] == text[..200];
    }
  }

  /** The score of a tweet (social_reactions.py:153). */
  function TweetScore(likes: int, retweets: int, replies: int): real {
    (likes + retweets * 2 + replies) as real
  }

  /** The score of a Reddit post (social_reactions.py:206). */
  function PostScore(upvotes: int, comments: int): real {
    upvotes as real + comments as real * 0.1
  }

  /** The reaction built from a tweet (social_reactions.py:144-154). The
      source only ever fills the like count; retweets and replies stay 0.
      statusId stands for str(hash(text)). */
  function TweetReaction(text: string, author: string, likes: int, statusId: string): Reaction {
    Reaction(Twitter, Truncate(text), author, TweetEngagement(likes, 0, 0),
      "https://twitter.com/" + author + "/status/" + statusId, TweetScore(likes, 0, 0))
  }

  /** The reaction built from a Reddit post (social_reactions.py:189-207). */
  function PostReaction(postText: string, subreddit: string, upvotes: int, comments: int, path: string): Reaction {
    Reaction(Reddit, Truncate(postText), "r/" + subreddit, PostEngagement(upvotes, comments),
      "https://reddit.com" + path, PostScore(upvotes, comments))
  }

  /** The score the source computes from an engagement record: likes
      plus twice the retweets plus the replies for a tweet, upvotes plus a
      tenth of the comments for a post. */
  function EngagementScore(e: Engagement): real {
    match e
    case TweetEngagement(likes, retweets, replies) => TweetScore(likes, retweets, replies)
    case PostEngagement(upvotes, comments) => PostScore(upvotes, comments)
  }

  /** A reaction whose score is the one its own engagement record gives,
      on the platform that record belongs to. */
  predicate ScoreFollowsEngagement(r: Reaction) {
    && r.score == EngagementScore(r.engagement)
    && (r.platform == Twitter <==> r.engagement.TweetEngagement?)
  }

  /** Both scrapers build reactions whose score follows their engagement;
      a tweet's engagement holds only its likes, so its score is its like
      count, and ten times a post's score is ten upvotes per comment's one. */
  lemma BuiltReactionsScore(text: string, author: string, likes: int, statusId: string,
                            postText: string, subreddit: string, upvotes: int, comments: int, path: string)
    ensures var t := TweetReaction(text, author, likes, statusId);
      && ScoreFollowsEngagement(t)
      && t.engagement == TweetEngagement(likes, 0, 0)
      && t.score == likes as real
    ensures var p := PostReaction(postText, subreddit, upvotes, comments, path);
      && ScoreFollowsEngagement(p)
      && p.engagement == PostEngagement(upvotes, comments)
      && p.score * 10.0 == (upvotes * 10 + comments) as real
  {
  }

  /** The permalinks both scrapers build always pass the format check, so
      that check never drops a reaction (social_reactions.py:157, 210). */
  lemma BuiltPermalinksPass(text: string, author: string, likes: int, statusId: string,
                            postText: string, subreddit: string, upvotes: int, comments: int, path: string)
    ensures PermalinkOk(TweetReaction(text, author, likes, statusId).permalink)
    ensures PermalinkOk(PostReaction(postText, subreddit, upvotes, comments, path).permalink)
  {
    PrefixPasses("https://", "twitter.com/" + author + "/status/" + statusId);
    assert "https://twitter.com/" + author + "/status/" + statusId
      == "https://" + ("twitter.com/" + author + "/status/" + statusId);
    PrefixPasses("https://", "reddit.com" + path);
    assert "https://reddit.com" + path == "https://" + ("reddit.com" + path);
  }

  // ---------------------------------------------------------------------
  // get_top_reactions
  // ---------------------------------------------------------------------

  /** The sort key of social_reactions.py:231. */
  function ScoreOf(r: Reaction): real {
    r.score
  }

  /** set(text.lower().split()[:5]) (social_reactions.py:242, 247). */
  function Tokens(text: string): set<string> {
    set w | w in Take(Split(Lower(text)), 5)
  }

  /** The Jaccard similarity of two token sets with a non-empty union. */
  function Jaccard(a: set<string>, b: set<string>): (r: real)
    requires a + b != {}
    ensures 0.0 <= r <= 1.0
  {
    assert a * b <= a + b;
    SubsetCard(a * b, a + b);
    (|a * b| as real) / (|a + b| as real)
  }

  /** Two reactions are far enough apart: the union of their tokens is not
      empty and their similarity is at most 0.7. */
  predicate Compatible(tokens: set<string>, other: set<string>) {
    tokens + other != {} && Jaccard(tokens, other) <= 0.7
  }

  /** The selection is stated for any way of turning a reaction text into
      its token set; get_top_reactions uses Tokens. */
  type Tokenizer = string -> set<string>

  /** The inner loop of social_reactions.py:245-251: Ok(true) when the
      candidate is diverse, Ok(false) at the first selected reaction that
      is too similar, and the ZeroDivisionError of line 248 when a union
      of token sets is empty before that. */
  function DiversityCheck(tok: Tokenizer, tokens: set<string>, selected: seq<Reaction>): Result<bool>
    decreases |selected|
  {
    if selected == [] then Ok(true)
    else
      var other := tok(selected[0].text);
      if tokens + other == {} then Err(ZeroDivisionError)
      else if Jaccard(tokens, other) > 0.7 then Ok(false)
      else DiversityCheck(tok, tokens, selected[1..])
  }

  /** The selection loop of social_reactions.py:237-255 over the
      candidates still to look at, with the reactions selected so far. */
  function Select(tok: Tokenizer, candidates: seq<Reaction>, maxReactions: int, selected: seq<Reaction>): Result<seq<Reaction>>
    decreases |candidates|
  {
    if candidates == [] || |selected| >= maxReactions then Ok(selected)
    else
      match DiversityCheck(tok, tok(candidates[0].text), selected)
      case Err(e) => Err(e)
      case Ok(diverse) =>
        Select(tok, candidates[1..], maxReactions, if diverse then selected + [candidates[0]] else selected)
  }

  /** The candidates in the order the selection visits them. */
  function SortedCandidates(twitter: seq<Reaction>, reddit: seq<Reaction>): seq<Reaction> {
    SortDesc(twitter + reddit, ScoreOf)
  }

  /** get_top_reactions as a function of the scraped reactions. */
  function TopReactionsSpec(twitter: seq<Reaction>, reddit: seq<Reaction>, maxReactions: int): Result<seq<Reaction>> {
    Select(Tokens, SortedCandidates(twitter, reddit), maxReactions, [])
  }

  /** get_top_reactions (social_reactions.py:218-257), given what the two
      scrapers returned. The set seen_viewpoints of line 255 is written but
      never read, and is not modelled. */
  method GetTopReactions(twitter: seq<Reaction>, reddit: seq<Reaction>, maxReactions: int)
    returns (r: Result<seq<Reaction>>)
    ensures r == TopReactionsSpec(twitter, reddit, maxReactions)
  {
    var allReactions := twitter + reddit;
    allReactions := SortDesc(allReactions, ScoreOf);
    r := SelectTop(allReactions, maxReactions);
  }

  /** The loop of social_reactions.py:234-257 over the sorted reactions. */
  method SelectTop(allReactions: seq<Reaction>, maxReactions: int) returns (r: Result<seq<Reaction>>)
    ensures r == Select(Tokens, allReactions, maxReactions, [])
  {
    var selected: seq<Reaction> := [];
    var i := 0;
    while i < |allReactions|
      invariant 0 <= i <= |allReactions|
      invariant Select(Tokens, allReactions[i..], maxReactions, selected) == Select(Tokens, allReactions, maxReactions, [])
    {
      if |selected| >= maxReactions {
        break;
      }
      var reaction := allReactions[i];
      var diverse := IsDiverse(Tokens(reaction.text), selected);
      if diverse.Err? {
        return Err(diverse.error);
      }
      assert allReactions[i..][1..] == allReactions[i + 1..];
      if diverse.value {
        selected := selected + [reaction];
      }
      i := i + 1;
    }
    return Ok(selected);
  }

  /** The inner loop of social_reactions.py:245-251. */
  method IsDiverse(tokens: set<string>, selected: seq<Reaction>) returns (r: Result<bool>)
    ensures r == DiversityCheck(Tokens, tokens, selected)
  {
    var j := 0;
    while j < |selected|
      invariant 0 <= j <= |selected|
      invariant DiversityCheck(Tokens, tokens, selected[j..]) == DiversityCheck(Tokens, tokens, selected)
    {
      var selectedTokens := Tokens(selected[j].text);
      if tokens + selectedTokens == {} {
        return Err(ZeroDivisionError);
      }
      var similarity := Jaccard(tokens, selectedTokens);
      if similarity > 0.7 {
        return Ok(false);
      }
      assert selected[j..][1..] == selected[j + 1..];
      j := j + 1;
    }
    return Ok(true);
  }

  // ---------------------------------------------------------------------
  // Properties of the selection
  // ---------------------------------------------------------------------

  /** The check says diverse exactly when the candidate is compatible with
      every selected reaction; it can only fail by dividing by zero. */
  lemma {:induction false} DiversityCheckSpec(tok: Tokenizer, tokens: set<string>, selected: seq<Reaction>)
    ensures DiversityCheck(tok, tokens, selected) == Ok(true) <==>
      forall k :: 0 <= k < |selected| ==> Compatible(tokens, tok(selected[k].text))
    ensures DiversityCheck(tok, tokens, selected).Err? ==>
      DiversityCheck(tok, tokens, selected).error == ZeroDivisionError
    decreases |selected|
  {
    if selected != [] {
      DiversityCheckSpec(tok, tokens, selected[1..]);
      assert forall k :: 0 < k < |selected| ==> selected[k] == selected[1..][k - 1];
    }
  }

  /** A candidate with tokens never divides by zero; a candidate without
      tokens divides by zero as soon as a reaction without tokens has
      been selected (social_reactions.py:248). */
  lemma {:induction false} DiversityCheckErrors(tok: Tokenizer, tokens: set<string>, selected: seq<Reaction>)
    ensures tokens != {} ==> DiversityCheck(tok, tokens, selected).Ok?
    ensures tokens == {} && (exists k :: 0 <= k < |selected| && tok(selected[k].text) == {}) ==>
      DiversityCheck(tok, tokens, selected).Err?
    decreases |selected|
  {
    if selected != [] {
      DiversityCheckErrors(tok, tokens, selected[1..]);
      var other := tok(selected[0].text);
      if tokens == {} && other != {} {
        assert tokens * other == {};
        assert Jaccard(tokens, other) == 0.0;
        if exists k :: 0 <= k < |selected| && tok(selected[k].text) == {} {
          var k :| 0 <= k < |selected| && tok(selected[k].text) == {};
          assert selected[1..][k - 1] == selected[k];
        }
      }
    }
  }

  /** The selected reactions are pairwise compatible. */
  ghost predicate Diverse(tok: Tokenizer, s: seq<Reaction>) {
    forall i, j :: 0 <= i < j < |s| ==> Compatible(tok(s[j].text), tok(s[i].text))
  }

  /** Appending a reaction compatible with all before keeps the selection
      diverse. */
  lemma DiverseSnoc(tok: Tokenizer, s: seq<Reaction>, c: Reaction)
    requires Diverse(tok, s)
    requires forall k :: 0 <= k < |s| ==> Compatible(tok(c.text), tok(s[k].text))
    ensures Diverse(tok, s + [c])
  {
    var next := s + [c];
    forall i, j | 0 <= i < j < |next| ensures Compatible(tok(next[j].text), tok(next[i].text)) {
      assert next[i] == s[i];
      if j < |s| {
        assert next[j] == s[j];
      }
    }
  }

  /** The selection only extends what is already selected, keeps it
      diverse, stops at maxReactions, and can only fail by dividing by
      zero. */
  lemma {:induction false} SelectGrows(tok: Tokenizer, candidates: seq<Reaction>, maxReactions: int, selected: seq<Reaction>)
    requires Diverse(tok, selected)
    ensures Select(tok, candidates, maxReactions, selected).Err? ==>
      Select(tok, candidates, maxReactions, selected).error == ZeroDivisionError
    ensures Select(tok, candidates, maxReactions, selected).Ok? ==>
      var r := Select(tok, candidates, maxReactions, selected).value;
      && |selected| <= |r| && r[..|selected|] == selected
      && (|selected| >= maxReactions ==> r == selected)
      && (|selected| <= maxReactions ==> |r| <= maxReactions)
      && Diverse(tok, r)
    decreases |candidates|
  {
    if candidates != [] && |selected| < maxReactions {
      var c := candidates[0];
      var d := DiversityCheck(tok, tok(c.text), selected);
      DiversityCheckSpec(tok, tok(c.text), selected);
      if d == Ok(true) {
        var next := selected + [c];
        DiverseSnoc(tok, selected, c);
        SelectGrows(tok, candidates[1..], maxReactions, next);
        if Select(tok, candidates, maxReactions, selected).Ok? {
          var r := Select(tok, candidates, maxReactions, selected).value;
          assert r[..|selected|] == r[..|next|][..|selected|];
        }
      } else if d == Ok(false) {
        SelectGrows(tok, candidates[1..], maxReactions, selected);
      }
    }
  }

  /** The newly selected reactions are a subsequence of the candidates. */
  lemma {:induction false} SelectOrder(tok: Tokenizer, candidates: seq<Reaction>, maxReactions: int, selected: seq<Reaction>)
    returns (idx: seq<int>)
    requires Select(tok, candidates, maxReactions, selected).Ok?
    ensures |selected| <= |Select(tok, candidates, maxReactions, selected).value|
    ensures Select(tok, candidates, maxReactions, selected).value[..|selected|] == selected
    ensures SubsequenceAt(idx, Select(tok, candidates, maxReactions, selected).value[|selected|..], candidates)
    decreases |candidates|
  {
    if candidates == [] || |selected| >= maxReactions {
      idx := [];
    } else {
      var c := candidates[0];
      var r := Select(tok, candidates, maxReactions, selected).value;
      var d := DiversityCheck(tok, tok(c.text), selected).value;
      var next := if d then selected + [c] else selected;
      assert r == Select(tok, candidates[1..], maxReactions, next).value;
      var tail := SelectOrder(tok, candidates[1..], maxReactions, next);
      var newer := r[|next|..];
      var shifted := Shift(tail);
      assert SubsequenceAt(shifted, newer, candidates) by {
        forall k | 0 <= k < |shifted| ensures newer[k] == candidates[shifted[k]] {
          assert candidates[1..][tail[k]] == candidates[tail[k] + 1];
        }
      }
      if d {
        assert r[|selected|..] == [c] + newer by {
          assert r[..|next|] == next;
          assert r[|selected|] == next[|selected|];
        }
        ConsSubsequence(shifted, newer, candidates);
        idx := [0] + shifted;
      } else {
        idx := shifted;
      }
    }
  }

  /** The first candidate is always selected when there is room. */
  lemma SelectFirst(tok: Tokenizer, candidates: seq<Reaction>, maxReactions: int)
    requires candidates != [] && maxReactions >= 1
    requires Select(tok, candidates, maxReactions, []).Ok?
    ensures |Select(tok, candidates, maxReactions, []).value| >= 1
    ensures Select(tok, candidates, maxReactions, []).value[0] == candidates[0]
  {
    var next := [candidates[0]];
    assert DiversityCheck(tok, tok(candidates[0].text), []) == Ok(true);
    assert [] + [candidates[0]] == next;
    assert Select(tok, candidates, maxReactions, []) == Select(tok, candidates[1..], maxReactions, next);
    SelectGrows(tok, candidates[1..], maxReactions, next);
  }

  /** A subsequence of a sequence in non-increasing order is in
      non-increasing order. */
  lemma SubsequenceDescending(idx: seq<int>, sub: seq<Reaction>, xs: seq<Reaction>)
    requires SubsequenceAt(idx, sub, xs)
    requires Descending(xs, ScoreOf)
    ensures Descending(sub, ScoreOf)
  {
    forall i, j | 0 <= i < j < |sub| ensures ScoreOf(sub[i]) >= ScoreOf(sub[j]) {
      assert sub[i] == xs[idx[i]] && sub[j] == xs[idx[j]];
    }
  }

  /** What get_top_reactions promises: at most maxReactions reactions
      (none for maxReactions <= 0), taken in order from the candidates
      sorted by non-increasing score, pairwise compatible, starting with
      the best-scored candidate when there is room; the only failure is the
      division by zero of line 248. */
  lemma TopReactionsProperties(twitter: seq<Reaction>, reddit: seq<Reaction>, maxReactions: int)
    ensures var sorted := SortedCandidates(twitter, reddit);
      multiset(sorted) == multiset(twitter + reddit) && Descending(sorted, ScoreOf)
    ensures TopReactionsSpec(twitter, reddit, maxReactions).Err? ==>
      TopReactionsSpec(twitter, reddit, maxReactions).error == ZeroDivisionError
    ensures TopReactionsSpec(twitter, reddit, maxReactions).Ok? ==>
      var r := TopReactionsSpec(twitter, reddit, maxReactions).value;
      var sorted := SortedCandidates(twitter, reddit);
      && (maxReactions <= 0 ==> r == [])
      && |r| <= (if maxReactions <= 0 then 0 else maxReactions)
      && Diverse(Tokens, r)
      && (exists idx :: SubsequenceAt(idx, r, sorted))
      && Descending(r, ScoreOf)
      && (sorted != [] && maxReactions >= 1 ==> r != [] && r[0] == sorted[0])
  {
    var sorted := SortedCandidates(twitter, reddit);
    SortDescSpec(twitter + reddit, ScoreOf);
    SelectGrows(Tokens, sorted, maxReactions, []);
    if TopReactionsSpec(twitter, reddit, maxReactions).Ok? {
      var r := TopReactionsSpec(twitter, reddit, maxReactions).value;
      var idx := SelectOrder(Tokens, sorted, maxReactions, []);
      assert r[0..] == r;
      SubsequenceDescending(idx, r, sorted);
      if sorted != [] && maxReactions >= 1 {
        SelectFirst(Tokens, sorted, maxReactions);
      }
    }
  }

  /** The best-scored selected reaction scores at least as much as every
      candidate. */
  lemma FirstIsBest(twitter: seq<Reaction>, reddit: seq<Reaction>, maxReactions: int, x: Reaction)
    requires x in twitter + reddit
    requires TopReactionsSpec(twitter, reddit, maxReactions).Ok? && maxReactions >= 1
    ensures |TopReactionsSpec(twitter, reddit, maxReactions).value| >= 1
    ensures ScoreOf(x) <= ScoreOf(TopReactionsSpec(twitter, reddit, maxReactions).value[0])
  {
    var sorted := SortedCandidates(twitter, reddit);
    TopReactionsProperties(twitter, reddit, maxReactions);
    assert x in multiset(sorted);
    var k :| 0 <= k < |sorted| && sorted[k] == x;
  }

  /** The selected reactions are scraped ones, in non-increasing score. */
  lemma SelectedFromCandidates(twitter: seq<Reaction>, reddit: seq<Reaction>, maxReactions: int)
    ensures TopReactionsSpec(twitter, reddit, maxReactions).Ok? ==>
      var r := TopReactionsSpec(twitter, reddit, maxReactions).value;
      Descending(r, ScoreOf) && forall x :: x in r ==> x in twitter + reddit
  {
    TopReactionsProperties(twitter, reddit, maxReactions);
    if TopReactionsSpec(twitter, reddit, maxReactions).Ok? {
      var r := TopReactionsSpec(twitter, reddit, maxReactions).value;
      var s := SortedCandidates(twitter, reddit);
      var idx :| SubsequenceAt(idx, r, s);
      forall x | x in r ensures x in twitter + reddit {
        var k :| 0 <= k < |r| && r[k] == x;
        assert s[idx[k]] in multiset(twitter + reddit);
      }
    }
  }

  /** Reactions sorted by a score that follows their engagement are sorted
      by the engagement formula. */
  lemma DescendingByEngagement(s: seq<Reaction>)
    requires forall x :: x in s ==> ScoreFollowsEngagement(x)
    requires Descending(s, ScoreOf)
    ensures forall i, j :: 0 <= i < j < |s| ==> EngagementScore(s[i].engagement) >= EngagementScore(s[j].engagement)
  {
    forall i, j | 0 <= i < j < |s| ensures EngagementScore(s[i].engagement) >= EngagementScore(s[j].engagement) {
      assert s[i] in s && s[j] in s;
    }
  }

  /** When every scraped reaction's score follows its engagement, the
      candidates, and so the selected reactions, come in non-increasing
      order of the engagement formula. */
  lemma CandidatesByEngagement(twitter: seq<Reaction>, reddit: seq<Reaction>, maxReactions: int)
    requires forall r :: r in twitter + reddit ==> ScoreFollowsEngagement(r)
    ensures var s := SortedCandidates(twitter, reddit);
      forall i, j :: 0 <= i < j < |s| ==> EngagementScore(s[i].engagement) >= EngagementScore(s[j].engagement)
    ensures TopReactionsSpec(twitter, reddit, maxReactions).Ok? ==>
      var r := TopReactionsSpec(twitter, reddit, maxReactions).value;
      forall i, j :: 0 <= i < j < |r| ==> EngagementScore(r[i].engagement) >= EngagementScore(r[j].engagement)
  {
    var s := SortedCandidates(twitter, reddit);
    SortDescSpec(twitter + reddit, ScoreOf);
    forall x | x in s ensures ScoreFollowsEngagement(x) {
      assert x in multiset(s);
    }
    DescendingByEngagement(s);
    SelectedFromCandidates(twitter, reddit, maxReactions);
    if TopReactionsSpec(twitter, reddit, maxReactions).Ok? {
      DescendingByEngagement(TopReactionsSpec(twitter, reddit, maxReactions).value);
    }
  }

  /** Tweets as the scraper builds them carry only likes, so among the
      selected reactions a tweet never comes before one with more likes. */
  lemma TweetsByLikes(twitter: seq<Reaction>, reddit: seq<Reaction>, maxReactions: int)
    requires forall r :: r in twitter ==>
      && r.platform == Twitter && ScoreFollowsEngagement(r) && r.engagement.TweetEngagement?
      && r.engagement.retweets == 0 && r.engagement.replies == 0
    requires forall r :: r in reddit ==> r.platform == Reddit && ScoreFollowsEngagement(r)
    ensures TopReactionsSpec(twitter, reddit, maxReactions).Ok? ==>
      var r := TopReactionsSpec(twitter, reddit, maxReactions).value;
      forall i, j :: 0 <= i < j < |r| && r[i].platform == Twitter && r[j].platform == Twitter ==>
        && r[i].engagement.TweetEngagement? && r[j].engagement.TweetEngagement?
        && r[i].engagement.likes >= r[j].engagement.likes
  {
    SelectedFromCandidates(twitter, reddit, maxReactions);
    if TopReactionsSpec(twitter, reddit, maxReactions).Ok? {
      var r := TopReactionsSpec(twitter, reddit, maxReactions).value;
      DescendingByEngagement(r);
      forall i, j | 0 <= i < j < |r| && r[i].platform == Twitter && r[j].platform == Twitter
        ensures && r[i].engagement.TweetEngagement? && r[j].engagement.TweetEngagement?
                && r[i].engagement.likes >= r[j].engagement.likes
      {
        assert r[i] in r && r[j] in r;
        assert r[i] in twitter && r[j] in twitter;
      }
    }
  }

  /** A candidate without tokens, reached while a reaction without tokens
      is selected and there is room, ends the selection with
      ZeroDivisionError. */
  lemma EmptyTokensRaise(tok: Tokenizer, candidates: seq<Reaction>, maxReactions: int, selected: seq<Reaction>, k: nat)
    requires candidates != [] && |selected| < maxReactions
    requires tok(candidates[0].text) == {}
    requires k < |selected| && tok(selected[k].text) == {}
    ensures Select(tok, candidates, maxReactions, selected) == Err(ZeroDivisionError)
  {
    DiversityCheckErrors(tok, tok(candidates[0].text), selected);
    DiversityCheckSpec(tok, tok(candidates[0].text), selected);
  }

  /** An empty post text has no tokens: two Reddit link posts without
      selftext cannot both be compared. */
  lemma EmptyTextHasNoTokens()
    ensures Tokens("") == {}
  {
    assert Split(Lower("")) == [];
  }
}
