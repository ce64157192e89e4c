/** NewsProcessor.rank_articles, generate_summary, _extract_tags and
    process_articles (processor.py:119-153, 226-311), with the
    RANKING_WEIGHTS of config.py:130-134. */
module Ranking {
  import opened Wrappers
  import opened Text
  import opened Sorting
  import opened Articles
  import opened Dedup
  import opened Scoring

  // ---------------------------------------------------------------------
  // Weights and the final score
  // ---------------------------------------------------------------------

  const ViralityWeight: real := 0.5
  const ImpactWeight: real := 0.35
  const ControversyWeight: real := 0.15

  /** The weighted sum of processor.py:247-251. */
  function FinalScore(virality: real, impact: real, controversy: real): real {
    ViralityWeight * virality + ImpactWeight * impact + ControversyWeight * controversy
  }

  /** The weights sum to one, so the final score is a weighted mean: it
      stays in [0, 100] when the three scores do, and it does not decrease
      when any one of them grows. */
  lemma FinalScoreProperties(v: real, i: real, c: real, v': real, i': real, c': real)
    ensures ViralityWeight + ImpactWeight + ControversyWeight == 1.0
    ensures 0.0 <= v <= 100.0 && 0.0 <= i <= 100.0 && 0.0 <= c <= 100.0 ==>
      0.0 <= FinalScore(v, i, c) <= 100.0
    ensures v <= v' && i <= i' && c <= c' ==> FinalScore(v, i, c) <= FinalScore(v', i', c')
    ensures FinalScore(100.0, 100.0, 100.0) == 100.0
  {
  }

  // ---------------------------------------------------------------------
  // Keyword lists shared by the summary and the tags
  // ---------------------------------------------------------------------

  const FundingWords: seq<string> := ["funding", "raise", "investment"]
  const AcquisitionWords: seq<string> := ["acquire", "acquisition", "merger"]
  const LayoffWords: seq<string> := ["layoff", "firing", "job cuts"]
  const LaunchWords: seq<string> := ["launch", "release", "announce"]
  const PolicyWords: seq<string> := ["regulation", "policy", "government"]
  const SecurityWords: seq<string> := ["hack", "breach", "security"]

  // ---------------------------------------------------------------------
  // generate_summary
  // ---------------------------------------------------------------------

  const FundingSentence := "A funding round was announced"
  const AcquisitionSentence := "An acquisition or merger was announced"
  const LayoffSentence := "Layoffs or job cuts were announced"
  const LaunchSentence := "A new product or service was launched"
  const DefaultSentence := "A significant development was reported"
  const IndiaSentence := "This development has implications for the Indian startup ecosystem"
  const GlobalSentence := "This development has global implications for the tech industry"
  const ContextSentence := "The story has attracted significant attention from the tech community"

  /** "What happened" (processor.py:131-141): the first keyword group that
      occurs in the lower-cased title decides. */
  function WhatHappened(title: string): string {
    var t := Lower(title);
    if AnyIn(t, FundingWords) then FundingSentence
    else if AnyIn(t, AcquisitionWords) then AcquisitionSentence
    else if AnyIn(t, LayoffWords) then LayoffSentence
    else if AnyIn(t, LaunchWords) then LaunchSentence
    else DefaultSentence
  }

  /** "Why it matters" (processor.py:143-147). */
  function WhyItMatters(category: string): string {
    if category == "india" then IndiaSentence else GlobalSentence
  }

  /** summary_parts (processor.py:129-151). */
  function SummaryParts(a: Article): seq<string> {
    var parts := [WhatHappened(a.title), WhyItMatters(a.category)];
    if |parts| < 3 then parts + [ContextSentence] else parts
  }

  /** generate_summary */
  function Summary(a: Article): string {
    Join(SummaryParts(a), " ")
  }

  /** The summary always has three sentences, the third being the fixed
      context sentence, and is made from the title and category only. */
  lemma SummaryShape(a: Article, text: string)
    ensures |SummaryParts(a)| == 3 && SummaryParts(a)[2] == ContextSentence
    ensures Summary(a) == WhatHappened(a.title) + " " + WhyItMatters(a.category) + " " + ContextSentence
    ensures Summary(a.(text := text)) == Summary(a)
  {
    var w, y := WhatHappened(a.title), WhyItMatters(a.category);
    var p := SummaryParts(a);
    assert p == [w, y, ContextSentence];
    assert p[1..] == [y, ContextSentence] && p[1..][1..] == [ContextSentence];
    assert Join(p[1..], " ") == y + " " + ContextSentence;
    assert w + " " + (y + " " + ContextSentence) == w + " " + y + " " + ContextSentence;
  }

  /** The "what happened" sentence follows the keyword groups in order of
      precedence: each sentence is chosen exactly when its group occurs in
      the lower-cased title and no earlier group does. */
  lemma WhatHappenedPrecedence(title: string)
    ensures WhatHappened(title) == FundingSentence <==> AnyIn(Lower(title), FundingWords)
    ensures WhatHappened(title) == AcquisitionSentence <==>
      !AnyIn(Lower(title), FundingWords) && AnyIn(Lower(title), AcquisitionWords)
    ensures WhatHappened(title) == LayoffSentence <==>
      !AnyIn(Lower(title), FundingWords) && !AnyIn(Lower(title), AcquisitionWords) &&
      AnyIn(Lower(title), LayoffWords)
    ensures WhatHappened(title) == LaunchSentence <==>
      !AnyIn(Lower(title), FundingWords) && !AnyIn(Lower(title), AcquisitionWords) &&
      !AnyIn(Lower(title), LayoffWords) && AnyIn(Lower(title), LaunchWords)
    ensures WhatHappened(title) == DefaultSentence <==>
      !AnyIn(Lower(title), FundingWords) && !AnyIn(Lower(title), AcquisitionWords) &&
      !AnyIn(Lower(title), LayoffWords) && !AnyIn(Lower(title), LaunchWords)
  {
    SentencesDistinct();
  }

  lemma SentencesDistinct()
    ensures FundingSentence != AcquisitionSentence && FundingSentence != LayoffSentence
    ensures FundingSentence != LaunchSentence && FundingSentence != DefaultSentence
    ensures AcquisitionSentence != LayoffSentence && AcquisitionSentence != LaunchSentence
    ensures AcquisitionSentence != DefaultSentence && LayoffSentence != LaunchSentence
    ensures LayoffSentence != DefaultSentence && LaunchSentence != DefaultSentence
  {
    assert FundingSentence[1] != AcquisitionSentence[1];
    assert FundingSentence[0] != LayoffSentence[0];
    assert FundingSentence[2] != LaunchSentence[2];
    assert FundingSentence[2] != DefaultSentence[2];
    assert AcquisitionSentence[0] != LayoffSentence[0];
    assert AcquisitionSentence[1] != LaunchSentence[1];
    assert AcquisitionSentence[1] != DefaultSentence[1];
    assert LayoffSentence[0] != LaunchSentence[0];
    assert LayoffSentence[0] != DefaultSentence[0];
    assert LaunchSentence[2] != DefaultSentence[2];
  }

  // ---------------------------------------------------------------------
  // _extract_tags
  // ---------------------------------------------------------------------

  /** The tag that a keyword group contributes when it occurs in text. */
  function TagIf(text: string, words: seq<string>, tag: string): set<string> {
    if AnyIn(text, words) then {tag} else {}
  }

  /** _extract_tags (processor.py:272-297). The source returns
      list(set(tags)), whose order Python leaves unspecified; the model
      returns the set. */
  function Tags(a: Article): set<string> {
    var c := CombinedText(a);
    {a.category}
      + TagIf(c, FundingWords, "funding")
      + TagIf(c, AcquisitionWords, "m&a")
      + TagIf(c, LayoffWords, "layoffs")
      + TagIf(c, PolicyWords, "policy")
      + TagIf(c, LaunchWords, "product")
      + TagIf(c, SecurityWords, "security")
  }

  /** The seven tags an article can carry. */
  function TagUniverse(category: string): set<string> {
    {category, "funding", "m&a", "layoffs", "policy", "product", "security"}
  }

  /** A tag is the category or the tag of a keyword group found in the
      lower-cased title and text. */
  lemma TagsMembership(a: Article, t: string)
    ensures a.category in Tags(a)
    ensures t in Tags(a) <==>
      || t == a.category
      || (t == "funding" && AnyIn(CombinedText(a), FundingWords))
      || (t == "m&a" && AnyIn(CombinedText(a), AcquisitionWords))
      || (t == "layoffs" && AnyIn(CombinedText(a), LayoffWords))
      || (t == "policy" && AnyIn(CombinedText(a), PolicyWords))
      || (t == "product" && AnyIn(CombinedText(a), LaunchWords))
      || (t == "security" && AnyIn(CombinedText(a), SecurityWords))
  {
    var c := CombinedText(a);
    UnionMember(t, {a.category}, TagIf(c, FundingWords, "funding"),
      TagIf(c, AcquisitionWords, "m&a"), TagIf(c, LayoffWords, "layoffs"),
      TagIf(c, PolicyWords, "policy"), TagIf(c, LaunchWords, "product"),
      TagIf(c, SecurityWords, "security"));
    TagIfMember(t, c, FundingWords, "funding");
    TagIfMember(t, c, AcquisitionWords, "m&a");
    TagIfMember(t, c, LayoffWords, "layoffs");
    TagIfMember(t, c, PolicyWords, "policy");
    TagIfMember(t, c, LaunchWords, "product");
    TagIfMember(t, c, SecurityWords, "security");
  }

  /** Membership in a union of seven sets. */
  lemma UnionMember<T>(t: T, s0: set<T>, s1: set<T>, s2: set<T>, s3: set<T>,
                       s4: set<T>, s5: set<T>, s6: set<T>)
    ensures (t in s0 + s1 + s2 + s3 + s4 + s5 + s6) <==>
      (t in s0 || t in s1 || t in s2 || t in s3 || t in s4 || t in s5 || t in s6)
  {
  }

  lemma TagIfMember(t: string, c: string, w: seq<string>, g: string)
    ensures t in TagIf(c, w, g) <==> t == g && AnyIn(c, w)
  {
  }

  /** There is at least one tag and at most seven: the list(set(...)) of
      the source holds no duplicates. */
  lemma TagsCount(a: Article)
    ensures 1 <= |Tags(a)| <= 7
  {
    var u := TagUniverse(a.category);
    forall t | t in Tags(a) ensures t in u {
      TagsMembership(a, t);
    }
    TagsMembership(a, a.category);
    SubsetCard({a.category}, Tags(a));
    SubsetCard(Tags(a), u);
    UniverseCard(a.category);
  }

  lemma UniverseCard(category: string)
    ensures |TagUniverse(category)| <= 7
  {
    var s := {"funding", "m&a", "layoffs", "policy", "product", "security"};
    assert TagUniverse(category) == {category} + s;
  }

  // ---------------------------------------------------------------------
  // rank_articles
  // ---------------------------------------------------------------------

  /** The four scores stored under article['scores']. */
  datatype Scores = Scores(virality: real, impact: real, controversy: real, final: real)

  /** An article after rank_articles has added its scores, summary and
      tags. */
  datatype Ranked = Ranked(article: Article, scores: Scores, summary: string, tags: set<string>)

  /** dict.get(url, default) */
  function Lookup<V>(m: map<string, V>, url: string, default: V): V {
    if url in m then m[url] else default
  }

  /** The scores processor.py:240-259 gives one article, given the two
      score dictionaries. */
  function ScoresOf(a: Article, virality: map<string, real>, controversy: map<string, int>): Scores {
    var v := Lookup(virality, a.url, 0.0);
    var c := Lookup(controversy, a.url, 0) as real;
    var i := ImpactOf(a);
    Scores(v, i, c, FinalScore(v, i, c))
  }

  /** The body of the loop of processor.py:237-265 for one article. */
  function Annotate(a: Article, virality: map<string, real>, controversy: map<string, int>): Ranked {
    Ranked(a, ScoresOf(a, virality, controversy), Summary(a), Tags(a))
  }

  /** The batch after the loop, still in input order: the k-th record is
      the k-th article annotated. */
  function Annotated(xs: seq<Article>, virality: map<string, real>, controversy: map<string, int>): (r: seq<Ranked>)
    ensures |r| == |xs|
    ensures forall k :: 0 <= k < |xs| ==> r[k] == Annotate(xs[k], virality, controversy)
    decreases |xs|
  {
    if xs == [] then []
    else
      var init := Annotated(Init(xs), virality, controversy);
      assert forall k :: 0 <= k < |xs| - 1 ==> Init(xs)[k] == xs[k];
      init + [Annotate(xs[|xs| - 1], virality, controversy)]
  }

  lemma AnnotatedSnoc(xs: seq<Article>, virality: map<string, real>, controversy: map<string, int>, i: nat)
    requires i < |xs|
    ensures Annotated(xs[..i + 1], virality, controversy) ==
      Annotated(xs[..i], virality, controversy) + [Annotate(xs[i], virality, controversy)]
  {
    assert Init(xs[..i + 1]) == xs[..i];
  }

  /** The sort key of processor.py:268. */
  function FinalOf(r: Ranked): real {
    r.scores.final
  }

  /** rank_articles as a function of its input. */
  function RankSpec(xs: seq<Article>): Result<seq<Ranked>> {
    if xs == [] then Ok([])
    else
      match ViralitySpec(xs)
      case Err(e) => Err(e)
      case Ok(virality) =>
        Ok(SortDesc(Annotated(xs, virality, ByUrl(xs, ControversyOf)), FinalOf))
  }

  /** processor.py:226-270. */
  method RankArticles(articles: seq<Article>) returns (r: Result<seq<Ranked>>)
    ensures r == RankSpec(articles)
  {
    if articles == [] {
      return Ok([]);
    }
    var viralityScores := ViralityScores(articles);
    if viralityScores.Err? {
      return Err(viralityScores.error);
    }
    var virality := viralityScores.value;
    var controversy := ControversyScores(articles);
    var annotated := AnnotateAll(articles, virality, controversy);
    return Ok(SortDesc(annotated, FinalOf));
  }

  /** The loop of processor.py:237-265. */
  method AnnotateAll(articles: seq<Article>, virality: map<string, real>, controversy: map<string, int>)
    returns (annotated: seq<Ranked>)
    ensures annotated == Annotated(articles, virality, controversy)
  {
    annotated := [];
    var i := 0;
    while i < |articles|
      invariant 0 <= i <= |articles|
      invariant annotated == Annotated(articles[..i], virality, controversy)
    {
      AnnotatedSnoc(articles, virality, controversy, i);
      var ranked := AnnotateArticle(articles[i], virality, controversy);
      annotated := annotated + [ranked];
      i := i + 1;
    }
    assert articles[..i] == articles;
  }

  /** One iteration of processor.py:237-265. */
  method AnnotateArticle(article: Article, virality: map<string, real>, controversy: map<string, int>)
    returns (r: Ranked)
    ensures r == Annotate(article, virality, controversy)
  {
    var url := article.url;
    var impactScore := ImpactScore(article);
    var viralityScore := Lookup(virality, url, 0.0);
    var controversyScore := Lookup(controversy, url, 0) as real;
    var finalScore := FinalScore(viralityScore, impactScore, controversyScore);
    r := Ranked(article, Scores(viralityScore, impactScore, controversyScore, finalScore),
      Summary(article), Tags(article));
  }

  /** All four scores lie in [0, 100]. */
  predicate Bounded(s: Scores) {
    && 0.0 <= s.virality <= 100.0 && 0.0 <= s.impact <= 100.0
    && 0.0 <= s.controversy <= 100.0 && 0.0 <= s.final <= 100.0
  }

  /** With every dictionary value in [0, 100], all four scores of an
      article lie in [0, 100]. */
  lemma ScoresBounded(a: Article, virality: map<string, real>, controversy: map<string, int>)
    requires forall u :: u in virality ==> 0.0 <= virality[u] <= 100.0
    requires forall u :: u in controversy ==> 0 <= controversy[u] <= 100
    ensures Bounded(ScoresOf(a, virality, controversy))
  {
    ImpactProperties(a, []);
    var s := ScoresOf(a, virality, controversy);
    FinalScoreProperties(s.virality, s.impact, s.controversy, 0.0, 0.0, 0.0);
  }

  /** No virality score is negative or above 100 when no Reddit score or
      comment count is negative. */
  lemma ViralityValuesBounded(xs: seq<Article>)
    requires forall j :: 0 <= j < |xs| ==> xs[j].redditScore >= 0 && xs[j].redditComments >= 0
    requires ViralitySpec(xs).Ok?
    ensures forall u :: u in ViralitySpec(xs).value ==> 0.0 <= ViralitySpec(xs).value[u] <= 100.0
  {
    if xs != [] {
      var m := MaxOf(Engagements(xs));
      var f := (a: Article) => Virality(a, m);
      assert ViralitySpec(xs).value == ByUrl(xs, f);
      forall u | u in ByUrl(xs, f) ensures 0.0 <= ByUrl(xs, f)[u] <= 100.0 {
        var i := ByUrlValue(xs, f, u);
        assert Engagements(xs)[i] == Engagement(xs[i]);
        DivBounds(Engagement(xs[i]), m);
      }
    }
  }

  /** Every controversy score lies in [0, 100]. */
  lemma ControversyValuesBounded(xs: seq<Article>)
    ensures forall u :: u in ByUrl(xs, ControversyOf) ==> 0 <= ByUrl(xs, ControversyOf)[u] <= 100
  {
    forall u | u in ByUrl(xs, ControversyOf) ensures 0 <= ByUrl(xs, ControversyOf)[u] <= 100 {
      var i := ByUrlValue(xs, ControversyOf, u);
      ControversyProperties(xs[i]);
    }
  }

  /** Annotating with in-range dictionaries gives every article scores in
      [0, 100]. */
  lemma {:induction false} AnnotatedAllBounded(ys: seq<Article>, virality: map<string, real>, controversy: map<string, int>)
    requires forall u :: u in virality ==> 0.0 <= virality[u] <= 100.0
    requires forall u :: u in controversy ==> 0 <= controversy[u] <= 100
    ensures forall k :: 0 <= k < |Annotated(ys, virality, controversy)| ==>
      Bounded(Annotated(ys, virality, controversy)[k].scores)
    decreases |ys|
  {
    if ys != [] {
      AnnotatedAllBounded(Init(ys), virality, controversy);
      ScoresBounded(ys[|ys| - 1], virality, controversy);
    }
  }

  /** Every article rank_articles returns carries scores in [0, 100] when
      no Reddit score or comment count is negative. */
  lemma RankBounded(xs: seq<Article>)
    requires forall j :: 0 <= j < |xs| ==> xs[j].redditScore >= 0 && xs[j].redditComments >= 0
    ensures RankSpec(xs).Ok? ==>
      forall k :: 0 <= k < |RankSpec(xs).value| ==> Bounded(RankSpec(xs).value[k].scores)
  {
    if xs != [] && ViralitySpec(xs).Ok? {
      ViralityValuesBounded(xs);
      ControversyValuesBounded(xs);
      var ann := Annotated(xs, ViralitySpec(xs).value, ByUrl(xs, ControversyOf));
      AnnotatedAllBounded(xs, ViralitySpec(xs).value, ByUrl(xs, ControversyOf));
      PermutationBounded(SortDesc(ann, FinalOf), ann);
    }
  }

  /** Reordering keeps every score in range. */
  lemma PermutationBounded(r: seq<Ranked>, ann: seq<Ranked>)
    requires multiset(r) == multiset(ann)
    requires forall l :: 0 <= l < |ann| ==> Bounded(ann[l].scores)
    ensures forall k :: 0 <= k < |r| ==> Bounded(r[k].scores)
  {
    forall k | 0 <= k < |r| ensures Bounded(r[k].scores) {
      assert r[k] in multiset(ann);
      var l :| 0 <= l < |ann| && ann[l] == r[k];
    }
  }

  /** Articles sharing a url get the virality score of the last of them,
      since the dictionary keeps the last write. */
  lemma SharedUrlSharesVirality(xs: seq<Article>, i: nat, j: nat)
    requires i < |xs| && j < |xs| && xs[i].url == xs[j].url
    requires forall l :: j < l < |xs| ==> xs[l].url != xs[j].url
    requires ViralitySpec(xs).Ok?
    ensures Lookup(ViralitySpec(xs).value, xs[i].url, 0.0) == Virality(xs[j], MaxOf(Engagements(xs)))
  {
    var m := MaxOf(Engagements(xs));
    ByUrlLast(xs, a => Virality(a, m), j);
  }

  /** Likewise for the controversy score. */
  lemma SharedUrlSharesControversy(xs: seq<Article>, i: nat, j: nat)
    requires i < |xs| && j < |xs| && xs[i].url == xs[j].url
    requires forall l :: j < l < |xs| ==> xs[l].url != xs[j].url
    ensures Lookup(ByUrl(xs, ControversyOf), xs[i].url, 0) == ControversyOf(xs[j])
  {
    ByUrlLast(xs, ControversyOf, j);
  }

  /** What rank_articles promises: [] for an empty batch; the division by
      zero of the virality scorer exactly when it raises; otherwise every
      input article annotated once (a permutation of the annotated batch),
      ordered by non-increasing final score, with ties in input order. */
  lemma RankProperties(xs: seq<Article>)
    ensures xs == [] ==> RankSpec(xs) == Ok([])
    ensures RankSpec(xs).Err? <==> ViralitySpec(xs).Err?
    ensures RankSpec(xs).Err? ==> RankSpec(xs).error == ZeroDivisionError
    ensures RankSpec(xs).Ok? && xs != [] ==>
      var ann := Annotated(xs, ViralitySpec(xs).value, ByUrl(xs, ControversyOf));
      var r := RankSpec(xs).value;
      && |r| == |xs|
      && multiset(r) == multiset(ann)
      && Descending(r, FinalOf)
      && StableFor(r, ann, FinalOf)
  {
    if xs != [] && ViralitySpec(xs).Ok? {
      SortDescSpec(Annotated(xs, ViralitySpec(xs).value, ByUrl(xs, ControversyOf)), FinalOf);
    }
  }

  // ---------------------------------------------------------------------
  // process_articles
  // ---------------------------------------------------------------------

  /** process_articles as a function of its input. */
  function ProcessSpec(md5: Digest, ratio: Ratio, now: int, xs: seq<Article>): Result<seq<Ranked>> {
    match DeduplicateSpec(md5, ratio, now, xs)
    case Err(e) => Err(e)
    case Ok(unique) => RankSpec(unique)
  }

  /** processor.py:299-311. */
  method ProcessArticles(md5: Digest, ratio: Ratio, now: int, articles: seq<Article>)
    returns (r: Result<seq<Ranked>>)
    ensures r == ProcessSpec(md5, ratio, now, articles)
  {
    var unique := DeduplicateArticles(md5, ratio, now, articles);
    if unique.Err? {
      return Err(unique.error);
    }
    r := RankArticles(unique.value);
  }

  /** The pipeline gives [] for an empty batch, raises TypeError exactly
      for an unorderable batch, and otherwise ranks the deduplicated
      articles: no more of them than came in, in non-increasing final
      score. */
  lemma ProcessProperties(md5: Digest, ratio: Ratio, now: int, xs: seq<Article>)
    ensures xs == [] ==> ProcessSpec(md5, ratio, now, xs) == Ok([])
    ensures !Orderable(xs) ==> ProcessSpec(md5, ratio, now, xs) == Err(TypeError)
    ensures Orderable(xs) && ProcessSpec(md5, ratio, now, xs).Err? ==>
      ProcessSpec(md5, ratio, now, xs) == Err(ZeroDivisionError)
    ensures ProcessSpec(md5, ratio, now, xs).Ok? ==>
      && |ProcessSpec(md5, ratio, now, xs).value| <= |xs|
      && Descending(ProcessSpec(md5, ratio, now, xs).value, FinalOf)
  {
    DeduplicateProperties(md5, ratio, now, xs);
    var d := DeduplicateSpec(md5, ratio, now, xs);
    if d.Ok? {
      RankProperties(d.value);
    }
  }
}
