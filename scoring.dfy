/** The three scorers of NewsProcessor (processor.py:155-224) and the
    IMPACT_CRITERIA table they read (config.py:137-178). */
module Scoring {
  import opened Wrappers
  import opened Text
  import opened Articles

  // ---------------------------------------------------------------------
  // Keyword tests
  // ---------------------------------------------------------------------

  /** any(k in text for k in keywords) */
  predicate AnyIn(text: string, keywords: seq<string>)
    decreases |keywords|
  {
    keywords != [] && (Contains(text, keywords[0]) || AnyIn(text, keywords[1..]))
  }

  lemma {:induction false} AnyInIff(text: string, keywords: seq<string>)
    ensures AnyIn(text, keywords) <==> exists k :: 0 <= k < |keywords| && Contains(text, keywords[k])
    decreases |keywords|
  {
    if keywords != [] {
      AnyInIff(text, keywords[1..]);
      if exists k :: 0 <= k < |keywords| && Contains(text, keywords[k]) {
        var k :| 0 <= k < |keywords| && Contains(text, keywords[k]);
        if k > 0 {
          assert keywords[1..][k - 1] == keywords[k];
        }
      }
    }
  }

  /** f"{title.lower()} {text.lower()}", the text every scorer searches. */
  function CombinedText(a: Article): string {
    Lower(a.title) + " " + Lower(a.text)
  }

  // ---------------------------------------------------------------------
  // Impact
  // ---------------------------------------------------------------------

  datatype Criterion = Criterion(name: string, keywords: seq<string>, score: int)

  /** IMPACT_CRITERIA, in its dictionary order. */
  const ImpactCriteria: seq<Criterion> := [
    Criterion("funding_round", ["funding", "raise", "investment", "series", "venture", "capital", "round"], 20),
    Criterion("acquisition", ["acquire", "acquisition", "merger", "buyout", "takeover", "purchase"], 25),
    Criterion("layoffs", ["layoff", "firing", "job cuts", "restructuring", "downsizing", "redundancy"], 15),
    Criterion("policy", ["regulation", "policy", "government", "legal", "law", "compliance"], 20),
    Criterion("product_launch", ["launch", "release", "announce", "new product", "beta", "preview"], 10),
    Criterion("security", ["hack", "breach", "security", "cyber", "vulnerability", "attack"], 15),
    Criterion("india_macro", ["india", "indian", "delhi", "mumbai", "bangalore", "hyderabad", "chennai"], 10),
    Criterion("ai_ml", ["ai", "artificial intelligence", "machine learning", "ml", "neural", "gpt"], 15),
    Criterion("crypto", ["crypto", "bitcoin", "blockchain", "nft", "defi", "ethereum"], 12),
    Criterion("ipo", ["ipo", "initial public offering", "public listing", "stock market"], 18)
  ]

  /** The summed score of the criteria (in cs) with a keyword hit in text:
      each criterion counts once however many of its keywords occur. */
  function MatchedScore(text: string, cs: seq<Criterion>): int
    decreases |cs|
  {
    if cs == [] then 0
    else
      var last := cs[|cs| - 1];
      MatchedScore(text, Init(cs)) + (if AnyIn(text, last.keywords) then last.score else 0)
  }

  ghost predicate NonNegativeScores(cs: seq<Criterion>) {
    forall k :: 0 <= k < |cs| ==> cs[k].score >= 0
  }

  /** min(x, 100.0) */
  function Cap(x: real): (r: real)
    ensures r <= 100.0 && r <= x && (r == x || r == 100.0)
  {
    if 100.0 < x then 100.0 else x
  }

  /** calculate_impact_score as a function of the article. */
  function ImpactOf(a: Article): real {
    Cap(MatchedScore(CombinedText(a), ImpactCriteria) as real)
  }

  /** processor.py:155-170. */
  method ImpactScore(a: Article) returns (score: real)
    ensures score == ImpactOf(a)
    ensures 0.0 <= score <= 100.0
  {
    var combined := CombinedText(a);
    var impact := 0.0;
    var i := 0;
    while i < |ImpactCriteria|
      invariant 0 <= i <= |ImpactCriteria|
      invariant impact == MatchedScore(combined, ImpactCriteria[..i]) as real
    {
      var criterion := ImpactCriteria[i];
      assert Init(ImpactCriteria[..i + 1]) == ImpactCriteria[..i];
      if AnyIn(combined, criterion.keywords) {
        impact := impact + criterion.score as real;
      }
      i := i + 1;
    }
    assert ImpactCriteria[..i] == ImpactCriteria;
    ImpactCriteriaNonNegative();
    MatchedScoreBounds(combined, ImpactCriteria);
    score := Cap(impact);
  }

  lemma ImpactCriteriaNonNegative()
    ensures NonNegativeScores(ImpactCriteria)
  {
  }

  /** With non-negative scores the sum lies between 0 and the sum of all
      scores. */
  lemma {:induction false} MatchedScoreBounds(text: string, cs: seq<Criterion>)
    requires NonNegativeScores(cs)
    ensures 0 <= MatchedScore(text, cs) <= TotalScore(cs)
    decreases |cs|
  {
    if cs != [] {
      MatchedScoreBounds(text, Init(cs));
    }
  }

  function TotalScore(cs: seq<Criterion>): int
    decreases |cs|
  {
    if cs == [] then 0 else TotalScore(Init(cs)) + cs[|cs| - 1].score
  }

  /** A text with every hit of another text (and maybe more) scores at
      least as much: impact is monotone in the set of matched criteria. */
  lemma {:induction false} MatchedScoreMonotone(t1: string, t2: string, cs: seq<Criterion>)
    requires NonNegativeScores(cs)
    requires forall k :: 0 <= k < |cs| ==> AnyIn(t1, cs[k].keywords) ==> AnyIn(t2, cs[k].keywords)
    ensures MatchedScore(t1, cs) <= MatchedScore(t2, cs)
    decreases |cs|
  {
    if cs != [] {
      MatchedScoreMonotone(t1, t2, Init(cs));
    }
  }

  /** Any keyword hit of a part is a hit of a text containing the part. */
  lemma {:induction false} AnyInInfix(a: string, b: string, c: string, keywords: seq<string>)
    requires AnyIn(b, keywords)
    ensures AnyIn(a + b + c, keywords)
    decreases |keywords|
  {
    if Contains(b, keywords[0]) {
      ContainsInfix(a, b, c, keywords[0]);
    } else {
      AnyInInfix(a, b, c, keywords[1..]);
    }
  }

  /** Appending to a text never loses a criterion it matched. */
  lemma MatchedScoreExtend(t: string, more: string, cs: seq<Criterion>)
    requires NonNegativeScores(cs)
    ensures MatchedScore(t, cs) <= MatchedScore(t + more, cs)
  {
    forall k | 0 <= k < |cs|
      ensures AnyIn(t, cs[k].keywords) ==> AnyIn(t + more, cs[k].keywords)
    {
      if AnyIn(t, cs[k].keywords) {
        AnyInInfix([], t, more, cs[k].keywords);
        assert [] + t + more == t + more;
      }
    }
    MatchedScoreMonotone(t, t + more, cs);
  }

  /** Impact stays in [0, 100], and longer body text never lowers it. */
  lemma ImpactProperties(a: Article, more: string)
    ensures 0.0 <= ImpactOf(a) <= 100.0
    ensures ImpactOf(a) <= ImpactOf(a.(text := a.text + more))
  {
    var t := CombinedText(a);
    assert Lower(a.text + more) == Lower(a.text) + Lower(more);
    assert CombinedText(a.(text := a.text + more)) == t + Lower(more);
    ImpactCriteriaNonNegative();
    MatchedScoreBounds(t, ImpactCriteria);
    MatchedScoreExtend(t, Lower(more), ImpactCriteria);
  }

  // The worked example: "Startup raises $5M Series A in Bangalore" with an
  // empty body scores 45, not 30. Besides funding ("raise", "series") and
  // india_macro ("bangalore"), ai_ml matches because "ai" occurs inside
  // "raises".

  const ExampleTitle: string := "Startup raises $5M Series A in Bangalore"

  /** The text the scorer searches for the example. */
  const ExampleText: string := "startup raises $5m series a in bangalore "

  lemma ExampleLacks1()
    ensures Lacks(ExampleText, 'c') && Lacks(ExampleText, 'y') && Lacks(ExampleText, 'k')
  {
  }

  lemma ExampleLacks2()
    ensures Lacks(ExampleText, 'f') && Lacks(ExampleText, 'j') && Lacks(ExampleText, 'd')
  {
  }

  lemma ExampleLacks3()
    ensures Lacks(ExampleText, 'v') && Lacks(ExampleText, 'w') && Lacks(ExampleText, 'h')
  {
  }

  lemma ExamplePairMe()
    ensures NoPair(ExampleText, 'm', 'e')
  {
  }

  lemma ExamplePairEg()
    ensures NoPair(ExampleText, 'e', 'g')
  {
  }

  lemma ExamplePairLe()
    ensures NoPair(ExampleText, 'l', 'e')
  {
  }

  lemma ExamplePairEl()
    ensures NoPair(ExampleText, 'e', 'l')
  {
  }

  lemma ExamplePairBe()
    ensures NoPair(ExampleText, 'b', 'e')
  {
  }

  lemma ExamplePairIp()
    ensures NoPair(ExampleText, 'i', 'p')
  {
  }

  /** No keyword of the list occurs in text. */
  lemma NoneIn(text: string, keywords: seq<string>)
    requires forall k :: 0 <= k < |keywords| ==> !Contains(text, keywords[k])
    ensures !AnyIn(text, keywords)
  {
    AnyInIff(text, keywords);
  }

  /** The acquisition criterion finds none of its keywords in the example. */
  lemma ExampleMissesAcquisition(t: string)
    requires Lacks(t, 'c') && Lacks(t, 'k') && Lacks(t, 'y') && NoPair(t, 'm', 'e')
    ensures !AnyIn(t, ImpactCriteria[1].keywords)
  {
    AbsentChar(t, "acquire", 1, 'c');
    AbsentChar(t, "acquisition", 1, 'c');
    AbsentPair(t, "merger", 0, 'm', 'e');
    AbsentChar(t, "buyout", 2, 'y');
    AbsentChar(t, "takeover", 2, 'k');
    AbsentChar(t, "purchase", 3, 'c');
    assert ImpactCriteria[1].keywords == ["acquire", "acquisition", "merger", "buyout", "takeover", "purchase"];
    NoneIn(t, ImpactCriteria[1].keywords);
  }

  /** The layoffs criterion finds none of its keywords in the example. */
  lemma ExampleMissesLayoffs(t: string)
    requires Lacks(t, 'c') && Lacks(t, 'd') && Lacks(t, 'f') && Lacks(t, 'j') && Lacks(t, 'y')
    ensures !AnyIn(t, ImpactCriteria[2].keywords)
  {
    AbsentChar(t, "layoff", 2, 'y');
    AbsentChar(t, "firing", 0, 'f');
    AbsentChar(t, "job cuts", 0, 'j');
    AbsentChar(t, "restructuring", 6, 'c');
    AbsentChar(t, "downsizing", 0, 'd');
    AbsentChar(t, "redundancy", 2, 'd');
    assert ImpactCriteria[2].keywords == ["layoff", "firing", "job cuts", "restructuring", "downsizing", "redundancy"];
    NoneIn(t, ImpactCriteria[2].keywords);
  }

  /** The policy criterion finds none of its keywords in the example. */
  lemma ExampleMissesPolicy(t: string)
    requires Lacks(t, 'c') && Lacks(t, 'v') && Lacks(t, 'w') && NoPair(t, 'e', 'g') && NoPair(t, 'l', 'e')
    ensures !AnyIn(t, ImpactCriteria[3].keywords)
  {
    AbsentPair(t, "regulation", 1, 'e', 'g');
    AbsentChar(t, "policy", 4, 'c');
    AbsentChar(t, "government", 2, 'v');
    AbsentPair(t, "legal", 0, 'l', 'e');
    AbsentChar(t, "law", 2, 'w');
    AbsentChar(t, "compliance", 0, 'c');
    assert ImpactCriteria[3].keywords == ["regulation", "policy", "government", "legal", "law", "compliance"];
    NoneIn(t, ImpactCriteria[3].keywords);
  }

  /** The product_launch criterion finds none of its keywords in the example. */
  lemma ExampleMissesProductLaunch(t: string)
    requires Lacks(t, 'c') && Lacks(t, 'v') && Lacks(t, 'w') && NoPair(t, 'e', 'l') && NoPair(t, 'b', 'e')
    ensures !AnyIn(t, ImpactCriteria[4].keywords)
  {
    AbsentChar(t, "launch", 4, 'c');
    AbsentPair(t, "release", 1, 'e', 'l');
    AbsentChar(t, "announce", 6, 'c');
    AbsentChar(t, "new product", 2, 'w');
    AbsentPair(t, "beta", 0, 'b', 'e');
    AbsentChar(t, "preview", 3, 'v');
    assert ImpactCriteria[4].keywords == ["launch", "release", "announce", "new product", "beta", "preview"];
    NoneIn(t, ImpactCriteria[4].keywords);
  }

  /** The security criterion finds none of its keywords in the example. */
  lemma ExampleMissesSecurity(t: string)
    requires Lacks(t, 'c') && Lacks(t, 'h') && Lacks(t, 'v')
    ensures !AnyIn(t, ImpactCriteria[5].keywords)
  {
    AbsentChar(t, "hack", 0, 'h');
    AbsentChar(t, "breach", 4, 'c');
    AbsentChar(t, "security", 2, 'c');
    AbsentChar(t, "cyber", 0, 'c');
    AbsentChar(t, "vulnerability", 0, 'v');
    AbsentChar(t, "attack", 4, 'c');
    assert ImpactCriteria[5].keywords == ["hack", "breach", "security", "cyber", "vulnerability", "attack"];
    NoneIn(t, ImpactCriteria[5].keywords);
  }

  /** The crypto criterion finds none of its keywords in the example. */
  lemma ExampleMissesCrypto(t: string)
    requires Lacks(t, 'c') && Lacks(t, 'd') && Lacks(t, 'f') && Lacks(t, 'h')
    ensures !AnyIn(t, ImpactCriteria[8].keywords)
  {
    AbsentChar(t, "crypto", 0, 'c');
    AbsentChar(t, "bitcoin", 3, 'c');
    AbsentChar(t, "blockchain", 3, 'c');
    AbsentChar(t, "nft", 1, 'f');
    AbsentChar(t, "defi", 0, 'd');
    AbsentChar(t, "ethereum", 2, 'h');
    assert ImpactCriteria[8].keywords == ["crypto", "bitcoin", "blockchain", "nft", "defi", "ethereum"];
    NoneIn(t, ImpactCriteria[8].keywords);
  }

  /** The ipo criterion finds none of its keywords in the example. */
  lemma ExampleMissesIpo(t: string)
    requires Lacks(t, 'c') && NoPair(t, 'i', 'p')
    ensures !AnyIn(t, ImpactCriteria[9].keywords)
  {
    AbsentPair(t, "ipo", 0, 'i', 'p');
    AbsentChar(t, "initial public offering", 13, 'c');
    AbsentChar(t, "public listing", 5, 'c');
    AbsentChar(t, "stock market", 3, 'c');
    assert ImpactCriteria[9].keywords == ["ipo", "initial public offering", "public listing", "stock market"];
    NoneIn(t, ImpactCriteria[9].keywords);
  }

  /** A text holding one keyword of the list matches the list. */
  lemma OneIn(text: string, keywords: seq<string>, k: nat, i: nat)
    requires k < |keywords| && OccursAt(text, keywords[k], i)
    ensures AnyIn(text, keywords)
  {
    ContainsIff(text, keywords[k]);
    AnyInIff(text, keywords);
  }

  lemma ExampleHitsFunding()
    ensures AnyIn(ExampleText, ImpactCriteria[0].keywords)
  {
    var t := ExampleText;
    assert t[8] == 'r' && t[9] == 'a' && t[10] == 'i' && t[11] == 's' && t[12] == 'e';
    assert t[8..13] == "raise";
    OneIn(t, ImpactCriteria[0].keywords, 1, 8);
  }

  lemma ExampleHitsIndia()
    ensures AnyIn(ExampleText, ImpactCriteria[6].keywords)
  {
    var t := ExampleText;
    assert t[31] == 'b' && t[32] == 'a' && t[33] == 'n' && t[34] == 'g' && t[35] == 'a';
    assert t[36] == 'l' && t[37] == 'o' && t[38] == 'r' && t[39] == 'e';
    assert t[31..40] == "bangalore";
    OneIn(t, ImpactCriteria[6].keywords, 4, 31);
  }

  lemma ExampleHitsAi()
    ensures AnyIn(ExampleText, ImpactCriteria[7].keywords)
  {
    var t := ExampleText;
    assert t[9] == 'a' && t[10] == 'i';
    assert t[9..11] == "ai";
    OneIn(t, ImpactCriteria[7].keywords, 0, 9);
  }

  /** Adding one more criterion to the sum. */
  lemma MatchedScoreSnoc(text: string, cs: seq<Criterion>, i: nat)
    requires i < |cs|
    ensures MatchedScore(text, cs[..i + 1]) ==
      MatchedScore(text, cs[..i]) + (if AnyIn(text, cs[i].keywords) then cs[i].score else 0)
  {
    assert Init(cs[..i + 1]) == cs[..i];
  }

  /** Ten criteria of which exactly the first, seventh and eighth match
      sum to the scores of those three. */
  lemma ExampleSum(t: string, cs: seq<Criterion>)
    requires |cs| == 10
    requires AnyIn(t, cs[0].keywords) && AnyIn(t, cs[6].keywords) && AnyIn(t, cs[7].keywords)
    requires !AnyIn(t, cs[1].keywords) && !AnyIn(t, cs[2].keywords) && !AnyIn(t, cs[3].keywords)
    requires !AnyIn(t, cs[4].keywords) && !AnyIn(t, cs[5].keywords)
    requires !AnyIn(t, cs[8].keywords) && !AnyIn(t, cs[9].keywords)
    ensures MatchedScore(t, cs) == cs[0].score + cs[6].score + cs[7].score
  {
    assert cs[..0] == [];
    MatchedScoreSnoc(t, cs, 0);
    MatchedScoreSnoc(t, cs, 1);
    MatchedScoreSnoc(t, cs, 2);
    MatchedScoreSnoc(t, cs, 3);
    MatchedScoreSnoc(t, cs, 4);
    MatchedScoreSnoc(t, cs, 5);
    MatchedScoreSnoc(t, cs, 6);
    MatchedScoreSnoc(t, cs, 7);
    MatchedScoreSnoc(t, cs, 8);
    MatchedScoreSnoc(t, cs, 9);
    assert cs[..10] == cs;
  }

  /** The example text matches funding_round, india_macro and ai_ml and no
      other criterion. */
  lemma ExampleScore()
    ensures MatchedScore(ExampleText, ImpactCriteria) == 45
  {
    var t := ExampleText;
    ExampleLacks1();
    ExampleLacks2();
    ExampleLacks3();
    ExamplePairMe();
    ExamplePairEg();
    ExamplePairLe();
    ExamplePairEl();
    ExamplePairBe();
    ExamplePairIp();
    ExampleMissesAcquisition(t);
    ExampleMissesLayoffs(t);
    ExampleMissesPolicy(t);
    ExampleMissesProductLaunch(t);
    ExampleMissesSecurity(t);
    ExampleMissesCrypto(t);
    ExampleMissesIpo(t);
    ExampleHitsFunding();
    ExampleHitsIndia();
    ExampleHitsAi();
    ExampleSum(t, ImpactCriteria);
  }

  /** calculate_impact_score of the example article is 45: 20 for
      funding_round, 10 for india_macro and 15 for ai_ml. */
  lemma ImpactExample(a: Article)
    requires a.title == ExampleTitle && a.text == ""
    ensures ImpactOf(a) == 45.0
  {
    ExampleCombined(a);
    ExampleScore();
  }

  lemma ExampleCombined(a: Article)
    requires a.title == ExampleTitle && a.text == ""
    ensures CombinedText(a) == ExampleText
  {
    ExampleTitleSplit();
    LowerConcat("Startup raises $5M ", "Series A in Bangalore");
    ExampleLowerHead();
    ExampleLowerTail();
    ExampleTextJoin();
    assert Lower(a.text) == [];
  }

  lemma ExampleTitleSplit()
    ensures ExampleTitle == "Startup raises $5M " + "Series A in Bangalore"
  {
  }

  lemma ExampleTextJoin()
    ensures "startup raises $5m " + "series a in bangalore" + " " == ExampleText
  {
  }

  lemma ExampleLowerHead()
    ensures Lower("Startup raises $5M ") == "startup raises $5m "
  {
  }

  lemma ExampleLowerTail()
    ensures Lower("Series A in Bangalore") == "series a in bangalore"
  {
  }

  // ---------------------------------------------------------------------
  // Scores keyed by url
  // ---------------------------------------------------------------------

  /** {a.get('url', ''): f(a) for a in xs}, filled in order, so a later
      article with the same url overwrites an earlier one. */
  function ByUrl<V>(xs: seq<Article>, f: Article -> V): map<string, V>
    decreases |xs|
  {
    if xs == [] then map[]
    else ByUrl(Init(xs), f)[xs[|xs| - 1].url := f(xs[|xs| - 1])]
  }

  /** Filling the dictionary one more article. */
  lemma ByUrlSnoc<V>(xs: seq<Article>, f: Article -> V, i: nat)
    requires i < |xs|
    ensures ByUrl(xs[..i + 1], f) == ByUrl(xs[..i], f)[xs[i].url := f(xs[i])]
  {
    assert Init(xs[..i + 1]) == xs[..i];
  }

  /** Every url of the batch is a key, and nothing else is. */
  lemma {:induction false} ByUrlKeys<V>(xs: seq<Article>, f: Article -> V, u: string)
    ensures u in ByUrl(xs, f) <==> exists i :: 0 <= i < |xs| && xs[i].url == u
    decreases |xs|
  {
    if xs != [] {
      ByUrlKeys(Init(xs), f, u);
      if exists i :: 0 <= i < |xs| && xs[i].url == u {
        var i :| 0 <= i < |xs| && xs[i].url == u;
        if i < |xs| - 1 {
          assert Init(xs)[i] == xs[i];
        }
      }
    }
  }

  /** The value under a url is f of some article with that url. */
  lemma {:induction false} ByUrlValue<V>(xs: seq<Article>, f: Article -> V, u: string) returns (i: nat)
    requires u in ByUrl(xs, f)
    ensures i < |xs| && xs[i].url == u && ByUrl(xs, f)[u] == f(xs[i])
    decreases |xs|
  {
    var n := |xs| - 1;
    if xs[n].url == u {
      i := n;
    } else {
      i := ByUrlValue(Init(xs), f, u);
    }
  }

  /** The value under a url is f of the last article with that url. */
  lemma {:induction false} ByUrlLast<V>(xs: seq<Article>, f: Article -> V, i: nat)
    requires i < |xs|
    requires forall j :: i < j < |xs| ==> xs[j].url != xs[i].url
    ensures xs[i].url in ByUrl(xs, f) && ByUrl(xs, f)[xs[i].url] == f(xs[i])
    decreases |xs|
  {
    if i < |xs| - 1 {
      ByUrlLast(Init(xs), f, i);
    }
  }

  // ---------------------------------------------------------------------
  // Virality
  // ---------------------------------------------------------------------

  /** reddit_score + reddit_comments * 0.1, with missing keys read as 0. */
  function Engagement(a: Article): real {
    a.redditScore as real + a.redditComments as real * 0.1
  }

  /** Python's max() over a non-empty list. */
  function MaxOf(xs: seq<real>): (m: real)
    requires xs != []
    ensures exists k :: 0 <= k < |xs| && xs[k] == m
    ensures forall k :: 0 <= k < |xs| ==> xs[k] <= m
    decreases |xs|
  {
    if |xs| == 1 then xs[0]
    else
      var rest := MaxOf(xs[1..]);
      assert forall k :: 1 <= k < |xs| ==> xs[k] == xs[1..][k - 1];
      if rest < xs[0] then xs[0] else rest
  }

  /** The engagement list of processor.py:178-187. */
  function Engagements(xs: seq<Article>): (r: seq<real>)
    ensures |r| == |xs| && forall i :: 0 <= i < |xs| ==> r[i] == Engagement(xs[i])
  {
    seq(|xs|, i requires 0 <= i < |xs| => Engagement(xs[i]))
  }

  /** (engagement / max_engagement) * 100 */
  function Virality(a: Article, maxEngagement: real): real
    requires maxEngagement != 0.0
  {
    Engagement(a) / maxEngagement * 100.0
  }

  /** calculate_virality_score as a function of the batch. */
  function ViralitySpec(xs: seq<Article>): Result<map<string, real>> {
    if xs == [] then Ok(map[])
    else
      var m := MaxOf(Engagements(xs));
      if m == 0.0 then Err(ZeroDivisionError)
      else Ok(ByUrl(xs, a => Virality(a, m)))
  }

  /** processor.py:172-199. The branch for an empty engagement list
      (processor.py:196-197) cannot be reached and is not modelled. */
  method ViralityScores(articles: seq<Article>) returns (r: Result<map<string, real>>)
    ensures r == ViralitySpec(articles)
  {
    if articles == [] {
      return Ok(map[]);
    }
    var engagementData: seq<real> := [];
    var i := 0;
    while i < |articles|
      invariant 0 <= i <= |articles|
      invariant engagementData == Engagements(articles[..i])
    {
      var engagement := articles[i].redditScore as real + articles[i].redditComments as real * 0.1;
      engagementData := engagementData + [engagement];
      i := i + 1;
    }
    assert articles[..i] == articles;
    var maxEngagement := MaxOf(engagementData);
    if maxEngagement == 0.0 {
      return Err(ZeroDivisionError);
    }
    var scores: map<string, real> := map[];
    i := 0;
    while i < |articles|
      invariant 0 <= i <= |articles|
      invariant scores == ByUrl(articles[..i], a => Virality(a, maxEngagement))
    {
      ByUrlSnoc(articles, a => Virality(a, maxEngagement), i);
      var normalized := engagementData[i] / maxEngagement * 100.0;
      scores := scores[articles[i].url := normalized];
      i := i + 1;
    }
    assert articles[..i] == articles;
    return Ok(scores);
  }

  /** calculate_virality_score gives {} for an empty batch, and fails
      only with a division by zero, exactly when the batch is not empty
      and its largest engagement is 0. */
  lemma ViralityOutcome(xs: seq<Article>)
    ensures xs == [] ==> ViralitySpec(xs) == Ok(map[])
    ensures ViralitySpec(xs).Err? <==> xs != [] && MaxOf(Engagements(xs)) == 0.0
    ensures ViralitySpec(xs).Err? ==> ViralitySpec(xs).error == ZeroDivisionError
  {
  }

  /** For a non-empty batch: a division by zero exactly when the largest
      engagement is 0; otherwise every url gets the score of the last
      article with that url, which is 100 for an article of maximal
      engagement and lies in [0, 100] when no engagement is negative. */
  lemma ViralityProperties(xs: seq<Article>, i: nat)
    requires i < |xs|
    requires forall j :: i < j < |xs| ==> xs[j].url != xs[i].url
    ensures ViralitySpec(xs).Err? <==> MaxOf(Engagements(xs)) == 0.0
    ensures ViralitySpec(xs).Ok? ==>
      && xs[i].url in ViralitySpec(xs).value
      && ViralitySpec(xs).value[xs[i].url] == Engagement(xs[i]) / MaxOf(Engagements(xs)) * 100.0
      && (Engagement(xs[i]) == MaxOf(Engagements(xs)) ==> ViralitySpec(xs).value[xs[i].url] == 100.0)
      && ((forall j :: 0 <= j < |xs| ==> Engagement(xs[j]) >= 0.0) ==>
            0.0 <= ViralitySpec(xs).value[xs[i].url] <= 100.0)
  {
    var m := MaxOf(Engagements(xs));
    if m != 0.0 {
      ByUrlLast(xs, a => Virality(a, m), i);
      var e := Engagements(xs)[i];
      assert e == Engagement(xs[i]);
      ScaledBounds(e, m);
    }
  }

  /** e / m * 100 is 100 at e == m and lies in [0, 100] for 0 <= e <= m. */
  lemma ScaledBounds(e: real, m: real)
    requires m != 0.0
    ensures e == m ==> e / m * 100.0 == 100.0
    ensures 0.0 <= e <= m ==> 0.0 <= e / m * 100.0 <= 100.0
  {
    if e == m {
      assert e / m == 1.0;
    }
    if 0.0 <= e <= m {
      DivBounds(e, m);
    }
  }

  lemma DivBounds(e: real, m: real)
    requires 0.0 <= e <= m && m != 0.0
    ensures 0.0 <= e / m * 100.0 <= 100.0
  {
    assert e / m <= 1.0;
  }

  /** Reddit scores [100, 50, 0] with comments [10, 5, 0] give virality
      [100, 50, 0]. */
  lemma ViralityExample(a: Article, b: Article, c: Article)
    requires a.url == "a" && b.url == "b" && c.url == "c"
    requires a.redditScore == 100 && a.redditComments == 10
    requires b.redditScore == 50 && b.redditComments == 5
    requires c.redditScore == 0 && c.redditComments == 0
    ensures ViralitySpec([a, b, c]) == Ok(map["a" := 100.0, "b" := 50.0, "c" := 0.0])
  {
    var xs := [a, b, c];
    assert Engagements(xs) == [101.0, 50.5, 0.0];
    assert MaxOf([101.0, 50.5, 0.0]) == 101.0 by {
      assert MaxOf([0.0]) == 0.0;
      assert [101.0, 50.5, 0.0][1..] == [50.5, 0.0] && [50.5, 0.0][1..] == [0.0];
    }
    var f := (x: Article) => Virality(x, 101.0);
    assert f(a) == 100.0 && f(b) == 50.0 && f(c) == 0.0;
    assert Init(xs) == [a, b] && Init([a, b]) == [a] && Init([a]) == [];
    assert ByUrl([a], f) == map["a" := 100.0];
    assert ByUrl([a, b], f) == map["a" := 100.0, "b" := 50.0];
  }

  // ---------------------------------------------------------------------
  // Controversy
  // ---------------------------------------------------------------------

  const ControversyKeywords: seq<string> := [
    "controversy", "debate", "dispute", "conflict", "criticism",
    "backlash", "outrage", "protest", "boycott", "lawsuit"
  ]

  /** sum(1 for k in keywords if k in text) */
  function Hits(text: string, keywords: seq<string>): (n: nat)
    ensures n <= |keywords|
    decreases |keywords|
  {
    if keywords == [] then 0
    else Hits(text, Init(keywords)) + (if Contains(text, keywords[|keywords| - 1]) then 1 else 0)
  }

  /** The positions of the keywords that occur in text. */
  ghost function HitSet(text: string, keywords: seq<string>): set<nat> {
    set k: nat | k < |keywords| && Contains(text, keywords[k])
  }

  /** Hits counts the keywords that occur, each once. */
  lemma {:induction false} HitsCounts(text: string, keywords: seq<string>)
    ensures Hits(text, keywords) == |HitSet(text, keywords)|
    decreases |keywords|
  {
    if keywords != [] {
      var n := |keywords| - 1;
      HitsCounts(text, Init(keywords));
      var before := HitSet(text, Init(keywords));
      var now := HitSet(text, keywords);
      if Contains(text, keywords[n]) {
        assert now == before + {n};
      } else {
        assert now == before;
      }
    }
  }

  /** The ten keywords are distinct, so Hits counts distinct keywords. */
  lemma ControversyKeywordsDistinct()
    ensures forall i, j :: 0 <= i < j < |ControversyKeywords| ==> ControversyKeywords[i] != ControversyKeywords[j]
  {
  }

  /** min(count * 20, 100) */
  function Saturated(count: nat): int {
    if 100 < count * 20 then 100 else count * 20
  }

  function Min(a: int, b: int): int {
    if a <= b then a else b
  }

  /** The saturated count of any keyword list: 20 per distinct keyword
      position found, at most five of them. */
  lemma SaturatedHits(text: string, keywords: seq<string>)
    ensures 0 <= Saturated(Hits(text, keywords)) <= 100
    ensures Saturated(Hits(text, keywords)) % 20 == 0
    ensures Saturated(Hits(text, keywords)) == 20 * Min(|HitSet(text, keywords)|, 5)
  {
    HitsCounts(text, keywords);
  }

  /** calculate_controversy_score for one article. */
  function ControversyOf(a: Article): int {
    Saturated(Hits(CombinedText(a), ControversyKeywords))
  }

  /** The controversy score is a multiple of 20 in [0, 100]: 20 per
      distinct keyword found, saturating at five. */
  lemma ControversyProperties(a: Article)
    ensures 0 <= ControversyOf(a) <= 100 && ControversyOf(a) % 20 == 0
    ensures ControversyOf(a) == 20 * Min(|HitSet(CombinedText(a), ControversyKeywords)|, 5)
  {
    SaturatedHits(CombinedText(a), ControversyKeywords);
  }

  /** processor.py:201-224. */
  method ControversyScores(articles: seq<Article>) returns (scores: map<string, int>)
    ensures scores == ByUrl(articles, ControversyOf)
  {
    scores := map[];
    var i := 0;
    while i < |articles|
      invariant 0 <= i <= |articles|
      invariant scores == ByUrl(articles[..i], ControversyOf)
    {
      var article := articles[i];
      ByUrlSnoc(articles, ControversyOf, i);
      var combined := CombinedText(article);
      var count := Hits(combined, ControversyKeywords);
      scores := scores[article.url := Saturated(count)];
      i := i + 1;
    }
    assert articles[..i] == articles;
  }
}
