/** search_editions of data_manager.py: the articles of the stored
    editions that pass a category filter, a minimum score and a
    case-insensitive text query, each with the date it was found under. */
module Search {
  import opened Wrappers
  import opened Text
  import opened Sorting
  import opened Editions
  import opened Store

  /** The arguments of search_editions; an empty or absent category
      filter filters nothing. */
  datatype Query = Query(
    text: string,
    dateRange: Option<(Date, Date)>,
    category: Option<string>,
    minScore: real)

  /** One result: the date string it was found under, and the article. */
  datatype Hit = Hit(date: string, article: StoredArticle)

  predicate CategoryPasses(q: Query, a: StoredArticle) {
    q.category.None? || q.category.value == [] || CategoryOf(a) == q.category.value
  }

  predicate TextMatches(q: Query, a: StoredArticle) {
    Contains(Lower(TitleOf(a)), Lower(q.text)) || Contains(Lower(SummaryTextOf(a)), Lower(q.text))
  }

  /** The three filters of the inner loop. */
  predicate Matches(q: Query, a: StoredArticle) {
    CategoryPasses(q, a) && FinalScoreOf(a) >= q.minScore && TextMatches(q, a)
  }

  /** The inclusive date range, when there is one. */
  predicate InRange(q: Query, d: Date) {
    q.dateRange.None? || (DateLe(q.dateRange.value.0, d) && DateLe(d, q.dateRange.value.1))
  }

  /** The hits among the articles of one edition, in article order. */
  function HitsIn(q: Query, dateStr: string, articles: seq<StoredArticle>): seq<Hit>
    decreases |articles|
  {
    if articles == [] then []
    else
      var a := articles[|articles| - 1];
      HitsIn(q, dateStr, Init(articles)) + (if Matches(q, a) then [Hit(dateStr, a)] else [])
  }

  /** What one available date contributes. The date string is parsed
      (a ValueError escapes); a date outside the range, or without a
      loadable non-empty edition in the current directory, gives nothing. */
  function EditionHits(data: Directory, q: Query, dateStr: string): Result<seq<Hit>> {
    match ParseDate(dateStr)
    case Err(e) => Err(e)
    case Ok(d) =>
      if !InRange(q, d) then Ok([])
      else
        match LoadDaily(data, d)
        case None => Ok([])
        case Some(e) => Ok(HitsIn(q, dateStr, ArticlesOf(e)))
  }

  /** search_editions over the given directories. */
  function SearchResults(data: Directory, archive: Directory, q: Query): Result<seq<Hit>> {
    Concat(ds => EditionHits(data, q, ds), AvailableDates(data, archive))
  }

  method CollectHits(q: Query, dateStr: string, articles: seq<StoredArticle>, results0: seq<Hit>) returns (results: seq<Hit>)
    ensures results == results0 + HitsIn(q, dateStr, articles)
  {
    results := results0;
    for i := 0 to |articles|
      invariant results == results0 + HitsIn(q, dateStr, articles[..i])
    {
      assert Init(articles[..i + 1]) == articles[..i];
      var article := articles[i];
      var title := Lower(TitleOf(article));
      var summary := Lower(SummaryTextOf(article));
      if q.category.Some? && q.category.value != [] && CategoryOf(article) != q.category.value {
        continue;
      }
      if FinalScoreOf(article) < q.minScore {
        continue;
      }
      if Contains(title, Lower(q.text)) || Contains(summary, Lower(q.text)) {
        results := results + [Hit(dateStr, article)];
      }
    }
    assert articles[..|articles|] == articles;
  }

  /** The results so far, extended by what one date contributes. */
  function Append(results: seq<Hit>, step: Result<seq<Hit>>): Result<seq<Hit>> {
    match step
    case Err(e) => Err(e)
    case Ok(hits) => Ok(results + hits)
  }

  /** One pass of the outer loop of search_editions. */
  method SearchDate(data: Directory, q: Query, dateStr: string, results0: seq<Hit>) returns (r: Result<seq<Hit>>)
    ensures r == Append(results0, EditionHits(data, q, dateStr))
  {
    var parsed := ParseDate(dateStr);
    if parsed.Err? {
      return Err(parsed.error);
    }
    var d := parsed.value;
    assert results0 + [] == results0;
    if !InRange(q, d) {
      return Ok(results0);
    }
    var e := LoadDaily(data, d);
    if e.None? {
      return Ok(results0);
    }
    var results := CollectHits(q, dateStr, ArticlesOf(e.value), results0);
    r := Ok(results);
  }

  /** search_editions (data_manager.py:173-211). */
  method SearchEditions(data: Directory, archive: Directory, q: Query) returns (r: Result<seq<Hit>>)
    ensures r == SearchResults(data, archive, q)
  {
    var dates := GetAvailableDates(data, archive);
    ghost var f := ds => EditionHits(data, q, ds);
    var results := [];
    for i := 0 to |dates|
      invariant Concat(f, dates[..i]) == Ok(results)
    {
      assert Init(dates[..i + 1]) == dates[..i];
      var step := SearchDate(data, q, dates[i], results);
      assert step == Append(results, f(dates[i]));
      if step.Err? {
        ConcatErrPrefix(f, dates, i + 1);
        return step;
      }
      results := step.value;
    }
    assert dates[..|dates|] == dates;
    r := Ok(results);
  }

  // ---------------------------------------------------------------------
  // Properties
  // ---------------------------------------------------------------------

  /** An edition's hits are its matching articles, under its date. */
  lemma {:induction false} HitsInMembers(q: Query, dateStr: string, articles: seq<StoredArticle>, h: Hit)
    ensures h in HitsIn(q, dateStr, articles) <==> h.date == dateStr && h.article in articles && Matches(q, h.article)
    decreases |articles|
  {
    if articles != [] {
      var init := Init(articles);
      HitsInMembers(q, dateStr, init, h);
      assert articles == init + [articles[|articles| - 1]];
    }
  }

  /** An edition's hits keep the order of its articles: the k-th hit is
      the article at position idx[k], idx increasing. */
  lemma {:induction false} HitsInOrder(q: Query, dateStr: string, articles: seq<StoredArticle>) returns (idx: seq<int>)
    ensures |idx| == |HitsIn(q, dateStr, articles)|
    ensures forall k :: 0 <= k < |idx| ==> 0 <= idx[k] < |articles| && HitsIn(q, dateStr, articles)[k].article == articles[idx[k]]
    ensures forall k, l :: 0 <= k < l < |idx| ==> idx[k] < idx[l]
    decreases |articles|
  {
    if articles == [] {
      idx := [];
    } else {
      var init := Init(articles);
      var last := |articles| - 1;
      idx := HitsInOrder(q, dateStr, init);
      if Matches(q, articles[last]) {
        idx := idx + [last];
      }
    }
  }

  /** A ValueError is the only exception strptime raises. */
  lemma ParseDateError(s: string)
    ensures ParseDate(s).Err? ==> ParseDate(s).error == ValueError
  {
  }

  /** A search completes unless some available date is not a date, and
      then it raises ValueError. */
  lemma SearchErrors(data: Directory, archive: Directory, q: Query)
    ensures SearchResults(data, archive, q).Err? <==>
      exists i :: 0 <= i < |AvailableDates(data, archive)| && ParseDate(AvailableDates(data, archive)[i]).Err?
    ensures SearchResults(data, archive, q).Err? ==> SearchResults(data, archive, q).error == ValueError
  {
    var dates := AvailableDates(data, archive);
    var f := ds => EditionHits(data, q, ds);
    ConcatErr(f, dates);
    assert forall i :: 0 <= i < |dates| ==> (f(dates[i]).Err? <==> ParseDate(dates[i]).Err?);
  }

  /** An article is found under a date string when that string is a date
      in the range whose edition in the current directory holds the
      article, and the article passes the filters. */
  ghost predicate Found(data: Directory, q: Query, dateStr: string, a: StoredArticle) {
    && ParseDate(dateStr).Ok?
    && InRange(q, ParseDate(dateStr).value)
    && LoadDaily(data, ParseDate(dateStr).value).Some?
    && a in ArticlesOf(LoadDaily(data, ParseDate(dateStr).value).value)
    && Matches(q, a)
  }

  lemma EditionHitsMembers(data: Directory, q: Query, dateStr: string, h: Hit)
    requires EditionHits(data, q, dateStr).Ok?
    ensures h in EditionHits(data, q, dateStr).value <==> h.date == dateStr && Found(data, q, dateStr, h.article)
  {
    var d := ParseDate(dateStr).value;
    if InRange(q, d) && LoadDaily(data, d).Some? {
      HitsInMembers(q, dateStr, ArticlesOf(LoadDaily(data, d).value), h);
    }
  }

  /** A completed search returns exactly the articles found under the
      available dates. */
  lemma SearchMembers(data: Directory, archive: Directory, q: Query, h: Hit)
    requires SearchResults(data, archive, q).Ok?
    ensures h in SearchResults(data, archive, q).value <==>
      h.date in AvailableDates(data, archive) && Found(data, q, h.date, h.article)
  {
    var dates := AvailableDates(data, archive);
    var f := ds => EditionHits(data, q, ds);
    ConcatMembers(f, dates, h);
    ConcatErr(f, dates);
    if h in SearchResults(data, archive, q).value {
      var i :| 0 <= i < |dates| && f(dates[i]).Ok? && h in f(dates[i]).value;
      EditionHitsMembers(data, q, dates[i], h);
    }
    if h.date in dates && Found(data, q, h.date, h.article) {
      var i :| 0 <= i < |dates| && dates[i] == h.date;
      assert f(dates[i]).Ok?;
      EditionHitsMembers(data, q, dates[i], h);
    }
  }

  /** With an empty query every article passing the category and score
      filters matches. */
  lemma EmptyQueryMatches(q: Query, a: StoredArticle)
    requires q.text == []
    ensures Matches(q, a) <==> CategoryPasses(q, a) && FinalScoreOf(a) >= q.minScore
  {
    assert Lower(q.text) == [];
    assert StartsWith(Lower(TitleOf(a)), []);
  }

  /** The query is matched case-insensitively on both sides. */
  lemma QueryCase(q: Query, q': Query, a: StoredArticle)
    requires Lower(q.text) == Lower(q'.text)
    requires q.category == q'.category && q.minScore == q'.minScore
    ensures Matches(q, a) <==> Matches(q', a)
  {
  }

  /** The results come in non-increasing order of their date strings,
      given dates in that order. */
  lemma {:induction false} ConcatDescending(f: string -> Result<seq<Hit>>, dates: seq<string>)
    requires StringsDescending(dates)
    requires forall ds, h :: f(ds).Ok? && h in f(ds).value ==> h.date == ds
    requires Concat(f, dates).Ok?
    ensures forall i, j :: 0 <= i < j < |Concat(f, dates).value| ==>
      LexLe(Concat(f, dates).value[j].date, Concat(f, dates).value[i].date)
    decreases |dates|
  {
    if dates != [] {
      var init := Init(dates);
      var last := dates[|dates| - 1];
      assert StringsDescending(init) by {
        forall i, j | 0 <= i < j < |init| ensures LexLe(init[j], init[i]) {
          assert init[i] == dates[i] && init[j] == dates[j];
        }
      }
      ConcatDescending(f, init);
      var r0 := Concat(f, init).value;
      var hs := f(last).value;
      var r := Concat(f, dates).value;
      assert r == r0 + hs;
      forall i, j | 0 <= i < j < |r| ensures LexLe(r[j].date, r[i].date) {
        if j < |r0| {
          assert r[i] == r0[i] && r[j] == r0[j];
        } else if i >= |r0| {
          assert r[i] == hs[i - |r0|] && r[j] == hs[j - |r0|];
          LexLeReflexive(last);
        } else {
          assert r[i] == r0[i] && r[j] == hs[j - |r0|];
          ConcatMembers(f, init, r[i]);
          var k :| 0 <= k < |init| && f(init[k]).Ok? && r[i] in f(init[k]).value;
          assert init[k] == dates[k];
        }
      }
    }
  }

  /** The results of a search are in descending date order. */
  lemma SearchDescending(data: Directory, archive: Directory, q: Query)
    requires SearchResults(data, archive, q).Ok?
    ensures forall i, j :: 0 <= i < j < |SearchResults(data, archive, q).value| ==>
      LexLe(SearchResults(data, archive, q).value[j].date, SearchResults(data, archive, q).value[i].date)
  {
    var f := ds => EditionHits(data, q, ds);
    AvailableDatesSpec(data, archive);
    forall ds, h | f(ds).Ok? && h in f(ds).value ensures h.date == ds {
      EditionHitsMembers(data, q, ds, h);
    }
    ConcatDescending(f, AvailableDates(data, archive));
  }

  /** Editions kept only in the archive are never searched: with an
      empty current directory a completed search finds nothing. */
  lemma ArchiveNotSearched(data: Directory, archive: Directory, q: Query)
    requires data.contents == map[]
    ensures SearchResults(data, archive, q).Err? || SearchResults(data, archive, q) == Ok([])
  {
    var dates := AvailableDates(data, archive);
    ConcatNothing(ds => EditionHits(data, q, ds), dates);
  }
}
