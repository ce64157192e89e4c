/** get_statistics of data_manager.py: the number of editions, the
    number of articles in them, the range of their dates, and the most
    frequent categories and sources. */
module Statistics {
  import opened Wrappers
  import opened Text
  import opened Sorting
  import opened Editions
  import opened Store

  // ---------------------------------------------------------------------
  // Counter dicts
  // ---------------------------------------------------------------------

  /** A dict from keys to counts, as (key, count) pairs in insertion
      order. */
  type Counts = seq<(string, nat)>

  ghost predicate DistinctKeys(c: Counts) {
    forall i, j :: 0 <= i < j < |c| ==> c[i].0 != c[j].0
  }

  /** counts.get(k, 0) */
  function CountOf(c: Counts, k: string): nat
    decreases |c|
  {
    if c == [] then 0 else if c[0].0 == k then c[0].1 else CountOf(c[1..], k)
  }

  /** counts[k] = counts.get(k, 0) + 1: a key already present is updated
      in place, a new key is inserted at the end. */
  function Bump(c: Counts, k: string): Counts
    decreases |c|
  {
    if c == [] then [(k, 1)]
    else if c[0].0 == k then [(k, c[0].1 + 1)] + c[1..]
    else [c[0]] + Bump(c[1..], k)
  }

  /** The sum of the counts. */
  function Total(c: Counts): nat
    decreases |c|
  {
    if c == [] then 0 else c[0].1 + Total(c[1..])
  }

  /** How often k occurs in xs. */
  function Occurrences(xs: seq<string>, k: string): nat
    decreases |xs|
  {
    if xs == [] then 0
    else Occurrences(Init(xs), k) + (if xs[|xs| - 1] == k then 1 else 0)
  }

  /** The counter after counting every key of xs in turn. */
  function Tally(xs: seq<string>): Counts
    decreases |xs|
  {
    if xs == [] then [] else Bump(Tally(Init(xs)), xs[|xs| - 1])
  }

  /** The position of the first occurrence of k in xs. */
  function FirstIndex(xs: seq<string>, k: string): (i: nat)
    requires k in xs
    ensures i < |xs| && xs[i] == k && forall j :: 0 <= j < i ==> xs[j] != k
    decreases |xs|
  {
    if xs[0] == k then 0 else 1 + FirstIndex(xs[1..], k)
  }

  function CountKey(p: (string, nat)): real { p.1 as real }

  /** dict(sorted(counts.items(), key=lambda x: x[1], reverse=True)[:n]) */
  function Top(c: Counts, n: nat): Counts {
    Take(SortDesc(c, CountKey), n)
  }

  lemma {:induction false} BumpCounts(c: Counts, k: string)
    ensures CountOf(Bump(c, k), k) == CountOf(c, k) + 1
    ensures forall k' :: k' != k ==> CountOf(Bump(c, k), k') == CountOf(c, k')
    ensures Total(Bump(c, k)) == Total(c) + 1
    decreases |c|
  {
    if c != [] && c[0].0 != k {
      BumpCounts(c[1..], k);
      assert Bump(c, k)[1..] == Bump(c[1..], k);
    } else if c != [] {
      assert Bump(c, k)[1..] == c[1..];
    }
  }

  /** A bump changes no key when k is present, and adds k at the end
      when it is new. */
  lemma {:induction false} BumpShape(c: Counts, k: string)
    ensures (exists i :: 0 <= i < |c| && c[i].0 == k) ==>
      |Bump(c, k)| == |c| && forall i :: 0 <= i < |c| ==> Bump(c, k)[i].0 == c[i].0
    ensures (forall i :: 0 <= i < |c| ==> c[i].0 != k) ==> Bump(c, k) == c + [(k, 1)]
    decreases |c|
  {
    if c != [] && c[0].0 != k {
      var rest := c[1..];
      BumpShape(rest, k);
      var b := Bump(c, k);
      assert b == [c[0]] + Bump(rest, k);
      if exists i :: 0 <= i < |c| && c[i].0 == k {
        var i :| 0 <= i < |c| && c[i].0 == k;
        assert rest[i - 1].0 == k;
        forall m | 0 < m < |c| ensures b[m].0 == c[m].0 {
          assert b[m] == Bump(rest, k)[m - 1] && c[m] == rest[m - 1];
        }
      } else {
        assert forall m :: 0 <= m < |rest| ==> rest[m] == c[m + 1];
        assert c == [c[0]] + rest;
      }
    }
  }

  /** A bump keeps the keys distinct. */
  lemma BumpKeys(c: Counts, k: string)
    requires DistinctKeys(c)
    ensures DistinctKeys(Bump(c, k))
    ensures (exists i :: 0 <= i < |c| && c[i].0 == k) ==>
      |Bump(c, k)| == |c| && forall i :: 0 <= i < |c| ==> Bump(c, k)[i].0 == c[i].0
    ensures (forall i :: 0 <= i < |c| ==> c[i].0 != k) ==> Bump(c, k) == c + [(k, 1)]
  {
    BumpShape(c, k);
  }

  /** The counter of xs: distinct keys, each with the number of times it
      occurs, counts summing to |xs|, and keys exactly the items of xs. */
  lemma {:induction false} TallySpec(xs: seq<string>)
    ensures DistinctKeys(Tally(xs))
    ensures Total(Tally(xs)) == |xs|
    ensures forall k :: CountOf(Tally(xs), k) == Occurrences(xs, k)
    ensures forall i :: 0 <= i < |Tally(xs)| ==> Tally(xs)[i].0 in xs
    ensures forall k :: k in xs ==> exists i :: 0 <= i < |Tally(xs)| && Tally(xs)[i].0 == k
    decreases |xs|
  {
    if xs != [] {
      var init, x := Init(xs), xs[|xs| - 1];
      assert xs == init + [x];
      TallySpec(init);
      var t := Tally(init);
      BumpCounts(t, x);
      BumpKeys(t, x);
      var b := Tally(xs);
      forall i | 0 <= i < |b| ensures b[i].0 in xs {
        if i < |t| && b[i].0 != x { assert b[i].0 == t[i].0; }
      }
      forall k | k in xs ensures exists i :: 0 <= i < |b| && b[i].0 == k {
        if k == x {
          if exists i :: 0 <= i < |t| && t[i].0 == x {
            var i :| 0 <= i < |t| && t[i].0 == x;
            assert b[i].0 == x;
          } else {
            assert b[|t|].0 == x;
          }
        } else {
          assert k in init;
          var i :| 0 <= i < |t| && t[i].0 == k;
          if exists m :: 0 <= m < |t| && t[m].0 == x {
            assert b[i].0 == k;
          } else {
            assert b[i] == t[i];
          }
        }
      }
    }
  }

  lemma FirstIndexSnoc(xs: seq<string>, x: string, k: string)
    requires k in xs + [x]
    ensures k in xs ==> FirstIndex(xs + [x], k) == FirstIndex(xs, k)
    ensures k !in xs ==> FirstIndex(xs + [x], k) == |xs|
  {
    var i := FirstIndex(xs + [x], k);
    if k in xs {
      var j := FirstIndex(xs, k);
      assert (xs + [x])[j] == k;
    }
  }

  /** The keys of c are items of xs, in the order of their first
      occurrence in xs. */
  ghost predicate FirstSeenOrder(xs: seq<string>, c: Counts) {
    && (forall i :: 0 <= i < |c| ==> c[i].0 in xs)
    && (forall i, j :: 0 <= i < j < |c| ==> FirstIndex(xs, c[i].0) < FirstIndex(xs, c[j].0))
  }

  /** Counting a key already seen keeps the order. */
  lemma OrderKeptSeen(init: seq<string>, x: string, t: Counts, b: Counts)
    requires FirstSeenOrder(init, t) && x in init
    requires |b| == |t| && forall i :: 0 <= i < |t| ==> b[i].0 == t[i].0
    ensures FirstSeenOrder(init + [x], b)
  {
    forall i | 0 <= i < |b| ensures FirstIndex(init + [x], b[i].0) == FirstIndex(init, t[i].0) {
      FirstIndexSnoc(init, x, t[i].0);
    }
  }

  /** Counting a new key appends it after all keys seen before. */
  lemma OrderKeptNew(init: seq<string>, x: string, t: Counts)
    requires FirstSeenOrder(init, t) && x !in init
    ensures FirstSeenOrder(init + [x], t + [(x, 1)])
  {
    var b := t + [(x, 1)];
    forall i | 0 <= i < |t| ensures b[i] == t[i] && FirstIndex(init + [x], t[i].0) == FirstIndex(init, t[i].0) {
      FirstIndexSnoc(init, x, t[i].0);
    }
    FirstIndexSnoc(init, x, x);
  }

  /** The keys of the counter come in the order of their first
      occurrence in xs. */
  lemma {:induction false} TallyOrder(xs: seq<string>)
    ensures forall i :: 0 <= i < |Tally(xs)| ==> Tally(xs)[i].0 in xs
    ensures forall i, j :: 0 <= i < j < |Tally(xs)| ==>
      FirstIndex(xs, Tally(xs)[i].0) < FirstIndex(xs, Tally(xs)[j].0)
    decreases |xs|
  {
    if xs != [] {
      var init, x := Init(xs), xs[|xs| - 1];
      assert xs == init + [x];
      TallyOrder(init);
      TallySpec(init);
      var t := Tally(init);
      BumpShape(t, x);
      if x in init {
        var m :| 0 <= m < |t| && t[m].0 == x;
        OrderKeptSeen(init, x, t, Tally(xs));
      } else {
        OrderKeptNew(init, x, t);
      }
    }
  }

  /** The top n of a counter: at most n entries, each an entry of the
      counter, in non-increasing count, no left-out entry counting more
      than any kept one, and ties kept in insertion order. */
  lemma TopSpec(c: Counts, n: nat)
    ensures |Top(c, n)| == if |c| < n then |c| else n
    ensures multiset(Top(c, n)) <= multiset(c)
    ensures Descending(Top(c, n), CountKey)
    ensures forall p :: p in c && p !in Top(c, n) ==> forall i :: 0 <= i < |Top(c, n)| ==> Top(c, n)[i].1 >= p.1
    ensures exists r :: && multiset(r) == multiset(c) && Descending(r, CountKey)
                        && StableFor(r, c, CountKey) && Top(c, n) == Take(r, n)
  {
    var r := SortDesc(c, CountKey);
    SortDescSpec(c, CountKey);
    var t := Top(c, n);
    assert r == t + r[|t|..];
    assert multiset(r) == multiset(t) + multiset(r[|t|..]);
    forall p | p in c && p !in t ensures forall i :: 0 <= i < |t| ==> t[i].1 >= p.1 {
      assert p in multiset(r);
      var m :| 0 <= m < |r| && r[m] == p;
      forall i | 0 <= i < |t| ensures t[i].1 >= p.1 {
        assert t[i] == r[i];
        assert CountKey(r[i]) >= CountKey(r[m]);
      }
    }
    assert Descending(t, CountKey) by {
      forall i, j | 0 <= i < j < |t| ensures CountKey(t[i]) >= CountKey(t[j]) {
        assert t[i] == r[i] && t[j] == r[j];
      }
    }
  }

  // ---------------------------------------------------------------------
  // get_statistics
  // ---------------------------------------------------------------------

  datatype Stats = Stats(
    totalEditions: nat,
    totalArticles: nat,
    dateRange: Option<(string, string)>,
    topCategories: Counts,
    topSources: Counts)

  /** The articles one available date contributes: the date string is
      parsed (a ValueError escapes), and a date without a loadable
      non-empty edition in the current directory gives none. */
  function EditionArticles(data: Directory, dateStr: string): Result<seq<StoredArticle>> {
    match ParseDate(dateStr)
    case Err(e) => Err(e)
    case Ok(d) =>
      match LoadDaily(data, d)
      case None => Ok([])
      case Some(e) => Ok(ArticlesOf(e))
  }

  /** All articles counted, date by date in the order of the dates. */
  function AllArticles(data: Directory, archive: Directory): Result<seq<StoredArticle>> {
    Concat(ds => EditionArticles(data, ds), AvailableDates(data, archive))
  }

  function Categories(articles: seq<StoredArticle>): (r: seq<string>)
    ensures |r| == |articles| && forall i :: 0 <= i < |r| ==> r[i] == CategoryOf(articles[i])
  {
    seq(|articles|, i requires 0 <= i < |articles| => CategoryOf(articles[i]))
  }

  function Sources(articles: seq<StoredArticle>): (r: seq<string>)
    ensures |r| == |articles| && forall i :: 0 <= i < |r| ==> r[i] == SourceOf(articles[i])
  {
    seq(|articles|, i requires 0 <= i < |articles| => SourceOf(articles[i]))
  }

  /** get_statistics over the given directories. */
  function StatisticsOf(data: Directory, archive: Directory): Result<Stats> {
    var dates := AvailableDates(data, archive);
    if dates == [] then Ok(Stats(0, 0, None, [], []))
    else
      match AllArticles(data, archive)
      case Err(e) => Err(e)
      case Ok(articles) =>
        Ok(Stats(|dates|, |articles|, Some((dates[|dates| - 1], dates[0])),
                 Top(Tally(Categories(articles)), 5), Top(Tally(Sources(articles)), 10)))
  }

  /** One edition's articles counted into the running totals. */
  method CountArticles(articles: seq<StoredArticle>, ghost seen: seq<StoredArticle>,
                       total0: nat, categories0: Counts, sources0: Counts)
    returns (total: nat, categories: Counts, sources: Counts)
    requires total0 == |seen|
    requires categories0 == Tally(Categories(seen)) && sources0 == Tally(Sources(seen))
    ensures total == |seen + articles|
    ensures categories == Tally(Categories(seen + articles)) && sources == Tally(Sources(seen + articles))
  {
    total, categories, sources := total0, categories0, sources0;
    assert seen + articles[..0] == seen;
    for i := 0 to |articles|
      invariant total == |seen + articles[..i]|
      invariant categories == Tally(Categories(seen + articles[..i]))
      invariant sources == Tally(Sources(seen + articles[..i]))
    {
      assert seen + articles[..i + 1] == (seen + articles[..i]) + [articles[i]];
      CountedSnoc(seen + articles[..i], articles[i]);
      total := total + 1;
      categories := Bump(categories, CategoryOf(articles[i]));
      sources := Bump(sources, SourceOf(articles[i]));
    }
    assert articles[..|articles|] == articles;
  }

  /** Counting one more article bumps its category and its source. */
  lemma CountedSnoc(before: seq<StoredArticle>, a: StoredArticle)
    ensures Tally(Categories(before + [a])) == Bump(Tally(Categories(before)), CategoryOf(a))
    ensures Tally(Sources(before + [a])) == Bump(Tally(Sources(before)), SourceOf(a))
  {
    assert Init(Categories(before + [a])) == Categories(before);
    assert Init(Sources(before + [a])) == Sources(before);
  }

  /** The articles of one date, as the outer loop loads them. */
  method LoadEdition(data: Directory, dateStr: string) returns (r: Result<seq<StoredArticle>>)
    ensures r == EditionArticles(data, dateStr)
  {
    var parsed := ParseDate(dateStr);
    if parsed.Err? {
      return Err(parsed.error);
    }
    var e := LoadDaily(data, parsed.value);
    if e.None? {
      return Ok([]);
    }
    r := Ok(ArticlesOf(e.value));
  }

  /** The running totals of the loop over the dates. */
  datatype Counted = Counted(total: nat, categories: Counts, sources: Counts)

  /** The loop over the dates of get_statistics: each date's articles
      counted in turn, stopping at the first date that is not a date. */
  method CountEditions(data: Directory, dates: seq<string>) returns (r: Result<Counted>)
    ensures var loaded := Concat(ds => EditionArticles(data, ds), dates);
      && (loaded.Err? ==> r == Err(loaded.error))
      && (loaded.Ok? ==> r == Ok(Counted(|loaded.value|, Tally(Categories(loaded.value)), Tally(Sources(loaded.value)))))
  {
    ghost var f := ds => EditionArticles(data, ds);
    ghost var seen: seq<StoredArticle> := [];
    var total: nat, categories: Counts, sources: Counts := 0, [], [];
    for i := 0 to |dates|
      invariant Concat(f, dates[..i]) == Ok(seen)
      invariant total == |seen|
      invariant categories == Tally(Categories(seen)) && sources == Tally(Sources(seen))
    {
      assert Init(dates[..i + 1]) == dates[..i];
      var step := LoadEdition(data, dates[i]);
      assert step == f(dates[i]);
      if step.Err? {
        ConcatErrPrefix(f, dates, i + 1);
        return Err(step.error);
      }
      total, categories, sources := CountArticles(step.value, seen, total, categories, sources);
      seen := seen + step.value;
    }
    assert dates[..|dates|] == dates;
    r := Ok(Counted(total, categories, sources));
  }

  /** get_statistics (data_manager.py:213-252). */
  method GetStatistics(data: Directory, archive: Directory) returns (r: Result<Stats>)
    ensures r == StatisticsOf(data, archive)
  {
    var dates := GetAvailableDates(data, archive);
    if |dates| == 0 {
      return Ok(Stats(0, 0, None, [], []));
    }
    var dateRange := (dates[|dates| - 1], dates[0]);
    var counted := CountEditions(data, dates);
    if counted.Err? {
      return Err(counted.error);
    }
    var c := counted.value;
    var topCategories := Take(SortDesc(c.categories, CountKey), 5);
    var topSources := Take(SortDesc(c.sources, CountKey), 10);
    r := Ok(Stats(|dates|, c.total, Some(dateRange), topCategories, topSources));
  }

  // ---------------------------------------------------------------------
  // Properties
  // ---------------------------------------------------------------------

  /** Without any edition file the statistics are all zero and there is
      no date range. */
  lemma NoEditions(data: Directory, archive: Directory)
    requires AvailableDates(data, archive) == []
    ensures StatisticsOf(data, archive) == Ok(Stats(0, 0, None, [], []))
  {
  }

  /** The statistics raise exactly when some available date is not a
      date, and then a ValueError. */
  lemma StatisticsErrors(data: Directory, archive: Directory)
    ensures StatisticsOf(data, archive).Err? <==>
      exists i :: 0 <= i < |AvailableDates(data, archive)| && ParseDate(AvailableDates(data, archive)[i]).Err?
    ensures StatisticsOf(data, archive).Err? ==> StatisticsOf(data, archive).error == ValueError
  {
    var dates := AvailableDates(data, archive);
    var f := ds => EditionArticles(data, ds);
    ConcatErr(f, dates);
    assert forall i :: 0 <= i < |dates| ==> (f(dates[i]).Err? <==> ParseDate(dates[i]).Err?);
  }

  /** Every available date counts as an edition, and the date range runs
      from the oldest date string to the newest. */
  lemma EditionsAndRange(data: Directory, archive: Directory)
    requires StatisticsOf(data, archive).Ok? && AvailableDates(data, archive) != []
    ensures StatisticsOf(data, archive).value.totalEditions == |Filter(data.names, MatchesGlob)| + |Filter(archive.names, MatchesGlob)|
    ensures StatisticsOf(data, archive).value.dateRange.Some?
    ensures var range := StatisticsOf(data, archive).value.dateRange.value;
      && range.0 in AvailableDates(data, archive) && range.1 in AvailableDates(data, archive)
      && forall x :: x in AvailableDates(data, archive) ==> LexLe(range.0, x) && LexLe(x, range.1)
  {
    var dates := AvailableDates(data, archive);
    AvailableDatesSpec(data, archive);
    forall x | x in dates ensures LexLe(dates[|dates| - 1], x) && LexLe(x, dates[0]) {
      var i :| 0 <= i < |dates| && dates[i] == x;
      if i > 0 { } else { LexLeReflexive(x); }
      if i < |dates| - 1 { } else { LexLeReflexive(x); }
    }
  }

  /** The article total is the sum of the counts of all categories and
      of all sources; every kept entry carries its true count, no
      category or source left out occurs more often than a kept one, and
      there are at most 5 categories and 10 sources, in non-increasing
      count. */
  lemma Counting(data: Directory, archive: Directory)
    requires StatisticsOf(data, archive).Ok? && AvailableDates(data, archive) != []
    ensures var s, articles := StatisticsOf(data, archive).value, AllArticles(data, archive).value;
      && s.totalArticles == |articles|
      && s.totalArticles == Total(Tally(Categories(articles)))
      && s.totalArticles == Total(Tally(Sources(articles)))
      && |s.topCategories| <= 5 && |s.topSources| <= 10
      && Descending(s.topCategories, CountKey) && Descending(s.topSources, CountKey)
      && (forall i :: 0 <= i < |s.topCategories| ==>
            s.topCategories[i].1 == Occurrences(Categories(articles), s.topCategories[i].0))
      && (forall i :: 0 <= i < |s.topSources| ==>
            s.topSources[i].1 == Occurrences(Sources(articles), s.topSources[i].0))
      && (forall k :: k in Categories(articles) && (forall i :: 0 <= i < |s.topCategories| ==> s.topCategories[i].0 != k) ==>
            forall i :: 0 <= i < |s.topCategories| ==> s.topCategories[i].1 >= Occurrences(Categories(articles), k))
      && (forall k :: k in Sources(articles) && (forall i :: 0 <= i < |s.topSources| ==> s.topSources[i].0 != k) ==>
            forall i :: 0 <= i < |s.topSources| ==> s.topSources[i].1 >= Occurrences(Sources(articles), k))
  {
    var articles := AllArticles(data, archive).value;
    CounterFacts(Categories(articles), 5);
    CounterFacts(Sources(articles), 10);
  }

  /** What Counting needs of one counter and its top n. */
  lemma CounterFacts(xs: seq<string>, n: nat)
    ensures Total(Tally(xs)) == |xs|
    ensures |Top(Tally(xs), n)| <= n && Descending(Top(Tally(xs), n), CountKey)
    ensures forall i :: 0 <= i < |Top(Tally(xs), n)| ==> Top(Tally(xs), n)[i].1 == Occurrences(xs, Top(Tally(xs), n)[i].0)
    ensures forall k :: k in xs && (forall i :: 0 <= i < |Top(Tally(xs), n)| ==> Top(Tally(xs), n)[i].0 != k) ==>
      forall i :: 0 <= i < |Top(Tally(xs), n)| ==> Top(Tally(xs), n)[i].1 >= Occurrences(xs, k)
  {
    TallySpec(xs);
    TopSpec(Tally(xs), n);
    TrueCounts(xs, n);
    LeftOutCountsNoMore(xs, n);
  }

  /** A key of the counter that is not among its top n occurs no more
      often than any key that is. */
  lemma LeftOutCountsNoMore(xs: seq<string>, n: nat)
    ensures forall k :: k in xs && (forall i :: 0 <= i < |Top(Tally(xs), n)| ==> Top(Tally(xs), n)[i].0 != k) ==>
      forall i :: 0 <= i < |Top(Tally(xs), n)| ==> Top(Tally(xs), n)[i].1 >= Occurrences(xs, k)
  {
    var t := Top(Tally(xs), n);
    forall k | k in xs && (forall i :: 0 <= i < |t| ==> t[i].0 != k)
      ensures forall i :: 0 <= i < |t| ==> t[i].1 >= Occurrences(xs, k)
    {
      LeftOutKey(xs, n, k);
    }
  }

  lemma LeftOutKey(xs: seq<string>, n: nat, k: string)
    requires k in xs
    requires forall i :: 0 <= i < |Top(Tally(xs), n)| ==> Top(Tally(xs), n)[i].0 != k
    ensures forall i :: 0 <= i < |Top(Tally(xs), n)| ==> Top(Tally(xs), n)[i].1 >= Occurrences(xs, k)
  {
    var c, t := Tally(xs), Top(Tally(xs), n);
    TallySpec(xs);
    var m :| 0 <= m < |c| && c[m].0 == k;
    CountOfEntry(c, m);
    assert c[m].1 == Occurrences(xs, k);
    assert c[m] !in t;
    TopSpec(c, n);
    assert c[m] in c;
  }

  /** Each entry of the top of a counter carries the key's occurrences. */
  lemma TrueCounts(xs: seq<string>, n: nat)
    ensures forall i :: 0 <= i < |Top(Tally(xs), n)| ==> Top(Tally(xs), n)[i].1 == Occurrences(xs, Top(Tally(xs), n)[i].0)
  {
    var c, t := Tally(xs), Top(Tally(xs), n);
    TallySpec(xs);
    TopSpec(c, n);
    forall i | 0 <= i < |t| ensures t[i].1 == Occurrences(xs, t[i].0) {
      assert t[i] in multiset(c);
      var m :| 0 <= m < |c| && c[m] == t[i];
      CountOfEntry(c, m);
    }
  }

  /** In a counter with distinct keys an entry's count is its key's. */
  lemma {:induction false} CountOfEntry(c: Counts, m: nat)
    requires DistinctKeys(c) && m < |c|
    ensures CountOf(c, c[m].0) == c[m].1
    decreases |c|
  {
    if m > 0 {
      var rest := c[1..];
      assert DistinctKeys(rest) by {
        forall i, j | 0 <= i < j < |rest| ensures rest[i].0 != rest[j].0 {
          assert rest[i] == c[i + 1] && rest[j] == c[j + 1];
        }
      }
      CountOfEntry(rest, m - 1);
    }
  }

  /** Editions kept only in the archive count as editions but add no
      articles: with an empty current directory nothing is counted. */
  lemma ArchiveOnlyCountsNoArticles(data: Directory, archive: Directory)
    requires data.contents == map[]
    requires StatisticsOf(data, archive).Ok? && AvailableDates(data, archive) != []
    ensures StatisticsOf(data, archive).value.totalEditions == |AvailableDates(data, archive)|
    ensures StatisticsOf(data, archive).value.totalArticles == 0
    ensures StatisticsOf(data, archive).value.topCategories == [] && StatisticsOf(data, archive).value.topSources == []
  {
    ConcatNothing(ds => EditionArticles(data, ds), AvailableDates(data, archive));
    assert AllArticles(data, archive).value == [];
    assert Categories([]) == [] && Sources([]) == [];
  }
}
