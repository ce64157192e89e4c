/** The stored editions of data_manager.py as data: the two directories
    (current editions and the archive), the list of available dates, the
    file an edition date is loaded from, and the summary of one edition.
    A directory is the list of names its listing yields, in listing
    order, with the parsed content of each file. */
module Store {
  import opened Wrappers
  import opened Text
  import opened Sorting
  import opened Editions

  // ---------------------------------------------------------------------
  // Stored editions
  // ---------------------------------------------------------------------

  /** One article dict as stored in an edition file. A missing key is
      None; the final score is scores['final'], and a missing `scores`
      dict reads the same as one without 'final'. */
  datatype StoredArticle = StoredArticle(
    title: Option<string>,
    url: Option<string>,
    summary: Option<string>,
    category: Option<string>,
    source: Option<string>,
    finalScore: Option<real>)

  function TitleOf(a: StoredArticle): string { a.title.GetOr("") }
  function UrlOf(a: StoredArticle): string { a.url.GetOr("") }
  function SummaryTextOf(a: StoredArticle): string { a.summary.GetOr("") }
  function CategoryOf(a: StoredArticle): string { a.category.GetOr("global") }
  function SourceOf(a: StoredArticle): string { a.source.GetOr("Unknown") }
  function FinalScoreOf(a: StoredArticle): real { a.finalScore.GetOr(0.0) }

  /** The top-level dict of an edition file: the four keys the code
      reads, and whether any other key is present. */
  datatype Edition = Edition(
    date: Option<string>,
    totalArticles: Option<int>,
    generatedAt: Option<string>,
    articles: Option<seq<StoredArticle>>,
    otherKeys: bool)

  /** `if not edition_data`: a dict is false exactly when it is empty. */
  predicate Truthy(e: Edition) {
    e.date.Some? || e.totalArticles.Some? || e.generatedAt.Some? || e.articles.Some? || e.otherKeys
  }

  function ArticlesOf(e: Edition): seq<StoredArticle> { e.articles.GetOr([]) }

  /** A file that exists: either it fails to open or parse, or it holds
      an edition. */
  datatype FileContent = Unreadable | Loaded(edition: Edition)

  /** The names a directory lists, in listing order, and the content of
      each file in it; a path exists exactly when its name is a key. */
  datatype Directory = Directory(names: seq<string>, contents: map<string, FileContent>)

  // ---------------------------------------------------------------------
  // File names
  // ---------------------------------------------------------------------

  const Prefix: string := "edition_"
  const Suffix: string := ".json"

  predicate EndsWith(s: string, p: string) {
    |p| <= |s| && s[|s| - |p|..] == p
  }

  /** The glob pattern "edition_*.json": the prefix, any text, the suffix,
      the two not overlapping. */
  predicate MatchesGlob(name: string) {
    StartsWith(name, Prefix) && EndsWith(name, Suffix) && |name| >= |Prefix| + |Suffix|
  }

  /** Path.stem of a name ending in ".json": the name without it. */
  function Stem(name: string): string
    requires EndsWith(name, Suffix)
  {
    name[..|name| - |Suffix|]
  }

  /** s.replace(p, ""): every occurrence of p removed, scanning from the
      left and resuming after each occurrence. */
  function RemoveAll(s: string, p: string): (r: string)
    requires p != []
    ensures |r| <= |s|
    decreases |s|
  {
    if s == [] then []
    else if StartsWith(s, p) then RemoveAll(s[|p|..], p)
    else [s[0]] + RemoveAll(s[1..], p)
  }

  /** The date string of a listed edition file. */
  function DateOf(name: string): string
    requires MatchesGlob(name)
  {
    RemoveAll(Stem(name), Prefix)
  }

  /** The file name of an edition date: edition_{date}.json. */
  function FileName(dateStr: string): string {
    Prefix + dateStr + Suffix
  }

  /** A string without the first character of p has nothing to remove. */
  lemma {:induction false} RemoveAbsent(s: string, p: string)
    requires p != [] && forall i :: 0 <= i < |s| ==> s[i] != p[0]
    ensures RemoveAll(s, p) == s
    decreases |s|
  {
    if s != [] {
      assert !StartsWith(s, p) by {
        if |p| <= |s| { assert s[..|p|][0] == s[0]; }
      }
      RemoveAbsent(s[1..], p);
      assert s == [s[0]] + s[1..];
    }
  }

  /** The name of a file named after a date without an 'e' is listed by
      the glob, and its date is read back unchanged. */
  lemma FileNameDate(dateStr: string)
    requires forall i :: 0 <= i < |dateStr| ==> dateStr[i] != 'e'
    ensures MatchesGlob(FileName(dateStr))
    ensures DateOf(FileName(dateStr)) == dateStr
  {
    var name := FileName(dateStr);
    assert name[..|Prefix|] == Prefix;
    assert name[|name| - |Suffix|..] == Suffix;
    var stem := Stem(name);
    assert stem == Prefix + dateStr;
    assert StartsWith(stem, Prefix);
    assert stem[|Prefix|..] == dateStr;
    RemoveAbsent(dateStr, Prefix);
  }

  /** The file an edition of a date is saved to is listed under the date
      it was saved for, and that date parses back to the same day (years
      from 1000 on). */
  lemma SavedFileDate(d: Date)
    requires ValidDate(d) && d.year >= 1000
    ensures MatchesGlob(FileName(FormatDate(d)))
    ensures DateOf(FileName(FormatDate(d))) == FormatDate(d)
    ensures ParseDate(DateOf(FileName(FormatDate(d)))) == Ok(d)
  {
    var s := FormatDate(d);
    assert forall i :: 0 <= i < |s| ==> s[i] != 'e' by {
      var y, m := Digits(d.year), Pad(d.month, 2);
      assert s == y + "-" + m + "-" + Pad(d.day, 2);
      forall i | 0 <= i < |s| ensures s[i] != 'e' {
        if i < |y| { assert IsDigit(y[i]); }
        else if i == |y| || i == |y| + 1 + |m| { }
        else if i < |y| + 1 + |m| { assert s[i] == m[i - |y| - 1] && IsDigit(m[i - |y| - 1]); }
        else { assert s[i] == Pad(d.day, 2)[i - |y| - 2 - |m|]; }
      }
    }
    FileNameDate(s);
    FormatThenParse(d);
  }

  // ---------------------------------------------------------------------
  // get_available_dates
  // ---------------------------------------------------------------------

  /** The dates of the edition files in a listing, in listing order. */
  function DatesIn(names: seq<string>): (r: seq<string>)
    ensures |r| <= |names|
    decreases |names|
  {
    if names == [] then []
    else
      var last := names[|names| - 1];
      DatesIn(Init(names)) + (if MatchesGlob(last) then [DateOf(last)] else [])
  }

  /** The dates of both directories, current ones first, sorted in
      descending string order. */
  function AvailableDates(data: Directory, archive: Directory): seq<string> {
    SortStringsDesc(DatesIn(data.names) + DatesIn(archive.names))
  }

  method CollectDates(names: seq<string>, dates0: seq<string>) returns (dates: seq<string>)
    ensures dates == dates0 + DatesIn(names)
  {
    dates := dates0;
    for i := 0 to |names|
      invariant dates == dates0 + DatesIn(names[..i])
    {
      assert Init(names[..i + 1]) == names[..i];
      var name := names[i];
      if MatchesGlob(name) {
        dates := dates + [DateOf(name)];
      }
    }
    assert names[..|names|] == names;
  }

  /** get_available_dates (data_manager.py:116-130). */
  method GetAvailableDates(data: Directory, archive: Directory) returns (dates: seq<string>)
    ensures dates == AvailableDates(data, archive)
  {
    var collected := CollectDates(data.names, []);
    assert collected == DatesIn(data.names);
    collected := CollectDates(archive.names, collected);
    dates := SortStringsDesc(collected);
  }

  /** A date is listed exactly when some edition file of the listing
      carries it. */
  lemma {:induction false} DatesInMembers(names: seq<string>, x: string)
    ensures x in DatesIn(names) <==> exists i :: 0 <= i < |names| && MatchesGlob(names[i]) && DateOf(names[i]) == x
    decreases |names|
  {
    if names != [] {
      var init := Init(names);
      DatesInMembers(init, x);
      if x in DatesIn(init) {
        var i :| 0 <= i < |init| && MatchesGlob(init[i]) && DateOf(init[i]) == x;
        assert names[i] == init[i];
      }
      if exists i :: 0 <= i < |names| && MatchesGlob(names[i]) && DateOf(names[i]) == x {
        var i :| 0 <= i < |names| && MatchesGlob(names[i]) && DateOf(names[i]) == x;
        if i < |init| { assert init[i] == names[i]; }
      }
    }
  }

  /** Every listed edition file gives one date. */
  lemma {:induction false} DatesInCount(names: seq<string>)
    ensures |DatesIn(names)| == |Filter(names, MatchesGlob)|
    decreases |names|
  {
    if names != [] {
      DatesInCount(Init(names));
      FilterSnoc(Init(names), names[|names| - 1], MatchesGlob);
      assert Init(names) + [names[|names| - 1]] == names;
    }
  }

  lemma {:induction false} FilterSnoc<T>(xs: seq<T>, x: T, keep: T -> bool)
    ensures |Filter(xs + [x], keep)| == |Filter(xs, keep)| + (if keep(x) then 1 else 0)
    decreases |xs|
  {
    if xs == [] {
      assert [x][1..] == [];
    } else {
      FilterSnoc(xs[1..], x, keep);
      assert (xs + [x])[1..] == xs[1..] + [x];
    }
  }

  /** The available dates are those of both directories, duplicates kept,
      one per edition file, in descending order. */
  lemma AvailableDatesSpec(data: Directory, archive: Directory)
    ensures multiset(AvailableDates(data, archive)) == multiset(DatesIn(data.names)) + multiset(DatesIn(archive.names))
    ensures |AvailableDates(data, archive)| == |Filter(data.names, MatchesGlob)| + |Filter(archive.names, MatchesGlob)|
    ensures StringsDescending(AvailableDates(data, archive))
  {
    SortStringsDescSpec(DatesIn(data.names) + DatesIn(archive.names));
    DatesInCount(data.names);
    DatesInCount(archive.names);
  }

  /** A date is available exactly when a file of either directory is
      listed under it. */
  lemma AvailableDatesMembers(data: Directory, archive: Directory, x: string)
    ensures x in AvailableDates(data, archive) <==>
      (exists i :: 0 <= i < |data.names| && MatchesGlob(data.names[i]) && DateOf(data.names[i]) == x)
      || (exists i :: 0 <= i < |archive.names| && MatchesGlob(archive.names[i]) && DateOf(archive.names[i]) == x)
  {
    var both := DatesIn(data.names) + DatesIn(archive.names);
    assert x in AvailableDates(data, archive) <==> x in multiset(both);
    DatesInMembers(data.names, x);
    DatesInMembers(archive.names, x);
  }

  /** The available dates depend only on which dates are listed, not on
      the order of either listing nor on which directory lists them. */
  lemma AvailableDatesOrder(data: Directory, archive: Directory, data': Directory, archive': Directory)
    requires multiset(DatesIn(data.names)) + multiset(DatesIn(archive.names))
      == multiset(DatesIn(data'.names)) + multiset(DatesIn(archive'.names))
    ensures AvailableDates(data, archive) == AvailableDates(data', archive')
  {
    SortStringsDescPermutation(DatesIn(data.names) + DatesIn(archive.names), DatesIn(data'.names) + DatesIn(archive'.names));
  }

  // ---------------------------------------------------------------------
  // get_edition_summary
  // ---------------------------------------------------------------------

  /** The file get_edition_summary reads: the current directory's when it
      exists there, the archive's otherwise. */
  function Lookup(data: Directory, archive: Directory, dateStr: string): Option<FileContent> {
    var name := FileName(dateStr);
    if name in data.contents then Some(data.contents[name])
    else if name in archive.contents then Some(archive.contents[name])
    else None
  }

  datatype TopStory = TopStory(rank: nat, title: string, url: string, score: real, category: string)

  datatype EditionSummary = EditionSummary(
    date: string,
    totalArticles: int,
    generatedAt: string,
    topStories: seq<TopStory>)

  /** The story of the article at position i of the edition. */
  function StoryOf(i: nat, a: StoredArticle): TopStory {
    TopStory(i + 1, TitleOf(a), UrlOf(a), FinalScoreOf(a), CategoryOf(a))
  }

  /** The stories of the first five articles, ranked from 1. */
  function TopStories(articles: seq<StoredArticle>): seq<TopStory> {
    var firsts := Take(articles, 5);
    seq(|firsts|, i requires 0 <= i < |firsts| => StoryOf(i, firsts[i]))
  }

  /** The summary of a loaded edition; a missing 'date', 'total_articles'
      or 'generated_at' key raises KeyError, which the code turns into
      None. */
  function SummaryOf(e: Edition): Option<EditionSummary> {
    if e.date.None? || e.totalArticles.None? || e.generatedAt.None? then None
    else Some(EditionSummary(e.date.value, e.totalArticles.value, e.generatedAt.value, TopStories(ArticlesOf(e))))
  }

  function Summary(data: Directory, archive: Directory, dateStr: string): Option<EditionSummary> {
    match Lookup(data, archive, dateStr)
    case None => None
    case Some(Unreadable) => None
    case Some(Loaded(e)) => SummaryOf(e)
  }

  method CollectStories(articles: seq<StoredArticle>) returns (stories: seq<TopStory>)
    ensures stories == TopStories(articles)
  {
    var firsts := Take(articles, 5);
    stories := [];
    for i := 0 to |firsts|
      invariant |stories| == i
      invariant forall k :: 0 <= k < i ==> stories[k] == StoryOf(k, firsts[k])
    {
      stories := stories + [StoryOf(i, firsts[i])];
    }
  }

  /** get_edition_summary (data_manager.py:132-171). */
  method GetEditionSummary(data: Directory, archive: Directory, dateStr: string) returns (r: Option<EditionSummary>)
    ensures r == Summary(data, archive, dateStr)
  {
    var found := Lookup(data, archive, dateStr);
    if found.None? || found.value.Unreadable? {
      return None;
    }
    var e := found.value.edition;
    if e.date.None? || e.totalArticles.None? || e.generatedAt.None? {
      return None;
    }
    var stories := CollectStories(ArticlesOf(e));
    r := Some(EditionSummary(e.date.value, e.totalArticles.value, e.generatedAt.value, stories));
  }

  /** The top stories are the first articles in their order, at most
      five, ranked 1, 2, ...; each field is the article's own or its
      default. */
  lemma TopStoriesSpec(articles: seq<StoredArticle>)
    ensures |TopStories(articles)| == if |articles| < 5 then |articles| else 5
    ensures forall i :: 0 <= i < |TopStories(articles)| ==>
      var s, a := TopStories(articles)[i], articles[i];
      && s.rank == i + 1
      && (a.title.Some? ==> s.title == a.title.value) && (a.title.None? ==> s.title == "")
      && (a.url.Some? ==> s.url == a.url.value) && (a.url.None? ==> s.url == "")
      && (a.finalScore.Some? ==> s.score == a.finalScore.value) && (a.finalScore.None? ==> s.score == 0.0)
      && (a.category.Some? ==> s.category == a.category.value) && (a.category.None? ==> s.category == "global")
  {
  }

  /** The summary comes from the current directory whenever the file is
      there, even an unreadable one; there is none when the file is in
      neither directory, cannot be read, or lacks a required key. */
  lemma SummaryCases(data: Directory, archive: Directory, dateStr: string)
    ensures FileName(dateStr) in data.contents ==>
      Summary(data, archive, dateStr) == (if data.contents[FileName(dateStr)].Loaded? then SummaryOf(data.contents[FileName(dateStr)].edition) else None)
    ensures FileName(dateStr) !in data.contents && FileName(dateStr) in archive.contents ==>
      Summary(data, archive, dateStr) == (if archive.contents[FileName(dateStr)].Loaded? then SummaryOf(archive.contents[FileName(dateStr)].edition) else None)
    ensures FileName(dateStr) !in data.contents && FileName(dateStr) !in archive.contents ==> Summary(data, archive, dateStr).None?
    ensures Summary(data, archive, dateStr).Some? <==>
      && Lookup(data, archive, dateStr).Some? && Lookup(data, archive, dateStr).value.Loaded?
      && var e := Lookup(data, archive, dateStr).value.edition;
         e.date.Some? && e.totalArticles.Some? && e.generatedAt.Some?
  {
  }

  // ---------------------------------------------------------------------
  // load_daily_edition, as search_editions and get_statistics use it
  // ---------------------------------------------------------------------

  /** load_daily_edition(d) followed by `if not edition_data: continue`:
      the edition of the current directory's file named after
      strftime('%Y-%m-%d') of d, when that file exists, can be read and
      holds a non-empty dict. The archive is never consulted. */
  function LoadDaily(data: Directory, d: Date): (r: Option<Edition>)
    ensures r.Some? ==> Truthy(r.value)
    ensures r.Some? ==>
      FileName(FormatDate(d)) in data.contents && data.contents[FileName(FormatDate(d))] == Loaded(r.value)
  {
    var name := FileName(FormatDate(d));
    if name in data.contents && data.contents[name].Loaded? && Truthy(data.contents[name].edition)
    then Some(data.contents[name].edition)
    else None
  }

  /** Loading the date a well-formed, zero-padded date string names reads
      exactly the current directory's file of that name: its edition when
      the file exists, can be read and is not empty, and nothing otherwise. */
  lemma LoadDailyFile(data: Directory, dateStr: string)
    requires |dateStr| == 10 && ParseDate(dateStr).Ok? && dateStr[8] != ' '
    requires ParseDate(dateStr).value.year >= 1000
    ensures var name := FileName(dateStr);
      LoadDaily(data, ParseDate(dateStr).value) ==
        if name in data.contents && data.contents[name].Loaded? && Truthy(data.contents[name].edition)
        then Some(data.contents[name].edition) else None
  {
    ParseThenFormat(dateStr);
  }

  /** A file named with an unpadded date is listed under "2024-1-5", but
      loading that date reads the file named "2024-01-05" instead; without
      that file nothing is loaded. */
  lemma UnpaddedNameNotLoaded(data: Directory)
    requires FileName("2024-01-05") !in data.contents
    ensures ParseDate("2024-1-5") == Ok(Date(2024, 1, 5))
    ensures LoadDaily(data, ParseDate("2024-1-5").value) == None
  {
    UnpaddedDate();
    PaddedFormat();
  }

  // ---------------------------------------------------------------------
  // A loop over the available dates
  // ---------------------------------------------------------------------

  /** What a loop over dates collects when it appends what each date
      gives, in order, and stops at the first exception. */
  function Concat<T>(f: string -> Result<seq<T>>, dates: seq<string>): Result<seq<T>>
    decreases |dates|
  {
    if dates == [] then Ok([])
    else
      match Concat(f, Init(dates))
      case Err(e) => Err(e)
      case Ok(r) =>
        match f(dates[|dates| - 1])
        case Err(e) => Err(e)
        case Ok(x) => Ok(r + x)
  }

  /** Once a prefix of the dates raises, the whole loop raises the same. */
  lemma {:induction false} ConcatErrPrefix<T>(f: string -> Result<seq<T>>, dates: seq<string>, i: nat)
    requires i <= |dates| && Concat(f, dates[..i]).Err?
    ensures Concat(f, dates) == Concat(f, dates[..i])
    decreases |dates|
  {
    if i < |dates| {
      assert Init(dates)[..i] == dates[..i];
      ConcatErrPrefix(f, Init(dates), i);
    } else {
      assert dates[..i] == dates;
    }
  }

  /** The loop raises exactly when some date raises, and then with that
      date's exception. */
  lemma {:induction false} ConcatErr<T>(f: string -> Result<seq<T>>, dates: seq<string>)
    ensures Concat(f, dates).Err? <==> exists i :: 0 <= i < |dates| && f(dates[i]).Err?
    ensures Concat(f, dates).Err? ==> exists i :: 0 <= i < |dates| && f(dates[i]) == Concat(f, dates)
    decreases |dates|
  {
    if dates != [] {
      var init := Init(dates);
      ConcatErr(f, init);
      if exists i :: 0 <= i < |init| && f(init[i]).Err? {
        var i :| 0 <= i < |init| && f(init[i]).Err?;
        assert dates[i] == init[i];
      }
      if Concat(f, init).Err? {
        var i :| 0 <= i < |init| && f(init[i]) == Concat(f, init);
        assert dates[i] == init[i];
      }
      if exists i :: 0 <= i < |dates| && f(dates[i]).Err? {
        var i :| 0 <= i < |dates| && f(dates[i]).Err?;
        if i < |init| { assert init[i] == dates[i]; }
      }
    }
  }

  /** When the loop completes, an item is collected exactly when some
      date gives it. */
  lemma {:induction false} ConcatMembers<T>(f: string -> Result<seq<T>>, dates: seq<string>, x: T)
    requires Concat(f, dates).Ok?
    ensures x in Concat(f, dates).value <==> exists i :: 0 <= i < |dates| && f(dates[i]).Ok? && x in f(dates[i]).value
    decreases |dates|
  {
    if dates != [] {
      var init := Init(dates);
      ConcatMembers(f, init, x);
      if exists i :: 0 <= i < |init| && f(init[i]).Ok? && x in f(init[i]).value {
        var i :| 0 <= i < |init| && f(init[i]).Ok? && x in f(init[i]).value;
        assert dates[i] == init[i];
      }
      if exists i :: 0 <= i < |dates| && f(dates[i]).Ok? && x in f(dates[i]).value {
        var i :| 0 <= i < |dates| && f(dates[i]).Ok? && x in f(dates[i]).value;
        if i < |init| { assert init[i] == dates[i]; }
      }
    }
  }

  /** When every date gives nothing, the loop collects nothing. */
  lemma {:induction false} ConcatNothing<T>(f: string -> Result<seq<T>>, dates: seq<string>)
    requires forall i :: 0 <= i < |dates| ==> f(dates[i]).Err? || f(dates[i]) == Ok([])
    ensures Concat(f, dates).Err? || Concat(f, dates) == Ok([])
    decreases |dates|
  {
    if dates != [] {
      var init := Init(dates);
      assert forall i :: 0 <= i < |init| ==> init[i] == dates[i];
      ConcatNothing(f, init);
      var none: seq<T> := [];
      assert none + none == none;
    }
  }
}
