/** NewsProcessor.deduplicate_articles (processor.py:77-117): the batch is
    stably sorted by publication time, then walked once with a set of seen
    fingerprints and a list of kept articles. An exact repeat (same
    fingerprint as a kept article) is dropped; a near-duplicate (title
    similarity above 0.8 with a kept article) is merged into the first such
    kept article by appending its source; anything else is kept. */
module Dedup {
  import opened Wrappers
  import opened Text
  import opened Sorting
  import opened Articles

  /** Titles more similar than this are one story (processor.py:105). */
  const Threshold: real := 0.8

  /** The sort key of processor.py:83: published_at, or the clock reading
      `now` when the key is missing. A None value has no order; Orderable
      says when the sort can run at all. */
  function TimeKey(now: int): Article -> real {
    (a: Article) =>
      match a.publishedAt
      case At(t) => t as real
      case _ => now as real
  }

  /** sorted() can compare the keys. Python raises TypeError when it
      compares None with a datetime (or with None), and sorting two or more
      items compares every item at least once. */
  predicate Orderable(xs: seq<Article>) {
    |xs| < 2 || forall i :: 0 <= i < |xs| ==> !xs[i].publishedAt.NoDate?
  }

  /** processor.py:105: the two titles count as one story. */
  predicate SameStory(ratio: Ratio, title: string, other: string) {
    Similarity(ratio, title, other) > Threshold
  }

  /** The fingerprint of processor.py:93: title and url are joined first,
      then normalised and hashed together. */
  function ArticleFingerprint(md5: Digest, a: Article): string {
    Fingerprint(md5, a.title + " " + a.url)
  }

  /** The loop below is stated over any fingerprint function and any
      title-matching test; DedupFingerprint and DedupMatch are the ones
      processor.py uses. */
  type Keyer = (string, string) -> string
  type Matcher = (string, string) -> bool

  /** The fingerprint an article gets from a fingerprint function of its
      title and url. */
  function Key(fp: Keyer, a: Article): string {
    fp(a.title, a.url)
  }

  function DedupFingerprint(md5: Digest): Keyer {
    (title, url) => Fingerprint(md5, title + " " + url)
  }

  function DedupMatch(ratio: Ratio): Matcher {
    (title, other) => SameStory(ratio, title, other)
  }

  /** The inner scan of processor.py:101-111: the index of the first kept
      article whose title is more similar than the threshold. */
  function FirstSimilar(same: Matcher, title: string, kept: seq<Article>): (r: Option<nat>)
    ensures r.Some? ==> r.value < |kept|
    decreases |kept|
  {
    if kept == [] then None
    else if same(title, kept[0].title) then Some(0)
    else
      match FirstSimilar(same, title, kept[1..])
      case None => None
      case Some(k) => Some(k + 1)
  }

  /** FirstSimilar finds the first match, and None means no kept title
      matches. */
  lemma {:induction false} FirstSimilarSpec(same: Matcher, title: string, kept: seq<Article>)
    ensures FirstSimilar(same, title, kept).Some? ==>
      var m := FirstSimilar(same, title, kept).value;
      && same(title, kept[m].title)
      && forall k :: 0 <= k < m ==> !same(title, kept[k].title)
    ensures FirstSimilar(same, title, kept).None? <==>
      forall k :: 0 <= k < |kept| ==> !same(title, kept[k].title)
    decreases |kept|
  {
    if kept != [] && !same(title, kept[0].title) {
      var rest := kept[1..];
      FirstSimilarSpec(same, title, rest);
      assert forall k :: 1 <= k < |kept| ==> kept[k] == rest[k - 1];
      if FirstSimilar(same, title, rest).None? {
        forall k | 0 <= k < |kept| ensures !same(title, kept[k].title) {
          if k > 0 {
            assert !same(title, rest[k - 1].title);
          }
        }
      } else {
        var m := FirstSimilar(same, title, rest).value;
        forall k | 0 <= k < m + 1 ensures !same(title, kept[k].title) {
          if k > 0 {
            assert !same(title, rest[k - 1].title);
          }
        }
      }
    }
  }

  /** Scanning one more kept article. */
  lemma FirstSimilarSnoc(same: Matcher, title: string, kept: seq<Article>, j: nat)
    requires j < |kept|
    ensures FirstSimilar(same, title, kept[..j + 1]) ==
      match FirstSimilar(same, title, kept[..j])
      case Some(m) => Some(m)
      case None => if same(title, kept[j].title) then Some(j) else None
  {
    var a, b := kept[..j], kept[..j + 1];
    assert forall k :: 0 <= k < j ==> a[k] == b[k];
    FirstSimilarSpec(same, title, a);
    FirstSimilarSpec(same, title, b);
    match FirstSimilar(same, title, a)
    case Some(m) =>
      FirstSimilarIs(same, title, b, m);
    case None =>
      if same(title, kept[j].title) {
        FirstSimilarIs(same, title, b, j);
      }
  }

  /** A match found in a prefix is the match in the whole list. */
  lemma FirstSimilarExtend(same: Matcher, title: string, kept: seq<Article>, j: nat)
    requires j <= |kept| && FirstSimilar(same, title, kept[..j]).Some?
    ensures FirstSimilar(same, title, kept) == FirstSimilar(same, title, kept[..j])
  {
    var m := FirstSimilar(same, title, kept[..j]).value;
    FirstSimilarSpec(same, title, kept[..j]);
    assert forall k :: 0 <= k < j ==> kept[..j][k] == kept[k];
    FirstSimilarIs(same, title, kept, m);
  }

  /** The match is determined by the first matching index. */
  lemma FirstSimilarIs(same: Matcher, title: string, kept: seq<Article>, m: nat)
    requires m < |kept| && same(title, kept[m].title)
    requires forall k :: 0 <= k < m ==> !same(title, kept[k].title)
    ensures FirstSimilar(same, title, kept) == Some(m)
  {
    FirstSimilarSpec(same, title, kept);
  }

  /** FirstSimilar reads nothing of the kept articles but their titles. */
  lemma {:induction false} FirstSimilarTitlesOnly(same: Matcher, title: string, a: seq<Article>, b: seq<Article>)
    requires |a| == |b| && forall k :: 0 <= k < |a| ==> a[k].title == b[k].title
    ensures FirstSimilar(same, title, a) == FirstSimilar(same, title, b)
    decreases |a|
  {
    if a != [] {
      FirstSimilarTitlesOnly(same, title, a[1..], b[1..]);
    }
  }

  /** The source list of a kept article: its `sources` key, or its own
      source when the key does not exist yet (processor.py:107-108). */
  function SourcesOf(a: Article): seq<string> {
    match a.sources
    case None => [a.source]
    case Some(l) => l
  }

  /** processor.py:107-109: create `sources` on the first merge, then append. */
  function Merge(existing: Article, source: string): Article {
    existing.(sources := Some(SourcesOf(existing) + [source]))
  }

  /** The loop state: seen_fingerprints and unique_articles. */
  datatype DedupState = DedupState(seen: set<string>, kept: seq<Article>)

  /** What one loop iteration does with an article. */
  datatype Fate = Skipped | MergedInto(index: nat) | Kept

  function Classify(fp: Keyer, same: Matcher, st: DedupState, a: Article): (f: Fate)
    ensures f.MergedInto? ==> f.index < |st.kept|
  {
    if Key(fp, a) in st.seen then Skipped
    else
      match FirstSimilar(same, a.title, st.kept)
      case Some(k) => MergedInto(k)
      case None => Kept
  }

  /** One iteration of processor.py:88-115. A merged article's fingerprint
      is not recorded (only the Kept branch adds to `seen`). */
  function Step(fp: Keyer, same: Matcher, st: DedupState, a: Article): DedupState {
    match Classify(fp, same, st, a)
    case Skipped => st
    case MergedInto(k) => st.(kept := st.kept[k := Merge(st.kept[k], a.source)])
    case Kept => DedupState(st.seen + {Key(fp, a)}, st.kept + [a])
  }

  /** The state after the loop has consumed xs, from the empty state. */
  function Run(fp: Keyer, same: Matcher, xs: seq<Article>): DedupState
    decreases |xs|
  {
    if xs == [] then DedupState({}, [])
    else Step(fp, same, Run(fp, same, xs[..|xs| - 1]), xs[|xs| - 1])
  }

  /** deduplicate_articles as a function of its input. */
  function DeduplicateSpec(md5: Digest, ratio: Ratio, now: int, xs: seq<Article>): Result<seq<Article>> {
    if xs == [] then Ok([])
    else if !Orderable(xs) then Err(TypeError)
    else Ok(Run(DedupFingerprint(md5), DedupMatch(ratio), SortAsc(xs, TimeKey(now))).kept)
  }

  /** processor.py:77-117. */
  method DeduplicateArticles(md5: Digest, ratio: Ratio, now: int, articles: seq<Article>)
    returns (r: Result<seq<Article>>)
    ensures r == DeduplicateSpec(md5, ratio, now, articles)
    ensures articles == [] ==> r == Ok([])
  {
    if articles == [] {
      return Ok([]);
    }
    if |articles| >= 2 && exists i :: 0 <= i < |articles| && articles[i].publishedAt.NoDate? {
      return Err(TypeError);
    }
    assert Orderable(articles);
    var sorted := SortAsc(articles, TimeKey(now));
    var unique := WalkSorted(md5, ratio, sorted);
    return Ok(unique);
  }

  /** The loop of processor.py:88-115 over the sorted batch. */
  method WalkSorted(md5: Digest, ratio: Ratio, sorted: seq<Article>) returns (unique: seq<Article>)
    ensures unique == Run(DedupFingerprint(md5), DedupMatch(ratio), sorted).kept
  {
    ghost var fp := DedupFingerprint(md5);
    ghost var same := DedupMatch(ratio);
    unique := [];
    var seen: set<string> := {};
    var i := 0;
    while i < |sorted|
      invariant 0 <= i <= |sorted|
      invariant DedupState(seen, unique) == Run(fp, same, sorted[..i])
    {
      RunSnoc(fp, same, sorted, i);
      seen, unique := ConsumeArticle(md5, ratio, seen, unique, sorted[i]);
      i := i + 1;
    }
    assert sorted[..|sorted|] == sorted;
  }

  /** One iteration of the loop of processor.py:88-115. */
  method ConsumeArticle(md5: Digest, ratio: Ratio, seen: set<string>, unique: seq<Article>, article: Article)
    returns (seen': set<string>, unique': seq<Article>)
    ensures DedupState(seen', unique') ==
      Step(DedupFingerprint(md5), DedupMatch(ratio), DedupState(seen, unique), article)
  {
    ghost var fp := DedupFingerprint(md5);
    ghost var before := DedupState(seen, unique);
    var fingerprint := Fingerprint(md5, article.title + " " + article.url);
    assert fingerprint == Key(fp, article);
    seen', unique' := seen, unique;
    if fingerprint !in seen {
      var isDuplicate;
      unique', isDuplicate := MergeIntoSimilar(ratio, article, unique);
      if !isDuplicate {
        seen' := seen + {fingerprint};
        unique' := unique' + [article];
      }
    } else {
      assert Classify(fp, DedupMatch(ratio), before, article) == Skipped;
    }
  }

  /** The inner loop of processor.py:101-111: merge the article into the
      first kept article with a similar title, if there is one. */
  method MergeIntoSimilar(ratio: Ratio, article: Article, unique: seq<Article>)
    returns (merged: seq<Article>, isDuplicate: bool)
    ensures match FirstSimilar(DedupMatch(ratio), article.title, unique)
      case Some(k) => isDuplicate && merged == unique[k := Merge(unique[k], article.source)]
      case None => !isDuplicate && merged == unique
  {
    ghost var same := DedupMatch(ratio);
    merged := unique;
    isDuplicate := false;
    var j := 0;
    while j < |merged|
      invariant 0 <= j <= |merged|
      invariant !isDuplicate && merged == unique
      invariant FirstSimilar(same, article.title, unique[..j]) == None
    {
      var similarity := Similarity(ratio, article.title, merged[j].title);
      assert same(article.title, unique[j].title) == (similarity > Threshold);
      FirstSimilarSnoc(same, article.title, unique, j);
      if similarity > Threshold {
        FirstSimilarExtend(same, article.title, unique, j + 1);
        merged := merged[j := Merge(merged[j], article.source)];
        isDuplicate := true;
        break;
      }
      j := j + 1;
    }
    if !isDuplicate {
      assert unique[..j] == unique;
    }
  }

  /** Run consumes the input one article at a time. */
  lemma RunSnoc(fp: Keyer, same: Matcher, xs: seq<Article>, i: nat)
    requires i < |xs|
    ensures Run(fp, same, xs[..i + 1]) == Step(fp, same, Run(fp, same, xs[..i]), xs[i])
  {
    assert xs[..i + 1][..i] == xs[..i];
  }

  // ---------------------------------------------------------------------
  // Invariants of the loop state
  // ---------------------------------------------------------------------

  /** A step keeps every kept article's title, url and source, and only
      appends. */
  lemma StepKeepsStories(fp: Keyer, same: Matcher, st: DedupState, a: Article)
    ensures |st.kept| <= |Step(fp, same, st, a).kept| <= |st.kept| + 1
    ensures forall k :: 0 <= k < |st.kept| ==>
      && Step(fp, same, st, a).kept[k].title == st.kept[k].title
      && Step(fp, same, st, a).kept[k].url == st.kept[k].url
      && Step(fp, same, st, a).kept[k].source == st.kept[k].source
  {
  }

  /** `seen` holds exactly the fingerprints of the kept articles. */
  lemma {:induction false} RunSeen(fp: Keyer, same: Matcher, xs: seq<Article>)
    ensures Run(fp, same, xs).seen ==
      set k | 0 <= k < |Run(fp, same, xs).kept| :: Key(fp, Run(fp, same, xs).kept[k])
    decreases |xs|
  {
    if xs != [] {
      var p := Init(xs);
      var a := xs[|xs| - 1];
      RunSeen(fp, same, p);
      var st := Run(fp, same, p);
      var st' := Run(fp, same, xs);
      assert st' == Step(fp, same, st, a);
      StepKeepsStories(fp, same, st, a);
      var fps := set k | 0 <= k < |st'.kept| :: Key(fp, st'.kept[k]);
      match Classify(fp, same, st, a)
      case Skipped =>
      case MergedInto(m) =>
        forall f ensures f in st'.seen <==> f in fps {
          if f in st'.seen {
            var k :| 0 <= k < |st.kept| && Key(fp, st.kept[k]) == f;
            assert Key(fp, st'.kept[k]) == f;
          }
          if f in fps {
            var k :| 0 <= k < |st'.kept| && Key(fp, st'.kept[k]) == f;
            assert Key(fp, st.kept[k]) == f;
          }
        }
      case Kept =>
        var n := |st.kept|;
        assert st'.kept == st.kept + [a];
        forall f ensures f in st'.seen <==> f in fps {
          if f in st'.seen {
            if f == Key(fp, a) {
              assert Key(fp, st'.kept[n]) == f;
            } else {
              var k :| 0 <= k < n && Key(fp, st.kept[k]) == f;
              assert Key(fp, st'.kept[k]) == f;
            }
          }
          if f in fps {
            var k :| 0 <= k < |st'.kept| && Key(fp, st'.kept[k]) == f;
            if k < n {
              assert Key(fp, st.kept[k]) == f;
            }
          }
        }
    }
  }

  /** No two kept articles share a fingerprint. */
  lemma {:induction false} RunKeysDistinct(fp: Keyer, same: Matcher, xs: seq<Article>)
    ensures forall i, j :: 0 <= i < j < |Run(fp, same, xs).kept| ==>
      Key(fp, Run(fp, same, xs).kept[i]) != Key(fp, Run(fp, same, xs).kept[j])
    decreases |xs|
  {
    if xs != [] {
      var p := Init(xs);
      var a := xs[|xs| - 1];
      RunKeysDistinct(fp, same, p);
      var st := Run(fp, same, p);
      var st' := Run(fp, same, xs);
      assert st' == Step(fp, same, st, a);
      StepKeepsStories(fp, same, st, a);
      if Classify(fp, same, st, a) == Kept {
        RunSeen(fp, same, p);
        var n := |st.kept|;
        assert st'.kept == st.kept + [a];
        forall i, j | 0 <= i < j < |st'.kept|
          ensures Key(fp, st'.kept[i]) != Key(fp, st'.kept[j])
        {
          if j == n {
            assert Key(fp, st.kept[i]) in st.seen;
          }
        }
      }
    }
  }

  /** At most one article is kept per input. */
  lemma {:induction false} RunKeptBound(fp: Keyer, same: Matcher, xs: seq<Article>)
    ensures |Run(fp, same, xs).kept| <= |xs|
    decreases |xs|
  {
    if xs != [] {
      RunKeptBound(fp, same, Init(xs));
      StepKeepsStories(fp, same, Run(fp, same, Init(xs)), xs[|xs| - 1]);
    }
  }

  /** For kept articles i < j, the later one's title is not more similar
      than the threshold to the earlier one's. */
  lemma {:induction false} RunTitlesDissimilar(fp: Keyer, same: Matcher, xs: seq<Article>)
    ensures forall i, j :: 0 <= i < j < |Run(fp, same, xs).kept| ==>
      !same(Run(fp, same, xs).kept[j].title, Run(fp, same, xs).kept[i].title)
    decreases |xs|
  {
    if xs != [] {
      var p := Init(xs);
      var a := xs[|xs| - 1];
      RunTitlesDissimilar(fp, same, p);
      var st := Run(fp, same, p);
      var st' := Run(fp, same, xs);
      assert st' == Step(fp, same, st, a);
      StepKeepsStories(fp, same, st, a);
      if Classify(fp, same, st, a) == Kept {
        FirstSimilarSpec(same, a.title, st.kept);
        assert st'.kept == st.kept + [a];
      }
    }
  }

  /** kept[k] is xs[idx[k]] apart from the `sources` key, with idx strictly
      increasing: the kept list is a subsequence of the input. */
  ghost predicate Embedding(idx: seq<int>, kept: seq<Article>, xs: seq<Article>) {
    && |idx| == |kept|
    && (forall k :: 0 <= k < |idx| ==> 0 <= idx[k] < |xs| && kept[k].(sources := xs[idx[k]].sources) == xs[idx[k]])
    && (forall k, l :: 0 <= k < l < |idx| ==> idx[k] < idx[l])
  }

  lemma {:induction false} RunEmbedding(fp: Keyer, same: Matcher, xs: seq<Article>) returns (idx: seq<int>)
    ensures Embedding(idx, Run(fp, same, xs).kept, xs)
    decreases |xs|
  {
    if xs == [] {
      idx := [];
    } else {
      var p := Init(xs);
      var a := xs[|xs| - 1];
      idx := RunEmbedding(fp, same, p);
      var st := Run(fp, same, p);
      var st' := Run(fp, same, xs);
      assert st' == Step(fp, same, st, a);
      assert forall i :: 0 <= i < |p| ==> p[i] == xs[i];
      match Classify(fp, same, st, a)
      case Skipped =>
      case MergedInto(m) =>
      case Kept =>
        assert st'.kept == st.kept + [a];
        idx := idx + [|xs| - 1];
    }
  }

  /** The kept list is a subsequence of the input (up to `sources`). */
  lemma RunIsSubsequence(fp: Keyer, same: Matcher, xs: seq<Article>)
    ensures exists idx :: Embedding(idx, Run(fp, same, xs).kept, xs)
  {
    var idx := RunEmbedding(fp, same, xs);
  }

  // ---------------------------------------------------------------------
  // Where every input goes
  // ---------------------------------------------------------------------

  /** The fate of the last input of xs. */
  function LastFate(fp: Keyer, same: Matcher, xs: seq<Article>): Fate
    requires xs != []
  {
    Classify(fp, same, Run(fp, same, Init(xs)), xs[|xs| - 1])
  }

  /** How many inputs were dropped as exact repeats. */
  function Skips(fp: Keyer, same: Matcher, xs: seq<Article>): nat
    decreases |xs|
  {
    if xs == [] then 0
    else Skips(fp, same, Init(xs)) + (if LastFate(fp, same, xs).Skipped? then 1 else 0)
  }

  /** How many inputs were merged into some kept article. */
  function Merges(fp: Keyer, same: Matcher, xs: seq<Article>): nat
    decreases |xs|
  {
    if xs == [] then 0
    else Merges(fp, same, Init(xs)) + (if LastFate(fp, same, xs).MergedInto? then 1 else 0)
  }

  /** The sources of the inputs merged into kept article k, in arrival order. */
  function MergedSources(fp: Keyer, same: Matcher, xs: seq<Article>, k: nat): seq<string>
    decreases |xs|
  {
    if xs == [] then []
    else
      var last := if LastFate(fp, same, xs) == MergedInto(k) then [xs[|xs| - 1].source] else [];
      MergedSources(fp, same, Init(xs), k) + last
  }

  lemma MergedSourcesOfLast(fp: Keyer, same: Matcher, xs: seq<Article>, k: nat)
    requires xs != []
    ensures MergedSources(fp, same, xs, k) == MergedSources(fp, same, Init(xs), k) +
      (if LastFate(fp, same, xs) == MergedInto(k) then [xs[|xs| - 1].source] else [])
  {
  }

  /** Every input is kept, skipped or merged, exactly one of the three. */
  lemma {:induction false} EveryInputAccounted(fp: Keyer, same: Matcher, xs: seq<Article>)
    ensures |xs| == |Run(fp, same, xs).kept| + Skips(fp, same, xs) + Merges(fp, same, xs)
    decreases |xs|
  {
    if xs != [] {
      EveryInputAccounted(fp, same, Init(xs));
      assert Run(fp, same, xs) == Step(fp, same, Run(fp, same, Init(xs)), xs[|xs| - 1]);
    }
  }

  /** No input carries the `sources` key yet (the scrapers never set it). */
  ghost predicate Fresh(xs: seq<Article>) {
    forall i :: 0 <= i < |xs| ==> xs[i].sources.None?
  }

  /** A kept article has the `sources` key exactly when something was merged
      into it, and then the key holds its own source followed by the merged
      sources in arrival order. */
  lemma {:induction false} RunSources(fp: Keyer, same: Matcher, xs: seq<Article>)
    requires Fresh(xs)
    ensures forall k :: 0 <= k < |Run(fp, same, xs).kept| ==>
      Run(fp, same, xs).kept[k].sources ==
        (if MergedSources(fp, same, xs, k) == [] then None
         else Some([Run(fp, same, xs).kept[k].source] + MergedSources(fp, same, xs, k)))
    ensures forall k: nat :: k >= |Run(fp, same, xs).kept| ==> MergedSources(fp, same, xs, k) == []
    decreases |xs|
  {
    if xs != [] {
      var p := Init(xs);
      var a := xs[|xs| - 1];
      RunSources(fp, same, p);
      var st := Run(fp, same, p);
      var st' := Run(fp, same, xs);
      var f := Classify(fp, same, st, a);
      assert st' == Step(fp, same, st, a);
      assert LastFate(fp, same, xs) == f;
      forall k: nat
        ensures MergedSources(fp, same, xs, k) ==
          MergedSources(fp, same, p, k) + (if f == MergedInto(k) then [a.source] else [])
      {
        MergedSourcesOfLast(fp, same, xs, k);
      }
      if f.Kept? {
        assert st'.kept == st.kept + [a];
        var n := |st.kept|;
        assert MergedSources(fp, same, p, n) == [];
        assert MergedSources(fp, same, xs, n) == [];
        assert st'.kept[n].sources.None?;
        forall k | 0 <= k < |st'.kept|
          ensures st'.kept[k].sources ==
            (if MergedSources(fp, same, xs, k) == [] then None
             else Some([st'.kept[k].source] + MergedSources(fp, same, xs, k)))
        {
          if k < n {
            assert st'.kept[k] == st.kept[k];
            assert MergedSources(fp, same, xs, k) == MergedSources(fp, same, p, k);
          }
        }
      } else if f.MergedInto? {
        var m := f.index;
        forall k | 0 <= k < |st'.kept|
          ensures st'.kept[k].sources ==
            (if MergedSources(fp, same, xs, k) == [] then None
             else Some([st'.kept[k].source] + MergedSources(fp, same, xs, k)))
        {
          var old_ := MergedSources(fp, same, p, k);
          if k == m {
            assert SourcesOf(st.kept[m]) == [st.kept[m].source] + old_;
            assert st'.kept[m] == Merge(st.kept[m], a.source);
            assert MergedSources(fp, same, xs, k) == old_ + [a.source];
            assert [st.kept[m].source] + old_ + [a.source] == [st.kept[m].source] + (old_ + [a.source]);
          } else {
            assert st'.kept[k] == st.kept[k];
            assert MergedSources(fp, same, xs, k) == old_;
          }
        }
      } else {
        forall k: nat ensures MergedSources(fp, same, xs, k) == MergedSources(fp, same, p, k) {
          assert MergedSources(fp, same, p, k) + [] == MergedSources(fp, same, p, k);
        }
      }
    }
  }

  /** The `sources` length beyond one, summed over the kept articles (0 for
      an article without the key). */
  function ExtraSources(kept: seq<Article>): int
    decreases |kept|
  {
    if kept == [] then 0
    else ExtraSources(Init(kept)) + (|SourcesOf(kept[|kept| - 1])| - 1)
  }

  lemma {:induction false} ExtraSourcesUpdate(kept: seq<Article>, j: nat, m: Article)
    requires j < |kept|
    ensures ExtraSources(kept[j := m]) ==
      ExtraSources(kept) - (|SourcesOf(kept[j])| - 1) + (|SourcesOf(m)| - 1)
    decreases |kept|
  {
    var n := |kept| - 1;
    if j < n {
      ExtraSourcesUpdate(Init(kept), j, m);
      assert Init(kept[j := m]) == Init(kept)[j := m];
    } else {
      assert Init(kept[j := m]) == Init(kept);
    }
  }

  /** inputs = kept + skipped + the sum of (len(sources) - 1) over kept. */
  lemma {:induction false} SourcesCountMerges(fp: Keyer, same: Matcher, xs: seq<Article>)
    requires Fresh(xs)
    ensures ExtraSources(Run(fp, same, xs).kept) == Merges(fp, same, xs)
    ensures |xs| == |Run(fp, same, xs).kept| + Skips(fp, same, xs) + ExtraSources(Run(fp, same, xs).kept)
    decreases |xs|
  {
    EveryInputAccounted(fp, same, xs);
    if xs != [] {
      var p := Init(xs);
      var a := xs[|xs| - 1];
      SourcesCountMerges(fp, same, p);
      var st := Run(fp, same, p);
      var st' := Run(fp, same, xs);
      assert st' == Step(fp, same, st, a);
      match Classify(fp, same, st, a)
      case Skipped =>
      case MergedInto(m) =>
        ExtraSourcesUpdate(st.kept, m, Merge(st.kept[m], a.source));
      case Kept =>
        assert st'.kept == st.kept + [a];
        assert Init(st'.kept) == st.kept;
    }
  }

  // ---------------------------------------------------------------------
  // Repeats
  // ---------------------------------------------------------------------

  /** An article whose fingerprint equals a kept article's changes nothing. */
  lemma ExactRepeatChangesNothing(fp: Keyer, same: Matcher, xs: seq<Article>, a: Article, k: nat)
    requires k < |Run(fp, same, xs).kept|
    requires Key(fp, a) == Key(fp, Run(fp, same, xs).kept[k])
    ensures Run(fp, same, xs + [a]) == Run(fp, same, xs)
  {
    RunSeen(fp, same, xs);
    assert Init(xs + [a]) == xs;
  }

  /** In particular an article whose title and url normalise (joined) like a
      kept article's is dropped. */
  lemma SameNormalizedTextIsDropped(md5: Digest, ratio: Ratio, xs: seq<Article>, a: Article, k: nat)
    requires k < |Run(DedupFingerprint(md5), DedupMatch(ratio), xs).kept|
    requires Normalize(a.title + " " + a.url) ==
      Normalize(Run(DedupFingerprint(md5), DedupMatch(ratio), xs).kept[k].title + " " +
                Run(DedupFingerprint(md5), DedupMatch(ratio), xs).kept[k].url)
    ensures Run(DedupFingerprint(md5), DedupMatch(ratio), xs + [a]) == Run(DedupFingerprint(md5), DedupMatch(ratio), xs)
  {
    ExactRepeatChangesNothing(DedupFingerprint(md5), DedupMatch(ratio), xs, a, k);
  }

  /** Because a merged article's fingerprint is never recorded, the same
      article arriving again is merged again into the same kept article, so
      its source is listed twice. */
  lemma MergedRepeatMergesAgain(fp: Keyer, same: Matcher, xs: seq<Article>, a: Article, k: nat)
    requires Classify(fp, same, Run(fp, same, xs), a) == MergedInto(k)
    ensures LastFate(fp, same, xs + [a, a]) == MergedInto(k)
    ensures MergedSources(fp, same, xs + [a, a], k) == MergedSources(fp, same, xs, k) + [a.source, a.source]
  {
    var st := Run(fp, same, xs);
    assert Init(xs + [a]) == xs;
    assert Init(xs + [a, a]) == xs + [a];
    var st' := Run(fp, same, xs + [a]);
    assert st' == Step(fp, same, st, a);
    StepKeepsStories(fp, same, st, a);
    FirstSimilarTitlesOnly(same, a.title, st.kept, st'.kept);
  }

  // ---------------------------------------------------------------------
  // The result of deduplicate_articles
  // ---------------------------------------------------------------------

  /** What deduplicate_articles promises: an empty batch gives []; an
      unorderable batch raises; otherwise the result is a subsequence of the
      batch stably sorted by time, no longer than the batch, with pairwise
      distinct fingerprints and pairwise dissimilar titles. */
  lemma DeduplicateProperties(md5: Digest, ratio: Ratio, now: int, xs: seq<Article>)
    ensures xs == [] ==> DeduplicateSpec(md5, ratio, now, xs) == Ok([])
    ensures DeduplicateSpec(md5, ratio, now, xs).Err? <==> !Orderable(xs)
    ensures DeduplicateSpec(md5, ratio, now, xs).Ok? ==>
      var kept := DeduplicateSpec(md5, ratio, now, xs).value;
      var sorted := SortAsc(xs, TimeKey(now));
      && |kept| <= |xs|
      && (exists idx :: Embedding(idx, kept, sorted))
      && (forall i, j :: 0 <= i < j < |kept| ==>
            ArticleFingerprint(md5, kept[i]) != ArticleFingerprint(md5, kept[j]))
      && (forall i, j :: 0 <= i < j < |kept| ==>
            !SameStory(ratio, kept[j].title, kept[i].title))
  {
    var sorted := SortAsc(xs, TimeKey(now));
    var fp, same := DedupFingerprint(md5), DedupMatch(ratio);
    RunKeptBound(fp, same, sorted);
    RunKeysDistinct(fp, same, sorted);
    RunTitlesDissimilar(fp, same, sorted);
    RunIsSubsequence(fp, same, sorted);
  }
}
