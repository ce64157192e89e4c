/** The article record that the scrapers hand to NewsProcessor, and the
    processor's text helpers: _normalize_text, _compute_fingerprint and
    _compute_similarity (processor.py). */
module Articles {
  import opened Wrappers
  import opened Text

  /** The `published_at` key: missing, present but None, or a time stamp. */
  datatype PublishedAt = Absent | NoDate | At(time: int)

  /** A scraped article. A key the scraper does not set is represented by
      the default processor.py reads it with ('' for strings, 'global' for
      the category, 0 for the Reddit counters). `sources` is the key that
      deduplication creates on a merge; None means the key is absent. */
  datatype Article = Article(
    title: string,
    url: string,
    publishedAt: PublishedAt,
    source: string,
    category: string,
    text: string,
    redditScore: int,
    redditComments: int,
    sources: Option<seq<string>>)

  /** The shape of any normalised text: lower-case word characters and
      single spaces, with no space at either end. */
  ghost predicate Canonical(t: string) {
    && (forall i :: 0 <= i < |t| ==> t[i] == ' ' || KeptChar(t[i]))
    && NoDoubleSpace(t)
    && (t == [] || (t[0] != ' ' && t[|t| - 1] != ' '))
  }

  /** _normalize_text: lower-case, every character that is neither a word
      character nor whitespace becomes a space, whitespace runs collapse to
      one space, and both ends are stripped. */
  function Normalize(s: string): (r: string)
    ensures s == [] ==> r == []
    ensures Canonical(r)
  {
    if s == [] then []
    else
      NormalizeShape(s);
      Strip(Collapse(ReplaceNonWord(Lower(s))))
  }

  /** A character normalised text may hold besides the space. */
  predicate KeptChar(c: char) {
    IsWordChar(c) && !IsUpper(c)
  }

  /** The pipeline of _normalize_text leaves only lower-case word
      characters and single inner spaces. */
  lemma NormalizeShape(s: string)
    ensures Canonical(Strip(Collapse(ReplaceNonWord(Lower(s)))))
  {
    var cleaned := ReplaceNonWord(Lower(s));
    CleanedChars(s);
    CollapseNoDoubleSpace(false, cleaned);
    CollapseKeeps(false, cleaned, KeptChar);
    StripCanonical(Collapse(cleaned));
  }

  /** After lower-casing and replacing punctuation, every character is
      whitespace or a kept character. */
  lemma CleanedChars(s: string)
    ensures forall i :: 0 <= i < |s| ==>
      IsSpace(ReplaceNonWord(Lower(s))[i]) || KeptChar(ReplaceNonWord(Lower(s))[i])
  {
  }

  /** Stripping a single-spaced text of spaces and kept characters leaves
      a canonical text. */
  lemma StripCanonical(c: string)
    requires forall i :: 0 <= i < |c| ==> c[i] == ' ' || KeptChar(c[i])
    requires NoDoubleSpace(c)
    ensures Canonical(Strip(c))
  {
    var lo := StripSlice(c);
    var r := Strip(c);
    assert forall i :: 0 <= i < |r| ==> r[i] == c[lo + i];
  }

  /** Normalising an already normalised text changes nothing. */
  lemma NormalizeCanonical(t: string)
    requires Canonical(t)
    ensures Normalize(t) == t
  {
    if t != [] {
      LowerOfLower(t);
      ReplaceNonWordKeeps(t);
      CollapseIdentity(false, t);
      StripTrimmed(t);
    }
  }

  /** _normalize_text is idempotent. */
  lemma NormalizeIdempotent(s: string)
    ensures Normalize(Normalize(s)) == Normalize(s)
  {
    NormalizeCanonical(Normalize(s));
  }

  /** difflib.SequenceMatcher(None, a, b).ratio(), left uninterpreted: any
      function into [0, 1]. No symmetry and no ratio(x, x) == 1 is assumed,
      since difflib's junk heuristics promise neither. */
  type Ratio = f: (string, string) -> real | forall a, b :: 0.0 <= f(a, b) <= 1.0
    witness (a: string, b: string) => 0.0

  /** hashlib.md5(text.encode()).hexdigest(), left uninterpreted: any
      deterministic function. */
  type Digest = string -> string

  /** _compute_fingerprint */
  function Fingerprint(md5: Digest, text: string): string {
    md5(Normalize(text))
  }

  /** Texts that normalise alike get the same fingerprint; in particular a
      fingerprint of already normalised text equals that of the original. */
  lemma FingerprintOfNormalized(md5: Digest, s: string)
    ensures Fingerprint(md5, Normalize(s)) == Fingerprint(md5, s)
  {
    NormalizeIdempotent(s);
  }

  /** _compute_similarity: 0 when either raw argument is empty, otherwise
      the ratio of the two normalised texts. The guard tests the raw
      strings, so "!!!" and "?" are compared as two empty texts. */
  function Similarity(ratio: Ratio, a: string, b: string): (r: real)
    ensures a == [] || b == [] ==> r == 0.0
    ensures 0.0 <= r <= 1.0
  {
    if a == [] || b == [] then 0.0 else ratio(Normalize(a), Normalize(b))
  }
}
