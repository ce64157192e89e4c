# news-tool core in Dafny

This project models three parts of the news-tool repository:

- **The news processor** (`NewsProcessor` in processor.py). It takes one day's batch of scraped articles and then:
  - deduplicates it: a stable sort by publication time, exact repeats dropped by an md5 fingerprint, and near-duplicate titles merged into the `sources` list of the first similar article kept;
  - scores every article for impact, virality and controversy;
  - combines the three scores with the ranking weights and stable-sorts the batch by the result;
  - attaches a templated summary and a set of tags to each article.
- **Reaction selection** (social_reactions.py). This covers the title keyword extraction, the permalink format check, the truncation and score formulas of a scraped reaction, and the greedy choice of the best-scored, mutually dissimilar reactions of `get_top_reactions`.
- **The edition store** (data_manager.py). This covers:
  - the recursive datetime-to-ISO conversion applied before saving;
  - the listing of edition dates across the data and archive directories;
  - the edition summary and the search over editions;
  - the statistics over editions.

The directories are given as data: a listing of file names plus the content of each file.

## Layout

- `wrappers.dfy` (module `Wrappers`): `Option`, `Result`, and the Python exceptions the modelled code can raise.
- `text.dfy` (module `Text`): Python's string operations on ASCII:
  - `lower`, `re.sub(r'[^\w\s]', ' ', …)`, `re.sub(r'\s+', ' ', …)`, `strip` and `split`;
  - substring tests (`in`) and prefix tests.
- `sorting.dfy` (module `Sorting`): Python's stable `sorted(…, key=…, reverse=True)` as an insertion sort, and string order for the date listing.
- `articles.dfy` (module `Articles`): the article record, the text normaliser, the fingerprint and the similarity guard.
- `dedup.dfy` (module `Dedup`): `deduplicate_articles`, both as a method with the source's loop and as a fold (`Run`) that the properties are proved about.
- `scoring.dfy` (module `Scoring`): the impact, virality and controversy scorers and their configuration tables.
- `ranking.dfy` (module `Ranking`), whose members are:
  - `rank_articles`, `generate_summary`, `_extract_tags` and `process_articles`;
  - the ranking weights.
- `reactions.dfy` (module `Reactions`): the pure pieces of social_reactions.py and the selection loop of `get_top_reactions`.
- `editions.dfy` (module `Editions`):
  - `str`/`int` on digits;
  - `strptime('%Y-%m-%d')` and `strftime('%Y-%m-%d')` on dates;
  - `isoformat`, and `_convert_datetime_fields`.
- `store.dfy` (module `Store`), whose members are:
  - the stored edition, the glob and stem handling of `get_available_dates`, and `get_edition_summary`;
  - the per-date loop shared by search and statistics.
- `search.dfy` (module `Search`): `search_editions`.
- `statistics.dfy` (module `Statistics`): `get_statistics`, with the counter dictionaries as insertion-ordered lists of pairs.

## How the model is written

- **Loops become methods.** Every loop of the source is a method with the same loop, except the dict and list loops of `_convert_datetime_fields` (data_manager.py:42-46), which are part of a pure recursive conversion and become the recursive function `Editions.Convert`. A method's postcondition ties its result to a specification function, and the properties are lemmas about that function.
  - A dedup pass is `Dedup.WalkSorted` and `Dedup.ConsumeArticle`, against `Dedup.Run`.
  - The scorers are `Scoring.ImpactScore`, `Scoring.ViralityScores` and `Scoring.ControversyScores`.
  - The reaction loop is `Reactions.SelectTop` against `Reactions.Select`.
  - The edition loops are `Store.GetAvailableDates`, `Search.SearchEditions` and `Statistics.GetStatistics`.
- **Batches are sequences.** The source passes dicts by reference and mutates them in place: the `sources` list of a kept article, and `scores`/`summary`/`tags` of a ranked one. The model passes the batch as a sequence value and returns the updated records.
- **Exceptions are values.** An exception that escapes a modelled function is an `Err` of `Result`. Examples are the `TypeError` of sorting a `None` publication time, the `ZeroDivisionError` of the virality scorer and of the Jaccard similarity, and the `ValueError` of `strptime`.
- **Outside calls are parameters.** md5 (`Digest`) and `SequenceMatcher.ratio` (`Ratio`, with values in [0, 1]) are function parameters, so no property depends on what they compute. The clock reading that stands in for a missing `published_at` is the parameter `now`.

## Behaviour of the code the model keeps

- **All-zero engagement.** The division at processor.py:194 raises `ZeroDivisionError` when the largest engagement is 0. The `else` branch at processor.py:196-197, which would give every article 0, never runs, because the engagement list is never empty there. See `Scoring.ViralityProperties` and `Ranking.RankProperties`.
- **Substring keywords.** The impact of "Startup raises $5M Series A in Bangalore" is 45, because the ai_ml keyword "ai" (config.py:167) occurs inside "raises". See `Scoring.ImpactExample`.
- **When `sources` exists.** A kept article has no `sources` key until the first merge creates it (processor.py:107-108). See `Dedup.RunSources`.
- **Tag order.** `list(set(tags))` (processor.py:297) has no defined order, so the model returns the set.
- **A missing date aborts the batch.** A `published_at` of `None` in a batch of two or more articles makes the sort at processor.py:83 raise `TypeError`. See `Dedup.DeduplicateProperties`.

## Model

| member | source | states |
|---|---|---|
| Articles.Normalize | processor.py:40-49 | the normalised text of "" is ""; every result is lower case, holds only word characters and single inner spaces, and has no space at either end |
| Articles.NormalizeIdempotent | processor.py:40-49 | normalising twice is normalising once |
| Articles.NormalizeCanonical | processor.py:40-49 | a text that already has the normalised shape is left unchanged |
| Articles.NormalizeShape | processor.py:46-48 | the lower-case, substitute, collapse, strip pipeline yields the normalised shape |
| Articles.FingerprintOfNormalized | processor.py:51-54 | a text and its normalised form have the same fingerprint |
| Articles.Similarity | processor.py:56-65 | the similarity is 0 when either raw argument is empty (the guard tests the raw strings, before normalising), and otherwise lies in [0, 1] |
| Sorting.SortDescSpec | processor.py:268 | sorted(reverse=True) returns a permutation, in non-increasing key order, keeping the input order of equal keys |
| Sorting.SortAscSpec | processor.py:83 | sorted() returns a permutation, in non-decreasing key order, keeping the input order of equal keys |
| Dedup.FirstSimilarSpec | processor.py:101-111 | the inner scan finds the first kept article whose title is more than 0.8 similar, and finds none exactly when no kept title is |
| Dedup.DeduplicateArticles | processor.py:77-117 | the method returns the deduplication of its batch, and [] for an empty batch |
| Dedup.WalkSorted | processor.py:88-115 | the loop over the sorted batch yields the kept list of the fold |
| Dedup.ConsumeArticle | processor.py:89-115 | one iteration: an exact repeat changes nothing, a similar title merges into the first match without recording the fingerprint, otherwise the article is kept and its fingerprint recorded |
| Dedup.MergeIntoSimilar | processor.py:101-111 | the inner loop merges into exactly the first similar kept article and reports whether it did |
| Dedup.RunSeen | processor.py:86-114 | the set of seen fingerprints is exactly the set of the kept articles' fingerprints |
| Dedup.RunKeysDistinct | processor.py:93-114 | no two kept articles share a fingerprint |
| Dedup.RunKeptBound | processor.py:113-115 | no more articles are kept than came in |
| Dedup.RunTitlesDissimilar | processor.py:101-111 | for kept articles i < j, the later title is not more than 0.8 similar to the earlier |
| Dedup.RunEmbedding | processor.py:88-115 | the kept list is a subsequence of the input, equal apart from `sources` |
| Dedup.RunIsSubsequence | processor.py:88-115 | the kept list is a subsequence of the input |
| Dedup.EveryInputAccounted | processor.py:88-115 | every input is kept, skipped as an exact repeat or merged, exactly one of the three |
| Dedup.RunSources | processor.py:107-109 | for a batch in which no article has a `sources` key, a kept article has `sources` exactly when something was merged into it, and the list is its own source followed by the merged sources in arrival order |
| Dedup.SourcesCountMerges | processor.py:88-115 | for a batch in which no article has a `sources` key, inputs = kept + skipped + the sum over kept articles of (len(sources) - 1) |
| Dedup.ExactRepeatChangesNothing | processor.py:96-97 | an article whose fingerprint equals a kept article's leaves the state unchanged |
| Dedup.SameNormalizedTextIsDropped | processor.py:93-97 | an article whose joined title and url normalise like a kept article's is dropped |
| Dedup.MergedRepeatMergesAgain | processor.py:113-115 | since a merged article's fingerprint is never recorded, the same article arriving again merges again and its source is listed twice |
| Dedup.DeduplicateProperties | processor.py:77-117 | empty batch gives []; the result is TypeError exactly when the time keys cannot be compared; otherwise it is a subsequence of the stably time-sorted batch, no longer than the batch, with distinct fingerprints and pairwise dissimilar titles |
| Scoring.AnyInIff | processor.py:167 | any(k in text for k in keywords) holds exactly when some keyword is a substring |
| Scoring.Cap | processor.py:170 | min(x, 100) is at most 100 and at most x, and is one of the two |
| Scoring.ImpactScore | processor.py:155-170 | the loop returns the capped sum of the criteria with a keyword hit, and the score lies in [0, 100] |
| Scoring.ImpactCriteriaNonNegative | config.py:137-178 | every configured criterion score is non-negative |
| Scoring.MatchedScoreBounds | processor.py:163-168 | with non-negative scores the sum lies between 0 and the sum of all criterion scores |
| Scoring.MatchedScoreMonotone | processor.py:163-168 | a text matching every criterion another text matches scores at least as much |
| Scoring.MatchedScoreExtend | processor.py:163-168 | appending to the text never loses a matched criterion |
| Scoring.ImpactProperties | processor.py:155-170 | impact lies in [0, 100] and a longer body never lowers it |
| Scoring.ImpactExample | processor.py:155-170 | an article titled "Startup raises $5M Series A in Bangalore" with an empty body scores 45 |
| Scoring.ExampleScore | config.py:137-178 | that text matches only funding_round, india_macro and ai_ml, for 20 + 10 + 15 |
| Scoring.ByUrlKeys | processor.py:195 | the url-keyed dict has exactly the batch's urls as keys |
| Scoring.ByUrlValue | processor.py:195 | the value under a url is the score of some article with that url |
| Scoring.ByUrlLast | processor.py:195 | the value under a url is the score of the last article with that url |
| Scoring.MaxOf | processor.py:190 | max() returns an element of the list that no element exceeds |
| Scoring.ViralityScores | processor.py:172-199 | the method computes the virality dict of the batch, or raises ZeroDivisionError |
| Scoring.ViralityOutcome | processor.py:172-199 | {} for an empty batch; the only error is ZeroDivisionError, raised exactly when the batch is not empty and its largest engagement is 0 |
| Scoring.ViralityProperties | processor.py:172-199 | for a non-empty batch, with each article's engagement reddit_score + 0.1 * reddit_comments (missing counts read as 0): ZeroDivisionError exactly when the largest engagement is 0; otherwise each url gets the score of its last article, 100 for maximal engagement, within [0, 100] when no engagement is negative |
| Scoring.ScaledBounds | processor.py:194 | e / m * 100 is 100 when e equals m, and lies in [0, 100] for 0 <= e <= m |
| Scoring.ViralityExample | processor.py:172-199 | Reddit scores [100, 50, 0] with comments [10, 5, 0] give virality [100, 50, 0] |
| Scoring.Hits | processor.py:217-218 | the keyword count is at most the number of keywords |
| Scoring.HitsCounts | processor.py:217-218 | the count is the number of keyword positions that occur in the text |
| Scoring.ControversyKeywordsDistinct | processor.py:212-215 | the ten controversy keywords are distinct |
| Scoring.SaturatedHits | processor.py:221 | min(count * 20, 100) is a multiple of 20 in [0, 100], 20 per distinct keyword up to five |
| Scoring.ControversyProperties | processor.py:206-221 | an article's controversy score is 20 per distinct keyword found, at most 100 |
| Scoring.ControversyScores | processor.py:201-224 | the loop fills the url-keyed dict with each article's controversy score, the last write winning |
| Ranking.FinalScoreProperties | processor.py:247-251 | the weights 0.5, 0.35, 0.15 sum to 1; the final score stays in [0, 100] when the three scores do, is monotone in each, and three scores of 100 give 100 |
| Ranking.SummaryShape | processor.py:129-153 | the summary is always three parts joined by single spaces, the third the fixed context sentence, built from title and category only |
| Ranking.WhatHappenedPrecedence | processor.py:131-141 | each first sentence is chosen exactly when its keyword group occurs in the lower-cased title and no earlier group does |
| Ranking.SentencesDistinct | processor.py:133-141 | the five first sentences are distinct |
| Ranking.TagsMembership | processor.py:272-297 | the tags are the category plus the tag of every keyword group found in the lower-cased title and text |
| Ranking.TagsCount | processor.py:297 | there are between 1 and 7 tags, without duplicates |
| Ranking.RankArticles | processor.py:226-270 | the method returns the ranking of its batch |
| Ranking.AnnotateAll | processor.py:236-265 | the loop annotates every article in input order |
| Ranking.AnnotateArticle | processor.py:237-265 | one article gets its scores, its final score, its summary and its tags |
| Ranking.ScoresBounded | processor.py:240-259 | with dict values in [0, 100] all four scores of an article lie in [0, 100] |
| Ranking.ViralityValuesBounded | processor.py:172-199 | no virality value leaves [0, 100] when no Reddit count is negative |
| Ranking.ControversyValuesBounded | processor.py:201-224 | every controversy value lies in [0, 100] |
| Ranking.RankBounded | processor.py:226-270 | every ranked article's four scores lie in [0, 100] when no Reddit count is negative |
| Ranking.SharedUrlSharesVirality | processor.py:243 | articles sharing a url get the virality of the last of them |
| Ranking.SharedUrlSharesControversy | processor.py:244 | articles sharing a url get the controversy of the last of them |
| Ranking.Annotated | processor.py:237-265 | the batch after the loop keeps its length and order, and its k-th record is the k-th article with its scores (final = 0.5v + 0.35i + 0.15c), summary and tags |
| Ranking.RankProperties | processor.py:226-270 | [] for an empty batch; an error exactly when virality raises, and then ZeroDivisionError; otherwise a permutation of the annotated batch with final = 0.5v + 0.35i + 0.15c, in non-increasing final order, ties in input order |
| Ranking.ProcessArticles | processor.py:299-311 | the method deduplicates and then ranks |
| Ranking.ProcessProperties | processor.py:299-311 | [] for an empty batch; TypeError exactly for an unorderable batch; otherwise the deduplicated articles ranked, no more than came in, in non-increasing final score |
| Reactions.TitleWordsChars | social_reactions.py:69-70 | every cleaned title word is lower case and free of punctuation |
| Reactions.KeywordsProperties | social_reactions.py:63-76 | at most five keywords, in title order, lower case, without punctuation, longer than three characters, not stop words; with fewer than five, every qualifying word is among them |
| Reactions.StopWordsLengths | social_reactions.py:66-73 | only "with" among the stop words passes the length filter |
| Reactions.PermalinkShape | social_reactions.py:78-88 | the check accepts a url exactly when it starts with "http://" or "https://" |
| Reactions.BuiltPermalinksPass | social_reactions.py:144-210 | the permalinks both scrapers build always pass the check |
| Reactions.TruncateProperties | social_reactions.py:149-199 | a text over 200 characters becomes its first 200 plus "..." (203 in all), a shorter one is unchanged, and truncating twice is truncating once |
| Reactions.BuiltReactionsScore | social_reactions.py:144-207 | both scrapers build reactions whose score is the formula on their own engagement record; a tweet's record holds only its likes, so it scores its like count, and a post scores upvotes + 0.1 * comments |
| Reactions.SelectedFromCandidates | social_reactions.py:230-257 | every selected reaction is a scraped one, and the selection comes in non-increasing score |
| Reactions.DescendingByEngagement | social_reactions.py:231 | reactions sorted by a score that follows their engagement are sorted by the engagement formula |
| Reactions.CandidatesByEngagement | social_reactions.py:230-257 | when every scraped score follows its engagement, the sorted candidates and the selected reactions come in non-increasing engagement formula |
| Reactions.TweetsByLikes | social_reactions.py:144-257 | with tweets as the scraper builds them, a selected tweet never comes before one with more likes |
| Reactions.Jaccard | social_reactions.py:248 | the similarity of two token sets with a non-empty union lies in [0, 1] |
| Reactions.GetTopReactions | social_reactions.py:218-257 | the method returns the selection over the candidates sorted by score |
| Reactions.SelectTop | social_reactions.py:234-257 | the loop with its `break` computes the greedy selection |
| Reactions.IsDiverse | social_reactions.py:245-251 | the inner loop computes the diversity check, including its division by zero |
| Reactions.DiversityCheckSpec | social_reactions.py:245-251 | a candidate counts as diverse exactly when it is at most 0.7 similar to every selected reaction; the only failure is division by zero |
| Reactions.DiversityCheckErrors | social_reactions.py:248 | a candidate with tokens never divides by zero; one without tokens does once a token-less reaction is selected |
| Reactions.SelectGrows | social_reactions.py:237-255 | the selection only extends what is selected, keeps it pairwise diverse and stops at max_reactions |
| Reactions.SelectOrder | social_reactions.py:237-255 | the newly selected reactions are a subsequence of the candidates |
| Reactions.SelectFirst | social_reactions.py:237-255 | the first candidate is always selected when there is room |
| Reactions.TopReactionsProperties | social_reactions.py:218-257 | at most max_reactions reactions, in order from the score-sorted candidates, pairwise at most 0.7 similar, starting with the best candidate when there is room; the only failure is the division by zero of line 248 |
| Reactions.FirstIsBest | social_reactions.py:231 | the first selected reaction scores at least as much as every candidate |
| Reactions.EmptyTokensRaise | social_reactions.py:248 | a token-less candidate reached while a token-less reaction is selected raises ZeroDivisionError |
| Editions.Digits | data_manager.py:27 | str(n) is a non-empty string of digits |
| Editions.Pad | data_manager.py:27 | a zero-padded field is at least as wide as asked and all digits |
| Editions.NumberOfDigits | data_manager.py:182 | int(str(n)) == n |
| Editions.DigitsOfNumber | data_manager.py:182 | str(int(s)) == s for digits without a leading zero |
| Editions.FormatThenParse | data_manager.py:23-27 | a date from year 1000 on is written in ten characters and parses back to itself |
| Editions.ParseThenFormat | data_manager.py:182-186 | a ten-character date string without a space-padded day parses to a valid date that, from year 1000 on, is written back as the same string |
| Editions.UnpaddedDate | data_manager.py:182 | strptime accepts the unpadded stem "2024-1-5" |
| Editions.PaddedFormat | data_manager.py:27 | that date is written back as "2024-01-05" |
| Editions.NotADate | data_manager.py:182 | "notes", "2023-02-29" and "2024-13-01" raise ValueError |
| Editions.ShortYear | data_manager.py:27 | years below 1000 are written without padding, under the `strftime` the model follows |
| Editions.ConvertShape | data_manager.py:39-51 | the conversion keeps every dict's keys in order and every list's length, turns a datetime into its ISO string, and leaves every other value, tuples included, unchanged |
| Editions.ConvertJsonReady | data_manager.py:39-51 | no datetime is left in a dict or list after the conversion |
| Editions.ConvertIdentity | data_manager.py:39-51 | a value without datetimes comes back unchanged |
| Editions.ConvertIdempotent | data_manager.py:39-51 | converting twice is converting once |
| Editions.IsoFormatDate | data_manager.py:49 | for a valid date and time from year 1000 on, the ISO string starts with its date as the file names write it, then 'T' |
| Store.RemoveAll | data_manager.py:122 | replace(p, "") never lengthens the string |
| Store.RemoveAbsent | data_manager.py:122 | a stem without the pattern's first character is unchanged |
| Store.FileNameDate | data_manager.py:121-122 | a file named after a date without an 'e' is listed by the glob, and its date is read back unchanged |
| Store.SavedFileDate | data_manager.py:29-32 | for a valid date from year 1000 on, the file that date is saved to is listed under it, and the listed date parses back to the same day |
| Store.DatesIn | data_manager.py:121-123 | a listing gives at most one date per file name |
| Store.CollectDates | data_manager.py:121-128 | the loop over one listing appends its dates in order |
| Store.GetAvailableDates | data_manager.py:116-130 | the method returns the dates of both directories, sorted descending |
| Store.DatesInMembers | data_manager.py:121-123 | a date is listed exactly when some matching file carries it |
| Store.DatesInCount | data_manager.py:121-123 | every matching file gives exactly one date |
| Store.AvailableDatesSpec | data_manager.py:116-130 | the available dates are those of both directories, duplicates kept, one per matching file, in descending order |
| Store.AvailableDatesMembers | data_manager.py:116-130 | a date is available exactly when a file of either directory is listed under it |
| Store.AvailableDatesOrder | data_manager.py:130 | the result depends only on which dates are listed, not on the listing order or the directory |
| Store.CollectStories | data_manager.py:157-165 | the loop builds the top stories |
| Store.GetEditionSummary | data_manager.py:132-171 | the method returns the summary of the file found, or None |
| Store.TopStoriesSpec | data_manager.py:157-165 | the top stories are the first at most five articles in order, ranked from 1, each field the article's own or its default ('' / '' / 0 / 'global') |
| Store.SummaryCases | data_manager.py:136-171 | the current directory wins whenever its file exists, even an unreadable one; there is no summary when neither directory has the file, it cannot be read, or it lacks a required key |
| Store.LoadDaily | data_manager.py:78-94 | a loaded edition is not empty and is the content of the current directory's file named after the formatted date; a missing or unreadable file gives nothing |
| Store.LoadDailyFile | data_manager.py:78-94 | for a well-formed, zero-padded date string from year 1000 on, loading its date gives that file's edition exactly when the file exists, is readable and is not empty |
| Store.UnpaddedNameNotLoaded | data_manager.py:78-94 | the unpadded name "2024-1-5" parses, but loading it reads the "2024-01-05" file, so without that file nothing is loaded |
| Store.ConcatErr | data_manager.py:179-188 | the loop over dates raises exactly when some date raises, with that date's exception |
| Store.ConcatErrPrefix | data_manager.py:179-188 | once a prefix of the dates raises, the whole loop raises the same |
| Store.ConcatMembers | data_manager.py:179-209 | when the loop completes, an item is collected exactly when some date gives it |
| Store.ConcatNothing | data_manager.py:179-209 | when every date gives nothing, the loop collects nothing |
| Search.CollectHits | data_manager.py:191-209 | the inner loop appends the matching articles of one edition, in order |
| Search.SearchDate | data_manager.py:180-209 | one outer iteration adds what one date contributes |
| Search.SearchEditions | data_manager.py:173-211 | the method returns the search results |
| Search.HitsInMembers | data_manager.py:191-209 | a hit is an article of the edition that passes the category, score and query filters |
| Search.HitsInOrder | data_manager.py:191-209 | the hits keep the article order |
| Search.ParseDateError | data_manager.py:182-186 | strptime raises only ValueError |
| Search.SearchErrors | data_manager.py:173-211 | a search completes unless some date is not a date, and then raises ValueError |
| Search.EditionHitsMembers | data_manager.py:180-209 | a date contributes exactly the articles found under it |
| Search.SearchMembers | data_manager.py:173-211 | a completed search returns exactly the articles found under the available dates: in the inclusive range, in a loadable edition of the current directory, passing the filters |
| Search.EmptyQueryMatches | data_manager.py:198-205 | an empty query matches every article that passes the category and score filters |
| Search.QueryCase | data_manager.py:205 | the query matches case-insensitively |
| Search.ConcatDescending | data_manager.py:179-209 | results come in non-increasing date order given dates in that order |
| Search.SearchDescending | data_manager.py:173-211 | the results are in descending date order |
| Search.ArchiveNotSearched | data_manager.py:186-188 | with an empty current directory a completed search finds nothing |
| Statistics.BumpCounts | data_manager.py:243-247 | a bump adds one to its key's count and changes no other count |
| Statistics.BumpKeys | data_manager.py:243-247 | a bump keeps the keys distinct, updates an existing key in place and inserts a new key at the end |
| Statistics.TallySpec | data_manager.py:238-247 | the counter has distinct keys, each counting its occurrences, counts summing to the number of items, and keys exactly the items |
| Statistics.TallyOrder | data_manager.py:238-247 | the counter's keys are in order of first occurrence |
| Statistics.TopSpec | data_manager.py:249-250 | the top n has min(n, size) entries of the counter in non-increasing count, none left out counting more than one kept, ties in insertion order |
| Statistics.CountArticles | data_manager.py:238-247 | the inner loop counts one edition's articles into the totals and both counters |
| Statistics.CountedSnoc | data_manager.py:242-247 | counting one more article bumps its category and its source |
| Statistics.LoadEdition | data_manager.py:234-236 | one date gives the articles of its loadable non-empty edition, or none |
| Statistics.CountEditions | data_manager.py:233-247 | the outer loop counts all dates' articles, stopping at the first date that is not a date |
| Statistics.GetStatistics | data_manager.py:213-252 | the method returns the statistics |
| Statistics.NoEditions | data_manager.py:223-225 | without edition files the statistics are all zero and there is no date range |
| Statistics.StatisticsErrors | data_manager.py:233-234 | the statistics raise exactly when some date is not a date, and then ValueError |
| Statistics.EditionsAndRange | data_manager.py:227-228 | every listed file counts as an edition, and the range runs from the oldest date string to the newest |
| Statistics.Counting | data_manager.py:230-250 | with each article counted under its category (default 'global') and its source (default 'Unknown'): total_articles equals the sum of all category counts and of all source counts; at most 5 categories and 10 sources, each with its true count, in non-increasing count, and no category or source left out occurs more often than a kept one |
| Statistics.LeftOutCountsNoMore | data_manager.py:247-250 | a key left out of the top n of a counter occurs no more often than any key kept |
| Statistics.TrueCounts | data_manager.py:249-250 | every kept entry carries its key's number of occurrences |
| Statistics.ArchiveOnlyCountsNoArticles | data_manager.py:227-236 | with an empty current directory, every available date counts as an edition and no article is counted |

## Left out

- scrapers.py, website_generator.py and main.py: scraping, HTML generation and orchestration, all outside the core.
- HTTP requests, sleeps, HTML and JSON parsing, and logging in all three files. The scrapers of social_reactions.py are replaced by the reaction lists they return. File contents are given as loaded values.
- `save_daily_edition` and `archive_daily_edition`, and the file input and output of `load_daily_edition`. Opening, writing, renaming files and creating directories (mkdir) are not modelled: a directory is a listing plus a map from names to contents, and `Store.LoadDaily` reads a file's content from that map.
- `NewsProcessor._extract_keywords` (processor.py:67-75). It needs NLTK's tokenizer and stop words, and its only result is a dead store at processor.py:126. The unused TF-IDF vectoriser is left out too.
- md5 and `SequenceMatcher.ratio`. These are parameters, so no property depends on their values. Neither is assumed symmetric, nor assumed to give 1 on equal texts.
- Characters outside ASCII. `lower()`, `\w` and `\s` are modelled on ASCII only, and another character counts as neither a word character nor whitespace. Unicode digits in dates are not accepted.
- Floating point. Scores, weights and the 0.1 factors are exact reals, so IEEE rounding is not modelled.
- The clock. Each missing `published_at` reads the same `now`, whereas the source takes a fresh `datetime.now()` per comparison key.
- `hash(text)` in a tweet permalink (social_reactions.py:144). It is a parameter, because Python randomises it per process.
- `seen_viewpoints` in `get_top_reactions`. It is written but never read.
- JSON `null`, non-dict editions and other value types in a stored article. A key is present with a string (or number), or absent. Extra keys of the edition dict are one boolean, used only for the dict's truthiness.
- Dedup.DeduplicateArticles: does not model the in-place update of the caller's dicts. The merged `sources` list is visible only in the returned records, not through other references to the same dicts.
- Ranking.RankArticles: does not model the in-place writing of `scores`, `summary` and `tags` into the caller's dicts. It returns annotated records instead.
- Ranking.Tags: is a set rather than the list that `list(set(tags))` returns, because Python leaves that list's order unspecified.
- Editions.ParseDate: accepts the field forms of `%Y-%m-%d` that CPython's strptime accepts for ASCII digits, with years of four digits. Whitespace handling beyond a space-padded day is not modelled.
- Editions.FormatDate: writes years below 1000 unpadded, as `%Y` does where CPython hands it to glibc's `strftime`. Whether such years are zero-padded depends on the CPython version and the C library, so the model promises nothing about them beyond `Editions.ShortYear`.
- Search.SearchEditions: takes the date range as two `Date` values. Python would compare whatever the caller passes.
- Store.DateOf: removes every occurrence of "edition_" from the stem, as `replace` does, so a stem such as `edition_edition_x` gives `x`. The round trip `Store.FileNameDate` is proved only for date strings without an 'e'.
- Store.GetEditionSummary: builds the file name from its `date_str` argument as it is (data_manager.py:136, 140). A `date_str` containing path separators, which would name a file in another directory, is not modelled.
- Store.FinalScoreOf: reads a missing `scores` dict and a `scores` dict without 'final' alike, both as 0.
