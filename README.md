# A verified model of the devlog AI-likeness scorer

The repository scores how AI-written a project devlog looks. Its live path has three parts:

- **The extractor.** `TextMetricFactory::calculate` turns a text into a record of stylistic counts. These are sentences, hashtags, `Field:` labels, emoji, dashes, curly quotes, ellipses, `&amp;` leaks, irregular Markdown and phrase-category matches.
- **The feature table.** `features_from_metrics` weights the counts into an 11-column row.
- **The scorer.** `point_confidence` turns the distances from that row to the trained k-means centroids into normalised similarities `1 / (1 + d)`. `_predict` reads the AI cluster's share as `chance_ai` and the rest as `chance_human`.

Older variants have the same shape, and the model covers them too:

- the nineteen-ratio extractor of the root crate;
- its alternative 11-column feature table;
- the `inference-lib` predictor, which reports the AI cluster's share as `chance_human`.

## Layout

| file | module | models |
|---|---|---|
| text.dfy | `Text` | Rust string operations: `to_ascii_lowercase`, `split`, `split_whitespace`, `trim`, `trim_matches`, `lines`, `split_once`, byte length, and the non-overlapping match count of Aho-Corasick `find_iter` / `str::matches` |
| foreign.dfy | `Foreign` | library functions taken as given: Unicode properties, grapheme segmentation, the emoji table, two regexes, `sqrt` |
| markdown.dfy | `Markdown` | the `pulldown_cmark` event stream, without payloads |
| sonai_metrics.dfy | `SonaiMetrics` | `TextMetrics` and `TextMetricFactory::calculate` |
| sonai_features.dfy | `SonaiFeatures` | `features_from_metrics` of the `sonai-metrics` crate |
| confidence.dfy | `Confidence` | `point_confidence`, which is the same in both crates |
| sonai.dfy | `Sonai` | `Prediction` and `_predict` |
| legacy_metrics.dfy | `LegacyMetrics` | `TextMetrics::calculate` of src/metrics.rs |
| legacy_model.dfy | `LegacyModel` | src/model.rs: its metrics record and `features_from_metrics` |
| inference_lib.dfy | `InferenceLib` | `Prediction` and `predict` of `inference-lib` |

## How the model is stated

- **Loops become methods.** Every loop the source runs is a Dafny method with the same loop: the hashtag, label, grapheme, vocabulary and word-class passes, the feature array fill, and the distance, sum and in-place division loops. Each method is proved equal to a specification function on the inputs. The properties are then lemmas about those functions.
- **The matchers are one function.** The Aho-Corasick automata and `str::matches` are modelled by `Text.MatchCount`. It counts non-overlapping matches, left to right, each one the match that ends earliest, and resumes where that match ends.
- **Parsing and table lookups are inputs.** The Markdown events of the text and the library oracles (`Foreign.Libs`) are parameters. Every result holds for every choice of the events. It also holds for every choice of the oracles whose grapheme segmentation satisfies `Foreign.Libs.SegmentsText` (next item).
- **Graphemes partition the text.** The grapheme oracle is required to satisfy `Foreign.Libs.SegmentsText`: for every text, the clusters are non-empty and, joined in order, spell the text. Both extractors and everything built on them require it. This is what lets the model state text-level facts about emoji, dash and quote counts.
- **The extractor is a value.** A `TextMetricFactory` holds its five phrase lists. The results hold for every factory that `SonaiMetrics.Valid` accepts, and `SonaiMetrics.New` is the one the `METRICS` static builds.
- **The trained model is a parameter.** `point_confidence` and both predictors take the centroid rows, a distance function and the index of the AI cluster. In the source these come from `include_bytes!`. The distance function must never be negative (`Confidence.NonNegativeDistance`).
- **Numbers.** Counts are `nat`. Rates are exact `real`s.
- **No division by zero.** The verifier checks each division when it checks the functions `SonaiMetrics.Metrics`, `LegacyMetrics.Assemble`, `Confidence.Similarity` and `Confidence.Similarities`. So no input, the empty text included, can divide by zero. Each denominator is safe for one of three reasons:
  - the extractors' count denominators are written `AtLeastOne(n)`, as `max(n, 1)` is in the source;
  - `1 / (1 + d)` is taken only for `d >= 0`, which `Confidence.NonNegativeDistance` requires of every distance;
  - `raw[i] / sum` is taken only when `sum > 0`, as the source's `if sum > 0.0` guard says.

### Two rules the code does not follow

- **The ASCII hyphen rule.** A reading in which "a hyphen followed by a char that is not whitespace counts as a dash" would count one dash in `a-b`. The code peeks at the next char only *inside the same grapheme* (sonai-metrics/src/lib.rs:255-265). Under ordinary segmentation a hyphen is a grapheme of its own, so `a-b` adds no dash. The model follows the code: `SonaiMetrics.DashExamples` proves that `a-b` gives 0, `a—b` gives 1, and a hyphen carrying a combining mark gives 1.
- **Overlapping matches.** A rule that counted every occurrence of a phrase, overlapping ones included, would find two ellipses in `....`. The code's standard-semantics `find_iter` and `str::matches` count non-overlapping ones. The model follows the code, so `....` counts one ellipsis (`SonaiMetrics.EllipsisFourDots`).

## Model

| member | source | states |
|---|---|---|
| Text.ToAsciiLowercase | sonai-metrics/src/lib.rs:210 | same length; every char is mapped by `AsciiLower`, which changes exactly `A`–`Z` by +32; no ASCII capital is left |
| Text.ToAsciiLowercaseIdempotent | sonai-metrics/src/lib.rs:210 | lowercasing twice is lowercasing once |
| Text.Split | sonai-metrics/src/lib.rs:213-214 | one more piece than separators; no piece contains a separator; the last piece is empty exactly when the text is empty or ends with a separator |
| Text.SplitRejoin | sonai-metrics/src/lib.rs:213-214 | putting the separators back between the pieces gives the original text |
| Text.Sentences | sonai-metrics/src/lib.rs:213-216 | exactly the pieces of the split at `.`, `!` and `?` that are not blank: every such piece is kept, nothing else is, and each is kept as many times as it occurs in the split (so at most one per terminator plus one) |
| Text.Filter | sonai-metrics/src/lib.rs:213-220 | `filter` keeps exactly the elements that satisfy the predicate, each as many times as it occurs, and one per such element |
| Text.Words | sonai-metrics/src/lib.rs:220 | exactly the non-empty pieces between whitespace chars: every such piece is a word, every word is one, and each occurs as often as in the split; no word holds a whitespace char |
| Text.TrimWhere | src/metrics.rs:87 | the result is the text less a leading and a trailing run of matching chars; it is empty exactly when every char matches, and otherwise starts and ends with a char that does not match |
| Text.Trim | sonai-metrics/src/lib.rs:233 | the result is the text less a leading and a trailing run of whitespace; it is empty exactly when the text is blank, and otherwise neither end is whitespace |
| Text.Lines | sonai-metrics/src/lib.rs:231 | one line per `\n`, plus one for a last line that no `\n` ends; line k is the k-th piece between `\n`s, less one final `\r` when a `\n` ends it; no line holds a `\n` |
| Text.SplitOnce | sonai-metrics/src/lib.rs:232 | `None` exactly when there is no `:`; otherwise head + `:` + tail is the line and the head has no `:` |
| Text.ByteLen | sonai-metrics/src/lib.rs:224 | the UTF-8 length is at least the char count |
| Text.ByteLenAfterAscii | sonai-metrics/src/lib.rs:224 | a string starting with an ASCII char is over one byte long exactly when it has a second char |
| Text.CountWhere | src/metrics.rs:103-121 | a counter over words, graphemes, events or chars counts each element at most once |
| Text.CountWhereStep | src/metrics.rs:103-121 | one more element adds 1 exactly when it satisfies the predicate, as each `if ... { count += 1 }` does |
| Text.CountWhereZero | sonai-metrics/src/lib.rs:180-207 | a count is 0 exactly when no element satisfies the predicate |
| Text.CountWhereJoin | sonai-metrics/src/lib.rs:249-268 | the count over two sequences joined is the sum of their counts, as when a text is read grapheme by grapheme |
| Text.AtLeastOne | sonai-metrics/src/lib.rs:218 | the clamp is at least 1 and at least n, and equals n when n ≥ 1 |
| Text.PerCount | sonai-metrics/src/lib.rs:287-288 | a count over a denominator ≥ 1 is non-negative, and 0 exactly when the count is 0 |
| Text.CountCharAsciiLowercase | sonai-metrics/src/lib.rs:208-210 | lowercasing does not change the count of a char that is not an ASCII letter |
| Text.CountChar | sonai-metrics/src/lib.rs:208 | never more than the chars of the text, and 0 exactly when the char does not occur |
| Text.MatchCount | sonai-metrics/src/lib.rs:272 | never more matches than chars |
| Text.ScanZero | sonai-metrics/src/lib.rs:272 | a scan that has not matched yet finds nothing exactly when no phrase ends at a later position |
| Text.MatchCountZero | sonai-metrics/src/lib.rs:272 | the match count is 0 exactly when no non-empty phrase of the list occurs anywhere in the text |
| Text.PrefixPatternDominates | sonai-metrics/src/lib.rs:281-282 | a scan over a list holding a prefix `p` of `q` finds at least as many matches as a scan for `q` alone, from any matching state |
| Text.PrefixPatternCountDominates | sonai-metrics/src/lib.rs:281-282 | whole-text form: matches of the list ≥ matches of `q` |
| Foreign.NoGraphemesOfEmpty | sonai-metrics/src/lib.rs:249 | a segmentation that partitions every text gives the empty text no grapheme |
| SonaiMetrics.IrregularEventCount | sonai-metrics/src/lib.rs:180-207 | at most one per event, and 0 exactly when no event is of an irregular kind |
| SonaiMetrics.MarkdownCount | sonai-metrics/src/lib.rs:180-208 | at most one per event plus one per char, and 0 exactly when no event is of an irregular kind and the text has no `•` |
| SonaiMetrics.SentenceCount | sonai-metrics/src/lib.rs:213-218 | at least 1; equals the number of non-blank segments (which `Text.Sentences` keeps, all of them) when there is one, else 1 |
| SonaiMetrics.HashtagIffLongerThanHash | sonai-metrics/src/lib.rs:224 | a word is a hashtag exactly when it starts with `#` and has a second char, so a lone `#` is not one |
| SonaiMetrics.HashtagCount | sonai-metrics/src/lib.rs:220-227 | at most one hashtag per word |
| SonaiMetrics.CountHashtags | sonai-metrics/src/lib.rs:222-227 | the loop counts exactly the words satisfying `IsHashtag` |
| SonaiMetrics.LabelCount | sonai-metrics/src/lib.rs:229-243 | at most one label per line |
| SonaiMetrics.CountLabels | sonai-metrics/src/lib.rs:229-243 | the loop counts exactly the lines whose trimmed text before the first `:` is non-empty and all alphabetic or whitespace |
| SonaiMetrics.LabelsAtMostLines | sonai-metrics/src/lib.rs:229-243 | never more labels than `\n`s plus one |
| SonaiMetrics.ClassifyGraphemes | sonai-metrics/src/lib.rs:245-269 | the nested loops with the peekable iterator compute the emoji, dash and quote counts of the specification functions |
| SonaiMetrics.EmojiGraphemeOnlyEmoji | sonai-metrics/src/lib.rs:249-253 | an emoji grapheme adds 1 emoji and nothing to dashes or quotes |
| SonaiMetrics.PlainGraphemeAddsItsChars | sonai-metrics/src/lib.rs:255-268 | any other grapheme adds its own dashes and curly quotes and no emoji |
| SonaiMetrics.HyphenLooksInsideItsGrapheme | sonai-metrics/src/lib.rs:261-265 | a hyphen that ends its grapheme adds 0; inside one, it adds 1 exactly when the next char is not whitespace |
| SonaiMetrics.IrregularCharsCountOne | sonai-metrics/src/lib.rs:259-260 | each `– — ‒ ―` adds one dash; a curly quote adds no dash |
| SonaiMetrics.DashExamples | sonai-metrics/src/lib.rs:255-265 | `a-b` gives 0 dashes, `a—b` gives 1, and a hyphen with a combining mark gives 1 |
| SonaiMetrics.DashesUpToBound | sonai-metrics/src/lib.rs:255-265 | the dashes counted in a grapheme's first k chars are at most its dash chars (`– — ‒ ―` or `-`) among them |
| SonaiMetrics.DashCountBound | sonai-metrics/src/lib.rs:249-268 | the dash count over a grapheme sequence is at most the dash chars of the graphemes joined |
| SonaiMetrics.QuoteCountBound | sonai-metrics/src/lib.rs:249-268 | the curly-quote count over a grapheme sequence is at most the curly quotes of the graphemes joined |
| SonaiMetrics.New | sonai-metrics/src/lib.rs:62-168 | the factory built from the crate's phrase lists is valid: its one negative phrase, "modern english", starts with the buzzword "modern" |
| SonaiMetrics.BuzzwordsCoverNegatives | sonai-metrics/src/lib.rs:281-282 | for a valid factory, buzzword matches ≥ negative-phrase matches for every text, so the `usize` subtraction never wraps |
| SonaiMetrics.BuzzwordScore | sonai-metrics/src/lib.rs:281-282 | the score plus the negative matches is the buzzword matches |
| SonaiMetrics.EllipsisAsciiDots | sonai-metrics/src/lib.rs:272 | `wait...` has one ellipsis |
| SonaiMetrics.EllipsisGlyph | sonai-metrics/src/lib.rs:272 | `wait…` has one ellipsis |
| SonaiMetrics.EllipsisFourDots | sonai-metrics/src/lib.rs:272 | `....` has one ellipsis: matches do not overlap |
| SonaiMetrics.BuzzwordsForeignOrModern | sonai-metrics/src/lib.rs:64-140 | every one of the 75 buzzwords is "modern" or holds a char that does not occur in "modern english" |
| SonaiMetrics.NoPhraseEndsIn | sonai-metrics/src/lib.rs:281 | no such phrase ends a window drawn from the chars of "modern english", unless the window holds an `m` and is long enough for "modern" |
| SonaiMetrics.ModernEnglishMatches | sonai-metrics/src/lib.rs:281 | an automaton over such phrases, "modern" among them, finds exactly one match in "modern english" |
| SonaiMetrics.ModernEnglishNegatives | sonai-metrics/src/lib.rs:141 | the negative automaton finds exactly one match in "modern english" |
| SonaiMetrics.ModernEnglishSuppressed | sonai-metrics/src/lib.rs:281-282 | with the crate's lists, "modern english" has buzzword score 0: the negative match takes back the match of "modern" |
| SonaiMetrics.Metrics | sonai-metrics/src/lib.rs:178-302 | every field is non-negative; the emoji rate is 0 exactly when no grapheme of the lowercased text is an emoji; the Markdown count is 0 exactly when no event is irregular and no `•` occurs |
| SonaiMetrics.EmojiRateZero | sonai-metrics/src/lib.rs:287 | twice the emoji count over a sentence count ≥ 1 is non-negative, and 0 exactly when no grapheme is an emoji |
| SonaiMetrics.PhraseCountsZero | sonai-metrics/src/lib.rs:271-284 | the not-just, `&amp;`, devlog and ellipsis counts are each 0 exactly when no phrase of their list occurs in the lowercased text |
| SonaiMetrics.PhraseFieldZero | sonai-metrics/src/lib.rs:271-284 | a match count as an `f64` is 0 exactly when no phrase occurs |
| SonaiMetrics.Calculate | sonai-metrics/src/lib.rs:178-302 | for a segmentation that partitions the text, the extractor's passes produce the record `Metrics` specifies |
| SonaiMetrics.EmptyPieces | sonai-metrics/src/lib.rs:210-243 | `""` lowercases to itself, has one (clamped) sentence, no hashtags, no labels and no bullets |
| SonaiMetrics.EmptyText | sonai-metrics/src/lib.rs:213-288 | for `""`: no hashtags, labels, ellipses, buzzwords, phrases or `&amp;` |
| SonaiMetrics.EmptyTextMarkdown | sonai-metrics/src/lib.rs:180-210 | for `""` the Markdown count is the parser's irregular events alone |
| SonaiMetrics.EmptyTextGraphemes | sonai-metrics/src/lib.rs:245-287 | for `""`: no emoji, no dashes and no curly quotes, since the empty text has no grapheme |
| SonaiMetrics.GraphemeCountsBounded | sonai-metrics/src/lib.rs:245-269 | every text has at most as many counted dashes as dash chars (`– — ‒ ―` or `-`) and at most as many counted quotes as curly-quote chars |
| SonaiMetrics.AsciiCaseInsensitive | sonai-metrics/src/lib.rs:208-284 | texts equal after ASCII lowercasing get the same record, given the same Markdown events |
| SonaiFeatures.FeatureRow | sonai-metrics/src/lib.rs:311-323 | a row has 11 columns |
| SonaiFeatures.FeatureMatrix | sonai-metrics/src/lib.rs:305-326 | one 11-column row per record, in input order |
| SonaiFeatures.FeatureRowInjective | sonai-metrics/src/lib.rs:311-323 | distinct records give distinct rows: no weight loses information |
| SonaiFeatures.FeaturesFromMetrics | sonai-metrics/src/lib.rs:305-326 | the filled array is n × 11, and cell (i, j) is column j of record i's row |
| SonaiFeatures.FillRow | sonai-metrics/src/lib.rs:311-323 | the loop body writes record i's row into row i and leaves every other row as it was |
| Confidence.Distances | sonai-metrics/src/lib.rs:343-346 | one distance per centroid |
| Confidence.Similarity | sonai-metrics/src/lib.rs:348 | `1/(1+d)` is in (0, 1] for d ≥ 0, and is 1 exactly at d = 0 |
| Confidence.RawSimilarities | sonai-metrics/src/lib.rs:348 | one similarity per distance, each in (0, 1] |
| Confidence.Similarities | sonai-metrics/src/lib.rs:348-352 | one normalised similarity per distance |
| Confidence.PointConfidence | sonai-metrics/src/lib.rs:336-354 | distances are one per centroid, in row order; the similarities, after the in-place division, are `Similarities(distances)`; src/model.rs:32-50 is the same function |
| Confidence.ArraySum | sonai-metrics/src/lib.rs:349 | `sims.sum()` is `Sum` of the array's contents |
| Confidence.DivideAll | sonai-metrics/src/lib.rs:350-352 | `sims /= sum` leaves the array holding every old element divided by `sum` |
| Confidence.SimilarityDecreasing | sonai-metrics/src/lib.rs:348 | a smaller distance gives a larger raw similarity |
| Confidence.SimilaritiesSumToOne | sonai-metrics/src/lib.rs:349-352 | with at least one centroid the sum is positive and the normalised similarities sum to 1 |
| Confidence.NoCentroidsLeftUnnormalised | sonai-metrics/src/lib.rs:350-352 | a sum that is not positive happens only with no centroid, and then nothing is divided |
| Confidence.SimilaritiesInUnit | sonai-metrics/src/lib.rs:348-352 | each normalised similarity is in (0, 1] |
| Confidence.SimilaritiesKeepOrder | sonai-metrics/src/lib.rs:348-352 | a nearer centroid keeps the larger share after normalising |
| Confidence.EqualPairSplitsEvenly | sonai-metrics/src/lib.rs:348-352 | two equal distances give `[0.5, 0.5]` |
| Confidence.EquidistantPairSplitsEvenly | sonai-metrics/src/lib.rs:343-352 | an observation equidistant from two centroids scores `[0.5, 0.5]` |
| Sonai.ScoresOf | sonai/src/lib.rs:33-38 | one similarity per centroid for row 0 of a record's feature matrix, each in (0, 1] |
| Sonai.Classify | sonai/src/lib.rs:38-47 | the chances read off a record sum to 100; in range, `chance_ai` is 100 × the AI cluster's share; out of range, 0 and 100; both in [0, 100] |
| Sonai.EvenScoresOf | sonai/src/lib.rs:33-38 | a record's row equally far from two centroids scores `[0.5, 0.5]` |
| Sonai.EvenClassify | sonai/src/lib.rs:40-41 | scores `[0.5, 0.5]` give both chances 50 |
| Sonai.NearerScoresHigher | sonai/src/lib.rs:38 | the nearer of two centroids gets the larger score |
| Sonai.Scores | sonai/src/lib.rs:33-38 | one similarity per centroid for row 0 of the devlog's feature matrix, each in (0, 1] |
| Sonai.Predict | sonai/src/lib.rs:32-48 | metrics are the extractor's record; chances sum to 100; in range, `chance_ai` is 100 × the AI cluster's share; out of range, 0 and 100; both in [0, 100] |
| Sonai.EvenScores | sonai/src/lib.rs:33-38 | equal distances to two centroids give scores `[0.5, 0.5]` |
| Sonai.EvenPrediction | sonai/src/lib.rs:40-41 | scores `[0.5, 0.5]` give chances 50 and 50 |
| Sonai.EqualDistancesSplitEvenly | sonai/src/lib.rs:38-41 | equal distances to two centroids give both chances 50 |
| Sonai.NearerClusterWins | sonai/src/lib.rs:38-40 | an AI centroid nearer than another centroid gives `chance_ai` above 100 × that centroid's share |
| LegacyMetrics.MarkdownFold | src/metrics.rs:47-65 | Markdown plus plain counts equal the number of events, and Markdown is the number of Markdown-kind events |
| LegacyMetrics.KeyCount | src/metrics.rs:84-90 | at most one per word |
| LegacyMetrics.Freqs | src/metrics.rs:84-90 | at most one key per word |
| LegacyMetrics.Vocabulary | src/metrics.rs:84-92 | the map-updating loop gives `unique_words` and `hapaxes` of `Freqs(words)` |
| LegacyMetrics.FreqsCountKeys | src/metrics.rs:84-90 | a key is in `freqs` exactly when some word has it, and its count is the number of words that have it |
| LegacyMetrics.VocabularyBounds | src/metrics.rs:84-92 | `hapaxes <= unique_words <= words.len()` |
| LegacyMetrics.VowelRuns | src/metrics.rs:95-98 | never more vowel runs than chars |
| LegacyMetrics.Syllables | src/metrics.rs:98 | each word has at least one syllable |
| LegacyMetrics.SyllablesAtLeastWords | src/metrics.rs:96-99 | `total_syllables >= words.len()` |
| LegacyMetrics.QueueHasOneRun | src/metrics.rs:95-98 | a vowel run counts once however long it is: `queue` has one |
| LegacyMetrics.IdeaHasTwoRuns | src/metrics.rs:95-98 | `idea` has two runs |
| LegacyMetrics.NoVowelsOneSyllable | src/metrics.rs:98 | a word without vowels counts one syllable |
| LegacyMetrics.ClassifyWords | src/metrics.rs:101-121 | the counters are the numbers of words that are stopwords (lowercased cleaned form in the 20-entry table), ALL-CAPS (all uppercase and over one byte), digit words (an ASCII digit) and URL/e-mail matches |
| LegacyMetrics.SingleAsciiLetterNotAllCaps | src/metrics.rs:112 | a cleaned word of one ASCII letter is never ALL-CAPS |
| LegacyMetrics.ClassifyGraphemes | src/metrics.rs:139-161 | the nested loops give the emoji count and, over non-emoji graphemes, the `-`, irregular dash, straight quote, curly quote and punctuation counts |
| LegacyMetrics.ClassifyChars | src/metrics.rs:151-159 | the `match` over one grapheme's chars counts exactly its `-`s, irregular dashes, straight quotes, curly quotes and punctuation marks |
| LegacyMetrics.EmojiGraphemeOnlyEmoji | src/metrics.rs:146-150 | an emoji grapheme adds 1 emoji and nothing to any char class |
| LegacyMetrics.PlainGraphemeAddsItsChars | src/metrics.rs:151-160 | any other grapheme adds each of its chars to its class, every `-` as regular |
| LegacyMetrics.CountInTextBound | src/metrics.rs:146-160 | a char class counted over a grapheme sequence is at most that class's chars in the graphemes joined |
| LegacyMetrics.Ratio | src/metrics.rs:176-182 | `part / max(whole, 1)` is non-negative and 0 exactly when the part is 0 |
| LegacyMetrics.IrregularShareInUnit | src/metrics.rs:176-177 | `irr / max(reg + irr, 1)` is in [0, 1], and 1 when there are irregular marks and no regular ones |
| LegacyMetrics.SquaredDeviations | src/metrics.rs:129-136 | the sum of squared deviations is non-negative |
| LegacyMetrics.SentenceWordCounts | src/metrics.rs:73-76 | one word count per sentence |
| LegacyMetrics.EllipsisCount | src/metrics.rs:162-164 | at most two per char, and 0 exactly when the text has no `…` and no `...` |
| LegacyMetrics.EllipsisAsciiDots | src/metrics.rs:162-164 | `wait...` has one ellipsis |
| LegacyMetrics.EllipsisGlyph | src/metrics.rs:162-164 | `wait…` has one ellipsis |
| LegacyMetrics.CountsOf | src/metrics.rs:45-164 | sentence and word counts are at least 1; Markdown plus plain is the event count; `hapaxes <= unique_words <= word_count`; syllables ≥ words |
| LegacyMetrics.Assemble | src/metrics.rs:166-195 | both irregular-mark rates are in [0, 1] and 0 exactly without irregular marks; `markdown_use` and the ellipsis rate are 0 exactly when their counts are; the other rates are non-negative; the vocabulary and syllable bounds carry over to the rates |
| LegacyMetrics.Metrics | src/metrics.rs:45-196 | every rate but the Flesch scores and the deviation is non-negative; both irregular-mark rates are in [0, 1]; `markdown_use` is 0 exactly without Markdown events; hapax rate ≤ type-token ratio ≤ 1; at least one syllable per word when there is a word; the ellipsis rate is 0 exactly without `…` and `...` |
| LegacyMetrics.VocabularyRates | src/metrics.rs:184-185 | over the same word count, hapaxes ≤ distinct words ≤ words gives hapax rate ≤ type-token ratio ≤ 1 |
| LegacyMetrics.SyllableRate | src/metrics.rs:186 | as many syllables as words gives at least one syllable per word |
| LegacyMetrics.Calculate | src/metrics.rs:45-196 | for a segmentation that partitions the text, the extractor's passes produce the record `Metrics` specifies |
| LegacyMetrics.EmptyText | src/metrics.rs:68-188 | for `""`: average sentence length 1; word-based rates and ellipses 0; Flesch reading ease 205.82 and grade −15.2 |
| LegacyMetrics.EmptyTextGraphemes | src/metrics.rs:146-188 | for `""`: emoji rate, both irregular-mark rates and punctuation rate are 0, since the empty text has no grapheme |
| LegacyMetrics.GraphemeCountsBounded | src/metrics.rs:146-160 | every text has at most as many counted `-`s, irregular dashes, straight quotes, curly quotes and punctuation marks as it has chars of each class |
| LegacyModel.FeatureRow | src/model.rs:12-27 | a row has 11 columns |
| LegacyModel.FeatureMatrix | src/model.rs:6-30 | one 11-column row per record, in input order |
| LegacyModel.FeatureRowInjective | src/model.rs:12-27 | distinct records give distinct rows |
| LegacyModel.FeaturesFromMetrics | src/model.rs:6-30 | the filled array is n × 11, and cell (i, j) is column j of record i's row |
| LegacyModel.FillRow | src/model.rs:12-27 | the loop body writes record i's row into row i and leaves every other row as it was |
| InferenceLib.Scores | inference-lib/src/lib.rs:22-27 | one similarity per centroid for row 0 of the devlog's feature matrix |
| InferenceLib.Predict | inference-lib/src/lib.rs:21-37 | metrics are `calculate(devlog)`; `chance_ai = 100 − chance_human`; in range, `chance_human` is 100 × the AI cluster's share; out of range, human 0 and AI 100; both in [0, 100] |
| InferenceLib.EqualDistancesSplitEvenly | inference-lib/src/lib.rs:27-30 | equal distances to two centroids give both chances 50 |
| InferenceLib.NearerAiClusterRaisesHumanChance | inference-lib/src/lib.rs:27-29 | an AI centroid nearer than another centroid raises `chance_human`, the swapped role, above that centroid's share |

## Left out

- Network corpus fetchers (training-bin/src/summer_of_making.rs, src/summer_of_making.rs, src/devlogs.rs): HTTP, bounded concurrency and retry backoff are I/O.
- Training and CLI mains (training-bin/src/main.rs, src/main.rs), including the AI-label rule: file I/O, serialisation, k-means fitting and random sampling.
- src/runner.rs and src/lib.rs: model decoding and library `NormScaler` / `KMeans::predict` calls. src/lib.rs also reads a `rule_of_threes` field that src/metrics.rs does not have.
- The wasm and web front ends, and the wasm `predict` wrappers: foreign-function surfaces.
- The `BuildError` of `TextMetricFactory::new`: building an automaton from fixed non-empty lists cannot fail. `SonaiMetrics.New` holds the phrase lists themselves, in source order, and each automaton is modelled by `Text.MatchCount` over its list.
- Markdown parsing (`pulldown_cmark`): its events for the original text are an input.
- Grapheme segmentation, `emojis::get`, Unicode `is_alphabetic`, `is_numeric`, `is_uppercase` and `to_lowercase`, the URL/e-mail and passive-voice regexes, and `f64::sqrt`: these are fields of `Foreign.Libs`, taken as given functions. `is_whitespace` is modelled exactly (the White_Space list).
- Floating point: rates are exact reals with no rounding. The Flesch formulas and the sentence-length standard deviation are written out with their constants, and `sqrt` is an oracle.
- The distance function: `L2Dist` and the `DistanceFunction` that sonai/src/lib.rs imports are a parameter. It is required to be non-negative.
- Integer widths: every count is an unbounded `nat`, so the model has no overflow. In the source the counters initialised with an untyped `0` are `i32`:
  - `emoji_count`, `irr_dash` and `irr_quote` (sonai-metrics/src/lib.rs:245-247);
  - the six grapheme counters of src/metrics.rs:140-145 and the four word counters of src/metrics.rs:103-106.

  So `emoji_count * 2` (sonai-metrics/src/lib.rs:287) overflows once a text has 2^30 emoji graphemes. That panics in a debug build and gives a negative `emoji_rate` in a release build. The other counters are `usize`, which is 32 bits wide on the wasm32 targets.
- `linaccel_ultrahypr`: never called.
- `LazyLock` / `once_cell` statics: one-time initialisation and its concurrency. The decoded model and `AI_CLUSTER` are parameters.
- The `Display` impl of `TextMetrics`: formatting only.
- `calculate_iter`: a plain `map` of `calculate`.
- The extractor `inference-lib` calls: `TextMetrics::calculate` of the `model` crate, which is not part of this model, is the unconstrained parameter `calculate: string -> ModelMetrics` of `InferenceLib.Predict`. The model also assumes that crate's `features_from_metrics` is the table of src/model.rs, and uses `LegacyModel.FeatureMatrix` for it.
- Event payloads: the text inside `Text` events and the data of `Tag`s (heading levels, link targets). Only the event kinds matter to the counts.
- SonaiFeatures.FeatureRow: its only contract is the column count. The column order and weights are its body. What it means is stated by `FeatureRowInjective` and by `FeaturesFromMetrics`.
- LegacyModel.FeatureRow: the same as `SonaiFeatures.FeatureRow`, for the root crate's table.
