/**
 * The older extractor `TextMetrics::calculate` of the root crate
 * (src/metrics.rs): nineteen readability, vocabulary, punctuation, dash and
 * quote ratios of a text. Unlike the newer extractor it works on the text as
 * given, without lowercasing it first.
 *
 * Rates are exact reals; `f64` rounding is not modelled.
 */
module LegacyMetrics {
  import opened Text
  import opened Markdown
  import Foreign
  import SonaiMetrics

  datatype TextMetrics = TextMetrics(
    emojiRate: real,
    irregularQuotationRate: real,
    irregularDashRate: real,
    avgSentenceLength: real,
    avgWordLength: real,
    punctuationRate: real,
    ellipsisRate: real,
    markdownUse: real,
    typeTokenRatio: real,
    hapaxLegomenaRate: real,
    avgSyllablesPerWord: real,
    fleschReadingEase: real,
    fleschKincaidGrade: real,
    stopwordRate: real,
    uppercaseWordRate: real,
    digitRate: real,
    urlEmailRate: real,
    passiveVoiceRate: real,
    sentenceLengthStddev: real)

  /** The twenty entries of `STOPWORDS`. */
  const Stopwords: seq<string> :=
    ["the", "and", "is", "in", "it", "to", "of", "a", "that", "i", "was", "he", "for", "you",
     "with", "on", "as", "have", "but", "be"]

  // ---------------------------------------------------------------------
  // Markdown fold

  /** The events that the fold counts as Markdown; every other event counts as plain. */
  predicate IsMarkdownEvent(e: Event) {
    e.Code? || e.InlineMath? || e.DisplayMath? || e.Html? || e.FootnoteReference?
    || e.SoftBreak? || e.TaskListMarker? || e.Rule? || e.HardBreak? || e.InlineHtml?
  }

  /** The `(markdown, not_md)` fold over the parser's events. */
  function MarkdownFold(events: seq<Event>): (counts: (nat, nat))
    ensures counts.0 + counts.1 == |events|
    ensures counts.0 == CountWhere(events, IsMarkdownEvent)
  {
    if |events| == 0 then (0, 0)
    else
      var (md, nonMd) := MarkdownFold(events[..|events| - 1]);
      if IsMarkdownEvent(events[|events| - 1]) then (md + 1, nonMd) else (md, nonMd + 1)
  }

  // ---------------------------------------------------------------------
  // Words and vocabulary

  /** `trim_matches(|c| !c.is_alphanumeric())`. */
  function Clean(w: string, libs: Foreign.Libs): string {
    TrimWhere(w, c => !libs.IsAlphanumeric(c))
  }

  /** The `freqs` key of a word: cleaned, then lowercased. */
  function Key(w: string, libs: Foreign.Libs): string {
    libs.toLowercase(Clean(w, libs))
  }

  /** `Key` as a function value, the key the vocabulary pass uses. */
  function KeyOf(libs: Foreign.Libs): string -> string {
    w => Key(w, libs)
  }

  /** How many of `words` have the key `k`. */
  function KeyCount(words: seq<string>, k: string, key: string -> string): (n: nat)
    ensures n <= |words|
  {
    if |words| == 0 then 0
    else KeyCount(words[..|words| - 1], k, key) + (if key(words[|words| - 1]) == k then 1 else 0)
  }

  /** The `freqs` map after counting the keys of `words` in order. */
  function Freqs(words: seq<string>, key: string -> string): (freqs: map<string, nat>)
    ensures |freqs.Keys| <= |words|
  {
    if |words| == 0 then map[]
    else
      var freqs := Freqs(words[..|words| - 1], key);
      var k := key(words[|words| - 1]);
      freqs[k := (if k in freqs then freqs[k] else 0) + 1]
  }

  function Hapaxes(freqs: map<string, nat>): set<string> {
    set k | k in freqs && freqs[k] == 1
  }

  /** The vocabulary loop: one `entry(..).or_insert(0) += 1` per word. */
  method Vocabulary(words: seq<string>, libs: Foreign.Libs) returns (uniqueWords: nat, hapaxes: nat)
    ensures uniqueWords == |Freqs(words, KeyOf(libs)).Keys|
    ensures hapaxes == |Hapaxes(Freqs(words, KeyOf(libs)))|
  {
    var freqs: map<string, nat> := map[];
    for i := 0 to |words|
      invariant freqs == Freqs(words[..i], KeyOf(libs))
    {
      var wLower := Key(words[i], libs);
      var count := if wLower in freqs then freqs[wLower] else 0;
      FreqsStep(words, i, KeyOf(libs));
      freqs := freqs[wLower := count + 1];
    }
    assert words[..|words|] == words;
    uniqueWords := |freqs.Keys|;
    hapaxes := |Hapaxes(freqs)|;
  }

  /** Counting one more word updates only that word's key. */
  lemma FreqsStep(words: seq<string>, i: nat, key: string -> string)
    requires i < |words|
    ensures var freqs := Freqs(words[..i], key);
            var k := key(words[i]);
            Freqs(words[..i + 1], key) == freqs[k := (if k in freqs then freqs[k] else 0) + 1]
  {
    assert words[..i + 1][..i] == words[..i];
  }

  /** Every key's count is the number of words with that key, and only keys of words occur. */
  lemma {:induction false} FreqsCountKeys(words: seq<string>, k: string, key: string -> string)
    ensures k in Freqs(words, key) <==> KeyCount(words, k, key) > 0
    ensures k in Freqs(words, key) ==> Freqs(words, key)[k] == KeyCount(words, k, key)
  {
    if |words| > 0 {
      FreqsCountKeys(words[..|words| - 1], k, key);
    }
  }

  /** `hapaxes <= unique_words <= words.len()`. */
  lemma VocabularyBounds(words: seq<string>, key: string -> string)
    ensures |Hapaxes(Freqs(words, key))| <= |Freqs(words, key).Keys| <= |words|
  {
    var freqs := Freqs(words, key);
    SubsetCardinality(Hapaxes(freqs), freqs.Keys);
  }

  lemma {:induction false} SubsetCardinality(a: set<string>, b: set<string>)
    requires a <= b
    ensures |a| <= |b|
  {
    if a != {} {
      var x :| x in a;
      SubsetCardinality(a - {x}, b - {x});
    }
  }

  // ---------------------------------------------------------------------
  // Syllables

  predicate IsVowel(c: char) {
    c == 'a' || c == 'e' || c == 'i' || c == 'o' || c == 'u' || c == 'y'
    || c == 'A' || c == 'E' || c == 'I' || c == 'O' || c == 'U' || c == 'Y'
  }

  /** The number of maximal vowel runs: the matches of `[aeiouyAEIOUY]+`. */
  function VowelRuns(w: string): (n: nat)
    ensures n <= |w|
  {
    if |w| == 0 then 0
    else
      var n := |w|;
      VowelRuns(w[..n - 1]) + (if IsVowel(w[n - 1]) && (n == 1 || !IsVowel(w[n - 2])) then 1 else 0)
  }

  function Syllables(w: string): (n: nat)
    ensures n >= 1
  {
    AtLeastOne(VowelRuns(w))
  }

  function TotalSyllables(words: seq<string>): nat {
    if |words| == 0 then 0
    else TotalSyllables(words[..|words| - 1]) + Syllables(words[|words| - 1])
  }

  /** Every word contributes at least one syllable. */
  lemma {:induction false} SyllablesAtLeastWords(words: seq<string>)
    ensures TotalSyllables(words) >= |words|
  {
    if |words| > 0 {
      SyllablesAtLeastWords(words[..|words| - 1]);
    }
  }

  /** A vowel run counts once however long it is: "queue" has one run. */
  lemma QueueHasOneRun()
    ensures VowelRuns("queue") == 1
  {
    assert "queue"[..4] == "queu" && "queu"[..3] == "que" && "que"[..2] == "qu" && "qu"[..1] == "q";
  }

  /** "idea" has two runs: "i" and "ea". */
  lemma IdeaHasTwoRuns()
    ensures VowelRuns("idea") == 2
  {
    assert "idea"[..3] == "ide" && "ide"[..2] == "id" && "id"[..1] == "i";
  }

  /** A word without vowels still counts one syllable. */
  lemma NoVowelsOneSyllable()
    ensures Syllables("psst") == 1
  {
    assert "psst"[..3] == "pss" && "pss"[..2] == "ps" && "ps"[..1] == "p";
    assert VowelRuns("psst") == 0;
  }

  // ---------------------------------------------------------------------
  // Word classes

  predicate IsStopword(w: string, libs: Foreign.Libs) {
    Key(w, libs) in Stopwords
  }

  predicate IsAllCapsWord(w: string, libs: Foreign.Libs) {
    var clean := Clean(w, libs);
    (forall i :: 0 <= i < |clean| ==> libs.isUppercase(clean[i])) && ByteLen(clean) > 1
  }

  predicate IsAsciiDigit(c: char) { '0' <= c <= '9' }

  predicate IsDigitWord(w: string, libs: Foreign.Libs) {
    var clean := Clean(w, libs);
    exists i :: 0 <= i < |clean| && IsAsciiDigit(clean[i])
  }

  /** The stopword, ALL-CAPS, digit and URL/e-mail counters, one pass over the words. */
  method ClassifyWords(words: seq<string>, libs: Foreign.Libs)
    returns (stopwordCount: nat, uppercaseCount: nat, digitCount: nat, urlEmailCount: nat)
    ensures stopwordCount == CountWhere(words, w => IsStopword(w, libs))
    ensures uppercaseCount == CountWhere(words, w => IsAllCapsWord(w, libs))
    ensures digitCount == CountWhere(words, w => IsDigitWord(w, libs))
    ensures urlEmailCount == CountWhere(words, libs.isUrlOrEmail)
  {
    stopwordCount, uppercaseCount, digitCount, urlEmailCount := 0, 0, 0, 0;
    for i := 0 to |words|
      invariant stopwordCount == CountWhere(words[..i], w => IsStopword(w, libs))
      invariant uppercaseCount == CountWhere(words[..i], w => IsAllCapsWord(w, libs))
      invariant digitCount == CountWhere(words[..i], w => IsDigitWord(w, libs))
      invariant urlEmailCount == CountWhere(words[..i], libs.isUrlOrEmail)
    {
      assert words[..i + 1][..i] == words[..i];
      var w := words[i];
      CountWhereStep(words, i, w => IsStopword(w, libs));
      CountWhereStep(words, i, w => IsAllCapsWord(w, libs));
      CountWhereStep(words, i, w => IsDigitWord(w, libs));
      CountWhereStep(words, i, libs.isUrlOrEmail);
      var wClean := Clean(w, libs);
      if libs.toLowercase(wClean) in Stopwords {
        stopwordCount := stopwordCount + 1;
      }
      if (forall k :: 0 <= k < |wClean| ==> libs.isUppercase(wClean[k])) && ByteLen(wClean) > 1 {
        uppercaseCount := uppercaseCount + 1;
      }
      if exists k :: 0 <= k < |wClean| && IsAsciiDigit(wClean[k]) {
        digitCount := digitCount + 1;
      }
      if libs.isUrlOrEmail(w) {
        urlEmailCount := urlEmailCount + 1;
      }
    }
    assert words[..|words|] == words;
  }

  /** A one-letter ASCII word such as "I" or "A," is never ALL-CAPS: its byte length is 1. */
  lemma SingleAsciiLetterNotAllCaps(w: string, libs: Foreign.Libs)
    requires |Clean(w, libs)| == 1 && Clean(w, libs)[0] as int < 0x80
    ensures !IsAllCapsWord(w, libs)
  {
    ByteLenAfterAscii(Clean(w, libs));
  }

  // ---------------------------------------------------------------------
  // Graphemes

  predicate IsHyphen(c: char) { c == '-' }

  predicate IsStraightQuote(c: char) { c == '"' || c == '\'' }

  predicate IsPunctuation(c: char) {
    c == '.' || c == '!' || c == '?' || c == ',' || c == ':' || c == ';'
  }

  /** The chars satisfying `p` in the graphemes that are not emoji. */
  function CountInText(gs: seq<string>, isEmoji: string -> bool, p: char -> bool): nat {
    if |gs| == 0 then 0
    else
      var g := gs[|gs| - 1];
      CountInText(gs[..|gs| - 1], isEmoji, p) + (if isEmoji(g) then 0 else CountWhere(g, p))
  }

  /** The per-grapheme loop; the inner `for c in grapheme.chars()` match is `ClassifyChars`. */
  method ClassifyGraphemes(gs: seq<string>, isEmoji: string -> bool)
    returns (emojiCount: nat, regDash: nat, irrDash: nat, regQuote: nat, irrQuote: nat, punctCount: nat)
    ensures emojiCount == CountWhere(gs, isEmoji)
    ensures regDash == CountInText(gs, isEmoji, IsHyphen)
    ensures irrDash == CountInText(gs, isEmoji, SonaiMetrics.IsIrregularDash)
    ensures regQuote == CountInText(gs, isEmoji, IsStraightQuote)
    ensures irrQuote == CountInText(gs, isEmoji, SonaiMetrics.IsCurlyQuote)
    ensures punctCount == CountInText(gs, isEmoji, IsPunctuation)
  {
    emojiCount, regDash, irrDash, regQuote, irrQuote, punctCount := 0, 0, 0, 0, 0, 0;
    for k := 0 to |gs|
      invariant emojiCount == CountWhere(gs[..k], isEmoji)
      invariant regDash == CountInText(gs[..k], isEmoji, IsHyphen)
      invariant irrDash == CountInText(gs[..k], isEmoji, SonaiMetrics.IsIrregularDash)
      invariant regQuote == CountInText(gs[..k], isEmoji, IsStraightQuote)
      invariant irrQuote == CountInText(gs[..k], isEmoji, SonaiMetrics.IsCurlyQuote)
      invariant punctCount == CountInText(gs[..k], isEmoji, IsPunctuation)
    {
      assert gs[..k + 1][..k] == gs[..k];
      var grapheme := gs[k];
      if isEmoji(grapheme) {
        emojiCount := emojiCount + 1;
        continue;
      }
      var rd, id, rq, iq, pc := ClassifyChars(grapheme);
      regDash, irrDash, regQuote, irrQuote := regDash + rd, irrDash + id, regQuote + rq, irrQuote + iq;
      punctCount := punctCount + pc;
    }
    assert gs[..|gs|] == gs;
  }

  /** The chars of one grapheme, each into the first class it belongs to. */
  method ClassifyChars(grapheme: string)
    returns (regDash: nat, irrDash: nat, regQuote: nat, irrQuote: nat, punctCount: nat)
    ensures regDash == CountWhere(grapheme, IsHyphen)
    ensures irrDash == CountWhere(grapheme, SonaiMetrics.IsIrregularDash)
    ensures regQuote == CountWhere(grapheme, IsStraightQuote)
    ensures irrQuote == CountWhere(grapheme, SonaiMetrics.IsCurlyQuote)
    ensures punctCount == CountWhere(grapheme, IsPunctuation)
  {
    regDash, irrDash, regQuote, irrQuote, punctCount := 0, 0, 0, 0, 0;
    for i := 0 to |grapheme|
      invariant regDash == CountWhere(grapheme[..i], IsHyphen)
      invariant irrDash == CountWhere(grapheme[..i], SonaiMetrics.IsIrregularDash)
      invariant regQuote == CountWhere(grapheme[..i], IsStraightQuote)
      invariant irrQuote == CountWhere(grapheme[..i], SonaiMetrics.IsCurlyQuote)
      invariant punctCount == CountWhere(grapheme[..i], IsPunctuation)
    {
      assert grapheme[..i + 1][..i] == grapheme[..i];
      var c := grapheme[i];
      if c == '-' {
        regDash := regDash + 1;
      } else if SonaiMetrics.IsIrregularDash(c) {
        irrDash := irrDash + 1;
      } else if c == '"' || c == '\'' {
        regQuote := regQuote + 1;
      } else if SonaiMetrics.IsCurlyQuote(c) {
        irrQuote := irrQuote + 1;
      } else if IsPunctuation(c) {
        punctCount := punctCount + 1;
      }
    }
    assert grapheme[..|grapheme|] == grapheme;
  }

  /** An emoji grapheme adds to the emoji count and to no char class. */
  lemma EmojiGraphemeOnlyEmoji(gs: seq<string>, g: string, isEmoji: string -> bool, p: char -> bool)
    requires isEmoji(g)
    ensures CountWhere(gs + [g], isEmoji) == CountWhere(gs, isEmoji) + 1
    ensures CountInText(gs + [g], isEmoji, p) == CountInText(gs, isEmoji, p)
  {
    assert (gs + [g])[..|gs|] == gs;
  }

  /** Any other grapheme adds each of its chars to the class it belongs to. */
  lemma PlainGraphemeAddsItsChars(gs: seq<string>, g: string, isEmoji: string -> bool, p: char -> bool)
    requires !isEmoji(g)
    ensures CountWhere(gs + [g], isEmoji) == CountWhere(gs, isEmoji)
    ensures CountInText(gs + [g], isEmoji, p) == CountInText(gs, isEmoji, p) + CountWhere(g, p)
  {
    assert (gs + [g])[..|gs|] == gs;
  }

  // ---------------------------------------------------------------------
  // Ratios

  /** `part / max(whole, 1)`: never a division by zero. */
  function Ratio(part: nat, whole: nat): (r: real)
    ensures r >= 0.0
    ensures r == 0.0 <==> part == 0
  {
    part as real / AtLeastOne(whole) as real
  }

  lemma QuotientAtMostOne(x: real, d: real)
    requires 0.0 <= x <= d && d > 0.0
    ensures x / d <= 1.0
  {
    assert x / d * d == x;
  }

  /** `irr / max(reg + irr, 1)` lies in [0, 1], is 0 without irregular marks and 1 without regular ones. */
  lemma {:induction false} IrregularShareInUnit(irr: nat, reg: nat)
    ensures 0.0 <= Ratio(irr, reg + irr) <= 1.0
    ensures irr > 0 && reg == 0 ==> Ratio(irr, reg + irr) == 1.0
  {
    var d := AtLeastOne(reg + irr) as real;
    QuotientAtMostOne(irr as real, d);
    if irr > 0 && reg == 0 {
      assert d == irr as real;
    }
  }

  function SumNat(counts: seq<nat>): nat {
    if |counts| == 0 then 0 else SumNat(counts[..|counts| - 1]) + counts[|counts| - 1]
  }

  /** The sum of squared deviations from `mean`. */
  function SquaredDeviations(counts: seq<nat>, mean: real): (s: real)
    ensures s >= 0.0
  {
    if |counts| == 0 then 0.0
    else
      var diff := counts[|counts| - 1] as real - mean;
      SquaredDeviations(counts[..|counts| - 1], mean) + diff * diff
  }

  function SentenceWordCounts(sentences: seq<string>): (counts: seq<nat>)
    ensures |counts| == |sentences|
  {
    seq(|sentences|, i requires 0 <= i < |sentences| => |Words(sentences[i])|)
  }

  function TotalChars(words: seq<string>): nat {
    if |words| == 0 then 0 else TotalChars(words[..|words| - 1]) + |words[|words| - 1]|
  }

  /** `text.matches('…').count() + text.matches("...").count()`. */
  function EllipsisCount(text: string): (n: nat)
    ensures n <= 2 * |text|
    ensures n == 0 <==> '\U{2026}' !in text && !OccursIn(text, ["..."])
  {
    MatchCountZero(text, ["..."]);
    CountChar(text, '\U{2026}') + MatchCount(text, ["..."])
  }

  /** `wait...` counts one ellipsis: no glyph, one run of three dots. */
  lemma EllipsisAsciiDots()
    ensures EllipsisCount("wait...") == 1
  {
    var s := "wait...";
    var pats := ["..."];
    forall b | 0 < b <= 6 ensures !EndsWithAny(s[0..b], pats) {
      NotEndsWithAt(s[0..b], pats[0], 0);
      EndsWithAnyIff(s[0..b], pats);
    }
    ScanSkips(s, pats, 0, 0, 6);
    assert EndsWith(s[0..7], "...");
    EndsWithAnyMember(s[0..7], pats, "...");
    assert '\U{2026}' !in s;
  }

  /** `wait…` counts one ellipsis: the glyph, and no three dots. */
  lemma EllipsisGlyph()
    ensures EllipsisCount("wait\U{2026}") == 1
  {
    var s := "wait\U{2026}";
    var pats := ["..."];
    forall b | 0 < b <= 5 ensures !EndsWithAny(s[0..b], pats) {
      NotEndsWithAt(s[0..b], pats[0], 0);
      EndsWithAnyIff(s[0..b], pats);
    }
    ScanSkips(s, pats, 0, 0, 5);
    assert s[..4] == "wait" && CountChar("wait", '\U{2026}') == 0;
  }

  // ---------------------------------------------------------------------
  // The whole record

  /** The integer results of the counting passes, before the ratios are taken. */
  datatype Counts = Counts(
    markdown: nat, notMd: nat,
    sentenceCount: nat, sentenceWordCounts: seq<nat>,
    wordCount: nat, totalWordChars: nat,
    uniqueWords: nat, hapaxes: nat, totalSyllables: nat,
    stopwordCount: nat, uppercaseCount: nat, digitCount: nat, urlEmailCount: nat,
    passiveMatches: nat,
    emojiCount: nat, regDash: nat, irrDash: nat, regQuote: nat, irrQuote: nat, punctCount: nat,
    ellCount: nat)

  /** What the counting passes of `calculate` produce for `text`. */
  function CountsOf(text: string, events: seq<Event>, libs: Foreign.Libs): (c: Counts)
    requires libs.SegmentsText()
    ensures c.sentenceCount >= 1 && c.wordCount >= 1
    ensures c.markdown + c.notMd == |events|
    ensures c.hapaxes <= c.uniqueWords <= c.wordCount
    ensures c.totalSyllables >= |Words(text)|
  {
    var (markdown, notMd) := MarkdownFold(events);
    var sentences := Sentences(text);
    var words := Words(text);
    var freqs := Freqs(words, KeyOf(libs));
    var gs := libs.graphemes(text);
    VocabularyBounds(words, KeyOf(libs));
    SyllablesAtLeastWords(words);
    Counts(
      markdown := markdown, notMd := notMd,
      sentenceCount := AtLeastOne(|sentences|),
      sentenceWordCounts := SentenceWordCounts(sentences),
      wordCount := AtLeastOne(|words|),
      totalWordChars := TotalChars(words),
      uniqueWords := |freqs.Keys|,
      hapaxes := |Hapaxes(freqs)|,
      totalSyllables := TotalSyllables(words),
      stopwordCount := CountWhere(words, w => IsStopword(w, libs)),
      uppercaseCount := CountWhere(words, w => IsAllCapsWord(w, libs)),
      digitCount := CountWhere(words, w => IsDigitWord(w, libs)),
      urlEmailCount := CountWhere(words, libs.isUrlOrEmail),
      passiveMatches := libs.passiveMatches(text),
      emojiCount := CountWhere(gs, libs.isEmoji),
      regDash := CountInText(gs, libs.isEmoji, IsHyphen),
      irrDash := CountInText(gs, libs.isEmoji, SonaiMetrics.IsIrregularDash),
      regQuote := CountInText(gs, libs.isEmoji, IsStraightQuote),
      irrQuote := CountInText(gs, libs.isEmoji, SonaiMetrics.IsCurlyQuote),
      punctCount := CountInText(gs, libs.isEmoji, IsPunctuation),
      ellCount := EllipsisCount(text))
  }

  /** Every rate of the record, the Flesch scores and the deviation aside, is non-negative. */
  predicate RatesNonNegative(m: TextMetrics) {
    m.emojiRate >= 0.0 && m.irregularQuotationRate >= 0.0 && m.irregularDashRate >= 0.0
    && m.avgSentenceLength >= 0.0 && m.avgWordLength >= 0.0 && m.punctuationRate >= 0.0
    && m.ellipsisRate >= 0.0 && m.markdownUse >= 0.0 && m.typeTokenRatio >= 0.0
    && m.hapaxLegomenaRate >= 0.0 && m.avgSyllablesPerWord >= 0.0 && m.stopwordRate >= 0.0
    && m.uppercaseWordRate >= 0.0 && m.digitRate >= 0.0 && m.urlEmailRate >= 0.0
    && m.passiveVoiceRate >= 0.0
  }

  /** Hapaxes are a share of the distinct words, and those a share of all words. */
  lemma VocabularyRates(hapaxes: nat, unique: nat, words: nat)
    requires words >= 1
    ensures hapaxes <= unique <= words ==>
              hapaxes as real / words as real <= unique as real / words as real <= 1.0
  {
    var d := words as real;
    assert hapaxes as real / d * d == hapaxes as real;
    assert unique as real / d * d == unique as real;
  }

  /** At least one syllable per word on average when no word goes without one. */
  lemma SyllableRate(syllables: nat, words: nat)
    requires words >= 1
    ensures syllables >= words ==> syllables as real / words as real >= 1.0
  {
    assert syllables as real / words as real * words as real == syllables as real;
  }

  /** The ratio assembly at the end of `calculate`; `sqrt` is `f64::sqrt`. */
  function Assemble(c: Counts, sqrt: real -> real): (m: TextMetrics)
    requires c.sentenceCount >= 1 && c.wordCount >= 1
    ensures 0.0 <= m.irregularDashRate <= 1.0 && 0.0 <= m.irregularQuotationRate <= 1.0
    ensures m.irregularDashRate == 0.0 <==> c.irrDash == 0
    ensures m.irregularQuotationRate == 0.0 <==> c.irrQuote == 0
    ensures m.markdownUse == 0.0 <==> c.markdown == 0
    ensures m.ellipsisRate == 0.0 <==> c.ellCount == 0
    ensures RatesNonNegative(m)
    ensures c.hapaxes <= c.uniqueWords <= c.wordCount ==> m.hapaxLegomenaRate <= m.typeTokenRatio <= 1.0
    ensures c.totalSyllables >= c.wordCount ==> m.avgSyllablesPerWord >= 1.0
  {
    var wc := c.wordCount as real;
    var sc := c.sentenceCount as real;
    var syl := c.totalSyllables as real;
    var meanSl := SumNat(c.sentenceWordCounts) as real / sc;
    var varSl := SquaredDeviations(c.sentenceWordCounts, meanSl) / sc;
    IrregularShareInUnit(c.irrDash, c.regDash);
    IrregularShareInUnit(c.irrQuote, c.regQuote);
    PerCount(c.emojiCount, sc);
    PerCount(c.wordCount, sc);
    PerCount(c.totalWordChars, wc);
    PerCount(c.punctCount, wc);
    PerCount(c.ellCount, sc);
    PerCount(c.uniqueWords, wc);
    PerCount(c.hapaxes, wc);
    PerCount(c.totalSyllables, wc);
    PerCount(c.stopwordCount, wc);
    PerCount(c.uppercaseCount, wc);
    PerCount(c.digitCount, wc);
    PerCount(c.urlEmailCount, wc);
    PerCount(c.passiveMatches, sc);
    VocabularyRates(c.hapaxes, c.uniqueWords, c.wordCount);
    SyllableRate(c.totalSyllables, c.wordCount);
    TextMetrics(
      emojiRate := c.emojiCount as real / sc,
      irregularQuotationRate := Ratio(c.irrQuote, c.regQuote + c.irrQuote),
      irregularDashRate := Ratio(c.irrDash, c.regDash + c.irrDash),
      avgSentenceLength := wc / sc,
      avgWordLength := c.totalWordChars as real / wc,
      punctuationRate := c.punctCount as real / wc,
      ellipsisRate := c.ellCount as real / sc,
      markdownUse := Ratio(c.markdown, c.notMd),
      typeTokenRatio := c.uniqueWords as real / wc,
      hapaxLegomenaRate := c.hapaxes as real / wc,
      avgSyllablesPerWord := syl / wc,
      fleschReadingEase := 206.835 - 1.015 * (wc / sc) - 84.6 * (syl / wc),
      fleschKincaidGrade := 0.39 * (wc / sc) + 11.8 * (syl / wc) - 15.59,
      stopwordRate := c.stopwordCount as real / wc,
      uppercaseWordRate := c.uppercaseCount as real / wc,
      digitRate := c.digitCount as real / wc,
      urlEmailRate := c.urlEmailCount as real / wc,
      passiveVoiceRate := c.passiveMatches as real / sc,
      sentenceLengthStddev := sqrt(varSl))
  }

  /** What `TextMetrics::calculate(text)` returns, given the parser's events and the libraries. */
  function Metrics(text: string, events: seq<Event>, libs: Foreign.Libs): (m: TextMetrics)
    requires libs.SegmentsText()
    ensures RatesNonNegative(m)
    ensures 0.0 <= m.irregularDashRate <= 1.0 && 0.0 <= m.irregularQuotationRate <= 1.0
    ensures m.markdownUse == 0.0 <==> forall k :: 0 <= k < |events| ==> !IsMarkdownEvent(events[k])
    ensures m.hapaxLegomenaRate <= m.typeTokenRatio <= 1.0
    ensures |Words(text)| > 0 ==> m.avgSyllablesPerWord >= 1.0
    ensures m.ellipsisRate == 0.0 <==> '\U{2026}' !in text && !OccursIn(text, ["..."])
  {
    CountWhereZero(events, IsMarkdownEvent);
    Assemble(CountsOf(text, events, libs), libs.sqrt)
  }

  /** `TextMetrics::calculate`: the counting passes of the source in its order, then the ratios. */
  method Calculate(text: string, events: seq<Event>, libs: Foreign.Libs) returns (m: TextMetrics)
    requires libs.SegmentsText()
    ensures m == Metrics(text, events, libs)
  {
    var (markdown, notMd) := MarkdownFold(events);
    var sentenceSplits := Sentences(text);
    var sentenceCount := AtLeastOne(|sentenceSplits|);
    var sentenceWordCounts := SentenceWordCounts(sentenceSplits);
    var words := Words(text);
    var wordCount := AtLeastOne(|words|);
    var totalWordChars := TotalChars(words);
    var uniqueWords, hapaxes := Vocabulary(words, libs);
    var totalSyllables := TotalSyllables(words);
    var stopwordCount, uppercaseCount, digitCount, urlEmailCount := ClassifyWords(words, libs);
    var passiveMatches := libs.passiveMatches(text);
    var emojiCount, regDash, irrDash, regQuote, irrQuote, punctCount :=
      ClassifyGraphemes(libs.graphemes(text), libs.isEmoji);
    var ellCount := EllipsisCount(text);
    var counts := Counts(
      markdown := markdown, notMd := notMd,
      sentenceCount := sentenceCount, sentenceWordCounts := sentenceWordCounts,
      wordCount := wordCount, totalWordChars := totalWordChars,
      uniqueWords := uniqueWords, hapaxes := hapaxes, totalSyllables := totalSyllables,
      stopwordCount := stopwordCount, uppercaseCount := uppercaseCount,
      digitCount := digitCount, urlEmailCount := urlEmailCount,
      passiveMatches := passiveMatches,
      emojiCount := emojiCount, regDash := regDash, irrDash := irrDash,
      regQuote := regQuote, irrQuote := irrQuote, punctCount := punctCount,
      ellCount := ellCount);
    assert counts == CountsOf(text, events, libs);
    m := Assemble(counts, libs.sqrt);
  }

  /**
   * The empty text: one sentence and one word by the clamps, so the average
   * sentence length is 1 and the Flesch scores are their constants.
   */
  lemma EmptyText(events: seq<Event>, libs: Foreign.Libs)
    requires libs.SegmentsText()
    ensures var m := Metrics("", events, libs);
            m.avgSentenceLength == 1.0 && m.avgWordLength == 0.0 && m.ellipsisRate == 0.0
            && m.typeTokenRatio == 0.0 && m.hapaxLegomenaRate == 0.0 && m.avgSyllablesPerWord == 0.0
            && m.fleschReadingEase == 205.82 && m.fleschKincaidGrade == -15.2
            && m.stopwordRate == 0.0 && m.uppercaseWordRate == 0.0 && m.digitRate == 0.0
            && m.urlEmailRate == 0.0
            && m.markdownUse == Ratio(MarkdownFold(events).0, MarkdownFold(events).1)
  {
    assert Split("", IsSentenceEnd) == [""];
    assert Sentences("") == [];
    assert Split("", IsWhitespace) == [""];
    assert Words("") == [];
    assert CountChar("", '\U{2026}') == 0;
    assert MatchCount("", ["..."]) == 0;
  }

  /** The empty text has no grapheme clusters, so no emoji, dashes, quotes or punctuation. */
  lemma EmptyTextGraphemes(events: seq<Event>, libs: Foreign.Libs)
    requires libs.SegmentsText()
    ensures var m := Metrics("", events, libs);
            m.emojiRate == 0.0 && m.irregularDashRate == 0.0 && m.irregularQuotationRate == 0.0
            && m.punctuationRate == 0.0
  {
    Foreign.NoGraphemesOfEmpty(libs);
    var c := CountsOf("", events, libs);
    assert c.emojiCount == 0 && c.irrDash == 0 && c.irrQuote == 0 && c.punctCount == 0;
  }

  /** Each char counted in the graphemes is a char of the text they spell. */
  lemma {:induction false} CountInTextBound(gs: seq<string>, isEmoji: string -> bool, p: char -> bool)
    ensures CountInText(gs, isEmoji, p) <= CountWhere(Concat(gs), p)
  {
    if |gs| > 0 {
      CountInTextBound(gs[..|gs| - 1], isEmoji, p);
      CountWhereJoin(Concat(gs[..|gs| - 1]), gs[|gs| - 1], p);
    }
  }

  /** The dash, quote and punctuation counts never exceed those chars' counts in the text. */
  lemma GraphemeCountsBounded(text: string, events: seq<Event>, libs: Foreign.Libs)
    requires libs.SegmentsText()
    ensures var c := CountsOf(text, events, libs);
            c.regDash <= CountWhere(text, IsHyphen)
            && c.irrDash <= CountWhere(text, SonaiMetrics.IsIrregularDash)
            && c.regQuote <= CountWhere(text, IsStraightQuote)
            && c.irrQuote <= CountWhere(text, SonaiMetrics.IsCurlyQuote)
            && c.punctCount <= CountWhere(text, IsPunctuation)
  {
    var gs := libs.graphemes(text);
    CountInTextBound(gs, libs.isEmoji, IsHyphen);
    CountInTextBound(gs, libs.isEmoji, SonaiMetrics.IsIrregularDash);
    CountInTextBound(gs, libs.isEmoji, IsStraightQuote);
    CountInTextBound(gs, libs.isEmoji, SonaiMetrics.IsCurlyQuote);
    CountInTextBound(gs, libs.isEmoji, IsPunctuation);
  }
}
