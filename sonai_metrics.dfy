/**
 * The stylistic feature extractor of the `sonai-metrics` crate:
 * `TextMetricFactory::calculate` turns a devlog into eleven numbers.
 * Everything after the Markdown pass is computed on the ASCII-lowercased text.
 */
module SonaiMetrics {
  import opened Text
  import opened Markdown
  import Foreign

  /** The record `calculate` returns; every field is an `f64` in the source. */
  datatype TextMetrics = TextMetrics(
    emojiRate: real,
    buzzwordRate: real,
    notJustCount: real,
    htmlEscapeCount: real,
    devlogCount: real,
    irregularEllipsis: real,
    irregularQuotations: real,
    irregularDashes: real,
    irregularMarkdown: real,
    labels: real,
    hashtags: real)

  // The phrase dictionaries of `TextMetricFactory::new`, in source order;
  // the buzzword list is written as eight slices of ten, joined below.

  const BuzzwordsA: seq<string> := [
    "the app", "-powered", "-like", "todo app", "interactive cards", "modern", "delivers",
    "delivers both", "across all devices", "style and usability"]

  const BuzzwordsB: seq<string> := [
    "real-time", "this isn\U{2019}t a prototype", "calm, reflective space", "simulate", "self-care",
    "meaningful", "user interaction", "digital wellness", "user-friendly interface", "responsive"]

  const BuzzwordsC: seq<string> := [
    "auto-typing", "engagement", "community", "it\U{2019}s been a journey", "it's been a journey",
    "a journey", "ambitious goal", "world of data", "programming toolkit", "summer of learning"]

  const BuzzwordsD: seq<string> := [
    "and a custom", "foundational principles", "began to wonder", "i'm announcing",
    "i\U{2019}m announcing", "it\U{2019}s all about", "it's all about", "leverage that knowledge",
    "fully featured", "next.js 13"]

  const BuzzwordsE: seq<string> := [
    "next.js 14", "svelte 4", "app router", "modern", "web dashboard", "the intention", "(formerly",
    "step-by-step", "excited", "tailwindcss"]

  const BuzzwordsF: seq<string> := [
    "build this", "inner workings", "live code editor", "new project", "kicking off", "lightweight",
    "in the browser", "morphisim", "comprehensive", "philosophy"]

  const BuzzwordsG: seq<string> := [
    "revolutionary", "wisdom", "leetcode", "global accessibility", "developers",
    "harmony of tradition and innovation", "intuitive", "powerful features", "cross-platform",
    "inspiration"]

  const BuzzwordsH: seq<string> := [
    "technical architecture", "this week was all about", "users can", "rewarding feel",
    "progress tracking"]

  const Buzzwords: seq<string> :=
    BuzzwordsA + BuzzwordsB + BuzzwordsC + BuzzwordsD + BuzzwordsE + BuzzwordsF + BuzzwordsG + BuzzwordsH

  /** Phrases whose buzzword match is taken back ("modern english" is not "modern"). */
  const NegativeBuzzwords: seq<string> := ["modern english"]

  const NotJustPhrases: seq<string> := [
    "more than just", "isn\U{2019}t a", "isn't a", "isn\U{2019}t just a", "isn't just a",
    "it\U{2019}s not just", "it's not just", "i'm not just", "i\U{2019}m not just",
    "isn\U{2019}t just", "isn't just", "didn't just", "didn\U{2019}t just"]

  const DevlogPhrases: seq<string> := [
    "dev log", "dev-log", "day", "devlog #", "dev log #", "dev-log #", "day #"]

  /** The two ellipsis patterns: the single glyph `…` and three ASCII dots. */
  const Ellipses: seq<string> := ["\U{2026}", "..."]

  const HtmlEscape: string := "&amp;"

  const Bullet: char := '\U{2022}'

  /**
   * The five automata of a `TextMetricFactory`, each given by its phrase
   * list. `New` builds the one the crate uses; the extractor is stated for
   * every factory that `Valid` accepts.
   */
  datatype TextMetricFactory = TextMetricFactory(
    buzzwords: seq<string>,
    negativeBuzzwords: seq<string>,
    notJust: seq<string>,
    devlog: seq<string>,
    irrEll: seq<string>)

  /** Some buzzword is a non-empty prefix of the phrase `q`. */
  predicate HasBuzzwordPrefix(buzzwords: seq<string>, q: string) {
    exists i :: 0 <= i < |buzzwords| && 0 < |buzzwords[i]| <= |q| && q[..|buzzwords[i]|] == buzzwords[i]
  }

  /** One negative phrase, which starts with a buzzword: what keeps the buzzword subtraction from wrapping. */
  predicate Valid(f: TextMetricFactory) {
    |f.negativeBuzzwords| == 1 && HasBuzzwordPrefix(f.buzzwords, f.negativeBuzzwords[0])
  }

  /** `TextMetricFactory::new`: the dictionaries above, in source order. */
  function New(): (f: TextMetricFactory)
    ensures Valid(f)
  {
    assert BuzzwordsA[5] == "modern" && Buzzwords[5] == BuzzwordsA[5];
    assert "modern english"[..6] == "modern";
    TextMetricFactory(
      buzzwords := Buzzwords,
      negativeBuzzwords := NegativeBuzzwords,
      notJust := NotJustPhrases,
      devlog := DevlogPhrases,
      irrEll := Ellipses)
  }

  // ---------------------------------------------------------------------
  // Markdown pass (on the original text)

  /** The parser events that count as "irregular" Markdown. */
  predicate IsIrregularEvent(e: Event) {
    match e
    case Code => true
    case InlineMath => true
    case DisplayMath => true
    case Html => true
    case FootnoteReference => true
    case TaskListMarker => true
    case Rule => true
    case InlineHtml => true
    case Start(t) =>
      t.BlockQuote? || t.CodeBlock? || t.FootnoteDefinition? || t.Emphasis? || t.Subscript?
      || t.Superscript? || t.Strong? || t.Strikethrough? || t.Heading? || t.Link? || t.Image?
    case _ => false
  }

  /** `Parser::new(text).filter(..).count()`. */
  function IrregularEventCount(events: seq<Event>): (n: nat)
    ensures n <= |events|
    ensures n == 0 <==> forall k :: 0 <= k < |events| ==> !IsIrregularEvent(events[k])
  {
    CountWhereZero(events, IsIrregularEvent);
    CountWhere(events, IsIrregularEvent)
  }

  /** The Markdown count: irregular events plus `•` occurrences in the original text. */
  function MarkdownCount(text: string, events: seq<Event>): (n: nat)
    ensures n <= |events| + |text|
    ensures n == 0 <==> (forall k :: 0 <= k < |events| ==> !IsIrregularEvent(events[k])) && Bullet !in text
  {
    IrregularEventCount(events) + CountChar(text, Bullet)
  }

  // ---------------------------------------------------------------------
  // Sentences

  /** Non-blank `.`/`!`/`?`-separated segments, clamped to at least one. */
  function SentenceCount(t: string): (n: nat)
    ensures n >= 1
    ensures |Sentences(t)| >= 1 ==> n == |Sentences(t)|
    ensures |Sentences(t)| == 0 ==> n == 1
  {
    AtLeastOne(|Sentences(t)|)
  }

  // ---------------------------------------------------------------------
  // Hashtags

  /** `word.starts_with('#') && word.len() > 1`, with `len` the byte length. */
  predicate IsHashtag(w: string) {
    |w| > 0 && w[0] == '#' && ByteLen(w) > 1
  }

  /** A hashtag is a token of at least two chars whose first is `#`: a lone `#` is not one. */
  lemma HashtagIffLongerThanHash(w: string)
    ensures IsHashtag(w) <==> |w| > 1 && w[0] == '#'
  {
    if |w| > 0 && w[0] == '#' {
      ByteLenAfterAscii(w);
    }
  }

  function HashtagCount(words: seq<string>): (n: nat)
    ensures n <= |words|
  {
    CountWhere(words, IsHashtag)
  }

  /** The `for word in words` loop of `calculate`. */
  method CountHashtags(words: seq<string>) returns (hashtags: nat)
    ensures hashtags == HashtagCount(words)
  {
    hashtags := 0;
    for i := 0 to |words|
      invariant hashtags == HashtagCount(words[..i])
    {
      CountWhereStep(words, i, IsHashtag);
      var word := words[i];
      if |word| > 0 && word[0] == '#' && ByteLen(word) > 1 {
        hashtags := hashtags + 1;
      }
    }
    assert words[..|words|] == words;
  }

  // ---------------------------------------------------------------------
  // Labels

  /**
   * A line is a label line when it has a `:` and the text before the first
   * `:`, trimmed, is non-empty and made only of alphabetic and whitespace chars.
   */
  predicate IsLabelLine(line: string, isAlphabetic: char -> bool) {
    match SplitOnce(line, ':')
    case None => false
    case Some(parts) => IsLabel(Trim(parts.0), isAlphabetic)
  }

  predicate IsLabel(head: string, isAlphabetic: char -> bool) {
    head != [] && forall i :: 0 <= i < |head| ==> isAlphabetic(head[i]) || IsWhitespace(head[i])
  }

  function LabelCount(lines: seq<string>, isAlphabetic: char -> bool): (n: nat)
    ensures n <= |lines|
  {
    if |lines| == 0 then 0
    else
      LabelCount(lines[..|lines| - 1], isAlphabetic)
      + (if IsLabelLine(lines[|lines| - 1], isAlphabetic) then 1 else 0)
  }

  /** The `for line in text.lines()` loop of `calculate`. */
  method CountLabels(lines: seq<string>, isAlphabetic: char -> bool) returns (labels: nat)
    ensures labels == LabelCount(lines, isAlphabetic)
  {
    labels := 0;
    for i := 0 to |lines|
      invariant labels == LabelCount(lines[..i], isAlphabetic)
    {
      assert lines[..i + 1][..i] == lines[..i];
      match SplitOnce(lines[i], ':')
      case None => {}
      case Some(parts) =>
        var head := Trim(parts.0);
        if IsLabel(head, isAlphabetic) {
          labels := labels + 1;
        }
    }
    assert lines[..|lines|] == lines;
  }

  /** At most one label per line, so never more labels than lines of the text. */
  lemma LabelsAtMostLines(t: string, isAlphabetic: char -> bool)
    ensures LabelCount(Lines(t), isAlphabetic) <= CountWhere(t, IsNewline) + 1
  {
  }

  // ---------------------------------------------------------------------
  // Graphemes: emoji, dashes, quotes

  /** `–`, `—`, `‒`, `―`. */
  predicate IsIrregularDash(c: char) {
    c == '\U{2013}' || c == '\U{2014}' || c == '\U{2012}' || c == '\U{2015}'
  }

  /** `“`, `”`, `‘`, `’`. */
  predicate IsCurlyQuote(c: char) {
    c == '\U{201C}' || c == '\U{201D}' || c == '\U{2018}' || c == '\U{2019}'
  }

  /**
   * What the char at `i` of a (non-emoji) grapheme adds to the dash count:
   * 1 for an irregular dash, 1 for `-` when the NEXT CHAR OF THE SAME GRAPHEME
   * exists and is not whitespace, otherwise 0.
   */
  function DashAt(g: string, i: nat): nat
    requires i < |g|
  {
    if IsIrregularDash(g[i]) then 1
    else if g[i] == '-' && i + 1 < |g| && !IsWhitespace(g[i + 1]) then 1
    else 0
  }

  function DashesUpTo(g: string, k: nat): nat
    requires k <= |g|
  {
    if k == 0 then 0 else DashesUpTo(g, k - 1) + DashAt(g, k - 1)
  }

  function GraphemeDashes(g: string): nat { DashesUpTo(g, |g|) }

  function GraphemeQuotes(g: string): nat { CountWhere(g, IsCurlyQuote) }

  function DashCount(gs: seq<string>, isEmoji: string -> bool): nat {
    if |gs| == 0 then 0
    else
      var g := gs[|gs| - 1];
      DashCount(gs[..|gs| - 1], isEmoji) + (if isEmoji(g) then 0 else GraphemeDashes(g))
  }

  function QuoteCount(gs: seq<string>, isEmoji: string -> bool): nat {
    if |gs| == 0 then 0
    else
      var g := gs[|gs| - 1];
      QuoteCount(gs[..|gs| - 1], isEmoji) + (if isEmoji(g) then 0 else GraphemeQuotes(g))
  }

  /**
   * The `for grapheme in text.graphemes(true)` loop with its inner
   * `while let Some(c) = iter.next()` over a peekable char iterator.
   */
  method ClassifyGraphemes(gs: seq<string>, isEmoji: string -> bool)
    returns (emojiCount: nat, irrDash: nat, irrQuote: nat)
    ensures emojiCount == CountWhere(gs, isEmoji)
    ensures irrDash == DashCount(gs, isEmoji)
    ensures irrQuote == QuoteCount(gs, isEmoji)
  {
    emojiCount, irrDash, irrQuote := 0, 0, 0;
    for k := 0 to |gs|
      invariant emojiCount == CountWhere(gs[..k], isEmoji)
      invariant irrDash == DashCount(gs[..k], isEmoji)
      invariant irrQuote == QuoteCount(gs[..k], isEmoji)
    {
      assert gs[..k + 1][..k] == gs[..k];
      var grapheme := gs[k];
      if isEmoji(grapheme) {
        emojiCount := emojiCount + 1;
        continue;
      }
      ghost var dash0, quote0 := irrDash, irrQuote;
      var i := 0;
      while i < |grapheme|
        invariant 0 <= i <= |grapheme|
        invariant irrDash == dash0 + DashesUpTo(grapheme, i)
        invariant irrQuote == quote0 + CountWhere(grapheme[..i], IsCurlyQuote)
      {
        assert grapheme[..i + 1][..i] == grapheme[..i];
        var c := grapheme[i];
        i := i + 1;
        if IsIrregularDash(c) {
          irrDash := irrDash + 1;
        } else if IsCurlyQuote(c) {
          irrQuote := irrQuote + 1;
        } else if c == '-' {
          if i < |grapheme| && !IsWhitespace(grapheme[i]) {
            irrDash := irrDash + 1;
          }
        }
      }
      assert grapheme[..|grapheme|] == grapheme;
    }
    assert gs[..|gs|] == gs;
  }

  /** An emoji grapheme adds one emoji and nothing to the dash or quote counts, whatever its chars. */
  lemma EmojiGraphemeOnlyEmoji(gs: seq<string>, g: string, isEmoji: string -> bool)
    requires isEmoji(g)
    ensures CountWhere(gs + [g], isEmoji) == CountWhere(gs, isEmoji) + 1
    ensures DashCount(gs + [g], isEmoji) == DashCount(gs, isEmoji)
    ensures QuoteCount(gs + [g], isEmoji) == QuoteCount(gs, isEmoji)
  {
    assert (gs + [g])[..|gs|] == gs;
  }

  /** A non-emoji grapheme adds its own dashes and curly quotes. */
  lemma PlainGraphemeAddsItsChars(gs: seq<string>, g: string, isEmoji: string -> bool)
    requires !isEmoji(g)
    ensures CountWhere(gs + [g], isEmoji) == CountWhere(gs, isEmoji)
    ensures DashCount(gs + [g], isEmoji) == DashCount(gs, isEmoji) + GraphemeDashes(g)
    ensures QuoteCount(gs + [g], isEmoji) == QuoteCount(gs, isEmoji) + GraphemeQuotes(g)
  {
    assert (gs + [g])[..|gs|] == gs;
  }

  /** The chars a dash can be counted at: an irregular dash, or `-`. */
  predicate IsDashChar(c: char) { IsIrregularDash(c) || c == '-' }

  /** Within a grapheme, only dash chars add to the dash count, and each adds at most 1. */
  lemma {:induction false} DashesUpToBound(g: string, k: nat)
    requires k <= |g|
    ensures DashesUpTo(g, k) <= CountWhere(g[..k], IsDashChar)
  {
    if k > 0 {
      DashesUpToBound(g, k - 1);
      CountWhereStep(g, k - 1, IsDashChar);
    }
  }

  /** The dash count of a segmentation is at most the number of dash chars of the joined text. */
  lemma {:induction false} DashCountBound(gs: seq<string>, isEmoji: string -> bool)
    ensures DashCount(gs, isEmoji) <= CountWhere(Concat(gs), IsDashChar)
  {
    if |gs| > 0 {
      var g := gs[|gs| - 1];
      DashCountBound(gs[..|gs| - 1], isEmoji);
      CountWhereJoin(Concat(gs[..|gs| - 1]), g, IsDashChar);
      DashesUpToBound(g, |g|);
      assert g[..|g|] == g;
    }
  }

  /** The curly-quote count of a segmentation is at most the number of curly quotes of the joined text. */
  lemma {:induction false} QuoteCountBound(gs: seq<string>, isEmoji: string -> bool)
    ensures QuoteCount(gs, isEmoji) <= CountWhere(Concat(gs), IsCurlyQuote)
  {
    if |gs| > 0 {
      var g := gs[|gs| - 1];
      QuoteCountBound(gs[..|gs| - 1], isEmoji);
      CountWhereJoin(Concat(gs[..|gs| - 1]), g, IsCurlyQuote);
    }
  }

  /** A hyphen that ends its grapheme adds nothing; inside one, it adds 1 before a non-whitespace char. */
  lemma HyphenLooksInsideItsGrapheme(g: string, i: nat)
    requires i < |g| && g[i] == '-'
    ensures i == |g| - 1 ==> DashAt(g, i) == 0
    ensures i < |g| - 1 ==> (DashAt(g, i) == 1 <==> !IsWhitespace(g[i + 1]))
  {
  }

  /** Each irregular dash counts 1 and each curly quote counts 1, wherever it stands in its grapheme. */
  lemma IrregularCharsCountOne(g: string, i: nat)
    requires i < |g|
    ensures IsIrregularDash(g[i]) ==> DashAt(g, i) == 1
    ensures IsCurlyQuote(g[i]) ==> DashAt(g, i) == 0
  {
  }

  /** With the usual segmentation in which `-` is a grapheme of its own, `a-b` has no dash and `a—b` has one. */
  lemma DashExamples(isEmoji: string -> bool)
    requires !isEmoji("a") && !isEmoji("b") && !isEmoji("-") && !isEmoji("\U{2014}") && !isEmoji("-\U{0301}")
    ensures DashCount(["a", "-", "b"], isEmoji) == 0
    ensures DashCount(["a", "\U{2014}", "b"], isEmoji) == 1
    ensures DashCount(["-\U{0301}"], isEmoji) == 1
  {
    assert ["a", "-", "b"][..2] == ["a", "-"];
    assert ["a", "-"][..1] == ["a"];
    assert ["a", "\U{2014}", "b"][..2] == ["a", "\U{2014}"];
    assert ["a", "\U{2014}"][..1] == ["a"];
    var g := "-\U{0301}";
    assert [g][..0] == [];
    assert DashAt(g, 0) == 1 && DashAt(g, 1) == 0;
    assert GraphemeDashes(g) == DashesUpTo(g, 1) + DashAt(g, 1);
  }

  // ---------------------------------------------------------------------
  // Phrase counts

  /**
   * The negative phrase starts with a buzzword ("modern english" with
   * "modern"), so there are never fewer buzzword matches than negative ones.
   */
  lemma BuzzwordsCoverNegatives(f: TextMetricFactory, t: string)
    requires Valid(f)
    ensures MatchCount(t, f.buzzwords) >= MatchCount(t, f.negativeBuzzwords)
  {
    var q := f.negativeBuzzwords[0];
    var i :| 0 <= i < |f.buzzwords| && 0 < |f.buzzwords[i]| <= |q| && q[..|f.buzzwords[i]|] == f.buzzwords[i];
    assert f.negativeBuzzwords == [q];
    PrefixPatternCountDominates(t, f.buzzwords, f.buzzwords[i], q);
  }

  /**
   * Buzzword matches minus negative-buzzword matches; in the source a
   * `usize` subtraction, which `BuzzwordsCoverNegatives` shows cannot wrap.
   */
  function BuzzwordScore(f: TextMetricFactory, t: string): (n: nat)
    requires Valid(f)
    ensures n + MatchCount(t, f.negativeBuzzwords) == MatchCount(t, f.buzzwords)
  {
    BuzzwordsCoverNegatives(f, t);
    MatchCount(t, f.buzzwords) - MatchCount(t, f.negativeBuzzwords)
  }

  /** A text whose last char is not `…`, and whose third char from the end is not `.`, ends in no ellipsis. */
  lemma NoEllipsisAtEnd(t: string)
    requires 0 < |t| && t[|t| - 1] != '\U{2026}'
    requires |t| >= 3 ==> t[|t| - 3] != '.'
    ensures !EndsWithAny(t, Ellipses)
  {
    NoGlyphAtEnd(t);
    NoDotsAtEnd(t);
    EndsWithNeither(t, "\U{2026}", "...");
  }

  lemma NoGlyphAtEnd(t: string)
    requires 0 < |t| && t[|t| - 1] != '\U{2026}'
    ensures !EndsWith(t, "\U{2026}")
  {
    NotEndsWithAt(t, "\U{2026}", 0);
  }

  lemma NoDotsAtEnd(t: string)
    requires |t| >= 3 ==> t[|t| - 3] != '.'
    ensures !EndsWith(t, "...")
  {
    NotEndsWithAt(t, "...", 0);
  }

  /** `wait...` counts one ellipsis. */
  lemma EllipsisAsciiDots()
    ensures MatchCount("wait...", Ellipses) == 1
  {
    var s := "wait...";
    NoEllipsisAtEnd(s[0..1]);
    NoEllipsisAtEnd(s[0..2]);
    NoEllipsisAtEnd(s[0..3]);
    NoEllipsisAtEnd(s[0..4]);
    NoEllipsisAtEnd(s[0..5]);
    NoEllipsisAtEnd(s[0..6]);
    assert s[0..7][4..] == "...";
    EndsWithAnyMember(s[0..7], Ellipses, "...");
    assert Scan(s, Ellipses, 0, 6) == 1;
    assert Scan(s, Ellipses, 0, 3) == Scan(s, Ellipses, 0, 4) == Scan(s, Ellipses, 0, 5) == 1;
    assert Scan(s, Ellipses, 0, 0) == Scan(s, Ellipses, 0, 1) == Scan(s, Ellipses, 0, 2) == 1;
  }

  /** `wait…` counts one ellipsis. */
  lemma EllipsisGlyph()
    ensures MatchCount("wait\U{2026}", Ellipses) == 1
  {
    var s := "wait\U{2026}";
    forall b | 0 < b <= 4 ensures !EndsWithAny(s[0..b], Ellipses) {
      NoEllipsisAtEnd(s[0..b]);
    }
    ScanSkips(s, Ellipses, 0, 0, 4);
    assert EndsWith(s[0..5], "\U{2026}");
    EndsWithAnyMember(s[0..5], Ellipses, "\U{2026}");
    assert Scan(s, Ellipses, 0, 4) == 1 + Scan(s, Ellipses, 5, 5);
  }

  /** `....` counts one ellipsis: matches do not overlap, and the fourth dot alone matches nothing. */
  lemma EllipsisFourDots()
    ensures MatchCount("....", Ellipses) == 1
  {
    var s := "....";
    NoEllipsisAtEnd(s[0..1]);
    NoEllipsisAtEnd(s[0..2]);
    NoEllipsisAtEnd(s[3..4]);
    assert EndsWith(s[0..3], "...");
    EndsWithAnyMember(s[0..3], Ellipses, "...");
    assert Scan(s, Ellipses, 3, 3) == Scan(s, Ellipses, 3, 4) == 0;
    assert Scan(s, Ellipses, 0, 2) == 1;
    assert Scan(s, Ellipses, 0, 0) == Scan(s, Ellipses, 0, 1) == Scan(s, Ellipses, 0, 2);
  }

  // ---------------------------------------------------------------------
  // The whole record

  /** The emoji rate is 0 exactly when no grapheme is an emoji. */
  lemma EmojiRateZero(gs: seq<string>, isEmoji: string -> bool, sc: real)
    requires sc >= 1.0
    ensures (CountWhere(gs, isEmoji) * 2) as real / sc >= 0.0
    ensures (CountWhere(gs, isEmoji) * 2) as real / sc == 0.0 <==> forall k :: 0 <= k < |gs| ==> !isEmoji(gs[k])
  {
    CountWhereZero(gs, isEmoji);
    PerCount(CountWhere(gs, isEmoji) * 2, sc);
  }

  /** What `calculate` returns for `text`, given the parser's events for it and the library functions. */
  function Metrics(f: TextMetricFactory, text: string, events: seq<Event>, libs: Foreign.Libs): (m: TextMetrics)
    requires Valid(f) && libs.SegmentsText()
    ensures m.emojiRate >= 0.0 && m.buzzwordRate >= 0.0 && m.notJustCount >= 0.0
    ensures m.htmlEscapeCount >= 0.0 && m.devlogCount >= 0.0 && m.irregularEllipsis >= 0.0
    ensures m.irregularQuotations >= 0.0 && m.irregularDashes >= 0.0 && m.irregularMarkdown >= 0.0
    ensures m.labels >= 0.0 && m.hashtags >= 0.0
    ensures m.emojiRate == 0.0 <==>
              forall k :: 0 <= k < |libs.graphemes(ToAsciiLowercase(text))| ==>
                !libs.isEmoji(libs.graphemes(ToAsciiLowercase(text))[k])
    ensures m.irregularMarkdown == 0.0 <==>
              (forall k :: 0 <= k < |events| ==> !IsIrregularEvent(events[k])) && Bullet !in text
  {
    var t := ToAsciiLowercase(text);
    var sc := SentenceCount(t) as real;
    var gs := libs.graphemes(t);
    EmojiRateZero(gs, libs.isEmoji, sc);
    PerCount(BuzzwordScore(f, t) * 2, sc);
    TextMetrics(
      emojiRate := (CountWhere(gs, libs.isEmoji) * 2) as real / sc,
      buzzwordRate := (BuzzwordScore(f, t) * 2) as real / sc,
      notJustCount := MatchCount(t, f.notJust) as real,
      htmlEscapeCount := MatchCount(t, [HtmlEscape]) as real,
      devlogCount := MatchCount(t, f.devlog) as real,
      irregularEllipsis := MatchCount(t, f.irrEll) as real,
      irregularQuotations := QuoteCount(gs, libs.isEmoji) as real,
      irregularDashes := DashCount(gs, libs.isEmoji) as real,
      irregularMarkdown := MarkdownCount(text, events) as real,
      labels := LabelCount(Lines(t), libs.isAlphabetic) as real,
      hashtags := HashtagCount(Words(t)) as real)
  }

  /** `TextMetricFactory::calculate`. */
  method Calculate(f: TextMetricFactory, text: string, events: seq<Event>, libs: Foreign.Libs)
    returns (m: TextMetrics)
    requires Valid(f) && libs.SegmentsText()
    ensures m == Metrics(f, text, events, libs)
  {
    var markdown := IrregularEventCount(events) + CountChar(text, Bullet);
    var t := ToAsciiLowercase(text);
    var sentenceCount := AtLeastOne(|Sentences(t)|);
    var hashtags := CountHashtags(Words(t));
    var labels := CountLabels(Lines(t), libs.isAlphabetic);
    var emojiCount, irrDash, irrQuote := ClassifyGraphemes(libs.graphemes(t), libs.isEmoji);
    var irrEll := MatchCount(t, f.irrEll);
    var sc := sentenceCount as real;
    var htmlEscapes := MatchCount(t, [HtmlEscape]);
    var devLog := MatchCount(t, f.devlog);
    var buzzwords := BuzzwordScore(f, t);
    var notJust := MatchCount(t, f.notJust);
    m := TextMetrics(
      emojiRate := (emojiCount * 2) as real / sc,
      buzzwordRate := (buzzwords * 2) as real / sc,
      notJustCount := notJust as real,
      htmlEscapeCount := htmlEscapes as real,
      devlogCount := devLog as real,
      irregularEllipsis := irrEll as real,
      irregularQuotations := irrQuote as real,
      irregularDashes := irrDash as real,
      irregularMarkdown := markdown as real,
      labels := labels as real,
      hashtags := hashtags as real);
  }

  /** The pieces of the empty text: no sentences, words or lines. */
  lemma EmptyPieces(isAlphabetic: char -> bool)
    ensures ToAsciiLowercase("") == ""
    ensures SentenceCount("") == 1
    ensures HashtagCount(Words("")) == 0
    ensures LabelCount(Lines(""), isAlphabetic) == 0
    ensures CountChar("", Bullet) == 0
  {
    assert Split("", IsSentenceEnd) == [""];
    assert Sentences("") == [];
    assert Split("", IsWhitespace) == [""];
    assert Words("") == [];
    assert Lines("") == [];
  }

  /** The empty text has one (clamped) sentence and no hashtags, labels, ellipses or phrases. */
  lemma EmptyText(f: TextMetricFactory, events: seq<Event>, libs: Foreign.Libs)
    requires Valid(f) && libs.SegmentsText()
    ensures var m := Metrics(f, "", events, libs);
            m.hashtags == 0.0 && m.labels == 0.0 && m.irregularEllipsis == 0.0
            && m.buzzwordRate == 0.0 && m.notJustCount == 0.0 && m.devlogCount == 0.0
            && m.htmlEscapeCount == 0.0
  {
    EmptyPieces(libs.isAlphabetic);
    assert BuzzwordScore(f, "") == 0;
    assert SentenceCount("") as real == 1.0;
    var m := Metrics(f, "", events, libs);
    assert m.hashtags == HashtagCount(Words("")) as real;
    assert m.labels == LabelCount(Lines(""), libs.isAlphabetic) as real;
    assert m.irregularEllipsis == MatchCount("", f.irrEll) as real;
    assert m.buzzwordRate == 0.0 / 1.0;
    assert m.notJustCount == MatchCount("", f.notJust) as real;
    assert m.devlogCount == MatchCount("", f.devlog) as real;
    assert m.htmlEscapeCount == MatchCount("", [HtmlEscape]) as real;
  }

  /** For `""` the Markdown count is the parser's irregular events alone: there is no bullet. */
  lemma EmptyTextMarkdown(f: TextMetricFactory, events: seq<Event>, libs: Foreign.Libs)
    requires Valid(f) && libs.SegmentsText()
    ensures Metrics(f, "", events, libs).irregularMarkdown == IrregularEventCount(events) as real
  {
    assert CountChar("", Bullet) == 0;
  }

  /** The empty text has no grapheme clusters, so no emoji, dashes or curly quotes. */
  lemma EmptyTextGraphemes(f: TextMetricFactory, events: seq<Event>, libs: Foreign.Libs)
    requires Valid(f) && libs.SegmentsText()
    ensures var m := Metrics(f, "", events, libs);
            m.emojiRate == 0.0 && m.irregularDashes == 0.0 && m.irregularQuotations == 0.0
  {
    EmptyPieces(libs.isAlphabetic);
    Foreign.NoGraphemesOfEmpty(libs);
    assert SentenceCount("") as real == 1.0;
    var m := Metrics(f, "", events, libs);
    assert m.emojiRate == 0.0 / 1.0;
  }

  /**
   * Every dash counted is a dash char of the lowercased text (an irregular
   * dash or `-`), and every curly quote counted is one of its chars.
   */
  lemma GraphemeCountsBounded(f: TextMetricFactory, text: string, events: seq<Event>, libs: Foreign.Libs)
    requires Valid(f) && libs.SegmentsText()
    ensures var m := Metrics(f, text, events, libs);
            var t := ToAsciiLowercase(text);
            m.irregularDashes <= CountWhere(t, IsDashChar) as real
            && m.irregularQuotations <= CountWhere(t, IsCurlyQuote) as real
  {
    var t := ToAsciiLowercase(text);
    DashCountBound(libs.graphemes(t), libs.isEmoji);
    QuoteCountBound(libs.graphemes(t), libs.isEmoji);
  }

  /** Each phrase count of the record is 0 exactly when none of its phrases occurs in the lowercased text. */
  lemma PhraseCountsZero(f: TextMetricFactory, text: string, events: seq<Event>, libs: Foreign.Libs)
    requires Valid(f) && libs.SegmentsText()
    ensures var m, t := Metrics(f, text, events, libs), ToAsciiLowercase(text);
            (m.notJustCount == 0.0 <==> !OccursIn(t, f.notJust))
            && (m.htmlEscapeCount == 0.0 <==> !OccursIn(t, [HtmlEscape]))
            && (m.devlogCount == 0.0 <==> !OccursIn(t, f.devlog))
            && (m.irregularEllipsis == 0.0 <==> !OccursIn(t, f.irrEll))
  {
    var t := ToAsciiLowercase(text);
    PhraseFieldZero(t, f.notJust);
    PhraseFieldZero(t, [HtmlEscape]);
    PhraseFieldZero(t, f.devlog);
    PhraseFieldZero(t, f.irrEll);
  }

  /** A phrase count, as the record's `f64`, is 0 exactly when no phrase occurs. */
  lemma PhraseFieldZero(t: string, pats: seq<string>)
    ensures MatchCount(t, pats) as real == 0.0 <==> !OccursIn(t, pats)
  {
    MatchCountZero(t, pats);
  }

  /**
   * Texts that differ only in the case of ASCII letters get the same record,
   * given the same Markdown events: everything but the Markdown count is read
   * from the lowercased text, and `•` is not a letter.
   */
  lemma AsciiCaseInsensitive(f: TextMetricFactory, a: string, b: string, events: seq<Event>, libs: Foreign.Libs)
    requires Valid(f) && libs.SegmentsText() && ToAsciiLowercase(a) == ToAsciiLowercase(b)
    ensures Metrics(f, a, events, libs) == Metrics(f, b, events, libs)
  {
    CountCharAsciiLowercase(a, Bullet);
    CountCharAsciiLowercase(b, Bullet);
  }

  // "modern english": the negative phrase takes back its buzzword match

  /** The chars of "modern english". */
  predicate InModernEnglish(c: char) {
    c == 'm' || c == 'o' || c == 'd' || c == 'e' || c == 'r' || c == 'n'
    || c == ' ' || c == 'g' || c == 'l' || c == 'i' || c == 's' || c == 'h'
  }

  /** `p` holds one of t, a, p, k, v, ( and w, none of which occurs in "modern english". */
  predicate HasForeignChar(p: string) {
    't' in p || 'a' in p || 'p' in p || 'k' in p || 'v' in p || '(' in p || 'w' in p
  }

  /** Every phrase of `ps` is "modern" or has a char foreign to "modern english". */
  predicate ForeignOrModern(ps: seq<string>) {
    forall k :: 0 <= k < |ps| ==> ps[k] == "modern" || HasForeignChar(ps[k])
  }

  lemma ForeignOrModernJoin(a: seq<string>, b: seq<string>)
    requires ForeignOrModern(a) && ForeignOrModern(b)
    ensures ForeignOrModern(a + b)
  {
    forall k | 0 <= k < |a + b|
      ensures (a + b)[k] == "modern" || HasForeignChar((a + b)[k])
    {
      if k >= |a| { assert (a + b)[k] == b[k - |a|]; }
    }
  }

  lemma ForeignOrModernA() ensures ForeignOrModern(BuzzwordsA) { }
  lemma ForeignOrModernB() ensures ForeignOrModern(BuzzwordsB) { }
  lemma ForeignOrModernC() ensures ForeignOrModern(BuzzwordsC) { }
  lemma ForeignOrModernD() ensures ForeignOrModern(BuzzwordsD) { }
  lemma ForeignOrModernE() ensures ForeignOrModern(BuzzwordsE) { }
  lemma ForeignOrModernF() ensures ForeignOrModern(BuzzwordsF) { }
  lemma ForeignOrModernG() ensures ForeignOrModern(BuzzwordsG) { }
  lemma ForeignOrModernH() ensures ForeignOrModern(BuzzwordsH) { }

  /** Of the 75 buzzwords only the two copies of "modern" are made of the chars of "modern english". */
  lemma BuzzwordsForeignOrModern()
    ensures ForeignOrModern(Buzzwords)
  {
    ForeignOrModernA(); ForeignOrModernB(); ForeignOrModernC(); ForeignOrModernD();
    ForeignOrModernE(); ForeignOrModernF(); ForeignOrModernG(); ForeignOrModernH();
    ForeignOrModernJoin(BuzzwordsA, BuzzwordsB);
    ForeignOrModernJoin(BuzzwordsA + BuzzwordsB, BuzzwordsC);
    ForeignOrModernJoin(BuzzwordsA + BuzzwordsB + BuzzwordsC, BuzzwordsD);
    ForeignOrModernJoin(BuzzwordsA + BuzzwordsB + BuzzwordsC + BuzzwordsD, BuzzwordsE);
    ForeignOrModernJoin(BuzzwordsA + BuzzwordsB + BuzzwordsC + BuzzwordsD + BuzzwordsE, BuzzwordsF);
    ForeignOrModernJoin(BuzzwordsA + BuzzwordsB + BuzzwordsC + BuzzwordsD + BuzzwordsE + BuzzwordsF, BuzzwordsG);
    ForeignOrModernJoin(BuzzwordsA + BuzzwordsB + BuzzwordsC + BuzzwordsD + BuzzwordsE + BuzzwordsF + BuzzwordsG, BuzzwordsH);
  }

  /** A phrase with a char foreign to the window cannot end it. */
  lemma ForeignCharNoSuffix(t: string, p: string)
    requires AllWhere(t, InModernEnglish) && HasForeignChar(p)
    ensures !EndsWith(t, p)
  {
  }

  /** No phrase of `pats` ends a window drawn from "modern english", unless "modern" fits in it. */
  lemma {:induction false} NoPhraseEndsIn(t: string, pats: seq<string>)
    requires ForeignOrModern(pats) && AllWhere(t, InModernEnglish)
    requires |t| < 6 || forall i :: 0 <= i < |t| ==> t[i] != 'm'
    ensures !EndsWithAny(t, pats)
    decreases |pats|
  {
    if |pats| > 0 {
      if pats[0] == "modern" {
        if |t| >= 6 {
          NotEndsWithAt(t, "modern", 0);
        }
      } else {
        ForeignCharNoSuffix(t, pats[0]);
      }
      assert ForeignOrModern(pats[1..]) by {
        forall k | 0 <= k < |pats| - 1
          ensures pats[1..][k] == "modern" || HasForeignChar(pats[1..][k])
        {
          assert pats[1..][k] == pats[k + 1];
        }
      }
      NoPhraseEndsIn(t, pats[1..]);
    }
  }

  /** No phrase of `pats` ends a proper prefix of "modern" within "modern english". */
  lemma ModernPrefixWindows(pats: seq<string>)
    requires ForeignOrModern(pats)
    ensures var s := "modern english";
            forall b :: 0 < b <= 5 ==> !EndsWithAny(s[0..b], pats)
  {
    var s := "modern english";
    forall b | 0 < b <= 5
      ensures !EndsWithAny(s[0..b], pats)
    {
      assert s[0..b] == "moder"[..b];
      NoPhraseEndsIn("moder"[..b], pats);
    }
  }

  /** No phrase of `pats` ends a window of " english" once "modern" has matched. */
  lemma EnglishWindows(pats: seq<string>)
    requires ForeignOrModern(pats)
    ensures var s := "modern english";
            forall b :: 6 < b <= 14 ==> !EndsWithAny(s[6..b], pats)
  {
    var s := "modern english";
    forall b | 6 < b <= 14
      ensures !EndsWithAny(s[6..b], pats)
    {
      assert s[6..b] == " english"[..b - 6];
      NoPhraseEndsIn(" english"[..b - 6], pats);
    }
  }

  /** The scan of "modern english" first matches "modern", at its sixth char. */
  lemma ModernMatchesFirst(pats: seq<string>)
    requires ForeignOrModern(pats) && "modern" in pats
    ensures MatchCount("modern english", pats) == 1 + Scan("modern english", pats, 6, 6)
  {
    var s := "modern english";
    ModernPrefixWindows(pats);
    ScanSkips(s, pats, 0, 0, 5);
    assert s[0..6] == "modern";
    EndsWithAnyMember(s[0..6], pats, "modern");
  }

  /** After "modern", the scan finds nothing in " english". */
  lemma EnglishMatchesNothing(pats: seq<string>)
    requires ForeignOrModern(pats)
    ensures Scan("modern english", pats, 6, 6) == 0
  {
    EnglishWindows(pats);
    ScanSkips("modern english", pats, 6, 6, 14);
  }

  /**
   * The scan of "modern english" with phrases that are "modern" or foreign to
   * it, "modern" among them, matches "modern" and nothing after it.
   */
  lemma ModernEnglishMatches(pats: seq<string>)
    requires ForeignOrModern(pats) && "modern" in pats
    ensures MatchCount("modern english", pats) == 1
  {
    ModernMatchesFirst(pats);
    EnglishMatchesNothing(pats);
  }

  /** The negative scan of "modern english" matches once, at the end. */
  lemma ModernEnglishNegatives()
    ensures MatchCount("modern english", NegativeBuzzwords) == 1
  {
    var s := "modern english";
    forall b | 0 < b <= 13
      ensures !EndsWithAny(s[0..b], NegativeBuzzwords)
    {
      EndsWithOne(s[0..b], "modern english");
    }
    ScanSkips(s, NegativeBuzzwords, 0, 0, 13);
    assert s[0..14] == s;
    EndsWithOne(s, "modern english");
  }

  /** With the crate's dictionaries, "modern english" scores no buzzword: the negative phrase cancels "modern". */
  lemma ModernEnglishSuppressed()
    ensures BuzzwordScore(New(), "modern english") == 0
  {
    BuzzwordsForeignOrModern();
    assert BuzzwordsA[5] == "modern" && Buzzwords[5] == BuzzwordsA[5];
    ModernEnglishMatches(Buzzwords);
    ModernEnglishNegatives();
  }
}
