/**
 * The library calls the extractors make but whose behaviour is not modelled.
 * Each is taken as a given total function; the model is stated for every
 * choice of them.
 */
module Foreign {
  import opened Text

  datatype Libs = Libs(
    /** `char::is_alphabetic` (Unicode Alphabetic property). */
    isAlphabetic: char -> bool,
    /** `char::is_numeric`; `is_alphanumeric` is the two together. */
    isNumeric: char -> bool,
    /** `char::is_uppercase`. */
    isUppercase: char -> bool,
    /** `str::to_lowercase` (Unicode, context-dependent for final sigma). */
    toLowercase: string -> string,
    /** `UnicodeSegmentation::graphemes(text, true)`: the extended grapheme clusters, in order. */
    graphemes: string -> seq<string>,
    /** `emojis::get(grapheme).is_some()`. */
    isEmoji: string -> bool,
    /** `Regex::new(r"^(https?://\S+|\S+@\S+\.\S+)$").is_match(word)`. */
    isUrlOrEmail: string -> bool,
    /** `Regex::new(r"\b(was|were|is|are|be|been|being)\s+\w+ed\b").find_iter(text).count()`. */
    passiveMatches: string -> nat,
    /** `f64::sqrt`. */
    sqrt: real -> real)
  {
    predicate IsAlphanumeric(c: char) { isAlphabetic(c) || isNumeric(c) }

    /**
     * The segmentation is a partition of the text's chars: the clusters,
     * in order, spell the text, and none of them is empty.
     */
    ghost predicate SegmentsText() {
      forall t: string :: Concat(graphemes(t)) == t && forall k :: 0 <= k < |graphemes(t)| ==> graphemes(t)[k] != []
    }
  }

  /** The empty text has no grapheme clusters. */
  lemma NoGraphemesOfEmpty(libs: Libs)
    requires libs.SegmentsText()
    ensures libs.graphemes("") == []
  {
    ConcatNonEmptyLength(libs.graphemes(""));
  }
}
