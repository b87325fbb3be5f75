/**
 * The pieces of Rust's `str` API that both feature extractors use, stated on
 * Dafny strings (sequences of Unicode scalar values): whitespace, ASCII
 * lowercasing, `split`, `split_whitespace`, `lines`, `trim`, `split_once`,
 * byte length, and the non-overlapping left-to-right match count behind
 * `str::matches` and Aho-Corasick's `find_iter`.
 */
module Text {

  datatype Option<T> = None | Some(value: T)

  /** `char::is_whitespace`: the Unicode White_Space property, which is a fixed list. */
  predicate IsWhitespace(c: char) {
    ('\t' <= c <= '\r') || c == ' ' || c == '\U{0085}' || c == '\U{00A0}' || c == '\U{1680}'
    || ('\U{2000}' <= c <= '\U{200A}') || c == '\U{2028}' || c == '\U{2029}'
    || c == '\U{202F}' || c == '\U{205F}' || c == '\U{3000}'
  }

  predicate IsAsciiUpper(c: char) { 'A' <= c <= 'Z' }

  /** `char::to_ascii_lowercase`. */
  function AsciiLower(c: char): (r: char)
    ensures IsAsciiUpper(c) ==> 'a' <= r <= 'z' && r as int == c as int + 32
    ensures !IsAsciiUpper(c) ==> r == c
  {
    if IsAsciiUpper(c) then (c as int + 32) as char else c
  }

  /** `str::to_ascii_lowercase`: only `A`-`Z` change, every other char is kept. */
  function ToAsciiLowercase(s: string): (r: string)
    ensures |r| == |s|
    ensures forall i :: 0 <= i < |s| ==> r[i] == AsciiLower(s[i])
    ensures forall i :: 0 <= i < |r| ==> !IsAsciiUpper(r[i])
  {
    seq(|s|, i requires 0 <= i < |s| => AsciiLower(s[i]))
  }

  lemma ToAsciiLowercaseIdempotent(s: string)
    ensures ToAsciiLowercase(ToAsciiLowercase(s)) == ToAsciiLowercase(s)
  {
  }

  /** Number of elements of `s` that satisfy `p`: chars of a text, words, graphemes or events. */
  function CountWhere<T>(s: seq<T>, p: T -> bool): (n: nat)
    ensures n <= |s|
  {
    if |s| == 0 then 0 else CountWhere(s[..|s| - 1], p) + (if p(s[|s| - 1]) then 1 else 0)
  }

  /** Counting one more element adds 1 exactly when it satisfies `p`. */
  lemma CountWhereStep<T>(s: seq<T>, i: nat, p: T -> bool)
    requires i < |s|
    ensures CountWhere(s[..i + 1], p) == CountWhere(s[..i], p) + (if p(s[i]) then 1 else 0)
  {
    assert s[..i + 1][..i] == s[..i];
  }

  /** Nothing is counted exactly when no element satisfies `p`. */
  lemma {:induction false} CountWhereZero<T>(s: seq<T>, p: T -> bool)
    ensures CountWhere(s, p) == 0 <==> forall k :: 0 <= k < |s| ==> !p(s[k])
  {
    if |s| > 0 {
      CountWhereZero(s[..|s| - 1], p);
      assert forall k :: 0 <= k < |s| - 1 ==> s[..|s| - 1][k] == s[k];
    }
  }

  /** The counts of two texts add up when they are joined. */
  lemma {:induction false} CountWhereJoin<T>(a: seq<T>, b: seq<T>, p: T -> bool)
    ensures CountWhere(a + b, p) == CountWhere(a, p) + CountWhere(b, p)
    decreases |b|
  {
    if |b| > 0 {
      var b' := b[..|b| - 1];
      assert (a + b)[..|a + b| - 1] == a + b';
      CountWhereJoin(a, b', p);
    } else {
      assert a + b == a;
    }
  }

  /** The pieces of `parts` one after the other. */
  function Concat(parts: seq<string>): string {
    if |parts| == 0 then [] else Concat(parts[..|parts| - 1]) + parts[|parts| - 1]
  }

  /** Joining non-empty pieces gives at least one char per piece. */
  lemma {:induction false} ConcatNonEmptyLength(parts: seq<string>)
    requires forall k :: 0 <= k < |parts| ==> parts[k] != []
    ensures |Concat(parts)| >= |parts|
  {
    if |parts| > 0 {
      ConcatNonEmptyLength(parts[..|parts| - 1]);
    }
  }

  /** The chars of `s` that satisfy `p`, in order. */
  function Select(s: string, p: char -> bool): (r: string)
    ensures |r| == CountWhere(s, p)
    ensures forall i :: 0 <= i < |r| ==> p(r[i])
  {
    if |s| == 0 then [] else Select(s[..|s| - 1], p) + (if p(s[|s| - 1]) then [s[|s| - 1]] else [])
  }

  /** `str::split` with a char predicate: the pieces between separators, empty ones included. */
  function Split(s: string, isSep: char -> bool): (parts: seq<string>)
    ensures |parts| == CountWhere(s, isSep) + 1
    ensures forall k, i :: 0 <= k < |parts| && 0 <= i < |parts[k]| ==> !isSep(parts[k][i])
    ensures parts[|parts| - 1] == [] <==> s == [] || isSep(s[|s| - 1])
  {
    if |s| == 0 then [[]]
    else
      var rest := Split(s[..|s| - 1], isSep);
      var c := s[|s| - 1];
      if isSep(c) then rest + [[]]
      else rest[..|rest| - 1] + [rest[|rest| - 1] + [c]]
  }

  /** Puts the separators back between the pieces. */
  function Rejoin(parts: seq<string>, seps: string): string
    requires |parts| == |seps| + 1
  {
    if |seps| == 0 then parts[0]
    else Rejoin(parts[..|parts| - 1], seps[..|seps| - 1]) + [seps[|seps| - 1]] + parts[|parts| - 1]
  }

  /** Splitting loses nothing: the pieces and the separators give back the text. */
  lemma {:induction false} SplitRejoin(s: string, isSep: char -> bool)
    ensures Rejoin(Split(s, isSep), Select(s, isSep)) == s
  {
    if |s| > 0 {
      var s', c := s[..|s| - 1], s[|s| - 1];
      assert s == s' + [c];
      SplitRejoin(s', isSep);
      var rest, seps' := Split(s', isSep), Select(s', isSep);
      if !isSep(c) {
        var parts := Split(s, isSep);
        assert Select(s, isSep) == seps';
        assert parts[..|parts| - 1] == rest[..|rest| - 1];
        if |seps'| > 0 {
          assert Rejoin(parts, seps') == Rejoin(rest, seps') + [c];
        }
      }
    }
  }

  /** `iter.filter(p)`: the elements of `s` that satisfy `p`, as many times as they occur there. */
  function Filter<T(==,!new)>(s: seq<T>, p: T -> bool): (r: seq<T>)
    ensures |r| == CountWhere(s, p)
    ensures forall k :: 0 <= k < |r| ==> p(r[k]) && r[k] in s
    ensures forall k :: 0 <= k < |s| && p(s[k]) ==> s[k] in r
    ensures forall x :: multiset(r)[x] == if p(x) then multiset(s)[x] else 0
  {
    if |s| == 0 then []
    else
      var kept := Filter(s[..|s| - 1], p);
      FilterStep(s, kept, p);
      kept + (if p(s[|s| - 1]) then [s[|s| - 1]] else [])
  }

  /** Filtering one more element keeps it exactly when it satisfies `p`. */
  lemma FilterStep<T(!new)>(s: seq<T>, kept: seq<T>, p: T -> bool)
    requires |s| > 0
    requires |kept| == CountWhere(s[..|s| - 1], p)
    requires forall k :: 0 <= k < |kept| ==> p(kept[k]) && kept[k] in s[..|s| - 1]
    requires forall x :: multiset(kept)[x] == if p(x) then multiset(s[..|s| - 1])[x] else 0
    ensures var r := kept + (if p(s[|s| - 1]) then [s[|s| - 1]] else []);
            |r| == CountWhere(s, p)
            && (forall k :: 0 <= k < |r| ==> p(r[k]) && r[k] in s)
            && (forall k :: 0 <= k < |s| && p(s[k]) ==> s[k] in r)
            && (forall x :: multiset(r)[x] == if p(x) then multiset(s)[x] else 0)
  {
    var init, last := s[..|s| - 1], s[|s| - 1];
    var r := kept + (if p(last) then [last] else []);
    assert s == init + [last];
    assert multiset(s) == multiset(init) + multiset{last};
    assert forall x :: multiset(r)[x] == if p(x) then multiset(s)[x] else 0;
    forall k | 0 <= k < |s| && p(s[k])
      ensures s[k] in r
    {
      assert multiset(s)[s[k]] > 0;
    }
  }

  predicate IsNonEmpty(q: string) { q != [] }

  /**
   * `str::split_whitespace`: the non-empty pieces between whitespace chars,
   * every one of them.
   */
  function Words(s: string): (ws: seq<string>)
    ensures |ws| == CountWhere(Split(s, IsWhitespace), IsNonEmpty)
    ensures forall k :: 0 <= k < |ws| ==> ws[k] != [] && ws[k] in Split(s, IsWhitespace)
    ensures forall q :: q in Split(s, IsWhitespace) && q != [] ==> q in ws
    ensures forall q :: multiset(ws)[q] == if q == [] then 0 else multiset(Split(s, IsWhitespace))[q]
    ensures forall k, i :: 0 <= k < |ws| && 0 <= i < |ws[k]| ==> !IsWhitespace(ws[k][i])
  {
    var parts := Split(s, IsWhitespace);
    WordsOfPieces(parts, Filter(parts, IsNonEmpty));
    Filter(parts, IsNonEmpty)
  }

  /** The filter's contract, restated for the non-empty pieces of a whitespace split. */
  lemma WordsOfPieces(parts: seq<string>, ws: seq<string>)
    requires ws == Filter(parts, IsNonEmpty)
    requires forall k, i :: 0 <= k < |parts| && 0 <= i < |parts[k]| ==> !IsWhitespace(parts[k][i])
    ensures |ws| == CountWhere(parts, IsNonEmpty)
    ensures forall k :: 0 <= k < |ws| ==> ws[k] != [] && ws[k] in parts
    ensures forall q :: q in parts && q != [] ==> q in ws
    ensures forall q :: multiset(ws)[q] == if q == [] then 0 else multiset(parts)[q]
    ensures forall k, i :: 0 <= k < |ws| && 0 <= i < |ws[k]| ==> !IsWhitespace(ws[k][i])
  {
    forall q | q in parts && q != []
      ensures q in ws
    {
      var k :| 0 <= k < |parts| && parts[k] == q;
      assert IsNonEmpty(parts[k]);
    }
    forall k, i | 0 <= k < |ws| && 0 <= i < |ws[k]|
      ensures !IsWhitespace(ws[k][i])
    {
      var j :| 0 <= j < |parts| && parts[j] == ws[k];
    }
  }

  /** Every char of `s` satisfies `p`. */
  predicate AllWhere(s: string, p: char -> bool) { forall i :: 0 <= i < |s| ==> p(s[i]) }

  predicate IsBlank(s: string) { AllWhere(s, IsWhitespace) }

  /** `r` is `s` less an all-`p` prefix and an all-`p` suffix. */
  ghost predicate TrimmedFrom(s: string, r: string, p: char -> bool) {
    exists a, b :: s == a + r + b && AllWhere(a, p) && AllWhere(b, p)
  }

  /**
   * `str::trim_matches` with a char predicate: the slice left when the
   * leading and trailing `p` chars are removed, starting and ending with a
   * char that is not `p`, and empty exactly when every char is `p`.
   */
  function TrimWhere(s: string, p: char -> bool): (r: string)
    ensures TrimmedFrom(s, r, p)
    ensures r == [] <==> AllWhere(s, p)
    ensures r != [] ==> !p(r[0]) && !p(r[|r| - 1])
    decreases |s|
  {
    if |s| > 0 && p(s[0]) then
      var r := TrimWhere(s[1..], p);
      TrimmedFront(s, r, p);
      r
    else if |s| > 0 && p(s[|s| - 1]) then
      var r := TrimWhere(s[..|s| - 1], p);
      TrimmedBack(s, r, p);
      r
    else
      TrimmedNothing(s, p);
      s
  }

  /** A text with no `p` char at either end is its own trimming. */
  lemma TrimmedNothing(s: string, p: char -> bool)
    requires s != [] ==> !p(s[0]) && !p(s[|s| - 1])
    ensures TrimmedFrom(s, s, p) && (s == [] <==> AllWhere(s, p))
  {
    var none: string := [];
    assert s == none + s + none && AllWhere(none, p);
  }

  /** Trimming a text whose first char is `p` trims its tail. */
  lemma TrimmedFront(s: string, r: string, p: char -> bool)
    requires |s| > 0 && p(s[0])
    requires TrimmedFrom(s[1..], r, p) && (r == [] <==> AllWhere(s[1..], p))
    ensures TrimmedFrom(s, r, p) && (r == [] <==> AllWhere(s, p))
  {
    var t := s[1..];
    var a, b :| t == a + r + b && AllWhere(a, p) && AllWhere(b, p);
    assert s == [s[0]] + t;
    assert s == ([s[0]] + a) + r + b;
    AllWhereJoin([s[0]], a, p);
    AllWhereJoin([s[0]], t, p);
  }

  /** Trimming a text whose last char is `p` trims its head. */
  lemma TrimmedBack(s: string, r: string, p: char -> bool)
    requires |s| > 0 && p(s[|s| - 1])
    requires TrimmedFrom(s[..|s| - 1], r, p) && (r == [] <==> AllWhere(s[..|s| - 1], p))
    ensures TrimmedFrom(s, r, p) && (r == [] <==> AllWhere(s, p))
  {
    var t := s[..|s| - 1];
    var a, b :| t == a + r + b && AllWhere(a, p) && AllWhere(b, p);
    assert s == t + [s[|s| - 1]];
    assert s == a + r + (b + [s[|s| - 1]]);
    AllWhereJoin(b, [s[|s| - 1]], p);
    AllWhereJoin(t, [s[|s| - 1]], p);
  }

  /** A concatenation is all `p` exactly when both parts are. */
  lemma AllWhereJoin(x: string, y: string, p: char -> bool)
    ensures AllWhere(x + y, p) <==> AllWhere(x, p) && AllWhere(y, p)
  {
    if AllWhere(x, p) && AllWhere(y, p) {
      forall k | 0 <= k < |x + y| ensures p((x + y)[k]) {
        if k >= |x| { assert (x + y)[k] == y[k - |x|]; }
      }
    }
    if AllWhere(x + y, p) {
      forall k | 0 <= k < |x| ensures p(x[k]) {
        assert (x + y)[k] == x[k];
      }
      forall k | 0 <= k < |y| ensures p(y[k]) {
        assert (x + y)[|x| + k] == y[k];
      }
    }
  }

  /** `str::trim`: the text without its leading and trailing whitespace. */
  function Trim(s: string): (r: string)
    ensures TrimmedFrom(s, r, IsWhitespace)
    ensures r == [] <==> IsBlank(s)
    ensures r != [] ==> !IsWhitespace(r[0]) && !IsWhitespace(r[|r| - 1])
  {
    TrimWhere(s, IsWhitespace)
  }

  predicate IsSentenceEnd(c: char) { c == '.' || c == '!' || c == '?' }

  /**
   * `text.split(|c| ".!?".contains(c)).filter(|s| !s.trim().is_empty())`,
   * the sentence split both extractors share.
   */
  function Sentences(s: string): (r: seq<string>)
    ensures |r| == CountWhere(Split(s, IsSentenceEnd), IsNonBlank)
    ensures |r| <= CountWhere(s, IsSentenceEnd) + 1
    ensures forall k :: 0 <= k < |r| ==> IsNonBlank(r[k]) && r[k] in Split(s, IsSentenceEnd)
    ensures forall q :: q in Split(s, IsSentenceEnd) && IsNonBlank(q) ==> q in r
    ensures forall q :: multiset(r)[q] == if IsNonBlank(q) then multiset(Split(s, IsSentenceEnd))[q] else 0
  {
    var parts := Split(s, IsSentenceEnd);
    SentencesOfPieces(parts, Filter(parts, IsNonBlank));
    Filter(parts, IsNonBlank)
  }

  /** The filter's contract, restated for the non-blank pieces of a split. */
  lemma SentencesOfPieces(parts: seq<string>, r: seq<string>)
    requires r == Filter(parts, IsNonBlank)
    ensures |r| <= |parts|
    ensures forall q :: q in parts && IsNonBlank(q) ==> q in r
  {
    forall q | q in parts && IsNonBlank(q)
      ensures q in r
    {
      var k :| 0 <= k < |parts| && parts[k] == q;
    }
  }

  predicate IsNonBlank(q: string) { !IsBlank(q) }

  /** `usize::max(n, 1)`, the clamp used for every denominator. */
  function AtLeastOne(n: nat): (r: nat)
    ensures r >= 1 && r >= n
    ensures n >= 1 ==> r == n
  {
    if n < 1 then 1 else n
  }

  /** A count over a denominator of at least one is non-negative, and 0 exactly for a zero count. */
  lemma PerCount(n: nat, d: real)
    requires d >= 1.0
    ensures n as real / d >= 0.0
    ensures n as real / d == 0.0 <==> n == 0
  {
    assert n as real / d * d == n as real;
  }

  predicate IsNewline(c: char) { c == '\n' }

  /** A line without the one `\r` that may end it. */
  function StripCr(l: string): (r: string)
    ensures |r| <= |l| && r == l[..|r|] && (r == l || r + ['\r'] == l)
  {
    if |l| > 0 && l[|l| - 1] == '\r' then l[..|l| - 1] else l
  }

  /**
   * `str::lines`: split at `\n`; a line ended by `\n` loses one trailing `\r`;
   * the last piece is dropped when empty (no final line after a final `\n`).
   */
  function Lines(s: string): (ls: seq<string>)
    ensures |ls| == CountWhere(s, IsNewline) + (if s != [] && s[|s| - 1] != '\n' then 1 else 0)
    ensures forall k, i :: 0 <= k < |ls| && 0 <= i < |ls[k]| ==> ls[k][i] != '\n'
    ensures forall k :: 0 <= k < |ls| ==>
              ls[k] == if k < CountWhere(s, IsNewline) then StripCr(Split(s, IsNewline)[k]) else Split(s, IsNewline)[k]
  {
    var parts := Split(s, IsNewline);
    var n := |parts| - 1;
    var ended := seq(n, i requires 0 <= i < n => StripCr(parts[i]));
    if parts[n] == [] then ended else ended + [parts[n]]
  }

  /** `str::split_once` on a char: the text before and after the first `d`. */
  function SplitOnce(s: string, d: char): (r: Option<(string, string)>)
    ensures r.None? <==> d !in s
    ensures r.Some? ==> r.value.0 + [d] + r.value.1 == s && d !in r.value.0
  {
    if |s| == 0 then None
    else if s[0] == d then Some(([], s[1..]))
    else match SplitOnce(s[1..], d)
      case None => None
      case Some(p) => assert s == [s[0]] + s[1..]; Some(([s[0]] + p.0, p.1))
  }

  /** Number of UTF-8 bytes of one Unicode scalar value. */
  function Utf8Width(c: char): (n: nat)
    ensures 1 <= n <= 4
    ensures n == 1 <==> c as int < 0x80
  {
    if c as int < 0x80 then 1 else if c as int < 0x800 then 2 else if c as int < 0x1_0000 then 3 else 4
  }

  /** `str::len`: the UTF-8 byte length. */
  function ByteLen(s: string): (n: nat)
    ensures n >= |s|
  {
    if |s| == 0 then 0 else ByteLen(s[..|s| - 1]) + Utf8Width(s[|s| - 1])
  }

  /** A text that starts with an ASCII char is longer than one byte exactly when it has a second char. */
  lemma {:induction false} ByteLenAfterAscii(s: string)
    requires |s| > 0 && s[0] as int < 0x80
    ensures ByteLen(s) > 1 <==> |s| > 1
  {
    if |s| == 1 {
      assert s[..0] == [];
    }
  }

  /** Occurrences of one char; `str::matches(char).count()`. */
  function CountChar(s: string, c: char): (n: nat)
    ensures n <= |s|
    ensures n == 0 <==> c !in s
  {
    if |s| == 0 then 0
    else
      assert s == s[..|s| - 1] + [s[|s| - 1]];
      CountChar(s[..|s| - 1], c) + (if s[|s| - 1] == c then 1 else 0)
  }

  /** Lowercasing A-Z does not change the count of a char that is not an ASCII letter. */
  lemma {:induction false} CountCharAsciiLowercase(s: string, c: char)
    requires !IsAsciiUpper(c) && !('a' <= c <= 'z')
    ensures CountChar(ToAsciiLowercase(s), c) == CountChar(s, c)
  {
    if |s| > 0 {
      var s' := s[..|s| - 1];
      CountCharAsciiLowercase(s', c);
      assert ToAsciiLowercase(s)[..|s| - 1] == ToAsciiLowercase(s');
    }
  }

  /** `p` is a non-empty suffix of `t`. */
  predicate EndsWith(t: string, p: string) {
    0 < |p| <= |t| && t[|t| - |p|..] == p
  }

  /** Some pattern of `pats` is a non-empty suffix of `t`. */
  predicate EndsWithAny(t: string, pats: seq<string>)
    decreases |pats|
  {
    |pats| > 0 && (EndsWith(t, pats[0]) || EndsWithAny(t, pats[1..]))
  }

  lemma {:induction false} EndsWithAnyMember(t: string, pats: seq<string>, p: string)
    requires p in pats && EndsWith(t, p)
    ensures EndsWithAny(t, pats)
    decreases |pats|
  {
    if pats[0] != p {
      EndsWithAnyMember(t, pats[1..], p);
    }
  }

  lemma EndsWithOne(t: string, q: string)
    ensures EndsWithAny(t, [q]) <==> EndsWith(t, q)
  {
    assert [q][1..] == [];
    assert !EndsWithAny(t, []);
  }

  lemma EndsWithNeither(t: string, a: string, b: string)
    requires !EndsWith(t, a) && !EndsWith(t, b)
    ensures !EndsWithAny(t, [a, b])
  {
    assert [a, b][1..] == [b];
    EndsWithOne(t, b);
  }

  /**
   * The scan behind a non-overlapping search: matching may start at `w`
   * (just after the previous match), and the ends up to `e` are already
   * examined. The next match is the one that ENDS first; the scan then
   * resumes where it ended. This is `AhoCorasick::find_iter` with the
   * standard match kind, and `str::matches` for one pattern.
   */
  function Scan(s: string, pats: seq<string>, w: nat, e: nat): (n: nat)
    requires w <= e <= |s|
    ensures n <= |s| - e
    decreases |s| - e
  {
    if e == |s| then 0
    else if EndsWithAny(s[w..e + 1], pats) then 1 + Scan(s, pats, e + 1, e + 1)
    else Scan(s, pats, w, e + 1)
  }

  /** The number of non-overlapping, left-to-right matches of any of `pats` in `s`. */
  function MatchCount(s: string, pats: seq<string>): (n: nat)
    ensures n <= |s|
  {
    Scan(s, pats, 0, 0)
  }

  /** The phrase `p` occurs in `s` starting at index `i`. */
  predicate OccursAt(s: string, p: string, i: int) {
    0 <= i <= |s| - |p| && s[i..i + |p|] == p
  }

  /** Some non-empty phrase of `pats` occurs somewhere in `s`. */
  predicate OccursIn(s: string, pats: seq<string>) {
    exists k, i :: 0 <= k < |pats| && 0 <= i <= |s| && pats[k] != [] && OccursAt(s, pats[k], i)
  }

  /** A scan that has matched nothing yet finds nothing exactly when no match ends after `e`. */
  lemma {:induction false} ScanZero(s: string, pats: seq<string>, e: nat)
    requires e <= |s|
    ensures Scan(s, pats, 0, e) == 0 <==> forall b :: e < b <= |s| ==> !EndsWithAny(s[..b], pats)
    decreases |s| - e
  {
    if e < |s| && !EndsWithAny(s[..e + 1], pats) {
      ScanZero(s, pats, e + 1);
    }
  }

  /** A match ends at `b` exactly when a phrase occurs ending at `b`. */
  lemma EndsWithAnyAt(s: string, pats: seq<string>, b: nat)
    requires b <= |s|
    ensures EndsWithAny(s[..b], pats) <==>
            exists k :: 0 <= k < |pats| && pats[k] != [] && OccursAt(s, pats[k], b - |pats[k]|)
  {
    EndsWithAnyIff(s[..b], pats);
    forall k | 0 <= k < |pats| && |pats[k]| <= b
      ensures s[..b][b - |pats[k]|..] == s[b - |pats[k]|..b]
    {
    }
  }

  /** No match ends anywhere when no phrase occurs. */
  lemma NoOccurrenceNoEnd(s: string, pats: seq<string>, b: nat)
    requires 0 < b <= |s| && !OccursIn(s, pats)
    ensures !EndsWithAny(s[..b], pats)
  {
    EndsWithAnyAt(s, pats, b);
  }

  /** `find_iter(text).count() == 0` exactly when no phrase of `pats` occurs in the text. */
  lemma MatchCountZero(s: string, pats: seq<string>)
    ensures MatchCount(s, pats) == 0 <==> !OccursIn(s, pats)
  {
    ScanZero(s, pats, 0);
    if OccursIn(s, pats) {
      var k, i :| 0 <= k < |pats| && 0 <= i <= |s| && pats[k] != [] && OccursAt(s, pats[k], i);
      assert i + |pats[k]| <= |s|;
      EndsWithAnyAt(s, pats, i + |pats[k]|);
    } else {
      forall b | 0 < b <= |s|
        ensures !EndsWithAny(s[..b], pats)
      {
        NoOccurrenceNoEnd(s, pats, b);
      }
    }
  }

  /** One differing position rules a suffix out. */
  lemma NotEndsWithAt(t: string, p: string, j: nat)
    requires |p| <= |t| ==> j < |p| && t[|t| - |p| + j] != p[j]
    ensures !EndsWith(t, p)
  {
  }

  lemma {:induction false} EndsWithAnyIff(t: string, pats: seq<string>)
    ensures EndsWithAny(t, pats) <==> exists k :: 0 <= k < |pats| && EndsWith(t, pats[k])
    decreases |pats|
  {
    if |pats| > 0 {
      EndsWithAnyIff(t, pats[1..]);
      if EndsWithAny(t, pats[1..]) {
        var k :| 0 <= k < |pats| - 1 && EndsWith(t, pats[1..][k]);
        assert EndsWith(t, pats[k + 1]);
      }
      if exists k :: 0 <= k < |pats| && EndsWith(t, pats[k]) {
        var k :| 0 <= k < |pats| && EndsWith(t, pats[k]);
        if k > 0 { assert pats[1..][k - 1] == pats[k]; }
      }
    }
  }

  /** Where no match can end, the scan only moves on. */
  lemma {:induction false} ScanSkips(s: string, pats: seq<string>, w: nat, e: nat, e2: nat)
    requires w <= e <= e2 <= |s|
    requires forall b :: e < b <= e2 ==> !EndsWithAny(s[w..b], pats)
    ensures Scan(s, pats, w, e) == Scan(s, pats, w, e2)
    decreases e2 - e
  {
    if e < e2 {
      assert !EndsWithAny(s[w..e + 1], pats);
      ScanSkips(s, pats, w, e + 1, e2);
    }
  }

  /** No match of `pats` starts at or after `w` and ends at or before `e`. */
  predicate NoMatchBetween(s: string, pats: seq<string>, w: nat, e: nat)
    requires w <= e <= |s|
  {
    forall b :: w < b <= e ==> !EndsWithAny(s[w..b], pats)
  }

  /**
   * Scanning for `pats` finds at least as many matches as scanning for `q`
   * alone, when some pattern `p` of `pats` is a prefix of `q`: inside each
   * match of `q` the copy of `p` (or an earlier match overlapping it) is a
   * match of `pats`. The extra 1 is the credit for a `pats` match that ended
   * after the last `q` match.
   */
  lemma {:induction false} PrefixPatternDominates(s: string, pats: seq<string>, p: string, q: string,
                                                  w: nat, v: nat, e: nat)
    requires p in pats && 0 < |p| <= |q| && q[..|p|] == p
    requires w <= e <= |s| && v <= e
    requires NoMatchBetween(s, pats, w, e)
    ensures Scan(s, pats, w, e) + (if v < w then 1 else 0) >= Scan(s, [q], v, e)
    decreases |s| - e
  {
    if e < |s| {
      var mp := EndsWithAny(s[w..e + 1], pats);
      var mq := EndsWithAny(s[v..e + 1], [q]);
      var pNext := if mp then e + 1 else w;
      var qNext := if mq then e + 1 else v;
      assert Scan(s, pats, w, e) == (if mp then 1 else 0) + Scan(s, pats, pNext, e + 1);
      assert Scan(s, [q], v, e) == (if mq then 1 else 0) + Scan(s, [q], qNext, e + 1);
      if !mp {
        assert NoMatchBetween(s, pats, w, e + 1);
        if mq {
          QMatchStartsBeforeWindow(s, pats, p, q, w, v, e);
        }
      }
      PrefixPatternDominates(s, pats, p, q, pNext, qNext, e + 1);
    }
  }

  /**
   * A match of `q` ending at `e` while no match of `pats` fits in the window
   * from `w` starts before `w`: otherwise its prefix `p` would be one.
   */
  lemma QMatchStartsBeforeWindow(s: string, pats: seq<string>, p: string, q: string, w: nat, v: nat, e: nat)
    requires p in pats && 0 < |p| <= |q| && q[..|p|] == p
    requires w <= e < |s| && v <= e
    requires NoMatchBetween(s, pats, w, e + 1)
    requires EndsWithAny(s[v..e + 1], [q])
    ensures v < w
  {
    EndsWithOne(s[v..e + 1], q);
    var t := e + 1 - |q|;
    assert s[v..e + 1][t - v..] == s[t..e + 1];
    if w <= t {
      PrefixMatchInWindow(s, pats, p, q, w, t);
      assert false;
    }
  }

  /** A copy of `q` at `t`, at or after `w`, carries a match of its prefix `p` that ends within it. */
  lemma PrefixMatchInWindow(s: string, pats: seq<string>, p: string, q: string, w: nat, t: nat)
    requires p in pats && 0 < |p| <= |q| && q[..|p|] == p
    requires w <= t && t + |q| <= |s| && s[t..t + |q|] == q
    ensures w < t + |p| <= t + |q| && EndsWithAny(s[w..t + |p|], pats)
  {
    var b := t + |p|;
    assert s[t..b] == s[t..t + |q|][..|p|];
    assert s[w..b][b - w - |p|..] == s[t..b];
    EndsWithAnyMember(s[w..b], pats, p);
  }

  /** Whole-text form of `PrefixPatternDominates`. */
  lemma PrefixPatternCountDominates(s: string, pats: seq<string>, p: string, q: string)
    requires p in pats && 0 < |p| <= |q| && q[..|p|] == p
    ensures MatchCount(s, pats) >= MatchCount(s, [q])
  {
    PrefixPatternDominates(s, pats, p, q, 0, 0, 0);
  }
}
