/**
  The regular expressions of the formatter, each written out as a matcher
  anchored at one position of a string plus a leftmost search. In every
  pattern a quantified class is followed by a character the class excludes,
  so JavaScript's backtracking can only ever find the greedy match, which is
  what these matchers compute.
 */
module Patterns {
  import opened Wrappers
  import opened JsString

  /** `\d`: ASCII digits only. */
  predicate IsDigit(c: char) {
    '0' <= c <= '9'
  }

  predicate AllDigits(s: String) {
    forall i :: 0 <= i < |s| ==> IsDigit(s[i])
  }

  /** Length of the longest run of digits starting at `i` (`\d+` taken greedily; 0 when it fails). */
  function DigitsFrom(s: String, i: nat): (n: nat)
    requires i <= |s|
    ensures i + n <= |s| && forall k :: i <= k < i + n ==> IsDigit(s[k])
    ensures i + n == |s| || !IsDigit(s[i + n])
    decreases |s| - i
  {
    if i < |s| && IsDigit(s[i]) then 1 + DigitsFrom(s, i + 1) else 0
  }

  /** Length of the longest run free of `c` starting at `i` (`[^c]*` taken greedily). */
  function RunWithout(s: String, i: nat, c: char): (n: nat)
    requires i <= |s|
    ensures i + n <= |s| && forall k :: i <= k < i + n ==> s[k] != c
    ensures i + n == |s| || s[i + n] == c
    decreases |s| - i
  {
    if i < |s| && s[i] != c then 1 + RunWithout(s, i + 1, c) else 0
  }

  /** `s.match(/^\d+/)?.[0] || ''` */
  function LeadingDigits(s: String): (d: String)
    ensures StartsWith(s, d) && AllDigits(d)
    ensures |d| == |s| || !IsDigit(s[|d|])
  {
    s[..DigitsFrom(s, 0)]
  }

  /** The three unanchored patterns the formatter searches for. */
  datatype Pattern =
    | Bold    // /\*\*([^*]+)\*\*/
    | Quoted  // /"([^"]+)"/
    | Price   // /\$\d+\.\d+/

  /** Length of the match of `p` that starts at index `i` of `s`, if any. */
  function MatchAt(p: Pattern, s: String, i: nat): (r: Option<nat>)
    requires i <= |s|
    ensures r.Some? ==> i + r.value <= |s|
  {
    match p
    case Bold => BoldAt(s, i)
    case Quoted => QuotedAt(s, i)
    case Price => PriceAt(s, i)
  }

  // `\*\*([^*]+)\*\*` anchored at index `i`
  function BoldAt(s: String, i: nat): (r: Option<nat>)
    requires i <= |s|
    ensures r.Some? ==> i + r.value <= |s|
  {
    if i + 2 <= |s| && s[i] == '*' && s[i + 1] == '*' then
      var k := RunWithout(s, i + 2, '*');
      if k >= 1 && i + k + 4 <= |s| && s[i + k + 3] == '*' then Some(k + 4) else None
    else None
  }

  /** `"([^"]+)"` anchored at index `i` */
  function QuotedAt(s: String, i: nat): (r: Option<nat>)
    requires i <= |s|
    ensures r.Some? ==> i + r.value <= |s|
  {
    if i < |s| && s[i] == '"' then
      var k := RunWithout(s, i + 1, '"');
      if k >= 1 && i + k + 2 <= |s| then Some(k + 2) else None
    else None
  }

  /** `\$\d+\.\d+` anchored at index `i` */
  function PriceAt(s: String, i: nat): (r: Option<nat>)
    requires i <= |s|
    ensures r.Some? ==> i + r.value <= |s|
  {
    if i < |s| && s[i] == '$' then
      var d1 := DigitsFrom(s, i + 1);
      if d1 >= 1 && i + d1 + 2 <= |s| && s[i + d1 + 1] == '.' then
        var d2 := DigitsFrom(s, i + d1 + 2);
        if d2 >= 1 then Some(d1 + d2 + 2) else None
      else None
    else None
  }

  /** Where a match was found and how long it is. */
  datatype Match = Match(start: nat, len: nat)

  /** The match of `p` that starts leftmost at or after index `i`. */
  function SearchFrom(p: Pattern, s: String, i: nat): (m: Option<Match>)
    requires i <= |s|
    ensures m.Some? ==> i <= m.value.start && m.value.start + m.value.len <= |s|
    ensures m.Some? ==> MatchAt(p, s, m.value.start) == Some(m.value.len)
    ensures m.Some? ==> forall j :: i <= j < m.value.start ==> MatchAt(p, s, j).None?
    ensures m.None? ==> forall j :: i <= j <= |s| ==> MatchAt(p, s, j).None?
    decreases |s| - i
  {
    match MatchAt(p, s, i)
    case Some(n) => Some(Match(i, n))
    case None => if i == |s| then None else SearchFrom(p, s, i + 1)
  }

  /** `s.match(p)` without the global flag: the leftmost match. */
  function Search(p: Pattern, s: String): Option<Match> {
    SearchFrom(p, s, 0)
  }

  /** What the source reads out of a match, or `''` when there is none:
      capture group 1 for `Bold` and `Quoted`, the whole match for `Price`. */
  function Extract(p: Pattern, s: String): String {
    match Search(p, s)
    case None => []
    case Some(m) =>
      match p
      case Bold => s[m.start + 2..m.start + m.len - 2]
      case Quoted => s[m.start + 1..m.start + m.len - 1]
      case Price => s[m.start..m.start + m.len]
  }

  // Length of the match of `/^\d+\.\s\*\*[^*]+\*\*/`, the part that the two
  // numbered-line patterns share.
  function NumberedHead(s: String): (r: Option<nat>)
    ensures r.Some? ==> r.value <= |s|
  {
    var d := DigitsFrom(s, 0);
    if d >= 1 && d + 2 <= |s| && s[d] == '.' && IsWhitespace(s[d + 1]) then
      match BoldAt(s, d + 2)
      case None => None
      case Some(k) => Some(d + 2 + k)
    else None
  }

  // `/^\d+\.\s\*\*[^*]+\*\*:?$/.test(s)`: a numbered bold title and nothing after it but an optional colon.
  predicate IsNumberedTitle(s: String) {
    NumberedHead(s).Some? && (s[NumberedHead(s).value..] == [] || s[NumberedHead(s).value..] == ":")
  }

  // `/^\d+\.\s\*\*[^*]+\*\*:/.test(s)`: a numbered bold title followed by a colon.
  predicate IsNumberedItem(s: String) {
    NumberedHead(s).Some? && StartsWith(s[NumberedHead(s).value..], ":")
  }

  /** A price token: `$`, one or more digits, a point, one or more digits. */
  predicate IsPriceToken(t: String) {
    && |t| >= 4 && t[0] == '$'
    && exists k :: 2 <= k <= |t| - 2 && t[k] == '.' && PriceDigits(t, k)
  }

  /** Every character of the token but the `$` and the point at `k` is a digit. */
  predicate PriceDigits(t: String, k: nat) {
    forall j :: 1 <= j < |t| && j != k ==> IsDigit(t[j])
  }

  /** The text `<number>.<w>**<title>**<tail>`. */
  function NumberedLine(number: String, w: char, title: String, tail: String): String {
    number + ['.', w] + "**" + title + "**" + tail
  }

  /** What `^\d+\.\s\*\*[^*]+\*\*` asks of the parts of a numbered line. */
  predicate NumberedParts(number: String, w: char, title: String) {
    |number| >= 1 && AllDigits(number) && IsWhitespace(w) && |title| >= 1 && '*' !in title
  }

  // ---------------------------------------------------------------- lemmas

  /** The greedy digit run is the only run of digits followed by a non-digit. */
  lemma DigitsFromUnique(s: String, i: nat, n: nat)
    requires i + n <= |s| && (forall k :: i <= k < i + n ==> IsDigit(s[k]))
    requires i + n == |s| || !IsDigit(s[i + n])
    ensures DigitsFrom(s, i) == n
  {
  }

  /** The greedy run free of `c` is the only such run followed by `c` or the end. */
  lemma RunWithoutUnique(s: String, i: nat, c: char, n: nat)
    requires i + n <= |s| && (forall k :: i <= k < i + n ==> s[k] != c)
    requires i + n == |s| || s[i + n] == c
    ensures RunWithout(s, i, c) == n
  {
  }

  /** The leftmost start where `p` matches is the one `Search` reports. */
  lemma SearchLeftmost(p: Pattern, s: String, i: nat, n: nat)
    requires i <= |s| && MatchAt(p, s, i) == Some(n)
    requires forall j :: 0 <= j < i ==> MatchAt(p, s, j).None?
    ensures Search(p, s) == Some(Match(i, n))
  {
  }

  // `\*\*([^*]+)\*\*` matches at index `i` exactly over a span that opens and
  // closes with `**` around at least one character and holds no other `*`.
  lemma BoldMatchIff(s: String, i: nat, n: nat)
    requires i <= |s|
    ensures BoldAt(s, i) == Some(n) <==>
      && 5 <= n && i + n <= |s|
      && s[i] == '*' && s[i + 1] == '*' && s[i + n - 2] == '*' && s[i + n - 1] == '*'
      && forall k :: i + 2 <= k < i + n - 2 ==> s[k] != '*'
  {
    if && 5 <= n && i + n <= |s|
       && s[i] == '*' && s[i + 1] == '*' && s[i + n - 2] == '*' && s[i + n - 1] == '*'
       && forall k :: i + 2 <= k < i + n - 2 ==> s[k] != '*'
    {
      RunWithoutUnique(s, i + 2, '*', n - 4);
    }
  }

  /** `"([^"]+)"` matches at index `i` exactly over a quoted span with at least
      one character between the quotes and no quote among them. */
  lemma QuotedMatchIff(s: String, i: nat, n: nat)
    requires i <= |s|
    ensures QuotedAt(s, i) == Some(n) <==>
      && 3 <= n && i + n <= |s| && s[i] == '"' && s[i + n - 1] == '"'
      && forall k :: i + 1 <= k < i + n - 1 ==> s[k] != '"'
  {
    if && 3 <= n && i + n <= |s| && s[i] == '"' && s[i + n - 1] == '"'
       && forall k :: i + 1 <= k < i + n - 1 ==> s[k] != '"'
    {
      RunWithoutUnique(s, i + 1, '"', n - 2);
    }
  }

  /** `\$\d+\.\d+` matches at index `i` only over a price token that is not
      followed by a further digit (the last `\d+` is greedy). */
  lemma PriceMatchSound(s: String, i: nat, n: nat)
    requires i <= |s| && PriceAt(s, i) == Some(n)
    ensures i + n <= |s| && IsPriceToken(s[i..i + n])
    ensures i + n == |s| || !IsDigit(s[i + n])
  {
    var d1 := DigitsFrom(s, i + 1);
    var t := s[i..i + n];
    assert t[1 + d1] == '.' && PriceDigits(t, 1 + d1);
  }

  /** Conversely, every price token at index `i` that is not followed by a digit
      is matched over its whole length. */
  lemma PriceMatchComplete(s: String, i: nat, n: nat)
    requires i + n <= |s| && IsPriceToken(s[i..i + n])
    requires i + n == |s| || !IsDigit(s[i + n])
    ensures PriceAt(s, i) == Some(n)
  {
    var t := s[i..i + n];
    var k :| 2 <= k <= |t| - 2 && t[k] == '.' && PriceDigits(t, k);
    PriceTokenInPlace(s, i, n, k);
    DigitsFromUnique(s, i + 1, k - 1);
    DigitsFromUnique(s, i + k + 1, n - k - 1);
    PriceAtRuns(s, i, k, n);
  }

  /** A price token read at index `i` of `s`, restated on `s` itself. */
  lemma PriceTokenInPlace(s: String, i: nat, n: nat, k: nat)
    requires i + n <= |s| && 2 <= k <= n - 2 && s[i..i + n][0] == '$'
    requires s[i..i + n][k] == '.' && PriceDigits(s[i..i + n], k)
    ensures s[i] == '$' && s[i + k] == '.'
    ensures forall j :: i + 1 <= j < i + k ==> IsDigit(s[j])
    ensures forall j :: i + k + 1 <= j < i + n ==> IsDigit(s[j])
  {
    var t := s[i..i + n];
    forall j | i + 1 <= j < i + n && j != i + k ensures IsDigit(s[j]) {
      assert t[j - i] == s[j];
    }
  }

  /** `PriceAt` from the lengths of its two digit runs. */
  lemma PriceAtRuns(s: String, i: nat, k: nat, n: nat)
    requires 2 <= k <= n - 2 && i + n <= |s| && s[i] == '$' && s[i + k] == '.'
    requires DigitsFrom(s, i + 1) == k - 1 && DigitsFrom(s, i + k + 1) == n - k - 1
    ensures PriceAt(s, i) == Some(n)
  {
  }

  /** `Extract` gives `''` exactly when the pattern occurs nowhere in `s`
      (every capture it reads is at least one character long). */
  lemma ExtractEmptyIff(p: Pattern, s: String)
    ensures Extract(p, s) == [] <==> Search(p, s).None?
  {
    match Search(p, s)
    case None =>
    case Some(m) =>
      match p
      case Bold => BoldMatchIff(s, m.start, m.len);
      case Quoted => QuotedMatchIff(s, m.start, m.len);
      case Price =>
  }

  /** A bold span read out of `s` is text between a `**` pair with no `*` inside,
      and it sits at the leftmost position where a bold span opens. */
  lemma ExtractBold(s: String)
    requires Extract(Bold, s) != []
    ensures '*' !in Extract(Bold, s) && Contains(s, "**" + Extract(Bold, s) + "**")
    ensures var k := Search(Bold, s).value.start;
      && OccursAt(s, "**" + Extract(Bold, s) + "**", k)
      && forall j :: 0 <= j < k ==> BoldAt(s, j).None?
  {
    var m := Search(Bold, s).value;
    BoldSpanAt(s, m.start, m.len);
    OccursContains(s, "**" + Extract(Bold, s) + "**", m.start);
    forall j | 0 <= j < m.start
      ensures BoldAt(s, j).None?
    {
      assert MatchAt(Bold, s, j).None?;
    }
  }

  /** A bold match is `**`, a text without `*`, and `**`. */
  lemma BoldSpanAt(s: String, i: nat, n: nat)
    requires i <= |s| && BoldAt(s, i) == Some(n)
    ensures i + n <= |s| && 4 <= n && '*' !in s[i + 2..i + n - 2]
    ensures s[i..i + n] == "**" + s[i + 2..i + n - 2] + "**"
  {
    var e := i + n;
    assert 5 <= n && s[i..i + 2] == "**" && s[e - 2..e] == "**" && '*' !in s[i + 2..e - 2] by {
      BoldMatchIff(s, i, n);
    }
    SliceIn3(s, i, i + 2, e - 2, e);
  }

  /** A quoted span read out of `s` is text between a pair of quotes with no quote
      inside, and it sits at the leftmost position where a quoted span opens. */
  lemma ExtractQuoted(s: String)
    requires Extract(Quoted, s) != []
    ensures '"' !in Extract(Quoted, s) && Contains(s, "\"" + Extract(Quoted, s) + "\"")
    ensures var k := Search(Quoted, s).value.start;
      && OccursAt(s, "\"" + Extract(Quoted, s) + "\"", k)
      && forall j :: 0 <= j < k ==> QuotedAt(s, j).None?
  {
    var m := Search(Quoted, s).value;
    QuotedSpanAt(s, m.start, m.len);
    OccursContains(s, "\"" + Extract(Quoted, s) + "\"", m.start);
    forall j | 0 <= j < m.start
      ensures QuotedAt(s, j).None?
    {
      assert MatchAt(Quoted, s, j).None?;
    }
  }

  /** A quoted match is `"`, a text without `"`, and `"`. */
  lemma QuotedSpanAt(s: String, i: nat, n: nat)
    requires i <= |s| && QuotedAt(s, i) == Some(n)
    ensures i + n <= |s| && 2 <= n && '"' !in s[i + 1..i + n - 1]
    ensures s[i..i + n] == "\"" + s[i + 1..i + n - 1] + "\""
  {
    var e := i + n;
    assert 3 <= n && s[i..i + 1] == "\"" && s[e - 1..e] == "\"" && '"' !in s[i + 1..e - 1] by {
      QuotedMatchIff(s, i, n);
    }
    SliceIn3(s, i, i + 1, e - 1, e);
  }

  /** A price read out of `s` is a price token that occurs in `s`, at the leftmost
      position where a price token starts. */
  lemma ExtractPrice(s: String)
    requires Extract(Price, s) != []
    ensures IsPriceToken(Extract(Price, s)) && Contains(s, Extract(Price, s))
    ensures var k := Search(Price, s).value.start;
      && OccursAt(s, Extract(Price, s), k)
      && (k + |Extract(Price, s)| == |s| || !IsDigit(s[k + |Extract(Price, s)|]))
      && forall j :: 0 <= j < k ==> PriceAt(s, j).None?
  {
    ExtractPriceToken(s);
    ExtractPriceAt(s);
    ExtractPriceFirst(s);
  }

  /** The extracted price is a price token found in the line. */
  lemma ExtractPriceToken(s: String)
    requires Extract(Price, s) != []
    ensures IsPriceToken(Extract(Price, s)) && Contains(s, Extract(Price, s))
  {
    ExtractPriceSlice(s);
    var m := Search(Price, s).value;
    PriceTokenAt(s, m.start, m.len);
  }

  /** The extracted price sits at the match start, and no digit follows it. */
  lemma ExtractPriceAt(s: String)
    requires Extract(Price, s) != []
    ensures var k := Search(Price, s).value.start;
      && OccursAt(s, Extract(Price, s), k)
      && (k + |Extract(Price, s)| == |s| || !IsDigit(s[k + |Extract(Price, s)|]))
  {
    ExtractPriceSlice(s);
    var m := Search(Price, s).value;
    PriceTokenAt(s, m.start, m.len);
  }

  /** A found price is the matched span of the line. */
  lemma ExtractPriceSlice(s: String)
    requires Extract(Price, s) != []
    ensures var m := Search(Price, s).value;
      && PriceAt(s, m.start) == Some(m.len)
      && Extract(Price, s) == s[m.start..m.start + m.len]
  {
  }

  /** No price starts before the match. */
  lemma ExtractPriceFirst(s: String)
    requires Extract(Price, s) != []
    ensures var k := Search(Price, s).value.start;
      forall j :: 0 <= j < k ==> PriceAt(s, j).None?
  {
    PriceSearchFirst(s);
  }

  /** A price match at `i` is a whole price token occurring there. */
  lemma PriceTokenAt(s: String, i: nat, n: nat)
    requires i <= |s| && PriceAt(s, i) == Some(n)
    ensures i + n <= |s|
    ensures var t := s[i..i + n];
      && IsPriceToken(t) && OccursAt(s, t, i) && Contains(s, t)
      && (i + |t| == |s| || !IsDigit(s[i + |t|]))
  {
    PriceMatchSound(s, i, n);
    OccursContains(s, s[i..i + n], i);
  }

  /** The price search stops at the first index where the price pattern matches. */
  lemma PriceSearchFirst(s: String)
    requires Search(Price, s).Some?
    ensures var m := Search(Price, s).value;
      && PriceAt(s, m.start) == Some(m.len)
      && forall j :: 0 <= j < m.start ==> PriceAt(s, j).None?
  {
    var m := Search(Price, s).value;
    forall j | 0 <= j < m.start
      ensures PriceAt(s, j).None?
    {
      assert MatchAt(Price, s, j).None?;
    }
  }

  /** On a numbered line the first bold span of the whole line is the title right
      after `<digits>.<space>`, because nothing before it can open one. */
  lemma NumberedHeadTitle(s: String)
    requires NumberedHead(s).Some?
    ensures var d := DigitsFrom(s, 0); var n := NumberedHead(s).value;
      d + 4 <= n - 2 && Extract(Bold, s) == s[d + 4..n - 2]
  {
    var d := DigitsFrom(s, 0);
    var n := NumberedHead(s).value;
    forall j | 0 <= j < d + 2 ensures MatchAt(Bold, s, j).None? {
      assert s[j] != '*';
    }
    BoldMatchIff(s, d + 2, n - d - 2);
    SearchLeftmost(Bold, s, d + 2, n - d - 2);
  }

  /** `s` opens with `d` digits, a point, a whitespace character and a bold span
      around `m` characters: the shape of `^\d+\.\s\*\*[^*]+\*\*`, index by index. */
  predicate NumberedAt(s: String, d: nat, m: nat) {
    && d >= 1 && m >= 1 && d + m + 6 <= |s|
    && (forall k :: 0 <= k < d ==> IsDigit(s[k]))
    && s[d] == '.' && IsWhitespace(s[d + 1]) && s[d + 2] == '*' && s[d + 3] == '*'
    && (forall k :: d + 4 <= k < d + 4 + m ==> s[k] != '*')
    && s[d + m + 4] == '*' && s[d + m + 5] == '*'
  }

  /** The numbered head is found exactly where that shape is. */
  lemma NumberedHeadIff(s: String, d: nat, m: nat)
    ensures NumberedAt(s, d, m) <==> DigitsFrom(s, 0) == d && NumberedHead(s) == Some(d + m + 6)
  {
    if NumberedAt(s, d, m) {
      DigitsFromUnique(s, 0, d);
      BoldMatchIff(s, d + 2, m + 4);
    }
    if DigitsFrom(s, 0) == d && NumberedHead(s) == Some(d + m + 6) {
      BoldMatchIff(s, d + 2, m + 4);
    }
  }

  /** A numbered line, read index by index. */
  lemma NumberedLineAt(number: String, w: char, title: String, tail: String)
    requires NumberedParts(number, w, title)
    ensures var s := NumberedLine(number, w, title, tail); var d := |number|; var m := |title|;
      && NumberedAt(s, d, m)
      && s[..d] == number && s[d + 1] == w && s[d + 4..d + 4 + m] == title && s[d + m + 6..] == tail
  {
    var s := NumberedLine(number, w, title, tail);
    var d := |number|;
    assert forall k :: 0 <= k < d ==> s[k] == number[k];
    assert forall k :: 0 <= k < |title| ==> s[d + 4 + k] == title[k];
  }

  /** A string of that shape is the numbered line made of its parts. */
  lemma NumberedAtLine(s: String, d: nat, m: nat)
    requires NumberedAt(s, d, m)
    ensures NumberedParts(s[..d], s[d + 1], s[d + 4..d + 4 + m])
    ensures s == NumberedLine(s[..d], s[d + 1], s[d + 4..d + 4 + m], s[d + m + 6..])
  {
    var title := s[d + 4..d + 4 + m];
    assert '*' !in title by {
      forall k | 0 <= k < m ensures title[k] != '*' {
        assert title[k] == s[d + 4 + k];
      }
    }
    assert s[d..d + 2] == ['.', s[d + 1]];
    assert s[d + 2..d + 4] == "**";
    assert s[d + m + 4..d + m + 6] == "**";
    assert s == s[..d] + s[d..d + 2] + s[d + 2..d + 4] + title + s[d + m + 4..d + m + 6] + s[d + m + 6..];
  }

  /** The numbered head of a numbered line is everything up to the closing `**`;
      the number is the digits and the first bold span is the title. */
  lemma NumberedLineHead(number: String, w: char, title: String, tail: String)
    requires NumberedParts(number, w, title)
    ensures var s := NumberedLine(number, w, title, tail);
      && NumberedHead(s) == Some(|number| + |title| + 6)
      && LeadingDigits(s) == number
      && Extract(Bold, s) == title
  {
    var s := NumberedLine(number, w, title, tail);
    NumberedLineAt(number, w, title, tail);
    NumberedHeadIff(s, |number|, |title|);
    NumberedHeadTitle(s);
  }

  /** Conversely, a line with a numbered head is a numbered line made of its
      leading digits, the whitespace after the point, its first bold span and the rest. */
  lemma NumberedHeadShape(s: String)
    requires NumberedHead(s).Some?
    ensures var n := NumberedHead(s).value;
      && NumberedParts(LeadingDigits(s), s[|LeadingDigits(s)| + 1], Extract(Bold, s))
      && s == NumberedLine(LeadingDigits(s), s[|LeadingDigits(s)| + 1], Extract(Bold, s), s[n..])
  {
    var d := DigitsFrom(s, 0);
    var n := NumberedHead(s).value;
    var m := n - d - 6;
    assert LeadingDigits(s) == s[..d] && Extract(Bold, s) == s[d + 4..d + 4 + m] by {
      NumberedHeadTitle(s);
    }
    assert NumberedAt(s, d, m) by {
      NumberedHeadIff(s, d, m);
    }
    NumberedAtLine(s, d, m);
  }

  /** Which numbered pattern a numbered line matches depends on its tail alone:
      the title pattern when the tail is empty or a lone colon, the item pattern
      when the tail starts with a colon, and after that colon comes the rest of the tail. */
  lemma NumberedLineKinds(number: String, w: char, title: String, tail: String)
    requires NumberedParts(number, w, title)
    ensures var s := NumberedLine(number, w, title, tail);
      && (IsNumberedTitle(s) <==> tail == [] || tail == ":")
      && (IsNumberedItem(s) <==> StartsWith(tail, ":"))
      && (IsNumberedItem(s) ==> s[NumberedHead(s).value + 1..] == tail[1..])
  {
    var s := NumberedLine(number, w, title, tail);
    NumberedLineHead(number, w, title, tail);
    NumberedLineAt(number, w, title, tail);
  }

  /** Conversely, the bold span after a stretch free of `*` is the first one and is read out whole. */
  lemma ExtractBoldSpan(a: String, t: String, b: String)
    requires '*' !in a && '*' !in t && |t| >= 1
    ensures Extract(Bold, a + "**" + t + "**" + b) == t
  {
    var s := a + "**" + t + "**" + b;
    var i := |a|;
    var n := |t| + 4;
    assert s[i] == '*' && s[i + 1] == '*' && s[i + n - 2] == '*' && s[i + n - 1] == '*';
    forall k | i + 2 <= k < i + n - 2 ensures s[k] != '*' {
      assert s[k] == t[k - i - 2];
    }
    BoldMatchIff(s, i, n);
    forall j | 0 <= j < i ensures MatchAt(Bold, s, j).None? {
      assert s[j] == a[j];
    }
    SearchLeftmost(Bold, s, i, n);
    assert s[i + 2..i + n - 2] == t;
  }

  /** Conversely, the quoted span after a stretch free of `"` is the first one and is read out whole. */
  lemma ExtractQuotedSpan(a: String, t: String, b: String)
    requires '"' !in a && '"' !in t && |t| >= 1
    ensures Extract(Quoted, a + "\"" + t + "\"" + b) == t
  {
    var s := a + "\"" + t + "\"" + b;
    var i := |a|;
    var n := |t| + 2;
    assert s[i] == '"' && s[i + n - 1] == '"';
    forall k | i + 1 <= k < i + n - 1 ensures s[k] != '"' {
      assert s[k] == t[k - i - 1];
    }
    QuotedMatchIff(s, i, n);
    forall j | 0 <= j < i ensures MatchAt(Quoted, s, j).None? {
      assert s[j] == a[j];
    }
    SearchLeftmost(Quoted, s, i, n);
    assert s[i + 1..i + n - 1] == t;
  }

  /** A string in which no `$` is followed by a digit holds no price. */
  lemma ExtractPriceNone(s: String)
    requires forall i :: 0 <= i < |s| && s[i] == '$' ==> i + 1 < |s| && !IsDigit(s[i + 1])
    ensures Extract(Price, s) == []
  {
  }

  /** Conversely, a price token after a stretch free of `$`, and not followed by a
      digit, is the first price and is read out whole. */
  lemma ExtractPriceSpan(a: String, t: String, b: String)
    requires '$' !in a && IsPriceToken(t) && (b == [] || !IsDigit(b[0]))
    ensures Extract(Price, a + t + b) == t
  {
    var s := a + t + b;
    var i := |a|;
    assert s[i..i + |t|] == t;
    if b != [] {
      assert s[i + |t|] == b[0];
    }
    PriceMatchComplete(s, i, |t|);
    forall j | 0 <= j < i ensures MatchAt(Price, s, j).None? {
      assert s[j] == a[j];
    }
    SearchLeftmost(Price, s, i, |t|);
  }
}
