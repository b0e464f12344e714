/**
  The JavaScript string built-ins the formatter and the API wrapper rely on
  (`startsWith`, `indexOf`/`includes`, `split`, `replace` with a string
  pattern, `trim`, `substring`), written over `seq<char>`.
 */
module JsString {
  import opened Wrappers

  type String = seq<char>

  /** ECMAScript WhiteSpace and LineTerminator code points: exactly the set that
      `String.prototype.trim` strips and that the regular-expression class `\s` matches. */
  predicate IsWhitespace(c: char) {
    || c == '\t' || c == '\n' || c == '\U{000B}' || c == '\U{000C}' || c == '\r'
    || c == ' ' || c == '\U{00A0}' || c == '\U{1680}'
    || ('\U{2000}' <= c <= '\U{200A}')
    || c == '\U{2028}' || c == '\U{2029}' || c == '\U{202F}' || c == '\U{205F}'
    || c == '\U{3000}' || c == '\U{FEFF}'
  }

  predicate AllWhitespace(s: String) {
    forall i :: 0 <= i < |s| ==> IsWhitespace(s[i])
  }

  /** `s.startsWith(p)` */
  predicate StartsWith(s: String, p: String) {
    |p| <= |s| && s[..|p|] == p
  }

  /** `pat` occurs in `s` starting at index `j`. */
  predicate OccursAt(s: String, pat: String, j: int) {
    0 <= j && j + |pat| <= |s| && s[j..j + |pat|] == pat
  }

  /** `s.indexOf(pat, from)`, with `None` for -1: the leftmost occurrence at or after `from`. */
  function IndexOfFrom(s: String, pat: String, from: nat): (r: Option<nat>)
    ensures r.Some? ==> from <= r.value && OccursAt(s, pat, r.value)
    ensures r.Some? ==> forall j :: from <= j < r.value ==> !OccursAt(s, pat, j)
    ensures r.None? ==> forall j :: from <= j ==> !OccursAt(s, pat, j)
    decreases |s| - from
  {
    if |s| < from + |pat| then None
    else if OccursAt(s, pat, from) then Some(from)
    else IndexOfFrom(s, pat, from + 1)
  }

  /** `s.indexOf(pat)` */
  function IndexOf(s: String, pat: String): Option<nat> {
    IndexOfFrom(s, pat, 0)
  }

  /** `s.includes(pat)` */
  predicate Contains(s: String, pat: String) {
    IndexOf(s, pat).Some?
  }

  /** `s.split(sep)` for a non-empty separator: the pieces between the
      successive leftmost, non-overlapping occurrences of `sep`. */
  function Split(s: String, sep: String): (parts: seq<String>)
    requires |sep| > 0
    ensures |parts| >= 1
    ensures Contains(s, sep) ==> |parts| >= 2
    decreases |s|
  {
    match IndexOf(s, sep)
    case None => [s]
    case Some(i) => [s[..i]] + Split(s[i + |sep|..], sep)
  }

  /** `s.split(sep)` for any separator: the empty separator splits into single
      characters (and the empty string into no pieces at all). */
  function SplitBy(s: String, sep: String): (parts: seq<String>)
    ensures sep == [] ==> |parts| == |s| && forall i :: 0 <= i < |s| ==> parts[i] == [s[i]]
    ensures sep != [] ==> parts == Split(s, sep)
  {
    if sep == [] then seq(|s|, i requires 0 <= i < |s| => [s[i]]) else Split(s, sep)
  }

  /** `parts[k] || ''`: a missing piece and an empty piece both read as `''`. */
  function ItemOr(parts: seq<String>, k: nat): String {
    if k < |parts| then parts[k] else []
  }

  /** `parts.join(sep)` */
  function Join(parts: seq<String>, sep: String): String {
    if |parts| == 0 then []
    else if |parts| == 1 then parts[0]
    else parts[0] + sep + Join(parts[1..], sep)
  }

  /** `s.replace(pat, replacement)` with a string pattern: only the leftmost occurrence is replaced. */
  function ReplaceFirst(s: String, pat: String, replacement: String): (r: String)
    ensures StartsWith(s, pat) ==> r == replacement + s[|pat|..]
    ensures !Contains(s, pat) ==> r == s
  {
    match IndexOf(s, pat)
    case None => s
    case Some(i) => s[..i] + replacement + s[i + |pat|..]
  }

  /** `s.substring(start)` */
  function Substring(s: String, start: nat): String {
    if start <= |s| then s[start..] else []
  }

  /** Leading whitespace removed. */
  function TrimStart(s: String): (r: String)
    ensures |r| <= |s| && r == s[|s| - |r|..]
    ensures r == [] || !IsWhitespace(r[0])
    decreases |s|
  {
    if |s| > 0 && IsWhitespace(s[0]) then TrimStart(s[1..]) else s
  }

  /** Trailing whitespace removed. */
  function TrimEnd(s: String): (r: String)
    ensures |r| <= |s| && r == s[..|r|]
    ensures r == [] || !IsWhitespace(r[|r| - 1])
    decreases |s|
  {
    if |s| > 0 && IsWhitespace(s[|s| - 1]) then TrimEnd(s[..|s| - 1]) else s
  }

  /** What `TrimStart` removes is whitespace. */
  lemma {:induction false} TrimStartDrops(s: String)
    ensures AllWhitespace(s[..|s| - |TrimStart(s)|])
    decreases |s|
  {
    if |s| > 0 && IsWhitespace(s[0]) {
      TrimStartDrops(s[1..]);
      WhitespaceCons(s, |s| - |TrimStart(s[1..])|);
    }
  }

  /** A whitespace character before a whitespace run makes a longer run. */
  lemma WhitespaceCons(s: String, k: nat)
    requires 0 < k <= |s| && IsWhitespace(s[0]) && AllWhitespace(s[1..][..k - 1])
    ensures AllWhitespace(s[..k])
  {
    forall i | 0 <= i < k ensures IsWhitespace(s[..k][i]) {
      if i > 0 {
        assert s[..k][i] == s[1..][..k - 1][i - 1];
      }
    }
  }

  /** What `TrimEnd` removes is whitespace. */
  lemma {:induction false} TrimEndDrops(s: String)
    ensures AllWhitespace(s[|TrimEnd(s)|..])
    decreases |s|
  {
    if |s| > 0 && IsWhitespace(s[|s| - 1]) {
      var r := TrimEnd(s[..|s| - 1]);
      TrimEndDrops(s[..|s| - 1]);
      assert r == s[..|r|];
      assert s[|r|..] == s[..|s| - 1][|r|..] + [s[|s| - 1]];
      WhitespaceAppend(s[..|s| - 1][|r|..], [s[|s| - 1]]);
    }
  }

  /** Trimming the end keeps every character up to the last one that is not whitespace. */
  lemma TrimEndKeeps(s: String, k: nat)
    requires k < |s| && !IsWhitespace(s[k])
    ensures k < |TrimEnd(s)|
  {
    var r := |TrimEnd(s)|;
    TrimEndDrops(s);
    forall j | r <= j < |s|
      ensures IsWhitespace(s[j])
    {
      assert s[r..][j - r] == s[j];
    }
  }

  /** `s.trim()` */
  function Trim(s: String): (r: String)
    ensures |r| <= |s|
    ensures r == [] || (!IsWhitespace(r[0]) && !IsWhitespace(r[|r| - 1]))
  {
    var t := TrimStart(s);
    var r := TrimEnd(t);
    assert r != [] ==> r[0] == t[0];
    r
  }

  /** Two strings are all whitespace exactly when their concatenation is. */
  lemma WhitespaceAppend(a: String, b: String)
    ensures AllWhitespace(a + b) <==> AllWhitespace(a) && AllWhitespace(b)
  {
    if AllWhitespace(a) && AllWhitespace(b) {
      forall i | 0 <= i < |a + b| ensures IsWhitespace((a + b)[i]) {
        if i < |a| { assert (a + b)[i] == a[i]; } else { assert (a + b)[i] == b[i - |a|]; }
      }
    }
    if AllWhitespace(a + b) {
      forall i | 0 <= i < |a| ensures IsWhitespace(a[i]) { assert (a + b)[i] == a[i]; }
      forall i | 0 <= i < |b| ensures IsWhitespace(b[i]) { assert (a + b)[|a| + i] == b[i]; }
    }
  }

  /** Number of whitespace characters `trim` removes from the front. */
  function LeadingWhitespace(s: String): nat {
    |s| - |TrimStart(s)|
  }

  // ---------------------------------------------------------------- lemmas

  /** The leftmost occurrence is the one `indexOf` reports. */
  lemma IndexOfLeftmost(s: String, pat: String, i: nat)
    requires OccursAt(s, pat, i)
    requires forall j :: 0 <= j < i ==> !OccursAt(s, pat, j)
    ensures IndexOf(s, pat) == Some(i)
  {
  }

  /** A slice is the concatenation of the three slices it is cut into. */
  lemma SliceIn3(s: String, i: nat, j: nat, k: nat, l: nat)
    requires i <= j <= k <= l <= |s|
    ensures s[i..l] == s[i..j] + s[j..k] + s[k..l]
  {
    assert s[i..l] == s[i..j] + s[j..l];
    assert s[j..l] == s[j..k] + s[k..l];
  }

  /** An occurrence anywhere means `includes` holds. */
  lemma OccursContains(s: String, pat: String, j: nat)
    requires OccursAt(s, pat, j)
    ensures Contains(s, pat)
  {
  }

  /** A prefix of `s` that ends before the first occurrence of `pat` does not contain it. */
  lemma {:induction false} NoOccurrenceBefore(s: String, pat: String, i: nat)
    requires i <= |s|
    requires forall j :: 0 <= j < i ==> !OccursAt(s, pat, j)
    ensures !Contains(s[..i], pat) || pat == []
  {
    if pat != [] && Contains(s[..i], pat) {
      var j := IndexOf(s[..i], pat).value;
      assert s[..i][j..j + |pat|] == s[j..j + |pat|];
      assert OccursAt(s, pat, j);
    }
  }

  /** `split` followed by `join` gives the string back. */
  lemma {:induction false} SplitJoin(s: String, sep: String)
    requires |sep| > 0
    ensures Join(Split(s, sep), sep) == s
    decreases |s|
  {
    var r := IndexOf(s, sep);
    if r.Some? {
      var i := r.value;
      var rest := s[i + |sep|..];
      var tail := Split(rest, sep);
      SplitJoin(rest, sep);
      calc {
        Join(Split(s, sep), sep);
        Join([s[..i]] + tail, sep);
        { assert ([s[..i]] + tail)[1..] == tail; }
        s[..i] + sep + Join(tail, sep);
        s[..i] + s[i..i + |sep|] + rest;
        s;
      }
    }
  }

  /** No piece of a `split` contains the separator. */
  lemma {:induction false} SplitPiecesAvoidSeparator(s: String, sep: String)
    requires |sep| > 0
    ensures forall k :: 0 <= k < |Split(s, sep)| ==> !Contains(Split(s, sep)[k], sep)
    decreases |s|
  {
    var r := IndexOf(s, sep);
    if r.Some? {
      var i := r.value;
      var rest := s[i + |sep|..];
      SplitPiecesAvoidSeparator(rest, sep);
      NoOccurrenceBefore(s, sep, i);
      assert Split(s, sep) == [s[..i]] + Split(rest, sep);
    }
  }

  /** Splitting on one character gives one piece more than there are occurrences of it. */
  lemma {:induction false} SplitCount(s: String, c: char)
    ensures |Split(s, [c])| == multiset(s)[c] + 1
    decreases |s|
  {
    var r := IndexOf(s, [c]);
    if r.None? {
      CharAbsent(s, c, |s|);
      assert s[..|s|] == s;
    } else {
      var i := r.value;
      var rest := s[i + 1..];
      SplitCount(rest, c);
      SplitFirst(s, [c], i);
      CharAbsent(s, c, i);
      assert s == s[..i] + [c] + rest by {
        assert s[i..i + 1] == [c];
      }
      assert multiset(s) == multiset(s[..i]) + multiset([c]) + multiset(rest);
    }
  }

  /** A character that does not occur before index `i` is absent from `s[..i]`. */
  lemma CharAbsent(s: String, c: char, i: nat)
    requires i <= |s|
    requires forall j :: 0 <= j < i ==> !OccursAt(s, [c], j)
    ensures multiset(s[..i])[c] == 0
  {
    forall j | 0 <= j < i ensures s[..i][j] != c {
      assert !OccursAt(s, [c], j);
      assert s[j..j + 1] == [s[j]];
    }
    assert c !in s[..i];
  }

  /** Splitting on one character is local: the text on either side of one
      occurrence splits independently. */
  lemma {:induction false} SplitAround(a: String, c: char, b: String)
    ensures Split(a + [c] + b, [c]) == Split(a, [c]) + Split(b, [c])
    decreases |a|
  {
    var s := a + [c] + b;
    FirstOccurrenceAround(a, c, b);
    var r := IndexOf(a, [c]);
    if r.Some? {
      var i := r.value;
      var tail := a[i + 1..];
      SplitAround(tail, c, b);
      SplitFirst(a, [c], i);
      SplitFirst(s, [c], i);
      AppendSlices(a, c, b, i);
      ConsAssoc(a[..i], Split(tail, [c]), Split(b, [c]));
    } else {
      assert s[..|a|] == a && s[|a| + 1..] == b;
    }
  }

  lemma AppendSlices(a: String, c: char, b: String, i: nat)
    requires i < |a|
    ensures (a + [c] + b)[..i] == a[..i]
    ensures (a + [c] + b)[i + 1..] == a[i + 1..] + [c] + b
  {
  }

  lemma ConsAssoc(x: String, p: seq<String>, q: seq<String>)
    ensures [x] + (p + q) == ([x] + p) + q
  {
  }

  /** `split` cuts at the first occurrence of the separator and goes on after it. */
  lemma SplitFirst(s: String, sep: String, i: nat)
    requires |sep| > 0 && IndexOf(s, sep) == Some(i)
    ensures i + |sep| <= |s|
    ensures Split(s, sep) == [s[..i]] + Split(s[i + |sep|..], sep)
  {
    assert OccursAt(s, sep, i) && i + |sep| <= |s|;
  }

  /** In `a + [c] + b` the first `c` is the first one of `a`, or the one after `a`. */
  lemma FirstOccurrenceAround(a: String, c: char, b: String)
    ensures IndexOf(a + [c] + b, [c]) == Some(if IndexOf(a, [c]).Some? then IndexOf(a, [c]).value else |a|)
  {
    var s := a + [c] + b;
    var r := IndexOf(a, [c]);
    var i := if r.Some? then r.value else |a|;
    assert OccursAt(s, [c], i) by {
      if r.Some? { assert OccursAt(a, [c], i); }
      assert s[i..i + 1] == [s[i]];
    }
    forall j | 0 <= j < i ensures !OccursAt(s, [c], j) {
      assert !OccursAt(a, [c], j);
      assert s[j..j + 1] == a[j..j + 1];
    }
    IndexOfLeftmost(s, [c], i);
  }

  /** `trim` is empty exactly on whitespace-only strings. */
  lemma TrimEmptyIff(s: String)
    ensures Trim(s) == [] <==> AllWhitespace(s)
  {
    var t := TrimStart(s);
    var k := |s| - |t|;
    if Trim(s) == [] {
      TrimStartDrops(s);
      TrimEndDrops(t);
      assert t[|TrimEnd(t)|..] == t;
      assert s == s[..k] + t;
      WhitespaceAppend(s[..k], t);
    } else {
      assert Trim(s) == TrimEnd(t);
      assert t != [] && s[k] == t[0];
      assert !IsWhitespace(s[k]);
    }
  }

  /** `trim` removes only whitespace, from both ends, and keeps the middle intact. */
  lemma TrimIsInfix(s: String)
    ensures var lead := LeadingWhitespace(s);
      && lead + |Trim(s)| <= |s|
      && Trim(s) == s[lead..lead + |Trim(s)|]
      && AllWhitespace(s[..lead])
      && AllWhitespace(s[lead + |Trim(s)|..])
  {
    TrimMiddle(s);
    TrimTail(s);
    TrimStartDrops(s);
  }

  /** What `trim` keeps is the slice after the leading whitespace. */
  lemma TrimMiddle(s: String)
    ensures LeadingWhitespace(s) + |Trim(s)| <= |s|
    ensures Trim(s) == s[LeadingWhitespace(s)..LeadingWhitespace(s) + |Trim(s)|]
  {
    var t := TrimStart(s);
    var r := TrimEnd(t);
    assert Trim(s) == r;
    assert t == s[|s| - |t|..] && r == t[..|r|];
  }

  /** What `trim` drops from the end is whitespace. */
  lemma TrimTail(s: String)
    ensures LeadingWhitespace(s) + |Trim(s)| <= |s|
    ensures AllWhitespace(s[LeadingWhitespace(s) + |Trim(s)|..])
  {
    var t := TrimStart(s);
    var r := TrimEnd(t);
    assert Trim(s) == r;
    TrimEndDrops(t);
    assert s[|s| - |t| + |r|..] == t[|r|..];
  }

  /** `trim` of a string padded with whitespace around a core that neither
      begins nor ends with whitespace is that core. */
  lemma TrimPadded(a: String, m: String, b: String)
    requires AllWhitespace(a) && AllWhitespace(b)
    requires m == [] || (!IsWhitespace(m[0]) && !IsWhitespace(m[|m| - 1]))
    ensures Trim(a + m + b) == m
  {
    if m == [] {
      assert a + m + b == (a + b) + [];
      TrimStartSkips(a + b, []);
    } else {
      assert a + m + b == a + (m + b);
      TrimStartSkips(a, m + b);
      TrimEndSkips(m, b);
    }
  }

  /** Removing leading whitespace from whitespace followed by a text that does not
      begin with whitespace leaves that text. */
  lemma {:induction false} TrimStartSkips(a: String, m: String)
    requires AllWhitespace(a) && (m == [] || !IsWhitespace(m[0]))
    ensures TrimStart(a + m) == m
    decreases |a|
  {
    if a == [] {
      assert a + m == m;
    } else {
      assert (a + m)[0] == a[0] && (a + m)[1..] == a[1..] + m;
      TrimStartSkips(a[1..], m);
    }
  }

  /** Removing trailing whitespace from a text that does not end with whitespace,
      followed by whitespace, leaves that text. */
  lemma {:induction false} TrimEndSkips(m: String, b: String)
    requires AllWhitespace(b) && (m == [] || !IsWhitespace(m[|m| - 1]))
    ensures TrimEnd(m + b) == m
    decreases |b|
  {
    if b == [] {
      assert m + b == m;
    } else {
      var n := |m + b|;
      assert (m + b)[n - 1] == b[|b| - 1] && (m + b)[..n - 1] == m + b[..|b| - 1];
      TrimEndSkips(m, b[..|b| - 1]);
    }
  }

  /** A string with no whitespace at its ends is its own trim. */
  lemma TrimUntouched(m: String)
    requires m == [] || (!IsWhitespace(m[0]) && !IsWhitespace(m[|m| - 1]))
    ensures Trim(m) == m
  {
    TrimPadded([], m, []);
    assert [] + m + [] == m;
  }

  /** `trim` is idempotent. */
  lemma TrimIdempotent(s: String)
    ensures Trim(Trim(s)) == Trim(s)
  {
    TrimPadded([], Trim(s), []);
    assert [] + Trim(s) + [] == Trim(s);
  }

  /** A string that contains `x + y` contains `x`. */
  lemma ContainsPrefix(s: String, x: String, y: String)
    requires Contains(s, x + y)
    ensures Contains(s, x)
  {
    var j := IndexOf(s, x + y).value;
    assert s[j..j + |x|] == (x + y)[..|x|];
    OccursContains(s, x, j);
  }

  /** Every character of a pattern that occurs in `s` is a character of `s`. */
  lemma ContainedChar(s: String, pat: String, k: nat)
    requires Contains(s, pat) && k < |pat|
    ensures pat[k] in s
  {
    var j := IndexOf(s, pat).value;
    assert s[j + k] == s[j..j + |pat|][k];
  }

  /** The joined string begins with the first piece, the separator and the second piece. */
  lemma JoinHead(parts: seq<String>, sep: String)
    requires |parts| >= 1
    ensures StartsWith(Join(parts, sep), parts[0])
    ensures |parts| >= 2 ==> StartsWith(Join(parts, sep), parts[0] + sep + parts[1])
  {
    if |parts| >= 2 {
      var rest := Join(parts[1..], sep);
      assert StartsWith(rest, parts[1]) by { JoinHead(parts[1..], sep); }
      assert Join(parts, sep) == (parts[0] + sep) + rest;
      assert (parts[0] + sep + parts[1])[..|parts[0]|] == parts[0];
    }
  }

  /** Prefixes compose: if `s` begins with `a + b` and `b` begins with `c`, then `s` begins with `a + c`. */
  lemma StartsWithThrough(s: String, a: String, b: String, c: String)
    requires StartsWith(s, a + b) && StartsWith(b, c)
    ensures StartsWith(s, a + c)
  {
    assert s[..|a + c|] == (a + b)[..|a + c|];
  }

  /** A non-empty trimmed string begins with the first character of `s` unless `s` begins with whitespace. */
  lemma TrimFirstChar(s: String)
    requires Trim(s) != []
    ensures IsWhitespace(s[0]) || s[0] == Trim(s)[0]
  {
    TrimIsInfix(s);
    if LeadingWhitespace(s) > 0 {
      assert s[..LeadingWhitespace(s)][0] == s[0];
    }
  }

  /** The first two pieces of a split on a separator that occurs: the string
      begins with them joined by the separator, and neither holds the separator. */
  lemma SplitHead(s: String, sep: String)
    requires |sep| > 0 && Contains(s, sep)
    ensures var parts := Split(s, sep);
      && StartsWith(s, parts[0] + sep + parts[1])
      && !Contains(parts[0], sep) && !Contains(parts[1], sep)
  {
    var parts := Split(s, sep);
    SplitJoin(s, sep);
    JoinHead(parts, sep);
    SplitPiecesAvoidSeparator(s, sep);
  }

  /** The first piece of any split begins the string and does not hold the separator. */
  lemma SplitFirstPiece(s: String, sep: String)
    requires |sep| > 0
    ensures StartsWith(s, Split(s, sep)[0]) && !Contains(Split(s, sep)[0], sep)
  {
    SplitJoin(s, sep);
    JoinHead(Split(s, sep), sep);
    SplitPiecesAvoidSeparator(s, sep);
  }

  /** `p` is `s` cut at the leftmost occurrence of `sep`: all of `s` when there is none. */
  predicate CutAtFirst(s: String, sep: String, p: String) {
    && StartsWith(s, p)
    && (forall j :: 0 <= j < |p| ==> !OccursAt(s, sep, j))
    && (p == s || OccursAt(s, sep, |p|))
  }

  /** The cut is unique: a string has one prefix up to the first occurrence of `sep`. */
  lemma CutAtFirstUnique(s: String, sep: String, p: String, q: String)
    requires CutAtFirst(s, sep, p) && CutAtFirst(s, sep, q)
    ensures p == q
  {
    assert p == s[..|p|] && q == s[..|q|];
  }

  /** `p` is the text after the first occurrence of `sep` in `s`, cut at the next one. */
  predicate AfterFirst(s: String, sep: String, p: String) {
    match IndexOf(s, sep)
    case None => false
    case Some(i) => i + |sep| <= |s| && CutAtFirst(s[i + |sep|..], sep, p)
  }

  /** The first piece of a split is the string cut at the first separator. */
  lemma FirstPieceStops(s: String, sep: String)
    requires |sep| > 0
    ensures var p := Split(s, sep)[0];
      CutAtFirst(s, sep, p) && !Contains(p, sep)
  {
    var p := Split(s, sep)[0];
    match IndexOf(s, sep)
    case None =>
      assert p == s;
    case Some(k) =>
      assert p == s[..k];
      NoOccurrenceBefore(s, sep, k);
  }

  /** `s.split(sep)[1] || ''` where `sep` occurs: the text after the first
      separator, cut at the next one. */
  lemma SecondPieceStops(s: String, sep: String)
    requires |sep| > 0 && Contains(s, sep)
    ensures var i := IndexOf(s, sep).value;
      var p := ItemOr(Split(s, sep), 1);
      && i + |sep| <= |s|
      && CutAtFirst(s[i + |sep|..], sep, p) && !Contains(p, sep)
      && AfterFirst(s, sep, p)
  {
    var i := IndexOf(s, sep).value;
    SplitFirst(s, sep, i);
    assert ItemOr(Split(s, sep), 1) == Split(s[i + |sep|..], sep)[0];
    FirstPieceStops(s[i + |sep|..], sep);
  }

  /** A string that begins with `p + q` begins with `p`. */
  lemma StartsWithPrefix(s: String, p: String, q: String)
    requires StartsWith(s, p + q)
    ensures StartsWith(s, p)
  {
    assert s[..|p|] == (p + q)[..|p|];
  }

  /** A string that begins with `p` is `p` followed by the rest. */
  lemma DropPrefix(s: String, p: String)
    requires StartsWith(s, p)
    ensures s == p + s[|p|..]
  {
    assert s == s[..|p|] + s[|p|..];
  }

  /** A string that lacks one of the characters of `pat` does not contain `pat`. */
  lemma LacksChar(s: String, pat: String, k: nat)
    requires k < |pat| && pat[k] !in s
    ensures !Contains(s, pat)
  {
    if Contains(s, pat) {
      ContainedChar(s, pat, k);
    }
  }

  /** Beginning with a short string is beginning with its characters, one by one. */
  lemma StartsWithChars(s: String, p: String)
    requires 2 <= |p| <= 4
    ensures StartsWith(s, p) <==>
      && |p| <= |s| && s[0] == p[0] && s[1] == p[1]
      && (|p| >= 3 ==> s[2] == p[2]) && (|p| >= 4 ==> s[3] == p[3])
  {
    if |p| <= |s| && s[0] == p[0] && s[1] == p[1] && (|p| >= 3 ==> s[2] == p[2]) && (|p| >= 4 ==> s[3] == p[3]) {
      assert forall k :: 0 <= k < |p| ==> s[..|p|][k] == p[k];
    }
    if StartsWith(s, p) {
      assert forall k :: 0 <= k < |p| ==> s[k] == s[..|p|][k];
    }
  }

  /** A string holding the character `c` contains the one-character string `[c]`. */
  lemma CharContained(s: String, c: char)
    requires c in s
    ensures Contains(s, [c])
  {
    var j :| 0 <= j < |s| && s[j] == c;
    assert s[j..j + 1] == [c];
    OccursContains(s, [c], j);
  }

  /** An occurrence with no copy of the pattern's first character before it is the leftmost one. */
  lemma IndexOfAfterFree(s: String, pat: String, i: nat)
    requires |pat| > 0 && OccursAt(s, pat, i) && pat[0] !in s[..i]
    ensures IndexOf(s, pat) == Some(i)
  {
    forall j | 0 <= j < i ensures !OccursAt(s, pat, j) {
      assert s[..i][j] == s[j] != pat[0];
      assert j + |pat| <= |s| ==> s[j..j + |pat|][0] == s[j];
    }
    IndexOfLeftmost(s, pat, i);
  }
}
