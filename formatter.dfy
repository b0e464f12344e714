/**
  `formatAnalysis` of the home page: the analysis text is split on line
  feeds and every line becomes exactly one block. The rules are tried in
  source order and the first that applies decides the kind of the block and
  the fields read out of the line. Only the kind and the fields are
  modelled; the markup each block is rendered to is not.
 */
module Formatter {
  import opened Wrappers
  import opened JsString
  import opened Patterns

  /** The ten kinds of block, with the fields the renderer shows. */
  datatype Block =
    | H2(title: String)
    | H3(title: String)
    | Verdict(prefix: String, verdictContent: String, remainder: String)
    | NumberedTitle(number: String, title: String)
    | NumberedItem(number: String, title: String, rest: String)
    | PricedBullet(brand: String, itemName: String, price: String, afterPrice: String)
    | IndentedBullet(text: String)
    | Bullet(text: String)
    | Spacer
    | Paragraph(text: String)

  const VerdictMarker: String := "**Verdict:"

  // ---------------------------------------------------------------- the guards, in source order
  // The `startsWith` tests of the source are written out character by character;
  // `PrefixGuards` below shows that each is the `StartsWith` it stands for.

  /** `line.startsWith('## ')` */
  predicate IsH2Line(line: String) {
    |line| >= 3 && line[0] == '#' && line[1] == '#' && line[2] == ' '
  }

  /** `line.startsWith('### ')` */
  predicate IsH3Line(line: String) {
    |line| >= 4 && line[0] == '#' && line[1] == '#' && line[2] == '#' && line[3] == ' '
  }

  predicate IsVerdictLine(line: String) {
    Contains(line, VerdictMarker)
  }

  /** `t.startsWith('- ')` */
  predicate OpensDash(t: String) {
    |t| >= 2 && t[0] == '-' && t[1] == ' '
  }

  /** `t.startsWith('- **')` */
  predicate OpensDashBold(t: String) {
    |t| >= 4 && t[0] == '-' && t[1] == ' ' && t[2] == '*' && t[3] == '*'
  }

  /** `line.startsWith('   -')` */
  predicate OpensIndentedDash(line: String) {
    |line| >= 4 && line[0] == ' ' && line[1] == ' ' && line[2] == ' ' && line[3] == '-'
  }

  /** Trimmed line opens with `- **` and the raw line holds a `"` and a `$`;
      no price need actually be present. */
  predicate IsPricedBulletLine(line: String) {
    OpensDashBold(Trim(line)) && Contains(line, "\"") && Contains(line, "$")
  }

  /** Trimmed line opens with `- ` and the raw line with three spaces and a dash. */
  predicate IsIndentedBulletLine(line: String) {
    OpensDash(Trim(line)) && OpensIndentedDash(line)
  }

  predicate IsBulletLine(line: String) {
    OpensDash(Trim(line))
  }

  predicate IsBlankLine(line: String) {
    Trim(line) == []
  }

  /** Each character test is the `startsWith` it stands for. */
  lemma PrefixGuards(s: String)
    ensures IsH2Line(s) <==> StartsWith(s, "## ")
    ensures IsH3Line(s) <==> StartsWith(s, "### ")
    ensures OpensDash(s) <==> StartsWith(s, "- ")
    ensures OpensDashBold(s) <==> StartsWith(s, "- **")
    ensures OpensIndentedDash(s) <==> StartsWith(s, "   -")
  {
    StartsWithChars(s, "## ");
    StartsWithChars(s, "### ");
    StartsWithChars(s, "- ");
    StartsWithChars(s, "- **");
    StartsWithChars(s, "   -");
  }

  // ---------------------------------------------------------------- field extraction

  /** `line.replace(marker, '').trim()` */
  function HeadingTitle(line: String, marker: String): String {
    Trim(ReplaceFirst(line, marker, []))
  }

  /** `[prefix, content] = line.split('**Verdict:')`, then the first two
      `**`-separated pieces of `content`, the second read as `x || ''`. */
  function VerdictOf(line: String): (b: Block)
    requires IsVerdictLine(line)
    ensures b.Verdict?
  {
    var parts := Split(line, VerdictMarker);
    var pieces := Split(parts[1], "**");
    Verdict(parts[0], pieces[0], ItemOr(pieces, 1))
  }

  /** `line.replace(/^\d+\.\s\*\*[^*]+\*\*:/, '').trim()` on a numbered item. */
  function NumberedRest(line: String): String
    requires IsNumberedItem(line)
  {
    Trim(line[NumberedHead(line).value + 1..])
  }

  /** The text after the first occurrence of the price, `''` when there is no price. */
  function AfterPrice(line: String, price: String): String {
    if price == [] then [] else ItemOr(Split(line, price), 1)
  }

  /** `line.split(price)[1] || ''` exactly as written: with no price found,
      `price` is `''` and the line is split into single characters. */
  function AfterPriceAsWritten(line: String, price: String): String {
    ItemOr(SplitBy(line, price), 1)
  }

  /** Where a price was found the two readings agree. */
  lemma AfterPriceAgrees(line: String, price: String)
    requires price != []
    ensures AfterPriceAsWritten(line, price) == AfterPrice(line, price)
  {
  }

  /** Where no price was found the source splits the line on `''`, which cuts it
      into single characters: the text "after the price" is then the line's second
      character, where the intended reading is `''`. */
  lemma AfterPriceAsWrittenNoPrice(line: String)
    requires |line| >= 2
    ensures AfterPriceAsWritten(line, []) == [line[1]]
    ensures AfterPrice(line, []) == []
  {
  }

  function PricedBulletOf(line: String): Block {
    var price := Extract(Price, line);
    PricedBullet(Extract(Bold, line), Extract(Quoted, line), price, AfterPrice(line, price))
  }

  // ---------------------------------------------------------------- the classifier

  /** The block one line becomes: the first rule whose guard holds wins. */
  function Classify(line: String): Block {
    if IsH2Line(line) then H2(HeadingTitle(line, "## "))
    else if IsH3Line(line) then H3(HeadingTitle(line, "### "))
    else if IsVerdictLine(line) then VerdictOf(line)
    else if IsNumberedTitle(line) then NumberedTitle(LeadingDigits(line), Extract(Bold, line))
    else if IsNumberedItem(line) then NumberedItem(LeadingDigits(line), Extract(Bold, line), NumberedRest(line))
    else if IsPricedBulletLine(line) then PricedBulletOf(line)
    else if IsIndentedBulletLine(line) then IndentedBullet(Substring(Trim(line), 2))
    else if IsBulletLine(line) then Bullet(Substring(Trim(line), 2))
    else if IsBlankLine(line) then Spacer
    else Paragraph(line)
  }

  /** Which rule a line falls under: each kind of block comes from its own guard,
      and only when every earlier guard fails. */
  lemma ClassifyKind(line: String)
    ensures Classify(line).H2? <==> IsH2Line(line)
    ensures Classify(line).H3? <==> !IsH2Line(line) && IsH3Line(line)
    ensures Classify(line).Verdict? <==> !IsH2Line(line) && !IsH3Line(line) && IsVerdictLine(line)
    ensures Classify(line).NumberedTitle? <==>
      !IsH2Line(line) && !IsH3Line(line) && !IsVerdictLine(line) && IsNumberedTitle(line)
    ensures Classify(line).NumberedItem? <==>
      !IsH2Line(line) && !IsH3Line(line) && !IsVerdictLine(line) && !IsNumberedTitle(line) && IsNumberedItem(line)
    ensures Classify(line).PricedBullet? <==>
      && !IsH2Line(line) && !IsH3Line(line) && !IsVerdictLine(line) && !IsNumberedTitle(line) && !IsNumberedItem(line)
      && IsPricedBulletLine(line)
    ensures Classify(line).IndentedBullet? <==>
      && !IsH2Line(line) && !IsH3Line(line) && !IsVerdictLine(line) && !IsNumberedTitle(line) && !IsNumberedItem(line)
      && !IsPricedBulletLine(line) && IsIndentedBulletLine(line)
    ensures Classify(line).Bullet? <==>
      && !IsH2Line(line) && !IsH3Line(line) && !IsVerdictLine(line) && !IsNumberedTitle(line) && !IsNumberedItem(line)
      && !IsPricedBulletLine(line) && !IsIndentedBulletLine(line) && IsBulletLine(line)
    ensures Classify(line).Spacer? <==>
      && !IsH2Line(line) && !IsH3Line(line) && !IsVerdictLine(line) && !IsNumberedTitle(line) && !IsNumberedItem(line)
      && !IsPricedBulletLine(line) && !IsBulletLine(line) && IsBlankLine(line)
    ensures Classify(line).Paragraph? <==>
      && !IsH2Line(line) && !IsH3Line(line) && !IsVerdictLine(line) && !IsNumberedTitle(line) && !IsNumberedItem(line)
      && !IsPricedBulletLine(line) && !IsBulletLine(line) && !IsBlankLine(line)
  {
    if IsH2Line(line) {
    } else if IsH3Line(line) {
    } else if IsVerdictLine(line) {
    } else if IsNumberedTitle(line) {
    } else if IsNumberedItem(line) {
    } else if IsPricedBulletLine(line) {
    } else if IsIndentedBulletLine(line) {
    } else if IsBulletLine(line) {
    } else if IsBlankLine(line) {
    }
  }

  /** `lines.map(f)` */
  function MapLines(f: String -> Block, lines: seq<String>): seq<Block> {
    seq(|lines|, i requires 0 <= i < |lines| => f(lines[i]))
  }

  /** `formatAnalysis(text)`: one block per line of `text.split('\n')`. */
  function Format(text: String): seq<Block> {
    MapLines(Classify, Split(text, "\n"))
  }

  /** Mapping distributes over concatenation. */
  lemma MapLinesAppend(f: String -> Block, xs: seq<String>, ys: seq<String>)
    ensures MapLines(f, xs + ys) == MapLines(f, xs) + MapLines(f, ys)
  {
    assert forall i :: 0 <= i < |xs| + |ys| ==>
      (xs + ys)[i] == if i < |xs| then xs[i] else ys[i - |xs|];
  }

  // ---------------------------------------------------------------- one block per line

  /** There is one block per line: one more than there are line feeds. */
  lemma FormatLength(text: String)
    ensures |Format(text)| == multiset(text)['\n'] + 1
  {
    SplitCount(text, '\n');
  }

  /** The empty text is one empty line, which is a spacer. */
  lemma FormatEmpty()
    ensures Format([]) == [Spacer]
  {
    assert Split([], "\n") == [[]];
    SpacerIff([]);
  }

  /** Lines are classified independently: formatting two texts joined by a
      line feed is formatting each and concatenating the blocks. */
  lemma FormatConcat(a: String, b: String)
    ensures Format(a + "\n" + b) == Format(a) + Format(b)
  {
    SplitAround(a, '\n', b);
    MapLinesAppend(Classify, Split(a, "\n"), Split(b, "\n"));
  }

  /** A line without a line feed is a text of one line. */
  lemma FormatOneLine(line: String)
    requires '\n' !in line
    ensures Format(line) == [Classify(line)]
  {
    if Contains(line, "\n") {
      ContainedChar(line, "\n", 0);
    }
    assert Split(line, "\n") == [line];
  }

  /** Formatting lines joined with line feeds gives each line's block, in order. */
  lemma {:induction false} FormatLines(lines: seq<String>)
    requires |lines| >= 1
    requires forall k :: 0 <= k < |lines| ==> '\n' !in lines[k]
    ensures Format(Join(lines, "\n")) == MapLines(Classify, lines)
  {
    FormatOneLine(lines[0]);
    if |lines| >= 2 {
      var rest := lines[1..];
      FormatLines(rest);
      FormatConcat(lines[0], Join(rest, "\n"));
      MapLinesAppend(Classify, [lines[0]], rest);
      assert lines == [lines[0]] + rest;
    }
  }

  // ---------------------------------------------------------------- headings

  /** A line that starts with whitespace or a dash is not a heading and not numbered. */
  lemma NotHeadingOrNumbered(line: String)
    requires line == [] || IsWhitespace(line[0]) || line[0] == '-'
    ensures !IsH2Line(line) && !IsH3Line(line) && NumberedHead(line).None?
  {
  }

  /** `## ` lines, and only they, are H2 headings, titled by the rest of the line, trimmed. */
  lemma H2Rule(line: String)
    ensures Classify(line).H2? <==> StartsWith(line, "## ")
    ensures StartsWith(line, "## ") ==> Classify(line) == H2(Trim(line[3..]))
  {
    PrefixGuards(line);
    ClassifyKind(line);
    if IsH2Line(line) {
      assert ReplaceFirst(line, "## ", []) == [] + line[3..] == line[3..];
    }
  }

  /** `### ` lines, and only they, are H3 headings; such a line is never an H2. */
  lemma H3Rule(line: String)
    ensures Classify(line).H3? <==> StartsWith(line, "### ")
    ensures StartsWith(line, "### ") ==> Classify(line) == H3(Trim(line[4..]))
  {
    PrefixGuards(line);
    ClassifyKind(line);
    if IsH3Line(line) {
      assert ReplaceFirst(line, "### ", []) == [] + line[4..] == line[4..];
    }
  }

  // ---------------------------------------------------------------- verdicts

  /** Every line that is not a heading and contains `**Verdict:` is a verdict. */
  lemma VerdictRule(line: String)
    ensures Classify(line).Verdict? <==> !IsH2Line(line) && !IsH3Line(line) && Contains(line, VerdictMarker)
    ensures Classify(line).Verdict? ==> Classify(line) == VerdictOf(line)
  {
    ClassifyKind(line);
  }

  /** The verdict fields in place. The prefix is the line up to the first marker.
      The text after that marker is cut at the next marker into a piece; the
      verdict content is that piece cut at its first `**`; the remainder is what
      follows that `**`, cut at the next `**`, and empty when the piece holds no `**`. */
  lemma VerdictFields(line: String)
    requires IsVerdictLine(line)
    ensures var b := VerdictOf(line);
      && IndexOf(line, VerdictMarker) == Some(|b.prefix|)
      && |b.prefix| + |VerdictMarker| <= |line|
      && b.prefix == line[..|b.prefix|]
      && (exists piece ::
            && CutAtFirst(line[|b.prefix| + |VerdictMarker|..], VerdictMarker, piece)
            && CutAtFirst(piece, "**", b.verdictContent)
            && (if piece == b.verdictContent then b.remainder == []
                else |b.verdictContent| + 2 <= |piece| && CutAtFirst(piece[|b.verdictContent| + 2..], "**", b.remainder)))
      && !Contains(b.verdictContent, "**") && !Contains(b.remainder, "**")
  {
    var parts := Split(line, VerdictMarker);
    var i := IndexOf(line, VerdictMarker).value;
    SplitFirst(line, VerdictMarker, i);
    assert parts[0] == line[..i];
    SecondPieceStops(line, VerdictMarker);
    StarPieces(parts[1]);
  }

  /** `piece.split('**')`: the first piece is `piece` cut at its first `**`, and the
      second, read as `x || ''`, is what follows that `**` cut at the next one. */
  lemma StarPieces(piece: String)
    ensures var pieces := Split(piece, "**");
      var c := pieces[0];
      var r := ItemOr(pieces, 1);
      && CutAtFirst(piece, "**", c)
      && (if piece == c then r == [] else |c| + 2 <= |piece| && CutAtFirst(piece[|c| + 2..], "**", r))
      && !Contains(c, "**") && !Contains(r, "**")
  {
    var pieces := Split(piece, "**");
    FirstPieceStops(piece, "**");
    match IndexOf(piece, "**")
    case None =>
      assert pieces == [piece];
    case Some(k) =>
      SplitFirst(piece, "**", k);
      assert pieces[0] == piece[..k] != piece;
      FirstPieceStops(piece[k + 2..], "**");
  }

  /** With no `**` after the first marker, the verdict content is all the rest
      of the line and the remainder is empty. */
  lemma VerdictUnclosed(line: String, i: nat)
    requires !IsH2Line(line) && !IsH3Line(line)
    requires IndexOf(line, VerdictMarker) == Some(i)
    requires i + |VerdictMarker| <= |line| && !Contains(line[i + |VerdictMarker|..], "**")
    ensures Classify(line) == Verdict(line[..i], line[i + |VerdictMarker|..], [])
  {
    var after := line[i + |VerdictMarker|..];
    SplitFirst(line, VerdictMarker, i);
    assert VerdictMarker == "**" + "Verdict:";
    if Contains(after, VerdictMarker) {
      ContainsPrefix(after, "**", "Verdict:");
    }
    assert Split(after, VerdictMarker) == [after];
    assert Split(after, "**") == [after];
  }

  /** A verdict written as a closed bold span, with no `*` before it or inside it:
      the prefix is the text before the span, the content everything inside it after
      the marker, and the remainder is empty. */
  lemma VerdictSpan(prefix: String, body: String)
    requires '*' !in prefix && '*' !in body
    requires !IsH2Line(prefix + VerdictMarker + body + "**") && !IsH3Line(prefix + VerdictMarker + body + "**")
    ensures Classify(prefix + VerdictMarker + body + "**") == Verdict(prefix, body, [])
  {
    VerdictOfSpan(prefix, body);
    ClassifyKind(prefix + VerdictMarker + body + "**");
  }

  /** The verdict fields of such a line. */
  lemma VerdictOfSpan(prefix: String, body: String)
    requires '*' !in prefix && '*' !in body
    ensures IsVerdictLine(prefix + VerdictMarker + body + "**")
    ensures VerdictOf(prefix + VerdictMarker + body + "**") == Verdict(prefix, body, [])
  {
    var line := prefix + VerdictMarker + body + "**";
    var content := body + "**";
    assert line[..|prefix|] == prefix && line[|prefix|..|prefix| + |VerdictMarker|] == VerdictMarker;
    assert line[|prefix| + |VerdictMarker|..] == content;
    IndexOfAfterFree(line, VerdictMarker, |prefix|);
    SplitFirst(line, VerdictMarker, |prefix|);
    MarkerOpensWithStar(body);
    assert Split(content, VerdictMarker) == [content];
    ClosingStars(body);
  }

  /** The marker opens with `*`, so it can occur in `body + "**"` only where `body` holds a `*`. */
  lemma MarkerOpensWithStar(body: String)
    ensures Contains(body + "**", VerdictMarker) ==> '*' in body
  {
    var x := body + "**";
    if Contains(x, VerdictMarker) {
      var j := IndexOf(x, VerdictMarker).value;
      assert x[j] == x[j..j + |VerdictMarker|][0];
      assert x[j] == body[j];
    }
  }

  /** A `*`-free text closed by `**` splits on `**` into the text and an empty piece. */
  lemma ClosingStars(body: String)
    requires '*' !in body
    ensures Split(body + "**", "**") == [body, []]
  {
    var x := body + "**";
    assert x[..|body|] == body && x[|body|..|body| + 2] == "**" && x[|body| + 2..] == [];
    IndexOfAfterFree(x, "**", |body|);
    SplitFirst(x, "**", |body|);
    assert Split([], "**") == [[]];
  }

  // ---------------------------------------------------------------- numbered lines

  /** A line that starts with a digit is not a heading. */
  lemma DigitStartNotHeading(line: String)
    requires |line| > 0 && IsDigit(line[0])
    ensures !IsH2Line(line) && !IsH3Line(line)
  {
  }

  /** A line that starts with a character other than whitespace or a dash is
      neither a bullet nor blank. */
  lemma NotBulletOrBlank(line: String)
    requires |line| > 0 && !IsWhitespace(line[0]) && line[0] != '-'
    ensures !IsBulletLine(line) && !IsBlankLine(line)
  {
    assert !AllWhitespace(line);
    TrimEmptyIff(line);
    TrimFirstChar(line);
  }

  /** `<digits>.<space>**<title>**`, optionally followed by a colon, is a numbered
      title carrying the digits and the title (unless it holds the verdict marker). */
  lemma NumberedTitleRule(number: String, w: char, title: String, tail: String)
    requires NumberedParts(number, w, title) && (tail == [] || tail == ":")
    requires !IsVerdictLine(NumberedLine(number, w, title, tail))
    ensures Classify(NumberedLine(number, w, title, tail)) == NumberedTitle(number, title)
  {
    var line := NumberedLine(number, w, title, tail);
    NumberedLineHead(number, w, title, tail);
    NumberedLineAt(number, w, title, tail);
    DigitStartNotHeading(line);
  }

  /** The same followed by a colon and more text is a numbered item whose rest is
      that text, trimmed. */
  lemma NumberedItemRule(number: String, w: char, title: String, rest: String)
    requires NumberedParts(number, w, title) && rest != []
    requires !IsVerdictLine(NumberedLine(number, w, title, ":" + rest))
    ensures Classify(NumberedLine(number, w, title, ":" + rest)) == NumberedItem(number, title, Trim(rest))
  {
    var tail := ":" + rest;
    var line := NumberedLine(number, w, title, tail);
    NumberedLineHead(number, w, title, tail);
    NumberedLineKinds(number, w, title, tail);
    NumberedLineAt(number, w, title, tail);
    DigitStartNotHeading(line);
    assert |tail| >= 2 && StartsWith(tail, ":") && tail[1..] == rest;
    assert IsNumberedItem(line) && !IsNumberedTitle(line) && NumberedRest(line) == Trim(rest);
  }

  /** Without the colon, text after the title makes the line match neither
      numbered pattern, and it falls through to a paragraph. */
  lemma NumberedWithoutColon(number: String, w: char, title: String, tail: String)
    requires NumberedParts(number, w, title) && tail != [] && tail[0] != ':'
    requires !IsVerdictLine(NumberedLine(number, w, title, tail))
    ensures Classify(NumberedLine(number, w, title, tail)) == Paragraph(NumberedLine(number, w, title, tail))
  {
    var line := NumberedLine(number, w, title, tail);
    NumberedLineKinds(number, w, title, tail);
    NumberedLineAt(number, w, title, tail);
    assert tail[..1][0] == tail[0];
    assert !StartsWith(tail, ":") && tail != ":";
    assert !IsNumberedTitle(line) && !IsNumberedItem(line);
    DigitStartNotHeading(line);
    NotBulletOrBlank(line);
    ParagraphRule(line);
  }

  /** Conversely, a numbered title is such a line with nothing or a lone colon after the title. */
  lemma NumberedTitleShape(line: String)
    requires Classify(line).NumberedTitle?
    ensures var b := Classify(line);
      exists w: char :: NumberedParts(b.number, w, b.title) &&
        (line == NumberedLine(b.number, w, b.title, []) || line == NumberedLine(b.number, w, b.title, ":"))
  {
    NumberedTitleGuard(line);
    NumberedHeadShape(line);
  }

  /** Conversely, a numbered item is such a line with a colon and more text after
      the title, and its rest is that text, trimmed. */
  lemma NumberedItemShape(line: String)
    requires Classify(line).NumberedItem?
    ensures var b := Classify(line);
      exists w: char, rest: String :: NumberedParts(b.number, w, b.title) && rest != [] &&
        line == NumberedLine(b.number, w, b.title, ":" + rest) && b.rest == Trim(rest)
  {
    NumberedItemGuard(line);
    NumberedItemLineOf(line);
  }

  /** An item line, read back into its parts. */
  lemma NumberedItemLineOf(line: String)
    requires IsNumberedItem(line) && !IsNumberedTitle(line)
    ensures exists w: char, rest: String ::
      && NumberedParts(LeadingDigits(line), w, Extract(Bold, line)) && rest != []
      && line == NumberedLine(LeadingDigits(line), w, Extract(Bold, line), ":" + rest) && NumberedRest(line) == Trim(rest)
  {
    NumberedItemTail(line);
    NumberedHeadShape(line);
    var n := NumberedHead(line).value;
    var tail := line[n..];
    assert tail == ":" + tail[1..];
  }

  /** A numbered title matches the title pattern and carries the leading digits and the first bold span. */
  lemma NumberedTitleGuard(line: String)
    requires Classify(line).NumberedTitle?
    ensures IsNumberedTitle(line) && Classify(line) == NumberedTitle(LeadingDigits(line), Extract(Bold, line))
  {
    ClassifyKind(line);
  }

  /** A numbered item matches the item pattern but not the title pattern. */
  lemma NumberedItemGuard(line: String)
    requires Classify(line).NumberedItem?
    ensures IsNumberedItem(line) && !IsNumberedTitle(line)
    ensures var b := Classify(line);
      b.number == LeadingDigits(line) && b.title == Extract(Bold, line) && b.rest == NumberedRest(line)
  {
    ClassifyKind(line);
  }

  /** After the numbered head of an item line comes a colon, and the rest is the trimmed text after it. */
  lemma NumberedItemTail(line: String)
    requires IsNumberedItem(line)
    ensures var tail := line[NumberedHead(line).value..];
      |tail| >= 1 && tail[0] == ':' && NumberedRest(line) == Trim(tail[1..])
      && (!IsNumberedTitle(line) ==> tail[1..] != [])
  {
    var n := NumberedHead(line).value;
    assert line[n..][1..] == line[n + 1..];
  }

  // ---------------------------------------------------------------- blank lines and bullets

  /** A line is a spacer exactly when it is all whitespace (the empty line included). */
  lemma SpacerIff(line: String)
    ensures Classify(line) == Spacer <==> AllWhitespace(line)
  {
    TrimEmptyIff(line);
    if AllWhitespace(line) {
      BlankIsSpacer(line);
    } else if Classify(line) == Spacer {
      SpacerIsBlank(line);
    }
  }

  /** An all-whitespace line passes no guard before the blank test. */
  lemma BlankIsSpacer(line: String)
    requires AllWhitespace(line)
    ensures Classify(line) == Spacer
  {
    TrimEmptyIff(line);
    NotHeadingOrNumbered(line);
    if Contains(line, VerdictMarker) {
      ContainedChar(line, VerdictMarker, 0);
    }
    assert !IsNumberedTitle(line) && !IsNumberedItem(line) && !IsBulletLine(line);
  }

  /** Only the blank test yields a spacer. */
  lemma SpacerIsBlank(line: String)
    requires Classify(line) == Spacer
    ensures IsBlankLine(line)
  {
    ClassifyKind(line);
  }

  /** A non-heading line whose trimmed text starts with `- **` is a priced bullet
      exactly when it holds a `"` and a `$` and no verdict marker. */
  lemma PricedBulletIff(line: String)
    requires StartsWith(Trim(line), "- **")
    ensures Classify(line).PricedBullet? <==> !IsVerdictLine(line) && Contains(line, "\"") && Contains(line, "$")
  {
    PrefixGuards(Trim(line));
    DashLine(line);
    BulletFamily(line);
  }

  /** A line whose trimmed text starts with `- ` is a bullet line, and neither a heading nor numbered. */
  lemma DashLine(line: String)
    requires StartsWith(Trim(line), "- ")
    ensures !IsH2Line(line) && !IsH3Line(line) && NumberedHead(line).None? && IsBulletLine(line)
  {
    PrefixGuards(Trim(line));
    TrimFirstChar(line);
    NotHeadingOrNumbered(line);
  }

  /** Among bullet lines that are neither headings nor numbered, the priced bullets
      are the ones that pass the priced-bullet test and are not verdicts. */
  lemma BulletFamily(line: String)
    requires !IsH2Line(line) && !IsH3Line(line) && NumberedHead(line).None? && IsBulletLine(line)
    ensures Classify(line).PricedBullet? <==> !IsVerdictLine(line) && IsPricedBulletLine(line)
  {
    ClassifyKind(line);
  }

  /** Only lines whose trimmed text starts with `- **` and that hold a `"` and a `$`
      are priced bullets, and their fields are read out by `PricedBulletOf`. */
  lemma PricedBulletGuard(line: String)
    requires Classify(line).PricedBullet?
    ensures StartsWith(Trim(line), "- **") && Contains(line, "\"") && Contains(line, "$")
    ensures !IsVerdictLine(line)
    ensures Classify(line) == PricedBulletOf(line)
  {
    PrefixGuards(Trim(line));
    ClassifyKind(line);
  }

  /** The text after a price that occurs in the line: what follows the first
      occurrence of the price, cut at the next occurrence (or the end of the line). */
  lemma AfterPriceFollows(line: String, price: String)
    requires price != [] && Contains(line, price)
    ensures AfterFirst(line, price, AfterPrice(line, price)) && !Contains(AfterPrice(line, price), price)
  {
    SecondPieceStops(line, price);
  }

  /** A price that occurs first right after `a` and never again is followed by `b`, the rest of the line. */
  lemma AfterPriceAt(a: String, price: String, b: String)
    requires price != [] && price[0] !in a && !Contains(b, price)
    ensures AfterPrice(a + price + b, price) == b
  {
    var s := a + price + b;
    assert s[..|a|] == a && s[|a|..|a| + |price|] == price && s[|a| + |price|..] == b;
    IndexOfAfterFree(s, price, |a|);
    SplitFirst(s, price, |a|);
  }

  // The fields of a priced bullet: the brand is the first bold span, the item the
  // first quoted span and the price the first price token of the line, each `''`
  // when absent; the text after the price is what follows the first occurrence of
  // the price up to its next occurrence, and `''` when there is no price.

  /** The brand is the text of the leftmost bold span, or `''` when there is none. */
  lemma PricedBrand(line: String)
    ensures var brand := PricedBulletOf(line).brand;
      && (brand == [] <==> Search(Bold, line).None?)
      && (brand != [] ==>
            && '*' !in brand
            && (var k := Search(Bold, line).value.start;
             OccursAt(line, "**" + brand + "**", k) && forall j :: 0 <= j < k ==> BoldAt(line, j).None?))
  {
    ExtractEmptyIff(Bold, line);
    if Extract(Bold, line) != [] {
      ExtractBold(line);
    }
  }

  /** The item name is the text of the leftmost quoted span, or `''` when there is none. */
  lemma PricedItemName(line: String)
    ensures var item := PricedBulletOf(line).itemName;
      && (item == [] <==> Search(Quoted, line).None?)
      && (item != [] ==>
            && '"' !in item
            && (var k := Search(Quoted, line).value.start;
             OccursAt(line, "\"" + item + "\"", k) && forall j :: 0 <= j < k ==> QuotedAt(line, j).None?))
  {
    ExtractEmptyIff(Quoted, line);
    if Extract(Quoted, line) != [] {
      ExtractQuoted(line);
    }
  }

  /** The price is the leftmost price token, or `''` when there is none. */
  lemma PricedPrice(line: String)
    ensures var price := PricedBulletOf(line).price;
      && (price == [] <==> Search(Price, line).None?)
      && (price != [] ==>
            && IsPriceToken(price)
            && (var k := Search(Price, line).value.start;
             && OccursAt(line, price, k)
             && (k + |price| == |line| || !IsDigit(line[k + |price|]))
             && forall j :: 0 <= j < k ==> PriceAt(line, j).None?))
  {
    ExtractEmptyIff(Price, line);
    if Extract(Price, line) != [] {
      ExtractPrice(line);
    }
  }

  /** The text after the price follows its first occurrence up to the next one;
      with no price it is `''`. */
  lemma PricedAfterPrice(line: String)
    ensures var b := PricedBulletOf(line);
      && (b.price != [] ==> AfterFirst(line, b.price, b.afterPrice))
      && (b.price == [] ==> b.afterPrice == [])
  {
    var price := Extract(Price, line);
    assert PricedBulletOf(line).price == price;
    assert PricedBulletOf(line).afterPrice == AfterPrice(line, price);
    if price != [] {
      ExtractPrice(line);
      AfterPriceFollows(line, price);
    }
  }

  /** Every priced-bullet line is also a bullet line. */
  lemma PricedIsBullet(line: String)
    ensures IsPricedBulletLine(line) ==> IsBulletLine(line)
  {
  }

  /** A bullet line that no earlier rule claims: an indented bullet when the raw
      line opens with three spaces and a dash, a plain bullet otherwise; either
      way the text is the trimmed line without its `- `. */
  lemma BulletRule(line: String)
    requires StartsWith(Trim(line), "- ")
    requires !IsVerdictLine(line) && !IsPricedBulletLine(line)
    ensures Classify(line) ==
      if StartsWith(line, "   -") then IndentedBullet(Trim(line)[2..]) else Bullet(Trim(line)[2..])
  {
    assert !IsH2Line(line) && !IsH3Line(line) && !IsNumberedTitle(line) && !IsNumberedItem(line) by {
      DashLine(line);
    }
    assert Substring(Trim(line), 2) == Trim(line)[2..];
    assert IsIndentedBulletLine(line) <==> StartsWith(line, "   -") by {
      PrefixGuards(line);
    }
    assert IsBulletLine(line);
  }

  /** Conversely, a bullet's text is its trimmed line without the leading `- `,
      and it is indented exactly when the raw line opens with three spaces and a dash. */
  lemma BulletShape(line: String)
    requires Classify(line).IndentedBullet? || Classify(line).Bullet?
    ensures Trim(line) == "- " + Classify(line).text
    ensures Classify(line).IndentedBullet? <==> StartsWith(line, "   -")
    ensures !IsVerdictLine(line) && !IsPricedBulletLine(line)
  {
    ClassifyKind(line);
    PrefixGuards(line);
    PrefixGuards(Trim(line));
    DropPrefix(Trim(line), "- ");
  }

  /** A paragraph is kept verbatim and is never blank, never a bullet and never a
      line any earlier rule claims. */
  lemma ParagraphShape(line: String)
    requires Classify(line).Paragraph?
    ensures Classify(line).text == line
    ensures !IsH2Line(line) && !IsH3Line(line) && !IsVerdictLine(line)
    ensures !IsNumberedTitle(line) && !IsNumberedItem(line)
    ensures !IsBulletLine(line) && !IsBlankLine(line)
  {
    ClassifyKind(line);
  }

  /** Conversely, a line no rule claims is a paragraph. */
  lemma ParagraphRule(line: String)
    requires !IsH2Line(line) && !IsH3Line(line) && !IsVerdictLine(line)
    requires !IsNumberedTitle(line) && !IsNumberedItem(line)
    requires !IsBulletLine(line) && !IsBlankLine(line)
    ensures Classify(line) == Paragraph(line)
  {
    PricedIsBullet(line);
  }
}
