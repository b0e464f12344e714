/**
  Lines of the analysis the home page shows before any upload (the built-in
  running-shoe analysis), each with the block the formatter makes of it.
  Long literals are written as short pieces joined together.
 */
module AnalysisFixture {
  import opened JsString
  import opened Patterns
  import opened Formatter

  // ---------------------------------------------------------------- the lines

  /** The page title. */
  const TitleText: String := "Running Shoe" + " Analysis"
  const TitleLine: String := "## " + TitleText

  /** The verdict: a tag emoji, a space, then the bold verdict. */
  const TagEmoji: String := "\U{1F3F7}\U{FE0F} "
  const VerdictText: String := " Nike Air Zoom" + " Pegasus 38" + " (95% confidence)"
  const VerdictLine: String := TagEmoji + VerdictMarker + VerdictText + "**"

  /** A section heading. */
  const SectionHeadText: String := "Brand & Model" + " Identification"
  const SectionHeadLine: String := "### " + SectionHeadText

  /** The blank line between the title and the first section. */
  const BlankLine: String := ""

  /** A plain sentence, quotes and all, in three parts. */
  const SentenceOpen: String := "This is a Nike"
  const SentenceHead: String := SentenceOpen + " Air Zoom Pegasus 38" + " in the \"White/Black" + "/Flash Crimson\""
  const SentenceMiddle: String := " colorway based on" + " the distinctive" + " engineered mesh" + " upper, signature"
  const SentenceEnd: String := " swoosh design, and" + " visible Air Zoom" + " branding on the" + " midsole."
  const SentenceText: String := SentenceHead + SentenceMiddle + SentenceEnd

  /** A numbered section heading. */
  const SectionTitle: String := "Design" + " Elements:"
  const SectionLine: String := "1. **" + SectionTitle + "**"

  /** An indented feature bullet. */
  const MeshText: String := "Engineered mesh" + " upper for" + " lightweight" + " breathability"
  const MeshLine: String := "   " + ("- " + MeshText)

  /** A retailer bullet with a price but no quoted item name. */
  const NikeText: String := "**Nike**: " + "$120.00" + " - Available" + " on Nike.com" + " and Nike" + " retail stores"
  const NikeLine: String := "   " + ("- " + NikeText)

  /** A retailer bullet with a price and a quoted promo code. */
  const EastbayPrice: String := "$89.99"
  const PromoLead: String := " - With promo" + " code "
  const EastbayTail: String := PromoLead + "\"SUMMER\""
  const EastbayText: String := "**Eastbay**: " + EastbayPrice + EastbayTail
  const EastbayLine: String := "   " + ("- " + EastbayText)

  // ---------------------------------------------------------------- their blocks

  /** `## Running Shoe Analysis` is an H2 titled `Running Shoe Analysis`. */
  lemma TitleLineBlock()
    ensures Classify(TitleLine) == H2(TitleText)
  {
    H2Rule(TitleLine);
    assert TitleLine[..3] == "## " && TitleLine[3..] == TitleText;
    TrimPadded([], TitleText, []);
    assert [] + TitleText + [] == TitleText;
  }

  /** `### Brand & Model Identification` is an H3 titled `Brand & Model Identification`. */
  lemma SectionHeadLineBlock()
    ensures Classify(SectionHeadLine) == H3(SectionHeadText)
  {
    H3Rule(SectionHeadLine);
    assert SectionHeadLine[..4] == "### " && SectionHeadLine[4..] == SectionHeadText;
    TrimPadded([], SectionHeadText, []);
    assert [] + SectionHeadText + [] == SectionHeadText;
  }

  /** The empty line between blocks is a spacer. */
  lemma BlankLineBlock()
    ensures Classify(BlankLine) == Spacer
  {
    BlankIsSpacer(BlankLine);
  }

  /** The sentence after the verdict is a paragraph of the whole line. */
  lemma SentenceLineBlock()
    ensures Classify(SentenceText) == Paragraph(SentenceText)
  {
    SentenceMarks();
    PlainParagraph(SentenceText);
  }

  /** The sentence opens with `T` and holds no `V`. */
  lemma SentenceMarks()
    ensures SentenceText[0] == 'T' && 'V' !in SentenceText
  {
    assert SentenceText[0] == SentenceOpen[0];
    SentenceHeadMarks();
    SentenceMiddleMarks();
    SentenceEndMarks();
  }

  lemma SentenceHeadMarks()
    ensures 'V' !in SentenceHead
  {
    assert 'V' !in SentenceOpen && 'V' !in " Air Zoom Pegasus 38";
    assert 'V' !in " in the \"White/Black" && 'V' !in "/Flash Crimson\"";
  }

  lemma SentenceMiddleMarks()
    ensures 'V' !in SentenceMiddle
  {
    assert 'V' !in " colorway based on" && 'V' !in " the distinctive";
    assert 'V' !in " engineered mesh" && 'V' !in " upper, signature";
  }

  lemma SentenceEndMarks()
    ensures 'V' !in SentenceEnd
  {
    assert 'V' !in " swoosh design, and" && 'V' !in " visible Air Zoom";
    assert 'V' !in " branding on the" && 'V' !in " midsole.";
  }

  /** A line that opens with a letter other than a digit, `#` or `-`, and holds no `V`
      (so no verdict marker), is a paragraph of the whole line. */
  lemma PlainParagraph(line: String)
    requires line != [] && !IsWhitespace(line[0]) && !IsDigit(line[0])
    requires line[0] != '#' && line[0] != '-' && 'V' !in line
    ensures Classify(line) == Paragraph(line)
  {
    LacksChar(line, VerdictMarker, 2);
    assert DigitsFrom(line, 0) == 0;
    NotBulletOrBlank(line);
    ParagraphRule(line);
  }

  /** The verdict line keeps the emoji and space as its prefix, reads the text after
      the marker up to the closing `**` as its content and has an empty remainder. */
  lemma VerdictLineBlock()
    ensures Classify(VerdictLine) == Verdict(TagEmoji, VerdictText, [])
  {
    assert VerdictLine[0] == '\U{1F3F7}';
    VerdictSpan(TagEmoji, VerdictText);
  }

  /** `1. **Design Elements:**` is a numbered title: number `1`, title `Design Elements:`. */
  lemma SectionLineBlock()
    ensures Classify(SectionLine) == NumberedTitle("1", SectionTitle)
  {
    assert SectionLine == NumberedLine("1", ' ', SectionTitle, []);
    LacksChar(SectionLine, VerdictMarker, 2);
    NumberedTitleRule("1", ' ', SectionTitle, []);
  }

  /** A bullet opened by three spaces is an indented bullet of the text after `- `. */
  lemma MeshLineBlock()
    ensures Classify(MeshLine) == IndentedBullet(MeshText)
  {
    assert 'V' !in MeshText && '"' !in MeshText;
    PlainIndentedBullet(MeshText);
  }

  /** Without a `"` the retailer line is not a priced bullet, price or not: it is an
      indented bullet that keeps its markup. */
  lemma NikeLineBlock()
    ensures Classify(NikeLine) == IndentedBullet(NikeText)
  {
    assert 'V' !in NikeText && '"' !in NikeText;
    PlainIndentedBullet(NikeText);
  }

  /** Three spaces, `- ` and a text with no trailing whitespace, no `"` and no
      `V` (so no verdict marker) make an indented bullet of that text. */
  lemma PlainIndentedBullet(text: String)
    requires text != [] && !IsWhitespace(text[|text| - 1])
    requires 'V' !in text && '"' !in text
    ensures Classify("   " + ("- " + text)) == IndentedBullet(text)
  {
    var line := "   " + ("- " + text);
    IndentedDashLine(text);
    LacksChar(line, VerdictMarker, 2);
    LacksChar(line, "\"", 0);
    PrefixGuards(line);
    PrefixGuards(Trim(line));
    BulletRule(line);
  }

  /** With a `"` and a `$` the retailer line is a priced bullet: brand `Eastbay`, item
      `SUMMER`, price `$89.99`, and the text after the price. */
  lemma EastbayLineBlock()
    ensures Classify(EastbayLine) == PricedBullet("Eastbay", "SUMMER", EastbayPrice, EastbayTail)
  {
    EastbayMarks();
    IndentedNoMarker(EastbayText);
    PricedIndentedBullet(EastbayText);
    EastbayFields();
  }

  /** The Eastbay text opens with `**`, holds a `"` and a `$` and no `V`. */
  lemma EastbayMarks()
    ensures EastbayText[0] == '*' && EastbayText[1] == '*'
    ensures 'V' !in EastbayText && '"' in EastbayText && '$' in EastbayText
  {
    assert EastbayText[38] == '"' && EastbayText[13] == '$';
  }

  /** Three spaces, `- `, `**` and a text holding a `"` and a `$` make a priced
      bullet, unless the line holds the verdict marker. */
  lemma PricedIndentedBullet(text: String)
    requires |text| >= 2 && text[0] == '*' && text[1] == '*'
    requires '"' in text && '$' in text && !IsVerdictLine("   " + ("- " + text))
    ensures Classify("   " + ("- " + text)) == PricedBulletOf("   " + ("- " + text))
  {
    var line := "   " + ("- " + text);
    IndentedDashBold(text);
    IndentedMarks(text);
    PricedLine(line);
  }

  /** Trimmed, such a line opens with `- **`, whatever whitespace ends it. */
  lemma IndentedDashBold(text: String)
    requires |text| >= 2 && text[0] == '*' && text[1] == '*'
    ensures StartsWith(Trim("   " + ("- " + text)), "- **")
  {
    var m := "- " + text;
    IndentedTrim(m);
    TrimEndKeeps(m, 3);
    var r := TrimEnd(m);
    assert r[0] == m[0] && r[1] == m[1] && r[2] == m[2] && r[3] == m[3];
    PrefixGuards(r);
  }

  /** Three leading spaces are all that trimming takes from the front. */
  lemma IndentedTrim(m: String)
    requires m != [] && !IsWhitespace(m[0])
    ensures Trim("   " + m) == TrimEnd(m)
  {
    assert AllWhitespace("   ");
    TrimStartSkips("   ", m);
  }

  /** The characters of the text are those of the line after its five-character opening. */
  lemma IndentedMarks(text: String)
    requires '"' in text && '$' in text
    ensures var line := "   " + ("- " + text);
      Contains(line, "\"") && Contains(line, "$")
  {
    var line := "   " + ("- " + text);
    assert line[5..] == text;
    assert '"' in line && '$' in line;
    CharContained(line, '"');
    CharContained(line, '$');
  }

  /** Without a `V` in the text, such a line holds no verdict marker. */
  lemma IndentedNoMarker(text: String)
    requires 'V' !in text
    ensures !IsVerdictLine("   " + ("- " + text))
  {
    var line := "   " + ("- " + text);
    assert line[5..] == text;
    assert 'V' !in line;
    LacksChar(line, VerdictMarker, 2);
  }

  /** The fields read out of the Eastbay line. */
  lemma EastbayFields()
    ensures Extract(Bold, EastbayLine) == "Eastbay"
    ensures Extract(Quoted, EastbayLine) == "SUMMER"
    ensures Extract(Price, EastbayLine) == EastbayPrice
    ensures AfterPrice(EastbayLine, EastbayPrice) == EastbayTail
  {
    EastbayBold();
    EastbayQuoted();
    EastbayPriceForm();
    ExtractPriceSpan(EastbayHead, EastbayPrice, EastbayTail);
    LacksChar(EastbayTail, EastbayPrice, 0);
    AfterPriceAt(EastbayHead, EastbayPrice, EastbayTail);
  }

  const EastbayHead: String := "   " + ("- " + "**Eastbay**: ")

  /** The line as the text before the price, the price and the text after it. */
  lemma EastbayPriceForm()
    ensures EastbayLine == EastbayHead + EastbayPrice + EastbayTail
    ensures EastbayPrice[0] == '$' && '$' !in EastbayHead && '$' !in EastbayTail
    ensures IsPriceToken(EastbayPrice) && !IsDigit(EastbayTail[0])
  {
    assert PriceDigits(EastbayPrice, 3);
  }

  lemma EastbayBold()
    ensures Extract(Bold, EastbayLine) == "Eastbay"
  {
    var rest := ": " + EastbayPrice + EastbayTail;
    EastbayBoldForm();
    ExtractBoldSpan("   - ", "Eastbay", rest);
  }

  lemma EastbayBoldForm()
    ensures EastbayLine == "   - " + "**" + "Eastbay" + "**" + (": " + EastbayPrice + EastbayTail)
  {
  }

  lemma EastbayQuoted()
    ensures Extract(Quoted, EastbayLine) == "SUMMER"
  {
    EastbayQuotedForm();
    ExtractQuotedSpan(EastbayQuoteHead, "SUMMER", []);
  }

  const EastbayQuoteHead: String := EastbayHead + EastbayPrice + PromoLead

  lemma EastbayQuotedForm()
    ensures EastbayLine == EastbayQuoteHead + "\"" + "SUMMER" + "\"" + []
    ensures '"' !in EastbayQuoteHead
  {
    assert '"' !in EastbayHead && '"' !in EastbayPrice && '"' !in PromoLead;
  }

  /** Three spaces, `- ` and a text with no trailing whitespace: the trimmed line
      is `- ` and the text, and the raw line opens with three spaces and a dash. */
  lemma IndentedDashLine(text: String)
    requires text != [] && !IsWhitespace(text[|text| - 1])
    ensures Trim("   " + ("- " + text)) == "- " + text
    ensures OpensDash(Trim("   " + ("- " + text))) && OpensIndentedDash("   " + ("- " + text))
    ensures Trim("   " + ("- " + text))[2..] == text
  {
    var m := "- " + text;
    assert "   " + m + [] == "   " + m;
    TrimPadded("   ", m, []);
  }

  // ---------------------------------------------------------------- a line with no price

  /** A retailer line with a `$` but no price after it, opened by one space. */
  const StrayHead: String := " - **Nike**: " + "\"Air\" "
  const StrayLine: String := StrayHead + "$TBA"

  /** The line is a priced bullet with an empty price and, as intended, nothing after
      it; the text after the price as written is the line's second character, `-`. */
  lemma StrayLineBlock()
    ensures Classify(StrayLine) == PricedBullet("Nike", "Air", [], [])
    ensures AfterPriceAsWritten(StrayLine, Extract(Price, StrayLine)) == "-"
  {
    StrayDashBold();
    StrayMarks();
    StraySecond();
    StrayBold();
    StrayQuoted();
    StrayNoPrice();
    NoPriceBullet(StrayLine, "Nike", "Air");
  }

  /** A priced bullet in which no price is found: nothing is read after the price, where
      the text after the price as written is the line's second character. */
  lemma NoPriceBullet(line: String, brand: String, item: String)
    requires StartsWith(Trim(line), "- **") && !IsVerdictLine(line)
    requires Contains(line, "\"") && Contains(line, "$")
    requires Extract(Bold, line) == brand && Extract(Quoted, line) == item && Extract(Price, line) == []
    ensures Classify(line) == PricedBullet(brand, item, [], [])
    ensures |line| >= 2 && AfterPriceAsWritten(line, Extract(Price, line)) == [line[1]]
  {
    PricedLine(line);
    TrimIsInfix(line);
    AfterPriceAsWrittenNoPrice(line);
  }

  /** A line passing the priced-bullet guards and no verdict is read out as a priced bullet. */
  lemma PricedLine(line: String)
    requires StartsWith(Trim(line), "- **") && !IsVerdictLine(line)
    requires Contains(line, "\"") && Contains(line, "$")
    ensures Classify(line) == PricedBulletOf(line)
  {
    PricedBulletIff(line);
    PricedBulletGuard(line);
  }

  /** Trimmed, the line opens with `- **`. */
  lemma StrayDashBold()
    ensures StartsWith(Trim(StrayLine), "- **")
  {
    var m := StrayLine[1..];
    assert StrayLine == " " + m + [];
    TrimPadded(" ", m, []);
    assert m[0] == '-' && m[1] == ' ' && m[2] == '*' && m[3] == '*';
    PrefixGuards(m);
  }

  /** The second character of the line is `-`. */
  lemma StraySecond()
    ensures StrayLine[1] == '-'
  {
    assert StrayLine[1] == StrayHead[1];
  }

  /** The line holds a `"` and a `$` and no verdict marker. */
  lemma StrayMarks()
    ensures !IsVerdictLine(StrayLine) && Contains(StrayLine, "\"") && Contains(StrayLine, "$")
  {
    assert 'V' !in StrayLine && StrayLine[13] == '"' && StrayLine[19] == '$';
    LacksChar(StrayLine, VerdictMarker, 2);
    CharContained(StrayLine, '"');
    CharContained(StrayLine, '$');
  }

  lemma StrayBold()
    ensures Extract(Bold, StrayLine) == "Nike"
  {
    assert StrayLine == " - " + "**" + "Nike" + "**" + (": \"Air\" " + "$TBA");
    ExtractBoldSpan(" - ", "Nike", ": \"Air\" " + "$TBA");
  }

  lemma StrayQuoted()
    ensures Extract(Quoted, StrayLine) == "Air"
  {
    assert StrayLine == " - **Nike**: " + "\"" + "Air" + "\"" + " $TBA";
    ExtractQuotedSpan(" - **Nike**: ", "Air", " $TBA");
  }

  /** No price: the only `$` is followed by a letter. */
  lemma StrayNoPrice()
    ensures Extract(Price, StrayLine) == []
  {
    assert '$' !in StrayHead;
    forall i | 0 <= i < |StrayLine| && StrayLine[i] == '$'
      ensures i + 1 < |StrayLine| && !IsDigit(StrayLine[i + 1])
    {
    }
    ExtractPriceNone(StrayLine);
  }
}
