# Running shoe finder: analysis formatter, upload guard and image analysis

The running shoe finder is a single-page web application. A visitor picks a photo of a running shoe. The page checks the file and sends it as a data URL to a generative model with a fixed prompt. The model's markdown-like reply is then shown, with each line turned into one display block.

This project models the three parts of that flow that hold decisions, and proves what each one does:

- **Formatter** (`formatAnalysis` of the home page).
  - The analysis text is split on line feeds, and every line becomes exactly one block.
  - There are ten kinds of block: H2 heading, H3 heading, verdict, numbered section title, numbered item, priced retailer bullet, indented bullet, bullet, spacer and paragraph.
  - The rules are tried in source order, and the first whose guard holds decides the kind and the fields read out of the line.
  - The regular expressions the rules use are written as explicit matchers in **Patterns**. The JavaScript string built-ins they rely on are in **JsString**: `startsWith`, `includes`/`indexOf`, `split`, first-occurrence `replace`, `trim`, `substring`, and the `x[k] || ''` idiom.
- **Upload** (the file-input handler).
  - Nothing chosen does nothing.
  - A type not starting with `image/` is refused.
  - A file over 20 MiB is refused.
  - Any other file is read and analysed.
- **Gemini** (`analyzeImage`).
  - The data URL must hold `base64`.
  - The text after the first `base64,` must be non-empty.
  - The prompt is the trimmed custom prompt or the default one.
  - The model is called with that prompt and the payload, labelled `image/jpeg`.
  - An empty reply is an error.
  - Every error leaves the function re-worded as `Failed to analyze image…`.
  - The model call itself is a parameter, `generate: Request -> Reply`.
- **AnalysisFixture**: lines of the built-in analysis the page shows before any upload, each with the block the formatter makes of it.

All of the modelled code is expression-shaped: a split, a map over lines, and straight-line checks. So the model uses datatypes, functions and lemmas. Nothing in the modelled code updates an object step by step.

Notes on the code's behaviour:

- The priced-bullet rule fires on any trimmed line starting with `- **` whose raw text contains a `"` and a `$`. No price token has to be present.
- The price pattern is `$`, digits, `.`, digits, with one or more digits on either side, any count.
- The verdict content keeps the space that follows `**Verdict:`.
- Every `split` reading (the verdict parts, the text after a price, the image payload) is the text cut at the leftmost occurrence of the separator. `JsString.CutAtFirst` states this, and `JsString.CutAtFirstUnique` shows that it fixes one value.
- With no price token, the code as written puts the line's second character after the empty price. `Classify` uses the intended reading instead: an empty after-price text. The code as written is modelled beside it; see "## Findings".
- A numbered line ending in `**:` with nothing after the colon is a section title, because the title rule is tried first.

## Model

| member | source | states |
|---|---|---|
| Formatter.Format | src/pages/Home.tsx:211-329 | `formatAnalysis`: the classification of every piece of `text.split('\n')`, in order; its properties are `FormatLength`, `FormatEmpty`, `FormatConcat`, `FormatOneLine` and `FormatLines` |
| Formatter.MapLines | src/pages/Home.tsx:215 | `lines.map(f)`; `MapLinesAppend` states how it distributes over concatenation |
| Formatter.Classify | src/pages/Home.tsx:216-327 | the block of one line, first matching rule wins; `ClassifyKind` and the per-rule lemmas below state which rule fires and what each reads out |
| Formatter.FormatLength | src/pages/Home.tsx:212-215 | the formatter yields exactly one block per line: the number of line feeds plus one |
| Formatter.FormatEmpty | src/pages/Home.tsx:212-215 | empty text still yields one block, a spacer |
| Formatter.FormatConcat | src/pages/Home.tsx:212-215 | formatting two texts joined by a line feed is formatting each and concatenating the blocks |
| Formatter.FormatOneLine | src/pages/Home.tsx:212-215 | a text without a line feed becomes the single block of its one line |
| Formatter.FormatLines | src/pages/Home.tsx:212-215 | joining feed-free lines with line feeds and formatting gives each line's block in order |
| Formatter.MapLinesAppend | src/pages/Home.tsx:215 | mapping lines to blocks distributes over concatenation |
| Formatter.PrefixGuards | src/pages/Home.tsx:217-298 | each character-level guard is the `startsWith` test it stands for (`## `, `### `, `- `, `- **`, three spaces and a dash) |
| Formatter.ClassifyKind | src/pages/Home.tsx:217-327 | a line gets a given kind of block exactly when every earlier rule's guard fails and that rule's guard holds, for all ten kinds |
| Formatter.HeadingTitle | src/pages/Home.tsx:217-229 | `line.replace(marker, '').trim()`; `H2Rule` and `H3Rule` state its value on heading lines |
| Formatter.H2Rule | src/pages/Home.tsx:217-224 | a line is an H2 iff it starts with `## `, and its title is the trimmed text after the marker |
| Formatter.H3Rule | src/pages/Home.tsx:227-234 | a line is an H3 iff it starts with `### `, and its title is the trimmed text after the marker |
| Formatter.VerdictRule | src/pages/Home.tsx:237-247 | a line is a verdict iff it is not a heading and contains `**Verdict:`; its fields are those of the split |
| Formatter.VerdictOf | src/pages/Home.tsx:238-240 | the two splits of the verdict rule; it always yields a verdict block, and `VerdictFields` pins its fields |
| Formatter.VerdictFields | src/pages/Home.tsx:238-240 | the prefix is the line's own text up to the first marker, and that marker sits right after it; the piece after that marker is cut at the next marker; the content is that piece cut at its first `**`; the remainder is what follows that `**`, cut at the next `**`, or empty when the piece holds no `**` |
| Formatter.StarPieces | src/pages/Home.tsx:239-240 | `content.split('**')`: piece 0 is the content cut at its first `**`; piece 1, read as `x \|\| ''`, is what follows that `**` cut at the next one, or empty when there is none |
| Formatter.VerdictUnclosed | src/pages/Home.tsx:238-240 | with no `**` after the marker, the content is the whole rest of the line and the remainder is empty |
| Formatter.VerdictSpan | src/pages/Home.tsx:237-247 | `prefix**Verdict:body**` with no stars in prefix or body is the verdict (prefix, body, empty) |
| Formatter.VerdictOfSpan | src/pages/Home.tsx:238-240 | the verdict fields of `prefix**Verdict:body**` are the prefix, the body and an empty remainder |
| Formatter.NumberedTitleRule | src/pages/Home.tsx:250-259 | digits, `.`, one whitespace, `**title**`, then nothing or a single `:` make a numbered title carrying the digits and the title |
| Formatter.NumberedItemRule | src/pages/Home.tsx:262-274 | the same head followed by `:` and further text makes a numbered item whose rest is that text trimmed |
| Formatter.NumberedWithoutColon | src/pages/Home.tsx:250-274 | the same head followed by text not starting with `:` matches neither numbered rule and falls through to a paragraph |
| Formatter.NumberedTitleShape | src/pages/Home.tsx:250-259 | every numbered title comes from a line of exactly the title shape, with the block's number and title |
| Formatter.NumberedItemShape | src/pages/Home.tsx:262-274 | every numbered item comes from a line `number. **title**:rest` with non-empty rest, and the block's rest is that rest trimmed |
| Formatter.NumberedTitleGuard | src/pages/Home.tsx:250-253 | a numbered title's number is the line's leading digits and its title the first bold span |
| Formatter.NumberedItemGuard | src/pages/Home.tsx:262-265 | a numbered item's number, title and rest are the leading digits, first bold span and trimmed text after the head |
| Formatter.NumberedItemLineOf | src/pages/Home.tsx:262-265 | a line passing the item guard but not the title guard has the item shape, with the extracted fields |
| Formatter.NumberedRest | src/pages/Home.tsx:265 | the item's rest: the trimmed text after the matched `…**:`; `NumberedItemTail` states it |
| Formatter.NumberedItemTail | src/pages/Home.tsx:262-265 | after the matched head an item line has a `:` and its rest is the trimmed text after it |
| Formatter.PricedBulletIff | src/pages/Home.tsx:277 | among trimmed lines starting `- **`, a line is a priced bullet iff it is not a verdict and contains both `"` and `$` |
| Formatter.PricedBulletGuard | src/pages/Home.tsx:277-287 | a priced bullet passed the guard and its fields are those the extraction reads from the line |
| Formatter.PricedBulletOf | src/pages/Home.tsx:278-287 | the fields of a priced bullet; `PricedBrand`, `PricedItemName`, `PricedPrice` and `PricedAfterPrice` pin each of them |
| Formatter.PricedBrand | src/pages/Home.tsx:278-282 | the brand is empty iff no bold span matches; otherwise it is the star-free text of the leftmost bold span, and no bold span starts earlier |
| Formatter.PricedItemName | src/pages/Home.tsx:279-283 | the item name is empty iff no quoted span matches; otherwise it is the quote-free text of the leftmost quoted span, and no quoted span starts earlier |
| Formatter.PricedPrice | src/pages/Home.tsx:280-284 | the price is empty iff no price token matches; otherwise it is the price token at the leftmost match, taken whole (no digit follows it), and no price starts earlier |
| Formatter.PricedAfterPrice | src/pages/Home.tsx:287 | with a price, the after-price text is what follows the first occurrence of the price, cut at the next occurrence; with no price it is empty (the intended reading, see Findings) |
| Formatter.AfterPrice | src/pages/Home.tsx:287 | the intended after-price text, used by `Classify`; `AfterPriceFollows` states its value |
| Formatter.AfterPriceAsWritten | src/pages/Home.tsx:287 | `line.split(price)[1] \|\| ''` as written, including the split on `''`; `AfterPriceAgrees` and `AfterPriceAsWrittenNoPrice` relate it to `AfterPrice` |
| Formatter.AfterPriceFollows | src/pages/Home.tsx:287 | for a price that occurs in the line, the after-price text is what follows its first occurrence, cut at the next occurrence, and holds no copy of the price |
| Formatter.AfterPriceAt | src/pages/Home.tsx:287 | in `a + price + b`, with the price's first character absent from `a` and no price in `b`, the after-price text is `b` |
| Formatter.AfterPriceAgrees | src/pages/Home.tsx:287 | when a price was found, the code as written and the intended reading give the same after-price text |
| Formatter.AfterPriceAsWrittenNoPrice | src/pages/Home.tsx:284-287 | with no price found, the code as written yields the line's second character; the intended reading yields `''` |
| Formatter.PricedIsBullet | src/pages/Home.tsx:277-308 | every line passing the priced guard also passes the plain bullet guard, so the priced rule must come first to fire |
| Formatter.DashLine | src/pages/Home.tsx:217-277 | a line whose trimmed text starts with `- ` is no heading, no numbered line, and passes the bullet guard |
| Formatter.BulletFamily | src/pages/Home.tsx:277-315 | once headings and numbered rules are ruled out, a bullet line is priced iff it is not a verdict and passes the priced guard |
| Formatter.BulletRule | src/pages/Home.tsx:298-315 | a `- ` line that is neither verdict nor priced is an indented bullet if it starts with three spaces and a dash, else a bullet; the text is the trimmed line after `- ` |
| Formatter.BulletShape | src/pages/Home.tsx:298-315 | every (indented) bullet's trimmed line is `- ` plus its text, and it is indented iff the raw line starts with three spaces and a dash |
| Formatter.SpacerIff | src/pages/Home.tsx:318-320 | a line becomes a spacer iff it is all whitespace |
| Formatter.BlankIsSpacer | src/pages/Home.tsx:318-320 | an all-whitespace line becomes a spacer |
| Formatter.SpacerIsBlank | src/pages/Home.tsx:318-320 | a spacer's line trims to nothing |
| Formatter.ParagraphRule | src/pages/Home.tsx:323-327 | a line that passes none of the guards is a paragraph holding the raw line |
| Formatter.ParagraphShape | src/pages/Home.tsx:323-327 | a paragraph holds its raw line, and the line passed none of the earlier guards |
| Formatter.NotHeadingOrNumbered | src/pages/Home.tsx:217-262 | a line that is empty or starts with whitespace or a dash is no heading and no numbered line |
| Formatter.DigitStartNotHeading | src/pages/Home.tsx:217-227 | a line starting with a digit is not a heading |
| Formatter.NotBulletOrBlank | src/pages/Home.tsx:298-318 | a line starting with neither whitespace nor a dash is no bullet and not blank |
| Formatter.MarkerOpensWithStar | src/pages/Home.tsx:237 | `body**` contains the verdict marker only if the body has a star |
| Formatter.ClosingStars | src/pages/Home.tsx:239-240 | splitting a star-free body followed by `**` on `**` gives the body and an empty piece |
| Patterns.BoldAt | src/pages/Home.tsx:252 | `\*\*([^*]+)\*\*` anchored at a position: a match lies inside the line; `BoldMatchIff` states what it matches |
| Patterns.QuotedAt | src/pages/Home.tsx:279 | `"([^"]+)"` anchored at a position: a match lies inside the line; `QuotedMatchIff` states what it matches |
| Patterns.PriceAt | src/pages/Home.tsx:280 | `\$\d+\.\d+` anchored at a position: a match lies inside the line; `PriceMatchSound` and `PriceMatchComplete` state what it matches |
| Patterns.Search | src/pages/Home.tsx:278-280 | `line.match(re)` without the global flag; `SearchFrom` and `SearchLeftmost` state that it finds the leftmost match |
| Patterns.Extract | src/pages/Home.tsx:278-284 | `match?.[1]` or `match?.[0]`, read as `''` when there is no match; `ExtractEmptyIff`, `ExtractBold`, `ExtractQuoted` and `ExtractPrice` state its value |
| Patterns.BoldMatchIff | src/pages/Home.tsx:252 | `\*\*([^*]+)\*\*` matches at a position with a given length iff there are two stars, at least one non-star, then two stars |
| Patterns.QuotedMatchIff | src/pages/Home.tsx:279 | `"([^"]+)"` matches at a position with a given length iff there is a quote, at least one non-quote, then a quote |
| Patterns.PriceMatchSound | src/pages/Home.tsx:280 | a price match is a `$`, digits, `.`, digits token, not followed by a further digit |
| Patterns.PriceMatchComplete | src/pages/Home.tsx:280 | every maximal price token is matched at its position |
| Patterns.SearchLeftmost | src/pages/Home.tsx:278-280 | a search finds the leftmost position where the pattern matches |
| Patterns.ExtractEmptyIff | src/pages/Home.tsx:282-284 | an extracted field is empty iff the pattern matches nowhere |
| Patterns.ExtractBold | src/pages/Home.tsx:278-282 | a non-empty brand holds no star and appears between `**` and `**` in the line |
| Patterns.ExtractQuoted | src/pages/Home.tsx:279-283 | a non-empty item name holds no quote and appears between quotes in the line |
| Patterns.ExtractPrice | src/pages/Home.tsx:280-284 | a non-empty price is a price token occurring in the line at the leftmost match, taken whole (the line ends or a non-digit follows it), with no price starting earlier |
| Patterns.ExtractBoldSpan | src/pages/Home.tsx:278-282 | the brand of `a**t**b`, with no star in `a` or `t`, is `t` |
| Patterns.ExtractQuotedSpan | src/pages/Home.tsx:279-283 | the item name of `a"t"b`, with no quote in `a` or `t`, is `t` |
| Patterns.ExtractPriceSpan | src/pages/Home.tsx:280-284 | the price of `a + token + b`, with no `$` in `a` and `b` not opening with a digit, is the token |
| Patterns.ExtractPriceNone | src/pages/Home.tsx:280-284 | a line in which no `$` is followed by a digit has an empty price |
| Patterns.NumberedHead | src/pages/Home.tsx:250-262 | the length of the match of `^\d+\.\s\*\*[^*]+\*\*`, the head both numbered patterns share; it lies inside the line, and `NumberedHeadIff` states what it matches |
| Patterns.IsNumberedTitle | src/pages/Home.tsx:250 | the title regex: the head, then nothing or a single `:`; `NumberedLineKinds` states it on built lines |
| Patterns.IsNumberedItem | src/pages/Home.tsx:262 | the item regex: the head, then a `:`; `NumberedLineKinds` states it on built lines |
| Patterns.NumberedHeadIff | src/pages/Home.tsx:250-262 | the numbered head `^\d+\.\s\*\*[^*]+\*\*` matches with d digits and an m-character title iff the line has that exact shape |
| Patterns.NumberedLineHead | src/pages/Home.tsx:250-253 | on a line built from number, whitespace and title, the head, the leading digits and the first bold span are those parts |
| Patterns.NumberedHeadShape | src/pages/Home.tsx:250-253 | a matched head splits the line into leading digits, one whitespace, the bold title and the tail |
| Patterns.NumberedHeadTitle | src/pages/Home.tsx:252 | on a numbered line, the first bold span is the title inside the head |
| Patterns.NumberedLineKinds | src/pages/Home.tsx:250-265 | a numbered line passes the title regex iff its tail is empty or `:`, the item regex iff its tail starts with `:`, and the item's rest is the tail after the colon |
| Patterns.NumberedLineAt | src/pages/Home.tsx:250 | a line built from number, whitespace, title and tail has the numbered shape, and its parts can be read back |
| Patterns.NumberedAtLine | src/pages/Home.tsx:250 | a line of the numbered shape is the line built from its own parts |
| Patterns.LeadingDigits | src/pages/Home.tsx:251 | `^\d+` yields the maximal run of digits opening the line |
| Patterns.SearchFrom | src/pages/Home.tsx:278-280 | the first match at or after a position: it matches there, nothing matches before it, and none means no match at all |
| JsString.Split | src/pages/Home.tsx:212 | `s.split(sep)` for a non-empty separator: at least one piece, and at least two when the separator occurs; `SplitJoin`, `SplitCount` and the piece lemmas state the rest |
| JsString.SplitJoin | src/pages/Home.tsx:212 | joining the pieces of a split with the separator gives back the text |
| JsString.SplitCount | src/pages/Home.tsx:212 | splitting on one character yields one more piece than the character's occurrences |
| JsString.SplitPiecesAvoidSeparator | src/pages/Home.tsx:212-238 | no piece of a split contains the separator |
| JsString.SplitAround | src/pages/Home.tsx:212 | splitting `a + c + b` on `c` is splitting `a`, then splitting `b` |
| JsString.SplitHead | src/pages/Home.tsx:238-240 | when the separator occurs, the text starts with piece 0, the separator and piece 1, and neither piece holds the separator |
| JsString.SplitBy | src/pages/Home.tsx:287 | splitting on `''` gives the single characters; otherwise it is the ordinary split. The contract repeats the body clause for clause; `AfterPriceAsWrittenNoPrice` is the property that uses it |
| JsString.FirstPieceStops | src/pages/Home.tsx:238-239 | piece 0 of a split is the text cut at the leftmost separator, and it holds no separator |
| JsString.SecondPieceStops | src/pages/Home.tsx:238-240 | `s.split(sep)[1] \|\| ''`, when the separator occurs, is the text after its first occurrence cut at the next one |
| JsString.CutAtFirstUnique | src/pages/Home.tsx:238-240 | a text has only one prefix cut at the leftmost occurrence of a separator, so the split readings above fix their values |
| JsString.IndexOfFrom | src/pages/Home.tsx:237 | the first occurrence at or after a position, none meaning none at all |
| JsString.ReplaceFirst | src/pages/Home.tsx:218-228 | replacing a prefix swaps it for the replacement; a text without the pattern is unchanged |
| JsString.Trim | src/pages/Home.tsx:218 | the trimmed text has no whitespace at either end |
| JsString.TrimIsInfix | src/pages/Home.tsx:218 | the trimmed text is the slice between the leading and trailing whitespace runs |
| JsString.TrimEmptyIff | src/pages/Home.tsx:318 | a text trims to nothing iff it is all whitespace |
| JsString.TrimPadded | src/pages/Home.tsx:218 | whitespace on both sides of a text with non-whitespace ends is removed exactly |
| JsString.TrimIdempotent | src/pages/Home.tsx:218 | trimming twice is trimming once |
| Upload.CheckUpload | src/pages/Home.tsx:162-173 | no file does nothing; a type not starting `image/` is refused with the type message; otherwise over 20 MiB is refused with the size message; otherwise the same file is accepted. The contract repeats the body's three checks; `TypeCheckedBeforeSize`, `SizeBoundInclusive` and `SmallerAccepted` are its properties |
| Upload.TypeCheckedBeforeSize | src/pages/Home.tsx:166-169 | a non-image file is refused for its type whatever its size |
| Upload.SizeBoundInclusive | src/pages/Home.tsx:171-174 | the bound is 20971520 bytes; exactly that size is accepted and one byte more is refused |
| Upload.SmallerAccepted | src/pages/Home.tsx:171-174 | an accepted file stays accepted at any smaller size |
| Upload.ImageTypes | src/pages/Home.tsx:166 | `image/png` and `image/heic` pass; `Image/png` and an empty type are refused |
| Gemini.PromptFor | src/lib/gemini.ts:22 | the prompt is the trimmed custom prompt when that is non-empty, else the default prompt. The contract repeats the body; `PromptEnds` and `PromptTrimmed` are its properties |
| Gemini.DefaultPromptEnds | src/lib/gemini.ts:5 | the default prompt is non-empty with no whitespace at either end |
| Gemini.PromptEnds | src/lib/gemini.ts:22 | the prompt sent is never empty and never starts or ends with whitespace |
| Gemini.PromptTrimmed | src/lib/gemini.ts:22 | the prompt sent is already trimmed |
| Gemini.Payload | src/lib/gemini.ts:17 | `imageData.split('base64,')[1]`, with a missing piece read as `''`; `PayloadAfterMarker` states its value |
| Gemini.PayloadAfterMarker | src/lib/gemini.ts:17 | the payload is the text after the first `base64,`, cut at any later `base64,`; it is empty when there is no `base64,`, and it never holds the marker |
| Gemini.MarkerOnce | src/lib/gemini.ts:17 | with a single marker the payload is everything after it |
| Gemini.PayloadHoldsMarker | src/lib/gemini.ts:10-18 | a non-empty payload implies the data is non-empty and contains `base64,`, so the first check passes |
| Gemini.RejectsWithoutBase64 | src/lib/gemini.ts:10-45 | data without `base64` fails with `Failed to analyze image: Invalid image data format` |
| Gemini.RejectsWithoutPayload | src/lib/gemini.ts:17-45 | data with `base64` but an empty payload fails with `Failed to analyze image: Invalid base64 image data` |
| Gemini.Base64WithoutComma | src/lib/gemini.ts:17-20 | a data URL ending in `base64` with no comma is refused for its payload |
| Gemini.RequestFor | src/lib/gemini.ts:24-32 | the request sent: the chosen prompt, the `image/jpeg` type and the payload; `CallsModelWithPayload` and `PngSentAsJpeg` state it |
| Gemini.Attempt | src/lib/gemini.ts:8-41 | the body of the `try`, ending in the text or in the thrown value; `RejectsWithoutBase64`, `RejectsWithoutPayload`, `CallsModelWithPayload` and `SuccessIsReply` state its outcomes |
| Gemini.CallsModelWithPayload | src/lib/gemini.ts:22-32 | valid data calls the model once with the prompt, type `image/jpeg` and the payload, and the outcome is the reply's |
| Gemini.PngSentAsJpeg | src/lib/gemini.ts:24-32 | a PNG data URL is sent labelled `image/jpeg`, with its payload and the default prompt |
| Gemini.ReplyOutcome | src/lib/gemini.ts:34-47 | a non-empty reply is returned as is; an empty reply fails with `No analysis generated`; a thrown error is re-worded. The contract repeats the body case by case; `SuccessIsReply` and `AnalyzeImage` state the properties |
| Gemini.SuccessIsReply | src/lib/gemini.ts:24-41 | a success is exactly the model's non-empty reply to the payload request |
| Gemini.Rewrap | src/lib/gemini.ts:44-47 | every message starts `Failed to analyze image`; for an Error it is `Failed to analyze image: ` followed by the original message |
| Gemini.RewrapInjective | src/lib/gemini.ts:44-47 | different thrown values give different messages |
| Gemini.AnalyzeImage | src/lib/gemini.ts:7-48 | a success is a non-empty text; every failure message starts `Failed to analyze image` |
| AnalysisFixture.TitleLineBlock | src/pages/Home.tsx:10 | `## Running Shoe Analysis` is an H2 titled `Running Shoe Analysis` |
| AnalysisFixture.BlankLineBlock | src/pages/Home.tsx:11 | the empty line after the title is a spacer |
| AnalysisFixture.SectionHeadLineBlock | src/pages/Home.tsx:12 | `### Brand & Model Identification` is an H3 titled `Brand & Model Identification` |
| AnalysisFixture.VerdictLineBlock | src/pages/Home.tsx:13 | the emoji verdict line is a verdict with the emoji as prefix, the text after the marker as content and an empty remainder |
| AnalysisFixture.SentenceLineBlock | src/pages/Home.tsx:15 | the descriptive sentence, quotes and all, is a paragraph holding the whole line |
| AnalysisFixture.PlainParagraph | src/pages/Home.tsx:323-327 | a line opening with a character that is not whitespace, a digit, `#` or `-`, and holding no `V`, is a paragraph of the whole line |
| AnalysisFixture.SectionLineBlock | src/pages/Home.tsx:19 | `1. **Design Elements:**` is numbered title 1, `Design Elements:` |
| AnalysisFixture.MeshLineBlock | src/pages/Home.tsx:29 | an indented feature line is an indented bullet holding its text |
| AnalysisFixture.NikeLineBlock | src/pages/Home.tsx:82 | a retailer line with a price but no quote is an indented bullet, not a priced bullet |
| AnalysisFixture.EastbayLineBlock | src/pages/Home.tsx:91 | the Eastbay line is a priced bullet: brand `Eastbay`, item `SUMMER`, price `$89.99`, then the promo text |
| AnalysisFixture.PlainIndentedBullet | src/pages/Home.tsx:20-30 | any three-space-indented `- ` line with no `V` and no quote, whose text does not end in whitespace, is an indented bullet holding that text |
| AnalysisFixture.PricedIndentedBullet | src/pages/Home.tsx:88-97 | any three-space-indented `- **…` line with a quote and a `$` and no verdict marker is a priced bullet with the extracted fields |
| AnalysisFixture.EastbayFields | src/pages/Home.tsx:91 | the Eastbay line's brand, item name, price and after-price text are `Eastbay`, `SUMMER`, `$89.99` and ` - With promo code "SUMMER"` |
| AnalysisFixture.PricedLine | src/pages/Home.tsx:277-287 | a line passing the priced guard, and not a verdict, is read out as a priced bullet |
| AnalysisFixture.NoPriceBullet | src/pages/Home.tsx:277-287 | a line passing the priced guard with no price token gets an empty price and empty after-price text, while the code as written yields its second character |
| AnalysisFixture.StrayLineBlock | src/pages/Home.tsx:277-287 | ` - **Nike**: "Air" $TBA` is a priced bullet with no price; the code as written puts `-` after the price |

## Left out

- React state, effects and rendering: the markup and CSS of each block, the loading flag, the preview image, and fetching and reading the default image on first load. Only the kind and the fields of each block are modelled.
- `currentSection` in the formatter is assigned but never read. It has no effect and is not modelled.
- The key of each block is its line index. It equals the block's position in `Format`'s result and is not stored.
- FileReader, the data URL it produces, and its read-error message: the browser does I/O that cannot be seen here. `Upload.Outcome.Accepted` stands for "the file is read and analysed".
- Resetting the file input after a choice is DOM state.
- The generative model and its SDK client, the API key, the `gemini-1.5-flash` model name, and awaiting the response: the call is the parameter `generate`. A reply is either text or a thrown value.
- `console.error` in the catch block is logging only.
- `handleAnalyze` shows `err.message` for an Error and a fixed text otherwise. Every failure of `analyzeImage` is an Error whose message `Gemini.AnalyzeImage` gives, so the displayed text is that message. The page state it sets is not modelled.
- JavaScript strings are UTF-16 code units; the model uses Unicode characters. Every index the formatter reads sits after ASCII characters, and whitespace, digits and the markers are single units. Only a line with astral characters before a split point would be counted differently, and the kind of block does not depend on that.
- The About, Header, Footer and support components are static markup.
- The fixture lemmas cover one line of each kind that occurs in the built-in analysis (H2, H3, spacer, verdict, paragraph, numbered title, indented bullet, priced bullet), not all of its 112 lines.
- Formatter.Classify: on a line that passes the priced guard but holds no price token, the block's after-price text is `''`, where the code as written gives the line's second character. `Formatter.AfterPriceAsWritten` models the code as written, and the Findings table records the difference.

## Findings

| source | as written | input that shows it | evidently intended | confidence | as-written member | corrected member |
|---|---|---|---|---|---|---|
| src/pages/Home.tsx:287 | `line.split(price)[1] \|\| ''`, where `price` is `''` when no price token matched; splitting on `''` cuts the line into characters, so the after-price text is the line's second character | ` - **Nike**: "Air" $TBA` passes the priced guard (it has `- **`, a `"` and a `$`) but has no price token; the block shows `-` after an empty price | no text after the price when there is no price | high; not executed | Formatter.AfterPriceAsWrittenNoPrice | Formatter.PricedAfterPrice |
