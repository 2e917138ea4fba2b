# Screen OCR content script — a Dafny model

A model of the logic in `content.js`, the content script of a browser extension. The user drags a rectangle over the page. The script captures and crops it, sends it to a recognition service and shows the recognised text in a draggable card with speech practice. The model covers the parts of that script that compute or keep state:

- **HtmlEscape** — `escapeHtml`, the five global replaces applied to text before it goes into an `innerHTML` template. It is proved equal to a single per-character map, free of raw markup characters, the identity on plain text, and decoded back to the input by an HTML entity decoder.
- **LanguageCode** (with **Text**) — `mapLanguageToCode`. The lower-cased name is tested against seven keywords in order; the first hit wins and English is the default.
- **Similarity** — `calculateSimilarity` and the three score bands of the pronunciation feedback. Tokenising is the strip/split/filter chain. The match count is the loop of the source. The score is the exact fraction `matches / max(|tokens1|, |tokens2|)` of naturals.
- **Geometry** — the selection box that `onMouseMove` writes.
- **CapturePipeline** — the `try` block of `onMouseUp`: screenshot, crop, settings, recognition, render. External answers are inputs, including a failing screenshot, settings read or recognition call, and any failure ends in one error toast.
- **Selection** — the module-level state `overlay`, `selectionBox`, `startX`, `startY`, `isDrawing`, as the class `ContentScript`. Each handler and `cleanup` is a method. The document is abstracted to node counts and listener flags. The class invariant keeps at most one overlay and at most one result card.
- **Draggable** — the closure of `makeDraggable` as the class `Drag`. It covers the target-eligibility rule and the viewport clamp of the drag handler.

Some behaviours of the code that a reader might expect to be otherwise:

- `startCapture` removes an existing overlay but not an existing result card. The card is only replaced later by `showResult`, or removed by its close and "scan next" buttons. At most one card still holds.
- The box captured on release is the box written by the last pointer move. It is not recomputed from the release point.
- The clamp runs on every move frame, not on release. `dragEnd` clamps nothing.
- The code has no 3 px drag threshold, no click suppression, no 10 px card margin and no vocabulary-list response. These are not modelled.

## Model

| member | source | states |
|---|---|---|
| `HtmlEscape.EscapeHtml` | content.js:740-748 | a missing or empty text gives `''`, and no raw `<`, `>`, `"` or `'` survives |
| `HtmlEscape.Chain` | content.js:742-747 | the five replaces in their order leave no raw markup character: each removes its own and brings in none of the later ones |
| `HtmlEscape.ReplaceAll` | content.js:743 | a global replace of one character removes it when the replacement lacks it, and keeps every character other than it and those of the replacement present exactly when it was |
| `HtmlEscape.EscapeChar` | content.js:743-747 | each of the five special characters maps to an entity with no raw markup character; every other character maps to itself |
| `HtmlEscape.EscapeEach` | content.js:740-748 | the per-character escape contains no raw `<`, `>`, `"`, `'`, is never shorter than its input, and is the identity on text without the five characters |
| `HtmlEscape.ChainIsEscapeEach` | content.js:742-747 | the chain of five replaces, `&` first, equals the single per-character map |
| `HtmlEscape.EscapeHtmlIsPerCharacter` | content.js:740-748 | a missing text gives `''`; any other text gives its per-character escape |
| `HtmlEscape.EscapeHtmlPlainText` | content.js:742-747 | text with none of the five characters is returned unchanged |
| `HtmlEscape.EscapeHtmlRoundTrip` | content.js:740-748 | decoding the five entities of `escapeHtml(s)` gives back `s`: the entity decoding recovers the text |
| `HtmlEscape.UnescapeEscapeChar` | content.js:743-747 | an entity decoder consumes exactly one escaped character at the front |
| `Text.LowerChar` | content.js:563 | an ASCII capital becomes its small letter; every other character is kept |
| `Text.ToLower` | content.js:563 | lower-casing keeps the length and folds each character on its own |
| `LanguageCode.Contains` | content.js:565-571 | `includes` never finds a keyword in a shorter name |
| `LanguageCode.ContainsOccurs` | content.js:565-571 | `includes` holds iff the keyword is the slice of the name at some position |
| `LanguageCode.Normalised` | content.js:563 | the lower-cased name is as long as the name and has no ASCII capital; a missing name gives `''` |
| `LanguageCode.MapLanguageToCode` | content.js:562-575 | the if-chain equals the lookup that walks the seven keyword rows in order and returns the first hitting row's code, else English |
| `LanguageCode.FirstHitWins` | content.js:562-571 | when row k's keyword is the first one in the lower-cased name, the result is row k's code in the requested mode |
| `LanguageCode.NoHitIsEnglish` | content.js:573-574 | a name with none of the seven keywords maps to `en`, or `en-US` in full-locale mode |
| `LanguageCode.ResultIsKnownCode` | content.js:562-575 | the result is either English or the code of the first keyword row the name hits |
| `LanguageCode.LeastHit` | content.js:565-571 | if some keyword hits, a first hitting row exists at or before it |
| `LanguageCode.ChinaIgnoresMode` | content.js:568 | the `china` row yields `zh-CN` in both modes |
| `LanguageCode.MissingFirstLetter` | content.js:565-571 | `includes` fails when the keyword's first letter is absent from the name |
| `LanguageCode.JapaneseIsJapanese` | content.js:566 | the reported name `Japanese` maps to the `japan` row |
| `LanguageCode.ChineseHitsNoKeyword` | content.js:565-571 | `chinese` contains none of the seven keywords |
| `LanguageCode.ChineseIsEnglish` | content.js:563-575 | the reported name `Chinese` maps to English in both modes, because it does not contain `china` |
| `LanguageCode.MissingNameIsEnglish` | content.js:563 | a missing name maps to English |
| `Similarity.IsWordChar` | content.js:580 | `\w` without the `u` flag is ASCII only |
| `Similarity.IsSpace` | content.js:580 | no `\s` character is a `\w` character |
| `Similarity.StripPunctuation` | content.js:580 | the result holds only word and white-space characters of the input; a string of only those is unchanged |
| `Similarity.StripPunctuationAppend` | content.js:580 | the global replace works character by character: stripping `a + b` is stripping `a`, then `b` |
| `Similarity.SplitWords` | content.js:580 | every token is non-empty, free of white space, and made of characters of the text |
| `Similarity.SplitWordsReadsWord` | content.js:580 | characters that are not white space extend the current word and never end a token |
| `Similarity.SplitWordsOfWord` | content.js:580 | a single word is a single token |
| `Similarity.SplitWordsAtSpace` | content.js:580 | a white-space character splits the text, and each side is split on its own; a run of white space or white space at either end makes no empty token |
| `Similarity.SplitWordsKeepsText` | content.js:580 | splitting drops only white space: the tokens joined give the text without its white space |
| `Similarity.Tokens` | content.js:580-581 | every token is a non-empty run of lower-case ASCII letters, digits and underscores |
| `Similarity.TokensSpellText` | content.js:580-581 | the tokens are words, and joined they spell the lower-cased, punctuation-free text without white space |
| `Similarity.Count` | content.js:589-591 | the number of matches never exceeds the number of transcript words |
| `Similarity.CountAllIn` | content.js:589-591 | when every word is in the set, every word is a match |
| `Similarity.SimilarityOf` | content.js:578-597 | the score is a fraction with a positive denominator, never above 1 |
| `Similarity.CalculateSimilarity` | content.js:578-597 | the loop computes the specified score, a fraction with a positive denominator and numerator at most the denominator |
| `Similarity.SimilarityInUnitInterval` | content.js:594-595 | the score lies in [0, 1], and the cap `score > 1` never changes it |
| `Similarity.DegenerateScoresZero` | content.js:579-583 | a missing or empty input, or an original without words, scores 0 |
| `Similarity.IdenticalScoresOne` | content.js:579-594 | a transcript with the same words as the original (at least one), whatever its case, punctuation and spacing, scores exactly 1 |
| `Similarity.BandOf` | content.js:493 | high iff score > 0.8, mid iff 0.5 < score <= 0.8, low iff score <= 0.5, on the exact score |
| `Similarity.ThresholdsExact` | content.js:493 | the integer tests `5n > 4d` and `2n > d` agree with `n/d > 0.8` and `n/d > 0.5` |
| `Similarity.QuotientAbove` | content.js:493 | comparing a quotient with a positive denominator against a threshold is comparing across |
| `Geometry.Span` | content.js:146-149 | the box has non-negative width and height and covers both the anchor and the pointer |
| `Geometry.SpanIsSmallest` | content.js:146-149 | the box lies within every box that covers both points |
| `Geometry.SpanSymmetric` | content.js:146-149 | swapping anchor and pointer gives the same box |
| `Geometry.SpanOfPoint` | content.js:133-136 | a move back to the anchor spans the same 0 x 0 box that `onMouseDown` writes |
| `Geometry.TooSmall` | content.js:172 | a box that is not too small has an area of at least 20 x 20 px |
| `Geometry.TooSmallSpan` | content.js:172 | the box is too small exactly when the pointer moved less than 20 px along an axis |
| `CapturePipeline.TargetLang` | content.js:216 | the service is never asked for an empty language: an unset or empty setting gives `vi`, any other setting is used as stored |
| `CapturePipeline.RunPipeline` | content.js:187-231 | the requests are made in the fixed order screenshot, crop, settings, recognition, render, none skipped, and a card is shown exactly when all five were made |
| `CapturePipeline.ScreenshotErrorStopsFirst` | content.js:191-195 | a screenshot error stops before the crop and the settings read and shows its message |
| `CapturePipeline.ConfigErrorStopsBeforeRecognition` | content.js:207-231 | a failing settings read stops after the read, before the recognition call, and shows its error |
| `CapturePipeline.MissingKeyStopsBeforeRecognition` | content.js:207-211 | a missing API key stops before the recognition call, with the configuration message |
| `CapturePipeline.RenderedIffAllSucceed` | content.js:187-231 | the result is rendered iff the screenshot, the settings read, the key check and the recognition all succeeded; a failure shows an error toast and renders nothing |
| `CapturePipeline.RecognitionArguments` | content.js:199-216 | the service gets the cropped image of the committed box, the stored key, and the stored language, `vi` by default |
| `Selection.ContentScript.constructor` | content.js:4 | the script starts with no overlay, not drawing, and no listeners |
| `Selection.ContentScript.Cleanup` | content.js:242-250 | safe with no overlay; afterwards there is no overlay node, no selection box, no drawing and no Escape listener; without an overlay it changes nothing, so it is idempotent |
| `Selection.ContentScript.StartCapture` | content.js:90-122 | cleans up first; when the theme read succeeds, leaves exactly one overlay with a hidden 0 x 0 box and the pointer and Escape listeners; when it fails, leaves no overlay and no listeners |
| `Selection.ContentScript.OnMouseDown` | content.js:124-138 | drawing starts at the anchor with a 0 x 0 box there |
| `Selection.ContentScript.OnMouseMove` | content.js:140-155 | while drawing, the box spans anchor and pointer; otherwise no field changes |
| `Selection.ContentScript.OnMouseUp` | content.js:157-233 | ignored, with no field changed, unless drawing; otherwise stops drawing, detaches the listeners and removes the overlay; a box under 20 px cancels with nothing else; a larger one runs the pipeline, which ends in one card or one more error toast |
| `Selection.ContentScript.OnKeyDown` | content.js:235-240 | Escape cleans up and touches no card or toast; any other key leaves every field unchanged |
| `Selection.ContentScript.DeliverMouse` | content.js:118-120 | a pointer event reaches a handler only while the overlay listeners are registered, and then has that handler's effect: a press anchors a 0 x 0 box at the pointer; a move while drawing spans anchor and pointer; a release while drawing removes the overlay and cancels or captures the box the last move wrote, ending in one card or one more error toast; without the listeners no field changes |
| `Selection.ContentScript.DeliverKey` | content.js:121 | a key reaches `onKeyDown` only while its listener is registered; Escape then removes the overlay, the box and every listener; without the listener, or for a key other than Escape, every field is unchanged; no key touches the card or the toasts |
| `Selection.ContentScript.CloseResult` | content.js:523-529 | the close button leaves no result card and may change nothing but the card count |
| `Selection.ContentScript.ScanNext` | content.js:532-537 | "scan next" removes the card and starts a fresh capture: an overlay exists afterwards iff the theme read succeeded; no error toast is added |
| `Selection.PressWithoutMoveCancels` | content.js:172-176 | a press released without a move always cancels: the box is 0 x 0 |
| `Selection.DragCommitsOnce` | content.js:159-168 | the release commits the box of the last move, and every later pointer event is ignored |
| `Selection.AtMostOneOverlay` | content.js:90-111 | any sequence of captures, pointer events, keys and closes leaves at most one overlay and one card |
| `Draggable.ClosestTagAny` | content.js:650-651 | `closest(tag)` holds iff the target or an ancestor has the tag |
| `Draggable.ClosestClassAny` | content.js:664 | `closest('.cls')` holds iff the target or an ancestor has the class |
| `Draggable.CanStartDrag` | content.js:646-666 | a drag starts iff the target is no input or text area, and neither it nor an ancestor is a button, a select or a text block |
| `Draggable.ClampPosition` | content.js:707-722 | the position is clamped: left <= innerWidth - 50 and top <= innerHeight - 50 always; left + width >= 50 and top >= 0 when those bounds can both hold; a position inside the bounds is unchanged |
| `Draggable.Drag.constructor` | content.js:635-642 | a fresh draggable element is not dragging, not pinned, and at its laid-out position |
| `Draggable.Drag.DragStart` | content.js:644-694 | a drag starts exactly on an eligible target; it pins the element at the position it is drawn at when pressed, read from the layout, and takes that as the origin; an ineligible press changes nothing |
| `Draggable.Drag.OnMouseMove` | content.js:696-727 | while dragging, the element moves by the pointer's offset from the origin, clamped to the viewport bounds with its current width; otherwise nothing changes; the element moves only once pinned |
| `Draggable.Drag.DragEnd` | content.js:729-737 | the drag stops and the document listeners go; nothing else may change, so the position stays |
| `Draggable.DragFollowsPointer` | content.js:668-724 | a press on an eligible target and a move to a position inside the bounds put the element exactly at its drawn position plus the pointer's offset |

## Left out

- `callGroqAPI`, `translateTextOnly` and `cropImage` (content.js:253-340): the HTTP calls, JSON parsing and canvas drawing are external. Their answers are the `Env` of the pipeline. A crop whose image never loads would hang the real pipeline; the model always gives a crop.
- Speech: `playGoogleTTS` and the speech-recognition handlers (content.js:450-559) play audio and run speech recognition. Only the scorer and its bands are modelled. The `Math.round(score * 100)` display is float formatting.
- `showResult` and `showError` (content.js:343-416, 599-617): the `innerHTML` templates and the toast timers are DOM work. A result card is a node count, and each error toast counts once. A response that makes `showResult` throw is not modelled.
- The floating button, the storage listeners, theme classes and the message listener (content.js:7-86): DOM setup and extension messaging.
- Asynchrony: `startCapture` awaits the settings store between `cleanup` and the new overlay (its failure is modelled: no overlay), and `onMouseUp` awaits each pipeline step. The model runs each handler as one atomic step. The at-most-one-overlay property is proved for handlers that do not interleave.
- The drag's animation-frame coalescing: each move is applied at once. Coordinates are integers, while the browser's layout values may be fractional.
- `Text.LowerChar`: only ASCII capitals are folded. JavaScript's `toLowerCase` also folds other letters. The scorer strips non-ASCII letters anyway, and the language keywords are ASCII. The only difference is for the rare characters whose lower case is ASCII, such as U+0130 and the Kelvin sign.
- Strings are sequences of Unicode scalar values, not UTF-16 code units. This is the same for all the characters the tokeniser keeps.
- `Selection.ContentScript.OnMouseDown`, `OnMouseMove`, `OnMouseUp` and `OnKeyDown` require that their listener is registered: the browser calls them only then. `DeliverMouse` and `DeliverKey` model delivery without that requirement.
- `Geometry.TooSmall` tests the style box that `onMouseMove` wrote, while content.js:167-172 tests `getBoundingClientRect`, which also counts any CSS border or padding of `#ocr-selection`. The stylesheet is not part of this model; with a border the real box is larger by its width on each side.
- Before the first pointer press, the hidden selection box is modelled as a 0 x 0 box at the origin. The real layout of that hidden box depends on the stylesheet, which is not part of this model.
