# Copy Code Cleaner — a Dafny model of the content script

The content script (`content.js`) of the Copy Code Cleaner browser extension
does two things:
- It finds the code blocks of a web page and gives each one a "Copy Clean"
  button.
- On a click, it copies the block's text after cleaning it.

This project models both parts and proves what they do.

- `js_string.dfy` (`JsString`) holds the JavaScript string built-ins the
  script relies on. These are the `\s` character class shared by `trim`
  and `trimEnd`, `split('\n')`, `join('\n')` and `substring(start)`.
- `text_cleaner.dfy` (`TextCleaner`) models the cleaning pipeline, made of
  `cleanCode` and `normalizeIndentation`:
  - Each step is a specification function: the one-line prefix strip,
    `trimEnd`, blank-edge trimming, indentation normalisation, and
    `Cleaned` for the whole pipeline.
  - The script's own loops are methods proved equal to those functions.
    `TrimBlankLines` holds the `shift`/`pop` loops, `NormalizeIndentation`
    the `minIndent` loop, and `CleanCode` composes the steps.
- `page_scanner.dfy` (`PageScanner`) models the page bookkeeping:
  - The page is a list of `Block` records, the elements `querySelectorAll`
    returns, in document order. Each record holds the trimmed text length,
    the `data-ccc-processed` attribute, whether the block sits inside a
    button wrapper, and whether it is still in the document.
  - Scan and cleanup are functions over that list.
  - The class `CodeCleaner` holds the script's state: the settings, whether
    the observer is connected, and whether a debounced rescan is pending.
    Its methods are the script's functions and event handlers.
- `cleaner_examples.dfy` (`CleanerExamples`) works through concrete inputs.
  They show behaviour a reader of the function names would not expect.

What the model shows about the code as written:
- **`preserveIndentation` never changes the output.** The prefix pattern
  `^\s*(\d+\.?\s*|\$\s*|>*\s*)` always matches, because its last
  alternative can match the empty string. So every line loses all its
  leading whitespace before `normalizeIndentation` runs, and that step
  then returns its input.
- **Only one prefix goes, and any leading number goes.** The pattern has
  no `g` flag, so "1. 2. x" becomes "2. x". A line of code that starts with
  a number loses it: "3 + 4" becomes "+ 4".
- **Cleaning is not idempotent.** Cleaning "1. 2. x" once gives "2. x";
  cleaning that again gives "x".
- **Indentation is always lost.** "    a\n      b" cleans to "a\nb" with
  either setting.
- **The nesting check never skips a block.** `Element.closest` starts at
  the element itself, so `block.closest(CODE_SELECTORS) !== block` is never
  true for a block that matched the selectors.
- **Cleanup removes the code blocks.** `addCopyButton` moved each block
  into its wrapper, and removing the wrappers takes the blocks with them.
  The attribute-removal pass then finds nothing on a consistent page.
  Turning the extension off and on again never gives those blocks a button
  back.
- **A rescan after disabling does nothing.** `stopObserver` does not cancel
  a pending rescan, but the rescan re-checks `isEnabled` and leaves the
  page alone.

Where the script's own comments say more than the code does, the model
follows the code:
- The comment at content.js:109 speaks of removing line-number prefixes
  such as "1.", "1 " and "$ ". The pattern also removes a leading number
  that is not a line number ("3 + 4" becomes "+ 4",
  `CleanerExamples.LeadingNumberEaten`). It removes the leading whitespace
  of every line, because `>*` also matches zero `>` characters
  (`TextCleaner.StripPrefixRemovesOneMatch`). And it removes only one
  prefix, so cleaning twice can give more than cleaning once
  (`CleanerExamples.CleanNotIdempotent`).
- The comment at content.js:131 says `normalizeIndentation` removes the
  common leading whitespace. It removes `minIndent` characters only from
  lines that start with a space; a line that starts with a tab is kept
  (`TextCleaner.NormalizedLine`). Inside `cleanCode` it never has anything
  to remove, so relative indentation is lost whatever the setting
  (`CleanerExamples.IndentationLost`).
- The comment at content.js:23 says the nesting test avoids nested buttons.
  The test never rejects a block (`PageScanner.Qualifies`).
- The comment at content.js:33 says cleanup removes the injected buttons and
  attributes. It also removes the code blocks themselves, which sit inside
  the removed wrappers (`PageScanner.CleanupAt`).

## Model

| member | source | states |
|---|---|---|
| `JsString.TrimEnd` | content.js:112 | `trimEnd` keeps a prefix of the line that is empty or ends in a non-whitespace character; everything cut off is whitespace |
| `JsString.Split` | content.js:106 | `split('\n')` gives at least one piece, and no piece holds a newline |
| `JsString.JoinSplit` | content.js:106 | joining the pieces of a split with '\n' gives the original string back |
| `JsString.Join` | content.js:127 | `join('\n')` of at least one line starts with the first line |
| `JsString.SplitJoin` | content.js:127 | splitting a join of newline-free lines gives the lines back |
| `JsString.SplitBlank` | content.js:106 | a whitespace-only string splits into whitespace-only lines |
| `TextCleaner.MatchEnd` | content.js:110 | the match of the prefix pattern ends within the line, and the character after it is never whitespace |
| `TextCleaner.StripPrefix` | content.js:110 | the replaced line is a suffix of the original, and it is empty or starts with a non-whitespace character |
| `TextCleaner.StripPrefixRemovesOneMatch` | content.js:110 | what is removed is exactly one match of the pattern, the one the engine finds: all leading whitespace, then, with the alternatives tried in order, the longest number label (digits, an optional '.', whitespace) if a digit follows, else the longest '$' with whitespace if a '$' follows, else the longest possibly empty run of '>' with whitespace; the rest of the line is unchanged |
| `TextCleaner.NoLongerNumberLabel` | content.js:110 | the greedy `\d+`, `\.?` and `\s*` leave no longer number label starting at the same place |
| `TextCleaner.NoLongerQuoteMarker` | content.js:110 | the greedy `>*` and `\s*` leave no longer quote marker starting at the same place |
| `TextCleaner.StripLine` | content.js:107-112 | after both `map` calls a line is empty or starts and ends with a non-whitespace character |
| `TextCleaner.StripLineNoNewline` | content.js:106-112 | a line without a newline strips to a line without one |
| `TextCleaner.StripBlankLine` | content.js:107-112 | a whitespace-only line strips to the empty line |
| `TextCleaner.StrippedLines` | content.js:107-112 | the two `map` calls keep the number of lines |
| `TextCleaner.StrippedLineAt` | content.js:107-112 | line i after the two `map` calls is input line i stripped |
| `TextCleaner.StrippedLinesTidy` | content.js:106-112 | every stripped line of split text has no newline and no whitespace at either end |
| `TextCleaner.TrimBlankEdges` | content.js:115-120 | after the `shift` and `pop` loops there are no more lines than before, the first and last lines are non-blank, and nothing is left exactly when every line was blank |
| `TextCleaner.TrimBlankEdgesBetween` | content.js:115-120 | when everything before `lo` and from `hi` on is blank, and the lines at both ends of `lo..hi` are not, the loops keep exactly `lines[lo..hi]` |
| `TextCleaner.TrimmedIsSlice` | content.js:115-120 | the `shift`/`pop` loops keep a contiguous run of the lines, in order, and cut only blank lines, only at the ends |
| `TextCleaner.TidyTrimmed` | content.js:115-120 | trimming blank edges keeps lines free of surrounding whitespace |
| `TextCleaner.TrimmedTidy` | content.js:107-120 | the lines left after the loops have no newline and no whitespace at either end |
| `TextCleaner.TrimBlankLines` | content.js:115-120 | the `shift` loop followed by the `pop` loop returns exactly the blank-edge-trimmed lines |
| `TextCleaner.LeastIndent` | content.js:136-145 | the result is Infinity exactly when every line is blank; otherwise it is at most every non-blank line's indentation and equal to one of them |
| `TextCleaner.FilterThenMinimum` | content.js:136-145 | filtering out blank lines and folding `Math.min` from Infinity gives the least indentation of the non-blank lines |
| `TextCleaner.Dedent` | content.js:148 | a line keeps a suffix of itself; one starting with a space loses exactly `minIndent` characters, or all of them when it is shorter; any other line is unchanged |
| `TextCleaner.Normalized` | content.js:135-152 | `normalizeIndentation` returns as many lines as it is given |
| `TextCleaner.NormalizedIdentity` | content.js:137-151 | input whose lines are all blank, or which has a non-blank line with no leading whitespace, comes back unchanged |
| `TextCleaner.NormalizedLine` | content.js:147-151 | a line not starting with a space is unchanged, a tab-led one included; a space-led line becomes its `substring(minIndent)`, which is "" past its end; a non-blank line loses only leading whitespace |
| `TextCleaner.NormalizedUnindented` | content.js:135-151 | lines that never start with whitespace come back unchanged |
| `TextCleaner.NormalizeIndentation` | content.js:135-152 | the filter, the `minIndent` loop and the final `map` return exactly `Normalized(lines)` |
| `TextCleaner.PreserveIndentationHasNoEffect` | content.js:123-124 | inside `cleanCode`, `normalizeIndentation` is the identity, so the lines joined are the same for either `preserveIndentation` setting |
| `TextCleaner.Cleaned` | content.js:99-128 | the output for decoded text is the stripped lines, blank edges trimmed, joined by '\n', whatever the `preserveIndentation` setting |
| `TextCleaner.CleanedIsTrimmed` | content.js:115-124 | the lines `cleanCode` joins are exactly the stripped lines with blank edges trimmed, for either setting |
| `TextCleaner.CleanedLinesAreSlice` | content.js:107-124 | the output lines are a contiguous, order-preserving run of the stripped input lines, with only blank lines cut at the ends; interior blank lines stay |
| `TextCleaner.OutputLinesTidy` | content.js:112-127 | no line of the output starts or ends with whitespace |
| `TextCleaner.JoinTidyLines` | content.js:127 | tidy lines joined with '\n' split back into the same lines, and join to "" only when there are none or one empty one |
| `TextCleaner.BlankEdgesGone` | content.js:115-127 | the output is "" exactly when every stripped line is blank; otherwise its first and last lines each hold a non-whitespace character |
| `TextCleaner.BlankInputCleansToEmpty` | content.js:106-127 | empty or whitespace-only input cleans to "" |
| `TextCleaner.CleanCode` | content.js:99-128 | decode, split, the two `map` calls, the two loops, optional normalisation and join return exactly `Cleaned(decode(text), preserveIndentation)` |
| `CleanerExamples.OnlyOnePrefixGoes` | content.js:110 | "1. 2. x" loses only "1. " |
| `CleanerExamples.LeadingNumberEaten` | content.js:110 | "3 + 4" loses its leading number |
| `CleanerExamples.SingleLineCleaned` | content.js:99-128 | one-line text cleans to the stripped line when that is not blank |
| `CleanerExamples.TwoLinesCleaned` | content.js:99-128 | two-line text cleans to the two stripped lines joined by '\n' when neither is blank |
| `CleanerExamples.CleanNotIdempotent` | content.js:110 | cleaning "1. 2. x" gives "2. x", and cleaning that again gives "x" |
| `CleanerExamples.IndentationLost` | content.js:123-124 | "    a\n      b" cleans to "a\nb" even with normalisation on |
| `PageScanner.Closest` | content.js:24 | `closest` gives the nearest of the element and its ancestors that matches, or none when none does |
| `PageScanner.Qualifies` | content.js:22-24 | whatever the block's ancestors, it passes the scan's tests (more than 10 characters of trimmed text, no attribute, `closest` is the block itself) and is still in the document exactly when it is attached, long enough and unmarked: the nesting test never rejects |
| `PageScanner.Scan` | content.js:17-29 | after a scan no block qualifies, and only blocks that qualified changed |
| `PageScanner.ScanAt` | content.js:17-29 | a scan marks and wraps a block exactly when it is attached, has more than 10 characters of trimmed text and is not yet marked; nothing else changes |
| `PageScanner.ScanIdempotent` | content.js:22-27 | a second scan with nothing else changed leaves the page unchanged |
| `PageScanner.ScanChangesIffSomeQualify` | content.js:20-29 | a scan changes the page exactly when some block qualifies |
| `PageScanner.ScanKeepsConsistent` | content.js:26-27 | a scan keeps the attribute and the wrapper together |
| `PageScanner.Cleanup` | content.js:35-38 | after cleanup no attached block carries the attribute or a wrapper, and detached blocks are left as they were |
| `PageScanner.CleanupAt` | content.js:35-38 | after cleanup a block is attached exactly when it was attached and unwrapped; an attached block has no attribute; a detached block is untouched |
| `PageScanner.CleanupOnlyDetaches` | content.js:36-37 | on a consistent page the attribute-removal pass finds nothing; cleanup only detaches wrapped blocks |
| `PageScanner.CleanupKeepsConsistent` | content.js:35-38 | cleanup keeps the attribute and the wrapper together |
| `PageScanner.ReenableLosesWrappedBlocks` | content.js:35-38 | a block that had a button is gone after cleanup, and a later scan does not bring it back |
| `PageScanner.CodeCleaner.constructor` | content.js:243-251 | a stored value other than `false` means on; when on, the page is scanned and the observer connected |
| `PageScanner.CodeCleaner.InitializeCodeCleaner` | content.js:16-30 | when disabled nothing changes; when enabled the blocks become `Scan` of the old blocks, and a rescan is armed when the observer sees the new wrappers |
| `PageScanner.CodeCleaner.CleanupCodeCleaner` | content.js:35-38 | the wrapper loop and then the attribute loop leave exactly `Cleanup` of the old blocks, and nothing else changes |
| `PageScanner.CodeCleaner.StartObserver` | content.js:188-195 | the observer is connected only when enabled |
| `PageScanner.CodeCleaner.StopObserver` | content.js:199-201 | the observer is disconnected, and a pending rescan stays pending |
| `PageScanner.CodeCleaner.OnMutations` | content.js:175-183 | called only while the observer is connected; a rescan is pending afterwards exactly when one was pending or some mutation record added nodes; one flag, so at most one rescan is pending |
| `PageScanner.CodeCleaner.FireRescan` | content.js:179-180 | the timer runs the scan; after disabling it changes nothing and no rescan stays pending; when enabled, the new wrappers arm another rescan exactly when some block qualified |
| `PageScanner.CodeCleaner.OnChanged` | content.js:254-269 | outside the local area nothing changes; turning on scans and connects; turning off cleans up and disconnects; the indentation setting takes the new value; the state stays valid |
| `PageScanner.CodeCleaner.HandleCopyClick` | content.js:66-69 | the copied text is the cleaned block text, and it is the same whichever indentation setting is in force |

## Left out

- HTML entity decoding (content.js:101-103) goes through the browser's HTML
  parser. It enters `TextCleaner.CleanCode` as the parameter `decode`, and
  nothing is assumed about it.
- `getCodeFromBlock` (content.js:85-91) clones the element, removes noise
  elements and reads `innerText`, which is DOM rendering.
  `PageScanner.CodeCleaner.HandleCopyClick` takes the extracted text as a
  parameter.
- The DOM work of `addCopyButton` (content.js:44-59) is reduced to the
  `wrapped` flag and the click handler. Left out with it are `injectStyles`
  (content.js:207-239) and `showFeedback` with its 1500 ms timer
  (content.js:159-168): styling and UI only.
- The clipboard write in `handleCopyClick` and its `try`/`catch`
  (content.js:71-77) is an asynchronous browser call.
- Timer durations are left out. The 500 ms debounce is a pending flag, and
  the timer firing is the method `FireRescan`.
- Selector matching against `CODE_SELECTORS` (content.js:9) is left out:
  the block list is taken to be the result of `querySelectorAll`.
- Mutation records are reduced to their numbers of added nodes. The page
  inserting blocks of its own is the method `PageAddsBlocks`, which is not
  part of the script.
- The popup and the background script (`popup/popup.js`, `background.js`)
  are not part of this model.
- `PageScanner.CleanupAt`: blocks are a flat list, so containment between
  matched elements is not modelled. Removing a wrapper (content.js:36) also
  detaches any matched element nested inside the wrapped block; the model
  keeps such an element attached, and a later scan may give it a button the
  script would not. A block's text length is also fixed once the block is
  on the page, so text that grows past 10 characters later is not modelled.
- `PageScanner.CodeCleaner.OnChanged`: the `!!` coercion of a stored value
  that is not a boolean is not modelled; the new value arrives as a `bool`.
- `PageScanner.CodeCleaner.constructor`: stored values are `Option<bool>`,
  so a stored non-boolean is not modelled. A settings change arriving
  before the stored settings load is not modelled either.
- Strings are sequences of Unicode scalar values, not UTF-16 code units.
  The pipeline only tests characters against whitespace, digits, '$', '>'
  and the newline, all in the Basic Multilingual Plane. The trimmed text
  length of a block is an input number, so how it is counted is not
  modelled.
