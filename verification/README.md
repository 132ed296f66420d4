# Verified models of Munin's algorithms and protocols

Munin is an agent-run customer-conversation platform. Most of it is wiring; this
project models the parts that carry real algorithms or protocols and proves what
they promise, for every input and every execution:

| file | models |
|---|---|
| `DiffLines.dfy` | the line diff (table, walk, line splitting) |
| `RobotsPattern.dfy`, `RobotsRules.dfy` | the robots.txt matcher, file reader and verdict of the crawler |
| `NationalId.dfy`, `CheckDigits.dfy`, `Redaction.dfy` | finding and redacting national identity numbers |
| `Framing.dfy` | neutralising framing tags in untrusted text |
| `Chunker.dfy` | splitting documents into overlapping chunks |
| `TranslationBatches.dfy`, `TranslationScheduler.dfy` | packing and scheduling translations |
| `ToolLoop.dfy` | the agent's tool loop and the eviction of old tool results |
| `HistoryBudget.dfy` | loading images and compacting history under a budget |
| `ConversationRun.dfy`, `ConversationHandler.dfy`, `ConversationPlan.dfy` | overlapping conversation runs, aborts and server claims, and the whole story of a run |
| `Realtime.dfy` | the dashboard's reference-counted socket client |
| `Contrast.dfy` | the widget's contrast search |
| `OrgPaths.dfy`, `SetupGate.dfy` | organisation paths, the redirect and the setup page |
| `Text.dfy`, `StableSort.dfy`, `Options.dfy` | the string, sorting and optional-value primitives the rest relies on |

Conventions. Strings are sequences of characters; a regular expression is a
predicate together with the left-to-right scan that uses it. Loops of the source
are loops here, each proved against a function whose properties are lemmas;
objects with state are classes. The conversation handler is a state machine on
values: a step is the stretch of code from one `await` to the next, and the REST
server, the provider, timers and the lease clock take steps of their own in any
order. Reading it this way allows some interleavings the single-threaded source
excludes, never fewer.

Where the code does less than it seems to promise, the model follows the code and
the exact condition is proved: a diff of equal texts shows changes past 2000 lines
(`DiffLines.Diff`, `DiffLines.LongTextDiffersFromItself`); a trailing comment in robots.txt is kept when the line ends in
a carriage return (`RobotsRules.CommentStripped`); chunks keep every
character of every text exactly for overlaps that are not negative
(`Chunker.CompleteIff`); a context window passes a limit of zero unless there is
nothing to clip (`TranslationBatches.WindowFitsIff`); registering a listener twice, or
changing the channels of one that is not registered, breaks the reference counts
(`Realtime.CountsAfterAdd`, `Realtime.CountsAfterRechannel`).

## Model

| member | source | states |
|---|---|---|
| `DiffLines.ScriptCostAtLeast` | packages/types/src/diff-lines.ts:20-28 | every edit script that rebuilds both sides adds and removes at least as many lines as the two sides have beyond their longest common subsequence |
| `DiffLines.ScriptRebuilds` | packages/types/src/diff-lines.ts:30-54 | the walk's script rebuilds the old side from context and removed lines, the new side from context and added lines, at exactly that cost |
| `DiffLines.ScriptIsMinimal` | packages/types/src/diff-lines.ts:30-54 | no script that rebuilds both sides adds and removes fewer lines |
| `DiffLines.ScriptRemovalsFirst` | packages/types/src/diff-lines.ts:38-44 | the tie-break puts the removals of a changed block before its additions |
| `DiffLines.NoChangesIffEqual` | packages/types/src/diff-lines.ts:57-59 | a script shows no change exactly between equal line lists |
| `DiffLines.SplitLinesInjective` | packages/types/src/diff-lines.ts:61-63 | two texts have the same lines exactly when they agree once CRLF is LF |
| `DiffLines.NormalizeAtCrlf` | packages/types/src/diff-lines.ts:61-63 | normalising works on both sides of any CRLF independently and leaves one LF between them |
| `DiffLines.NormalizePlain` | packages/types/src/diff-lines.ts:61-63 | a text without CRLF is left alone |
| `DiffLines.FillRow` | packages/types/src/diff-lines.ts:24-27 | a row of the table, filled from the right, holds the common-subsequence lengths of all suffix pairs; other rows stay |
| `DiffLines.FillTable` | packages/types/src/diff-lines.ts:20-28 | every cell is the common-subsequence length of its two suffixes |
| `DiffLines.Walk` | packages/types/src/diff-lines.ts:30-54 | the loops over the filled table emit the specified script |
| `DiffLines.Diff` | packages/types/src/diff-lines.ts:10-55 | the diff always rebuilds both sides; within 2000 lines it is minimal, past them it removes every old line and adds every new one; it shows no change exactly when within the limit and equal up to line endings |
| `DiffLines.LongTextDiffersFromItself` | packages/types/src/diff-lines.ts:8-18 | a text of 2001 lines is shown as changed even against itself, one of 2000 is not |
| `RobotsPattern.ChainLeftmost` | packages/agent-runtime/src/web-crawl.ts:381-387 | taking a literal piece at its leftmost occurrence loses no match of the rest |
| `RobotsPattern.MatchesIffChain` | packages/agent-runtime/src/web-crawl.ts:373-392 | choosing substrings for the stars is the same as placing the pieces one after the other |
| `RobotsPattern.MatchesRobotsPattern` | packages/agent-runtime/src/web-crawl.ts:373-392 | the greedy matcher accepts exactly when some substrings for the stars make the pattern a prefix of the path, or the whole path when it ends in a dollar sign; section 2.2.3 of RFC 9309 |
| `RobotsRules.CommentStripped` | packages/agent-runtime/src/web-crawl.ts:321 | a trailing comment is dropped exactly when no line terminator follows its hash sign |
| `RobotsRules.CarriageReturnKeepsComment` | packages/agent-runtime/src/web-crawl.ts:321 | a line with a carriage return at its end keeps its comment |
| `RobotsRules.CommentLineIgnored` | packages/agent-runtime/src/web-crawl.ts:320-346 | a line whose first visible character is a hash sign contributes nothing |
| `RobotsRules.LineReads` | packages/agent-runtime/src/web-crawl.ts:321-346 | a line `key: value`, with the key in any letter case and white space anywhere around both, is a sitemap, an agent, an allow or a disallow line with exactly that value |
| `RobotsRules.WeAreNamed` | packages/agent-runtime/src/web-crawl.ts:347-349 | the crawler answers to `*` and to its own name in any case, and to no empty or other name |
| `RobotsRules.RulesAreGoverned` | packages/agent-runtime/src/web-crawl.ts:331-350 | the groups yield exactly the non-empty rules, in file order, governed by an agent line that names the crawler or everyone, where a line governs what follows until an agent line after a rule |
| `RobotsRules.ForeignLineInvisible` | packages/agent-runtime/src/web-crawl.ts:320-346 | adding or deleting a sitemap, comment or unknown line anywhere in the file leaves the rules as they are: between lines, as the first line, as a last line without newline, or as the only line |
| `RobotsRules.TakeLine` | packages/agent-runtime/src/web-crawl.ts:331-345 | taking in one line keeps what groups and rule flag say: the last group applies exactly when an agent line naming us governs the position, the flag tells whether a rule has followed, and the applicable rules are exactly the governed ones so far |
| `RobotsRules.ParseRobots` | packages/agent-runtime/src/web-crawl.ts:315-352 | the reader returns the sitemaps in order and exactly the governed rules |
| `RobotsRules.IsAllowed` | packages/agent-runtime/src/web-crawl.ts:353-365 | a path is allowed exactly when every matching disallow rule is answered by a matching allow rule at least as long; section 2.2.2 of RFC 9309 |
| `RobotsRules.PatternLengths` | packages/agent-runtime/src/web-crawl.ts:369-371 | a pattern is as long as it is written, not counting a closing dollar sign |
| `RobotsRules.LongerRuleDecides` | packages/agent-runtime/src/web-crawl.ts:353-365 | of two matching plain rules of different length the longer one decides; section 2.2.2 of RFC 9309 |
| `RobotsRules.OneDisallow` | packages/agent-runtime/src/web-crawl.ts:315-365 | a file that names the crawler and disallows one plain path forbids exactly the paths that start with it |
| `RobotsRules.AllowedBy` | packages/agent-runtime/src/web-crawl.ts:315-365 | reading a file and asking for a path gives the verdict of exactly the governed rules |
| `RobotsRules.VerdictIgnoresOrder` | packages/agent-runtime/src/web-crawl.ts:353-365 | the verdict depends only on which rules there are, not on their order or repetition |
| `CheckDigits.Completing` | packages/core/src/national-id.ts:206-212 | the check digit completes the weighted sum to a multiple of 11; there is none when a 10 would be needed |
| `CheckDigits.Mod11` | packages/core/src/national-id.ts:206-212 | the summing loop computes that digit |
| `CheckDigits.ValidSumsVanish` | packages/core/src/national-id.ts:179-188 | a number is valid exactly when its date is and both check sums, check digits included, are multiples of 11 |
| `CheckDigits.NoFnrDistance` | packages/core/src/national-id.ts:179-212 | two valid Norwegian numbers that agree outside two positions are equal, unless these are the 4th and 10th and both differ |
| `CheckDigits.NoFnrDistanceTight` | packages/core/src/national-id.ts:179-212 | the exception occurs: two valid numbers that differ in just those digits |
| `CheckDigits.Calendar` | packages/core/src/national-id.ts:201-204 | the days of each month, with 29 February in every year |
| `CheckDigits.NoDateWritten` | packages/core/src/national-id.ts:179-187 | day and month are written first; marks of 40 on the day, and of 40 or 80 on the month, are taken off |
| `CheckDigits.Luhn` | packages/core/src/national-id.ts:214-225 | the summing loop decides the Luhn check; Annex B of ISO/IEC 7812-1 |
| `CheckDigits.LuhnIsStandard` | packages/core/src/national-id.ts:214-225 | for even length the check is the standard one: from the right, every second digit counts with the digit sum of its double; Annex B of ISO/IEC 7812-1 |
| `CheckDigits.SePnrDigits` | packages/core/src/national-id.ts:190-195 | year, month and day in that order, the day perhaps with 60 more, and the standard check |
| `CheckDigits.SePnrExample` | packages/core/src/national-id.ts:190-195 | 8112189876 passes |
| `CheckDigits.DkCprDigits` | packages/core/src/national-id.ts:197-199 | day before month, and nothing else is checked |
| `CheckDigits.LuhnCatchesChange` | packages/core/src/national-id.ts:214-225 | one changed digit is always caught, at any length |
| `CheckDigits.LuhnSwap` | packages/core/src/national-id.ts:214-225 | a swap of neighbours goes unnoticed exactly for equal digits and for 0 and 9 |
| `NationalId.NoFnrWritten` | packages/core/src/national-id.ts:48-60 | a Norwegian number written with a space, a hyphen or neither is found, always with high confidence, exactly when it is valid |
| `NationalId.SePnrWritten` | packages/core/src/national-id.ts:75-86 | a Swedish number is found exactly when it is valid, with high confidence if it has a separator and medium without |
| `NationalId.SePnrLongWritten` | packages/core/src/national-id.ts:63-74 | with the century it is found with high confidence; the century does not enter the check |
| `NationalId.DkCprWritten` | packages/core/src/national-id.ts:89-100 | a Danish number is found exactly when its date is valid, with high confidence only with a hyphen |
| `NationalId.WindowsApart` | packages/core/src/national-id.ts:23-25 | matches of the three patterns never overlap partially |
| `NationalId.WindowsCoincide` | packages/core/src/national-id.ts:23-25 | matches that start at the same place are the same stretch of text |
| `NationalId.ScanAll` | packages/core/src/national-id.ts:46-57 | the non-overlapping scan finds every match of a pattern, in order |
| `NationalId.Collect` | packages/core/src/national-id.ts:45-100 | one detector's candidates for one pattern are exactly the matches that pass its check, with the right confidence |
| `NationalId.Candidates` | packages/core/src/national-id.ts:43-100 | the candidates are exactly those of the enabled detectors |
| `NationalId.Sweep` | packages/core/src/national-id.ts:164-176 | one pass over ranked candidates keeps non-overlapping ones and leaves no candidate's place free |
| `NationalId.PriorityIs` | packages/core/src/national-id.ts:154-160 | a detector's priority is the place of its last mention |
| `NationalId.RankMeans` | packages/core/src/national-id.ts:155-162 | of two matches at one place the one ranked first has the higher confidence, then the detector mentioned earlier, then the later end |
| `NationalId.ResolveOverlaps` | packages/core/src/national-id.ts:150-177 | the result is a subset in text order without overlap; every candidate's start is taken by one that ranks no lower if it starts there too |
| `NationalId.FindNationalIds` | packages/core/src/national-id.ts:35-106 | the search returns wanted candidates only, and for every wanted candidate one with the same span that ranks at least as high |
| `Redaction.RedactNationalIds` | packages/core/src/national-id.ts:108-124 | the rewriting loop computes the specified text from the matches sorted by start |
| `Redaction.OutsideSurvives` | packages/core/src/national-id.ts:108-124 | text and result weave the same gaps, one with the matches, one with their replacements |
| `Redaction.ReplacementShape` | packages/core/src/national-id.ts:139-148 | a replacement is a digit-free marker, or six or eight digits that nothing continues |
| `Redaction.MaskKeepsFirstGroup` | packages/core/src/national-id.ts:139-148 | a mask keeps exactly the digits of the number's first group; removal leaves the marker of the detector |
| `Redaction.NotIntoMask` | packages/core/src/national-id.ts:139-148 | no match reaches into a masked number, from either side |
| `Redaction.RedactionIsClean` | packages/core/src/national-id.ts:35-177 | after redaction, in either mode, the same detectors at the same confidence find nothing |
| `Redaction.RedactText` | packages/agent-runtime/src/redact-ids.ts:3-6 | find, redact, find again: the second search is empty |
| `Framing.TagUnique` | packages/agent-runtime/src/untrusted.ts:9-12 | the matcher finds the one tag that starts at a position, exactly when there is one |
| `Framing.TagWritten` | packages/agent-runtime/src/untrusted.ts:1-16 | the opening bracket, white space, an optional slash, one of the five reserved names in any letter case at a word end, and anything up to the first closing bracket is a tag, and is escaped |
| `Framing.NeutralizedTagFree` | packages/agent-runtime/src/untrusted.ts:14-16 | the result holds no framing tag, for every text |
| `Framing.NeutralizeIdempotent` | packages/agent-runtime/src/untrusted.ts:14-16 | tag-free text is left alone, so neutralising twice changes nothing more |
| `Framing.EscapeReplacesBrackets` | packages/agent-runtime/src/untrusted.ts:15 | escaping puts `&lt;` for every `<` and changes nothing else |
| `Framing.OnlyTagsChange` | packages/agent-runtime/src/untrusted.ts:14-16 | text and result are the same gaps, woven with tags of the text in one and the same tags with escaped brackets in the other |
| `Chunker.TokensCover` | packages/core/src/chunker.ts:17-19 | the token count is the least positive number of four-character tokens that covers the text |
| `Chunker.LastSentenceEnd` | packages/core/src/chunker.ts:66-75 | the left-to-right scan finds the rightmost sentence end |
| `Chunker.CutWithin` | packages/core/src/chunker.ts:55-64 | a cut lies past 60% of the window and at most two characters beyond its end, and what lies beyond is white space |
| `Chunker.CutPrefers` | packages/core/src/chunker.ts:55-64 | the last paragraph break past 60% of the window wins, then the last sentence end, then the last space, then the window end |
| `Chunker.PreferBoundary` | packages/core/src/chunker.ts:55-64 | the boundary search picks that cut |
| `Chunker.WindowsSeamless` | packages/core/src/chunker.ts:36-52 | windows start at the beginning, end with the text, leave no gap, share exactly the overlap wherever that moves on, each but the last passes 60% of the target, and each is cut at the preferred boundary |
| `Chunker.WindowStep` | packages/core/src/chunker.ts:40-50 | a window is cut at the preferred boundary past 60% of the target; the next starts the overlap before the cut or, if that does not move on, one character further, so without a gap exactly when the overlap is not negative |
| `Chunker.TextsOfWindows` | packages/core/src/chunker.ts:39-51 | the chunks are the visible parts of the windows, in order |
| `Chunker.TrimmedFits` | packages/core/src/chunker.ts:40-48 | the trimmed text of a window is never longer than the target |
| `Chunker.EveryCharacterKept` | packages/core/src/chunker.ts:39-51 | every visible character lies in some chunk |
| `Chunker.WindowCount` | packages/core/src/chunker.ts:39-51 | the number of windows is bounded by the text length over the guaranteed stride |
| `Chunker.ReadWindows` | packages/core/src/chunker.ts:36-52 | the loop produces those chunks, numbered in order with their token counts |
| `Chunker.ChunkDocument` | packages/core/src/chunker.ts:21-53 | error exactly when the overlap is not below the target; otherwise numbered chunks that are not blank; with a positive target they fit it and are few; with a non-negative overlap they are complete and are what is visible of windows that share exactly the overlap wherever that moves on |
| `Chunker.NegativeOverlapLoses` | packages/core/src/chunker.ts:39-51 | for every target and every negative overlap below it there is a text that loses a visible character |
| `Chunker.CompleteIff` | packages/core/src/chunker.ts:21-53 | the chunks keep every visible character of every text exactly when the overlap is not negative, whatever the target |
| `TranslationBatches.TightIsMinimal` | packages/agent-runtime/src/translation.ts:111-129 | a split in which no batch has room for the next message uses the fewest batches |
| `TranslationBatches.BatchMessages` | packages/agent-runtime/src/translation.ts:111-129 | the batches concatenate to the messages, each fits or is a single message, and no such split has fewer |
| `TranslationBatches.ContextWindow` | packages/agent-runtime/src/translation.ts:131-147 | the window is the clipped longest run of newest messages the limits allow; it keeps the character limit exactly when that is positive, or zero with nothing to clip |
| `TranslationBatches.ClipKeepsEnd` | packages/agent-runtime/src/translation.ts:142-144 | a clipped message keeps the end of its body, exactly as many characters as the limit |
| `TranslationBatches.WindowFitsIff` | packages/agent-runtime/src/translation.ts:131-147 | a window keeps its character limit always for a positive limit, never for a negative one, and for zero exactly when there is no message to show or the newest has no text |
| `TranslationBatches.ZeroLimitExceeded` | packages/agent-runtime/src/translation.ts:142-144 | a message of five characters passes a limit of zero whole |
| `TranslationScheduler.Scheduler.Start` | packages/agent-runtime/src/translation.ts:539-553 | a started run is the only one of its key and serves all its requests |
| `TranslationScheduler.Scheduler.Schedule` | packages/agent-runtime/src/translation.ts:555-561 | a request starts a run if none of its key is active by the log, and otherwise marks the active one to go again |
| `TranslationScheduler.Scheduler.Finish` | packages/agent-runtime/src/translation.ts:547-550 | at its end a run is followed by another exactly when a request is open by the log; otherwise the key is idle |
| `TranslationScheduler.Scheduler.IdleReturns` | packages/agent-runtime/src/translation.ts:578-580 | idle returns only when no run is active and every request has been followed by a run |
| `TranslationScheduler.HistoryAsks` | packages/agent-runtime/src/translation.ts:555-561 | every request is on the log, in order, and nothing else counts as one |
| `TranslationScheduler.Execute` | packages/agent-runtime/src/translation.ts:539-580 | in every execution the scheduler's map and set yield exactly the starts and ends that the log of events prescribes; one active run per key; each request is served by a later run or has an active run marked to go again |
| `ToolLoop.PairedAt` | packages/agent-runtime/src/runtime.ts:163-178 | in a paired list each call of a message is answered by the message right at its place after it, with its id |
| `ToolLoop.ToolAnswers` | packages/agent-runtime/src/runtime.ts:163-178 | and each tool message answers such a call |
| `ToolLoop.SanitizedName` | packages/agent-runtime/src/untrusted.ts:18-21 | a tool name in a note has 1 to 64 name characters; a name that is so already is kept, one without any is called unknown |
| `ToolLoop.EvictionKeepsPairing` | packages/agent-runtime/src/runtime.ts:50-71 | eviction changes contents only, so calls and results stay paired |
| `ToolLoop.EvictionOutcome` | packages/agent-runtime/src/runtime.ts:62-70 | only older results whose note is strictly shorter change, and they become the note; afterwards the results fit the budget or every older one is no longer than its note; the newest is untouched |
| `ToolLoop.Transcript.EvictOldToolResults` | packages/agent-runtime/src/runtime.ts:50-71 | results shrink to their notes from the oldest on, no further than needed and never the newest |
| `ToolLoop.AnswerCalls` | packages/agent-runtime/src/runtime.ts:163-178 | the transcript gains the request and one tool message per call, in order, with the call's id and what its tool returned, up to an abort or a tool error |
| `ToolLoop.Round` | packages/agent-runtime/src/runtime.ts:163-181 | one round: the request and its answers are appended and old results evicted; the list stays paired and settled |
| `ToolLoop.Ask` | packages/agent-runtime/src/runtime.ts:148-161 | the list that stands ready goes to the provider; only the very first request is repeated, without images, when those were the trouble |
| `ToolLoop.RunAgent` | packages/agent-runtime/src/runtime.ts:142-207 | every list handed to the provider is paired and settled; the first is the prelude, each later one is the one before with that response's request and what the tools returned, after eviction; the outcome is the normalised content of the last response, or exactly the abort, failure or limit that ended the loop |
| `ToolLoop.CollapseSound` | packages/agent-runtime/src/runtime.ts:209-212 | the reply keeps every other character but never three line feeds in a row |
| `ToolLoop.CollapsePlain` | packages/agent-runtime/src/runtime.ts:209-212 | a reply without three line feeds in a row is not collapsed |
| `HistoryBudget.FetchImageBytes` | packages/agent-runtime/src/vision.ts:114-145 | an image is loaded exactly when the request delivers a body that is not empty and neither its declared nor its real size passes the limit; the bytes are those of the body; gone means status 404 exactly, too large exactly a size over the limit |
| `HistoryBudget.LoadOneBounds` | packages/agent-runtime/src/vision.ts:84-105 | an attachment is shown exactly when it may be, the per-turn and total limits have room and the request delivers it within both byte limits; a limit is blamed only when reached |
| `HistoryBudget.LoadAttachments` | packages/agent-runtime/src/vision.ts:84-106 | the inner loop computes the images, notes and bytes of one turn |
| `HistoryBudget.LoadHistoryImages` | packages/agent-runtime/src/vision.ts:65-110 | the loops, newest turn first, compute the specified images and notes, however each request is answered |
| `HistoryBudget.TurnIsProper` | packages/agent-runtime/src/vision.ts:84-106 | in a turn every attachment is one image or one note, in order, within the per-turn and per-image limits |
| `HistoryBudget.AttachmentShownIff` | packages/agent-runtime/src/vision.ts:84-106 | each attachment of each turn is shown exactly when images are allowed there, address and type are fit, the turn and the total have room, and its own request delivers a body that fits; otherwise it is noted |
| `HistoryBudget.LoadedIs` | packages/agent-runtime/src/vision.ts:65-110 | a turn's result is what all its attachments come to, after the bytes the newer turns have spent |
| `HistoryBudget.LoadingKeepsLimits` | packages/agent-runtime/src/vision.ts:65-110 | every turn is proper and shows images only where they are allowed; all images together stay within the total |
| `HistoryBudget.LoadingIgnoresOlderTurns` | packages/agent-runtime/src/vision.ts:77-107 | the newest turns load as if they were alone |
| `HistoryBudget.ImageBudget` | packages/agent-runtime/src/vision.ts:36-38 | attachments count up to three, at 2000 characters each |
| `HistoryBudget.CompactHistory` | packages/agent-runtime/src/runtime.ts:214-233 | exactly the longest suffix of the history that fits is kept |
| `ConversationRun.VerdictSplit` | packages/agent-runtime/src/conversation-handler.ts:738-768 | nothing dispatched with the audit closes or snoozes the thread, everything held back does and only for a reply that is sent; spam is marked exactly when the verdict says so; beyond superfluous handovers no action is lost |
| `ConversationRun.SplitVerdict` | packages/agent-runtime/src/conversation-handler.ts:738-760 | the two filters compute what goes out at once and what waits |
| `ConversationRun.StepPlanOk` | packages/agent-runtime/src/conversation-handler.ts:761-774 | dispatch follows the plan: a closing action goes out only after the send, a spam mark only when the verdict has one |
| `ConversationRun.StepOk` | packages/agent-runtime/src/conversation-handler.ts:295-664 | each step of a run: a reply is sent only by an unaborted run that may send, has not posted and has not marked spam; closing and snoozing come after its success, spam marks never do; the claim is kept until it leaves |
| `ConversationRun.PostSentIff` | packages/agent-runtime/src/conversation-handler.ts:534-584 | a step sends the reply exactly when an unaborted run that may send ends the dispatch of a verdict without spam, or has a greeting to send |
| `ConversationRun.PostOkIff` | packages/agent-runtime/src/conversation-handler.ts:578-599 | the reply counts as sent exactly when the post is answered, and then the held actions are settled |
| `ConversationRun.FellBackIff` | packages/agent-runtime/src/conversation-handler.ts:403-458 | a step falls back exactly when the gate shuts with a notice, an attempt gives up, or the third attempt is used, but for an aborted greeting |
| `ConversationRun.DraftParkedIff` | packages/agent-runtime/src/conversation-handler.ts:535-595 | a step parks a draft exactly after a spam verdict, for a draft delivery, or when the post is refused because the thread is not automatic |
| `ConversationRun.AbortedStartsNothing` | packages/agent-runtime/src/conversation-handler.ts:501-534 | an aborted run starts no attempt, audit or post |
| `ConversationRun.RejectedEnds` | packages/agent-runtime/src/conversation-handler.ts:302-317 | a rejection before the claim ends the run at once; one while preparing, opening the tools or backing off makes it leave |
| `ConversationRun.RetriesBackOff` | packages/agent-runtime/src/conversation-handler.ts:645-652 | after a failed first or second attempt the run backs off and then makes the next |
| `ConversationRun.AuditPlans` | packages/agent-runtime/src/conversation-handler.ts:738-774 | after the audit exactly the filtered actions are lined up, spam is recorded and the rest is held |
| `ConversationHandler.EveryExecution` | packages/agent-runtime/src/conversation-handler.ts:205-870 | the three invariants below hold after every sequence of events |
| `ConversationHandler.RecordStep` | packages/agent-runtime/src/conversation-handler.ts:829-868 | every step keeps: an unaborted run that has not ended is the recorded one |
| `ConversationHandler.OneUnabortedRun` | packages/agent-runtime/src/conversation-handler.ts:829-845 | in every execution at most one unaborted run exists per conversation, and it is the recorded one |
| `ConversationHandler.LogStep` | packages/agent-runtime/src/conversation-handler.ts:501-612 | every step keeps the rules for posts, spam marks and thread changes over the whole log |
| `ConversationHandler.PostsAreFromTheNewestRun` | packages/agent-runtime/src/conversation-handler.ts:534-584 | a generated reply is sent only by the unaborted, recorded run, and at most once successfully per run |
| `ConversationHandler.ThreadsChangeAfterPost` | packages/agent-runtime/src/conversation-handler.ts:738-774 | in every execution a run closes or snoozes a thread only after its own successful post |
| `ConversationHandler.SupersededSilent` | packages/agent-runtime/src/conversation-handler.ts:829-832 | once a run of a conversation is superseded it sends no reply any more |
| `ConversationHandler.StopSilences` | packages/agent-runtime/src/conversation-handler.ts:864-868 | once `stop` has aborted the recorded runs, no run of that time sends a reply |
| `ConversationHandler.SpamIsNotAnswered` | packages/agent-runtime/src/conversation-handler.ts:535-545 | in every execution a run that marks its conversation as spam sends no reply afterwards and never posts successfully |
| `ConversationHandler.ClaimStep` | packages/agent-runtime/src/conversation-handler.ts:217-226 | every step keeps: a set entry belongs to a run before its release; a claim on the server is in the set, about to enter it, or about to be released |
| `ConversationHandler.QuietMeansReleased` | packages/agent-runtime/src/conversation-handler.ts:314-325 | however runs overlapped, once a conversation is quiet the set has no entry for it and, unless a claim or release call for it failed, the server holds no claim for this holder |
| `ConversationHandler.StopGivesBack` | packages/agent-runtime/src/conversation-handler.ts:217-226 | `stop` takes a held claim out of the set once, and after its request is handled the server holds none for us |
| `ConversationPlan.FirstEffects` | packages/agent-runtime/src/conversation-handler.ts:738-768 | dispatching the filtered actions in order has exactly the effects of the handover (unless superfluous), spam and known-topic actions of the verdict, in order |
| `ConversationPlan.RestStep` | packages/agent-runtime/src/conversation-handler.ts:462-664 | each step of a run does exactly the beginning of what the whole story still has in store |
| `ConversationPlan.RunFollowsPlan` | packages/agent-runtime/src/conversation-handler.ts:295-664 | given how each promise of a run settles, attempt by attempt up to three, the run logs exactly the effects told as a whole (actions at once, post, closing actions, parked draft, retry, fallback), whatever other runs do meanwhile: at any time a beginning of them, all of them once it leaves |
| `ConversationPlan.CanFinish` | packages/agent-runtime/src/conversation-handler.ts:295-664 | such a run can always be carried to its end, and has then logged all of it |
| `Realtime.CountsAfterAdd` | packages/dashboard-pages/src/realtime.ts:80-88 | after registering a listener the counts are right exactly if it was not registered before or has no channels |
| `Realtime.CountsAfterRemove` | packages/dashboard-pages/src/realtime.ts:90-98 | after removing a registered listener the counts are right |
| `Realtime.CountsAfterRechannel` | packages/dashboard-pages/src/realtime.ts:100-109 | after changing channels the counts are right exactly for a registered listener, or if no counted channel is touched |
| `Realtime.RealtimeClient.Send` | packages/dashboard-pages/src/realtime.ts:127-134 | a frame goes out and the subscription set follows only on an open socket |
| `Realtime.RealtimeClient.Retain` | packages/dashboard-pages/src/realtime.ts:111-115 | one more reference; an open socket stays subscribed to exactly the counted channels |
| `Realtime.RealtimeClient.Release` | packages/dashboard-pages/src/realtime.ts:117-125 | one reference less, the entry goes at zero; the open socket stays in step |
| `Realtime.RealtimeClient.AddListener` | packages/dashboard-pages/src/realtime.ts:80-88 | registers, cancels the teardown, connects if there is no socket; keeps the wiring always, and right counts under the exact condition |
| `Realtime.RealtimeClient.RemoveListener` | packages/dashboard-pages/src/realtime.ts:90-98 | unregisters, keeps everything, and starts the teardown timer for the last listener |
| `Realtime.RealtimeClient.SetListenerChannels` | packages/dashboard-pages/src/realtime.ts:100-109 | releases and retains the difference; keeps the counts under the exact condition |
| `Realtime.RealtimeClient.Connect` | packages/dashboard-pages/src/realtime.ts:147-159 | clears the reconnect timer and installs a connecting socket |
| `Realtime.RealtimeClient.OnOpen` | packages/dashboard-pages/src/realtime.ts:161-173 | the opened socket is subscribed to exactly the counted channels and the backoff is reset |
| `Realtime.RealtimeClient.OnClose` | packages/dashboard-pages/src/realtime.ts:196-206 | a closed current socket is dropped and, with listeners, a reconnect is scheduled with doubled, capped backoff; other sockets are ignored |
| `Realtime.BackoffCourse` | packages/dashboard-pages/src/realtime.ts:203-205 | the pause doubles from half a second up to half a minute |
| `Realtime.RealtimeClient.OnReconnectTimer` | packages/dashboard-pages/src/realtime.ts:205 | the timer leads to a new socket, never a second live one |
| `Realtime.RealtimeClient.OnTeardownTimer` | packages/dashboard-pages/src/realtime.ts:94-97 | without listeners nothing is left: no socket, no timer, no count; the counts are right again whatever happened before |
| `Realtime.RealtimeClient.Teardown` | packages/dashboard-pages/src/realtime.ts:261-281 | closes the socket and clears timers, subscriptions and counts |
| `Realtime.RealtimeClient.Handle` | packages/dashboard-pages/src/realtime.ts:80-281 | the registered listeners and their channels are what the call makes of them; an opened socket is current and open, a closed one is not current, the timers leave a new socket or none; counts stay right under the callers' discipline |
| `Realtime.RealtimeClient.Run` | packages/dashboard-pages/src/realtime.ts:58-282 | every sequence of events, disciplined or not, keeps: exact subscriptions of an open socket, at most one live socket, a socket or reconnect timer while there are listeners, a teardown timer while there are none but something is left; the registry is what the calls add up to; with disciplined callers every count is the number of listeners on its channel |
| `Contrast.HexRoundTrip` | apps/chat-widget/src/color.ts:68-100 | printing a colour and reading it back gives the colour |
| `Contrast.HexAnyCase` | apps/chat-widget/src/color.ts:82-101 | a printed colour reads back in small letters, capitals or both |
| `Contrast.HexBare` | apps/chat-widget/src/color.ts:82-83 | white space around a colour and a leading hash sign do not matter |
| `Contrast.HexForms` | apps/chat-widget/src/color.ts:82-101 | hexadecimal digits make a colour exactly in the lengths 3, 4, 6 and 8; three are doubled, a fourth or a seventh and eighth is ignored |
| `Contrast.RatioLaws` | apps/chat-widget/src/color.ts:63-66 | contrast is the quotient of the lighter and the darker light, each with a twentieth more; it is symmetric, and 21 between black and white |
| `Contrast.Primaries` | apps/chat-widget/src/color.ts:60 | how much red, green and blue count for luminance |
| `Contrast.BestIsBest` | apps/chat-widget/src/color.ts:63-66 | no colour has more contrast on a background than the better of black and white |
| `Contrast.BestReachesText` | apps/chat-widget/src/color.ts:63-66 | on every background black or white reaches 4.5; success criterion 1.4.3 of WCAG 2.1 |
| `Contrast.ReadableOn` | apps/chat-widget/src/color.ts:12-19 | the chosen text colour reaches 4.5 on every readable background; paper otherwise |
| `Contrast.ReadableChoice` | apps/chat-widget/src/color.ts:12-19 | if ink or paper reaches 4.5 the better of the two is chosen, paper on a tie; otherwise black or white with the best contrast there is |
| `Contrast.WhiteGetsInk` | apps/chat-widget/src/color.ts:12-19 | on white the choice is ink |
| `Contrast.FirstStep` | apps/chat-widget/src/color.ts:29-32 | the search stops at the first step that reaches the target |
| `Contrast.ContrastFloor` | apps/chat-widget/src/color.ts:21-34 | the colour itself if it reaches the target, else the first on the way that does; the result reaches a target exactly when some colour does, in particular every target up to 4.5 |
| `OrgPaths.OrgIdLooks` | packages/types/src/org-scope.ts:9-13 | an organisation id is the prefix and 22 digits or small letters |
| `OrgPaths.DashboardPaths` | packages/types/src/org-scope.ts:27-29 | the dashboard and everything below it are dashboard paths; a path that only starts like it is not |
| `OrgPaths.PrintForm` | packages/types/src/org-scope.ts:31-35 | a dashboard path is printed as the organisation segment followed by the whole path, suffix in place |
| `OrgPaths.ParseInvertsPrint` | packages/types/src/org-scope.ts:31-47 | a path parses to an organisation and a dashboard path exactly when it is the printed form of the two, suffix included |
| `OrgPaths.StripUndoesPrint` | packages/types/src/org-scope.ts:49-51 | stripping undoes the printing |
| `SetupGate.SplitLocale` | packages/dashboard-pages/src/setup-gate.ts:36-46 | a known locale in front is split off and the rest is read as a path without it |
| `SetupGate.SplitBareLocale` | packages/dashboard-pages/src/setup-gate.ts:36-46 | a locale alone leads to its root |
| `SetupGate.RedirectWhenNeeded` | packages/dashboard-pages/src/setup-gate.ts:89-108 | a redirect exists exactly for paths that need one and valid organisation ids |
| `SetupGate.RedirectSettles` | packages/dashboard-pages/src/setup-gate.ts:98-108 | the redirect keeps locale and page, adds the organisation, and leads to a path that needs no further redirect |
| `SetupGate.SetupUnmoved` | packages/dashboard-pages/src/setup-gate.ts:77-87 | the setup page is the same with and without the organisation segment |
| `SetupGate.SetupUnlocalised` | packages/dashboard-pages/src/setup-gate.ts:77-87 | without a locale too, the setup page is the same with and without the segment |

## Left out

- REST clients, backend modules, SQL, provider transports, React pages and bundling: input, output and wiring.
- Prompt texts, language detection and model answers: the provider is an arbitrary function or environment step.
- UTF-16: strings are sequences of characters, not of code units; lower-casing is the ASCII part, which is all the compared keywords need.
- Floating point: `Contrast` works over the reals with an arbitrary channel curve, and the 60% of the chunker is exact integer arithmetic.
- RedactNationalIds: match positions are natural numbers; they may lie outside the text, overlap or be out of order.
- LoadHistoryImages: note texts, labels and the encoding of image bytes are not spelled out.
- RunAgent: usage totals, argument parsing and the wrapping and clamping of a single tool result are not modelled.
- "A run holds its claim throughout" is not claimed: a superseded run's release can drop its successor's claim; only that no claim is left over is.
- What a fallback says and the internal notes of a run are not modelled; whether a run falls back is. The abort signal guards only the greeting's fallback, as in the source.
- EveryExecution: re-entrant callbacks and the lease clock's real time are not modelled; leases may expire at any point.
- Handle and Run of the socket client skip events of sockets, timers and listener objects that do not exist; a call that breaks the callers' discipline is not skipped.
- Message and typing dispatch, status listeners and a failing socket constructor of the dashboard client: they do not touch counts, socket or timers.
- The widget's own socket client, its markdown blocks and the theme fill: different code with weaker or easier claims.
- The whole fence around untrusted text: an unclosed tag start in the body only becomes a tag once the closing fence follows, so tag-freeness is stated for the neutralised text.
- Choice of the most specific user-agent group and percent-encoding in robots.txt: the code merges all groups that name the crawler, so full conformance to RFC 9309 is not claimed.
- Translation keys are taken as given: two different requests that spell the same key share one run in the source.
