# Firetower: a verified model of its readers, codecs and client protocols

Firetower puts coding agents on a screen. Its control plane folds what an agent
says into conversation events and bills; its workers and clients exchange bytes,
patches and environment files; its desktop carries telemetry out, updates itself
and keeps a fleet view fresh. This project models the parts of that whose meaning
lies in branching, state and arithmetic, and proves what they promise for every
input, every journal or every interleaving.

| files | models |
|---|---|
| `Acp*.dfy` | the ACP journal reader: what it holds and says as readings of the journal, bracketing of its events, texts and ends, replay suppression, billing, skill names |
| `Codex*.dfy` | the Codex reader: what it says as a reading of the transcript, delegation by thread, what a turn carries, questions |
| `Dotenv*.dfy`, `Text.dfy` | the dotenv file: names, quoting, reading what is pasted and writing it |
| `Patch*.dfy`, `Decimals.dfy` | the added and removed line maps of a unified patch, whole and with its end trimmed |
| `GitNames.dfy`, `GitHeaders.dfy`, `GitPaths.dfy`, `GitChunks.dfy` | git's quoted names, `diff --git` lines, and the file each kind of chunk of a diff is about |
| `Base64.dfy` | the wire's base64, with its 32-bit accumulator |
| `Skills.dfy` | the edit distance behind the typo check of a skill's front matter |
| `Telemetry.dfy`, `Couriers*.dfy` | one courier round; many couriers, lost and late messages |
| `Updates.dfy` | the updater's handle across awaits |
| `Fleet.dfy` | the throttle on asking a server again |
| `Mentions.dfy` | the handles of mentioned artifacts |

Readers and protocols come twice: a class or a method that changes its fields or
loops as the source does, and a function over values that its contract is tied to.
The theorems are about the functions. Both readers' functions are in turn tied to a
specification without state, `AcpSays.Says` and `CodexSays.Says`, that says what a
record is answered from the records before it alone. Protocols across awaits and networks are
step relations; a run is any sequence of steps. Records are taken as parsed, and
identifiers built by concatenation are structured values (`ToolItem(turn, call)`).

## Where the code does less than it says

These are properties the documentation or the tests suggest and the code keeps only
under a condition. Each has an input that shows the failure and its exact condition, for all inputs.

* **A delegated ACP call can be announced twice.** Open, closed by `cursor/task` or
  never heard of, a call starts its card on each live update under its `Task:` title
  that finds no open item for it in the active turn. In any journal it is announced as
  often as that happens (`AcpBrackets.AnnouncedAsOftenAsItComes`).
* **A usage field left out of one reply is billed again.** The difference is taken
  from nothing, so the sum over a session is the last total exactly when no reading
  falls, and an absent one counts as a fall (`AcpBilling.ReplyBillIsTheLastTotal`).
* **A dotenv value with a quote or newline comes back with a newline for each `n` that
  stood behind a backslash.** Unescaping is three replaces in a row rather than one pass
  (`DotenvRoundTrip.RoundTripIff`).
* **A dotenv comment with no value before it becomes the value.** `KEY= # why` is trimmed
  before ` #` is looked for (`DotenvLines.ACommentIsLeftOutIff`); and a variable called
  `export` is refused where a space stands before its `=` (`DotenvLines.ExportIsNoName`).
* **A hunk that shows no line of the new file is put one line too early, or lost.**
  `@@ -1,2 +0,0 @@` starts at 0, which the line maps take for "no hunk yet". A patch of
  any number of hunks rebuilds its old file exactly when each such hunk removed only
  repeats of the line above it (`PatchRebuild.ZeroCountHunksRebuildIff`).
* **Whitespace at the end of a removed last line is lost.** `split_diff` trims the end of
  each chunk, so of the text the readers get, a patch that rebuilt its old file whole
  still does exactly when the last line it shows, past blank context, is not a removed
  one ending in whitespace (`PatchTrimmed.CutPatchRebuildsIff`).
* **A file name ending in whitespace does not come back** from a `+++` line or from an
  unquoted `diff --git` line (`GitNames.OneSideReadsIff`, `GitHeaders.HeaderReadsIff`),
  and one ending in a quote and a space does not come back from a quoted one
  (`GitHeaders.QuotedHeaderReadsIff`).
* **The raw name of a changed binary file is lost when it holds ` and `.** The comment on
  `path_in` says reading from the right keeps such a name whole; split at the last
  ` and `, the line gives something else (`GitPaths.BinaryReadsIff`). A quoted name that
  holds it, or a new file's, is lost exactly when a part so split is taken for a side, or
  none is and the header cannot be read (`GitChunks.QuotedBinaryReadsIff`,
  `GitChunks.NewBinaryReadsIff`).
* **A day put twice into one batch is posted twice**: the courier looks for repeats
  between batches only (`Telemetry.PostedOnceIff`).
* **A second reading of a Codex transcript can end a delegated thread**, exactly one
  whose every ending stood before its start (`CodexTasks.SecondReadingEndsIff`,
  `CodexTasks.SecondReadingIsQuietIff`).
* **Two installs at once** let a check close the handle the second is installing, exactly
  when it is answered after the first has ended (`Updates.KeptIff`).

## Model

| member | source | states |
|---|---|---|
| `AcpReader.AcpNormaliser.Push` | crates/ft-core/src/acp.rs:555-763 | One journal record leaves the reader's fields and the events it emits exactly as `Acp.Step` has them, which every theorem below is about |
| `AcpReader.AcpNormaliser.Update` | crates/ft-core/src/acp.rs:765-930 | A `session/update` changes gauge, items, names and delegated calls, and says so in order |
| `AcpReader.AcpNormaliser.Finish` | crates/ft-core/src/acp.rs:932-974 | A turn's end closes delegated calls, requests and items in the order the sets hold them, then the turn, and empties all three |
| `AcpReader.AcpNormaliser.Spent` | crates/ft-core/src/acp.rs:400-470 | A reply is billed the difference of running totals, from its own usage or else from the meter, which is used up |
| `AcpBrackets.StepBrackets` | crates/ft-core/src/acp.rs:555-974 | After any record, the items, requests and delegated calls with an unmatched start are exactly the reader's three sets, held in the order of their names, and every event was allowed where it came |
| `AcpBrackets.JournalBrackets` | crates/ft-core/src/acp.rs:555-974 | The same over any journal from any valid state: every delta, update and completion falls between its item's start and end, and nothing is open when a turn completes |
| `AcpBrackets.EveryJournalBrackets` | crates/ft-core/src/acp.rs:294-360 | The same from a new reader, for which nothing is open |
| `AcpBrackets.EveryEndIsInOrder` | crates/ft-core/src/acp.rs:932-965 | After any journal, the end of a turn closes delegated calls, requests and items, each kind in the order of its names |
| `OrderedSets.BeforeIff` | crates/ft-core/src/acp.rs:298 | The order of names is that of their first difference, a beginning before what it begins |
| `AcpBrackets.StartedTwiceIff` | crates/ft-core/src/acp.rs:830-866 | In any state, whether the call is open, closed or never heard of, a record announces it exactly when it is a live update in an active turn under its `Task:` title that finds no open item for it there |
| `AcpBrackets.AnnouncedAsOftenAsItComes` | crates/ft-core/src/acp.rs:555-974 | Over any journal from any state, the number of times a delegated call is announced is the number of records at which that happens |
| `AcpBrackets.AnnouncedOnceIff` | crates/ft-core/src/acp.rs:555-974 | So from a new reader it is announced at most once exactly when that happens at most once |
| `AcpBrackets.ATaskIsStartedTwice` | crates/ft-core/src/acp.rs:857-923 | A journal of one prompt and one completed call, repeated, on which that happens |
| `AcpBrackets.AClosedTaskIsStartedAgain` | crates/ft-core/src/acp.rs:670-691 | A journal of one prompt, one completed call and the `cursor/task` that closes it, on which the call repeated is announced again |
| `AcpHistory.EveryJournalReads` | crates/ft-core/src/acp.rs:555-974 | After any journal the reader's fields are readings of the records alone: epoch, session and turn under way, which cards are open, how delegated calls ended, which requests wait, skills, gauge, meter and totals |
| `AcpSays.EveryRecordSays` | crates/ft-core/src/acp.rs:555-974 | After any journal a record says exactly what the records before it make of it, event by event: what cards are drawn as, their texts, titles and ends, the verdict and cost of a turn, and the ends of all that the journal leaves open in the order of its names |
| `AcpTexts.EveryTextIsDelivered` | crates/ft-core/src/acp.rs:598-622 | Over any journal the deltas of a card are, in order and on their streams, the texts its records print: a prompt's blocks, each live chunk of the turn under way, and all that a call printed when it ends |
| `AcpTexts.EveryCardEndsAsItSays` | crates/ft-core/src/acp.rs:906-966 | Over any journal a card ends as often as its records end it, failed exactly when its own update or else its turn failed |
| `AcpTexts.EveryCallEndsAsItSays` | crates/ft-core/src/acp.rs:670-951 | Over any journal a delegated call is reported ended with the status its own update gave, done or failed by default according to what closed it, and with the words of `cursor/task` |
| `AcpReplay.StepIgnoresConfiguration` | crates/ft-core/src/acp.rs:631-653 | What a record says in the conversation does not depend on the configuration or the requests for it |
| `AcpReplay.ReplaySaysNothing` | crates/ft-core/src/acp.rs:631-653 | Deleting every replayed record from any journal leaves every conversation event and all other state unchanged |
| `AcpBilling.BillingTelescopes` | crates/ft-core/src/acp.rs:400-470 | Over any journal, what is billed in each field is the sum of the rises of the readings taken, metered and replied |
| `AcpBilling.ClimbIsTheLastReading` | crates/ft-core/src/acp.rs:453-456 | Saturating differences add up to the last reading exactly when no reading falls, and never to less |
| `AcpBilling.MeteredBillIsTheLastReading` | crates/ft-core/src/acp.rs:406-431 | Metered through `/usage` alone, a session's bill is its last reading exactly when readings never fall |
| `AcpBilling.ReplyBillIsTheLastTotal` | crates/ft-core/src/acp.rs:453-469 | Billed from replies alone, each field's bill is its last total exactly when the totals never fall, an unreported one counting as none |
| `AcpBilling.AnUnreportedFieldIsBilledAgain` | crates/ft-core/src/acp.rs:239-247 | A journal of three prompts and replies that report 10, nothing and 10 is billed 20 |
| `AcpBilling.CompletedIff` | crates/ft-core/src/acp.rs:697-753 | A turn is reported completed exactly by the live reply to its own prompt, with no error and a stop reason other than `cancelled`, unless it was metered and its input did not grow |
| `AcpSkills.NamedStaysNamed` | crates/ft-core/src/acp.rs:823-871 | A call known to be a skill stays named in every later update of it, over any journal |
| `CodexReader.CodexNormaliser.Push` | crates/ft-core/src/codex.rs:607-704 | One line leaves the reader's fields and events as `Codex.Step` has them |
| `CodexTasks.TranscriptAccounts` | crates/ft-core/src/codex.rs:957-1183 | Over any lines from any state, each start is of a thread not known, each ending of one started and not ended, and progress or an owned item only of one started |
| `CodexTasks.EachThreadIsReportedOnce` | crates/ft-core/src/codex.rs:1047-1129 | Any transcript starts a thread at most once and ends it at most once, and only a thread it started |
| `CodexTasks.ReadAgain` | crates/ft-core/src/codex.rs:1113-1129 | A transcript read twice starts no thread the second time; read a third time it starts and ends none |
| `CodexTasks.ASecondReadingEndsATask` | crates/ft-core/src/codex.rs:1077-1112 | A two-line transcript whose second reading ends what its first did not |
| `CodexTasks.SecondReadingEndsIff` | crates/ft-core/src/codex.rs:1047-1129 | A second reading ends a thread, and once, exactly when the transcript starts it and says it has ended but never after the start |
| `CodexTasks.SecondReadingIsQuietIff` | crates/ft-core/src/codex.rs:1047-1129 | A second reading starts and ends nothing exactly when every thread the transcript both starts and says has ended, it says has ended after the start |
| `CodexTurns.FieldsReadTheTranscript` | crates/ft-core/src/codex.rs:667-694 | Usage, failure and open questions are the latest since the last turn ended, over any lines |
| `CodexTurns.TurnCarriesItsOwn` | crates/ft-core/src/codex.rs:916-950 | A completed turn carries the last usage since the turn before it, and its own message or else the last `error` frame's since then |
| `CodexTurns.QuestionIsAnsweredIff` | crates/ft-core/src/codex.rs:1185-1243 | A line resolves a question exactly when it completes a drawn item that question waits on |
| `CodexSays.EveryTranscriptReads` | crates/ft-core/src/codex.rs:908-950 | The kind an open item was begun with, and the turn under way, are readings of the lines alone |
| `CodexSays.EveryLineSays` | crates/ft-core/src/codex.rs:607-1243 | After any transcript a line says exactly what the lines before it make of it, event by event: the tasks it starts, reports on and ends and how, the card of an item, its kind, text and status, and what a turn carries |
| `CodexSays.AnItemIsItsThreads` | crates/ft-core/src/codex.rs:957-1166 | The line that begins a drawn item starts its card once, for its thread exactly when the transcript with that line starts a task for the thread, and for the main agent otherwise |
| `Dotenv.CheckIff` | crates/ft-core/src/dotenv.rs:83-105 | A name is accepted exactly when it is letters, digits and `_`, not empty and not begun by a digit |
| `Dotenv.RefusedForTheFirst` | crates/ft-core/src/dotenv.rs:89-102 | A refused name is refused for its first character that cannot stand where it does, a first character for being first |
| `Dotenv.Parse` | crates/ft-core/src/dotenv.rs:33-77 | The loop over lines yields the variables and rejections of `Parsing`, with its line numbers |
| `Dotenv.Render` | crates/ft-core/src/dotenv.rs:108-122 | The loop over variables yields `Rendering` |
| `DotenvLines.ALineReads` | crates/ft-core/src/dotenv.rs:39-77 | A line reads as its name and value wherever space stands in it, with `export` or without, and with a comment behind the value or none, or is refused for its name |
| `DotenvLines.APastedFileReads` | crates/ft-core/src/dotenv.rs:33-77 | A file of any number of such lines, ended by either newline and the last by none or one, is read with nothing rejected and each name given the text written for it |
| `DotenvLines.ACommentIsLeftOutIff` | crates/ft-core/src/dotenv.rs:159-164 | A comment is left out exactly when a value stands before it |
| `DotenvLines.AnEmptyValueIsItsComment` | crates/ft-core/src/dotenv.rs:64-164 | `KEY= # why` stores the comment |
| `DotenvLines.ExportIsNoName` | crates/ft-core/src/dotenv.rs:44-56 | A variable called `export` with a space before its `=` is refused for having no name |
| `DotenvLines.SkippedIff` | crates/ft-core/src/dotenv.rs:38-41 | A line is passed over exactly when it is blank or opens with `#` |
| `DotenvLines.NoEqualsIsRefused` | crates/ft-core/src/dotenv.rs:46-52 | Any other line without `=` is refused for that |
| `DotenvRoundTrip.QuotedComesBack` | crates/ft-core/src/dotenv.rs:132-166 | Three replaces in a row undo three replaces in a row but for one pair: a backslash and an `n` come back as a backslash and a newline |
| `DotenvRoundTrip.GarbledIff` | crates/ft-core/src/dotenv.rs:155-158 | They return the value exactly when no backslash stands directly before an `n` |
| `DotenvRoundTrip.RenderedFileReads` | crates/ft-core/src/dotenv.rs:33-122 | A written file with distinct, acceptable names is read with nothing rejected and every value as it comes back |
| `DotenvRoundTrip.ARenderedFileOpens` | crates/ft-core/src/dotenv.rs:108-144 | A written file opens with its two comments, and quotes a value singly unless it holds a single quote or a newline |
| `DotenvRoundTrip.RoundTripIff` | crates/ft-core/src/dotenv.rs:107-166 | Reading what was written returns the list exactly when no value that needs double quotes holds a backslash before an `n` |
| `DotenvRoundTrip.AValueIsLost` | crates/ft-core/src/dotenv.rs:124-144 | One variable whose file, written and read, does not return it |
| `DotenvRoundTrip.LastDefinitionWins` | crates/ft-core/src/dotenv.rs:64-73 | For any text, a name's value is its last acceptable definition's, each name is stored once, and a line is reported under its number and reason exactly when it could not be used |
| `Patch.AddedLines` | desktop/src/patch.ts:24-43 | The loop's set is the added lines of one walk over the patch |
| `Patch.RemovedLines` | desktop/src/patch.ts:51-78 | The loop's map is the removed lines of the same walk, the last run flushed |
| `PatchRebuild.HeaderReads` | desktop/src/patch.ts:28 | Every header git prints, with or without counts and a heading, is read as its new start |
| `PatchHeaders.HunkStartIff` | desktop/src/patch.ts:28 | A line starts a hunk exactly when the pattern `@@ -a,b +c,d @@` matches it, counts optional, and then at `c` |
| `PatchRebuild.MapsRebuildTheOldFile` | desktop/src/patch.ts:24-78 | For any patch whose hunks each show a new line, walking the new file with the two maps rebuilds the old file exactly, over any number of hunks |
| `PatchRebuild.PatchTextRebuildsTheOldFile` | desktop/src/patch.ts:24-78 | The same for the patch as one text split at its newlines |
| `PatchRebuild.ZeroCountHunksMoveUp` | desktop/src/patch.ts:24-78 | For any patch of separated hunks, with preamble and last newline, what each hunk that shows no new line removed is put one line too early, and lost where no line stands above it |
| `PatchRebuild.ZeroCountHunksRebuildIff` | desktop/src/patch.ts:24-78 | Any such patch rebuilds its old file exactly when each hunk that shows no new line removed only repeats of the line above it |
| `PatchRebuild.ALineIsMovedUp` | desktop/src/patch.ts:60-66 | `b` removed after `a` is put before it |
| `PatchRebuild.AnEmptiedFileIsLost` | desktop/src/patch.ts:28-34 | Of a file of two lines emptied under `@@ -1,2 +0,0 @@`, nothing is rebuilt |
| `PatchTrimmed.JoinedIsCut` | crates/ft-core/src/lib.rs:2030 | Trimmed, a text loses the blank lines at its end and the whitespace of the last line that is not blank |
| `PatchTrimmed.CutPatchRebuilds` | crates/ft-core/src/lib.rs:2030 | The maps of any patch's trimmed text rebuild what the readers take of the patch with that one line cut |
| `PatchTrimmed.CutPatchRebuildsIff` | crates/ft-core/src/lib.rs:2030 | For any patch of separated hunks the trimmed text rebuilds the old file exactly when the whole text did and its last line, past blank context, is not a removed one ending in whitespace |
| `PatchTrimmed.ATrailingSpaceIsLost` | crates/ft-core/src/lib.rs:2030 | A patch that removes a last line ending in a space, of which another file is rebuilt |
| `GitNames.Unquote` | crates/ft-core/src/lib.rs:2197-2243 | The loop over characters and escapes yields the bytes of `Unquoted` |
| `GitNames.PiecesRead` | crates/ft-core/src/lib.rs:2202-2240 | Whichever characters are printed raw and whichever bytes escaped, digits after an octal escape included, what is read is what was meant |
| `GitNames.ShortOctalReads` | crates/ft-core/src/lib.rs:2218-2232 | An octal escape of one or two digits is read as its value |
| `GitNames.LoneBackslashReads` | crates/ft-core/src/lib.rs:2238 | A backslash at the end stands for itself |
| `GitNames.PrintedNameReads` | crates/ft-core/src/lib.rs:2191-2243 | Every byte string comes back from the form git prints it in under `core.quotePath` |
| `GitNames.PrintedTextReads` | crates/ft-worker/src/git.rs:34 | Every name comes back from the form the worker has git print, with `core.quotePath` off |
| `GitNames.OneSideReadsIff` | crates/ft-core/src/lib.rs:2150-2162 | A `+++` or `---` line gives its raw name back, with or without git's trailing tab, exactly when the name does not end in whitespace |
| `GitNames.OneText` | crates/ft-core/src/lib.rs:2206-2210 | UTF-8 of different texts differs, so nothing is lost by taking names as bytes |
| `GitHeaders.ReadHeader` | crates/ft-core/src/lib.rs:2166-2189 | A header line yields the path of `HeaderPath` |
| `GitHeaders.PlainHeader` | crates/ft-core/src/lib.rs:2177-2189 | The search over every place the sides may meet ends at equal halves, or else at the first place, or at none |
| `GitHeaders.OneEqualSplit` | crates/ft-core/src/lib.rs:2178-2185 | Two sides are equal at one place at most, the middle |
| `GitHeaders.HeaderReadsIff` | crates/ft-core/src/lib.rs:2166-2189 | A header naming one file twice gives its name back exactly when the name does not end in whitespace, however often ` b/` stands in it |
| `GitHeaders.QuotedHeaderReadsIff` | crates/ft-core/src/lib.rs:2169-2174 | A header with both names in quotes, whichever characters are raw and whichever bytes escaped, gives the name after the change exactly when that name does not end in a quote and a raw space, and nothing when it does |
| `GitHeaders.QuotedTextHeaderReadsIff` | crates/ft-worker/src/git.rs:34 | So for a header printed with `core.quotePath` off: exactly when the name does not end in a quote and a space |
| `GitHeaders.TwoNamesAreLost` | crates/ft-core/src/lib.rs:2166-2189 | One name each kind of header does not give back |
| `GitHeaders.TwoNamesReadIff` | crates/ft-core/src/lib.rs:2177-2189 | A header of two names that differ gives the second exactly when no ` b/` stands in the first |
| `GitHeaders.NoHeaderNoPath` | crates/ft-core/src/lib.rs:2166-2177 | A line that opens with neither a quote nor `a/` names nothing |
| `GitHeaders.QuotedSideReads` | crates/ft-core/src/lib.rs:2156-2162 | One side in quotes gives its bytes back, however they are written |
| `GitPaths.HunksAreNotRead` | crates/ft-core/src/lib.rs:2102-2105 | A chunk's path depends on the lines above its first hunk only, whatever the hunks hold |
| `GitPaths.PairNamesTheFile` | crates/ft-core/src/lib.rs:2107-2116 | The first line under `+++ ` with a name is the path, and where none has one the first under `--- ` |
| `GitChunks.AnEditedFileIsItsNewName` | crates/ft-core/src/lib.rs:2107-2116 | With `--- a/` and an old name and `+++ b/` and a new one, the path is the new one, up to whitespace at its end |
| `GitChunks.ADeletedFileIsItsOldName` | crates/ft-core/src/lib.rs:2107-2116 | With `+++ /dev/null` it is the old one |
| `GitPaths.BinaryReadsIff` | crates/ft-core/src/lib.rs:2126-2142 | Git's line for a changed binary file gives its raw name exactly when the name neither holds ` and ` nor ends in whitespace |
| `GitPaths.ABinaryNameIsLost` | crates/ft-core/src/lib.rs:2126-2142 | `x and y` is one it does not give back |
| `GitPaths.BinaryChunkReadsIff` | crates/ft-core/src/lib.rs:2104-2142 | So does the chunk it stands in |
| `GitChunks.MovedReadsIff` | crates/ft-core/src/lib.rs:2118-2125 | A rename or a copy whose lines name no side gives its raw new name exactly when the name does not end in whitespace |
| `GitChunks.QuotedMoveReads` | crates/ft-core/src/lib.rs:2118-2125 | One in quotes it always gives |
| `GitChunks.ModeOnlyReadsIff` | crates/ft-core/src/lib.rs:2146-2149 | A chunk with nothing but its header to name it gives a raw name exactly when the name does not end in whitespace |
| `GitChunks.QuotedModeOnlyReadsIff` | crates/ft-core/src/lib.rs:2146-2149 | And a quoted one exactly when it does not end in a quote and a raw space |
| `GitChunks.DeletedBinaryReadsIff` | crates/ft-core/src/lib.rs:2126-2142 | A binary file gone gives its raw name exactly when the name does not end in whitespace |
| `GitChunks.NewBinaryReadsIff` | crates/ft-core/src/lib.rs:2126-2149 | A new binary file gives its raw name exactly when the name does not end in whitespace and what follows its last ` and ` does not open with `a/` or `b/` |
| `GitChunks.QuotedBinaryReadsIff` | crates/ft-core/src/lib.rs:2126-2149 | A changed binary file gives a quoted name exactly when what is printed holds no ` and `, or else neither part is taken for a side and the header can be read |
| `Base64.Encode` | crates/ft-proto/src/base64.rs:10-36 | The text has whole groups of four, the bits of the bytes and as few zeros as fill a letter, and padding for the rest |
| `Base64.Decode` | crates/ft-proto/src/base64.rs:39-65 | The result is nothing exactly when a character is not of the alphabet, and otherwise the whole bytes the sextets spell, though the accumulator wraps |
| `Base64.Shift` | crates/ft-proto/src/base64.rs:56-62 | One character shifted in 32 bits: what was undelivered and the new sextet are the byte delivered and the new low bits |
| `Base64.WrappingKeepsTheLowBits` | crates/ft-proto/src/base64.rs:57 | Overflow by shifting never reaches the undelivered bits |
| `Base64.TheAlphabet` | crates/ft-proto/src/base64.rs:11 | A sextet is written as the character at its place in the alphabet of RFC 4648, and only that is read as it |
| `Base64.ThereAndBack` | crates/ft-proto/src/base64.rs:10-65 | Decoding what was encoded returns the bytes, for every byte string |
| `Base64.EncodingIsUnique` | crates/ft-proto/src/base64.rs:10-36 | A byte string has one encoding only |
| `Base64.WritesBackIff` | crates/ft-proto/src/base64.rs:39-65 | A readable text is what its bytes encode to exactly when it is padded to whole groups, wastes no letter, and its left-over bits are zero |
| `Skills.EditsBetween` | desktop/src/skills.ts:604-618 | The row-by-row loop, with its shortcut for lengths, is the recursive edit distance stopped at two |
| `Skills.Nearly` | desktop/src/skills.ts:598-601 | The first known key that is one insertion, deletion or exchange away, or none when there is none |
| `Skills.DistIsFewestEdits` | desktop/src/skills.ts:603-618 | The distance is the least number of single edits that lead from one text to the other |
| `Skills.DistIsOneIff` | desktop/src/skills.ts:597-600 | A distance of one is exactly one edit |
| `Skills.LengthsAreEdits` | desktop/src/skills.ts:605 | A difference in length is at least that many edits |
| `Telemetry.Courier.Collect` | desktop/src/telemetry.ts:134-200 | One batch posts newest first to the first that is put off, remembers and acknowledges what settled, and says whether to go on |
| `Telemetry.Courier.Carry` | desktop/src/telemetry.ts:224-238 | A round is batches while there is more, at most eight |
| `Telemetry.BecameIff` | desktop/src/telemetry.ts:101-124 | 2xx delivers, 4xx other than 408 and 429 refuses for good, and every other reply or none puts off |
| `Telemetry.StopsAtTheFirstPutOff` | desktop/src/telemetry.ts:109-174 | A day of a batch is settled exactly when its own reply and every one before it is 2xx, or 4xx other than 408 and 429, and posted exactly when every one before it is |
| `Telemetry.PostedOnceIff` | desktop/src/telemetry.ts:134-238 | Against any answers a round posts no day twice exactly when no batch names one twice up to the first put off, among the batches the answers let it reach and that offer no day known |
| `Telemetry.DistinctBatchesPostOnce` | desktop/src/telemetry.ts:154-157 | With distinct days in every batch no day is posted twice, whatever is answered or lost |
| `Telemetry.ADayTwiceInABatchIsPostedTwice` | desktop/src/telemetry.ts:157-174 | A batch with one day twice posts it twice |
| `Telemetry.TheOldestStayOwed` | desktop/src/telemetry.ts:159-199 | What a round's acknowledgements leave in the outbox of an honest control plane is an unbroken run of the oldest days, whatever the gateway answers and whichever acknowledgements are lost |
| `Telemetry.LeftOwedInTwo` | desktop/src/telemetry.ts:224-238 | What a round leaves owed is what its first batch leaves, carried on by the rest of the round when that batch leads on |
| `Telemetry.EmptiedIff` | desktop/src/telemetry.ts:109-238 | With acknowledgements heard, a round of eight batches empties the outbox exactly when the batches have room for all that is owed and every reply is 2xx, or 4xx other than 408 and 429 |
| `Couriers.SafeStays` | desktop/src/telemetry.ts:100-200 | Any step by a courier, the control plane or the gateway keeps the system safe |
| `Couriers.EveryRunIsSafe` | desktop/src/telemetry.ts:100-238 | With any number of couriers and any message late, lost or taken in after its sender gave up, nobody believes a day delivered that did not reach the gateway, and every document is genuine |
| `Couriers.LeavesIff` | desktop/src/telemetry.ts:122-127 | A day leaves the outbox exactly when it is acknowledged, which only a day that reached the gateway is, pruned once older than thirty days, or discarded on switching off |
| `Couriers.OwedIff` | crates/ft-server/src/telemetry.rs:641-776 | A day is owed after a step exactly when it was just recorded, under that document, or was owed and did not leave |
| `Couriers.NoDayIsLost` | crates/ft-server/src/telemetry.rs:641-776 | In every run a recorded day is owed, stored under a document recorded for it, refused, or dropped by the control plane; the gateway holds no day twice |
| `Couriers.NeverOwedAgain` | crates/ft-server/src/telemetry.rs:719-771 | A delivered day is never owed again, whatever is computed and pruned later |
| `Couriers.AloneItCollects` | desktop/src/telemetry.ts:134-238 | A courier nobody interleaves with settles what one batch of `Telemetry` settles and asks for more in the same case |
| `Couriers.EveryRoundIsBounded` | desktop/src/telemetry.ts:224-238 | In every run no courier asks more than eight times in a round |
| `Couriers.ARoundEndsIff` | desktop/src/telemetry.ts:134-238 | A courier's round ends exactly when it is not answered, is offered nothing or a day it knows, has its first post put off, loses the acknowledgement's answer, or hears it after a day put off or in the eighth batch |
| `Couriers.WhatThePlaneMayDo` | crates/ft-server/src/telemetry.rs:641-776 | A day can be recorded exactly within the thirty days before today and without a row for it |
| `CouriersAlone.ACourierSetsOut` | desktop/src/telemetry.ts:134-200 | From any state a run takes an idle courier through a batch of whatever is owed: each day settled is at the gateway, under the document offered where the reply was 2xx, and owed no more, each other stays owed, and it asks again exactly when every reply settled |
| `Couriers.UpsertStores` | desktop/src/telemetry.ts:186-189 | Keyed on the day, a second digest replaces the first, every other stays as it was, and no day is stored twice |
| `Updates.OwnedStays` | desktop/src/update.ts:59-105 | Every step keeps one check in flight at most, every handle held or closed and never both, and the version shown that of the handle held |
| `Updates.EveryHandleIsOwned` | desktop/src/update.ts:41-105 | The same in every interleaving at the awaits |
| `Updates.AnInstallKeepsItsHandle` | desktop/src/update.ts:84-98 | With one install at a time, the handle being installed is the one held and is not closed, in every interleaving |
| `Updates.TwoInstallsLoseTheHandle` | desktop/src/update.ts:141-151 | A run of two installs at once in which it is |
| `Updates.StepLosesIff` | desktop/src/update.ts:85-98 | With every install's handle held and open, a step takes one away exactly when it is a check answered with nothing taking and an install still under way |
| `Updates.KeptIff` | desktop/src/update.ts:59-151 | Over every run, overlapping installs and all, each install keeps its handle throughout exactly when no such check is ever answered |
| `Updates.OneAtATimeIsNeverLetThrough` | desktop/src/update.ts:141-151 | With one install at a time none ever is |
| `Updates.TheBuildIsWhatWasTold` | desktop/src/update.ts:59-99 | After any run the build shown is the version the shell last told and the newer one that of the handle held |
| `Updates.ACheckLeftAlone` | desktop/src/update.ts:66-106 | A check nothing interleaves with asks for a version not known, takes what it finds, keeps what it held when it fails, and ends; outside the shell or under an install it asks nobody |
| `Updates.AFindUnderAnInstallIsClosed` | desktop/src/update.ts:88-93 | A check answered under an install closes what it found and ends |
| `Updates.OutsideTheShellNothingIsFound` | desktop/src/update.ts:73-74 | In no run outside the shell is anything asked or found |
| `Updates.OfferedIff` | desktop/src/update.ts:165-175 | A run makes one offer exactly when it had a find to offer |
| `Updates.Updater.OnCheck` | desktop/src/update.ts:84-99 | An answered check changes the handle, the closed and the build as the step says |
| `Updates.Updater.OnCheckFailed` | desktop/src/update.ts:100-105 | A check that failed changes nothing but where it stands |
| `Updates.Updater.OnHandleClosed` | desktop/src/update.ts:88-91 | A handle found under an install is closed and the check ends |
| `Updates.Updater.OnVersion` | desktop/src/update.ts:78-81 | The version settles into the build copied before the await |
| `Updates.Updater.OfferUpdate` | desktop/src/update.ts:165-175 | A find is offered once in a run |
| `Fleet.EveryRunIsThrottled` | desktop/src/fleet.ts:86-103 | In every timed run each cooling server has one pending timer and no other has any, what is noted is cooling, and asks of one server are 400 ms apart |
| `Fleet.StirsAreAnsweredAndAsksAreApart` | desktop/src/fleet.ts:86-103 | While its server stays connected, every stir is followed by an ask within 400 ms and the timers' lateness |
| `Fleet.Stirrer.StirFleet` | desktop/src/fleet.ts:89-103 | A stir asks at once or is noted |
| `Fleet.Stirrer.OnTimer` | desktop/src/fleet.ts:99-102 | The timer closes the window and opens the next when anything was noted |
| `Mentions.HandleFor` | desktop/src/mentions.ts:102-111 | The unbounded search ends after at most one more try than there are mentions, at the first free name |
| `Mentions.TriesAreBounded` | desktop/src/mentions.ts:107-110 | As many failed tries as that many taken names: numbered names are distinct |
| `Mentions.ANewHandleIsTheFirstFree` | desktop/src/mentions.ts:94-111 | An artifact not mentioned yet goes by its slug where free, and else by the slug with `-2`, `-3` and so on, the first that is free |
| `Mentions.AKnownHandleIsKept` | desktop/src/mentions.ts:94-101 | One mentioned already keeps the handle of its first mention |
| `Mentions.HandlesAreOneToOne` | desktop/src/mentions.ts:94-111 | However mentions come and go, distinct artifacts have distinct handles and one artifact has one |

## Left out

- JSON and the shapes of messages: both readers start from parsed records, and a skill's name, a card's title and a message's text arrive as given.
- Identifiers as text: `turn:kind` and `turn:tool:id` are structured values, so two that happen to concatenate alike are not confused here. Their order in a set is that of their text.
- The ACP reader's controls and `configure`, and the Codex reader's answers to `thread/start` and `model/list`, approvals, plans and rate limits: lookups without a hard property.
- Overlapping prompts: a prompt sent while one is active replaces the turn in the model as in the code; nothing is promised about the turn it replaces.
- `from_utf8_lossy`: a decoded name is its bytes, which is what git knows it by; what a name that is not UTF-8 is shown as is not part of this model.
- The wording of a rejected dotenv line, clipped to what fits: the reason is a value, with the character at fault.
- `split_diff` and `cut_to`: of splitting a diff into files only the trim of each chunk is modelled, and cutting a long patch at a newline is not; counting is not exact for lines that themselves begin with `++` or `--`.
- PatchRebuild.ZeroCountHunksRebuildIff: takes hunks to stand apart by a line at least, as git's do; where every hunk shows a new line `MapsRebuildTheOldFile` holds for hunks that touch as well.
- YAML splitting and folding in the skill checker, its harness tags and its regular expressions; the known fields are whatever list is given.
- HTTP, SQL and the clock: a post is its status or no reply, an acknowledgement is taken in or not and answered or not, and a day is a number.
- The courier's own version, asked once and reported with every request.
- Couriers.EveryRunIsSafe: says nothing about how often a day is posted across couriers, because the code promises only that posting twice is an upsert.
- The sweep's window is kept per step: `today` in `Couriers` is the day of the last sweep.
- Fleet.StirsAreAnsweredAndAsksAreApart: bounds stir-driven asks only; the sweep every ten seconds asks besides.
- `downloadAndInstall`, relaunching and the dialogs' wording: an install starts and ends, an offer is made.
- Screens, query hooks, the command line, tmux, ssh, sockets, the keychain and the shell's bridge.
