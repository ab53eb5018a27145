# genea-htr-tool, modelled in Dafny

This project models the core of the Genealogy Assistant handwriting
recognition (HTR) tool and proves properties of it. The tool works in steps:

- It sends each scanned page image to a chat-completion model.
- It reads a transcript out of the reply, with a two-tier retry protocol (a
  primary profile, then a fallback profile).
- It cleans the transcript so the PDF fonts can draw it. It wraps lines
  longer than 80 characters at spaces, into pieces under 80 characters
  unless a piece is a single longer word.
- It writes one PDF per page and gathers the per-page records of a batch.

The graphical front end adds a processor object with cooperative
cancellation and a progress counter. It also keeps the list of files to
process, the settings dialog that splits and merges model profiles, and the
default-filling of the provider settings.

The model is organised as follows:

| file | module | what it models |
|---|---|---|
| `wrappers.dfy` | `Wrappers` | `Option` and `Result` |
| `json.dfy` | `Json` | JSON values as the settings hold them |
| `strings.dfy` | `Strings` | Python's `strip`, `in`, `find`, `str(n)`, `os.path.basename`, ASCII `lower` |
| `replies.dfy` | `Replies` | the refusal phrases, the `Transcription:` marker extraction, the reading of one reply |
| `transcription.dfy` | `Transcription` | `transcribe_image` and `transcribe_image_fallback`: the retry loops as methods, proved against the tier functions |
| `request.dfy` | `Request` | `_make_transcription_request` |
| `sanitizer.dfy` | `Sanitizer` | `clean_text_for_pdf`, step by step |
| `wrap.dfy` | `Wrap` | the 80-character word wrap of `create_individual_pdf` |
| `sorting.dfy` | `Sorting` | `sorted(...)` on paths and on page numbers; rearrangements given by a completion order |
| `batch.dfy` | `Batch` | `_process_single_file` and `process_batch` of the command-line tool |
| `counter_race.dfy` | `CounterRace` | the unlocked `processed_count += 1` as interleaved reads and writes |
| `file_processor.dfy` | `Processor` | the GUI's `FileProcessor`: a class with `cancelled`, `processed_count` and the progress calls |
| `settings.dfy` | `Settings` | `create_model_section`'s parameter extraction, and `SettingsDialog.save_settings` over provider dictionaries that are objects |
| `app.dfy` | `App` | `OCRApp`'s file list, listbox, status line and process button, and the default-filling of the provider settings |

Everything outside the program is an input:

- the model's replies are an oracle sequence of replies, each a text or an
  exception message;
- image encoding failures and PDF writing outcomes are inputs;
- the order in which pool tasks complete is a permutation;
- where a cancellation lands is an input;
- the interleaving of the worker threads' counter accesses is an input;
- Unicode normalisation and the general-category lookup are function
  parameters.

## Model

| member | source | states |
|---|---|---|
| Replies.IsRefusal | genea_htr.py:292 | defines the refusal check: some phrase of the refusal list occurs in the reply as a case-sensitive substring; AnyOccursIff states this over the whole list |
| Replies.AnyOccursIff | genea_htr.py:292 | the refusal check holds exactly when some refusal phrase occurs as a case-sensitive substring of the reply |
| Replies.ExtractTranscript | genea_htr.py:297-300 | the extracted transcript never has leading or trailing whitespace |
| Replies.ExtractAtFirstMarker | genea_htr.py:297-298 | with a marker, the transcript is the text after its FIRST occurrence, stripped |
| Replies.ExtractWithoutMarker | genea_htr.py:299-300 | without a marker, the transcript is the whole reply, stripped |
| Replies.Classify | genea_htr.py:288-312 | an exception reads as raised; a reply holding a refusal phrase reads as a refusal; a transcript verdict carries non-empty stripped text |
| Replies.BlankIff | genea_htr.py:296-303 | a non-refusal reply is blank exactly when the part after the first marker (or the whole reply) is all whitespace, and otherwise yields its extracted transcript |
| Transcription.Transcribe | genea_htr.py:280-378 | defines one page's protocol: the primary tier from attempt 0 over the verdicts of the primary replies, escalating to the fallback tier on a refusal or an empty last reply; the tier lemmas below and ReturnedText state its outcomes |
| Transcription.Render | genea_htr.py:312-378 | a transcript is returned as it is; every other outcome becomes a string in square brackets |
| Transcription.FallbackTier | genea_htr.py:337-378 | the fallback tier makes no primary call and, for max_retries >= 0, between 1 and max_retries+1 calls; it ends in a transcript from some fallback reply or a fallback sentinel; exhausted empties or errors use all max_retries+1 calls; the loop-end sentinel happens only for a negative budget |
| Transcription.PrimaryTier | genea_htr.py:281-322 | for max_retries >= 0, the primary tier makes at most max_retries+1 primary calls; a primary error sentinel means all of them were used and the fallback was never called; every fallback sentinel means the fallback was called; a transcript comes from some reply; the loop-end sentinels happen only for a negative budget |
| Transcription.PrimaryDecidedAt | genea_htr.py:291-312 | if attempt k is the first refusal or transcript of the primary tier, the page ends there: a transcript with k+1 calls, or a refusal that goes straight to the fallback with no further primary call |
| Transcription.PrimaryExhausted | genea_htr.py:302-320 | if no primary attempt decides, an exception on the last attempt returns the error sentinel without the fallback, and an empty last reply goes to the fallback |
| Transcription.FallbackDecidedAt | genea_htr.py:347-368 | a fallback refusal ends the page at once with the safety-filter sentinel and no retry; a transcript ends it with k+1 calls |
| Transcription.FallbackExhausted | genea_htr.py:358-376 | an exhausted fallback ends in the Empty or the Error sentinel, chosen by its last reply, after max_retries+1 calls |
| Transcription.PrimaryAttempt | genea_htr.py:291-320 | the outcome of one primary attempt for each kind of reply |
| Transcription.FallbackAttempt | genea_htr.py:347-376 | the outcome of one fallback attempt for each kind of reply |
| Transcription.PrimarySkip | genea_htr.py:302-317 | attempts that retry (empty or exception before the last attempt) lead to the next attempt and change nothing else |
| Transcription.FallbackSkip | genea_htr.py:358-373 | the same for the fallback tier |
| Transcription.TranscriptRead | genea_htr.py:296-312 | every transcript verdict carries non-empty, stripped text |
| Transcription.ReturnedText | genea_htr.py:266-378 | a non-sentinel return is non-empty and stripped; every other return is bracketed; the "Unexpected end" sentinels occur exactly when max_retries is negative |
| Transcription.ReadReply | genea_htr.py:289-312 | one loop iteration's checks on a reply (exception, refusal, marker, emptiness) give the verdict the tier functions use |
| Transcription.TranscribeImageFallback | genea_htr.py:324-378 | the retry loop returns the result and the number of calls given by the fallback tier, and makes at most max_retries+1 calls |
| Transcription.TranscribeImage | genea_htr.py:266-322 | an encoding failure propagates before any call; otherwise the loop returns the rendered result of the two tiers with their call counts, each at most max_retries+1 |
| Request.Parameters | genea_htr.py:257-260 | the parameters are the profile's keys other than "model" and "prompt", with their values |
| Request.RequestBody | genea_htr.py:236-260 | the body holds the profile's model, one user message with the prompt and the data URL of the image, and every other profile key copied verbatim; "prompt" is never a top-level key |
| Request.MakeTranscriptionRequest | genea_htr.py:233-260 | a profile without "model" or without "prompt" raises KeyError for that key; otherwise the loop builds exactly the request body |
| Sanitizer.Clean | genea_htr.py:100-193 | defines the cleaning as one function of the input: empty text unchanged, otherwise NFD then NFC, the category filter, the removal of invisible characters, the replacement table and the Latin-1 filter; CleanTextForPdf is proved to compute it and the Clean lemmas state its guarantees |
| Sanitizer.Invisible | genea_htr.py:160 | defines the characters step 3 removes, the classes of its regular expression: U+200B to U+200F, U+2028 to U+202F, U+205F to U+206F, and U+FEFF |
| Sanitizer.CategoryStep | genea_htr.py:120-154 | the category step keeps a character, drops it or replaces it by "?"; newline, carriage return and tab are always kept |
| Sanitizer.CleanTextForPdf | genea_htr.py:100-193 | the five steps compute the cleaned text; empty input comes back unchanged |
| Sanitizer.KeepByCategory | genea_htr.py:119-156 | the loop of step 2 applies the category filter to each character in order |
| Sanitizer.ReplaceEach | genea_htr.py:164-176 | the replacement loop applies the pairs in table order |
| Sanitizer.EncodableOnly | genea_htr.py:179-193 | the loop of step 5 keeps exactly the characters up to U+00FF |
| Sanitizer.CleanIsLatin1 | genea_htr.py:179-193 | every output character has code point at most 255 |
| Sanitizer.CleanHasNoReplacedCharacters | genea_htr.py:160-193 | no curly quote, en or em dash, ellipsis or no-break space is left in the output |
| Sanitizer.CleanKeepsLineStructure | genea_htr.py:113-193 | the newlines, carriage returns and tabs of the normalised text all survive, in order, and no new ones appear |
| Sanitizer.CleanKeepsPlainText | genea_htr.py:110-193 | normalised text made only of characters every step keeps comes back unchanged |
| Sanitizer.ReplacementsClear | genea_htr.py:175-176 | when no replacement text holds a replaced character, none of the replaced characters is left |
| Sanitizer.FlatMapKeepsLines | genea_htr.py:119-191 | a per-character step that keeps line controls and makes no new ones preserves the line structure |
| Wrap.SplitOn | genea_htr.py:447 | splitting yields at least one part, and no part holds the separator |
| Wrap.JoinSplit | genea_htr.py:447 | joining the split parts with the separator gives back the string |
| Wrap.Tokens | genea_htr.py:459-475 | defines the words of a string, `split()` with no argument: its maximal runs of non-whitespace; the wrap lemmas count words this way, since the empty strings that `split(' ')` gives for repeated spaces add no word to a drawn piece |
| Wrap.Step | genea_htr.py:461-475 | defines one pass of the word loop: the word and a space join the pending line while the pending line plus the word is under 80 characters; otherwise a non-empty pending line is drawn stripped and the word starts the next one |
| Wrap.Fold | genea_htr.py:459-475 | defines the word loop's state after the words of the line split on a single space, in order; FoldKeepsWords and FoldWidths state its invariants |
| Wrap.WrapLong | genea_htr.py:459-485 | defines the pieces of a long line: the pieces drawn in the loop, then the stripped pending line when it is non-empty; WrapLongKeepsWords and WrapLongWidths state its properties |
| Wrap.LinePieces | genea_htr.py:458-495 | defines what one line draws: the line itself when it has at most 80 characters, its wrapped pieces otherwise; LinePiecesSpec states its properties |
| Wrap.DrawnPieces | genea_htr.py:446-495 | defines what a transcription draws: the pieces of each newline-separated line, line after line; DrawnPiecesKeepWords states its properties |
| Wrap.WrapLine | genea_htr.py:458-495 | the wrap loop for one line draws exactly the pieces of the wrap function |
| Wrap.TranscriptionPieces | genea_htr.py:446-495 | the loop over the lines of the cleaned text draws the pieces of each line in order |
| Wrap.LinePiecesSpec | genea_htr.py:458-495 | a line of at most 80 characters is drawn as it is; a longer one as pieces whose words, in order, are exactly the line's words, each piece under 80 characters unless it is a single word |
| Wrap.WrapLongKeepsWords | genea_htr.py:459-485 | the pieces of a long line hold exactly its whitespace-separated words (`split()`), in order |
| Wrap.WrapLongWidths | genea_htr.py:459-485 | every piece of a long line is under 80 characters or holds no space |
| Wrap.FoldKeepsWords | genea_htr.py:461-475 | during the word loop, the words drawn plus those pending are the words seen so far |
| Wrap.FoldWidths | genea_htr.py:461-475 | during the word loop, every drawn piece fits and the pending line fits or is one word |
| Wrap.TokensStrip | genea_htr.py:473 | `strip()` of the pending line keeps every word |
| Wrap.DrawnPiecesKeepWords | genea_htr.py:446-495 | every word of the cleaned transcription is drawn, in order, and nothing else is |
| Sorting.SortStrings | genea_htr.py:601 | `sort()` on the paths gives an ordered permutation of them |
| Sorting.InsertByPlace | genea_htr.py:635 | inserting a record puts it after every record whose page number is at most its own and before the rest, the others keeping their order: the step that makes the sort stable |
| Sorting.SortBy | genea_htr.py:635 | sorting by page number gives an ordered permutation of the records |
| Sorting.StrLeTotal | genea_htr.py:601 | string order is total |
| Sorting.StrLeTrans | genea_htr.py:601 | string order is transitive |
| Sorting.StrLeAntisymmetric | genea_htr.py:601 | string order is antisymmetric |
| Sorting.SortedUnique | genea_htr.py:634-636 | a sorted permutation of a list with strictly increasing keys is that list |
| Sorting.SortPermuted | genea_htr.py:628-636 | records collected in any completion order and sorted by page number come back in page order |
| Sorting.SortPickedPrefix | genea_htr_gui.py:860-872 | records collected until a cancellation and then sorted have strictly increasing page numbers, come from the full run, and are the whole run when every task was collected |
| Sorting.SortDistinctKeys | genea_htr_gui.py:872 | sorting records with distinct page numbers orders them strictly |
| Sorting.PickPermute | genea_htr.py:629-632 | rearranging the completion order rearranges the collected records |
| Batch.ErrorRecord | genea_htr.py:566-577 | defines the error record: the image path, its base name, "[Error: msg]" as the transcription, no PDF path, the page number, status error and the message |
| Batch.PageText | genea_htr.py:549 | defines what `transcribe_image(path)` gives with its default of 3 retries: the encoding exception, or the rendered outcome of the page's protocol |
| Batch.Effects | genea_htr.py:548-553 | defines what the two steps of one file produce: the transcription or its exception, and the PDF path or its exception |
| Batch.FileOutcome | genea_htr.py:543-577 | the record names the image, its base name and its page number |
| Batch.RecordShapes | genea_htr.py:548-577 | a record is a success exactly when transcription and PDF both succeeded; a success carries the transcription and the PDF path; an error carries no PDF path and "[Error: msg]" with the failing step's message |
| Batch.ProcessSingleFile | genea_htr.py:531-577 | processing one file yields the record of its effects |
| Batch.SentinelIsSuccess | genea_htr.py:549-564 | a page whose transcription is a bracketed sentinel is still recorded as a success when its PDF was written |
| Batch.AllOutcomes | genea_htr.py:614-616 | image i of the sorted list is recorded as page i+1 |
| Batch.PagesIncrease | genea_htr.py:614-636 | page numbers strictly increase along a batch's records |
| Batch.PdfPaths | genea_htr.py:617-618 | there are no more PDF paths than records |
| Batch.CountStatus | genea_htr.py:644-645 | a status count is at most the number of records |
| Batch.CountsAddUp | genea_htr.py:643-655 | successful plus failed equals the number of records |
| Batch.PdfPathsFromSuccesses | genea_htr.py:638-641 | each listed PDF path is the non-empty path of a success record, and there are no more of them than successes |
| Batch.ProcessBatch | genea_htr.py:579-656 | no files gives the "No JPEG files found" error; a non-positive worker count raises; otherwise the summary of the sorted files |
| Batch.ProcessSequentially | genea_htr.py:612-618 | the sequential loop records the files in list order, pages 1..n, and gathers their non-empty PDF paths in order |
| Batch.ProcessConcurrently | genea_htr.py:619-641 | whatever the completion order, the concurrent branch yields the same records as the sequential one, and their PDF paths |
| Batch.CollectCompletions | genea_htr.py:629-632 | the collection loop records one result per task, in completion order |
| Batch.CollectPdfPaths | genea_htr.py:638-641 | the loop keeps the non-empty PDF paths in result order |
| Batch.Summary | genea_htr.py:643-656 | defines the success dictionary: the PDF paths, the number of files as processed_files, the success and error counts, and the records; SummarySpec states its properties |
| Batch.SummarySpec | genea_htr.py:597-656 | the files are sorted and none is lost; results are pages 1..n of the sorted list; successful + failed = processed = number of files; every PDF path comes from a success record |
| CounterRace.Perform | genea_htr_gui.py:823 | defines one access of `processed_count += 1`: a read records the count for its thread; a write stores that thread's read value plus one |
| CounterRace.Interleave | genea_htr_gui.py:823 | defines the counter after the threads' reads and writes, in the order they happen |
| CounterRace.Locked | genea_htr_gui.py:823 | defines the orders a lock around the increment allows: each read immediately followed by the same thread's write |
| CounterRace.NeverOvercounts | genea_htr_gui.py:823-833 | under any interleaving, unlocked increments never count more than the writes made |
| CounterRace.LostUpdate | genea_htr_gui.py:823 | two threads whose reads both come before their writes leave the counter at 1 after two files |
| CounterRace.LockedCountsAll | genea_htr_gui.py:823 | with each read immediately followed by its write, the counter ends at its start plus the number of increments |
| CounterRace.Serial | genea_htr_gui.py:823 | one increment after another, for n threads, is a locked schedule with n writes |
| Processor.RaisesCancel | genea_htr_gui.py:849-853 | defines when the sequential loop lets the cancellation exception out: the job was not already cancelled and the cancellation lands between the loop's check for a file and that file's own check at line 803 |
| Processor.FileEvents | genea_htr_gui.py:809-834 | a started file emits "start" with the old count, then "complete" (on success) or "error" with the count plus one |
| Processor.EventsOf | genea_htr_gui.py:849-854 | files processed one after another emit two progress calls each |
| Processor.EventsCount | genea_htr_gui.py:809-854 | the k-th file's calls are "start" at count start+k, then the outcome at count start+k+1, "complete" exactly for a success |
| Processor.SequentialStop | genea_htr_gui.py:847-854 | the sequential loop processes at most every file, none if the job was already cancelled, and every file if nobody cancels |
| Processor.StopFacts | genea_htr_gui.py:849-853 | the loop stops at file i exactly when the job was already cancelled or the cancellation lands at file i |
| Processor.FileProcessor.constructor | genea_htr_gui.py:788-795 | a new processor is not cancelled, has counted nothing and has emitted nothing |
| Processor.FileProcessor.Cancel | genea_htr_gui.py:797-799 | cancelling sets the flag and changes nothing else |
| Processor.FileProcessor.ProcessSingleFile | genea_htr_gui.py:801-839 | a cancelled job raises "Processing cancelled by user" before any progress call or counting; otherwise the counter grows by one, the file's two progress calls are emitted, and the record is the one the command-line tool makes |
| Processor.FileProcessor.ProcessInOrder | genea_htr_gui.py:847-854 | the loop processes files in list order up to where it stops, counts and reports each, and raises the cancellation exactly when the cancellation lands between the loop's check and the file's |
| Processor.FileProcessor.RunSequentially | genea_htr_gui.py:841-875 | the sequential run's results are the prefix of the full run up to the stop, with their PDF paths, or the cancellation exception |
| Processor.FileProcessor.RunConcurrently | genea_htr_gui.py:855-875 | a worker count below 1 raises before any task is submitted and changes nothing; otherwise the concurrent run's results are the collected records sorted by page number, with their PDF paths; the job ends cancelled exactly when it was cancelled before or the loop broke early; a job cancelled before the run returns no records and makes no progress call; the progress calls are each started task's "start" call and its outcome call, two per task, with the file names of their records; the counter follows the threads' interleaving, never exceeds one per started task, and counts them all when the increments are locked |
| Processor.FileProcessor.CollectSorted | genea_htr_gui.py:860-872 | the loop over completed tasks followed by the sort gives the collected records in page order, with their PDF paths |
| Processor.FileProcessor.TasksRan | genea_htr_gui.py:808-834 | the started tasks append their progress calls, two per task, and move the counter as their interleaving gives, at most one per task; the cancellation flag is untouched |
| Processor.Processed | genea_htr_gui.py:849-854 | defines the records of the first k files processed in list order, file i as page i+1; ProcessedIsPrefix ties them to the command-line tool's run |
| Processor.OutcomeKind | genea_htr_gui.py:824-834 | the second progress call of a task is "complete" exactly for a success record, "error" otherwise, and never "start" |
| Processor.CallEvents | genea_htr_gui.py:808-834 | the progress calls of tasks running side by side: one per entry of the call order |
| Processor.CallEventsAt | genea_htr_gui.py:808-834 | each concurrent progress call reports the count it read and its task's file name; it is "start" exactly when its task has not called before, and otherwise the outcome of that task's record |
| Processor.CallsInRange | genea_htr_gui.py:857-858 | every progress call comes from a started task, which is one of the submitted files, and there are two calls per started task |
| Processor.StartedTaskEvents | genea_htr_gui.py:808-834 | every started task makes a "start" call with its file name and, later, a "complete" or "error" call matching its record |
| Processor.ProcessedIsPrefix | genea_htr_gui.py:847-854 | the records of the first k files are the first k records of the full run |
| Processor.ConcurrentResults | genea_htr_gui.py:857-874 | the concurrent results are sorted without duplicates, each one from the full run, and the full run when nothing was cancelled |
| Settings.ExtractParameters | genea_htr_gui.py:463-467 | the parameters shown are the profile without its "model" and "prompt" keys |
| Settings.FillProfile | genea_htr_gui.py:575-595 | a cleared profile is refilled with the merged profile, or is left with the model and stripped prompt and the fault when the parameters are unusable |
| Settings.Merged | genea_htr_gui.py:578-592 | defines the saved profile: the model and the stripped prompt, updated with the parsed parameters; nothing when non-blank parameters are not a JSON object; MergedProfile states its properties |
| Settings.MergedProfile | genea_htr_gui.py:578-592 | a profile merges exactly when its parameters are blank or a JSON object; blank parameters give model and stripped prompt; otherwise the parameters override the model and prompt keys they hold |
| Settings.ProfileRoundTrip | genea_htr_gui.py:464-467 | extracting the parameters of a profile and saving them back with its model and prompt gives back the profile, with its prompt stripped |
| Settings.RestoreNamedKeys | genea_htr_gui.py:464-467 | a map without "model" and "prompt", put back under new values for those two keys, is the map with those two keys overwritten |
| Settings.SaveProfile | genea_htr_gui.py:571-595 | defines a provider dictionary after saving one profile: unchanged with a failure when the stored profile is not a dictionary; the merged profile when it merges; the model and prompt only, with the failure, when it does not; SaveProfileEffect states its properties |
| Settings.SaveProfileEffect | genea_htr_gui.py:571-595 | saving one profile fails exactly when the stored profile is not a dictionary or the parameters are unusable; on success the profile is the merged one; no other key changes |
| Settings.SaveProvider | genea_htr_gui.py:566-595 | defines a provider dictionary after its save: the API key written, then the primary and then the fallback profile, stopping at the first failure; SaveProviderEffect states its properties |
| Settings.SaveProviderEffect | genea_htr_gui.py:566-595 | saving one provider succeeds exactly when both profiles are savable, and then writes the API key and both merged profiles |
| Settings.ProviderSettings.WriteProfile | genea_htr_gui.py:571-595 | the in-place clear and refill of one profile dictionary leaves the provider dictionary and the failure that SaveProfile gives |
| Settings.ProviderSettings.WriteProvider | genea_htr_gui.py:566-595 | the API key, then the primary and fallback profiles, stopping at the first failure |
| Settings.InOrder | genea_htr_gui.py:562-595 | defines the provider dictionaries after the save loop: each provider in order, a missing one starting from an empty dictionary, up to the first failure; the InOrder lemmas state its properties |
| Settings.InOrderUntouched | genea_htr_gui.py:562-595 | providers the loop does not visit keep their dictionaries, and no other dictionary appears |
| Settings.InOrderSucceeds | genea_htr_gui.py:562-595 | a loop that completes has run the save on every provider's own dictionary, with no failure |
| Settings.InOrderStops | genea_htr_gui.py:562-595 | a loop that stops has saved the providers up to the one that failed and left those after it untouched |
| Settings.SaveAll | genea_htr_gui.py:558-595 | defines the provider dictionaries after `save_settings`: the save loop over the four providers with the forms of their tabs; SaveAllSucceeds states its properties |
| Settings.SaveAllSucceeds | genea_htr_gui.py:558-600 | a save that completes has written every provider's API key and both profiles as its form gives them |
| Settings.Unshared | genea_htr_gui.py:895-900 | defines when no two providers share a dictionary, as holds for the dictionaries the application builds |
| Settings.SettingsDialog.constructor | genea_htr_gui.py:274-278 | the dialog's provider map is a shallow copy holding the application's own dictionaries; general settings default to max_workers 1 |
| Settings.SettingsDialog.Isolated | genea_htr_gui.py:277 | a deep-copying dialog starts with fresh dictionaries of the same content, shared with nothing |
| Settings.SettingsDialog.SaveSettings | genea_htr_gui.py:558-604 | the dialog's dictionaries end as the save of all providers gives them, whatever happens after; on a provider failure or an unreadable thread count there is no result and the general settings are untouched; otherwise max_workers is recorded and the result set |
| Settings.SettingsDialog.SaveProviders | genea_htr_gui.py:562-595 | the provider loop leaves the dictionaries and the failure that the in-order save gives |
| Settings.SettingsDialog.SaveProviderInto | genea_htr_gui.py:562-595 | one pass of the provider loop changes that provider's dictionary only, adding it if missing |
| Settings.SettingsDialog.AddMissing | genea_htr_gui.py:563-564 | a missing provider gets a new empty dictionary; existing ones are kept |
| Settings.SettingsDialog.Accept | genea_htr_gui.py:597-604 | a readable thread count is recorded as max_workers and the result holds the dialog's configs and general settings; an unreadable one raises before either, leaving both unchanged |
| Settings.BadSaveClearsProfile | genea_htr_gui.py:575-595 | saving invalid JSON parameters over a stored profile fails and leaves that profile holding only the model and prompt |
| Settings.BadFormUnmergeable | genea_htr_gui.py:588-595 | non-blank parameters that do not parse cannot be merged and fail as invalid JSON |
| Settings.BadProfileFails | genea_htr_gui.py:575-595 | saving the invalid form over a dictionary profile fails and leaves the base profile in place |
| Settings.SharedSave | genea_htr_gui.py:277 | with a shallow-copying dialog, the application's dictionaries carry the save's writes whether or not the save fails |
| Settings.FailedSaveLeaks | genea_htr_gui.py:277 | a failed save through the shallow copy changes the application's settings even though the dialog returns no result |
| Settings.SaveBadFormOver | genea_htr_gui.py:277 | a failed save over a stored profile with extra parameters loses them in the application's dictionary |
| Settings.IsolatedSave | genea_htr_gui.py:277 | with a deep-copying dialog the application's dictionaries are unchanged whatever the save does, and a successful save's edits are in the result |
| App.Supported | genea_htr_gui.py:1386 | defines the accepted files: the lower-cased path ends with ".jpg", ".jpeg", ".png" or ".pdf" |
| App.WarningText | genea_htr_gui.py:1392 | defines the warning for an unsupported file, naming it by its base name |
| App.StatusText | genea_htr_gui.py:1395-1414 | defines the status line after adding, removing and clearing files, with the counts written in decimal |
| App.Names | genea_htr_gui.py:1389 | the listbox shows the base name of each listed path |
| App.Added | genea_htr_gui.py:1384-1390 | defines the list after `add_files`: each file in order appended when it is supported and not yet listed; the Added lemmas state its properties |
| App.Warnings | genea_htr_gui.py:1391-1392 | defines the warnings `add_files` shows: one per unsupported file, in order, naming it by its base name |
| App.AddedExtends | genea_htr_gui.py:1384-1390 | adding only appends: the entries already listed are unchanged |
| App.AddedMembers | genea_htr_gui.py:1384-1390 | a path is listed after adding exactly when it was listed before or is a supported path among those added |
| App.AddedDistinct | genea_htr_gui.py:1387-1388 | the list stays free of duplicates |
| App.AddedInTwoDrops | genea_htr_gui.py:1381-1396 | adding two batches one after the other is adding them together |
| App.Appended | genea_htr_gui.py:1387-1389 | appending a new path appends its base name to the listbox and keeps the list duplicate-free |
| App.AddEach | genea_htr_gui.py:1384-1392 | the add loop appends the supported new paths in order, keeps the listbox in step, counts what it appended and warns once per unsupported file |
| App.OcrApp.AddFiles | genea_htr_gui.py:1381-1396 | add_files appends, counts and warns as above; only when something was added does it set the status and refresh the button |
| App.Without | genea_htr_gui.py:1403-1405 | defines the list without the entries at the selected indices; the Without lemmas state its properties |
| App.DeleteReversed | genea_htr_gui.py:1403-1405 | deleting an ascending selection in reverse order removes exactly the selected indices |
| App.DeleteBelow | genea_htr_gui.py:1403-1405 | deleting a lower index after the higher ones removes that index as well |
| App.WithoutKeeps | genea_htr_gui.py:1403-1405 | an entry at an index not selected survives |
| App.WithoutDrops | genea_htr_gui.py:1403-1405 | every surviving entry stands at an index not selected |
| App.WithoutKeepsFront | genea_htr_gui.py:1403-1405 | entries before every selected index keep their places |
| App.NamesWithout | genea_htr_gui.py:1404-1405 | deleting from the listbox and from the list in step keeps the listbox showing the list |
| App.WithoutDistinct | genea_htr_gui.py:1403-1405 | removing entries keeps the list duplicate-free |
| App.OcrApp.RemoveSelected | genea_htr_gui.py:1398-1407 | remove_selected deletes exactly the selected entries, the others keep their order, and the status and button are refreshed only for a non-empty selection |
| App.OcrApp.ClearFiles | genea_htr_gui.py:1409-1415 | a confirmed clear of a non-empty list empties it and disables processing; otherwise nothing changes |
| App.OcrApp.UpdateProcessButton | genea_htr_gui.py:1417-1422 | processing is enabled exactly when files are listed and a processor exists |
| App.AddProviders | genea_htr_gui.py:1666-1668 | each missing provider gets the empty provider dictionary; the others are kept |
| App.FillProfiles | genea_htr_gui.py:1671-1685 | each empty or missing profile of a listed provider becomes the blank one |
| App.OcrApp.FillDefaultsFor | genea_htr_gui.py:1665-1685 | the two default-filling loops leave the provider settings filled with defaults |
| App.OcrApp.FillDefaults | genea_htr_gui.py:919-934 | the default-filling over the four providers |
| App.WithDefaults | genea_htr_gui.py:1666-1685 | defines the provider dictionaries after the default-filling of `load_settings`: each listed provider present with both profiles filled; DefaultsComplete, DefaultsKeep and DefaultsIdempotent state its properties |
| App.DefaultsComplete | genea_htr_gui.py:1666-1685 | after filling, every provider has a non-empty primary and fallback profile, and no other provider appears |
| App.DefaultsKeep | genea_htr_gui.py:1666-1685 | filling keeps unlisted providers, API keys and non-empty profiles as they were |
| App.DefaultsIdempotent | genea_htr_gui.py:1666-1685 | filling twice is filling once |
| App.OcrApp.constructor | genea_htr_gui.py:893-908 | the application starts with no files and no processor, and with provider settings filled with defaults, from the settings file if there is one |
| Strings.IsSpace | genea_htr.py:298 | defines the whitespace `strip()` removes: the characters Python's `str.isspace()` accepts |
| Strings.Strip | genea_htr.py:298 | `strip()` leaves no leading or trailing whitespace, and is empty exactly for an all-whitespace string |
| Strings.TrimStart | genea_htr.py:298 | the leading whitespace removed is all whitespace, and the rest starts with a non-space |
| Strings.TrimEnd | genea_htr.py:298 | the trailing whitespace removed is all whitespace, and the rest ends with a non-space |
| Strings.IndexOf | genea_htr.py:297-298 | `find` reports the first occurrence, or that there is none |
| Strings.IndexOfFirst | genea_htr.py:298 | the first occurrence is the one `find` reports |
| Strings.ContainsIff | genea_htr.py:297 | `in` holds exactly when the pattern occurs at some index |
| Strings.IntToString | genea_htr.py:320 | `str(n)` is non-empty, holds no bracket, and starts with "-" exactly for a negative n |
| Strings.NatToString | genea_htr_gui.py:1395 | `str(n)` of a count is a non-empty string of digits without a leading zero |
| Strings.BaseName | genea_htr.py:543 | defines `os.path.basename` with "/" as the separator: the part of the path after its last "/"; BaseNameIsLastComponent states its properties |
| Strings.BaseNameIsLastComponent | genea_htr.py:543 | the base name is a suffix of the path with no "/", preceded by "/" unless it is the whole path |
| Strings.EndsWith | genea_htr_gui.py:1386 | defines `endswith` for one suffix: the suffix is no longer than the string and matches its end |
| Strings.LowerAscii | genea_htr_gui.py:1386 | lower-casing keeps the length and maps each character on its own |

## Left out

- The OpenAI client, `encode_image` (PIL and base64), `create_individual_pdf`'s drawing and `create_searchable_pdf` (ReportLab) are not part of this model. The model's replies, the encoding error and the PDF writing outcome are inputs.
- `glob` and the file system: `process_batch` receives the list of found files.
- Logging, message boxes, the progress dialog, and all Tk widgets and theming.
- Threads: the thread pool, `as_completed`, `future.cancel()`, and the background thread with its cancellation polling. The completion order, the set of tasks that got past their own cancellation check, and the interleaving of their counter accesses are inputs.
- Processor.FileProcessor.RunConcurrently: the order of the worker threads' progress calls and the counter value each call reads are inputs. The run promises each started task's two calls, in the right order, with the right kind and file name, but not how a call's count relates to the counter's interleaving.
- `unicodedata.normalize` and `unicodedata.category`: function parameters (Unicode Standard Annex #15 and the Unicode character database are not part of this model).
- The pagination of the PDF (`y_position`, `showPage`): it decides where a piece is drawn, not which pieces are drawn.
- Strings.BaseName: follows POSIX `os.path.basename` (the part after the last "/"); Windows separators are not modelled.
- Strings.LowerAscii: lower-cases ASCII letters only; Python's Unicode `str.lower()` on other letters is not modelled, which cannot change whether a path ends in one of the ASCII suffixes unless a non-ASCII letter lower-cases to an ASCII one.
- Settings.SaveProfile: a stored profile that is not a dictionary fails with the provider dictionary unchanged. In the source, `config.clear()` would first empty a stored list in place. The case cannot arise, because building the dialog already calls `config.get(...)` on every profile (genea_htr_gui.py:454), which raises for a non-dictionary.
- Settings.Merged: JSON that parses but is not an object is a failure (ParametersNotADictionary); Python's `dict.update` would accept any iterable of key/value pairs (a list of pairs, or the empty string that `json.loads('""')` gives), which is not modelled.
- The thread-count spinbox: what `IntVar.get()` returns is an input, None when the text it holds is not a number and the call raises.
- `json.loads` and `json.dumps`: a form carries its parameters text and the result of parsing it; the display of the parameters as indented JSON is not modelled.
- `load_settings`' file reading: the stored provider settings are an input. `selected_provider` and the general settings it reads are not modelled. A provider entry that is not a dictionary is not modelled: provider settings are maps.
- The transcription defaults: the GUI creates `HandwritingOCR("dummy_key", provider=...)`, but `HandwritingOCR.__init__` (genea_htr.py:50) takes no `provider` argument. The call always raises TypeError, so the model fills only the blank `{"model": "", "prompt": ""}` profiles of the `except` branch.
- `try_create_ocr_processor`, `on_provider_changed` and `open_settings` are not part of this model. The same TypeError would keep `ocr_processor` unset. `hasProcessor` stands for it and is never set by the modelled operations.
- `OCRApp` keeps its provider dictionaries as values. Sharing between the application and the settings dialog is modelled in `Settings`, where provider dictionaries are objects.
- Status messages and warnings are datatypes. Their texts are given by functions.
- `build_standalone.py` and the command-line `main` are not part of this model.

## Findings

| source | as written | input that shows it | evidently intended | confidence | as-written member | corrected member |
|---|---|---|---|---|---|---|
| genea_htr_gui.py:823 | worker threads run `self.processed_count += 1` with no lock, as a separate read and write | two workers both read 0 before either writes; after two files the count is 1 | every processed file adds one to the count | not executed | CounterRace.LostUpdate | CounterRace.LockedCountsAll |
| genea_htr_gui.py:277 | `provider_configs.copy()` is shallow, and `save_settings` clears and refills the shared profile dictionaries in place before a later invalid JSON aborts it | a stored primary profile with "temperature", saved with parameters text `{` | a save that fails, or a dialog that is cancelled, leaves the application's settings unchanged | not executed | Settings.FailedSaveLeaks | Settings.IsolatedSave |
