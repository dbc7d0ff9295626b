# Spikra bootcamp chatbots, modelled in Dafny

This project models the stateful core of the bootcamp's chatbot scripts and proves properties of the model.

- **RAGify** (`src/day10.py`, module `Ragify`) keeps a registry of named conversations in the session state.
  - Each conversation has a session id, a chat history, its uploaded documents and its own vector-store directory.
  - Conversations can be created, switched and deleted.
  - Adding or removing a document rebuilds that conversation's store from all of its documents: every chunk is tagged with the document it came from.
  - A message is answered by the retrieval chain when the conversation has documents and its directory exists, and by the plain chat model otherwise. A failure of either becomes the recorded answer.
  - The registry is the class `Registry`. Its fields are the conversations, their names in insertion order (the order the switch selectbox lists them in), the current conversation, and the store directories on disk with the chunks each holds.
- **Chat with multiple PDFs** (`src/day9.py`, module `PdfChat`) rebuilds one vector store from uploaded PDFs.
  - `persist_dir` is drawn at module level, and Streamlit runs the whole script again on every interaction. So every run of the script has a directory name of its own, while the session state and the disk carry over. The app is the class `App`, and a run after the first is its method `Rerun`, which draws a new `persistDir`.
  - Before a build the session's store is dropped and the current run's directory is torn down. When that directory cannot be removed it is renamed to a quarantine name, and the new store is still built at the original path.
  - A build in a later run sees a new directory name, which does not exist yet. So its teardown removes nothing, and the store of the earlier build stays on disk.
  - Questions are answered by the store the session holds, or else by the store `get_vectorstore` opens in the current run's directory. The history changes only once an answer exists.
- **Chatbot with memory** (`src/day7.py`, module `ChatMemory`) keeps one message history per session id.
  - `respond` records the user's message, calls the model with the whole history, and records the reply.
  - The command-line loop chats under a fixed session id until the user types "exit".
  - The store and the histories are classes (`MemoryStore`, `History`) whose lists are updated in place.
  - `respond` returns `history.messages + [user_message, response]`. Because `messages` is the history's own list, it already holds both new messages, and the returned list ends with them a second time. The contract of `Respond` states exactly that.
- **Output cleaner and menu** (`src/day3.py`, module `OutputCleaner`).
  - `clean_output` deletes markdown characters, unescapes `\n`, `\'` and `\"`, collapses newline runs and strips whitespace.
  - The menu loop reads a mode and, for modes 1 and 2, one more line. It prompts the model and shows the cleaned reply.
- **Launcher** (`src/main.py`, module `Launcher`) validates a day number and either starts that day's Streamlit app or imports its module and calls `run_day<N>`.

Two shared modules support these:

- `PyStr` holds Python's `str.strip()` with the full `str.isspace()` set.
- `External` holds the collaborators' results: a reply or an exception message, a PDF as a name and its page texts, and the join of the non-empty pages.

The following are parameters of the operations rather than modelled:

- The language model, the retrieval chain and the text splitter are function parameters.
- Whether a directory removal, a rename or an embedding succeeds is a boolean parameter.
- The `uuid4().hex` tokens are string parameters constrained to their shape.

The RAGify code behaves as follows in four places where a reader might expect otherwise; the model follows the code:

- When `build_vectorstore` cannot remove the old directory it only warns. It does not quarantine the directory. `Chroma.from_documents` then adds the new chunks to the collection still persisted there. Quarantining exists only in the day-9 app.
- The retrieval chain and the plain model receive the history that already ends with the new message.
- Deleting a conversation that is absent is not an error (`pop(selected, None)`).
- Switching uses the selectbox default rather than failing on an unknown name.

## Model

| member | source | states |
|---|---|---|
| PyStr.StripIsTrimmedInfix | src/day3.py:51 | `strip()` yields the infix left after cutting whitespace at both ends: it neither starts nor ends with whitespace, and all that was cut is whitespace |
| PyStr.LeadingSpaceIsMaximal | src/day3.py:51 | `strip()` removes the whole leading whitespace run and stops at a non-whitespace character |
| PyStr.TrailingSpaceIsMaximal | src/day3.py:51 | `strip()` removes the whole trailing whitespace run and stops at a non-whitespace character |
| PyStr.StripUnchanged | src/main.py:10 | a string that neither begins nor ends with whitespace is unchanged by `strip()` |
| PyStr.StripEmptyIffAllSpace | src/day10.py:72 | `not s.strip()` holds exactly when `s` is nothing but whitespace (in both directions) |
| PyStr.StripIdempotent | src/main.py:10 | stripping a stripped string changes nothing |
| External.NonEmptyPages | src/day9.py:29-32 | only pages whose text is truthy (non-empty) are kept |
| External.SkippingEmptyPagesKeepsText | src/day10.py:124 | joining only the pages whose text is non-empty gives the same text as joining every page |
| External.PageTextSnoc | src/day9.py:29-32 | one more page appends its text (nothing for an empty page) |
| OutputCleaner.DeleteMarkdown | src/day3.py:42 | the result has none of `*_`#>`, is no longer than the input, and uses only characters of the input |
| OutputCleaner.DeleteMarkdownKeepsOthers | src/day3.py:42 | every non-markdown character that occurs in the input still occurs after the deletion |
| OutputCleaner.DeleteMarkdownIsSkipping | src/day3.py:42 | the deletion is the input with exactly the characters `*_`#>` left out: every other occurrence stays, in order |
| OutputCleaner.DeleteMarkdownUnchanged | src/day3.py:42 | a text without markdown characters is unchanged by the deletion |
| OutputCleaner.ReplacePair | src/day3.py:44-46 | `replace` of a two-character pattern never lengthens the text, introduces only the replacement character, and rewrites a leading match |
| OutputCleaner.ReplaceKeepsOtherChars | src/day3.py:44-46 | `replace` keeps every character other than the pattern's two and the replacement, in order |
| OutputCleaner.ReplaceWithoutPairUnchanged | src/day3.py:44-46 | a text in which the pattern's first character does not occur is unchanged by `replace` |
| OutputCleaner.ReplaceLeavesNoPair | src/day3.py:44 | after the newline unescaping no backslash is directly followed by `n` |
| OutputCleaner.ReplaceKeepsNoPair | src/day3.py:46 | the quote unescapings do not create a backslash-`n` pair |
| OutputCleaner.Unescape | src/day3.py:44-46 | the three unescapings never lengthen the text |
| OutputCleaner.CollapseNewlines | src/day3.py:49 | the collapse never lengthens the text, keeps its first character and adds no new characters |
| OutputCleaner.CollapseRun | src/day3.py:49 | a whole newline run up to the next other character: a single newline stays one, a run of two or more becomes exactly two, and the rest of the text is collapsed in turn |
| OutputCleaner.CollapseOther | src/day3.py:49 | a character other than a newline is copied and the collapse goes on after it |
| OutputCleaner.CollapseKeepsNoPair | src/day3.py:49 | collapsing newline runs creates no backslash-`n` pair |
| OutputCleaner.CollapseLeavesNoTriple | src/day3.py:49 | after the collapse no three newlines are adjacent |
| OutputCleaner.CollapseKeepsOtherChars | src/day3.py:49 | the collapse keeps every non-newline character, in order |
| OutputCleaner.DropNewlinesKeepsOtherChars | src/day3.py:49 | skipping a newline run keeps every other character |
| OutputCleaner.CollapseFixpointIffNoTriple | src/day3.py:49 | the collapse leaves a text unchanged exactly when it has no run of three newlines |
| OutputCleaner.CollapseNoTripleUnchanged | src/day3.py:49 | a text without three adjacent newlines is unchanged by the collapse |
| OutputCleaner.CollapseIdempotent | src/day3.py:49 | collapsing twice is collapsing once |
| OutputCleaner.InfixKeepsAbsences | src/day3.py:51 | the stripped infix keeps the absence of markdown, of newline triples and of backslash-`n` |
| OutputCleaner.UnescapeGuarantees | src/day3.py:44-46 | the three unescapings keep a text free of markdown characters, leave no backslash-`n` and never lengthen it |
| OutputCleaner.CollapsedGuarantees | src/day3.py:42-49 | before the final strip the text has no markdown characters, no backslash-`n`, no three adjacent newlines, and is no longer than the input |
| OutputCleaner.CleanOutput | src/day3.py:41-51 | cleaned text is never longer than its input |
| OutputCleaner.CleanOutputGuarantees | src/day3.py:41-51 | cleaned text has no markdown characters, no backslash-`n`, no three adjacent newlines and no surrounding whitespace |
| OutputCleaner.CleanTextUnchanged | src/day3.py:41-51 | text that is already clean (no markdown characters, no backslash, no three adjacent newlines, no surrounding whitespace) comes back unchanged |
| OutputCleaner.CleanOutputStableWithoutBackslash | src/day3.py:41-51 | cleaning a cleaned text again changes nothing, unless a backslash is left in it |
| OutputCleaner.DeletionBeforeUnescaping | src/day3.py:42-44 | because deletion runs first, `a\*nb` cleans to `a`, newline, `b`: a markdown character can join a backslash to an `n` |
| OutputCleaner.QuoteUnescapingAfterNewlines | src/day3.py:44-46 | because the unescapings are sequential and non-overlapping, `x\\'` cleans to `x\'`, and cleaning that again gives `x'`, so `clean_output` is not idempotent |
| OutputCleaner.QuoteExampleSecondPass | src/day3.py:44-46 | `x\'` cleans to `x'`: the backslash left by a first cleaning escapes the quote in the second |
| OutputCleaner.Menu | src/day3.py:53-70 | the menu shows at most one event per line it reads |
| OutputCleaner.RunMenu | src/day3.py:53-70 | the loop's events and the way it stops are those of the menu specification: stripped choice, modes 1 and 2 read one more line and prompt the model with the template, 3 exits, anything else is invalid |
| OutputCleaner.MenuShowsCleanText | src/day3.py:28-39 | every reply the menu shows has no markdown, no newline triples and no backslash-`n` |
| OutputCleaner.MenuReadsNothingAfterStop | src/day3.py:66-68 | once the menu exits or the model raises, further input lines change nothing |
| OutputCleaner.ChoiceAtInRange | src/day3.py:60 | a line read as a choice is one of the lines typed |
| OutputCleaner.MenuExitsOnlyOnThree | src/day3.py:60-68 | the menu stops by the user's choice exactly when some line it reads as a choice strips to "3" (both directions) |
| OutputCleaner.EarlierChoicesAreNotExit | src/day3.py:60-70 | every choice read before a later one is not "3" |
| Launcher.NatToString | src/main.py:20 | the printed day is a decimal numeral |
| Launcher.DecimalValueOfNatToString | src/main.py:16-20 | reading back a printed day number gives the number |
| Launcher.LeadingZeroIgnored | src/main.py:16 | leading zeros do not change the day ("07" is day 7) |
| Launcher.DispatchDay | src/main.py:18-30 | a valid day is never rejected and is carried into the action; Streamlit is launched exactly for the app days |
| Launcher.DispatchAsWritten | src/main.py:10-30 | whatever `main` as written neither rejects nor crashes on is a decimal number from 1 to 10, and the action is for that day |
| Launcher.Dispatch | src/main.py:10-30 | whatever the intended launcher does not reject is a decimal number from 1 to 10, and the action is for that day |
| Launcher.DispatchRejectsExactlyInvalid | src/main.py:10-14 | a line is rejected exactly when, stripped, it is not a decimal number from 1 to 10 |
| Launcher.DispatchLaunchesStreamlitExactlyForAppDays | src/main.py:18-20 | a valid day launches Streamlit exactly for days 2, 4, 8, 9 and 10, with `streamlit run day<N>.py` |
| Launcher.DispatchIgnoresSurroundingSpace | src/main.py:10 | surrounding whitespace does not change the dispatch |
| Launcher.MissingModuleReported | src/main.py:29-30 | a module that is not found is reported, not raised |
| Launcher.AsWrittenAgreesUnlessCrash | src/main.py:12-30 | wherever the code as written does not crash, it dispatches as intended |
| Launcher.SuperscriptDigitCrashesAsWritten | src/main.py:12 | "²" passes `isdigit()` and makes `int()` raise, while the intended dispatch rejects it |
| Launcher.OnesValue | src/main.py:12 | a numeral of two or more ones is greater than 10 |
| Launcher.LongNumeralCrashesAsWritten | src/main.py:12 | 4301 ones pass `isdigit()` and make `int()` raise, while the intended dispatch rejects them |
| ChatMemory.History.constructor | src/day7.py:19 | a new history is empty |
| ChatMemory.History.AddMessage | src/day7.py:26 | `add_message` appends the message |
| ChatMemory.MemoryStore.constructor | src/day7.py:15 | the store starts empty |
| ChatMemory.MemoryStore.GetMemory | src/day7.py:17-20 | returns the stored history of the id, creating and storing a fresh empty one only when it is absent; other sessions are untouched |
| ChatMemory.MemoryStore.Respond | src/day7.py:22-36 | the user's message is recorded before the model is called with the whole history, and the reply after it; a model failure leaves the user's message recorded; the returned messages are the history's own list followed by the two new messages; other sessions are untouched |
| ChatMemory.MemoryStore.Turn | src/day7.py:59-65 | one pass invokes the graph under session "user-123": the model is asked with that session's history plus the line, the printed text is the model's reply, and the session's history grows by the line and, on success, the reply; other sessions are untouched |
| ChatMemory.MemoryStore.RunChat | src/day7.py:50-65 | the loop's printed replies, the session's history and the way it stops are those of `Converse` under session "user-123"; other sessions are untouched |
| ChatMemory.Converse | src/day7.py:50-65 | the conversation specification the loop is proved against: each line before the first "exit" adds the user's message and then the reply; its properties are the lemmas below |
| ChatMemory.ConverseAnswered | src/day7.py:59-65 | after an answered line, the rest of the conversation continues from the history holding both new messages, and the reply is printed first |
| ChatMemory.FirstExit | src/day7.py:56 | the index of the first line that lower-cases to "exit" |
| ChatMemory.ConverseRecordsEveryTurn | src/day7.py:54-65 | without model failures, every line before the first "exit" adds exactly one user and one model message, the user messages are those lines in order, one reply is printed per line, and the loop ends by "exit" exactly when one was typed |
| ChatMemory.ConverseCountsTurns | src/day7.py:54-65 | without model failures, the history grows by two messages and one reply is printed per line before the first "exit", and the loop ends by "exit" exactly when one was typed |
| ChatMemory.ConverseRecordsLines | src/day7.py:55-60 | without model failures, the user messages added are the lines before the first "exit", in order |
| ChatMemory.ConverseOnlyAppends | src/day7.py:26-31 | a conversation only appends: the history it started with stays, in front |
| ChatMemory.ConverseKeepsAlternation | src/day7.py:26-31 | user and model messages keep alternating |
| PdfChat.RawText | src/day9.py:23-32 | the raw text is the join of every page text of every upload in upload and page order (empty pages add nothing) |
| PdfChat.RawTextAppend | src/day9.py:26-32 | the text of two batches of uploads is the text of the first followed by that of the second |
| PdfChat.QuarantinePath | src/day9.py:50 | the quarantine name extends the persist directory, so it never equals it |
| PdfChat.ReadPdfs | src/day9.py:22-32 | the loop yields the non-empty page texts of every PDF in upload and page order, and the file names in upload order |
| PdfChat.ReadPages | src/day9.py:29-32 | the inner loop joins the non-empty page texts in page order |
| PdfChat.ProcessTouchesOnlyItsDirectory | src/day9.py:37-54 | a successful build leaves a directory at the persist path; every directory other than it and the quarantine name is as before; a quarantine name appears only when the persist directory existed and could not be removed |
| PdfChat.FreshDirectoryTearsNothingDown | src/day9.py:40-54 | with a persist directory that does not exist, the build succeeds exactly when embedding does and only adds that directory |
| PdfChat.RedrawnDirectoryLeavesOldStore | src/day9.py:17-54 | two builds in two runs of the script, with two directory names, leave the first store on disk, and both when the second succeeds |
| PdfChat.KeptDirectoryReplacesOldStore | src/day9.py:37-54 | with one persist directory kept across builds, at most one store is live under a persist name; a quarantined old store stays on disk under its longer name |
| PdfChat.App.constructor | src/day9.py:17 | the first run's persist directory is `chroma_db_` followed by six hexadecimal characters; the session is empty |
| PdfChat.App.Rerun | src/day9.py:17 | a later run of the script draws a new persist directory; the session state, including a held store, and the disk are kept |
| PdfChat.App.Teardown | src/day9.py:37-52 | the session's store is dropped; an existing persist directory is removed, or renamed to the quarantine name when removal raises; a failing rename leaves the disk as it was and the exception escapes |
| PdfChat.App.ProcessPdfs | src/day9.py:22-58 | nothing without uploads; the disk becomes `DiskAfterProcess` of the current run's directory; a failing rename or embedding fails the whole step without touching the uploaded names or the history; on success the new store holds the split text of all uploads at that directory, the uploaded names are recorded, and `get_vectorstore` of the same run opens it |
| PdfChat.App.Send | src/day9.py:108-121 | no store exactly when the session holds none and the current run's directory does not exist; a held store answers even after a rerun, and otherwise the lookup is in the current run's directory; an empty question changes nothing; otherwise the answer comes first, so a failing chain leaves the history unchanged, and a success appends the question and the answer |
| Ragify.ChunksOf | src/day10.py:41-44 | `all_docs`: the tagged chunks of every document in document order; its properties are the two lemmas below |
| Ragify.ChunksOfAppend | src/day10.py:41-44 | the chunks of two lists of documents are those of the first followed by those of the second |
| Ragify.ChunksComeFromDocuments | src/day10.py:41-44 | every stored chunk is a piece of some document's split text and carries that document's name as its source |
| Ragify.RemovingDocumentDropsItsChunks | src/day10.py:136-137 | removing a document removes exactly its chunks and keeps the others in order |
| Ragify.ReadDocs | src/day10.py:122-125 | the upload loop yields one document per PDF, in order |
| Ragify.CollectChunks | src/day10.py:41-44 | the loop building `all_docs` yields the tagged chunks of every document in document order |
| Ragify.Rebuild | src/day10.py:29-50 | other directories are untouched; a warning exactly when the directory exists and cannot be removed; chunks are embedded exactly when there are documents and embedding succeeds, and the directory then holds the old chunks (only when removal failed) followed by the chunks of all documents; otherwise the directory exists only if its removal failed, with its old chunks |
| Ragify.RebuildAfterAdding | src/day10.py:121-127 | after adding documents, a clean rebuild holds the earlier documents' chunks followed by the new ones' |
| Ragify.RebuildAfterRemoving | src/day10.py:135-137 | after removing a document, a clean rebuild holds the others' chunks in order, and with no document left the directory is gone |
| Ragify.FailedRemovalDuplicatesChunks | src/day10.py:30-50 | when the old directory cannot be removed its chunks stay and every document is embedded again, so the earlier documents' chunks are stored twice |
| Ragify.PlainMessages | src/day10.py:175-179 | the plain branch's message list; its shape is the lemma below |
| Ragify.TurnMessagesShape | src/day10.py:176-178 | two messages per turn, in order: the speaker label under "user" and the text under "assistant" |
| Ragify.PlainMessagesShape | src/day10.py:175-179 | the plain model gets the system prompt, then per turn the speaker label as "user" and the text as "assistant", then the question; so the question appears a second time, as the last "assistant" message |
| Ragify.BuildMessages | src/day10.py:175-179 | the loop yields exactly the plain branch's message list |
| Ragify.AnswerOf | src/day10.py:153-182 | the answer "Send" records: the chain's over the directory's chunks when there are documents and the directory exists, the plain model's otherwise, each failure recorded with its warning prefix; `Registry.Send` is proved against it |
| Ragify.Without | src/day10.py:100 | `pop` removes the name from the listed names and keeps every other name |
| Ragify.WithoutKeepsDistinct | src/day10.py:100 | after `pop` no name is listed twice |
| Ragify.AlternatesExtend | src/day10.py:151-184 | a question followed by its answer keeps a history made of "You"/"AI" pairs |
| Ragify.ConsistentAfterTurn | src/day10.py:151-184 | a turn keeps the registry consistent |
| Ragify.Registry.constructor | src/day10.py:56-60 | no conversations and none current |
| Ragify.Registry.Create | src/day10.py:71-86 | blank-after-strip names and names already present (as typed) are refused without change; otherwise the conversation is added with the session token, no history, no documents and `chroma_db_` plus the directory token, listed last and made current |
| Ragify.Registry.Select | src/day10.py:88-95 | with no conversation nothing is selected; otherwise the current conversation becomes the picked one, or by default the current one if it still exists, else the first created |
| Ragify.Registry.Delete | src/day10.py:99-107 | the conversation is removed from the registry and from the listed names; its directory is removed if it exists and removal succeeds, a failure only warns; nothing is current afterwards |
| Ragify.Registry.BuildVectorstore | src/day10.py:29-50 | the directory and the result are those of `Rebuild` |
| Ragify.Registry.AddPdfs | src/day10.py:121-127 | stops without a current conversation; nothing without uploads; otherwise the documents are appended in upload order and the store is rebuilt from all documents |
| Ragify.Registry.RemoveDoc | src/day10.py:135-138 | stops without a current conversation; an index past the end changes nothing; otherwise that document is removed, the others keep their order, and the store is rebuilt from them |
| Ragify.Registry.Send | src/day10.py:147-185 | stops without a current conversation; a blank message changes nothing; otherwise "You" and the message, then "AI" and the answer, are appended, the answer coming from the chain over the directory's chunks exactly when there are documents and the directory exists, and from the plain model otherwise; the histories stay "You"/"AI" pairs |

## Left out

- Streamlit rendering is not modelled: titles, messages, warnings, the document and history listings (`src/day10.py:130-134`, `:187-191`, `src/day9.py:103-106`, `:123-126`) and `st.rerun()`. The buttons are the methods, and a user's pick in the selectbox is a parameter of `Select`.
- The chat model, the embedding model, the retrieval chains and Chroma are not modelled inside. Their results are parameters, and what they do with the chunks and the history is not modelled.
- The text splitter is an uninterpreted function parameter. Its chunk size and overlap are not modelled.
- PdfReader is not modelled. A PDF is given as its page texts, and `extract_text()` is taken to return the same text each time it is called (`src/day10.py:124` calls it twice per page).
- `shutil.rmtree`, `os.rename`, `gc.collect` and `time.sleep` are not modelled. Their success is a boolean parameter, and a removal that fails is taken to leave the directory and its contents as they were (no partial removal).
- PdfChat.App.ProcessPdfs: an exception anywhere in the teardown block, including one from `get_vectorstore` opening the store, is one parameter. It takes effect only when the directory exists, since nothing in the block can raise otherwise.
- When `Chroma.from_documents` raises, what it leaves on disk is not modelled. The disk stays as the removal left it.
- `uuid4()` is not modelled. Its hexadecimal tokens are parameters, so the model does not claim that two conversations never share a directory. Likewise the token each run of the day-9 script draws is a parameter of `Rerun`; that two runs draw different names is a hypothesis of `RedrawnDirectoryLeavesOldStore`, not a fact the model proves.
- Launcher.DispatchAsWritten: the 4300-digit limit of `int()` is the default of Python 3.11 and of the 2022 security releases of 3.7 to 3.10; older interpreters have no limit, and a limit changed with `sys.set_int_max_str_digits` or `PYTHONINTMAXSTRDIGITS` is not modelled.
- `init_gemini` (`src/day3.py:7-17`) is not modelled: it reads the API key from the environment. So is the model setup at `src/day7.py:13`, `src/day9.py:18-19` and `src/day10.py:62-64`.
- The LangGraph wiring of day 7 (`src/day7.py:38-48`) is not modelled: it only passes the state to `respond`, which `RunChat` calls directly.
- `subprocess.run`, and the `run_day<N>` function that `main` calls, are not modelled. The launcher's result is the action it takes.
- Launcher.IsOtherDigit: only the superscript, subscript and circled digits are listed as characters `isdigit()` accepts and `int()` refuses. Other such Unicode characters, and the non-ASCII decimal digits that both accept (for example Arabic-Indic digits), are treated as non-digits, so the model rejects them.
- Day 3 and day 7 read input with `input()`, and the end of input (EOFError) ends the loop. The model takes the lines typed as a sequence.
- The day-1, 2, 4, 5, 6 and 8 scripts are not part of this model.

## Findings

| source | as written | input that shows it | evidently intended | confidence | as-written member | corrected member |
|---|---|---|---|---|---|---|
| src/main.py:12 | `day.isdigit()` is checked before `int(day)`, but `isdigit()` also accepts superscript, subscript and circled digits, which `int()` refuses with a ValueError that nothing catches | the line `²` | the message "Please enter a valid day number (1–10)." for anything that is not a whole number from 1 to 10 | not executed | Launcher.SuperscriptDigitCrashesAsWritten | Launcher.DispatchRejectsExactlyInvalid |
| src/main.py:12 | `int(day)` is evaluated on any string of digits, and `int()` refuses a decimal string of more than 4300 digits with a ValueError that nothing catches | the line `1` repeated 4301 times | the message "Please enter a valid day number (1–10)." | not executed | Launcher.LongNumeralCrashesAsWritten | Launcher.DispatchRejectsExactlyInvalid |
| src/day9.py:17 | `persist_dir` is drawn at module level, so every Streamlit run of the script has a new directory name; a later build's teardown looks at its own, not yet existing, directory and leaves the earlier store on disk | "Process PDFs" pressed in two runs of the script, the second with a different token | one persist directory for the session, so that each build replaces the previous live store (a locked one is quarantined under a longer name) | not executed | PdfChat.RedrawnDirectoryLeavesOldStore | PdfChat.KeptDirectoryReplacesOldStore |
