/** The day-9 "chat with multiple PDFs" app: the uploaded PDFs are read into one text, split
    into chunks and embedded into a vector store persisted in the directory `persist_dir`;
    before that the store in that directory is torn down, and when the directory cannot be
    removed it is renamed out of the way. Questions are answered by a retrieval chain over the
    store. `persist_dir` is drawn at module level, and Streamlit runs the whole script again on
    every interaction, so every run of the script has a directory name of its own. */
module PdfChat {
  import opened External

  /** A vector store handle: one just built from chunks in a directory, or one opened on a
      directory already on disk. */
  datatype Store = Built(dir: string, chunks: seq<string>) | Opened(dir: string)

  /** The `vectorstore` entry of the session state: absent, set to None, or holding a store. */
  datatype Slot = Unset | Cleared | Holds(store: Store)

  /** How `process_pdfs` ends, as the sidebar reports it: the store it built (and, if the old
      directory had to be renamed, the name it was renamed to), or an exception that the
      caller catches and shows as "Failed to process files". */
  datatype ProcessOutcome = NothingUploaded | Processed(store: Store, renamedTo: Option<string>) | Failed

  /** How a press of "Send" ends. */
  datatype SendOutcome =
    | NoStore                    // no store: the page only asks for PDFs
    | EmptyQuery                 // an empty question is ignored
    | Sent(answer: string)
    | ChainRaised(error: string) // the chain's exception leaves the script

  /** Every page text of every upload, in upload order and page order. */
  function AllPages(pdfs: seq<Pdf>): seq<string>
  {
    if pdfs == [] then [] else AllPages(pdfs[..|pdfs| - 1]) + pdfs[|pdfs| - 1].pages
  }

  /** The text of all uploads: each PDF's non-empty pages, in upload order and page order.
      Skipping the empty pages loses nothing: it is the join of every page of every upload. */
  function RawText(pdfs: seq<Pdf>): (r: string)
    ensures r == Concat(AllPages(pdfs))
  {
    if pdfs == [] then ""
    else
      var init, last := pdfs[..|pdfs| - 1], pdfs[|pdfs| - 1].pages;
      SkippingEmptyPagesKeepsText(last);
      ConcatAppend(AllPages(init), last);
      RawText(init) + PageText(last)
  }

  /** One more upload adds its text at the end. */
  lemma RawTextSnoc(pdfs: seq<Pdf>, i: nat)
    requires i < |pdfs|
    ensures RawText(pdfs[..i + 1]) == RawText(pdfs[..i]) + PageText(pdfs[i].pages)
  {
    assert pdfs[..i + 1][..i] == pdfs[..i];
  }

  /** The uploads' text is that of the first batch followed by that of the second. */
  lemma RawTextAppend(a: seq<Pdf>, b: seq<Pdf>)
    ensures RawText(a + b) == RawText(a) + RawText(b)
  {
    AllPagesAppend(a, b);
    ConcatAppend(AllPages(a), AllPages(b));
  }

  lemma {:induction false} AllPagesAppend(a: seq<Pdf>, b: seq<Pdf>)
    ensures AllPages(a + b) == AllPages(a) + AllPages(b)
    decreases |b|
  {
    if b == [] {
      assert a + b == a;
    } else {
      var b' := b[..|b| - 1];
      assert (a + b)[..|a + b| - 1] == a + b';
      AllPagesAppend(a, b');
    }
  }

  /** The name the stale directory is renamed to: the directory, "_", and six hexadecimal
      characters. It is strictly longer than the directory, so never the same path. */
  function QuarantinePath(dir: string, token: string): (q: string)
    requires IsHexToken(token, 6)
    ensures q != dir && |q| == |dir| + 7 && q[..|dir|] == dir
  {
    dir + "_" + token
  }

  /** The loop of `process_pdfs` over the uploads and their pages: the file names in upload
      order, and the non-empty page texts appended in upload order and page order. */
  method ReadPdfs(pdfs: seq<Pdf>) returns (rawText: string, filenames: seq<string>)
    ensures rawText == RawText(pdfs)
    ensures filenames == Names(pdfs)
  {
    rawText, filenames := "", [];
    var i := 0;
    while i < |pdfs|
      invariant 0 <= i <= |pdfs|
      invariant rawText == RawText(pdfs[..i])
      invariant filenames == Names(pdfs[..i])
    {
      filenames := filenames + [pdfs[i].name];
      var text := ReadPages(pdfs[i].pages);
      rawText := rawText + text;
      RawTextSnoc(pdfs, i);
      i := i + 1;
    }
    assert pdfs[..i] == pdfs;
  }

  /** The inner loop of `process_pdfs`: the non-empty page texts of one PDF, appended in
      page order. */
  method ReadPages(pages: seq<string>) returns (text: string)
    ensures text == PageText(pages)
  {
    text := "";
    var j := 0;
    assert pages[..j] == [];
    while j < |pages|
      invariant 0 <= j <= |pages|
      invariant text == PageText(pages[..j])
    {
      var page := pages[j];
      PageTextSnoc(pages[..j], page);
      assert pages[..j + 1] == pages[..j] + [page];
      if page != "" {
        text := text + page;
      }
      j := j + 1;
    }
    assert pages[..j] == pages;
  }

  /** A persist directory name: `chroma_db_` and six hexadecimal characters. */
  predicate IsPersistName(d: string) {
    |d| == 16 && d[..10] == "chroma_db_" && IsHexToken(d[10..], 6)
  }

  /** The vector stores on disk: the directories with a persist directory name (a quarantined
      directory has a longer name). */
  function LiveStores(disk: set<string>): set<string>
  {
    set d | d in disk && IsPersistName(d)
  }

  /** Whether `process_pdfs` with persist directory `dir` returns normally: it raises when the
      directory exists, removing it raises and renaming it raises too, or when embedding
      raises. */
  predicate ProcessSucceeds(disk: set<string>, dir: string, teardownFails: bool, renameOk: bool, embedOk: bool) {
    !(dir in disk && teardownFails && !renameOk) && embedOk
  }

  /** The directories after `process_pdfs` with persist directory `dir`: an existing `dir` is
      removed, or renamed to `renamed` when removing it raises; the new store is then
      persisted at `dir`. */
  function DiskAfterProcess(disk: set<string>, dir: string, teardownFails: bool, renamed: string,
                            renameOk: bool, embedOk: bool): set<string>
  {
    var locked := dir in disk && teardownFails;
    if locked && !renameOk then disk
    else
      var tornDown := disk - {dir} + (if locked then {renamed} else {});
      if embedOk then tornDown + {dir} else tornDown
  }

  /** Processing touches only the persist directory and the quarantine name: a successful
      build leaves a store at `dir`, and every other directory is as it was. */
  lemma ProcessTouchesOnlyItsDirectory(disk: set<string>, dir: string, teardownFails: bool, renamed: string,
                                       renameOk: bool, embedOk: bool)
    ensures var after := DiskAfterProcess(disk, dir, teardownFails, renamed, renameOk, embedOk);
      && (ProcessSucceeds(disk, dir, teardownFails, renameOk, embedOk) ==> dir in after)
      && (forall d :: d != dir && d != renamed ==> (d in after <==> d in disk))
      && (renamed != dir && renamed in after && renamed !in disk ==> dir in disk && teardownFails)
  {
  }

  /** With a persist directory that does not exist, the teardown finds nothing: no directory
      is removed or renamed, and the build only adds the new one. */
  lemma FreshDirectoryTearsNothingDown(disk: set<string>, dir: string, teardownFails: bool, renamed: string,
                                       renameOk: bool, embedOk: bool)
    requires dir !in disk
    ensures ProcessSucceeds(disk, dir, teardownFails, renameOk, embedOk) == embedOk
    ensures DiskAfterProcess(disk, dir, teardownFails, renamed, renameOk, embedOk)
      == if embedOk then disk + {dir} else disk
  {
  }

  /** As written: two builds in two runs of the script use two directory names, and the
      second one's teardown cannot see the first one's store, so both stores stay on disk. */
  lemma RedrawnDirectoryLeavesOldStore(disk: set<string>, d1: string, d2: string,
                                       teardown1: bool, token1: string, rename1: bool,
                                       teardown2: bool, token2: string, rename2: bool)
    requires IsPersistName(d1) && IsPersistName(d2) && d1 != d2
    requires IsHexToken(token1, 6) && IsHexToken(token2, 6)
    requires ProcessSucceeds(disk, d1, teardown1, rename1, true)
    ensures var after1 := DiskAfterProcess(disk, d1, teardown1, QuarantinePath(d1, token1), rename1, true);
      var after2 := DiskAfterProcess(after1, d2, teardown2, QuarantinePath(d2, token2), rename2, true);
      && d1 in LiveStores(after2)
      && (ProcessSucceeds(after1, d2, teardown2, rename2, true) ==> {d1, d2} <= LiveStores(after2))
  {
    var after1 := DiskAfterProcess(disk, d1, teardown1, QuarantinePath(d1, token1), rename1, true);
    ProcessTouchesOnlyItsDirectory(disk, d1, teardown1, QuarantinePath(d1, token1), rename1, true);
    ProcessTouchesOnlyItsDirectory(after1, d2, teardown2, QuarantinePath(d2, token2), rename2, true);
  }

  /** As intended: when every build of a session uses the same persist directory, each build
      removes or quarantines the previous store, so at most one store is ever live. */
  lemma KeptDirectoryReplacesOldStore(disk: set<string>, dir: string, teardownFails: bool, token: string,
                                      renameOk: bool, embedOk: bool)
    requires IsPersistName(dir) && IsHexToken(token, 6)
    requires LiveStores(disk) <= {dir}
    ensures LiveStores(DiskAfterProcess(disk, dir, teardownFails, QuarantinePath(dir, token), renameOk, embedOk)) <= {dir}
  {
    var renamed := QuarantinePath(dir, token);
    var after := DiskAfterProcess(disk, dir, teardownFails, renamed, renameOk, embedOk);
    forall d | d in LiveStores(after)
      ensures d == dir
    {
      assert |renamed| != 16;
      assert d in disk || d == dir;
    }
  }

  /** The session state of the app, the persist directory of the current run of the script,
      and the directories on disk. */
  class App {
    /** `persist_dir` of the current run: `chroma_db_` followed by six hexadecimal
        characters, drawn anew by every run. */
    var persistDir: string
    /** The paths that exist. */
    var disk: set<string>
    var vectorstore: Slot
    var uploadedFiles: seq<string>
    var chatHistory: seq<(string, string)>

    /** The persist directory has its shape, and a store held by the session lives in a
        directory that exists (the one of the run that built it). */
    ghost predicate Valid()
      reads this
    {
      && IsPersistName(persistDir)
      && (vectorstore.Holds? ==> vectorstore.store.dir in disk)
    }

    /** The first run of the script: a fresh session and the first `persist_dir`. */
    constructor (token: string, existing: set<string>)
      requires IsHexToken(token, 6)
      ensures Valid()
      ensures persistDir == "chroma_db_" + token && disk == existing
      ensures vectorstore == Unset && uploadedFiles == [] && chatHistory == []
    {
      var dir := "chroma_db_" + token;
      assert dir[..10] == "chroma_db_" && dir[10..] == token;
      persistDir := dir;
      disk := existing;
      vectorstore := Unset;
      uploadedFiles := [];
      chatHistory := [];
    }

    /** A later run of the script, after any interaction: the session state and the disk
        carry over, and module level draws a new `persist_dir`. */
    method Rerun(token: string)
      requires Valid() && IsHexToken(token, 6)
      modifies this`persistDir
      ensures Valid()
      ensures persistDir == "chroma_db_" + token
    {
      persistDir := "chroma_db_" + token;
      assert persistDir[..10] == "chroma_db_" && persistDir[10..] == token;
    }

    /** `get_vectorstore`: a store exactly when the current run's persist directory exists. */
    function GetVectorstore(): (r: Option<Store>)
      reads this
      ensures r.Some? <==> persistDir in disk
      ensures r.Some? ==> r.value.dir == persistDir
    {
      if persistDir in disk then Some(Opened(persistDir)) else None
    }

    /** "Process PDFs": nothing happens without uploads; otherwise `process_pdfs` runs and
        the handler catches its exceptions. The session's store is dropped first. Removing
        the current run's persist directory may fail (`teardownFails`: the store is locked);
        the directory is then renamed to `QuarantinePath`, which may fail in turn
        (`renameOk`). Embedding may fail (`embedOk`). The new store is always built at the
        persist directory, and only a successful build updates the session. */
    method ProcessPdfs(pdfs: seq<Pdf>, split: string -> seq<string>, teardownFails: bool,
                       renameToken: string, renameOk: bool, embedOk: bool)
      returns (outcome: ProcessOutcome)
      requires Valid() && IsHexToken(renameToken, 6)
      modifies this
      ensures Valid()
      ensures persistDir == old(persistDir) && chatHistory == old(chatHistory)
      ensures pdfs == [] ==> outcome == NothingUploaded && unchanged(this)
      ensures pdfs != [] ==>
        var locked := persistDir in old(disk) && teardownFails;
        var renamed := QuarantinePath(persistDir, renameToken);
        var cleared := if old(vectorstore) == Unset then Unset else Cleared;
        var built := Built(persistDir, split(RawText(pdfs)));
        && disk == DiskAfterProcess(old(disk), persistDir, teardownFails, renamed, renameOk, embedOk)
        && if ProcessSucceeds(old(disk), persistDir, teardownFails, renameOk, embedOk) then
             && outcome == Processed(built, if locked then Some(renamed) else None)
             && vectorstore == Holds(built) && uploadedFiles == Names(pdfs)
           else
             outcome == Failed && vectorstore == cleared && uploadedFiles == old(uploadedFiles)
      ensures outcome.Processed? ==> GetVectorstore() == Some(Opened(persistDir))
    {
      if pdfs == [] {
        return NothingUploaded;
      }
      var rawText, filenames := ReadPdfs(pdfs);
      var chunks := split(rawText);
      var tornDown, renamedTo := Teardown(teardownFails, renameToken, renameOk);
      if !tornDown || !embedOk {
        return Failed;
      }
      // build at the original path
      disk := disk + {persistDir};
      vectorstore := Holds(Built(persistDir, chunks));
      uploadedFiles := filenames;
      outcome := Processed(Built(persistDir, chunks), renamedTo);
    }

    /** The `try` block of `process_pdfs` and its handler: the session's store is dropped and
        an existing persist directory removed; when removing it raises, the directory is
        renamed to `QuarantinePath`, and when that raises too, the exception leaves
        `process_pdfs` (`tornDown` is false). */
    method Teardown(teardownFails: bool, renameToken: string, renameOk: bool)
      returns (tornDown: bool, renamedTo: Option<string>)
      requires Valid() && IsHexToken(renameToken, 6)
      modifies this`disk, this`vectorstore
      ensures Valid()
      ensures vectorstore == if old(vectorstore) == Unset then Unset else Cleared
      ensures var locked := persistDir in old(disk) && teardownFails;
        var renamed := QuarantinePath(persistDir, renameToken);
        && tornDown == !(locked && !renameOk)
        && renamedTo == (if locked && renameOk then Some(renamed) else None)
        && disk == if !tornDown then old(disk) else old(disk) - {persistDir} + (if locked then {renamed} else {})
    {
      if vectorstore != Unset {
        vectorstore := Cleared;
      }
      tornDown, renamedTo := true, None;
      if persistDir in disk {
        if teardownFails {
          // the exception handler: move the locked directory out of the way
          var newName := QuarantinePath(persistDir, renameToken);
          if !renameOk {
            return false, None;
          }
          disk := disk - {persistDir} + {newName};
          renamedTo := Some(newName);
        } else {
          disk := disk - {persistDir};
        }
      }
    }

    /** "Send": the store is the one the session holds, or else the one `get_vectorstore`
        opens in the current run's persist directory. With a store and a non-empty question,
        the answer is computed first and only then are the question and the answer
        appended, so a failing chain leaves the history as it was. */
    method Send(query: string, qa: (Store, string) -> Reply) returns (outcome: SendOutcome)
      requires Valid()
      modifies this`chatHistory
      ensures outcome == NoStore <==> !vectorstore.Holds? && persistDir !in disk
      ensures var store := if vectorstore.Holds? then Some(vectorstore.store) else GetVectorstore();
        if store.None? then outcome == NoStore && chatHistory == old(chatHistory)
        else if query == "" then outcome == EmptyQuery && chatHistory == old(chatHistory)
        else match qa(store.value, query)
          case Raised(e) => outcome == ChainRaised(e) && chatHistory == old(chatHistory)
          case Answer(a) => outcome == Sent(a) && chatHistory == old(chatHistory) + [("You", query), ("AI", a)]
    {
      var store := if vectorstore.Holds? then Some(vectorstore.store) else GetVectorstore();
      if store.None? {
        return NoStore;
      }
      if query == "" {
        return EmptyQuery;
      }
      var reply := qa(store.value, query);
      if reply.Raised? {
        return ChainRaised(reply.error);
      }
      chatHistory := chatHistory + [("You", query)];
      chatHistory := chatHistory + [("AI", reply.text)];
      outcome := Sent(reply.text);
    }
  }
}
