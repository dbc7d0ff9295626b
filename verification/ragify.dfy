/** RAGify, the day-10 app: named conversations, each with its own chat history, its own
    uploaded documents and its own vector store directory. Adding or removing a document
    rebuilds that conversation's store; a message is answered from the store when the
    conversation has documents and its directory exists, and by the plain model otherwise. */
module Ragify {
  import opened PyStr
  import opened External

  /** One line of a chat history: the speaker ("You" or "AI") and the text. */
  datatype Turn = Turn(speaker: string, text: string)

  /** An uploaded document: the file name and the text of its non-empty pages. */
  datatype Doc = Doc(name: string, text: string)

  /** A chunk of a document as stored in the vector store, tagged with its source file. */
  datatype Chunk = Chunk(content: string, source: string)

  /** The record kept per conversation name. */
  datatype Conversation = Conversation(sessionId: string, chatHistory: seq<Turn>,
                                       uploadedDocs: seq<Doc>, persistDir: string)

  /** A message of the list handed to the chat model. */
  datatype ChatMessage = ChatMessage(role: string, content: string)

  /** What `build_vectorstore` did: whether it warned that the old directory could not be
      removed, and how the build ended. */
  datatype BuildResult = NothingToEmbed | Embedded | EmbedRaised
  datatype Build = Build(warned: bool, result: BuildResult)

  datatype CreateOutcome = BlankName | AlreadyExists | Created
  datatype DocsOutcome = Stopped | NoUpload | NoSuchDocument | Rebuilt(build: Build)
  datatype SendOutcome = NoConversation | BlankMessage | Answered(answer: string)

  const BasePersistDir := "chroma_db"
  const SystemPrompt := "You are a helpful assistant."
  const RetrievalErrorPrefix := "\U{26A0}\U{FE0F} Retrieval error: "
  const LlmErrorPrefix := "\U{26A0}\U{FE0F} LLM error: "

  // ---------------------------------------------------------------------------------------
  // Documents and chunks

  /** The documents made from uploaded PDFs, in upload order. */
  function DocsOf(pdfs: seq<Pdf>): (r: seq<Doc>)
    ensures |r| == |pdfs|
    ensures forall i :: 0 <= i < |pdfs| ==> r[i] == Doc(pdfs[i].name, PageText(pdfs[i].pages))
  {
    seq(|pdfs|, i requires 0 <= i < |pdfs| => Doc(pdfs[i].name, PageText(pdfs[i].pages)))
  }

  /** The chunks of one document, each tagged with the document's name. */
  function Tagged(chunks: seq<string>, source: string): (r: seq<Chunk>)
    ensures |r| == |chunks|
    ensures forall i :: 0 <= i < |r| ==> r[i] == Chunk(chunks[i], source)
  {
    seq(|chunks|, i requires 0 <= i < |chunks| => Chunk(chunks[i], source))
  }

  /** `all_docs`: the tagged chunks of every document, in document order. */
  function ChunksOf(docs: seq<Doc>, split: string -> seq<string>): seq<Chunk>
  {
    if docs == [] then []
    else ChunksOf(docs[..|docs| - 1], split) + Tagged(split(docs[|docs| - 1].text), docs[|docs| - 1].name)
  }

  /** The store of two lists of documents is the store of the first followed by that of the
      second. */
  lemma {:induction false} ChunksOfAppend(a: seq<Doc>, b: seq<Doc>, split: string -> seq<string>)
    ensures ChunksOf(a + b, split) == ChunksOf(a, split) + ChunksOf(b, split)
    decreases |b|
  {
    if b == [] {
      assert a + b == a;
    } else {
      var b' := b[..|b| - 1];
      var last := Tagged(split(b[|b| - 1].text), b[|b| - 1].name);
      assert (a + b)[..|a + b| - 1] == a + b';
      assert ChunksOf(a + b, split) == ChunksOf(a + b', split) + last;
      ChunksOfAppend(a, b', split);
    }
  }

  /** Every chunk comes from one of the documents: its content is one of the pieces that
      document's text was split into, and its source is that document's name. */
  lemma {:induction false} ChunksComeFromDocuments(docs: seq<Doc>, split: string -> seq<string>)
    ensures forall c :: c in ChunksOf(docs, split) ==>
      exists d :: d in docs && c.source == d.name && c.content in split(d.text)
    decreases |docs|
  {
    if docs != [] {
      var init, last := docs[..|docs| - 1], docs[|docs| - 1];
      ChunksComeFromDocuments(init, split);
      forall c | c in ChunksOf(docs, split)
        ensures exists d :: d in docs && c.source == d.name && c.content in split(d.text)
      {
        if c in ChunksOf(init, split) {
          var d :| d in init && c.source == d.name && c.content in split(d.text);
          assert d in docs;
        } else {
          var tagged := Tagged(split(last.text), last.name);
          assert c in tagged;
          var i :| 0 <= i < |tagged| && tagged[i] == c;
          assert split(last.text)[i] == c.content;
          assert last in docs;
        }
      }
    }
  }

  /** Removing the document at `i` removes exactly its chunks and keeps the others in order. */
  lemma RemovingDocumentDropsItsChunks(docs: seq<Doc>, i: nat, split: string -> seq<string>)
    requires i < |docs|
    ensures ChunksOf(docs, split) ==
      ChunksOf(docs[..i], split) + Tagged(split(docs[i].text), docs[i].name) + ChunksOf(docs[i + 1..], split)
    ensures ChunksOf(docs[..i] + docs[i + 1..], split) ==
      ChunksOf(docs[..i], split) + ChunksOf(docs[i + 1..], split)
  {
    var before, front, back := docs[..i], docs[..i + 1], docs[i + 1..];
    SplitAt(docs, i);
    ChunksOfAppend(front, back, split);
    ChunksOfLast(front, split);
    ChunksOfAppend(before, back, split);
  }

  lemma SplitAt(docs: seq<Doc>, i: nat)
    requires i < |docs|
    ensures docs == docs[..i + 1] + docs[i + 1..]
    ensures docs[..i + 1][..i] == docs[..i] && docs[..i + 1][i] == docs[i]
  {
  }

  lemma ChunksOfLast(docs: seq<Doc>, split: string -> seq<string>)
    requires docs != []
    ensures ChunksOf(docs, split) ==
      ChunksOf(docs[..|docs| - 1], split) + Tagged(split(docs[|docs| - 1].text), docs[|docs| - 1].name)
  {
  }

  /** The loop of "Add PDFs" over the uploads: one document per PDF, in upload order. */
  method ReadDocs(pdfs: seq<Pdf>) returns (docs: seq<Doc>)
    ensures docs == DocsOf(pdfs)
  {
    docs := [];
    for i := 0 to |pdfs|
      invariant docs == DocsOf(pdfs[..i])
    {
      docs := docs + [Doc(pdfs[i].name, PageText(pdfs[i].pages))];
    }
    assert pdfs[..|pdfs|] == pdfs;
  }

  /** The loop of `build_vectorstore` that fills `all_docs`. */
  method CollectChunks(docs: seq<Doc>, split: string -> seq<string>) returns (allDocs: seq<Chunk>)
    ensures allDocs == ChunksOf(docs, split)
  {
    allDocs := [];
    for i := 0 to |docs|
      invariant allDocs == ChunksOf(docs[..i], split)
    {
      var chunks := split(docs[i].text);
      var tagged := [];
      for k := 0 to |chunks|
        invariant tagged == Tagged(chunks[..k], docs[i].name)
      {
        tagged := tagged + [Chunk(chunks[k], docs[i].name)];
      }
      assert chunks[..|chunks|] == chunks;
      assert docs[..i + 1][..i] == docs[..i];
      allDocs := allDocs + tagged;
    }
    assert docs[..|docs|] == docs;
  }

  // ---------------------------------------------------------------------------------------
  // The store directory

  /** `build_vectorstore` on the directories: the conversation's directory is removed if it
      exists (a failed removal only warns, and leaves the old chunks in place); without
      documents nothing more happens; otherwise the chunks of all documents are embedded
      into the directory, where they are added to whatever collection is still there. */
  function Rebuild(disk: map<string, seq<Chunk>>, conv: Conversation, split: string -> seq<string>,
                   removalFails: bool, embedOk: bool): (r: (Build, map<string, seq<Chunk>>))
    ensures var dir := conv.persistDir;
      forall d :: d != dir ==> (d in r.1 <==> d in disk) && (d in disk ==> r.1[d] == disk[d])
    ensures var dir := conv.persistDir;
      r.0.warned <==> dir in disk && removalFails
    ensures r.0.result == Embedded <==> conv.uploadedDocs != [] && embedOk
    ensures var dir := conv.persistDir;
      r.0.result == Embedded ==>
        dir in r.1 && r.1[dir] == (if r.0.warned then disk[dir] else []) + ChunksOf(conv.uploadedDocs, split)
    ensures var dir := conv.persistDir;
      r.0.result != Embedded ==> (dir in r.1 <==> r.0.warned) && (r.0.warned ==> r.1[dir] == disk[dir])
  {
    var dir := conv.persistDir;
    var stale := dir in disk && removalFails;
    var cleared := if dir in disk && !removalFails then disk - {dir} else disk;
    if conv.uploadedDocs == [] then (Build(stale, NothingToEmbed), cleared)
    else if !embedOk then (Build(stale, EmbedRaised), cleared)
    else
      var existing := if dir in cleared then cleared[dir] else [];
      (Build(stale, Embedded), cleared[dir := existing + ChunksOf(conv.uploadedDocs, split)])
  }

  /** After documents are added, a rebuild whose removal and embedding succeed holds the
      chunks of the earlier documents followed by those of the new ones. */
  lemma RebuildAfterAdding(disk: map<string, seq<Chunk>>, conv: Conversation, added: seq<Doc>,
                           split: string -> seq<string>)
    requires added != []
    ensures var updated := conv.(uploadedDocs := conv.uploadedDocs + added);
      var r := Rebuild(disk, updated, split, false, true);
      conv.persistDir in r.1 &&
      r.1[conv.persistDir] == ChunksOf(conv.uploadedDocs, split) + ChunksOf(added, split)
  {
    ChunksOfAppend(conv.uploadedDocs, added, split);
  }

  /** After the document at `i` is removed, a rebuild whose removal and embedding succeed
      holds the chunks of the other documents, in order; with no document left the
      directory is gone. */
  lemma RebuildAfterRemoving(disk: map<string, seq<Chunk>>, conv: Conversation, i: nat,
                             split: string -> seq<string>)
    requires i < |conv.uploadedDocs|
    ensures var docs := conv.uploadedDocs;
      var r := Rebuild(disk, conv.(uploadedDocs := docs[..i] + docs[i + 1..]), split, false, true);
      && (|docs| == 1 ==> conv.persistDir !in r.1)
      && (|docs| > 1 ==>
            conv.persistDir in r.1
            && r.1[conv.persistDir] == ChunksOf(docs[..i], split) + ChunksOf(docs[i + 1..], split))
  {
    var docs := conv.uploadedDocs;
    RemovingDocumentDropsItsChunks(docs, i, split);
    if |docs| == 1 {
      assert docs[..i] + docs[i + 1..] == [];
    } else {
      assert |docs[..i] + docs[i + 1..]| == |docs| - 1;
    }
  }

  /** When the old directory cannot be removed, its chunks stay and the rebuild adds every
      document's chunks again: a store built from `docs` and then rebuilt after adding
      `added` holds the chunks of `docs` twice. */
  lemma FailedRemovalDuplicatesChunks(disk: map<string, seq<Chunk>>, conv: Conversation, added: seq<Doc>,
                                      split: string -> seq<string>)
    requires conv.persistDir in disk && disk[conv.persistDir] == ChunksOf(conv.uploadedDocs, split)
    requires added != []
    ensures var updated := conv.(uploadedDocs := conv.uploadedDocs + added);
      var r := Rebuild(disk, updated, split, true, true);
      r.0 == Build(true, Embedded) &&
      r.1[conv.persistDir] ==
        ChunksOf(conv.uploadedDocs, split) + ChunksOf(conv.uploadedDocs, split) + ChunksOf(added, split)
  {
    ChunksOfAppend(conv.uploadedDocs, added, split);
  }

  // ---------------------------------------------------------------------------------------
  // Answering

  /** The messages the plain branch sends: the system prompt, then for every turn of the
      history (which already ends with the new question) a "user" message carrying the
      speaker's label and an "assistant" message carrying the text, then the question. */
  function PlainMessages(history: seq<Turn>, input: string): seq<ChatMessage>
  {
    [ChatMessage("system", SystemPrompt)] + TurnMessages(history) + [ChatMessage("user", input)]
  }

  function TurnMessages(history: seq<Turn>): seq<ChatMessage>
  {
    if history == [] then []
    else
      var t := history[|history| - 1];
      TurnMessages(history[..|history| - 1]) + [ChatMessage("user", t.speaker), ChatMessage("assistant", t.text)]
  }

  /** Two messages per turn, in order: the label as "user", the text as "assistant". */
  lemma {:induction false} TurnMessagesShape(history: seq<Turn>)
    ensures |TurnMessages(history)| == 2 * |history|
    ensures forall i :: 0 <= i < |history| ==>
      TurnMessages(history)[2 * i] == ChatMessage("user", history[i].speaker)
      && TurnMessages(history)[2 * i + 1] == ChatMessage("assistant", history[i].text)
  {
    if history != [] {
      TurnMessagesShape(history[..|history| - 1]);
    }
  }

  /** The plain branch's list: the system prompt first, the question last, and in between
      each turn as the pair (speaker label as "user", text as "assistant"). So the model
      never sees the user's earlier questions under the "user" role, and it sees the new
      question twice, once as an "assistant" message. */
  lemma PlainMessagesShape(history: seq<Turn>, input: string)
    requires history != [] && history[|history| - 1] == Turn("You", input)
    ensures var m := PlainMessages(history, input);
      && |m| == 2 * |history| + 2
      && m[0] == ChatMessage("system", SystemPrompt)
      && m[|m| - 1] == ChatMessage("user", input)
      && (forall i :: 0 <= i < |history| ==>
            m[2 * i + 1] == ChatMessage("user", history[i].speaker)
            && m[2 * i + 2] == ChatMessage("assistant", history[i].text))
      && m[|m| - 2] == ChatMessage("assistant", input)
  {
    TurnMessagesShape(history);
  }

  /** The loop that builds the plain branch's list. */
  method BuildMessages(history: seq<Turn>, input: string) returns (messages: seq<ChatMessage>)
    ensures messages == PlainMessages(history, input)
  {
    messages := [ChatMessage("system", SystemPrompt)];
    for i := 0 to |history|
      invariant messages == [ChatMessage("system", SystemPrompt)] + TurnMessages(history[..i])
    {
      assert history[..i + 1][..i] == history[..i];
      messages := messages + [ChatMessage("user", history[i].speaker)];
      messages := messages + [ChatMessage("assistant", history[i].text)];
    }
    assert history[..|history|] == history;
    messages := messages + [ChatMessage("user", input)];
  }

  /** The answer recorded for a retrieval call. */
  function RetrievalAnswer(r: Reply): (a: string)
    ensures r.Answer? ==> a == r.text
    ensures r.Raised? ==> a == RetrievalErrorPrefix + r.error
  {
    match r
    case Answer(t) => t
    case Raised(e) => RetrievalErrorPrefix + e
  }

  /** The answer recorded for a plain model call. */
  function LlmAnswer(r: Reply): (a: string)
    ensures r.Answer? ==> a == r.text
    ensures r.Raised? ==> a == LlmErrorPrefix + r.error
  {
    match r
    case Answer(t) => t
    case Raised(e) => LlmErrorPrefix + e
  }

  /** A history made of question-and-answer pairs: "You" at even positions, "AI" at odd. */
  ghost predicate Alternates(h: seq<Turn>) {
    |h| % 2 == 0 && forall i :: 0 <= i < |h| ==> h[i].speaker == (if i % 2 == 0 then "You" else "AI")
  }

  /** Without repetitions. */
  predicate Distinct(s: seq<string>) {
    forall i, j :: 0 <= i < j < |s| ==> s[i] != s[j]
  }

  /** `s` without `x`, order kept. */
  function Without(s: seq<string>, x: string): (r: seq<string>)
    ensures forall y :: y in r <==> y in s && y != x
  {
    if s == [] then []
    else (if s[0] == x then [] else [s[0]]) + Without(s[1..], x)
  }

  /** Removing a name keeps the names distinct. */
  lemma {:induction false} WithoutKeepsDistinct(s: seq<string>, x: string)
    requires Distinct(s)
    ensures Distinct(Without(s, x))
  {
    if s != [] {
      var tail := s[1..];
      assert Distinct(tail) by {
        forall i, j | 0 <= i < j < |tail|
          ensures tail[i] != tail[j]
        {
          assert tail[i] == s[i + 1] && tail[j] == s[j + 1];
        }
      }
      WithoutKeepsDistinct(tail, x);
      forall k | 0 <= k < |tail|
        ensures tail[k] != s[0]
      {
        assert tail[k] == s[k + 1];
      }
      var rest := Without(tail, x);
      assert s[0] !in rest;
      var r := (if s[0] == x then [] else [s[0]]) + rest;
      forall i, j | 0 <= i < j < |r|
        ensures r[i] != r[j]
      {
        if s[0] != x && i == 0 {
          assert r[j] == rest[j - 1];
        }
      }
    }
  }

  /** A question and its answer keep a history made of pairs. */
  lemma AlternatesExtend(h: seq<Turn>, question: string, answer: string)
    requires Alternates(h)
    ensures Alternates(h + [Turn("You", question), Turn("AI", answer)])
  {
  }

  /** The answer "Send" records: from the retrieval chain over the chunks in the
      conversation's directory when it has documents and the directory exists, from the
      plain model otherwise; `asked` is the history ending with the question. */
  function AnswerOf(conv: Conversation, asked: seq<Turn>, input: string, disk: map<string, seq<Chunk>>,
                    rag: (seq<Chunk>, string, seq<Turn>) -> Reply, llm: seq<ChatMessage> -> Reply): string
  {
    if conv.uploadedDocs != [] && conv.persistDir in disk
    then RetrievalAnswer(rag(disk[conv.persistDir], input, asked))
    else LlmAnswer(llm(PlainMessages(asked, input)))
  }

  // ---------------------------------------------------------------------------------------
  // The session

  /** The names listed once each, exactly the conversations; the current one among them;
      every history made of question-and-answer pairs. */
  ghost predicate Consistent(conversations: map<string, Conversation>, order: seq<string>, current: Option<string>)
  {
    && Distinct(order)
    && (forall n :: n in conversations <==> n in order)
    && (current.Some? ==> current.value in conversations)
    && (forall n :: n in conversations ==> Alternates(conversations[n].chatHistory))
  }

  /** Replacing one conversation's history by another made of pairs keeps the state
      consistent. */
  lemma ConsistentAfterTurn(conversations: map<string, Conversation>, order: seq<string>, current: Option<string>,
                            name: string, question: string, answer: string)
    requires Consistent(conversations, order, current) && name in conversations
    ensures var conv := conversations[name];
      Consistent(conversations[name := conv.(chatHistory := conv.chatHistory + [Turn("You", question), Turn("AI", answer)])],
                 order, current)
  {
    AlternatesExtend(conversations[name].chatHistory, question, answer);
  }

  /** The session state: the conversations by name (with the names in insertion order, the
      order the selectbox lists them in), the current conversation, and the store
      directories on disk with the chunks each holds. */
  class Registry {
    var conversations: map<string, Conversation>
    var order: seq<string>
    var current: Option<string>
    var disk: map<string, seq<Chunk>>

    ghost predicate Valid()
      reads this
    {
      Consistent(conversations, order, current)
    }

    /** `not st.session_state.current_conversation`: the page stops here. */
    predicate NoCurrent()
      reads this
    {
      current.None? || current.value == ""
    }

    constructor (existing: map<string, seq<Chunk>>)
      ensures Valid()
      ensures conversations == map[] && order == [] && current == None && disk == existing
    {
      conversations, order, current, disk := map[], [], None, existing;
    }

    /** "Create Conversation": a name that is blank once stripped is refused, so is a name
        already in use (compared as typed); otherwise the conversation is added with a
        fresh session id, no history, no documents and its own directory name, and becomes
        the current one. */
    method Create(name: string, sessionToken: string, dirToken: string) returns (outcome: CreateOutcome)
      requires Valid()
      requires IsHexToken(sessionToken, 32) && IsHexToken(dirToken, 8)
      modifies this`conversations, this`order, this`current
      ensures Valid()
      ensures outcome == BlankName <==> Strip(name) == ""
      ensures outcome == AlreadyExists <==> Strip(name) != "" && name in old(conversations)
      ensures outcome != Created ==> conversations == old(conversations) && order == old(order) && current == old(current)
      ensures outcome == Created ==>
        && conversations == old(conversations)[name := Conversation(sessionToken, [], [], BasePersistDir + "_" + dirToken)]
        && order == old(order) + [name]
        && current == Some(name)
    {
      if Strip(name) == "" {
        return BlankName;
      }
      if name in conversations {
        return AlreadyExists;
      }
      var persistDir := BasePersistDir + "_" + dirToken;
      conversations := conversations[name := Conversation(sessionToken, [], [], persistDir)];
      order := order + [name];
      current := Some(name);
      outcome := Created;
    }

    /** The "Switch conversation" selectbox: with no conversation it is not shown; otherwise
        the selection is what the user picked, or by default the current conversation when
        it still exists and the first one otherwise, and it becomes the current one. */
    method Select(picked: Option<string>) returns (selected: Option<string>)
      requires Valid()
      requires picked.Some? ==> picked.value in conversations
      modifies this`current
      ensures Valid()
      ensures conversations == map[] ==> selected == None && current == old(current)
      ensures conversations != map[] ==>
        && |order| > 0 && selected.Some? && current == selected
        && selected.value == (if picked.Some? then picked.value
                              else if old(current).Some? && old(current).value in order then old(current).value
                              else order[0])
    {
      if conversations == map[] {
        return None;
      }
      var some :| some in conversations;
      assert some in order;
      var choice := if picked.Some? then picked.value
                    else if current.Some? && current.value in order then current.value
                    else order[0];
      selected := Some(choice);
      current := selected;
    }

    /** "Delete This Conversation" on the selected conversation: it is removed; if it
        existed and its directory exists the directory is removed, a failure only warns;
        no conversation is current afterwards. */
    method Delete(name: string, removalFails: bool) returns (warned: bool)
      requires Valid()
      modifies this`conversations, this`order, this`current, this`disk
      ensures Valid()
      ensures conversations == old(conversations) - {name}
      ensures order == Without(old(order), name)
      ensures current == None
      ensures var hasDir := name in old(conversations) && old(conversations)[name].persistDir in old(disk);
        && (warned <==> hasDir && removalFails)
        && (if hasDir && !removalFails then disk == old(disk) - {old(conversations)[name].persistDir}
            else disk == old(disk))
    {
      warned := false;
      if name in conversations {
        var conv := conversations[name];
        conversations := conversations - {name};
        if conv.persistDir in disk {
          if removalFails {
            warned := true;
          } else {
            disk := disk - {conv.persistDir};
          }
        }
      }
      WithoutKeepsDistinct(order, name);
      order := Without(order, name);
      current := None;
    }

    /** `build_vectorstore` for one conversation. */
    method BuildVectorstore(conv: Conversation, split: string -> seq<string>, removalFails: bool, embedOk: bool)
      returns (build: Build)
      modifies this`disk
      ensures (build, disk) == Rebuild(old(disk), conv, split, removalFails, embedOk)
    {
      var dir := conv.persistDir;
      build := Build(false, NothingToEmbed);
      if dir in disk {
        if removalFails {
          build := build.(warned := true);
        } else {
          disk := disk - {dir};
        }
      }
      if conv.uploadedDocs == [] {
        return;
      }
      var allDocs := CollectChunks(conv.uploadedDocs, split);
      if !embedOk {
        return build.(result := EmbedRaised);
      }
      var existing := if dir in disk then disk[dir] else [];
      disk := disk[dir := existing + allDocs];
      build := build.(result := Embedded);
    }

    /** "Add PDFs": with a current conversation and at least one upload, each PDF becomes a
        document appended in upload order, and the store is rebuilt from all documents. */
    method AddPdfs(pdfs: seq<Pdf>, split: string -> seq<string>, removalFails: bool, embedOk: bool)
      returns (outcome: DocsOutcome)
      requires Valid()
      modifies this`conversations, this`disk
      ensures Valid()
      ensures conversations.Keys == old(conversations.Keys)
      ensures NoCurrent() ==> outcome == Stopped && conversations == old(conversations) && disk == old(disk)
      ensures !NoCurrent() && pdfs == [] ==> outcome == NoUpload && conversations == old(conversations) && disk == old(disk)
      ensures !NoCurrent() && pdfs != [] ==>
        var conv := old(conversations)[current.value];
        var updated := conv.(uploadedDocs := conv.uploadedDocs + DocsOf(pdfs));
        && conversations == old(conversations)[current.value := updated]
        && outcome.Rebuilt?
        && (outcome.build, disk) == Rebuild(old(disk), updated, split, removalFails, embedOk)
    {
      if NoCurrent() {
        return Stopped;
      }
      if pdfs == [] {
        return NoUpload;
      }
      var name := current.value;
      var conv := conversations[name];
      var docs := ReadDocs(pdfs);
      conv := conv.(uploadedDocs := conv.uploadedDocs + docs);
      conversations := conversations[name := conv];
      var build := BuildVectorstore(conv, split, removalFails, embedOk);
      outcome := Rebuilt(build);
    }

    /** The remove button of the document at `idx`: the document is dropped, the others keep
        their order, and the store is rebuilt from them. */
    method RemoveDoc(idx: nat, split: string -> seq<string>, removalFails: bool, embedOk: bool)
      returns (outcome: DocsOutcome)
      requires Valid()
      modifies this`conversations, this`disk
      ensures Valid()
      ensures conversations.Keys == old(conversations.Keys)
      ensures NoCurrent() ==> outcome == Stopped && conversations == old(conversations) && disk == old(disk)
      ensures !NoCurrent() ==>
        var conv := old(conversations)[current.value];
        var docs := conv.uploadedDocs;
        if idx >= |docs| then outcome == NoSuchDocument && conversations == old(conversations) && disk == old(disk)
        else
          var updated := conv.(uploadedDocs := docs[..idx] + docs[idx + 1..]);
          && conversations == old(conversations)[current.value := updated]
          && outcome.Rebuilt?
          && (outcome.build, disk) == Rebuild(old(disk), updated, split, removalFails, embedOk)
    {
      if NoCurrent() {
        return Stopped;
      }
      var name := current.value;
      var conv := conversations[name];
      if idx >= |conv.uploadedDocs| {
        return NoSuchDocument;
      }
      conv := conv.(uploadedDocs := conv.uploadedDocs[..idx] + conv.uploadedDocs[idx + 1..]);
      conversations := conversations[name := conv];
      var build := BuildVectorstore(conv, split, removalFails, embedOk);
      outcome := Rebuilt(build);
    }

    /** "Send": a message that is blank once stripped is refused. Otherwise it is appended
        to the history as the user's turn; then, when the conversation has documents and its
        directory exists, the retrieval chain answers from the chunks in that directory and
        the history (which now ends with the message), else the plain model answers from
        `PlainMessages`. A failure of either becomes the answer, with its prefix. The answer
        is appended as the AI's turn. */
    method Send(input: string, rag: (seq<Chunk>, string, seq<Turn>) -> Reply, llm: seq<ChatMessage> -> Reply)
      returns (outcome: SendOutcome)
      requires Valid()
      modifies this`conversations
      ensures Valid()
      ensures conversations.Keys == old(conversations.Keys)
      ensures NoCurrent() ==> outcome == NoConversation && conversations == old(conversations)
      ensures !NoCurrent() ==>
        var conv := old(conversations)[current.value];
        if Strip(input) == "" then outcome == BlankMessage && conversations == old(conversations)
        else
          var asked := conv.chatHistory + [Turn("You", input)];
          var answer := AnswerOf(conv, asked, input, disk, rag, llm);
          && outcome == Answered(answer)
          && conversations == old(conversations)[current.value := conv.(chatHistory := asked + [Turn("AI", answer)])]
    {
      if NoCurrent() {
        return NoConversation;
      }
      if Strip(input) == "" {
        return BlankMessage;
      }
      var name := current.value;
      var conv := conversations[name];
      // the history is extended before the call, and the call is given the extended one
      var asked := conv.chatHistory + [Turn("You", input)];
      var answer;
      if conv.uploadedDocs != [] && conv.persistDir in disk {
        var reply := rag(disk[conv.persistDir], input, asked);
        answer := RetrievalAnswer(reply);
      } else {
        var messages := BuildMessages(asked, input);
        var reply := llm(messages);
        answer := LlmAnswer(reply);
      }
      ConsistentAfterTurn(conversations, order, current, name, input, answer);
      assert asked + [Turn("AI", answer)] == conv.chatHistory + [Turn("You", input), Turn("AI", answer)];
      conversations := conversations[name := conv.(chatHistory := asked + [Turn("AI", answer)])];
      outcome := Answered(answer);
    }
  }
}
