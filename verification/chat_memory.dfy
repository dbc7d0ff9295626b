/** The day-7 chatbot with memory: a module-level store maps each session id to a message
    history; `respond` records the user's message, asks the model with the whole history and
    records its reply; the command-line loop chats under one fixed session id. */
module ChatMemory {
  import opened External

  datatype Message = Human(content: string) | Ai(content: string)

  /** An in-memory chat history: a list of messages that `add_message` appends to. */
  class History {
    var messages: seq<Message>

    constructor ()
      ensures messages == []
    {
      messages := [];
    }

    method AddMessage(m: Message)
      modifies this
      ensures messages == old(messages) + [m]
    {
      messages := messages + [m];
    }
  }

  /** The state `respond` hands back to the graph. */
  datatype Output = Output(messages: seq<Message>, config: map<string, string>)

  datatype RespondResult = Responded(output: Output) | LlmRaised(error: string)

  /** Why the chat loop stopped. */
  datatype ChatEnd = SaidExit | InputExhausted | ModelRaised(error: string)

  /** The session id the command-line loop always uses. */
  const LoopSession := "user-123"

  function LowerAscii(c: char): char {
    if 'A' <= c <= 'Z' then (c as int + 32) as char else c
  }

  /** `s.lower() == "exit"`. */
  predicate IsExit(s: string) {
    |s| == 4 && LowerAscii(s[0]) == 'e' && LowerAscii(s[1]) == 'x'
    && LowerAscii(s[2]) == 'i' && LowerAscii(s[3]) == 't'
  }

  /** The history a session has after the loop has read `lines`, the replies it printed and
      why it stopped: each line up to the first "exit" (in any case) adds the user's message
      and then the model's reply to that session's history. */
  function Converse(history: seq<Message>, lines: seq<string>, llm: seq<Message> -> Reply)
    : (run: (seq<Message>, seq<string>, ChatEnd))
    decreases |lines|
  {
    if lines == [] then (history, [], InputExhausted)
    else if IsExit(lines[0]) then (history, [], SaidExit)
    else
      var asked := history + [Human(lines[0])];
      match llm(asked)
      case Raised(e) => (asked, [], ModelRaised(e))
      case Answer(t) =>
        var rest := Converse(asked + [Ai(t)], lines[1..], llm);
        (rest.0, [t] + rest.1, rest.2)
  }

  /** One turn of the conversation, from the line at `i`. */
  lemma ConverseStep(history: seq<Message>, lines: seq<string>, i: nat, llm: seq<Message> -> Reply)
    requires i < |lines|
    ensures IsExit(lines[i]) ==> Converse(history, lines[i..], llm) == (history, [], SaidExit)
    ensures !IsExit(lines[i]) ==>
      var asked := history + [Human(lines[i])];
      match llm(asked)
      case Raised(e) => Converse(history, lines[i..], llm) == (asked, [], ModelRaised(e))
      case Answer(t) =>
        var rest := Converse(asked + [Ai(t)], lines[i + 1..], llm);
        Converse(history, lines[i..], llm) == (rest.0, [t] + rest.1, rest.2)
  {
    assert lines[i..][0] == lines[i];
    assert lines[i..][1..] == lines[i + 1..];
  }

  /** After an answered turn at `i`, the run from `i` is the turn's reply followed by the
      run from `i + 1` on the history that now holds both messages. */
  lemma ConverseAnswered(history: seq<Message>, lines: seq<string>, i: nat, llm: seq<Message> -> Reply, t: string)
    requires i < |lines| && !IsExit(lines[i])
    requires llm(history + [Human(lines[i])]) == Answer(t)
    ensures var rest := Converse(history + [Human(lines[i])] + [Ai(t)], lines[i + 1..], llm);
      var now := Converse(history, lines[i..], llm);
      now == (rest.0, [t] + rest.1, rest.2)
  {
    ConverseStep(history, lines, i, llm);
  }

  /** The memory store: session id to history. */
  class MemoryStore {
    var store: map<string, History>

    /** Two sessions never share one history object. */
    ghost predicate Valid()
      reads this
    {
      forall a, b :: a in store && b in store && a != b ==> store[a] != store[b]
    }

    /** The messages of a session, or none before its history exists. */
    ghost function MessagesOf(id: string): seq<Message>
      reads this, store.Values
    {
      if id in store then store[id].messages else []
    }

    constructor ()
      ensures Valid() && store == map[]
    {
      store := map[];
    }

    /** `get_memory`: the stored history of `sessionId`, created empty if absent. */
    method GetMemory(sessionId: string) returns (h: History)
      requires Valid()
      modifies this
      ensures Valid()
      ensures sessionId in store && h == store[sessionId]
      ensures sessionId in old(store) ==> store == old(store)
      ensures sessionId !in old(store) ==>
        fresh(h) && h.messages == [] && store == old(store)[sessionId := h]
    {
      if sessionId !in store {
        var created := new History();
        store := store[sessionId := created];
      }
      h := store[sessionId];
    }

    /** `respond`: the user's message is added before the model is called, with the whole
        history, and the reply after it. A model failure leaves the user's message in place
        and is passed on. The returned state ends with the model's reply and carries `config`
        unchanged. */
    method Respond(input: string, config: map<string, string>, llm: seq<Message> -> Reply)
      returns (r: RespondResult)
      requires Valid() && "session_id" in config
      modifies this, store.Values
      ensures Valid()
      ensures var id := config["session_id"];
        && store.Keys == old(store.Keys) + {id}
        && (forall k :: k in old(store) ==> store[k] == old(store[k]))
        && (id !in old(store) ==> fresh(store[id]))
        && (forall k :: k in old(store) && k != id ==> store[k].messages == old(store[k].messages))
      ensures var id := config["session_id"];
        var asked := old(MessagesOf(id)) + [Human(input)];
        match llm(asked)
        case Answer(t) =>
          && store[id].messages == asked + [Ai(t)]
          && r == Responded(Output(store[id].messages + [Human(input), Ai(t)], config))
        case Raised(e) =>
          store[id].messages == asked && r == LlmRaised(e)
    {
      var id := config["session_id"];
      var history := GetMemory(id);
      var userMessage := Human(input);
      history.AddMessage(userMessage);
      // `messages` is the history's own list, so it also sees the reply added below
      var response := llm(history.messages);
      if response.Raised? {
        return LlmRaised(response.error);
      }
      var aiMessage := Ai(response.text);
      history.AddMessage(aiMessage);
      r := Responded(Output(history.messages + [userMessage, aiMessage], config));
    }

    /** One pass of `run_day7`'s loop after the exit test: the graph is invoked with the
        line under the loop's session id, and the content of the last returned message is
        what gets printed. */
    method Turn(line: string, llm: seq<Message> -> Reply) returns (reply: Reply)
      requires Valid()
      modifies this, store.Values
      ensures Valid()
      ensures store.Keys == old(store.Keys) + {LoopSession}
      ensures forall k :: k in old(store) ==> store[k] == old(store[k])
      ensures LoopSession !in old(store) ==> fresh(store[LoopSession])
      ensures forall k :: k in old(store) && k != LoopSession ==> store[k].messages == old(store[k].messages)
      ensures var asked := old(MessagesOf(LoopSession)) + [Human(line)];
        && reply == llm(asked)
        && MessagesOf(LoopSession) == (if reply.Answer? then asked + [Ai(reply.text)] else asked)
    {
      var r := Respond(line, map["session_id" := LoopSession], llm);
      if r.LlmRaised? {
        return Raised(r.error);
      }
      reply := Answer(r.output.messages[|r.output.messages| - 1].content);
    }

    /** `run_day7`: chat under the fixed session id until the user types "exit". */
    method RunChat(lines: seq<string>, llm: seq<Message> -> Reply)
      returns (shown: seq<string>, end: ChatEnd)
      requires Valid()
      modifies this, store.Values
      ensures Valid()
      ensures store.Keys <= old(store.Keys) + {LoopSession}
      ensures forall k :: k in old(store) ==> k in store && store[k] == old(store[k])
      ensures forall k :: k in old(store) && k != LoopSession ==> k in store && store[k].messages == old(store[k].messages)
      ensures var run := Converse(old(MessagesOf(LoopSession)), lines, llm);
        MessagesOf(LoopSession) == run.0 && shown == run.1 && end == run.2
    {
      shown := [];
      var i := 0;
      ghost var initial := store;
      ghost var initialMessages := map k | k in store :: store[k].messages;
      ghost var start := MessagesOf(LoopSession);
      ghost var run := Converse(start, lines, llm);
      assert lines[i..] == lines;
      assert shown + run.1 == run.1;
      while true
        invariant 0 <= i <= |lines|
        invariant Valid()
        invariant store.Keys <= initial.Keys + {LoopSession}
        invariant forall k :: k in initial ==> k in store && store[k] == initial[k]
        invariant forall k :: k in store && k !in initial ==> fresh(store[k])
        invariant forall k :: k in initial && k != LoopSession ==> store[k].messages == initialMessages[k]
        invariant var now := Converse(MessagesOf(LoopSession), lines[i..], llm);
          run == (now.0, shown + now.1, now.2)
        decreases |lines| - i
      {
        ghost var before := MessagesOf(LoopSession);
        if i == |lines| {
          assert shown + [] == shown;
          return shown, InputExhausted;
        }
        ConverseStep(before, lines, i, llm);
        if IsExit(lines[i]) {
          assert shown + [] == shown;
          return shown, SaidExit;
        }
        var reply := Turn(lines[i], llm);
        if reply.Raised? {
          assert shown + [] == shown;
          return shown, ModelRaised(reply.error);
        }
        ConverseAnswered(before, lines, i, llm, reply.text);
        ghost var rest := Converse(before + [Human(lines[i])] + [Ai(reply.text)], lines[i + 1..], llm);
        assert (shown + [reply.text]) + rest.1 == shown + ([reply.text] + rest.1);
        shown := shown + [reply.text];
        i := i + 1;
      }
    }
  }

  // ---------------------------------------------------------------------------------------
  // Properties of a conversation

  /** Index of the first line that says "exit", or the number of lines. */
  function FirstExit(lines: seq<string>): (k: nat)
    ensures k <= |lines|
    ensures forall j :: 0 <= j < k ==> !IsExit(lines[j])
    ensures k < |lines| ==> IsExit(lines[k])
  {
    if lines == [] || IsExit(lines[0]) then 0 else 1 + FirstExit(lines[1..])
  }

  /** The texts of the user's messages, in order. */
  function HumanTexts(h: seq<Message>): seq<string>
  {
    if h == [] then []
    else HumanTexts(h[..|h| - 1]) + (if h[|h| - 1].Human? then [h[|h| - 1].content] else [])
  }

  /** User and model messages alternate, starting with the user's. */
  ghost predicate Alternating(h: seq<Message>) {
    |h| % 2 == 0 && forall i :: 0 <= i < |h| ==> (h[i].Human? <==> i % 2 == 0)
  }

  /** A conversation the model never fails in reads every line before the first "exit",
      stops on that line, grows the history by exactly two messages per line read, records
      the lines as the user's messages in order, and prints one reply per line. */
  lemma ConverseRecordsEveryTurn(history: seq<Message>, lines: seq<string>, llm: seq<Message> -> Reply)
    requires !Converse(history, lines, llm).2.ModelRaised?
    ensures var run := Converse(history, lines, llm);
      var k := FirstExit(lines);
      && |run.0| == |history| + 2 * k
      && |run.1| == k
      && HumanTexts(run.0) == HumanTexts(history) + lines[..k]
      && (run.2 == SaidExit <==> k < |lines|)
  {
    ConverseCountsTurns(history, lines, llm);
    ConverseRecordsLines(history, lines, llm);
  }

  lemma {:induction false} ConverseCountsTurns(history: seq<Message>, lines: seq<string>, llm: seq<Message> -> Reply)
    requires !Converse(history, lines, llm).2.ModelRaised?
    ensures var run := Converse(history, lines, llm);
      var k := FirstExit(lines);
      && |run.0| == |history| + 2 * k
      && |run.1| == k
      && (run.2 == SaidExit <==> k < |lines|)
    decreases |lines|
  {
    if lines != [] && !IsExit(lines[0]) {
      var asked := history + [Human(lines[0])];
      ConverseCountsTurns(asked + [Ai(llm(asked).text)], lines[1..], llm);
    }
  }

  lemma {:induction false} ConverseRecordsLines(history: seq<Message>, lines: seq<string>, llm: seq<Message> -> Reply)
    requires !Converse(history, lines, llm).2.ModelRaised?
    ensures HumanTexts(Converse(history, lines, llm).0) == HumanTexts(history) + lines[..FirstExit(lines)]
    decreases |lines|
  {
    if lines != [] && !IsExit(lines[0]) {
      var asked := history + [Human(lines[0])];
      var t := llm(asked).text;
      var next := asked + [Ai(t)];
      ConverseRecordsLines(next, lines[1..], llm);
      assert next[..|next| - 1] == asked;
      assert asked[..|asked| - 1] == history;
      assert HumanTexts(next) == HumanTexts(history) + [lines[0]];
      assert lines[..FirstExit(lines)] == [lines[0]] + lines[1..][..FirstExit(lines[1..])];
    } else {
      assert lines[..0] == [];
    }
  }

  /** A conversation only appends to the session's history: what was there stays, in front. */
  lemma {:induction false} ConverseOnlyAppends(history: seq<Message>, lines: seq<string>, llm: seq<Message> -> Reply)
    ensures var h := Converse(history, lines, llm).0;
      |history| <= |h| && h[..|history|] == history
    decreases |lines|
  {
    if lines != [] && !IsExit(lines[0]) {
      var asked := history + [Human(lines[0])];
      if llm(asked).Answer? {
        var next := asked + [Ai(llm(asked).text)];
        ConverseOnlyAppends(next, lines[1..], llm);
        var h := Converse(next, lines[1..], llm).0;
        assert h[..|history|] == h[..|next|][..|history|];
      }
    }
  }

  /** A conversation keeps user and model messages alternating. */
  lemma {:induction false} ConverseKeepsAlternation(history: seq<Message>, lines: seq<string>, llm: seq<Message> -> Reply)
    requires Alternating(history)
    requires !Converse(history, lines, llm).2.ModelRaised?
    ensures Alternating(Converse(history, lines, llm).0)
    decreases |lines|
  {
    if lines != [] && !IsExit(lines[0]) {
      var asked := history + [Human(lines[0])];
      var next := asked + [Ai(llm(asked).text)];
      assert Alternating(next);
      ConverseKeepsAlternation(next, lines[1..], llm);
    }
  }
}
