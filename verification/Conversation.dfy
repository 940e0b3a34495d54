/**
  The conversation loop of a call: what the caller says goes to the language model with the whole
  history, its words are spoken, its tool calls are dispatched, and a terminal tool ends the call.
 */
module Conversation {
  import opened Common
  import opened Tools

  const SPEECH_MAX: nat := 16
  const MIN_GAP_TURNS: nat := 4
  /** Said when a completion fails, in short. */
  const FALLBACK_APOLOGY: Words := "Sorry, transferring"

  datatype ToolCall = ToolCall(id: string, name: Name, raw: RawArgs)

  /** What the model is told about a tool: its feedback, or its extra fields as JSON. */
  datatype Answer = Feedback(text: string) | ExtraFields(extra: map<string, Value>)

  datatype Message =
    | System(content: string)
    | User(content: string)
    | Assistant(content: string)
    | CallsMade(text: Option<string>, calls: seq<ToolCall>)
    | ToolAnswer(callId: string, answer: Answer)

  datatype Speech = Speech(text: string, isTerminal: bool)

  /** A completion. `filler` is the random filler, `taken` how many speech requests are consumed while waiting for it. */
  datatype Completion =
    | Failure(taken: nat)
    | Reply(taken: nat, content: string, filler: Option<string>, work: seq<Work>)

  /** A tool call with what its service answers and the completion asked for afterwards, if one is. */
  datatype Work = Work(call: ToolCall, service: Service, taken: nat, follow: FollowUp)

  /** A completion whose tool calls are ignored. */
  datatype FollowUp = NoFollowUp(taken: nat) | FollowUp(taken: nat, content: string, filler: Option<string>)

  /** `out` are the speech requests that have been taken from the queue. */
  datatype Talk = Talk(
    messages: seq<Message>, out: seq<Speech>, queue: seq<Speech>, refused: nat,
    terminal: Option<ToolResult>, sinceFiller: nat, llmCalls: nat)

  // ---------------------------------------------------------------------
  // One turn
  // ---------------------------------------------------------------------

  function Add(t: Talk, m: Message): Talk { t.(messages := t.messages + [m]) }

  /** `_enqueue_speech`: a full queue refuses. */
  function Enqueue(t: Talk, s: Speech): Talk {
    if s.text == "" then t
    else if |t.queue| >= SPEECH_MAX then t.(refused := t.refused + 1)
    else t.(queue := t.queue + [s])
  }

  function Taken(t: Talk, n: nat): Talk {
    var k := Min(n, |t.queue|);
    t.(out := t.out + t.queue[..k], queue := t.queue[k..])
  }

  function Say(t: Talk, content: string, filler: Option<string>): Talk {
    var fill := filler.Some? && t.sinceFiller >= MIN_GAP_TURNS;
    var spoken := if fill then filler.value + content else content;
    Enqueue(Add(t, Assistant(content)).(sinceFiller := if fill then 0 else t.sinceFiller + 1), Speech(spoken, false))
  }

  function ResultOf(w: Work): ToolResult { Dispatch(w.call.name, w.call.raw, w.service).result }

  function AnswerOf(w: Work): Message {
    var r := ResultOf(w);
    ToolAnswer(w.call.id, if r.feedback != "" then Feedback(r.feedback) else ExtraFields(r.extra))
  }

  function Ended(t: Talk, r: ToolResult): Talk { Enqueue(t.(terminal := Some(r)), Speech(r.speak, true)) }

  function Followed(t: Talk, f: FollowUp): Talk {
    var asked := Taken(t.(llmCalls := t.llmCalls + 1), f.taken);
    if f.NoFollowUp? || f.content == "" then asked else Say(asked, f.content, f.filler)
  }

  /** One round of the loop over the tool calls. */
  function Worked(t: Talk, w: Work): Talk {
    var answered := Add(Taken(t, w.taken), AnswerOf(w));
    if ResultOf(w).isTerminal then Ended(answered, ResultOf(w))
    else if w.call.name == SearchKb then Followed(answered, w.follow)
    else answered
  }

  /** After this call the rest of the turn's calls is skipped: it was terminal, or its follow-up failed. */
  predicate Stops(w: Work) {
    ResultOf(w).isTerminal || (w.call.name == SearchKb && w.follow.NoFollowUp?)
  }

  function WorkedAll(t: Talk, work: seq<Work>, n: nat): Talk
    requires n <= |work|
  {
    if n == 0 then t else Worked(WorkedAll(t, work, n - 1), work[n - 1])
  }

  /** How many of the calls are dispatched, the first `k` being so. */
  function HandledFrom(work: seq<Work>, k: nat): (n: nat)
    requires k <= |work|
    ensures k <= n <= |work|
    decreases |work| - k
  {
    if k == |work| then k else if Stops(work[k]) then k + 1 else HandledFrom(work, k + 1)
  }

  function Handled(work: seq<Work>): (n: nat)
    ensures n <= |work|
  {
    HandledFrom(work, 0)
  }

  function CallsOf(work: seq<Work>): seq<ToolCall> {
    seq(|work|, i requires 0 <= i < |work| => work[i].call)
  }

  /** `_handle_llm_response`. */
  function Responded(t: Talk, content: string, filler: Option<string>, work: seq<Work>): Talk {
    var said := if content == "" then t else Say(t, content, filler);
    if work == [] then said
    else WorkedAll(
      Add(said, CallsMade(if content == "" then None else Some(content), CallsOf(work))), work, Handled(work))
  }

  const LLM_ERROR := ToolResult(EndCall, false, true, FALLBACK_APOLOGY, "", "ERROR_AI", map[])

  /** The utterance is in the history and the completion has been waited for; `delay` requests are consumed during the response delay. */
  function AskedOf(t: Talk, text: string, delay: nat, reply: Completion): Talk {
    Taken(Taken(Add(t, User(text)), delay).(llmCalls := t.llmCalls + 1), reply.taken)
  }

  function Apologized(t: Talk): Talk {
    Enqueue(t, Speech(FALLBACK_APOLOGY, true)).(terminal := Some(LLM_ERROR))
  }

  /** One turn of the caller. */
  function Turn(t: Talk, text: string, delay: nat, reply: Completion): Talk {
    var asked := AskedOf(t, text, delay, reply);
    if reply.Failure? then Apologized(asked) else Responded(asked, reply.content, reply.filler, reply.work)
  }

  // ---------------------------------------------------------------------
  // The loop
  // ---------------------------------------------------------------------

  /** What reaches the loop: `stop()` from outside, half a second without speech, or an utterance. */
  datatype Event = StopSet | Idle | Heard(text: string, delay: nat, reply: Completion)

  datatype Loop = Loop(talk: Talk, stop: bool, callEnded: bool, returned: bool)

  /** The stop event is looked at only before the loop waits again. */
  function Step(l: Loop, e: Event): Loop {
    if l.returned then l
    else
      match e
      case StopSet => l.(stop := true)
      case Idle => l.(returned := l.stop)
      case Heard(text, delay, reply) =>
        if text == "" then l.(returned := l.stop)
        else
          var t := Turn(l.talk, text, delay, reply);
          if t.terminal.Some? then l.(talk := t, callEnded := true, returned := true)
          else l.(talk := t, returned := l.stop)
  }

  function RunLoop(l: Loop, events: seq<Event>): Loop {
    if events == [] then l else Step(RunLoop(l, events[..|events|-1]), events[|events|-1])
  }

  /** `set_system_prompt`. */
  function Prompted(ms: seq<Message>, prompt: string): seq<Message> {
    if ms != [] && ms[0].System? then [System(prompt)] + ms[1..] else [System(prompt)] + ms
  }

  class ConversationLoop {
    var messages: seq<Message>
    var speechQueue: seq<Speech>
    ghost var out: seq<Speech>
    var refused: nat
    var terminalResult: Option<ToolResult>
    var turnsSinceFiller: nat
    var llmCalls: nat
    var stop: bool
    var callEnded: bool
    var returned: bool
    const tools: ToolContext

    constructor (tools: ToolContext)
      ensures this.tools == tools
      ensures Value() == Loop(Talk([], [], [], 0, None, 99, 0), false, false, false)
    {
      this.tools := tools;
      messages, out, speechQueue, refused, terminalResult, turnsSinceFiller, llmCalls := [], [], [], 0, None, 99, 0;
      stop, callEnded, returned := false, false, false;
    }

    ghost function TalkValue(): Talk
      reads this
    {
      Talk(messages, out, speechQueue, refused, terminalResult, turnsSinceFiller, llmCalls)
    }

    ghost function Value(): Loop
      reads this
    {
      Loop(TalkValue(), stop, callEnded, returned)
    }

    method SetSystemPrompt(prompt: string)
      modifies this`messages
      ensures messages == Prompted(old(messages), prompt)
    {
      if messages != [] && messages[0].System? {
        messages := messages[0 := System(prompt)];
      } else {
        messages := [System(prompt)] + messages;
      }
    }

    method EnqueueSpeech(text: string, isTerminal: bool)
      modifies this`speechQueue, this`refused
      ensures TalkValue() == Enqueue(old(TalkValue()), Speech(text, isTerminal))
    {
      if text == "" {
        return;
      }
      if |speechQueue| < SPEECH_MAX {
        speechQueue := speechQueue + [Speech(text, isTerminal)];
      } else {
        refused := refused + 1;
      }
    }

    method EnqueueOpener(text: string)
      modifies this`messages, this`speechQueue, this`refused
      ensures TalkValue() == if text == "" then old(TalkValue())
                             else Enqueue(Add(old(TalkValue()), Assistant(text)), Speech(text, false))
    {
      if text == "" {
        return;
      }
      messages := messages + [Assistant(text)];
      EnqueueSpeech(text, false);
    }

    /** Suspension: meanwhile the audio side takes `n` requests. */
    method Await(n: nat)
      modifies this`speechQueue, this`out
      ensures TalkValue() == Taken(old(TalkValue()), n)
    {
      var k := if n < |speechQueue| then n else |speechQueue|;
      out := out + speechQueue[..k];
      speechQueue := speechQueue[k..];
    }

    method SayContent(content: string, filler: Option<string>)
      modifies this`messages, this`speechQueue, this`refused, this`turnsSinceFiller
      ensures TalkValue() == Say(old(TalkValue()), content, filler)
    {
      var spoken := content;
      if filler.Some? && turnsSinceFiller >= MIN_GAP_TURNS {
        spoken, turnsSinceFiller := filler.value + content, 0;
      } else {
        turnsSinceFiller := turnsSinceFiller + 1;
      }
      messages := messages + [Assistant(content)];
      EnqueueSpeech(spoken, false);
    }

    method AddMessage(m: Message)
      modifies this`messages
      ensures TalkValue() == Add(old(TalkValue()), m)
    {
      messages := messages + [m];
    }

    /** The completion asked for after a search; false if it fails. */
    method AskAgain(f: FollowUp) returns (ok: bool)
      modifies this`messages, this`speechQueue, this`out, this`refused, this`turnsSinceFiller, this`llmCalls
      ensures TalkValue() == Followed(old(TalkValue()), f) && ok == f.FollowUp?
    {
      hide Say, Taken;
      llmCalls := llmCalls + 1;
      Await(f.taken);
      if f.NoFollowUp? {
        return false;
      }
      if f.content != "" {
        SayContent(f.content, f.filler);
      }
      return true;
    }

    /** The loop body for one tool call; false if the loop is left. */
    method HandleCall(w: Work) returns (goOn: bool)
      modifies this`messages, this`speechQueue, this`out, this`refused, this`terminalResult, this`turnsSinceFiller, this`llmCalls, tools
      ensures TalkValue() == Worked(old(TalkValue()), w) && goOn == !Stops(w)
      ensures |tools.toolCalls| == old(|tools.toolCalls|) + 1
    {
      hide Dispatch, Add, Taken, Followed;
      Await(w.taken);
      var result := tools.Run(w.call.name, w.call.raw, w.service);
      AddMessage(ToolAnswer(w.call.id, if result.feedback != "" then Feedback(result.feedback) else ExtraFields(result.extra)));
      if result.isTerminal {
        terminalResult := Some(result);
        if result.speak != "" {
          EnqueueSpeech(result.speak, true);
        }
        return false;
      }
      goOn := true;
      if w.call.name == SearchKb {
        goOn := AskAgain(w.follow);
      }
    }

    /** `_handle_llm_response`; one tool is dispatched for each call handled. */
    method HandleLlmResponse(content: string, filler: Option<string>, work: seq<Work>)
      modifies this`messages, this`speechQueue, this`out, this`refused, this`terminalResult, this`turnsSinceFiller, this`llmCalls, tools
      ensures TalkValue() == Responded(old(TalkValue()), content, filler, work)
      ensures |tools.toolCalls| == old(|tools.toolCalls|) + Handled(work)
    {
      hide Dispatch, Handled, HandledFrom, Say, Add, Worked, Stops, CallsOf;
      if content != "" {
        SayContent(content, filler);
      }
      if work == [] {
        NoWork();
        return;
      }
      AddMessage(CallsMade(if content == "" then None else Some(content), CallsOf(work)));
      ghost var start := TalkValue();
      Unhandled(work);
      var n, goOn := 0, true;
      while n < |work| && goOn
        invariant n <= |work| && (if goOn then HandledFrom(work, n) else n) == Handled(work)
        invariant TalkValue() == WorkedAll(start, work, n)
        invariant |tools.toolCalls| == old(|tools.toolCalls|) + n
      {
        OneHandled(work, n);
        goOn := HandleCall(work[n]);
        n := n + 1;
      }
      AllHandled(work);
    }

    /** The turn of `run` for one utterance. */
    method TakeTurn(text: string, delay: nat, reply: Completion)
      modifies this`messages, this`speechQueue, this`out, this`refused, this`terminalResult, this`turnsSinceFiller, this`llmCalls, tools
      ensures TalkValue() == Turn(old(TalkValue()), text, delay, reply)
      ensures |tools.toolCalls| == old(|tools.toolCalls|) + if reply.Failure? then 0 else Handled(reply.work)
    {
      hide Responded, Add, Taken, Handled, HandledFrom;
      AddMessage(User(text));
      Await(delay);
      llmCalls := llmCalls + 1;
      Await(reply.taken);
      if reply.Failure? {
        EnqueueSpeech(FALLBACK_APOLOGY, true);
        terminalResult := Some(LLM_ERROR);
      } else {
        HandleLlmResponse(reply.content, reply.filler, reply.work);
      }
    }

    /** The body of the loop of `run`, for one event. */
    method HandleEvent(e: Event)
      requires !returned
      modifies this, tools
      ensures Value() == Step(old(Value()), e)
    {
      hide Turn;
      match e
      case StopSet =>
        stop := true;
      case Idle =>
        returned := stop;
      case Heard(text, delay, reply) =>
        if text == "" {
          returned := stop;
          return;
        }
        TakeTurn(text, delay, reply);
        if terminalResult.Some? {
          callEnded, returned := true, true;
        } else {
          returned := stop;
        }
    }

    method Run(events: seq<Event>)
      modifies this, tools
      ensures Value() == RunLoop(old(Value()), events)
    {
      hide Step;
      var i := 0;
      while i < |events|
        invariant i <= |events| && Value() == RunLoop(old(Value()), events[..i])
      {
        assert events[..i + 1][..i] == events[..i];
        if returned {
          NothingAfterReturn(Value(), events[i]);
        } else {
          HandleEvent(events[i]);
        }
        i := i + 1;
      }
      assert events[..|events|] == events;
    }
  }

  lemma {:induction false} NothingAfterReturn(l: Loop, e: Event)
    requires l.returned
    ensures Step(l, e) == l
  {
  }

  lemma {:induction false} NoWork()
    ensures Handled([]) == 0
  {
  }

  lemma {:induction false} Unhandled(work: seq<Work>)
    ensures HandledFrom(work, 0) == Handled(work)
  {
  }

  lemma {:induction false} OneHandled(work: seq<Work>, n: nat)
    requires n < |work|
    ensures HandledFrom(work, n) == if Stops(work[n]) then n + 1 else HandledFrom(work, n + 1)
  {
  }

  lemma {:induction false} AllHandled(work: seq<Work>)
    ensures HandledFrom(work, |work|) == |work|
  {
  }

  // ---------------------------------------------------------------------
  // History
  // ---------------------------------------------------------------------

  /** `b` continues `a` without a system message. */
  ghost predicate Continues(a: seq<Message>, b: seq<Message>) {
    |a| <= |b| && b[..|a|] == a && forall i | |a| <= i < |b| :: !b[i].System?
  }

  lemma {:induction false} ContinuesTwice(a: seq<Message>, b: seq<Message>, c: seq<Message>)
    requires Continues(a, b) && Continues(b, c)
    ensures Continues(a, c)
  {
    assert c[..|a|] == b[..|a|];
  }

  /** The tool answers of a history, in order. */
  function Answers(ms: seq<Message>): seq<Message> {
    if ms == [] then []
    else Answers(ms[..|ms|-1]) + if ms[|ms|-1].ToolAnswer? then [ms[|ms|-1]] else []
  }

  lemma {:induction false} AnswersSnoc(ms: seq<Message>, m: Message)
    ensures Answers(ms + [m]) == if m.ToolAnswer? then Answers(ms) + [m] else Answers(ms)
  {
    assert (ms + [m])[..|ms + [m]|-1] == ms;
  }

  /** The answers to the first `n` calls. */
  function AnswersTo(work: seq<Work>, n: nat): (r: seq<Message>)
    requires n <= |work|
    ensures |r| == n && forall i | 0 <= i < n :: r[i] == AnswerOf(work[i])
  {
    seq(n, i requires 0 <= i < n => AnswerOf(work[i]))
  }

  function Searches(work: seq<Work>, n: nat): (r: nat)
    requires n <= |work|
    ensures r <= n
  {
    if n == 0 then 0 else Searches(work, n - 1) + if work[n - 1].call.name == SearchKb then 1 else 0
  }

  lemma {:induction false} SearchesGrow(work: seq<Work>, n: nat, m: nat)
    requires n <= m <= |work|
    ensures Searches(work, n) <= Searches(work, m)
  {
    if n < m {
      SearchesGrow(work, n, m - 1);
    }
  }

  /** What any part of a turn does to the talk: it continues the history by the given answers, and counts completions. */
  ghost predicate Grew(t: Talk, u: Talk, answers: seq<Message>, asked: nat) {
    && Continues(t.messages, u.messages)
    && Answers(u.messages) == Answers(t.messages) + answers
    && u.llmCalls == t.llmCalls + asked
    && (|t.queue| <= SPEECH_MAX ==> |u.queue| <= SPEECH_MAX)
  }

  lemma {:induction false} GrewTwice(t: Talk, u: Talk, v: Talk, a: seq<Message>, b: seq<Message>, m: nat, n: nat)
    requires Grew(t, u, a, m) && Grew(u, v, b, n)
    ensures Grew(t, v, a + b, m + n)
  {
    hide Answers;
    ContinuesTwice(t.messages, u.messages, v.messages);
    assert (Answers(t.messages) + a) + b == Answers(t.messages) + (a + b);
  }

  lemma {:induction false} GrewSilently(t: Talk, u: Talk, v: Talk, a: seq<Message>, m: nat, n: nat)
    requires Grew(t, u, a, m) && Grew(u, v, [], n)
    ensures Grew(t, v, a, m + n)
  {
    GrewTwice(t, u, v, a, [], m, n);
    hide Grew;
    assert a + [] == a;
  }

  lemma {:induction false} SilentThenGrew(t: Talk, u: Talk, v: Talk, b: seq<Message>, m: nat, n: nat)
    requires Grew(t, u, [], m) && Grew(u, v, b, n)
    ensures Grew(t, v, b, m + n)
  {
    GrewTwice(t, u, v, [], b, m, n);
    hide Grew;
    assert [] + b == b;
  }

  lemma {:induction false} AddGrows(t: Talk, m: Message)
    requires !m.System?
    ensures Grew(t, Add(t, m), if m.ToolAnswer? then [m] else [], 0)
  {
    AnswersSnoc(t.messages, m);
    hide Answers;
  }

  lemma {:induction false} SameHistory(t: Talk, u: Talk, asked: nat)
    requires u.messages == t.messages && u.llmCalls == t.llmCalls + asked
    requires |t.queue| <= SPEECH_MAX ==> |u.queue| <= SPEECH_MAX
    ensures Grew(t, u, [], asked)
  {
    hide Answers;
  }

  lemma {:induction false} SayGrows(t: Talk, content: string, filler: Option<string>)
    ensures Grew(t, Say(t, content, filler), [], 0) && Say(t, content, filler).terminal == t.terminal
  {
    AddGrows(t, Assistant(content));
    SameHistory(Add(t, Assistant(content)), Say(t, content, filler), 0);
    GrewSilently(t, Add(t, Assistant(content)), Say(t, content, filler), [], 0, 0);
    hide Grew;
  }

  lemma {:induction false} FollowedGrows(t: Talk, f: FollowUp)
    ensures Grew(t, Followed(t, f), [], 1) && Followed(t, f).terminal == t.terminal
  {
    hide Grew, Say;
    var asked := Taken(t.(llmCalls := t.llmCalls + 1), f.taken);
    SameHistory(t, asked, 1);
    if f.FollowUp? && f.content != "" {
      SayGrows(asked, f.content, f.filler);
      GrewSilently(t, asked, Followed(t, f), [], 1, 0);
    }
  }

  lemma {:induction false} WorkedGrows(t: Talk, w: Work)
    ensures Grew(t, Worked(t, w), [AnswerOf(w)], if w.call.name == SearchKb then 1 else 0)
    ensures Worked(t, w).terminal == if ResultOf(w).isTerminal then Some(ResultOf(w)) else t.terminal
  {
    hide Grew, Followed, ResultOf, AnswerOf, Add, Taken;
    var awaited := Taken(t, w.taken);
    var answered := Add(awaited, AnswerOf(w));
    AnsweredGrows(t, w);
    if ResultOf(w).isTerminal {
      SearchIsNotTerminal(w);
      EndedGrows(answered, ResultOf(w));
      GrewSilently(t, answered, Worked(t, w), [AnswerOf(w)], 0, 0);
    } else if w.call.name == SearchKb {
      FollowedGrows(answered, w.follow);
      GrewSilently(t, answered, Worked(t, w), [AnswerOf(w)], 0, 1);
    }
  }

  lemma {:induction false} AnsweredGrows(t: Talk, w: Work)
    ensures Grew(t, Add(Taken(t, w.taken), AnswerOf(w)), [AnswerOf(w)], 0)
    ensures Add(Taken(t, w.taken), AnswerOf(w)).terminal == t.terminal
  {
    hide ResultOf, Grew;
    SameHistory(t, Taken(t, w.taken), 0);
    AddGrows(Taken(t, w.taken), AnswerOf(w));
    SilentThenGrew(t, Taken(t, w.taken), Add(Taken(t, w.taken), AnswerOf(w)), [AnswerOf(w)], 0, 0);
  }

  lemma {:induction false} EndedGrows(t: Talk, r: ToolResult)
    ensures Grew(t, Ended(t, r), [], 0) && Ended(t, r).terminal == Some(r)
  {
    SameHistory(t, Ended(t, r), 0);
    hide Grew;
  }

  lemma {:induction false} SearchIsNotTerminal(w: Work)
    ensures ResultOf(w).isTerminal ==> w.call.name != SearchKb
  {
    hide Dispatch;
    DispatchLaw(w.call.name, w.call.raw, w.service);
  }

  lemma {:induction false} WorkedAllGrows(t: Talk, work: seq<Work>, n: nat)
    requires n <= |work|
    ensures Grew(t, WorkedAll(t, work, n), AnswersTo(work, n), Searches(work, n))
  {
    hide Grew, Worked, AnswerOf;
    if n == 0 {
      SameHistory(t, t, 0);
    } else {
      var u := WorkedAll(t, work, n - 1);
      WorkedAllGrows(t, work, n - 1);
      WorkedGrows(u, work[n - 1]);
      var more := if work[n - 1].call.name == SearchKb then 1 else 0;
      GrewTwice(t, u, Worked(u, work[n - 1]), AnswersTo(work, n - 1), [AnswerOf(work[n - 1])], Searches(work, n - 1), more);
      assert AnswersTo(work, n) == AnswersTo(work, n - 1) + [AnswerOf(work[n - 1])];
    }
  }

  /** No call before the last one handled stops the turn; if any is left over, the last one handled did. */
  ghost predicate StopsAt(work: seq<Work>, n: nat) {
    && n <= |work|
    && (forall i | 0 <= i < n - 1 :: !ResultOf(work[i]).isTerminal && !(work[i].call.name == SearchKb && work[i].follow.NoFollowUp?))
    && (n < |work| ==>
          n > 0 && (ResultOf(work[n - 1]).isTerminal || (work[n - 1].call.name == SearchKb && work[n - 1].follow.NoFollowUp?)))
  }

  lemma {:induction false} HandledStops(work: seq<Work>, k: nat)
    requires k <= |work| && forall i | 0 <= i < k :: !Stops(work[i])
    ensures StopsAt(work, HandledFrom(work, k)) && (work != [] ==> HandledFrom(work, k) > 0)
    decreases |work| - k
  {
    if k < |work| && !Stops(work[k]) {
      HandledStops(work, k + 1);
    }
  }

  lemma {:induction false} EarlierAreSilent(t: Talk, work: seq<Work>, n: nat)
    requires n <= |work| && forall i | 0 <= i < n :: !Stops(work[i])
    ensures WorkedAll(t, work, n).terminal == t.terminal
  {
    hide Worked, ResultOf;
    if n > 0 {
      EarlierAreSilent(t, work, n - 1);
      WorkedGrows(WorkedAll(t, work, n - 1), work[n - 1]);
    }
  }

  /** The terminal result a turn's calls leave: that of the last call handled, if it is one. */
  function LastResult(work: seq<Work>, n: nat): Option<ToolResult>
    requires n <= |work|
  {
    if n > 0 && ResultOf(work[n - 1]).isTerminal then Some(ResultOf(work[n - 1])) else None
  }

  lemma {:induction false} TerminalOfCalls(t: Talk, work: seq<Work>, n: nat)
    requires StopsAt(work, n) && t.terminal.None?
    ensures WorkedAll(t, work, n).terminal == LastResult(work, n)
  {
    hide Worked, ResultOf;
    if n > 0 {
      EarlierAreSilent(t, work, n - 1);
      WorkedGrows(WorkedAll(t, work, n - 1), work[n - 1]);
    }
  }

  lemma {:induction false} RespondedLaw(t: Talk, content: string, filler: Option<string>, work: seq<Work>)
    requires t.terminal.None?
    ensures var n := Handled(work);
            && Grew(t, Responded(t, content, filler, work), AnswersTo(work, n), Searches(work, n))
            && Responded(t, content, filler, work).terminal == LastResult(work, n)
  {
    hide Grew, Say, WorkedAll, HandledFrom, AnswersTo, Add, CallsOf, LastResult;
    var said := if content == "" then t else Say(t, content, filler);
    SameHistory(t, t, 0);
    SayGrows(t, content, filler);
    if work == [] {
      Empty(t, work);
    } else {
      var m := CallsMade(if content == "" then None else Some(content), CallsOf(work));
      var n, made := Handled(work), Add(said, m);
      HandledStops(work, 0);
      AddKeepsTerminal(said, m);
      GrewSilently(t, said, made, [], 0, 0);
      WorkedAllGrows(made, work, n);
      SilentThenGrew(t, made, WorkedAll(made, work, n), AnswersTo(work, n), 0, Searches(work, n));
      TerminalOfCalls(made, work, n);
    }
  }

  lemma {:induction false} AddKeepsTerminal(t: Talk, m: Message)
    requires m.CallsMade?
    ensures Add(t, m).terminal == t.terminal && Grew(t, Add(t, m), [], 0)
  {
    AddGrows(t, m);
    hide Grew;
  }

  lemma {:induction false} Empty(t: Talk, work: seq<Work>)
    requires work == []
    ensures Handled(work) == 0 && AnswersTo(work, 0) == [] && LastResult(work, 0) == None
  {
  }

  function WorkOf(reply: Completion): seq<Work> { if reply.Reply? then reply.work else [] }

  /**
    One turn: the history is continued without a system message; the tool answers are those to the
    first calls of the reply, in order, up to the first that stops the turn; there is one completion,
    and one more for each search among them; the call ends if the completion failed or the last tool was terminal.
   */
  lemma {:induction false} TurnLaw(t: Talk, text: string, delay: nat, reply: Completion)
    requires t.terminal.None?
    ensures
      var u, work := Turn(t, text, delay, reply), WorkOf(reply);
      var n := Handled(work);
      && Grew(t, u, AnswersTo(work, n), 1 + Searches(work, n)) && Searches(work, n) <= Searches(work, |work|)
      && StopsAt(work, n)
      && u.terminal == if reply.Failure? then Some(LLM_ERROR) else LastResult(work, n)
  {
    hide Grew, AskedOf, Handled, LastResult, Responded, LLM_ERROR, Apologized, AnswersTo, Searches, StopsAt;
    var work := WorkOf(reply);
    var n := Handled(work);
    Counts(work);
    SearchesGrow(work, n, |work|);
    var asked := AskedOf(t, text, delay, reply);
    AskedGrows(t, text, delay, reply);
    if reply.Failure? {
      Empty(t, work);
      FailureGrows(asked);
      GrewSilently(t, asked, Turn(t, text, delay, reply), [], 1, 0);
    } else {
      RespondedLaw(asked, reply.content, reply.filler, work);
      SilentThenGrew(t, asked, Turn(t, text, delay, reply), AnswersTo(work, n), 1, Searches(work, n));
    }
  }

  lemma {:induction false} Counts(work: seq<Work>)
    ensures StopsAt(work, Handled(work))
  {
    HandledStops(work, 0);
  }

  lemma {:induction false} AskedGrows(t: Talk, text: string, delay: nat, reply: Completion)
    ensures Grew(t, AskedOf(t, text, delay, reply), [], 1) && AskedOf(t, text, delay, reply).terminal == t.terminal
  {
    AddGrows(t, User(text));
    SameHistory(Add(t, User(text)), AskedOf(t, text, delay, reply), 1);
    hide Grew;
    SilentThenGrew(t, Add(t, User(text)), AskedOf(t, text, delay, reply), [], 0, 1);
  }

  lemma {:induction false} FailureGrows(t: Talk)
    ensures Grew(t, Apologized(t), [], 0) && Apologized(t).terminal == Some(LLM_ERROR)
  {
    hide LLM_ERROR, FALLBACK_APOLOGY, Grew;
    SameHistory(t, Apologized(t), 0);
  }

  /** All calls of a turn are answered exactly when none but the last stops it. */
  lemma {:induction false} AllAnsweredExactly(work: seq<Work>)
    ensures Handled(work) == |work| <==> forall i | 0 <= i < |work| - 1 ::
              !ResultOf(work[i]).isTerminal && !(work[i].call.name == SearchKb && work[i].follow.NoFollowUp?)
  {
    HandledStops(work, 0);
  }

  /** If the call goes on although some calls were left without an answer, a failed follow-up is why. */
  lemma {:induction false} UnansweredCalls(work: seq<Work>)
    requires Handled(work) < |work| && LastResult(work, Handled(work)) == None
    ensures var last := work[Handled(work) - 1]; last.call.name == SearchKb && last.follow.NoFollowUp?
  {
    hide ResultOf;
    HandledStops(work, 0);
  }

  // ---------------------------------------------------------------------
  // The system message
  // ---------------------------------------------------------------------

  /** Message 0 is the only system message. */
  ghost predicate OneSystem(ms: seq<Message>) {
    ms != [] && ms[0].System? && forall i | 1 <= i < |ms| :: !ms[i].System?
  }

  /** Setting the prompt, once or again, leaves it as the only system message and the rest of the history as it was. */
  lemma {:induction false} PromptIsFirstAndOnly(ms: seq<Message>, prompt: string)
    requires OneSystem(ms) || forall i | 0 <= i < |ms| :: !ms[i].System?
    ensures OneSystem(Prompted(ms, prompt)) && Prompted(ms, prompt)[0] == System(prompt)
    ensures Prompted(ms, prompt)[1..] == if OneSystem(ms) then ms[1..] else ms
  {
  }

  lemma {:induction false} StaysOnlySystem(a: seq<Message>, b: seq<Message>)
    requires OneSystem(a) && Continues(a, b)
    ensures OneSystem(b) && b[0] == a[0]
  {
    assert b[0] == b[..|a|][0];
    forall i | 1 <= i < |b|
      ensures !b[i].System?
    {
      if i < |a| {
        assert b[i] == b[..|a|][i];
      }
    }
  }

  // ---------------------------------------------------------------------
  // Every run
  // ---------------------------------------------------------------------

  /** `_classify_outcome`. */
  datatype Outcome = Abandoned | Error | By(name: Name)

  function Classify(terminal: Option<ToolResult>): Outcome {
    if terminal.None? then Abandoned else if !terminal.value.success then Error else By(terminal.value.name)
  }

  /** The disposition `_cleanup` records. */
  function DispoOf(terminal: Option<ToolResult>): string { if terminal.None? then "ABANDON" else terminal.value.dispo }

  /** What may end a call: a failed completion, or a terminal tool's success. */
  ghost predicate Final(r: ToolResult) { r == LLM_ERROR || (r.isTerminal && ResultLaw(r)) }

  /** The loop reports the end of the call exactly when there is a terminal result, and then has returned. */
  ghost predicate LoopLaw(l: Loop) {
    && (l.callEnded <==> l.talk.terminal.Some?) && (l.callEnded ==> l.returned)
    && (l.talk.terminal.Some? ==> Final(l.talk.terminal.value))
  }

  lemma {:induction false} LastIsFinal(work: seq<Work>, n: nat)
    requires n <= |work| && LastResult(work, n).Some?
    ensures Final(LastResult(work, n).value)
  {
    hide Dispatch, ResultLaw;
    var w := work[n - 1];
    DispatchLaw(w.call.name, w.call.raw, w.service);
  }

  lemma {:induction false} StepKeeps(l: Loop, e: Event)
    requires LoopLaw(l)
    ensures LoopLaw(Step(l, e))
    ensures |l.talk.queue| <= SPEECH_MAX ==> |Step(l, e).talk.queue| <= SPEECH_MAX
    ensures Continues(l.talk.messages, Step(l, e).talk.messages)
    ensures l.talk.terminal.Some? ==> Step(l, e) == l
  {
    hide Turn, LLM_ERROR, LastResult, ResultLaw, Handled, Answers, AnswersTo, StopsAt;
    if !l.returned && e.Heard? && e.text != "" {
      TurnLaw(l.talk, e.text, e.delay, e.reply);
      var work := WorkOf(e.reply);
      if !e.reply.Failure? && LastResult(work, Handled(work)).Some? {
        LastIsFinal(work, Handled(work));
      }
    }
  }

  /**
    Every run of the loop from a prepared history: the history only grows and keeps its one system
    message, the end of the call is reported exactly when there is a terminal result, which is final.
   */
  lemma {:induction false} RunLaw(l: Loop, events: seq<Event>)
    requires LoopLaw(l) && OneSystem(l.talk.messages) && |l.talk.queue| <= SPEECH_MAX
    ensures var r := RunLoop(l, events);
            && LoopLaw(r) && |r.talk.queue| <= SPEECH_MAX
            && Continues(l.talk.messages, r.talk.messages) && OneSystem(r.talk.messages)
            && r.talk.messages[0] == l.talk.messages[0]
  {
    hide Step, LoopLaw, OneSystem;
    if events != [] {
      var init := events[..|events|-1];
      RunLaw(l, init);
      var m := RunLoop(l, init);
      StepKeeps(m, events[|events|-1]);
      ContinuesTwice(l.talk.messages, m.talk.messages, RunLoop(l, events).talk.messages);
      StaysOnlySystem(l.talk.messages, RunLoop(l, events).talk.messages);
    } else {
      StaysOnlySystem(l.talk.messages, l.talk.messages);
    }
  }

  /** Once there is a terminal result nothing changes any more: it is set at most once, and nothing is dispatched after it. */
  lemma {:induction false} NothingAfterTerminal(l: Loop, events: seq<Event>, more: seq<Event>)
    requires LoopLaw(l) && RunLoop(l, events).talk.terminal.Some?
    requires OneSystem(l.talk.messages) && |l.talk.queue| <= SPEECH_MAX
    ensures RunLoop(l, events + more) == RunLoop(l, events)
    decreases |more|
  {
    hide Step, LoopLaw, OneSystem;
    if more == [] {
      assert events + more == events;
    } else {
      var init := more[..|more|-1];
      NothingAfterTerminal(l, events, init);
      assert (events + more)[..|events + more|-1] == events + init;
      RunLaw(l, events);
      StepKeeps(RunLoop(l, events), more[|more|-1]);
    }
  }

  /** The recorded outcome is `abandoned`, `error` or the name of a terminal tool, and some disposition is recorded. */
  lemma {:induction false} OutcomeLaw(l: Loop, events: seq<Event>)
    requires LoopLaw(l) && OneSystem(l.talk.messages) && |l.talk.queue| <= SPEECH_MAX
    ensures var r := RunLoop(l, events);
            var o := Classify(r.talk.terminal);
            && (o.Abandoned? <==> !r.callEnded)
            && (o.Error? <==> r.talk.terminal == Some(LLM_ERROR))
            && (o.By? ==> o.name in TERMINAL_TOOLS)
            && DispoOf(r.talk.terminal) != ""
  {
    hide RunLoop, OneSystem, Continues, FALLBACK_APOLOGY;
    RunLaw(l, events);
  }

  /** The setup of a call: the prompt, and an opener if there is one. */
  lemma {:induction false} SetupLaw(prompt: string, opener: string)
    ensures
      var t := Talk(Prompted([], prompt), [], [], 0, None, 99, 0);
      var u := if opener == "" then t else Enqueue(Add(t, Assistant(opener)), Speech(opener, false));
      var l := Loop(u, false, false, false);
      LoopLaw(l) && OneSystem(u.messages) && u.messages[0] == System(prompt) && |u.queue| <= SPEECH_MAX
  {
  }

  // ---------------------------------------------------------------------
  // The speech queue, on its own
  // ---------------------------------------------------------------------

  datatype Act = Offer(s: Speech) | Consume(n: nat)

  /** What has been taken, what waits, and how much was refused. */
  datatype Line = Line(out: seq<Speech>, queue: seq<Speech>, refused: nat)

  /** A queue of sixteen that refuses when it is full. */
  function Deal(l: Line, a: Act): Line {
    match a
    case Offer(s) => if |l.queue| == 16 then l.(refused := l.refused + 1) else l.(queue := l.queue + [s])
    case Consume(n) => var k := Min(n, |l.queue|); Line(l.out + l.queue[..k], l.queue[k..], l.refused)
  }

  function DealAll(l: Line, acts: seq<Act>): Line {
    if acts == [] then l else Deal(DealAll(l, acts[..|acts|-1]), acts[|acts|-1])
  }

  function Offers(acts: seq<Act>): seq<Speech> {
    if acts == [] then []
    else Offers(acts[..|acts|-1]) + if acts[|acts|-1].Offer? then [acts[|acts|-1].s] else []
  }

  /** What was taken and what waits are offered requests in order; the others were refused, the first of them when sixteen waited. */
  lemma {:induction false} LineLaw(l: Line, acts: seq<Act>)
    requires |l.queue| <= 16
    ensures var r := DealAll(l, acts);
            && |r.queue| <= 16 && r.refused >= l.refused
            && Subseq(r.out + r.queue, l.out + l.queue + Offers(acts))
            && |l.out| + |l.queue| + |Offers(acts)| == |r.out| + |r.queue| + (r.refused - l.refused)
            && (r.refused > l.refused ==> |l.queue| + |Offers(acts)| > 16)
            && (r.refused == l.refused ==> r.out + r.queue == l.out + l.queue + Offers(acts))
            && |r.out| >= |l.out|
  {
    var was := l.out + l.queue;
    if acts == [] {
      assert was + [] == was;
      SubseqRefl(was);
    } else {
      var init, last := acts[..|acts|-1], acts[|acts|-1];
      LineLaw(l, init);
      hide Subseq, DealAll, Offers;
      var m := DealAll(l, init);
      DealCases(l, m, was, Offers(init), last);
      LastAct(l, acts);
    }
  }

  lemma {:induction false} LastAct(l: Line, acts: seq<Act>)
    requires acts != []
    ensures DealAll(l, acts) == Deal(DealAll(l, acts[..|acts|-1]), acts[|acts|-1])
    ensures Offers(acts) == Offers(acts[..|acts|-1]) + if acts[|acts|-1].Offer? then [acts[|acts|-1].s] else []
  {
  }

  lemma {:induction false} DealCases(l: Line, m: Line, was: seq<Speech>, offered: seq<Speech>, a: Act)
    requires |l.queue| <= 16 && |m.queue| <= 16 && m.refused >= l.refused && was == l.out + l.queue
    requires Subseq(m.out + m.queue, was + offered)
    requires |was| + |offered| == |m.out| + |m.queue| + (m.refused - l.refused)
    requires m.refused > l.refused ==> |l.queue| + |offered| > 16
    requires m.refused == l.refused ==> m.out + m.queue == was + offered
    requires |m.out| >= |l.out|
    ensures var r, more := Deal(m, a), offered + if a.Offer? then [a.s] else [];
            && |r.queue| <= 16 && r.refused >= l.refused && |r.out| >= |l.out|
            && Subseq(r.out + r.queue, was + more)
            && |was| + |more| == |r.out| + |r.queue| + (r.refused - l.refused)
            && (r.refused > l.refused ==> |l.queue| + |more| > 16)
            && (r.refused == l.refused ==> r.out + r.queue == was + more)
  {
    hide Subseq;
    match a
    case Offer(s) =>
      assert was + (offered + [s]) == was + offered + [s];
      if |m.queue| == 16 {
        SubseqExtend(m.out + m.queue, was + offered, [s]);
      } else {
        SubseqAppend(m.out + m.queue, was + offered, [s]);
        assert m.out + (m.queue + [s]) == m.out + m.queue + [s];
      }
    case Consume(n) =>
      var k := Min(n, |m.queue|);
      assert m.out + m.queue[..k] + m.queue[k..] == m.out + m.queue;
      assert offered + [] == offered;
  }

  // ---------------------------------------------------------------------
  // What is written and said, told from the events alone
  // ---------------------------------------------------------------------

  /** A text with its filler, if one was drawn and the last is at least four utterances ago. */
  function WithFiller(content: string, filler: Option<string>, gap: nat): string {
    if filler.Some? && gap >= 4 then filler.value + content else content
  }

  function GapAfter(filler: Option<string>, gap: nat): nat { if filler.Some? && gap >= 4 then 0 else gap + 1 }

  /** Messages, what happens to the speech queue, and the utterances since the last filler. */
  datatype Script = Script(messages: seq<Message>, acts: seq<Act>, gap: nat)

  function Utter(c: Script, content: string, filler: Option<string>): Script {
    if content == "" then c
    else Script(c.messages + [Assistant(content)], c.acts + [Offer(Speech(WithFiller(content, filler, c.gap), false))], GapAfter(filler, c.gap))
  }

  /** A tool call: its answer, and then its acknowledgement if it ends the call, or what the model says after a search. */
  function CallScript(c: Script, w: Work): Script {
    var answered := Script(c.messages + [AnswerOf(w)], c.acts + [Consume(w.taken)], c.gap);
    if ResultOf(w).isTerminal then
      answered.(acts := answered.acts + [Offer(Speech(ResultOf(w).speak, true))])
    else if w.call.name == SearchKb then
      var asked := answered.(acts := answered.acts + [Consume(w.follow.taken)]);
      if w.follow.FollowUp? then Utter(asked, w.follow.content, w.follow.filler) else asked
    else answered
  }

  function CallsScript(c: Script, work: seq<Work>, n: nat): Script
    requires n <= |work|
  {
    if n == 0 then c else CallScript(CallsScript(c, work, n - 1), work[n - 1])
  }

  function TurnScript(c: Script, text: string, delay: nat, reply: Completion): Script {
    var asked := Script(c.messages + [User(text)], c.acts + [Consume(delay)] + [Consume(reply.taken)], c.gap);
    match reply
    case Failure(_) => asked.(acts := asked.acts + [Offer(Speech(FALLBACK_APOLOGY, true))])
    case Reply(_, content, filler, work) =>
      var said := Utter(asked, content, filler);
      if work == [] then said
      else
        var made := CallsMade(if content == "" then None else Some(content), CallsOf(work));
        CallsScript(said.(messages := said.messages + [made]), work, Handled(work))
  }

  /** The result with which a turn ends the call, if it does: of a failed completion, or of the last call dispatched. */
  function EndOf(reply: Completion): Option<ToolResult> {
    match reply
    case Failure(_) => Some(LLM_ERROR)
    case Reply(_, _, _, work) =>
      if Handled(work) > 0 && ResultOf(work[Handled(work) - 1]).isTerminal then Some(ResultOf(work[Handled(work) - 1])) else None
  }

  datatype Course = Course(script: Script, stop: bool, returned: bool, end: Option<ToolResult>)

  /** One event: an utterance is answered unless the loop has returned; a stop takes effect when the loop is about to wait. */
  function Follow(c: Course, e: Event): Course {
    if c.returned then c
    else if e.StopSet? then c.(stop := true)
    else if e.Heard? && e.text != "" then
      Course(TurnScript(c.script, e.text, e.delay, e.reply), c.stop, c.stop || EndOf(e.reply).Some?, EndOf(e.reply))
    else c.(returned := c.stop)
  }

  function FollowAll(c: Course, events: seq<Event>): Course {
    if events == [] then c else Follow(FollowAll(c, events[..|events|-1]), events[|events|-1])
  }

  function LineOf(t: Talk): Line { Line(t.out, t.queue, t.refused) }

  /** From `start` on, the talk went as the script says. */
  ghost predicate Went(start: Talk, t: Talk, c: Script) {
    && t.messages == start.messages + c.messages
    && LineOf(t) == DealAll(LineOf(start), c.acts)
    && t.sinceFiller == c.gap && |t.queue| <= SPEECH_MAX
  }

  lemma {:induction false} DealMore(l: Line, acts: seq<Act>, a: Act)
    ensures DealAll(l, acts + [a]) == Deal(DealAll(l, acts), a)
  {
    assert (acts + [a])[..|acts + [a]|-1] == acts;
  }

  lemma {:induction false} WentAdd(start: Talk, t: Talk, c: Script, m: Message)
    requires Went(start, t, c)
    ensures Went(start, Add(t, m), c.(messages := c.messages + [m]))
  {
    hide DealAll;
    assert (start.messages + c.messages) + [m] == start.messages + (c.messages + [m]);
  }

  lemma {:induction false} WentTake(start: Talk, t: Talk, c: Script, n: nat, asked: nat)
    requires Went(start, t, c)
    ensures Went(start, Taken(t.(llmCalls := asked), n), c.(acts := c.acts + [Consume(n)]))
    ensures Went(start, Taken(t, n), c.(acts := c.acts + [Consume(n)]))
  {
    hide DealAll;
    DealMore(LineOf(start), c.acts, Consume(n));
  }

  lemma {:induction false} WentOffer(start: Talk, t: Talk, c: Script, s: Speech)
    requires Went(start, t, c) && s.text != ""
    ensures Went(start, Enqueue(t, s), c.(acts := c.acts + [Offer(s)]))
    ensures forall r :: Went(start, Enqueue(t, s).(terminal := r), c.(acts := c.acts + [Offer(s)]))
    ensures forall r :: Enqueue(t.(terminal := r), s) == Enqueue(t, s).(terminal := r)
  {
    hide DealAll;
    DealMore(LineOf(start), c.acts, Offer(s));
  }

  lemma {:induction false} WentUtter(start: Talk, t: Talk, c: Script, content: string, filler: Option<string>)
    requires Went(start, t, c)
    ensures Went(start, if content == "" then t else Say(t, content, filler), Utter(c, content, filler))
  {
    if content != "" {
      WentAdd(start, t, c, Assistant(content));
      var added, cc := Add(t, Assistant(content)), c.(messages := c.messages + [Assistant(content)]);
      var gapped := added.(sinceFiller := GapAfter(filler, c.gap));
      hide DealAll, Enqueue;
      WentOffer(start, gapped, cc.(gap := GapAfter(filler, c.gap)), Speech(WithFiller(content, filler, c.gap), false));
    }
  }

  lemma {:induction false} WentCall(start: Talk, t: Talk, c: Script, w: Work)
    requires Went(start, t, c)
    ensures Went(start, Worked(t, w), CallScript(c, w))
  {
    hide Went, Say, Utter, Dispatch, Add, Taken, AnswerOf, ResultOf, Enqueue;
    WentTake(start, t, c, w.taken, 0);
    var awaited, ca := Taken(t, w.taken), c.(acts := c.acts + [Consume(w.taken)]);
    WentAdd(start, awaited, ca, AnswerOf(w));
    var answered, cb := Add(awaited, AnswerOf(w)), ca.(messages := ca.messages + [AnswerOf(w)]);
    if ResultOf(w).isTerminal {
      Acknowledged(w);
      WentOffer(start, answered, cb, Speech(ResultOf(w).speak, true));
    } else if w.call.name == SearchKb {
      WentTake(start, answered, cb, w.follow.taken, answered.llmCalls + 1);
      var asked := Taken(answered.(llmCalls := answered.llmCalls + 1), w.follow.taken);
      if w.follow.FollowUp? {
        WentUtter(start, asked, cb.(acts := cb.acts + [Consume(w.follow.taken)]), w.follow.content, w.follow.filler);
        NothingUttered(cb.(acts := cb.acts + [Consume(w.follow.taken)]), w.follow.filler);
      }
    }
  }

  lemma {:induction false} NothingUttered(c: Script, filler: Option<string>)
    ensures Utter(c, "", filler) == c
  {
  }

  lemma {:induction false} Acknowledged(w: Work)
    requires ResultOf(w).isTerminal
    ensures ResultOf(w).speak != ""
  {
    hide Dispatch;
    DispatchLaw(w.call.name, w.call.raw, w.service);
  }

  lemma {:induction false} WentCalls(start: Talk, t: Talk, c: Script, work: seq<Work>, n: nat)
    requires Went(start, t, c) && n <= |work|
    ensures Went(start, WorkedAll(t, work, n), CallsScript(c, work, n))
  {
    hide Went, Worked, CallScript;
    if n > 0 {
      WentCalls(start, t, c, work, n - 1);
      WentCall(start, WorkedAll(t, work, n - 1), CallsScript(c, work, n - 1), work[n - 1]);
    }
  }

  lemma {:induction false} WentAsked(start: Talk, t: Talk, c: Script, text: string, delay: nat, reply: Completion)
    requires Went(start, t, c)
    ensures Went(start, AskedOf(t, text, delay, reply),
                 Script(c.messages + [User(text)], c.acts + [Consume(delay)] + [Consume(reply.taken)], c.gap))
  {
    hide Went, Add, Taken;
    WentAdd(start, t, c, User(text));
    var added, ca := Add(t, User(text)), c.(messages := c.messages + [User(text)]);
    WentTake(start, added, ca, delay, 0);
    WentTake(start, Taken(added, delay), ca.(acts := ca.acts + [Consume(delay)]), reply.taken, t.llmCalls + 1);
  }

  lemma {:induction false} WentTurn(start: Talk, t: Talk, c: Script, text: string, delay: nat, reply: Completion)
    requires Went(start, t, c)
    ensures Went(start, Turn(t, text, delay, reply), TurnScript(c, text, delay, reply))
  {
    hide Went, AskedOf, Say, Utter, Add, Enqueue, WorkedAll, CallsScript, Handled, CallsOf, LLM_ERROR, FALLBACK_APOLOGY;
    WentAsked(start, t, c, text, delay, reply);
    var asked := AskedOf(t, text, delay, reply);
    var ca := Script(c.messages + [User(text)], c.acts + [Consume(delay)] + [Consume(reply.taken)], c.gap);
    match reply
    case Failure(_) =>
      WentOffer(start, asked, ca, Speech(FALLBACK_APOLOGY, true));
    case Reply(_, content, filler, work) =>
      WentUtter(start, asked, ca, content, filler);
      var said, cs := if content == "" then asked else Say(asked, content, filler), Utter(ca, content, filler);
      if work != [] {
        var made := CallsMade(if content == "" then None else Some(content), CallsOf(work));
        WentAdd(start, said, cs, made);
        WentCalls(start, Add(said, made), cs.(messages := cs.messages + [made]), work, Handled(work));
      }
  }

  /** The loop went as the course says. */
  ghost predicate LoopWent(start: Talk, l: Loop, c: Course) {
    && Went(start, l.talk, c.script) && l.stop == c.stop && l.returned == c.returned && l.talk.terminal == c.end
    && LoopLaw(l) && (l.talk.terminal.Some? ==> l.returned)
  }

  lemma {:induction false} WentStep(start: Talk, l: Loop, c: Course, e: Event)
    requires LoopWent(start, l, c)
    ensures LoopWent(start, Step(l, e), Follow(c, e))
  {
    hide Went, Turn, TurnScript, Final, Handled, ResultOf, LLM_ERROR, Grew, AnswersTo, StopsAt, Searches, Continues;
    StepKeeps(l, e);
    if !l.returned && e.Heard? && e.text != "" {
      WentTurn(start, l.talk, c.script, e.text, e.delay, e.reply);
      TurnLaw(l.talk, e.text, e.delay, e.reply);
    }
  }

  lemma {:induction false} WentAll(l: Loop, events: seq<Event>)
    requires LoopLaw(l) && |l.talk.queue| <= SPEECH_MAX
    ensures LoopWent(l.talk, RunLoop(l, events), FollowAll(Course(Script([], [], l.talk.sinceFiller), l.stop, l.returned, l.talk.terminal), events))
  {
    hide Step, Follow, LoopLaw;
    if events == [] {
      assert l.talk.messages + [] == l.talk.messages;
      assert DealAll(LineOf(l.talk), []) == LineOf(l.talk);
      Concluded(l);
    } else {
      WentAll(l, events[..|events|-1]);
      hide LoopWent;
      WentStep(l.talk, RunLoop(l, events[..|events|-1]),
               FollowAll(Course(Script([], [], l.talk.sinceFiller), l.stop, l.returned, l.talk.terminal), events[..|events|-1]), events[|events|-1]);
    }
  }

  lemma {:induction false} Concluded(l: Loop)
    requires LoopLaw(l)
    ensures l.talk.terminal.Some? ==> l.returned
  {
    hide Final;
  }

  /**
    Every run, told from the events alone: the history is the script's, and what becomes of the script's
    utterances is what a queue of sixteen makes of them: taken and waiting ones are in order, the others refused.
   */
  lemma {:induction false} SpeechLaw(l: Loop, events: seq<Event>)
    requires LoopLaw(l) && |l.talk.queue| <= SPEECH_MAX
    ensures
      var t, was := RunLoop(l, events).talk, l.talk;
      var script := FollowAll(Course(Script([], [], was.sinceFiller), l.stop, l.returned, was.terminal), events).script;
      var offered := Offers(script.acts);
      && t.messages == was.messages + script.messages
      && LineOf(t) == DealAll(LineOf(was), script.acts)
      && Subseq(t.out + t.queue, was.out + was.queue + offered)
      && |was.out| + |was.queue| + |offered| == |t.out| + |t.queue| + (t.refused - was.refused)
      && (t.refused > was.refused ==> |was.queue| + |offered| > 16)
      && (t.refused == was.refused ==> t.out + t.queue == was.out + was.queue + offered)
  {
    hide FollowAll, DealAll, Offers, LoopLaw, Subseq, RunLoop;
    WentAll(l, events);
    var script := FollowAll(Course(Script([], [], l.talk.sinceFiller), l.stop, l.returned, l.talk.terminal), events).script;
    LineLaw(LineOf(l.talk), script.acts);
  }

  /** The course of a run from a prepared talk. */
  function CourseOf(l: Loop, events: seq<Event>): Course {
    FollowAll(Course(Script([], [], l.talk.sinceFiller), l.stop, l.returned, l.talk.terminal), events)
  }

  /** The disposition of a call that a tool ends. */
  function DispoOfTool(name: Name): string {
    match name
    case TransferToIngroup => "XFER"
    case MarkDnc => "DNC"
    case ScheduleCallback => "CALLBK"
    case DisposeNotInterested => "NI"
    case DisposeQualified => "QUAL"
    case EndCall => "DONE"
    case _ => ""
  }

  /** The result names a tool that may end the call, and has its disposition. */
  ghost predicate ByItsTool(r: ToolResult) { r.success && r.name in TERMINAL_TOOLS && r.dispo == DispoOfTool(r.name) }

  lemma {:induction false} EndIsByItsTool(reply: Completion)
    requires EndOf(reply).Some? && reply.Reply?
    ensures ByItsTool(EndOf(reply).value)
  {
    hide Dispatch, Accepted, DispoOfTool, ResultLaw;
    var w := reply.work[Handled(reply.work) - 1];
    TerminalExactly(w.call.name, w.call.raw, w.service);
    TerminalTable(w.call.name, w.call.raw.args, w.service);
    DispatchLaw(w.call.name, w.call.raw, w.service);
    EndSucceeds(w);
    DisposOfTable(w.call.name);
  }

  lemma {:induction false} EndSucceeds(w: Work)
    requires ResultOf(w).isTerminal
    ensures ResultOf(w).success && ResultOf(w).name == w.call.name && w.call.name in TERMINAL_TOOLS
  {
    hide Dispatch;
    DispatchLaw(w.call.name, w.call.raw, w.service);
  }

  lemma {:induction false} DisposOfTable(name: Name)
    ensures DispoOfTool(TransferToIngroup) == "XFER" && DispoOfTool(MarkDnc) == "DNC" && DispoOfTool(ScheduleCallback) == "CALLBK"
    ensures DispoOfTool(DisposeNotInterested) == "NI" && DispoOfTool(DisposeQualified) == "QUAL" && DispoOfTool(EndCall) == "DONE"
  {
  }

  lemma {:induction false} CourseEnds(l: Loop, events: seq<Event>)
    requires l.talk.terminal.None?
    ensures var end := CourseOf(l, events).end;
            end.Some? ==> end.value == LLM_ERROR || ByItsTool(end.value)
  {
    hide TurnScript, LLM_ERROR, ByItsTool, Handled, ResultOf;
    if events != [] {
      CourseEnds(l, events[..|events|-1]);
      var e := events[|events|-1];
      if e.Heard? && EndOf(e.reply).Some? && e.reply.Reply? {
        EndIsByItsTool(e.reply);
      }
    }
  }

  /**
    How a call is recorded, told from the events alone: abandoned while nothing has ended it, an error after a
    failed completion, and otherwise by the tool that ended it, with that tool's disposition.
   */
  lemma {:induction false} RecordedOutcome(l: Loop, events: seq<Event>)
    requires LoopLaw(l) && l.talk.terminal.None? && |l.talk.queue| <= SPEECH_MAX
    ensures
      var end, t := CourseOf(l, events).end, RunLoop(l, events).talk.terminal;
      && t == end
      && (end.None? ==> Classify(t) == Abandoned && DispoOf(t) == "ABANDON")
      && (end == Some(LLM_ERROR) ==> Classify(t) == Error && DispoOf(t) == "ERROR_AI")
      && (end.Some? && end.value != LLM_ERROR ==>
            Classify(t) == By(end.value.name) && end.value.name in TERMINAL_TOOLS && DispoOf(t) == DispoOfTool(end.value.name))
  {
    hide FollowAll, LoopLaw, RunLoop, Went, DispoOfTool, FALLBACK_APOLOGY;
    WentAll(l, events);
    CourseEnds(l, events);
  }

  /** A stop takes effect when the loop is next about to wait, at the latest after the turn under way. */
  lemma {:induction false} StopEndsLoop(l: Loop, e: Event)
    requires !l.returned && !e.StopSet?
    ensures Step(Step(l, StopSet), e).returned
  {
    hide Turn;
  }
}
