/**
  The tools the language model may call during a call, and their dispatcher. What the outside services
  answer is a parameter.
 */
module Tools {
  import opened Common

  /** A decoded JSON argument: a string, or something else, of which only the truth value is looked at. */
  datatype Value = Text(text: string) | Other(truthy: bool)

  /** `raw_args` after decoding: not JSON at all, JSON but no object, or an object. */
  datatype RawArgs = Malformed(error: string) | NotObject | Object(args: map<string, Value>)

  /** What the service behind a tool does: it raises, or it answers `ok` or a list of results. */
  datatype Service = Service(raised: Option<string>, ok: bool, results: seq<string>)

  /** The names in the dispatch table, and every other name. */
  datatype Name =
    | SearchKb | TransferToIngroup | MarkDnc | ScheduleCallback | DisposeNotInterested | DisposeQualified | EndCall
    | Unlisted(text: string)

  datatype ToolResult = ToolResult(
    name: Name, success: bool, isTerminal: bool,
    speak: string, feedback: string, dispo: string, extra: map<string, Value>)

  datatype ToolRun = Returned(result: ToolResult) | Crashed(kind: string)

  const TERMINAL_TOOLS: set<Name> :=
    {TransferToIngroup, MarkDnc, ScheduleCallback, DisposeNotInterested, DisposeQualified, EndCall}

  type Words = s: string | s != "" witness "-"

  function Get(args: map<string, Value>, key: string): Value {
    if key in args then args[key] else Text("")
  }

  predicate Truthy(v: Value) {
    match v
    case Text(t) => t != ""
    case Other(truthy) => truthy
  }

  function Failed(name: Name, feedback: Words): ToolResult {
    ToolResult(name, false, false, "", feedback, "", map[])
  }

  function Found(feedback: Words): ToolResult {
    ToolResult(SearchKb, true, false, "", feedback, "", map[])
  }

  function Terminal(name: Name, speak: Words, dispo: Words, extra: map<string, Value>): ToolResult {
    ToolResult(name, true, true, speak, "", dispo, extra)
  }

  // Spoken acknowledgements, in short.
  const ACK_TRANSFER: Words := "transferring"
  const ACK_DNC: Words := "not calling again"
  const ACK_CALLBACK: Words := "callback scheduled"
  const ACK_NOT_INTERESTED: Words := "thanks"
  const ACK_QUALIFIED: Words := "team will call"
  const ACK_END: Words := "goodbye"

  // Feedback for the model, in short.
  const EMPTY_QUERY: Words := "Empty query."
  const NO_RESULTS: Words := "No results found."
  const NO_INGROUP: Words := "ingroup_id is required."
  const TRANSFER_FAILED: Words := "Transfer failed."
  const CALLBACK_FAILED: Words := "No callback."

  function TopResults(bullets: string): Words { "Top results:\n" + bullets }
  function UnknownTool(name: string): Words { "Unknown tool '" + name + "'." }
  function BadJson(error: string): Words { "Tool args were not valid JSON: " + error + "." }
  function ToolFailed(kind: string): Words { "Tool failed internally: " + kind + "." }

  /** `"\n".join(f"- {r}" for r in results)`. */
  function Bullets(results: seq<string>): string {
    if results == [] then ""
    else if |results| == 1 then "- " + results[0]
    else "- " + results[0] + "\n" + Bullets(results[1..])
  }

  function RunSearchKb(args: map<string, Value>, s: Service): ToolRun {
    match Get(args, "query")
    case Other(_) => Crashed("AttributeError")
    case Text(query) =>
      if Strip(query) == "" then Returned(Failed(SearchKb, EMPTY_QUERY))
      else if s.raised.Some? then Crashed(s.raised.value)
      else if s.results == [] then Returned(Found(NO_RESULTS))
      else Returned(Found(TopResults(Bullets(s.results[..Min(5, |s.results|)]))))
  }

  function RunTransfer(args: map<string, Value>, s: Service): ToolRun {
    var ingroup := Get(args, "ingroup_id");
    if !Truthy(ingroup) then Returned(Failed(TransferToIngroup, NO_INGROUP))
    else if s.raised.Some? then Crashed(s.raised.value)
    else if !s.ok then Returned(Failed(TransferToIngroup, TRANSFER_FAILED))
    else Returned(Terminal(TransferToIngroup, ACK_TRANSFER, "XFER",
      map["ingroup_id" := ingroup, "reason" := Get(args, "reason"), "summary" := Get(args, "summary_for_agent")]))
  }

  /** The answer of the service is not looked at. */
  function RunMarkDnc(args: map<string, Value>, s: Service): ToolRun {
    if s.raised.Some? then Crashed(s.raised.value)
    else Returned(Terminal(MarkDnc, ACK_DNC, "DNC", map["reason" := Get(args, "reason")]))
  }

  function RunCallback(args: map<string, Value>, s: Service): ToolRun {
    if s.raised.Some? then Crashed(s.raised.value)
    else if !s.ok then Returned(Failed(ScheduleCallback, CALLBACK_FAILED))
    else Returned(Terminal(ScheduleCallback, ACK_CALLBACK, "CALLBK",
      map["when" := Get(args, "when"), "notes" := Get(args, "notes")]))
  }

  /** `_DISPATCH[name]`, applied. */
  function RunTool(name: Name, args: map<string, Value>, s: Service): ToolRun
    requires !name.Unlisted?
  {
    match name
    case SearchKb => RunSearchKb(args, s)
    case TransferToIngroup => RunTransfer(args, s)
    case MarkDnc => RunMarkDnc(args, s)
    case ScheduleCallback => RunCallback(args, s)
    case DisposeNotInterested =>
      Returned(Terminal(name, ACK_NOT_INTERESTED, "NI", map["reason" := Get(args, "reason")]))
    case DisposeQualified =>
      Returned(Terminal(name, ACK_QUALIFIED, "QUAL", map["notes" := Get(args, "notes")]))
    case EndCall =>
      Returned(Terminal(name, ACK_END, "DONE", map["reason" := Get(args, "reason")]))
  }

  /** One `tool_call` event of the transcript. */
  datatype ToolEvent = ToolEvent(args: map<string, Value>, result: ToolResult)

  /** What a dispatch returns, and the transcript event it writes, if any. */
  datatype Dispatched = Dispatched(result: ToolResult, event: Option<ToolEvent>)

  function Dispatch(name: Name, raw: RawArgs, s: Service): Dispatched {
    if name.Unlisted? then Dispatched(Failed(name, UnknownTool(name.text)), None)
    else
      match raw
      case Malformed(error) => Dispatched(Failed(name, BadJson(error)), None)
      case NotObject =>
        // `.get` on a list or a number, inside the guarded call.
        Dispatched(Failed(name, ToolFailed("AttributeError")), None)
      case Object(args) =>
        match RunTool(name, args, s)
        case Crashed(kind) => Dispatched(Failed(name, ToolFailed(kind)), None)
        case Returned(result) => Dispatched(result, Some(ToolEvent(args, result)))
  }

  class ToolContext {
    const hasWriter: bool
    var toolCalls: multiset<Option<Name>>      // M_TOOL_CALLS by label; None for the label `unknown`
    var transcript: seq<ToolEvent>

    constructor (hasWriter: bool)
      ensures this.hasWriter == hasWriter && toolCalls == multiset{} && transcript == []
    {
      this.hasWriter := hasWriter;
      toolCalls, transcript := multiset{}, [];
    }

    /** `dispatch`: every call is counted once; only a tool that returned is written to the transcript. */
    method Run(name: Name, raw: RawArgs, s: Service) returns (result: ToolResult)
      modifies this
      ensures result == Dispatch(name, raw, s).result
      ensures toolCalls == old(toolCalls) + multiset{if name.Unlisted? then None else Some(name)}
      ensures transcript == old(transcript)
                          + if hasWriter && Dispatch(name, raw, s).event.Some? then [Dispatch(name, raw, s).event.value] else []
    {
      hide RunTool, UnknownTool, BadJson, ToolFailed;
      if name.Unlisted? {
        toolCalls := toolCalls + multiset{None};
        return Failed(name, UnknownTool(name.text));
      }
      toolCalls := toolCalls + multiset{Some(name)};
      match raw
      case Malformed(error) =>
        return Failed(name, BadJson(error));
      case NotObject =>
        return Failed(name, ToolFailed("AttributeError"));
      case Object(args) =>
        var run := RunTool(name, args, s);
        if run.Crashed? {
          return Failed(name, ToolFailed(run.kind));
        }
        result := run.result;
        if hasWriter {
          transcript := transcript + [ToolEvent(args, result)];
        }
    }
  }

  /** What a terminal tool needs of its arguments and its service in order to end the call. */
  predicate Accepted(name: Name, args: map<string, Value>, s: Service) {
    match name
    case TransferToIngroup => Truthy(Get(args, "ingroup_id")) && s.raised.None? && s.ok
    case ScheduleCallback => s.raised.None? && s.ok
    case MarkDnc => s.raised.None?
    case _ => true
  }

  /** A terminal result is a success with an acknowledgement and a disposition; any other carries feedback for the model and no disposition. */
  predicate ResultLaw(r: ToolResult) {
    if r.isTerminal then r.success && r.name in TERMINAL_TOOLS && r.speak != "" && r.dispo != ""
    else r.feedback != "" && r.dispo == "" && r.speak == "" && (r.success ==> r.name == SearchKb)
  }

  lemma {:induction false} ToolLaw(name: Name, args: map<string, Value>, s: Service)
    requires !name.Unlisted?
    ensures match RunTool(name, args, s)
            case Crashed(_) => !(name in TERMINAL_TOOLS && Accepted(name, args, s))
            case Returned(r) =>
              && (r.isTerminal <==> name in TERMINAL_TOOLS && Accepted(name, args, s))
              && r.name == name && ResultLaw(r)
  {
    hide ACK_TRANSFER, ACK_DNC, ACK_CALLBACK, ACK_NOT_INTERESTED, ACK_QUALIFIED, ACK_END, EMPTY_QUERY, NO_RESULTS,
      NO_INGROUP, TRANSFER_FAILED, CALLBACK_FAILED, TopResults;
  }

  /** A result ends the call exactly when a terminal tool was called with an object and its service went along. */
  lemma {:induction false} TerminalExactly(name: Name, raw: RawArgs, s: Service)
    ensures Dispatch(name, raw, s).result.isTerminal <==> name in TERMINAL_TOOLS && raw.Object? && Accepted(name, raw.args, s)
  {
    hide RunTool, UnknownTool, BadJson, ToolFailed, Accepted;
    if !name.Unlisted? && raw.Object? {
      ToolLaw(name, raw.args, s);
    }
  }

  lemma {:induction false} DispatchLaw(name: Name, raw: RawArgs, s: Service)
    ensures var r := Dispatch(name, raw, s).result; r.name == name && ResultLaw(r)
  {
    hide RunTool, UnknownTool, BadJson, ToolFailed, Accepted;
    if !name.Unlisted? && raw.Object? {
      ToolLaw(name, raw.args, s);
    }
  }

  /** A tool raises: its service does when it is asked, or the query is not a text. */
  predicate Raises(name: Name, args: map<string, Value>, s: Service) {
    match name
    case SearchKb => Get(args, "query").Other? || (Strip(Get(args, "query").text) != "" && s.raised.Some?)
    case TransferToIngroup => Truthy(Get(args, "ingroup_id")) && s.raised.Some?
    case MarkDnc => s.raised.Some?
    case ScheduleCallback => s.raised.Some?
    case _ => false
  }

  /** The transcript records a call of a listed tool with an object, unless the tool raises, with what it returned. */
  lemma {:induction false} RecordedExactly(name: Name, raw: RawArgs, s: Service)
    ensures var d := Dispatch(name, raw, s);
            && (d.event.Some? <==> !name.Unlisted? && raw.Object? && !Raises(name, raw.args, s))
            && (d.event.Some? ==> d.event.value == ToolEvent(raw.args, d.result))
  {
    hide UnknownTool, BadJson, ToolFailed, TopResults, Bullets, Strip;
  }

  /** A named argument as it was given, or the empty string. */
  predicate Given(v: Value, args: map<string, Value>, key: string) {
    if key in args then v == args[key] else v == Text("")
  }

  /** What ends the call, tool by tool: the disposition, and the arguments kept with it. */
  lemma {:induction false} TerminalTable(name: Name, args: map<string, Value>, s: Service)
    ensures var r := Dispatch(name, Object(args), s).result;
            r.isTerminal ==>
              match name
              case TransferToIngroup =>
                && r.dispo == "XFER" && r.speak == ACK_TRANSFER && r.extra.Keys == {"ingroup_id", "reason", "summary"}
                && Given(r.extra["ingroup_id"], args, "ingroup_id") && Given(r.extra["reason"], args, "reason")
                && Given(r.extra["summary"], args, "summary_for_agent")
              case MarkDnc => r.dispo == "DNC" && r.speak == ACK_DNC && r.extra.Keys == {"reason"} && Given(r.extra["reason"], args, "reason")
              case ScheduleCallback =>
                && r.dispo == "CALLBK" && r.speak == ACK_CALLBACK && r.extra.Keys == {"when", "notes"}
                && Given(r.extra["when"], args, "when") && Given(r.extra["notes"], args, "notes")
              case DisposeNotInterested =>
                r.dispo == "NI" && r.speak == ACK_NOT_INTERESTED && r.extra.Keys == {"reason"} && Given(r.extra["reason"], args, "reason")
              case DisposeQualified =>
                r.dispo == "QUAL" && r.speak == ACK_QUALIFIED && r.extra.Keys == {"notes"} && Given(r.extra["notes"], args, "notes")
              case EndCall =>
                r.dispo == "DONE" && r.speak == ACK_END && r.extra.Keys == {"reason"} && Given(r.extra["reason"], args, "reason")
              case _ => false
  {
    hide ACK_TRANSFER, ACK_DNC, ACK_CALLBACK, ACK_NOT_INTERESTED, ACK_QUALIFIED, ACK_END, UnknownTool, ToolFailed;
    if name == SearchKb {
      SearchNeverEnds(args, s);
    }
  }

  lemma {:induction false} SearchNeverEnds(args: map<string, Value>, s: Service)
    ensures !Dispatch(SearchKb, Object(args), s).result.isTerminal
  {
    hide UnknownTool, ToolFailed, TopResults, Bullets;
  }

  /** A list of results is shown line by line, in order. */
  lemma {:induction false} BulletsInOrder(a: seq<string>, b: seq<string>)
    requires a != [] && b != []
    ensures Bullets(a + b) == Bullets(a) + ("\n" + Bullets(b))
  {
    if |a| == 1 {
      assert (a + b)[1..] == b;
    } else {
      assert (a + b)[1..] == a[1..] + b;
      BulletsInOrder(a[1..], b);
      assert "- " + a[0] + "\n" + (Bullets(a[1..]) + ("\n" + Bullets(b))) == ("- " + a[0] + "\n" + Bullets(a[1..])) + ("\n" + Bullets(b));
    }
  }

  lemma {:induction false} OneBullet(r: string)
    ensures Bullets([r]) == "- " + r
  {
  }

  /** A search that finds something succeeds and shows at most the first five results; one without a query is not made. */
  lemma {:induction false} SearchShowsFive(query: string, results: seq<string>)
    ensures var r := Dispatch(SearchKb, Object(map["query" := Text(query)]), Service(None, true, results)).result;
            if (forall c <- query :: IsSpace(c)) then r == Failed(SearchKb, EMPTY_QUERY)
            else if results == [] then r == Found(NO_RESULTS)
            else exists k :: 1 <= k <= |results| && k <= 5 && (k < 5 ==> k == |results|) && r == Found(TopResults(Bullets(results[..k])))
  {
    hide EMPTY_QUERY, NO_RESULTS, TopResults, Bullets, IsSpace;
    BlankExactly(query);
    if results != [] {
      var k := Min(5, |results|);
      assert 1 <= k <= |results| && k <= 5 && (k < 5 ==> k == |results|);
    }
  }

  lemma {:induction false} BlankExactly(s: string)
    ensures Strip(s) == "" <==> forall c <- s :: IsSpace(c)
  {
    hide IsSpace;
    var l, r := StripParts(s);
    if Strip(s) == "" {
      assert s == l + r;
    } else {
      assert Strip(s)[0] in s;
    }
  }

  /** The caller is told about the do-not-call list, and the call is disposed as such, even if the service refused. */
  lemma {:induction false} DncIgnoresRefusal(args: map<string, Value>, results: seq<string>)
    ensures var refused := Dispatch(MarkDnc, Object(args), Service(None, false, results));
            && refused == Dispatch(MarkDnc, Object(args), Service(None, true, results))
            && refused.result.speak == ACK_DNC && refused.result.dispo == "DNC"
  {
    hide ACK_DNC;
  }
}
