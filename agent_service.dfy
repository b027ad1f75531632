/**
 * The reply-shaping logic of main.py: the `get_sales` tool, the trace filter
 * that keeps only user prompts, tool calls and tool returns from a run's new
 * messages, and the in-memory chat history that each query replaces.
 *
 * The agent run itself (the language model and its tool-calling loop) is not
 * visible; a query receives it as the function `run`. Messages are modelled
 * in their JSON form: a message may have a list of parts, and a part may have
 * a `part_kind`.
 */
module AgentService {
  import opened Wrappers

  // ---------------------------------------------------------------------------
  // The get_sales tool
  // ---------------------------------------------------------------------------

  datatype SalesData = SalesData(year: int, month: int, sales: int)

  /**
   * A synthetic sales figure: the arguments are echoed back and the figure is
   * 100 times their product. No range check is made on either argument.
   */
  function GetSales(year: int, month: int): (r: SalesData)
    ensures r.year == year && r.month == month
    ensures r.sales == 100 * year * month
    ensures r.sales == 0 <==> year == 0 || month == 0
  {
    SalesData(year, month, year * month * 100)
  }

  lemma GetSalesExample()
    ensures GetSales(2024, 3) == SalesData(2024, 3, 607200)
  {
  }

  /** Month 0 and month 13 are accepted like any other month. */
  lemma GetSalesOutOfRangeMonths(year: int)
    ensures GetSales(year, 0).sales == 0
    ensures GetSales(year, 13).sales == 1300 * year
  {
  }

  // ---------------------------------------------------------------------------
  // The trace filter
  // ---------------------------------------------------------------------------

  /** A message part; `content` stands for all of its other fields. */
  datatype Part = Part(partKind: Option<string>, content: string)

  /** A message; `parts` is `None` when the message has no "parts" key. */
  datatype Message = Message(parts: Option<seq<Part>>)

  const TraceKinds: set<string> := {"user-prompt", "tool-call", "tool-return"}

  /** A part the trace keeps: it has a kind, and the kind is one of TraceKinds. */
  predicate InTrace(p: Part) {
    p.partKind.Some? && p.partKind.value in TraceKinds
  }

  /** `msg.get("parts", [])`. */
  function PartsOf(m: Message): seq<Part> {
    if m.parts.Some? then m.parts.value else []
  }

  /** The parts of `ps` that the trace keeps, in their order. */
  function KeepTraceParts(ps: seq<Part>): (kept: seq<Part>)
    ensures |kept| <= |ps|
    ensures forall i :: 0 <= i < |kept| ==> InTrace(kept[i]) && kept[i] in ps
  {
    if ps == [] then []
    else (if InTrace(ps[0]) then [ps[0]] else []) + KeepTraceParts(ps[1..])
  }

  /** The trace of a run: message by message, the parts each one keeps. */
  function Trace(msgs: seq<Message>): (trace: seq<Part>)
    ensures forall i :: 0 <= i < |trace| ==> InTrace(trace[i])
  {
    if msgs == [] then []
    else KeepTraceParts(PartsOf(msgs[0])) + Trace(msgs[1..])
  }

  /** All parts of all messages, message order first, then part order. */
  function Flatten(msgs: seq<Message>): seq<Part> {
    if msgs == [] then [] else PartsOf(msgs[0]) + Flatten(msgs[1..])
  }

  /** `t` can be obtained from `s` by deleting elements. */
  predicate IsSubsequence(t: seq<Part>, s: seq<Part>)
    decreases |s|
  {
    if s == [] then t == []
    else (t != [] && t[0] == s[0] && IsSubsequence(t[1..], s[1..])) || IsSubsequence(t, s[1..])
  }

  lemma {:induction false} KeepDistributes(a: seq<Part>, b: seq<Part>)
    ensures KeepTraceParts(a + b) == KeepTraceParts(a) + KeepTraceParts(b)
  {
    if a != [] {
      assert (a + b)[1..] == a[1..] + b;
      KeepDistributes(a[1..], b);
    } else {
      assert a + b == b;
    }
  }

  /** The nested comprehension equals "flatten, then filter". */
  lemma {:induction false} TraceIsFilteredFlatten(msgs: seq<Message>)
    ensures Trace(msgs) == KeepTraceParts(Flatten(msgs))
  {
    if msgs != [] {
      TraceIsFilteredFlatten(msgs[1..]);
      KeepDistributes(PartsOf(msgs[0]), Flatten(msgs[1..]));
    }
  }

  /** The kept parts appear in the input in the same order: nothing is reordered. */
  lemma {:induction false} KeepIsSubsequence(ps: seq<Part>)
    ensures IsSubsequence(KeepTraceParts(ps), ps)
  {
    if ps != [] {
      KeepIsSubsequence(ps[1..]);
      var kept := KeepTraceParts(ps);
      if InTrace(ps[0]) {
        assert kept == [ps[0]] + KeepTraceParts(ps[1..]);
        assert kept[1..] == KeepTraceParts(ps[1..]);
      } else {
        assert kept == KeepTraceParts(ps[1..]);
      }
    }
  }

  /** Every qualifying part is kept as often as it occurs, and no other part is kept. */
  lemma {:induction false} KeepCounts(ps: seq<Part>, p: Part)
    ensures multiset(KeepTraceParts(ps))[p] == if InTrace(p) then multiset(ps)[p] else 0
  {
    if ps != [] {
      KeepCounts(ps[1..], p);
      assert ps == [ps[0]] + ps[1..];
    }
  }

  /** Filtering a sequence whose parts all qualify changes nothing, and only then. */
  lemma {:induction false} KeepUnchangedIffAllQualify(ps: seq<Part>)
    ensures KeepTraceParts(ps) == ps <==> forall i :: 0 <= i < |ps| ==> InTrace(ps[i])
  {
    if ps != [] {
      KeepUnchangedIffAllQualify(ps[1..]);
      if !InTrace(ps[0]) {
        assert |KeepTraceParts(ps)| < |ps|;
      }
    }
  }

  /** Re-applying the filter to a trace leaves it unchanged. */
  lemma TraceFilterIdempotent(msgs: seq<Message>)
    ensures KeepTraceParts(Trace(msgs)) == Trace(msgs)
  {
    KeepUnchangedIffAllQualify(Trace(msgs));
  }

  lemma {:induction false} TraceAppend(a: seq<Message>, b: seq<Message>)
    ensures Trace(a + b) == Trace(a) + Trace(b)
  {
    if a != [] {
      assert (a + b)[1..] == a[1..] + b;
      TraceAppend(a[1..], b);
    } else {
      assert a + b == b;
    }
  }

  /** A message with no "parts" key contributes nothing to the trace. */
  lemma PartlessMessageContributesNothing(before: seq<Message>, after: seq<Message>)
    ensures Trace(before + [Message(None)] + after) == Trace(before) + Trace(after)
  {
    TraceAppend(before + [Message(None)], after);
    TraceAppend(before, [Message(None)]);
  }

  // ---------------------------------------------------------------------------
  // The query endpoint and the chat history
  // ---------------------------------------------------------------------------

  /** Token and request counts of a run, passed through unchanged. */
  datatype Usage = Usage(requests: nat, inputTokens: nat, outputTokens: nat)

  /** What an agent run yields: its output, all messages, the new ones, its usage. */
  datatype RunResult = RunResult(output: string, allMessages: seq<Message>, newMessages: seq<Message>, usage: Usage)

  datatype AgentReply = AgentReply(output: string, trace: seq<Part>, usage: Usage)

  /** The exception a failing agent run raises; it propagates out of the query. */
  datatype RunError = RunError(message: string)

  /** The application state: one shared chat history. */
  class AppState {
    var chatHistory: seq<Message>

    /** Startup: the history starts empty. */
    constructor Startup()
      ensures chatHistory == []
    {
      chatHistory := [];
    }

    /** Shutdown: the history is cleared. */
    method Shutdown()
      modifies this
      ensures chatHistory == []
    {
      chatHistory := [];
    }

    /**
     * Runs the agent on the question and the stored history. When the run
     * succeeds, replaces the history by all of the run's messages and replies
     * with the run's output, the trace of its new messages and its usage.
     * When the run raises, the error propagates and the history is untouched.
     */
    method QueryAgent(question: string, run: (string, seq<Message>) -> Result<RunResult, RunError>)
      returns (reply: Result<AgentReply, RunError>)
      modifies this
      ensures run(question, old(chatHistory)).Failure? ==>
                reply == Failure(run(question, old(chatHistory)).error) && chatHistory == old(chatHistory)
      ensures run(question, old(chatHistory)).Success? ==>
                var result := run(question, old(chatHistory)).value;
                chatHistory == result.allMessages &&
                reply == Success(AgentReply(result.output, Trace(result.newMessages), result.usage))
    {
      var outcome := run(question, chatHistory);
      if outcome.Failure? {
        return Failure(outcome.error);
      }
      var result := outcome.value;
      chatHistory := result.allMessages;
      var trace := Trace(result.newMessages);
      reply := Success(AgentReply(result.output, trace, result.usage));
    }
  }
}
