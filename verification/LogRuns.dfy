/**
 Runs of the audit log: any number of concurrent requests, interleaved in any way, each tool call writing
 its line piece by piece while it holds the mutex.
 */
module LogRuns {
  import opened Text
  import opened Errors
  import opened Contracts
  import opened Sorting
  import opened Sums
  import opened Audit
  import opened Log

  /** A tool call, which is audited, or a call of another method, which passes through. */
  datatype Request = OtherMethod | ToolCall(exchange: Exchange)

  /** The line a request has to write, if any; the encoder ends it with a newline. */
  function LineOf(request: Request, stamp: Instant -> string): Option<string> {
    match request
    case OtherMethod => None
    case ToolCall(x) => Some(EncodeEvent(EventOf(x), stamp))
  }

  function LinesOf(requests: seq<Request>, stamp: Instant -> string): seq<Option<string>> {
    seq(|requests|, i requires 0 <= i < |requests| => LineOf(requests[i], stamp))
  }

  datatype Phase = Idle | Running | Waiting | Writing(written: nat) | Done

  /** `holder` holds the mutex; `order` lists the requests that have written, in that order. */
  datatype State = State(phases: seq<Phase>, holder: Option<nat>, log: string, order: seq<nat>)

  datatype Step =
    | Begin(request: nat)
    | Return(request: nat)
    | Acquire(request: nat)
    | Emit(request: nat, bytes: nat)
    | Release(request: nat)

  function Init(n: nat): State {
    State(seq(n, i => Idle), None, "", [])
  }

  /** What request `i` writes. */
  function Bytes(lines: seq<Option<string>>, i: nat): string
    requires i < |lines|
  {
    if lines[i].Some? then lines[i].value + [NEWLINE] else ""
  }

  predicate Enabled(lines: seq<Option<string>>, s: State, step: Step) {
    var i := step.request;
    && |s.phases| == |lines| && i < |lines|
    && match step
       case Begin(_) => s.phases[i].Idle?
       case Return(_) => s.phases[i].Running?
       case Acquire(_) => s.phases[i].Waiting? && s.holder.None?
       case Emit(_, bytes) => s.phases[i].Writing? && 1 <= bytes <= |Bytes(lines, i)| - s.phases[i].written
       case Release(_) => s.phases[i].Writing? && s.phases[i].written == |Bytes(lines, i)|
  }

  function Next(lines: seq<Option<string>>, s: State, step: Step): State
    requires Enabled(lines, s, step)
  {
    var i := step.request;
    match step
    case Begin(_) => s.(phases := s.phases[i := Running])
    case Return(_) => s.(phases := s.phases[i := if lines[i].Some? then Waiting else Done])
    case Acquire(_) => s.(phases := s.phases[i := Writing(0)], holder := Some(i))
    case Emit(_, bytes) =>
      var from := s.phases[i].written;
      s.(phases := s.phases[i := Writing(from + bytes)], log := s.log + Bytes(lines, i)[from..from + bytes])
    case Release(_) => s.(phases := s.phases[i := Done], holder := None, order := s.order + [i])
  }

  /** The state after a script of steps, if each is enabled in its turn. */
  function Run(lines: seq<Option<string>>, s: State, script: seq<Step>): Option<State>
    decreases |script|
  {
    if script == [] then Some(s)
    else if !Enabled(lines, s, script[0]) then None
    else Run(lines, Next(lines, s, script[0]), script[1..])
  }

  // ---------------------------------------------------------------- invariant

  /** The whole lines of the requests in `order`. */
  function Written(lines: seq<Option<string>>, order: seq<nat>): string
    requires forall k | 0 <= k < |order| :: order[k] < |lines|
    decreases |order|
  {
    if order == [] then ""
    else Written(lines, order[..|order| - 1]) + Bytes(lines, order[|order| - 1])
  }

  /** Each tool call that is done has written once, and nothing else has. */
  ghost predicate OncePerCall(lines: seq<Option<string>>, s: State) {
    && Distinct(s.order)
    && (forall k | 0 <= k < |s.order| :: s.order[k] < |lines|)
    && forall i :: i in s.order <==> 0 <= i < |s.phases| == |lines| && s.phases[i].Done? && lines[i].Some?
  }

  ghost predicate Exclusive(lines: seq<Option<string>>, s: State) {
    && |s.phases| == |lines|
    && (forall i | 0 <= i < |s.phases| :: s.phases[i].Writing? <==> s.holder == Some(i))
    && (forall i | 0 <= i < |s.phases| && (s.phases[i].Waiting? || s.phases[i].Writing?) :: lines[i].Some?)
    && (s.holder.Some? ==> s.holder.value < |s.phases|)
  }

  ghost predicate Inv(lines: seq<Option<string>>, s: State) {
    && Exclusive(lines, s)
    && OncePerCall(lines, s)
    && match s.holder
       case None => s.log == Written(lines, s.order)
       case Some(i) =>
         && s.phases[i].written <= |Bytes(lines, i)|
         && s.log == Written(lines, s.order) + Bytes(lines, i)[..s.phases[i].written]
  }

  lemma InitHolds(lines: seq<Option<string>>)
    ensures Inv(lines, Init(|lines|))
  {
  }

  lemma StepKeepsExclusion(lines: seq<Option<string>>, s: State, step: Step)
    requires Exclusive(lines, s) && Enabled(lines, s, step)
    ensures Exclusive(lines, Next(lines, s, step))
  {
    hide Bytes;
  }

  lemma StepWritesOnce(lines: seq<Option<string>>, s: State, step: Step)
    requires Exclusive(lines, s) && OncePerCall(lines, s) && Enabled(lines, s, step)
    ensures OncePerCall(lines, Next(lines, s, step))
  {
    hide Bytes;
  }

  lemma StepKeepsInvariant(lines: seq<Option<string>>, s: State, step: Step)
    requires Inv(lines, s) && Enabled(lines, s, step)
    ensures Inv(lines, Next(lines, s, step))
    ensures s.log <= Next(lines, s, step).log
  {
    hide Bytes, Written, Distinct;
    StepKeepsExclusion(lines, s, step);
    StepWritesOnce(lines, s, step);
    var i := step.request;
    var whole := Bytes(lines, i);
    match step
    case Emit(_, bytes) =>
      var from := s.phases[i].written;
      assert whole[..from + bytes] == whole[..from] + whole[from..from + bytes];
    case Release(_) =>
      assert whole[..|whole|] == whole;
      WrittenGrows(lines, s.order, i);
    case _ =>
  }

  lemma WrittenGrows(lines: seq<Option<string>>, order: seq<nat>, i: nat)
    requires i < |lines| && forall k | 0 <= k < |order| :: order[k] < |lines|
    ensures Written(lines, order + [i]) == Written(lines, order) + Bytes(lines, i)
  {
    assert (order + [i])[..|order|] == order;
  }

  lemma {:induction false} RunKeepsInvariant(lines: seq<Option<string>>, s: State, script: seq<Step>)
    requires Inv(lines, s) && Run(lines, s, script).Some?
    ensures Inv(lines, Run(lines, s, script).value)
    ensures s.log <= Run(lines, s, script).value.log
    decreases |script|
  {
    hide Inv, Enabled, Next;
    if script != [] {
      StepKeepsInvariant(lines, s, script[0]);
      RunKeepsInvariant(lines, Next(lines, s, script[0]), script[1..]);
    }
  }

  // -------------------------------------------------------------- main results

  function LinesIn(lines: seq<Option<string>>, order: seq<nat>): seq<string>
    requires forall k | 0 <= k < |order| :: order[k] < |lines| && lines[order[k]].Some?
  {
    seq(|order|, k requires 0 <= k < |order| => lines[order[k]].value)
  }

  /** Splitting what was written at its newlines gives the lines back, in order, and an empty rest. */
  lemma {:induction false} WrittenSplits(lines: seq<Option<string>>, order: seq<nat>)
    requires forall k | 0 <= k < |order| :: order[k] < |lines| && lines[order[k]].Some?
    requires forall i | 0 <= i < |lines| && lines[i].Some? :: OneLine(lines[i].value)
    ensures Split(Written(lines, order), NEWLINE) == LinesIn(lines, order) + [""]
  {
    var parts := LinesIn(lines, order) + [""];
    WrittenIsJoined(lines, order);
    forall p | p in parts ensures Lacks(p, NEWLINE) {
    }
    JoinThenSplit(parts, NEWLINE);
  }

  lemma {:induction false} WrittenIsJoined(lines: seq<Option<string>>, order: seq<nat>)
    requires forall k | 0 <= k < |order| :: order[k] < |lines| && lines[order[k]].Some?
    ensures Written(lines, order) == Join(LinesIn(lines, order) + [""], NEWLINE)
    decreases |order|
  {
    var parts := LinesIn(lines, order) + [""];
    if order != [] {
      var n := |order| - 1;
      WrittenIsJoined(lines, order[..n]);
      assert parts == LinesIn(lines, order[..n]) + [lines[order[n]].value, ""];
      JoinAppends(LinesIn(lines, order[..n]), lines[order[n]].value, NEWLINE);
    }
  }

  lemma {:induction false} JoinAppends(parts: seq<string>, last: string, sep: char)
    ensures Join(parts + [last, ""], sep) == Join(parts + [""], sep) + (last + [sep])
    decreases |parts|
  {
    if parts == [] {
      assert parts + [last, ""] == [last, ""] && parts + [""] == [""];
      assert [last, ""][1..] == [""];
    } else {
      JoinAppends(parts[1..], last, sep);
      assert (parts + [last, ""])[1..] == parts[1..] + [last, ""];
      assert (parts + [""])[1..] == parts[1..] + [""];
    }
  }

  /**
   At the end of every run the log has exactly one whole line per tool call and nothing else: its lines are
   the encoded events of the tool calls, each once, in the order in which the calls held the mutex.
   */
  lemma FinishedLogHasOneEventPerCall(requests: seq<Request>, stamp: Instant -> string, script: seq<Step>)
    returns (order: seq<nat>)
    requires var end := Run(LinesOf(requests, stamp), Init(|requests|), script);
             end.Some? && forall i | 0 <= i < |end.value.phases| :: end.value.phases[i].Done?
    ensures Distinct(order) && forall i: nat :: i in order <==> i < |requests| && requests[i].ToolCall?
    ensures var end := Run(LinesOf(requests, stamp), Init(|requests|), script).value;
            var events := Split(end.log, NEWLINE);
            && |events| == |order| + 1 && events[|order|] == ""
            && forall k | 0 <= k < |order| ::
                 order[k] < |requests| && requests[order[k]].ToolCall?
                 && events[k] == EncodeEvent(EventOf(requests[order[k]].exchange), stamp)
  {
    hide EncodeEvent, EventOf, Enabled, Next;
    var lines := LinesOf(requests, stamp);
    InitHolds(lines);
    RunKeepsInvariant(lines, Init(|requests|), script);
    var end := Run(lines, Init(|requests|), script).value;
    order := end.order;
    forall i | 0 <= i < |lines| && lines[i].Some? ensures OneLine(lines[i].value) {
      EventsAreOneLine(EventOf(requests[i].exchange), stamp);
    }
    forall k | 0 <= k < |order| ensures order[k] < |lines| && lines[order[k]].Some? {
      assert order[k] in order;
    }
    WrittenSplits(lines, order);
  }

  /** A run never gets stuck: until every request is done, some step can be taken. */
  lemma SomeStepIsEnabled(lines: seq<Option<string>>, s: State) returns (step: Step)
    requires Inv(lines, s) && exists i :: 0 <= i < |s.phases| && !s.phases[i].Done?
    ensures Enabled(lines, s, step)
  {
    var i: nat :| i < |s.phases| && !s.phases[i].Done?;
    if s.holder.Some? {
      var h := s.holder.value;
      var rest := |Bytes(lines, h)| - s.phases[h].written;
      step := if rest == 0 then Release(h) else Emit(h, rest);
    } else {
      step := if s.phases[i].Idle? then Begin(i) else if s.phases[i].Running? then Return(i) else Acquire(i);
    }
  }

  // ------------------------------------------------------------------ measure

  /** How many steps request `i` has left at most. */
  function StepsLeft(lines: seq<Option<string>>, phases: seq<Phase>, i: nat): nat
    requires i < |lines| == |phases|
  {
    var bytes := |Bytes(lines, i)|;
    match phases[i]
    case Idle => bytes + 4
    case Running => bytes + 3
    case Waiting => bytes + 2
    case Writing(written) => if written <= bytes then bytes - written + 1 else 0
    case Done => 0
  }

  function EachStepsLeft(lines: seq<Option<string>>, s: State): (left: seq<nat>)
    requires |s.phases| == |lines|
    ensures |left| == |lines| && forall i | 0 <= i < |left| :: left[i] == StepsLeft(lines, s.phases, i)
  {
    seq(|lines|, i requires 0 <= i < |lines| => StepsLeft(lines, s.phases, i))
  }

  function AllStepsLeft(lines: seq<Option<string>>, s: State): nat
    requires |s.phases| == |lines|
  {
    Sum(EachStepsLeft(lines, s))
  }

  /** Every step brings the end nearer, so every run is finite. */
  lemma StepDecreases(lines: seq<Option<string>>, s: State, step: Step)
    requires Inv(lines, s) && Enabled(lines, s, step)
    ensures |Next(lines, s, step).phases| == |lines|
    ensures AllStepsLeft(lines, Next(lines, s, step)) < AllStepsLeft(lines, s)
  {
    hide Bytes, OncePerCall, Written;
    var t, i := Next(lines, s, step), step.request;
    assert EachStepsLeft(lines, t) == EachStepsLeft(lines, s)[i := StepsLeft(lines, t.phases, i)];
    SumUpdated(EachStepsLeft(lines, s), i, StepsLeft(lines, t.phases, i));
  }
}
