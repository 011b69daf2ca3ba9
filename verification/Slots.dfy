/**
 The request slots of a client: a channel of capacity 4 used as a counting semaphore by any number of
 concurrent requests, each of which may time out or be cancelled while it waits or while it runs.
 */
module Slots {
  import opened Errors
  import opened Sums
  import opened ToolErrors
  import Audit

  const CAPACITY := 4

  /** The two copies of the protocol report the end of a context with their own timeout value. */
  datatype Client = KubernetesAPI | SharedHTTP

  /** Why a request's context is over, if it is. */
  datatype Context = Live | TimedOut | Cancelled

  /** How far reading the body gets: it breaks off, passes the limit, or ends. */
  datatype Reading = CutOff | TooLong | Whole

  /** What the exchange over HTTP comes to. `status` and `json` are read off the headers of a response. */
  datatype Exchange =
    | NotBuilt
    | NoToken
    | NoResponse
    | Response(status: int, json: bool, body: Reading)

  /** How a request ends; no error stands for the body. */
  datatype Ending = GaveUp(error: Error) | Completed(exchange: Exchange, problem: Option<Error>)

  datatype Phase = Idle | Waiting | Holding | Finished(ending: Ending)

  datatype Request = Request(phase: Phase, context: Context, acquisitions: nat, releases: nat)

  /** `slots` is the length of the channel. */
  datatype State = State(requests: seq<Request>, slots: nat)

  datatype Step =
    | Start(request: nat)
    | Expire(request: nat)
    | Cancel(request: nat)
    | Acquire(request: nat)
    | GiveUp(request: nat)
    | Finish(request: nat, exchange: Exchange)

  /** The errors of a client, each by the name of its kind. */
  function Timeout(client: Client): Error {
    Value(if client.KubernetesAPI? then KubernetesTimeout else SourceTimeout)
  }

  function Unavailable(client: Client): Error {
    Value(if client.KubernetesAPI? then KubernetesUnavailable else SourceUnavailable)
  }

  function Rejected(client: Client): Error {
    Wrapped("status", Value(if client.KubernetesAPI? then KubernetesRejected else SourceRejected))
  }

  function NoCredential(client: Client): Error {
    Value(if client.KubernetesAPI? then KubernetesCredentialUnavailable else SourceCredentialUnavailable)
  }

  function Invalid(client: Client): Error {
    Value(if client.KubernetesAPI? then KubernetesInvalidResponse else SourceInvalidResponse)
  }

  function ContextError(client: Client, context: Context): Error {
    match context
    case Cancelled => Value(ContextCanceled)
    case TimedOut => Timeout(client)
    case Live => Unavailable(client)
  }

  /**
   The problem of an exchange, if any. Only a missing response is blamed on the context; once there is one,
   the client does not look at the context again. The media type matters to the shared client alone.
   */
  function ProblemOf(client: Client, context: Context, exchange: Exchange): Option<Error> {
    match exchange
    case NotBuilt => Some(Unavailable(client))
    case NoToken => Some(NoCredential(client))
    case NoResponse => Some(ContextError(client, context))
    case Response(status, json, body) =>
      if status < 200 || status >= 300 then Some(Rejected(client))
      else if client.SharedHTTP? && !json then Some(Invalid(client))
      else
        match body
        case CutOff => Some(Unavailable(client))
        case TooLong => Some(Invalid(client))
        case Whole => None
  }

  function Init(n: nat): State {
    State(seq(n, i => Request(Idle, Live, 0, 0)), 0)
  }

  /** The environment may end a context at any time; sending needs room and receiving needs an entry. */
  predicate Enabled(s: State, step: Step) {
    && step.request < |s.requests|
    && var r := s.requests[step.request];
       match step
       case Start(_) => r.phase.Idle?
       case Expire(_) => r.context.Live? && !r.phase.Finished?
       case Cancel(_) => r.context.Live? && !r.phase.Finished?
       case Acquire(_) => r.phase.Waiting? && s.slots < CAPACITY
       case GiveUp(_) => r.phase.Waiting? && !r.context.Live?
       case Finish(_, _) => r.phase.Holding? && s.slots > 0
  }

  function NextRequest(client: Client, r: Request, step: Step): Request {
    match step
    case Start(_) => r.(phase := Waiting)
    case Expire(_) => r.(context := TimedOut)
    case Cancel(_) => r.(context := Cancelled)
    case Acquire(_) => r.(phase := Holding, acquisitions := r.acquisitions + 1)
    case GiveUp(_) => r.(phase := Finished(GaveUp(ContextError(client, r.context))))
    case Finish(_, exchange) =>
      var ending := Completed(exchange, ProblemOf(client, r.context, exchange));
      r.(phase := Finished(ending), releases := r.releases + 1)
  }

  function Next(client: Client, s: State, step: Step): State
    requires Enabled(s, step)
  {
    State(
      s.requests[step.request := NextRequest(client, s.requests[step.request], step)],
      match step
      case Acquire(_) => s.slots + 1
      case Finish(_, _) => s.slots - 1
      case _ => s.slots)
  }

  /** The state after a script of steps, if each is enabled in its turn. */
  function Run(client: Client, s: State, script: seq<Step>): Option<State>
    decreases |script|
  {
    if script == [] then Some(s)
    else if !Enabled(s, script[0]) then None
    else Run(client, Next(client, s, script[0]), script[1..])
  }

  // ---------------------------------------------------------------- invariant

  function Held(r: Request): nat {
    if r.phase.Holding? then 1 else 0
  }

  function EachHeld(s: State): (held: seq<nat>)
    ensures |held| == |s.requests| && forall i | 0 <= i < |held| :: held[i] == Held(s.requests[i])
  {
    seq(|s.requests|, i requires 0 <= i < |s.requests| => Held(s.requests[i]))
  }

  /** The number of requests that hold a slot. */
  function CountHolding(s: State): nat {
    Sum(EachHeld(s))
  }

  /** A slot is taken once, and given back only by the one who took it. */
  predicate Balanced(r: Request) {
    match r.phase
    case Idle => r.acquisitions == 0 && r.releases == 0
    case Waiting => r.acquisitions == 0 && r.releases == 0
    case Holding => r.acquisitions == 1 && r.releases == 0
    case Finished(GaveUp(_)) => r.acquisitions == 0 && r.releases == 0
    case Finished(Completed(_, _)) => r.acquisitions == 1 && r.releases == 1
  }

  /** A request gives up only because its context is over, and says so; otherwise it reports its exchange. */
  predicate Explained(client: Client, r: Request) {
    match r.phase
    case Finished(GaveUp(error)) => !r.context.Live? && error == ContextError(client, r.context)
    case Finished(Completed(exchange, problem)) => problem == ProblemOf(client, r.context, exchange)
    case _ => true
  }

  ghost predicate Inv(client: Client, s: State) {
    && s.slots == CountHolding(s)
    && s.slots <= CAPACITY
    && forall i | 0 <= i < |s.requests| :: Balanced(s.requests[i]) && Explained(client, s.requests[i])
  }

  lemma InitHolds(client: Client, n: nat)
    ensures Inv(client, Init(n))
  {
    SumOfZeros(EachHeld(Init(n)));
  }

  lemma HoldingChanges(client: Client, s: State, step: Step)
    requires Enabled(s, step)
    ensures var r := s.requests[step.request];
            CountHolding(Next(client, s, step)) == CountHolding(s) - Held(r) + Held(NextRequest(client, r, step))
  {
    var t, k := Next(client, s, step), step.request;
    assert EachHeld(t) == EachHeld(s)[k := Held(t.requests[k])];
    SumUpdated(EachHeld(s), k, Held(t.requests[k]));
  }

  lemma StepKeepsInvariant(client: Client, s: State, step: Step)
    requires Inv(client, s) && Enabled(s, step)
    ensures Inv(client, Next(client, s, step))
  {
    hide CountHolding;
    HoldingChanges(client, s, step);
  }

  /** A request that holds a slot never waits to give it back. */
  lemma ReleaseNeverBlocks(client: Client, s: State, i: nat, exchange: Exchange)
    requires Inv(client, s) && i < |s.requests| && s.requests[i].phase.Holding?
    ensures Enabled(s, Finish(i, exchange))
  {
    SumAtLeast(EachHeld(s), i);
  }

  // -------------------------------------------------------------- main results

  /**
   Whatever the interleaving, the channel holds one entry per request that holds a slot, never more than
   its capacity; requests acquire at most once and release exactly what they acquired; and those that gave
   up report why.
   */
  lemma {:induction false} RunKeepsInvariant(client: Client, s: State, script: seq<Step>)
    requires Inv(client, s) && Run(client, s, script).Some?
    ensures Inv(client, Run(client, s, script).value)
    ensures |Run(client, s, script).value.requests| == |s.requests|
    decreases |script|
  {
    hide Inv, NextRequest;
    if script != [] {
      StepKeepsInvariant(client, s, script[0]);
      RunKeepsInvariant(client, Next(client, s, script[0]), script[1..]);
    }
  }

  /** When every request has finished the channel is empty, and a request released iff it acquired. */
  lemma FinishedRunsLeaveNoSlots(client: Client, n: nat, script: seq<Step>)
    requires var end := Run(client, Init(n), script);
             end.Some? && forall i | 0 <= i < |end.value.requests| :: end.value.requests[i].phase.Finished?
    ensures var end := Run(client, Init(n), script).value;
            && end.slots == 0 && |end.requests| == n
            && forall i | 0 <= i < n ::
                 var r := end.requests[i];
                 r.releases == r.acquisitions == if r.phase.ending.Completed? then 1 else 0
  {
    InitHolds(client, n);
    RunKeepsInvariant(client, Init(n), script);
    var end := Run(client, Init(n), script).value;
    SumOfZeros(EachHeld(end));
  }

  /** No deadlock: until all have finished, some request can go on without help from the environment. */
  lemma SomeRequestCanGoOn(client: Client, s: State) returns (step: Step)
    requires Inv(client, s) && exists i :: 0 <= i < |s.requests| && !s.requests[i].phase.Finished?
    ensures Enabled(s, step) && !step.Expire? && !step.Cancel?
  {
    if i: nat :| i < |s.requests| && s.requests[i].phase.Holding? {
      ReleaseNeverBlocks(client, s, i, NoResponse);
      return Finish(i, NoResponse);
    }
    SumOfZeros(EachHeld(s));
    var i: nat :| i < |s.requests| && !s.requests[i].phase.Finished?;
    return if s.requests[i].phase.Idle? then Start(i) else Acquire(i);
  }

  // ------------------------------------------------------------------ measure

  function StepsLeft(r: Request): nat {
    var contextSteps := if r.context.Live? then 1 else 0;
    match r.phase
    case Idle => 3 + contextSteps
    case Waiting => 2 + contextSteps
    case Holding => 1 + contextSteps
    case Finished(_) => 0
  }

  function EachStepsLeft(s: State): (left: seq<nat>)
    ensures |left| == |s.requests| && forall i | 0 <= i < |left| :: left[i] == StepsLeft(s.requests[i])
  {
    seq(|s.requests|, i requires 0 <= i < |s.requests| => StepsLeft(s.requests[i]))
  }

  function AllStepsLeft(s: State): nat {
    Sum(EachStepsLeft(s))
  }

  lemma StepDecreases(client: Client, s: State, step: Step)
    requires Enabled(s, step)
    ensures AllStepsLeft(Next(client, s, step)) < AllStepsLeft(s)
  {
    var t, k := Next(client, s, step), step.request;
    assert EachStepsLeft(t) == EachStepsLeft(s)[k := StepsLeft(t.requests[k])];
    SumUpdated(EachStepsLeft(s), k, StepsLeft(t.requests[k]));
    StepDecreasesOne(client, s, step);
  }

  lemma StepDecreasesOne(client: Client, s: State, step: Step)
    requires Enabled(s, step)
    ensures StepsLeft(NextRequest(client, s.requests[step.request], step)) < StepsLeft(s.requests[step.request])
  {
  }

  lemma {:induction false} RunLengthIsMeasured(client: Client, s: State, script: seq<Step>)
    requires Run(client, s, script).Some?
    ensures |script| + AllStepsLeft(Run(client, s, script).value) <= AllStepsLeft(s)
    decreases |script|
  {
    hide AllStepsLeft, Next, Enabled;
    if script != [] {
      StepDecreases(client, s, script[0]);
      RunLengthIsMeasured(client, Next(client, s, script[0]), script[1..]);
    }
  }

  /** No run of n requests takes more than 4n steps. */
  lemma RunsAreShort(client: Client, n: nat, script: seq<Step>)
    requires Run(client, Init(n), script).Some?
    ensures |script| <= 4 * n
  {
    hide Run;
    RunLengthIsMeasured(client, Init(n), script);
    SumAtMost(EachStepsLeft(Init(n)), 4);
  }

  // ------------------------------------------------------------------- errors

  /** The error a request ends with, if any. */
  function ErrorOf(ending: Ending): Option<Error> {
    match ending
    case GaveUp(error) => Some(error)
    case Completed(_, problem) => problem
  }

  /** The context of a request decided how it ended: it gave up waiting for a slot, or got no response. */
  predicate BlamedOnContext(ending: Ending) {
    ending.GaveUp? || ending.exchange.NoResponse?
  }

  /** A request that could not be sent, or whose body broke off after a good response began. */
  predicate BrokeOff(client: Client, ending: Ending) {
    && ending.Completed?
    && (ending.exchange.NotBuilt?
        || (ending.exchange.Response? && 200 <= ending.exchange.status < 300
            && (client.KubernetesAPI? || ending.exchange.json) && ending.exchange.body.CutOff?))
  }

  /** The sentinel of an error that is one, possibly wrapped once. */
  function SentinelOf(err: Error): Sentinel {
    match err
    case Value(s) => s
    case Wrapped(_, Value(s)) => s
    case _ => ObservationFailed
  }

  lemma SentinelOutcome(s: Sentinel, text: string)
    requires Rank(s) < 14
    ensures ToolErrorOutcome(SafeToolError(Value(s))) == Category(s)
    ensures ToolErrorOutcome(SafeToolError(Wrapped(text, Value(s)))) == Category(s)
    ensures forall t :: Is(Value(s), t) <==> t == s
    ensures forall t :: Is(Wrapped(text, Value(s)), t) <==> t == s
  {
    hide ToolErrorOutcome, SafeToolError;
    OutcomeIsCategoryOfFirstMatch(Value(s));
    WrappingIsTransparent(text, Value(s));
    assert FirstMatch(Value(s), s);
  }

  /**
   What the end of a request is classified as, in every state of every run. A timeout or a cancellation shows
   exactly if the request gave up waiting or got no response. One that strikes later, while the body is
   read, looks like an unavailable source, and while the token is fetched like a missing credential.
   */
  lemma EndingOutcome(client: Client, s: State, i: nat)
    requires Inv(client, s) && i < |s.requests|
    requires s.requests[i].phase.Finished? && ErrorOf(s.requests[i].phase.ending).Some?
    ensures var r := s.requests[i];
            var outcome := ToolErrorOutcome(SafeToolError(ErrorOf(r.phase.ending).value));
            && (outcome.AuditSourceTimeout? <==> r.context.TimedOut? && BlamedOnContext(r.phase.ending))
            && (outcome.AuditCanceled? <==> r.context.Cancelled? && BlamedOnContext(r.phase.ending))
            && (outcome.AuditSourceUnavailable? <==>
                  || BrokeOff(client, r.phase.ending)
                  || (r.context.Live? && BlamedOnContext(r.phase.ending)))
            && (outcome.AuditCredentialUnavailable? <==>
                  r.phase.ending.Completed? && r.phase.ending.exchange.NoToken?)
    ensures !Is(ErrorOf(s.requests[i].phase.ending).value, ResultTooLarge)
  {
    hide ToolErrorOutcome, SafeToolError, Is;
    var err := ErrorOf(s.requests[i].phase.ending).value;
    SentinelOutcome(SentinelOf(err), if err.Wrapped? then err.text else "");
  }

  /** The error of a context that is over is classified as what ended it, wrapped or not. */
  lemma ContextErrorIsReported(client: Client, context: Context, text: string)
    ensures var err := ContextError(client, context);
            var outcome := match context
              case TimedOut => AuditSourceTimeout
              case Cancelled => AuditCanceled
              case Live => AuditSourceUnavailable;
            && ProblemOf(client, context, NoResponse) == Some(err)
            && ToolErrorOutcome(SafeToolError(err)) == outcome
            && ToolErrorOutcome(SafeToolError(Wrapped(text, err))) == outcome
  {
    hide ToolErrorOutcome, SafeToolError, Is;
    SentinelOutcome(SentinelOf(ContextError(client, context)), text);
  }

  /** A run in which the deadline passes while the body is read. */
  const STALLED: seq<Step> := [Start(0), Acquire(0), Expire(0), Finish(0, Response(200, true, CutOff))]

  /** It times out and is classified as an unavailable source, by either client. */
  lemma StalledBodyLooksUnavailable(client: Client)
    ensures Run(client, Init(1), STALLED).Some?
    ensures var r := Run(client, Init(1), STALLED).value.requests[0];
            && r.context.TimedOut?
            && r.phase == Finished(Completed(Response(200, true, CutOff), Some(Unavailable(client))))
            && ToolErrorOutcome(SafeToolError(Unavailable(client))).AuditSourceUnavailable?
  {
    hide ToolErrorOutcome, SafeToolError, Is, Run;
    SentinelOutcome(SentinelOf(Unavailable(client)), "");
    var finish := Finish(0, Response(200, true, CutOff));
    assert STALLED == [Start(0)] + [Acquire(0), Expire(0), finish];
    assert [Acquire(0), Expire(0), finish] == [Acquire(0)] + [Expire(0), finish];
    assert [Expire(0), finish] == [Expire(0)] + [finish] && [finish] == [finish] + [];
    var s1 := FirstStep(client, Init(1), Start(0), [Acquire(0), Expire(0), finish]);
    var s2 := FirstStep(client, s1, Acquire(0), [Expire(0), finish]);
    var s3 := FirstStep(client, s2, Expire(0), [finish]);
    var s4 := FirstStep(client, s3, finish, []);
    NoSteps(client, s4);
  }

  lemma FirstStep(client: Client, s: State, step: Step, rest: seq<Step>) returns (t: State)
    requires Enabled(s, step)
    ensures t == Next(client, s, step)
    ensures Run(client, s, [step] + rest) == Run(client, t, rest)
  {
    t := Next(client, s, step);
    assert ([step] + rest)[1..] == rest;
  }

  lemma NoSteps(client: Client, s: State)
    ensures Run(client, s, []) == Some(s)
  {
  }

  /**
   The same in the audit log, where a call whose own context is over counts as canceled whatever its requests
   met. A request's context is cancelled through that of its call, but times out on its own as well.
   */
  lemma EndingEvent(
    client: Client, s: State, i: nat, texts: seq<string>, x: Audit.Exchange, isError: bool, content: Audit.Content)
    requires Inv(client, s) && i < |s.requests|
    requires s.requests[i].phase.Finished? && ErrorOf(s.requests[i].phase.ending).Some?
    requires Audit.Known(x.parameters) && (s.requests[i].context.Cancelled? ==> !x.context.Live?)
    requires var err := WrapAll(texts, ErrorOf(s.requests[i].phase.ending).value);
             x.result == Audit.ToolResult(Some(SafeToolError(err)), isError, content)
    ensures var r, outcome := s.requests[i], Audit.EventOf(x).outcome;
            && (outcome.AuditCanceled? <==> !x.context.Live?)
            && (outcome.AuditSourceTimeout? <==>
                  x.context.Live? && r.context.TimedOut? && BlamedOnContext(r.phase.ending))
            && (outcome.AuditSourceUnavailable? <==>
                  && x.context.Live?
                  && (|| BrokeOff(client, r.phase.ending)
                      || (r.context.Live? && BlamedOnContext(r.phase.ending))))
  {
    hide ToolErrorOutcome, SafeToolError, Is, Inv;
    EndingOutcome(client, s, i);
    WrapAllIsTransparent(texts, ErrorOf(s.requests[i].phase.ending).value);
  }

  /** An error wrapped on its way up any number of times. */
  function WrapAll(texts: seq<string>, err: Error): Error {
    if texts == [] then err else Wrapped(texts[0], WrapAll(texts[1..], err))
  }

  lemma {:induction false} WrapAllIsTransparent(texts: seq<string>, err: Error)
    ensures SafeToolError(WrapAll(texts, err)) == SafeToolError(err)
  {
    hide SafeToolError;
    if texts != [] {
      WrapAllIsTransparent(texts[1..], err);
      WrappingIsTransparent(texts[0], WrapAll(texts[1..], err));
    }
  }

  /** A response whose status is good, and whose media type is where that matters. */
  predicate GoodResponse(client: Client, exchange: Exchange) {
    && exchange.Response? && 200 <= exchange.status <= 299
    && (client == SharedHTTP ==> exchange.json)
  }

  /**
   How every request ends, in every state of every run: without an error exactly if a good response came with a
   whole body; rejected exactly if a response came with any other status; invalid exactly if the status was
   good but the media type wrong, for the shared client, or the body too long.
   */
  lemma EndingIsDecidedByExchange(client: Client, s: State, i: nat)
    requires Inv(client, s) && i < |s.requests| && s.requests[i].phase.Finished?
    ensures var ending := s.requests[i].phase.ending;
            ErrorOf(ending).None? <==>
              ending.Completed? && GoodResponse(client, ending.exchange) && ending.exchange.body == Whole
    ensures var ending := s.requests[i].phase.ending;
            ErrorOf(ending).Some? ==>
              var outcome := ToolErrorOutcome(SafeToolError(ErrorOf(ending).value));
              && (outcome.AuditSourceRejected? <==>
                    && ending.Completed? && ending.exchange.Response?
                    && !(200 <= ending.exchange.status <= 299))
              && (outcome.AuditInvalidSourceResponse? <==>
                    && ending.Completed? && ending.exchange.Response? && 200 <= ending.exchange.status <= 299
                    && ((client == SharedHTTP && !ending.exchange.json)
                        || (GoodResponse(client, ending.exchange) && ending.exchange.body == TooLong)))
  {
    hide ToolErrorOutcome, SafeToolError, Is, CountHolding;
    var ending := s.requests[i].phase.ending;
    if ErrorOf(ending).Some? {
      var err := ErrorOf(ending).value;
      SentinelOutcome(SentinelOf(err), if err.Wrapped? then err.text else "");
    }
  }
}
