/**
 The fan-out shared by the Kubernetes and Flux list tools: one list request per scope and resource
 kind, the unhealthy objects with valid names collected, sorted by the composite key and cut.
 Everything here is stated about a tool and what it was answered; the adapters supply both.
 */
module Fanout {
  import opened Text
  import opened Errors
  import opened Sorting
  import opened Sums
  import opened TopList

  datatype Scope = Scope(id: string, namespace: string)

  datatype Request = Request(scope: Scope, kind: string)

  /** The decoded answer to one list request. */
  datatype Reply<I> = Fetched(items: seq<I>, continueToken: string) | Failed(error: Error)

  /** One object of a reply, with the scope identifier and kind it was listed under. */
  datatype Observed<I> = Observed(scope: string, kind: string, item: I)

  /** What an adapter plugs in: which objects to report, how, and the sort key of a report. */
  datatype Tool<!I, !R> = Tool(
    unhealthy: Observed<I> -> bool,
    name: I -> string,
    report: Observed<I> -> R,
    key: R -> string)

  ghost predicate Coherent<I(!new), R>(tool: Tool<I, R>) {
    forall o :: tool.key(tool.report(o)) == CompositeKey(o.scope, o.kind, tool.name(o.item))
  }

  function ByKey<R>(key: R -> string): (R, R) -> int {
    (a, b) => Compare(key(a), key(b))
  }

  lemma ByKeyIsTotalPreorder<R(!new)>(key: R -> string)
    ensures TotalPreorder(ByKey(key))
  {
    forall a, b ensures FlipsAt(ByKey(key), a, b) {
      CompareIsAntisymmetric(key(a), key(b));
    }
    forall a, b, c ensures TransitiveAt(ByKey(key), a, b, c) {
      if Compare(key(a), key(b)) <= 0 && Compare(key(b), key(c)) <= 0 {
        CompareIsTransitive(key(a), key(b), key(c));
      }
    }
  }

  // ------------------------------------------------------------ what is asked

  function ScopeRequests(scope: Scope, kinds: seq<string>): seq<Request> {
    seq(|kinds|, i requires 0 <= i < |kinds| => Request(scope, kinds[i]))
  }

  /** Every scope with every kind, in the order the tools ask. */
  function Requests(scopes: seq<Scope>, kinds: seq<string>): seq<Request> {
    if scopes == [] then []
    else Requests(scopes[..|scopes| - 1], kinds) + ScopeRequests(scopes[|scopes| - 1], kinds)
  }

  // --------------------------------------------------------- what is answered

  function Tag<I>(request: Request, items: seq<I>): seq<Observed<I>> {
    seq(|items|, i requires 0 <= i < |items| => Observed(request.scope.id, request.kind, items[i]))
  }

  function ReplyItems<I>(reply: Reply<I>): seq<I> {
    if reply.Fetched? then reply.items else []
  }

  /** All the objects listed, in order. */
  function Items<I>(source: Request -> Reply<I>, requests: seq<Request>): seq<Observed<I>> {
    if requests == [] then []
    else
      var last := requests[|requests| - 1];
      Items(source, requests[..|requests| - 1]) + Tag(last, ReplyItems(source(last)))
  }

  /** The error of the first request that failed, which ends the observation. */
  function FirstFailure<I>(source: Request -> Reply<I>, requests: seq<Request>): Option<Error> {
    if requests == [] then None
    else
      var before := FirstFailure(source, requests[..|requests| - 1]);
      var last := source(requests[|requests| - 1]);
      if before.Some? then before
      else if last.Failed? then Some(last.error)
      else None
  }

  /** Some list was cut by the source. */
  predicate Continued<I>(source: Request -> Reply<I>, requests: seq<Request>) {
    exists r | r in requests :: source(r).Fetched? && source(r).continueToken != ""
  }

  predicate Misnamed<I, R>(tool: Tool<I, R>, o: Observed<I>) {
    tool.unhealthy(o) && !ValidObjectName(tool.name(o.item))
  }

  predicate Reportable<I, R>(tool: Tool<I, R>, o: Observed<I>) {
    tool.unhealthy(o) && ValidObjectName(tool.name(o.item))
  }

  /** The reports of the reportable objects, in the order they were listed. */
  function Candidates<I, R>(tool: Tool<I, R>, items: seq<Observed<I>>): seq<R> {
    if items == [] then []
    else
      var before, last := Candidates(tool, items[..|items| - 1]), items[|items| - 1];
      if Reportable(tool, last) then before + [tool.report(last)] else before
  }

  function Positions<I>(p: Observed<I> -> bool, items: seq<Observed<I>>): set<int> {
    set i | 0 <= i < |items| && p(items[i])
  }

  /** How many of the objects satisfy `p`. */
  function Count<I>(p: Observed<I> -> bool, items: seq<Observed<I>>): nat {
    |Positions(p, items)|
  }

  function MisnamedBy<I, R>(tool: Tool<I, R>): Observed<I> -> bool {
    o => Misnamed(tool, o)
  }

  predicate AnyMisnamed<I(==), R>(tool: Tool<I, R>, items: seq<Observed<I>>) {
    exists o | o in items :: Misnamed(tool, o)
  }

  /** Something that is unhealthy may be missing from the candidates. */
  predicate Incomplete<I(==), R>(tool: Tool<I, R>, source: Request -> Reply<I>, requests: seq<Request>) {
    Continued(source, requests) || AnyMisnamed(tool, Items(source, requests))
  }

  /** A list tool's successful result over `scopes`. */
  ghost predicate Lists<I, R(!new)>(
    tool: Tool<I, R>, source: Request -> Reply<I>, scopes: seq<Scope>, kinds: seq<string>, limit: nat,
    kept: seq<R>, truncated: bool)
  {
    var requests := Requests(scopes, kinds);
    && FirstFailure(source, requests).None?
    && IsListing(ByKey(tool.key), Candidates(tool, Items(source, requests)),
                 Incomplete(tool, source, requests), limit, kept, truncated)
  }

  // ------------------------------------------------------------------ loops

  /** The state of a list tool's loops once the requests `done` are answered. */
  ghost predicate Gathered<I(!new), R>(
    tool: Tool<I, R>, replies: Request -> Reply<I>, done: seq<Request>, reports: seq<R>, truncated: bool)
  {
    && FirstFailure(replies, done).None?
    && reports == Candidates(tool, Items(replies, done))
    && (truncated <==> Incomplete(tool, replies, done))
  }

  lemma NothingGathered<I(!new), R>(tool: Tool<I, R>, replies: Request -> Reply<I>)
    ensures Gathered(tool, replies, [], [], false)
  {
  }

  /** One turn of the loops. */
  lemma GatheredNext<I(!new), R>(
    tool: Tool<I, R>, replies: Request -> Reply<I>, done: seq<Request>, request: Request,
    reports: seq<R>, truncated: bool, more: seq<R>, dropped: bool)
    requires Gathered(tool, replies, done, reports, truncated)
    requires var items := Tag(request, ReplyItems(replies(request)));
             more == Candidates(tool, items) && (dropped <==> AnyMisnamed(tool, items))
    ensures replies(request).Failed? ==> FirstFailure(replies, done + [request]) == Some(replies(request).error)
    ensures replies(request).Fetched? ==>
              Gathered(tool, replies, done + [request], reports + more,
                       truncated || replies(request).continueToken != "" || dropped)
  {
    NextRequest(replies, done, request);
    CandidatesConcat(tool, Items(replies, done), Tag(request, ReplyItems(replies(request))));
  }

  /** The state of the totals tool's loops once the requests `done` are answered. */
  ghost predicate Counted<I(!new)>(
    unhealthy: Observed<I> -> bool, replies: Request -> Reply<I>, done: seq<Request>,
    partial: bool, total: nat, ready: nat, bad: nat)
  {
    && FirstFailure(replies, done).None?
    && (partial <==> Continued(replies, done))
    && total == |Items(replies, done)| == ready + bad
    && bad == Count(unhealthy, Items(replies, done))
  }

  lemma NothingCounted<I(!new)>(unhealthy: Observed<I> -> bool, replies: Request -> Reply<I>)
    ensures Counted(unhealthy, replies, [], false, 0, 0, 0)
  {
    assert Positions(unhealthy, Items(replies, [])) == {};
  }

  lemma CountedNext<I(!new)>(
    unhealthy: Observed<I> -> bool, replies: Request -> Reply<I>, done: seq<Request>, request: Request,
    partial: bool, total: nat, ready: nat, bad: nat, t: nat, r: nat, b: nat)
    requires Counted(unhealthy, replies, done, partial, total, ready, bad)
    requires t == |ReplyItems(replies(request))| == r + b
    requires b == Count(unhealthy, Tag(request, ReplyItems(replies(request))))
    ensures replies(request).Failed? ==> FirstFailure(replies, done + [request]) == Some(replies(request).error)
    ensures replies(request).Fetched? ==>
              Counted(unhealthy, replies, done + [request], partial || replies(request).continueToken != "",
                      total + t, ready + r, bad + b)
  {
    NextRequest(replies, done, request);
    CountConcat(unhealthy, Items(replies, done), Tag(request, ReplyItems(replies(request))));
  }

  /** What one more request adds. */
  lemma NextRequest<I(!new)>(replies: Request -> Reply<I>, done: seq<Request>, request: Request)
    ensures Items(replies, done + [request])
         == Items(replies, done) + Tag(request, ReplyItems(replies(request)))
    ensures FirstFailure(replies, done).None? && replies(request).Fetched? ==>
              FirstFailure(replies, done + [request]).None?
    ensures FirstFailure(replies, done).None? && replies(request).Failed? ==>
              FirstFailure(replies, done + [request]) == Some(replies(request).error)
    ensures Continued(replies, done + [request]) <==>
              || Continued(replies, done)
              || (replies(request).Fetched? && replies(request).continueToken != "")
  {
    assert (done + [request])[..|done + [request]| - 1] == done;
  }

  /** The position of the loops: `done` are the first `n` requests, and `request` is the next. */
  lemma StepThroughThree(scopes: seq<Scope>, kinds: seq<string>, i: nat, j: nat, done: seq<Request>)
    requires i < |scopes| && j < 3 == |kinds|
    requires 3 * i + j <= |Requests(scopes, kinds)| && done == Requests(scopes, kinds)[..3 * i + j]
    ensures |Requests(scopes, kinds)| == 3 * |scopes|
    ensures done + [Request(scopes[i], kinds[j])] == Requests(scopes, kinds)[..3 * i + j + 1]
  {
    RequestAt(scopes, kinds, i, j);
  }

  // ----------------------------------------------------------------- structure

  /** `o` was listed in answer to `r`. */
  ghost predicate ListedBy<I>(source: Request -> Reply<I>, r: Request, o: Observed<I>) {
    o.scope == r.scope.id && o.kind == r.kind && o.item in ReplyItems(source(r))
  }

  lemma {:induction false} RequestsMembers(scopes: seq<Scope>, kinds: seq<string>)
    ensures forall r :: r in Requests(scopes, kinds) <==> r.scope in scopes && r.kind in kinds
  {
    if scopes != [] {
      var n := |scopes| - 1;
      RequestsMembers(scopes[..n], kinds);
      assert scopes == scopes[..n] + [scopes[n]];
      forall r ensures r in ScopeRequests(scopes[n], kinds) <==> r.scope == scopes[n] && r.kind in kinds {
        if r.scope == scopes[n] && r.kind in kinds {
          var i :| 0 <= i < |kinds| && kinds[i] == r.kind;
          assert ScopeRequests(scopes[n], kinds)[i] == r;
        }
      }
    }
  }

  /** The requests in order: all kinds of the first scope, then of the next. */
  lemma {:induction false} RequestAt(scopes: seq<Scope>, kinds: seq<string>, i: nat, j: nat)
    requires i < |scopes| && j < |kinds|
    ensures |Requests(scopes, kinds)| == |scopes| * |kinds|
    ensures i * |kinds| + j < |scopes| * |kinds|
    ensures Requests(scopes, kinds)[i * |kinds| + j] == Request(scopes[i], kinds[j])
    decreases |scopes|
  {
    var n := |scopes| - 1;
    RequestsLength(scopes[..n], kinds);
    RequestsLength(scopes, kinds);
    assert |scopes| * |kinds| == n * |kinds| + |kinds|;
    if i < n {
      RequestAt(scopes[..n], kinds, i, j);
    }
  }

  /** Distinct scopes and kinds give distinct requests, position by position. */
  lemma {:induction false} RequestsAreDistinct(scopes: seq<Scope>, kinds: seq<string>)
    requires Distinct(scopes) && Distinct(kinds)
    ensures Distinct(Requests(scopes, kinds))
    decreases |scopes|
  {
    if scopes != [] {
      var n := |scopes| - 1;
      RequestsAreDistinct(scopes[..n], kinds);
      RequestsMembers(scopes[..n], kinds);
      var before, last := Requests(scopes[..n], kinds), ScopeRequests(scopes[n], kinds);
      forall i, j | 0 <= i < |before| && 0 <= j < |last| ensures before[i] != last[j] {
        assert before[i] in before;
        assert before[i].scope != scopes[n];
      }
    }
  }

  lemma ThreePerScope(scopes: seq<Scope>, kinds: seq<string>)
    requires |kinds| == 3
    ensures |Requests(scopes, kinds)| == 3 * |scopes|
  {
    RequestsLength(scopes, kinds);
  }

  lemma {:induction false} RequestsLength(scopes: seq<Scope>, kinds: seq<string>)
    ensures |Requests(scopes, kinds)| == |scopes| * |kinds|
  {
    if scopes != [] {
      var n := |scopes| - 1;
      RequestsLength(scopes[..n], kinds);
      assert |scopes| * |kinds| == n * |kinds| + |kinds|;
    }
  }

  lemma {:induction false} RequestsConcat(a: seq<Scope>, b: seq<Scope>, kinds: seq<string>)
    ensures Requests(a + b, kinds) == Requests(a, kinds) + Requests(b, kinds)
    decreases |b|
  {
    hide ScopeRequests;
    if b == [] {
      assert a + b == a;
    } else {
      var n := |b| - 1;
      RequestsConcat(a, b[..n], kinds);
      assert (a + b)[..|a + b| - 1] == a + b[..n];
    }
  }

  lemma {:induction false} ItemsConcat<I>(source: Request -> Reply<I>, a: seq<Request>, b: seq<Request>)
    ensures Items(source, a + b) == Items(source, a) + Items(source, b)
    decreases |b|
  {
    hide Tag, ReplyItems;
    if b == [] {
      assert a + b == a;
    } else {
      ItemsConcat(source, a, b[..|b| - 1]);
      assert (a + b)[..|a + b| - 1] == a + b[..|b| - 1];
    }
  }

  lemma {:induction false} ItemsMembers<I>(source: Request -> Reply<I>, requests: seq<Request>)
    ensures forall o ::
              o in Items(source, requests) <==>
              (exists r | r in requests :: ListedBy(source, r, o))
  {
    if requests != [] {
      var n := |requests| - 1;
      var before, last := requests[..n], requests[n];
      ItemsMembers(source, before);
      assert requests == before + [last];
      forall o ensures o in Tag(last, ReplyItems(source(last))) <==> ListedBy(source, last, o) {
        if ListedBy(source, last, o) {
          var i :| 0 <= i < |ReplyItems(source(last))| && ReplyItems(source(last))[i] == o.item;
          assert Tag(last, ReplyItems(source(last)))[i] == o;
        }
      }
    }
  }

  lemma {:induction false} CandidatesConcat<I, R>(tool: Tool<I, R>, a: seq<Observed<I>>, b: seq<Observed<I>>)
    ensures Candidates(tool, a + b) == Candidates(tool, a) + Candidates(tool, b)
    decreases |b|
  {
    if b == [] {
      assert a + b == a;
    } else {
      CandidatesConcat(tool, a, b[..|b| - 1]);
      assert (a + b)[..|a + b| - 1] == a + b[..|b| - 1];
    }
  }

  lemma {:induction false} CandidatesMembers<I, R(!new)>(tool: Tool<I, R>, items: seq<Observed<I>>)
    ensures forall x ::
              x in Candidates(tool, items) <==>
              (exists o | o in items :: Reportable(tool, o) && x == tool.report(o))
  {
    if items != [] {
      var n := |items| - 1;
      CandidatesMembers(tool, items[..n]);
      assert items == items[..n] + [items[n]];
    }
  }

  lemma CountNext<I>(p: Observed<I> -> bool, items: seq<Observed<I>>, o: Observed<I>)
    ensures Count(p, items + [o]) == Count(p, items) + if p(o) then 1 else 0
  {
    if p(o) {
      assert Positions(p, items + [o]) == Positions(p, items) + {|items|};
    } else {
      assert Positions(p, items + [o]) == Positions(p, items);
    }
  }

  lemma {:induction false} CountConcat<I>(p: Observed<I> -> bool, a: seq<Observed<I>>, b: seq<Observed<I>>)
    ensures Count(p, a + b) == Count(p, a) + Count(p, b)
    decreases |b|
  {
    if b == [] {
      assert a + b == a;
      assert Positions(p, b) == {};
    } else {
      var n := |b| - 1;
      CountConcat(p, a, b[..n]);
      CountNext(p, a + b[..n], b[n]);
      CountNext(p, b[..n], b[n]);
      assert a + b == (a + b[..n]) + [b[n]];
      assert b == b[..n] + [b[n]];
    }
  }

  lemma {:induction false} CountAtMost<I>(p: Observed<I> -> bool, items: seq<Observed<I>>)
    ensures Count(p, items) <= |items|
    ensures Count(p, items) > 0 <==> exists o | o in items :: p(o)
  {
    if items == [] {
      assert Positions(p, items) == {};
    } else {
      var n := |items| - 1;
      CountAtMost(p, items[..n]);
      CountNext(p, items[..n], items[n]);
      assert items == items[..n] + [items[n]];
    }
  }

  /** Every unhealthy object is either a candidate or misnamed. */
  lemma {:induction false} UnhealthySplit<I, R>(tool: Tool<I, R>, items: seq<Observed<I>>)
    ensures |Candidates(tool, items)| + Count(MisnamedBy(tool), items) == Count(tool.unhealthy, items)
  {
    if items == [] {
      assert Positions(tool.unhealthy, items) == Positions(MisnamedBy(tool), items) == {};
    } else {
      var n := |items| - 1;
      UnhealthySplit(tool, items[..n]);
      CountNext(tool.unhealthy, items[..n], items[n]);
      CountNext(MisnamedBy(tool), items[..n], items[n]);
      assert items == items[..n] + [items[n]];
    }
  }

  /** A failure among the first requests is the failure of all. */
  lemma FailureEndsObservation<I>(source: Request -> Reply<I>, requests: seq<Request>, n: nat)
    requires n <= |requests| && FirstFailure(source, requests[..n]).Some?
    ensures FirstFailure(source, requests) == FirstFailure(source, requests[..n])
  {
    FirstFailureConcat(source, requests[..n], requests[n..]);
    assert requests == requests[..n] + requests[n..];
  }

  /** The failure that ends an observation is one of the source. */
  lemma {:induction false} FailureIsOfSource<I>(source: Request -> Reply<I>, requests: seq<Request>)
    ensures FirstFailure(source, requests).Some? ==>
              exists r | r in requests :: source(r).Failed? && source(r).error == FirstFailure(source, requests).value
  {
    if requests != [] {
      var n := |requests| - 1;
      FailureIsOfSource(source, requests[..n]);
      if FirstFailure(source, requests[..n]).Some? {
        var r :| r in requests[..n] && source(r).Failed? && source(r).error == FirstFailure(source, requests).value;
        assert r in requests;
      } else if source(requests[n]).Failed? {
        assert requests[n] in requests;
      }
    }
  }

  /** The first request that fails decides, and an observation without one succeeds. */
  lemma {:induction false} FirstFailureAt<I>(source: Request -> Reply<I>, requests: seq<Request>, i: nat)
    requires i <= |requests| && forall j | 0 <= j < i :: source(requests[j]).Fetched?
    requires i < |requests| ==> source(requests[i]).Failed?
    ensures FirstFailure(source, requests) == if i < |requests| then Some(source(requests[i]).error) else None
  {
    if requests != [] {
      var n := |requests| - 1;
      FirstFailureAt(source, requests[..n], if i < n then i else n);
    }
  }

  // ------------------------------------------------------- answers, one by one

  /** How many objects of the answer to one request satisfy `p`. */
  function CountIn<I>(p: Observed<I> -> bool, source: Request -> Reply<I>, r: Request): nat {
    |set k | 0 <= k < |ReplyItems(source(r))| && p(Observed(r.scope.id, r.kind, ReplyItems(source(r))[k]))|
  }

  function EachCount<I>(p: Observed<I> -> bool, source: Request -> Reply<I>, requests: seq<Request>): (n: seq<nat>)
    ensures |n| == |requests| && forall i | 0 <= i < |n| :: n[i] == CountIn(p, source, requests[i])
  {
    seq(|requests|, i requires 0 <= i < |requests| => CountIn(p, source, requests[i]))
  }

  /** Counting over everything listed is adding up the counts of the answers. */
  lemma {:induction false} CountIsSum<I>(p: Observed<I> -> bool, source: Request -> Reply<I>, requests: seq<Request>)
    ensures Count(p, Items(source, requests)) == Sum(EachCount(p, source, requests))
  {
    if requests != [] {
      hide Count, CountIn, Tag;
      var n := |requests| - 1;
      CountIsSum(p, source, requests[..n]);
      var last := Tag(requests[n], ReplyItems(source(requests[n])));
      CountConcat(p, Items(source, requests[..n]), last);
      CountTagged(p, source, requests[n]);
      assert EachCount(p, source, requests) == EachCount(p, source, requests[..n]) + [CountIn(p, source, requests[n])];
      SumConcat(EachCount(p, source, requests[..n]), [CountIn(p, source, requests[n])]);
    } else {
      assert Positions(p, Items(source, requests)) == {};
    }
  }

  lemma CountTagged<I>(p: Observed<I> -> bool, source: Request -> Reply<I>, r: Request)
    ensures Count(p, Tag(r, ReplyItems(source(r)))) == CountIn(p, source, r)
  {
    var items := ReplyItems(source(r));
    assert Positions(p, Tag(r, items))
        == set k | 0 <= k < |items| && p(Observed(r.scope.id, r.kind, items[k]));
  }

  /** Something listed satisfies `p` iff something in an answer does. */
  lemma ListedIffAnswered<I>(
    p: Observed<I> -> bool, source: Request -> Reply<I>, scopes: seq<Scope>, kinds: seq<string>)
    ensures (exists o | o in Items(source, Requests(scopes, kinds)) :: p(o))
       <==> exists r: Request, c | r.scope in scopes && r.kind in kinds && c in ReplyItems(source(r)) ::
              p(Observed(r.scope.id, r.kind, c))
  {
    hide Items, Requests;
    RequestsMembers(scopes, kinds);
    ItemsMembers(source, Requests(scopes, kinds));
    if o :| o in Items(source, Requests(scopes, kinds)) && p(o) {
      var r :| r in Requests(scopes, kinds) && ListedBy(source, r, o);
      assert p(Observed(r.scope.id, r.kind, o.item));
    }
    forall r: Request, c | r.scope in scopes && r.kind in kinds && c in ReplyItems(source(r))
      ensures Observed(r.scope.id, r.kind, c) in Items(source, Requests(scopes, kinds))
    {
      assert ListedBy(source, r, Observed(r.scope.id, r.kind, c));
    }
  }

  /** What is reported, said of the answers. */
  lemma ReportedIffAnswered<I, R(!new)>(
    tool: Tool<I, R>, source: Request -> Reply<I>, scopes: seq<Scope>, kinds: seq<string>, x: R)
    ensures x in Candidates(tool, Items(source, Requests(scopes, kinds)))
       <==> exists r: Request, c | r.scope in scopes && r.kind in kinds && c in ReplyItems(source(r)) ::
              IsReportOf(tool, r, c, x)
  {
    hide Items, Requests, Candidates;
    CandidatesMembers(tool, Items(source, Requests(scopes, kinds)));
    ListedIffAnswered((o: Observed<I>) => Reportable(tool, o) && x == tool.report(o), source, scopes, kinds);
  }

  predicate IsReportOf<I, R(==)>(tool: Tool<I, R>, r: Request, c: I, x: R) {
    var o := Observed(r.scope.id, r.kind, c);
    Reportable(tool, o) && x == tool.report(o)
  }

  lemma {:induction false} CandidatesAreCounted<I, R>(tool: Tool<I, R>, items: seq<Observed<I>>)
    ensures |Candidates(tool, items)| == Count((o: Observed<I>) => Reportable(tool, o), items)
  {
    var p := (o: Observed<I>) => Reportable(tool, o);
    if items == [] {
      assert Positions(p, items) == {};
    } else {
      var n := |items| - 1;
      CandidatesAreCounted(tool, items[..n]);
      CountNext(p, items[..n], items[n]);
      assert items == items[..n] + [items[n]];
    }
  }

  lemma CountsAgree<I>(p: Observed<I> -> bool, q: Observed<I> -> bool, items: seq<Observed<I>>)
    requires forall o | o in items :: p(o) == q(o)
    ensures Count(p, items) == Count(q, items)
  {
    assert Positions(p, items) == Positions(q, items);
  }

  lemma {:induction false} FirstFailureConcat<I>(source: Request -> Reply<I>, a: seq<Request>, b: seq<Request>)
    ensures FirstFailure(source, a + b)
         == if FirstFailure(source, a).Some? then FirstFailure(source, a) else FirstFailure(source, b)
    decreases |b|
  {
    if b == [] {
      assert a + b == a;
    } else {
      FirstFailureConcat(source, a, b[..|b| - 1]);
      assert (a + b)[..|a + b| - 1] == a + b[..|b| - 1];
    }
  }

  // -------------------------------------------------------------- permutations

  lemma {:induction false} CandidatesPermute<I, R>(tool: Tool<I, R>, p: seq<Observed<I>>, q: seq<Observed<I>>)
    requires multiset(p) == multiset(q)
    ensures multiset(Candidates(tool, p)) == multiset(Candidates(tool, q))
    decreases |p|
  {
    SameMultiset(p, q);
    if p != [] {
      var n := |p| - 1;
      assert p == p[..n] + [p[n]];
      var a, b := TakeLastOut(p, q);
      CandidatesPermute(tool, p[..n], a + b);
      CandidatesConcat(tool, a, b);
      CandidatesConcat(tool, a, [p[n]] + b);
      CandidatesConcat(tool, [p[n]], b);
      CandidatesConcat(tool, p[..n], [p[n]]);
    }
  }

  /** The two sources answer every request alike, up to the order of the items. */
  ghost predicate SameContents<I>(s1: Request -> Reply<I>, s2: Request -> Reply<I>, requests: seq<Request>) {
    forall r | r in requests ::
      && (s1(r).Failed? || s2(r).Failed? ==> s1(r) == s2(r))
      && (s1(r).Fetched? && s2(r).Fetched? ==>
            s1(r).continueToken == s2(r).continueToken && multiset(s1(r).items) == multiset(s2(r).items))
  }

  lemma {:induction false} TagPermutes<I>(request: Request, p: seq<I>, q: seq<I>)
    requires multiset(p) == multiset(q)
    ensures multiset(Tag(request, p)) == multiset(Tag(request, q))
    decreases |p|
  {
    SameMultiset(p, q);
    if p != [] {
      var n := |p| - 1;
      assert p == p[..n] + [p[n]];
      var a, b := TakeLastOut(p, q);
      TagPermutes(request, p[..n], a + b);
      var x := Observed(request.scope.id, request.kind, p[n]);
      assert Tag(request, p) == Tag(request, p[..n]) + [x];
      assert Tag(request, q) == Tag(request, a) + [x] + Tag(request, b);
      assert Tag(request, a + b) == Tag(request, a) + Tag(request, b);
    }
  }

  lemma {:induction false} SameContentsSameItems<I>(
    s1: Request -> Reply<I>, s2: Request -> Reply<I>, requests: seq<Request>)
    requires SameContents(s1, s2, requests)
    ensures multiset(Items(s1, requests)) == multiset(Items(s2, requests))
    ensures FirstFailure(s1, requests) == FirstFailure(s2, requests)
    ensures Continued(s1, requests) <==> Continued(s2, requests)
  {
    if requests != [] {
      var n := |requests| - 1;
      assert requests == requests[..n] + [requests[n]];
      SameContentsSameItems(s1, s2, requests[..n]);
      var last := requests[n];
      TagPermutes(last, ReplyItems(s1(last)), ReplyItems(s2(last)));
    }
  }

  // ------------------------------------------------------------- main results

  /** No list has two reportable objects of one name. */
  ghost predicate UniqueNames<I, R>(tool: Tool<I, R>, source: Request -> Reply<I>, requests: seq<Request>) {
    forall r, i, j | r in requests && 0 <= i < j < |ReplyItems(source(r))| ::
      var x, y := ReplyItems(source(r))[i], ReplyItems(source(r))[j];
      Reportable(tool, Observed(r.scope.id, r.kind, x)) && Reportable(tool, Observed(r.scope.id, r.kind, y))
      ==> tool.name(x) != tool.name(y)
  }

  /** Scopes as `selectedScopes("")` gives them: identifiers, strictly ascending. */
  ghost predicate Ascending(scopes: seq<Scope>) {
    && (forall s | s in scopes :: Identifier(s.id))
    && forall i, j | 0 <= i < j < |scopes| :: Compare(scopes[i].id, scopes[j].id) < 0
  }

  ghost predicate PlainKinds(kinds: seq<string>) {
    forall k | k in kinds :: Lacks(k, NUL)
  }

  lemma AscendingIsInjective(scopes: seq<Scope>, s: Scope, t: Scope)
    requires Ascending(scopes) && s in scopes && t in scopes && s.id == t.id
    ensures s == t
  {
    var i :| 0 <= i < |scopes| && scopes[i] == s;
    var j :| 0 <= j < |scopes| && scopes[j] == t;
    CompareIsAntisymmetric(s.id, t.id);
  }

  /** Scope identifiers name scopes, and neither they nor the kinds contain a NUL. */
  ghost predicate CleanRequests(requests: seq<Request>) {
    && (forall r | r in requests :: Lacks(r.scope.id, NUL) && Lacks(r.kind, NUL))
    && forall r, q | r in requests && q in requests && r.scope.id == q.scope.id :: r.scope == q.scope
  }

  lemma AscendingScopesAreClean(scopes: seq<Scope>, kinds: seq<string>)
    requires Ascending(scopes) && PlainKinds(kinds)
    ensures CleanRequests(Requests(scopes, kinds))
  {
    RequestsMembers(scopes, kinds);
    var requests := Requests(scopes, kinds);
    forall r | r in requests ensures Lacks(r.scope.id, NUL) {
      IdentifierLacksNul(r.scope.id);
    }
    forall r, q | r in requests && q in requests && r.scope.id == q.scope.id ensures r.scope == q.scope {
      AscendingIsInjective(scopes, r.scope, q.scope);
    }
  }

  /** Where a candidate comes from. */
  lemma CandidateOrigin<I(!new), R(!new)>(
    tool: Tool<I, R>, source: Request -> Reply<I>, requests: seq<Request>, x: R)
    returns (r: Request, o: Observed<I>)
    requires x in Candidates(tool, Items(source, requests))
    ensures r in requests && ListedBy(source, r, o)
    ensures Reportable(tool, o) && x == tool.report(o)
  {
    CandidatesMembers(tool, Items(source, requests));
    o :| o in Items(source, requests) && Reportable(tool, o) && x == tool.report(o);
    ItemsMembers(source, requests);
    r :| r in requests && ListedBy(source, r, o);
  }

  /** The sort keys of reports compare like the triples of scope, kind and name. */
  lemma ReportsCompareAsTriples<I(!new), R>(tool: Tool<I, R>, o: Observed<I>, p: Observed<I>)
    requires Coherent(tool)
    requires Lacks(o.scope, NUL) && Lacks(o.kind, NUL) && Lacks(p.scope, NUL) && Lacks(p.kind, NUL)
    ensures Compare(tool.key(tool.report(o)), tool.key(tool.report(p)))
         == CompareTriples(o.scope, o.kind, tool.name(o.item), p.scope, p.kind, tool.name(p.item))
    ensures Compare(tool.key(tool.report(o)), tool.key(tool.report(p))) == 0
       <==> o.scope == p.scope && o.kind == p.kind && tool.name(o.item) == tool.name(p.item)
  {
    var n, m := tool.name(o.item), tool.name(p.item);
    CompositeKeyOrdersTriples(o.scope, o.kind, n, p.scope, p.kind, m);
    CompareIsAntisymmetric(CompositeKey(o.scope, o.kind, n), CompositeKey(p.scope, p.kind, m));
  }

  /** With unique names, two reports that share a sort key are the same report. */
  lemma UniqueNamesAreTieFree<I(!new), R(!new)>(
    tool: Tool<I, R>, source: Request -> Reply<I>, scopes: seq<Scope>, kinds: seq<string>)
    requires Coherent(tool) && Ascending(scopes) && PlainKinds(kinds)
    requires UniqueNames(tool, source, Requests(scopes, kinds))
    ensures TieFree(ByKey(tool.key), Candidates(tool, Items(source, Requests(scopes, kinds))))
  {
    AscendingScopesAreClean(scopes, kinds);
    CleanRequestsAreTieFree(tool, source, Requests(scopes, kinds));
  }

  lemma CleanRequestsAreTieFree<I(!new), R(!new)>(
    tool: Tool<I, R>, source: Request -> Reply<I>, requests: seq<Request>)
    requires Coherent(tool) && CleanRequests(requests) && UniqueNames(tool, source, requests)
    ensures TieFree(ByKey(tool.key), Candidates(tool, Items(source, requests)))
  {
    var candidates := Candidates(tool, Items(source, requests));
    forall x, y | x in candidates && y in candidates && ByKey(tool.key)(x, y) == 0 ensures x == y {
      var r, o := CandidateOrigin(tool, source, requests, x);
      var q, p := CandidateOrigin(tool, source, requests, y);
      SameKeySameObject(tool, source, requests, r, o, q, p);
    }
  }

  lemma SameKeySameObject<I(!new), R(!new)>(
    tool: Tool<I, R>, source: Request -> Reply<I>, requests: seq<Request>,
    r: Request, o: Observed<I>, q: Request, p: Observed<I>)
    requires Coherent(tool) && CleanRequests(requests) && UniqueNames(tool, source, requests)
    requires r in requests && ListedBy(source, r, o) && Reportable(tool, o)
    requires q in requests && ListedBy(source, q, p) && Reportable(tool, p)
    requires Compare(tool.key(tool.report(o)), tool.key(tool.report(p))) == 0
    ensures o == p
  {
    ReportsCompareAsTriples(tool, o, p);
    assert r == q;
    SameNameSameItem(tool, source, requests, r, o, p);
  }

  lemma SameNameSameItem<I, R>(
    tool: Tool<I, R>, source: Request -> Reply<I>, requests: seq<Request>, r: Request,
    o: Observed<I>, p: Observed<I>)
    requires UniqueNames(tool, source, requests) && r in requests
    requires Reportable(tool, o) && Reportable(tool, p) && tool.name(o.item) == tool.name(p.item)
    requires ListedBy(source, r, o) && ListedBy(source, r, p)
    ensures o == p
  {
    var items := ReplyItems(source(r));
    var i :| 0 <= i < |items| && items[i] == o.item;
    var j :| 0 <= j < |items| && items[j] == p.item;
    assert Observed(r.scope.id, r.kind, items[i]) == o && Observed(r.scope.id, r.kind, items[j]) == p;
  }

  /**
   A list result depends on the contents of the source, not on arrival order, and a smaller limit
   gives a prefix: up to reports with one sort key in general, and report by report if names are
   unique. The flags agree too, and a result that is not truncated is the whole list.
   */
  lemma ListingIsDeterminedAndMonotone<I(!new), R(!new)>(
    tool: Tool<I, R>, s1: Request -> Reply<I>, s2: Request -> Reply<I>, scopes: seq<Scope>, kinds: seq<string>,
    l1: nat, k1: seq<R>, t1: bool, l2: nat, k2: seq<R>, t2: bool)
    requires Coherent(tool) && Ascending(scopes) && PlainKinds(kinds)
    requires SameContents(s1, s2, Requests(scopes, kinds)) && l1 <= l2
    requires Lists(tool, s1, scopes, kinds, l1, k1, t1)
    requires Lists(tool, s2, scopes, kinds, l2, k2, t2)
    ensures |k1| <= |k2| && Tied(ByKey(tool.key), k1, k2[..|k1|])
    ensures UniqueNames(tool, s1, Requests(scopes, kinds)) ==> k1 <= k2
    ensures !t1 ==> |k1| == |k2| && !t2
    ensures t2 ==> t1
    ensures l1 == l2 ==> t1 == t2
  {
    hide Items, Requests, Candidates;
    var requests := Requests(scopes, kinds);
    var i1, i2 := Items(s1, requests), Items(s2, requests);
    SameContentsSameItems(s1, s2, requests);
    CandidatesPermute(tool, i1, i2);
    SameMultiset(i1, i2);
    SameMultiset(Candidates(tool, i1), Candidates(tool, i2));
    ByKeyIsTotalPreorder(tool.key);
    if UniqueNames(tool, s1, requests) {
      UniqueNamesAreTieFree(tool, s1, scopes, kinds);
    }
    TopsArePrefixes(ByKey(tool.key), Candidates(tool, i1), Candidates(tool, i2), l1, l2, k1, k2);
  }

  /** The candidates of one scope, and of the scopes one by one. */
  function ScopeGroup<I, R>(
    tool: Tool<I, R>, source: Request -> Reply<I>, scope: Scope, kinds: seq<string>): seq<R>
  {
    Candidates(tool, Items(source, Requests([scope], kinds)))
  }

  function ScopeGroups<I, R>(
    tool: Tool<I, R>, source: Request -> Reply<I>, scopes: seq<Scope>, kinds: seq<string>): (groups: seq<seq<R>>)
    ensures |groups| == |scopes|
    ensures forall i | 0 <= i < |groups| :: groups[i] == ScopeGroup(tool, source, scopes[i], kinds)
  {
    if scopes == [] then []
    else [ScopeGroup(tool, source, scopes[0], kinds)] + ScopeGroups(tool, source, scopes[1..], kinds)
  }

  lemma {:induction false} CandidatesByScope<I, R>(
    tool: Tool<I, R>, source: Request -> Reply<I>, scopes: seq<Scope>, kinds: seq<string>)
    ensures Candidates(tool, Items(source, Requests(scopes, kinds)))
         == Flatten(ScopeGroups(tool, source, scopes, kinds))
    decreases |scopes|
  {
    if scopes != [] {
      CandidatesByScope(tool, source, scopes[1..], kinds);
      assert scopes == [scopes[0]] + scopes[1..];
      CandidatesOfScopes(tool, source, scopes[0], scopes[1..], kinds);
    }
  }

  lemma CandidatesOfScopes<I, R>(
    tool: Tool<I, R>, source: Request -> Reply<I>, first: Scope, rest: seq<Scope>, kinds: seq<string>)
    ensures Candidates(tool, Items(source, Requests([first] + rest, kinds)))
         == ScopeGroup(tool, source, first, kinds) + Candidates(tool, Items(source, Requests(rest, kinds)))
  {
    hide Items, Candidates, Requests;
    var a, b := Requests([first], kinds), Requests(rest, kinds);
    RequestsConcat([first], rest, kinds);
    ItemsConcat(source, a, b);
    CandidatesConcat(tool, Items(source, a), Items(source, b));
  }

  lemma ScopesOrderReports<I(!new), R(!new)>(
    tool: Tool<I, R>, source: Request -> Reply<I>, s: Scope, t: Scope, kinds: seq<string>, x: R, y: R)
    requires Coherent(tool) && PlainKinds(kinds)
    requires Identifier(s.id) && Identifier(t.id) && Compare(s.id, t.id) < 0
    requires x in ScopeGroup(tool, source, s, kinds) && y in ScopeGroup(tool, source, t, kinds)
    ensures Compare(tool.key(x), tool.key(y)) < 0
  {
    RequestsMembers([s], kinds);
    RequestsMembers([t], kinds);
    IdentifierLacksNul(s.id);
    IdentifierLacksNul(t.id);
    var r, o := CandidateOrigin(tool, source, Requests([s], kinds), x);
    var q, p := CandidateOrigin(tool, source, Requests([t], kinds), y);
    EarlierScopeFirst(tool, o, p);
  }

  lemma EarlierScopeFirst<I(!new), R>(tool: Tool<I, R>, o: Observed<I>, p: Observed<I>)
    requires Coherent(tool)
    requires Lacks(o.scope, NUL) && Lacks(o.kind, NUL) && Lacks(p.scope, NUL) && Lacks(p.kind, NUL)
    requires Compare(o.scope, p.scope) < 0
    ensures Compare(tool.key(tool.report(o)), tool.key(tool.report(p))) < 0
  {
    ReportsCompareAsTriples(tool, o, p);
  }

  lemma ScopeGroupsOrdered<I(!new), R(!new)>(
    tool: Tool<I, R>, source: Request -> Reply<I>, scopes: seq<Scope>, kinds: seq<string>)
    requires Coherent(tool) && Ascending(scopes) && PlainKinds(kinds)
    ensures GroupsOrdered(ByKey(tool.key), ScopeGroups(tool, source, scopes, kinds))
  {
    var groups := ScopeGroups(tool, source, scopes, kinds);
    forall i, j, x, y | 0 <= i < j < |groups| && x in groups[i] && y in groups[j]
      ensures ByKey(tool.key)(x, y) <= 0
    {
      ScopesOrderReports(tool, source, scopes[i], scopes[j], kinds, x, y);
    }
  }

  /** What the tool returns scope by scope: `kept[i]` and `flags[i]` for the scope `scopes[i]` alone. */
  ghost predicate PerScope<I, R(!new)>(
    tool: Tool<I, R>, source: Request -> Reply<I>, scopes: seq<Scope>, kinds: seq<string>, limit: nat,
    kept: seq<seq<R>>, flags: seq<bool>)
  {
    && |kept| == |flags| == |scopes|
    && forall i | 0 <= i < |scopes| :: Lists(tool, source, [scopes[i]], kinds, limit, kept[i], flags[i])
  }

  /**
   Top-L distributes over scopes. Listing every scope is listing the scopes one by one, concatenating
   in scope order and cutting again: up to reports with one sort key, and report by report if names
   are unique. The flag is raised iff it is for some scope or the per-scope results together exceed the limit.
   */
  lemma ListingDistributesOverScopes<I(!new), R(!new)>(
    tool: Tool<I, R>, source: Request -> Reply<I>, scopes: seq<Scope>, kinds: seq<string>, limit: nat,
    all: seq<R>, flag: bool, kept: seq<seq<R>>, flags: seq<bool>)
    requires Coherent(tool) && Ascending(scopes) && PlainKinds(kinds)
    requires Lists(tool, source, scopes, kinds, limit, all, flag)
    requires PerScope(tool, source, scopes, kinds, limit, kept, flags)
    ensures Tied(ByKey(tool.key), all, Take(Flatten(kept), limit))
    ensures UniqueNames(tool, source, Requests(scopes, kinds)) ==> all == Take(Flatten(kept), limit)
    ensures flag <==> (exists i | 0 <= i < |flags| :: flags[i]) || |Flatten(kept)| > limit
  {
    hide Items, Requests, Candidates, Flatten, ScopeGroups;
    ByKeyIsTotalPreorder(tool.key);
    CandidatesByScope(tool, source, scopes, kinds);
    ScopeGroupsOrdered(tool, source, scopes, kinds);
    PerScopeTops(tool, source, scopes, kinds, limit, kept, flags);
    TopDistributes(ByKey(tool.key), ScopeGroups(tool, source, scopes, kinds), limit, kept, all);
    if UniqueNames(tool, source, Requests(scopes, kinds)) {
      UniqueNamesAreTieFree(tool, source, scopes, kinds);
    }
    FlagDistributes(tool, source, scopes, kinds, limit, kept, flags);
  }

  lemma FlagDistributes<I(!new), R(!new)>(
    tool: Tool<I, R>, source: Request -> Reply<I>, scopes: seq<Scope>, kinds: seq<string>, limit: nat,
    kept: seq<seq<R>>, flags: seq<bool>)
    requires PerScope(tool, source, scopes, kinds, limit, kept, flags)
    ensures Incomplete(tool, source, Requests(scopes, kinds))
            || |Flatten(ScopeGroups(tool, source, scopes, kinds))| > limit
       <==> (exists i | 0 <= i < |flags| :: flags[i]) || |Flatten(kept)| > limit
  {
    PerScopeTops(tool, source, scopes, kinds, limit, kept, flags);
    OverflowDistributes(ByKey(tool.key), ScopeGroups(tool, source, scopes, kinds), limit, kept);
    IncompleteByScope(tool, source, scopes, kinds);
  }

  lemma PerScopeTops<I(!new), R(!new)>(
    tool: Tool<I, R>, source: Request -> Reply<I>, scopes: seq<Scope>, kinds: seq<string>, limit: nat,
    kept: seq<seq<R>>, flags: seq<bool>)
    requires PerScope(tool, source, scopes, kinds, limit, kept, flags)
    ensures GroupTops(ByKey(tool.key), ScopeGroups(tool, source, scopes, kinds), limit, kept)
    ensures forall i | 0 <= i < |scopes| ::
              flags[i] <==> Incomplete(tool, source, Requests([scopes[i]], kinds))
                            || |ScopeGroups(tool, source, scopes, kinds)[i]| > limit
  {
    var groups := ScopeGroups(tool, source, scopes, kinds);
    forall i | 0 <= i < |scopes|
      ensures IsTop(ByKey(tool.key), groups[i], limit, kept[i])
      ensures flags[i] <==> Incomplete(tool, source, Requests([scopes[i]], kinds)) || |groups[i]| > limit
    {
      assert Lists(tool, source, [scopes[i]], kinds, limit, kept[i], flags[i]);
      assert groups[i] == ScopeGroup(tool, source, scopes[i], kinds);
    }
  }

  lemma {:induction false} IncompleteByScope<I(!new), R>(
    tool: Tool<I, R>, source: Request -> Reply<I>, scopes: seq<Scope>, kinds: seq<string>)
    ensures Incomplete(tool, source, Requests(scopes, kinds))
       <==> exists i | 0 <= i < |scopes| :: Incomplete(tool, source, Requests([scopes[i]], kinds))
    decreases |scopes|
  {
    if scopes != [] {
      hide Items, Requests;
      var first, rest := [scopes[0]], scopes[1..];
      assert scopes == first + rest;
      RequestsConcat(first, rest, kinds);
      ItemsConcat(source, Requests(first, kinds), Requests(rest, kinds));
      IncompleteByScope(tool, source, rest, kinds);
      assert Incomplete(tool, source, Requests(scopes, kinds))
        <==> Incomplete(tool, source, Requests(first, kinds)) || Incomplete(tool, source, Requests(rest, kinds));
      assert forall i | 0 <= i < |rest| :: rest[i] == scopes[i + 1];
      if i :| 0 <= i < |scopes| && Incomplete(tool, source, Requests([scopes[i]], kinds)) {
        if i > 0 { assert Incomplete(tool, source, Requests([rest[i - 1]], kinds)); }
      }
    }
  }

  /** Listing every scope fails iff listing one of them does, with the error of the first that fails. */
  lemma {:induction false} FailureDistributesOverScopes<I>(
    source: Request -> Reply<I>, scopes: seq<Scope>, kinds: seq<string>)
    ensures FirstFailure(source, Requests(scopes, kinds)).None?
       <==> forall i | 0 <= i < |scopes| :: FirstFailure(source, Requests([scopes[i]], kinds)).None?
    ensures forall i | 0 <= i < |scopes|
        && FirstFailure(source, Requests([scopes[i]], kinds)).Some?
        && (forall j | 0 <= j < i :: FirstFailure(source, Requests([scopes[j]], kinds)).None?) ::
          FirstFailure(source, Requests(scopes, kinds)) == FirstFailure(source, Requests([scopes[i]], kinds))
    decreases |scopes|
  {
    if scopes != [] {
      hide Requests, FirstFailure;
      var first, rest := [scopes[0]], scopes[1..];
      assert scopes == first + rest;
      RequestsConcat(first, rest, kinds);
      FirstFailureConcat(source, Requests(first, kinds), Requests(rest, kinds));
      FailureDistributesOverScopes(source, rest, kinds);
      assert forall i | 0 <= i < |rest| :: rest[i] == scopes[i + 1];
      forall i | 0 <= i < |scopes|
        && FirstFailure(source, Requests([scopes[i]], kinds)).Some?
        && (forall j | 0 <= j < i :: FirstFailure(source, Requests([scopes[j]], kinds)).None?)
        ensures FirstFailure(source, Requests(scopes, kinds)) == FirstFailure(source, Requests([scopes[i]], kinds))
      {
        if i > 0 {
          assert FirstFailure(source, Requests([scopes[0]], kinds)).None?;
          assert FirstFailure(source, Requests([rest[i - 1]], kinds)).Some?;
        }
      }
    }
  }

  /**
   The flag is exact, and the number of reports follows from totals: raised iff a list was cut by the
   source, an unhealthy object has an invalid name, or more than `limit` are left; and when it is not
   raised, every unhealthy object is reported.
   */
  lemma TruncationIsExact<I, R(!new)>(
    tool: Tool<I, R>, source: Request -> Reply<I>, scopes: seq<Scope>, kinds: seq<string>, limit: nat,
    kept: seq<R>, truncated: bool)
    requires Lists(tool, source, scopes, kinds, limit, kept, truncated)
    ensures var items := Items(source, Requests(scopes, kinds));
            var unhealthy, misnamed := Count(tool.unhealthy, items), Count(MisnamedBy(tool), items);
            && misnamed <= unhealthy
            && |kept| == (if unhealthy - misnamed <= limit then unhealthy - misnamed else limit)
            && (truncated <==>
                  || Continued(source, Requests(scopes, kinds))
                  || misnamed > 0
                  || unhealthy - misnamed > limit)
            && (!truncated ==> |kept| == unhealthy)
  {
    hide Items, Requests, Candidates, Positions;
    var items := Items(source, Requests(scopes, kinds));
    UnhealthySplit(tool, items);
    CountAtMost(MisnamedBy(tool), items);
    assert AnyMisnamed(tool, items) <==> exists o | o in items :: MisnamedBy(tool)(o);
    TopKeepsSome(ByKey(tool.key), Candidates(tool, items), limit, kept);
  }
}
