/**
 The active-alert list: redaction of names outside the pattern, the four-level order, and the cut.
 */
module Alerts {
  import opened Text
  import opened Errors
  import opened Contracts
  import opened Policy
  import opened Encoding
  import opened Sorting
  import opened TopList

  /** A decoded source alert, with its start as parsed to UTC, if it parses. */
  datatype SourceAlert = SourceAlert(name: string, severity: string, startsAt: Option<Instant>)

  const UNKNOWN := "unknown"

  function ComponentOf(components: map<string, string>, name: string): string {
    if name in components then components[name] else ""
  }

  /** What is kept of one alert. */
  function Redact(components: map<string, string>, a: SourceAlert): ActiveAlert {
    if AlertName(a.name) then
      ActiveAlert(a.name, NormalizeAlertSeverity(a.severity), ComponentOf(components, a.name), a.startsAt)
    else
      ActiveAlert(UNKNOWN, NormalizeAlertSeverity(a.severity), "", a.startsAt)
  }

  function RedactAll(components: map<string, string>, alerts: seq<SourceAlert>): (r: seq<ActiveAlert>)
    ensures |r| == |alerts|
  {
    if alerts == [] then []
    else RedactAll(components, alerts[..|alerts| - 1]) + [Redact(components, alerts[|alerts| - 1])]
  }

  // -------------------------------------------------------------------- order

  function SeverityRank(severity: AlertSeverity): int {
    match severity
    case Critical => 0
    case Warning => 1
    case Info => 2
    case SeverityUnknown => 3
  }

  /** Alerts with a start come before alerts without, earlier starts first. */
  function CompareStarts(a: Option<Instant>, b: Option<Instant>): int {
    if a.None? && b.Some? then 1
    else if a.Some? && b.None? then -1
    else if a.None? then 0
    else if a.value < b.value then -1
    else if a.value > b.value then 1
    else 0
  }

  function CompareAlerts(a: ActiveAlert, b: ActiveAlert): int {
    if SeverityRank(a.severity) != SeverityRank(b.severity) then
      SeverityRank(a.severity) - SeverityRank(b.severity)
    else if Compare(a.name, b.name) != 0 then Compare(a.name, b.name)
    else CompareStarts(a.startedAt, b.startedAt)
  }

  /** A total preorder whose ties agree on everything but the component. */
  lemma CompareAlertsIsTotalPreorder()
    ensures TotalPreorder(CompareAlerts)
    ensures forall a, b :: CompareAlerts(a, b) == 0
                      <==> a.severity == b.severity && a.name == b.name && a.startedAt == b.startedAt
  {
    forall a, b
      ensures FlipsAt(CompareAlerts, a, b)
      ensures CompareAlerts(a, b) == 0 <==> a.severity == b.severity && a.name == b.name && a.startedAt == b.startedAt
    {
      CompareIsAntisymmetric(a.name, b.name);
    }
    forall a, b, c ensures TransitiveAt(CompareAlerts, a, b, c) {
      if CompareAlerts(a, b) <= 0 && CompareAlerts(b, c) <= 0 {
        CompareAlertsIsTransitive(a, b, c);
      }
    }
  }

  lemma CompareAlertsIsTransitive(a: ActiveAlert, b: ActiveAlert, c: ActiveAlert)
    requires CompareAlerts(a, b) <= 0 && CompareAlerts(b, c) <= 0
    ensures CompareAlerts(a, c) <= 0
  {
    hide Compare;
    CompareIsAntisymmetric(a.name, b.name);
    CompareIsAntisymmetric(b.name, c.name);
    CompareIsAntisymmetric(a.name, c.name);
    if Compare(a.name, b.name) <= 0 && Compare(b.name, c.name) <= 0 {
      CompareIsTransitive(a.name, b.name, c.name);
    }
  }

  // ------------------------------------------------------------ specification

  ghost predicate AlertsListed(
    targetID: string, components: map<string, string>, alerts: seq<SourceAlert>, limit: nat, now: Instant,
    out: AlertsOutput)
  {
    && out.target == targetID && out.observedAt == now
    && IsListing(CompareAlerts, RedactAll(components, alerts), false, limit, out.alerts, out.truncated)
  }

  /** The listing, or an encoding error in its place when an instant of it cannot be encoded. */
  ghost predicate AlertsResult(
    targetID: string, components: map<string, string>, alerts: seq<SourceAlert>, limit: nat, now: Instant,
    r: Result<AlertsOutput>)
  {
    exists out ::
      && AlertsListed(targetID, components, alerts, limit, now, out)
      && r == if AlertsTimes(out) then Ok(out) else Err(ENCODE_ERROR)
  }

  /** Components as `NewClient` leaves them: identifiers for alert names. */
  ghost predicate ValidComponents(components: map<string, string>) {
    forall name | name in components :: AlertName(name) && Identifier(components[name])
  }

  // ------------------------------------------------------------------- method

  /** The loop, the sort, the cut and the size check of `ListActiveAlerts`. */
  method ObserveAlerts(
    targetID: string, components: map<string, string>, alerts: seq<SourceAlert>, limit: nat, now: Instant,
    format: Instant -> string)
    returns (r: Result<AlertsOutput>)
    requires Identifier(targetID) && limit <= MAX_LIST_LIMIT && Rfc3339(format) && ValidComponents(components)
    ensures AlertsResult(targetID, components, alerts, limit, now, r)
  {
    hide CompareAlerts, RedactAll, ShowsAlert, AlertsShape, AlertsTimes, Identifier, ValidComponents, Sorted;
    var redacted := RedactEach(components, alerts);
    CompareAlertsIsTotalPreorder();
    var sorted := SortSlice(redacted, CompareAlerts);
    SameMultiset(sorted, redacted);
    ghost var whole := sorted;
    var truncated := false;
    if |sorted| > limit {
      sorted := sorted[..limit];
      truncated := true;
    }
    assert IsSorting(CompareAlerts, redacted, whole) && sorted == Take(whole, limit);
    var result := AlertsOutput(targetID, now, sorted, truncated);
    assert AlertsListed(targetID, components, alerts, limit, now, result);
    RedactedAlertsAreWellFormed(components, alerts, limit, result);
    AlertsNeverTooLarge(result, format);
    var oversized := CheckResultSize(MarshalAlerts(result, format));
    if oversized.Some? {
      return Err(oversized.value);
    }
    return Ok(result);
  }

  /** The loop over the source alerts. */
  method RedactEach(components: map<string, string>, alerts: seq<SourceAlert>) returns (redacted: seq<ActiveAlert>)
    ensures redacted == RedactAll(components, alerts)
    ensures forall i | 0 <= i < |alerts| :: ShowsAlert(components, redacted[i], alerts[i])
  {
    hide AlertName, NormalizeAlertSeverity;
    redacted := [];
    for i := 0 to |alerts|
      invariant redacted == RedactAll(components, alerts[..i])
    {
      var name := alerts[i].name;
      var component := "";
      if !AlertName(name) {
        name := UNKNOWN;
      } else if name in components {
        component := components[name];
      }
      assert alerts[..i + 1][..i] == alerts[..i];
      redacted := redacted
        + [ActiveAlert(name, NormalizeAlertSeverity(alerts[i].severity), component, alerts[i].startsAt)];
    }
    assert alerts[..|alerts|] == alerts;
    forall i | 0 <= i < |alerts| ensures ShowsAlert(components, redacted[i], alerts[i]) {
      RedactedShowSource(components, alerts, i);
    }
  }

  lemma {:induction false} RedactedMembers(components: map<string, string>, alerts: seq<SourceAlert>)
    ensures forall x ::
              x in RedactAll(components, alerts) <==>
              (exists a | a in alerts :: x == Redact(components, a))
  {
    hide Redact;
    if alerts != [] {
      var n := |alerts| - 1;
      RedactedMembers(components, alerts[..n]);
      assert alerts == alerts[..n] + [alerts[n]];
    }
  }

  lemma RedactionIsWellFormed(components: map<string, string>, a: SourceAlert)
    requires ValidComponents(components)
    ensures AlertShape(Redact(components, a))
  {
    hide AlertName, NormalizeAlertSeverity, Identifier;
    UnknownIsAnAlertName();
  }

  lemma RedactedAlertsAreWellFormed(
    components: map<string, string>, alerts: seq<SourceAlert>, limit: nat, out: AlertsOutput)
    requires Identifier(out.target) && limit <= MAX_LIST_LIMIT && ValidComponents(components)
    requires IsTop(CompareAlerts, RedactAll(components, alerts), limit, out.alerts)
    ensures AlertsShape(out)
  {
    hide Redact, AlertShape;
    TopKeepsSome(CompareAlerts, RedactAll(components, alerts), limit, out.alerts);
    RedactedMembers(components, alerts);
    forall x | x in out.alerts ensures AlertShape(x) {
      var a :| a in alerts && x == Redact(components, a);
      RedactionIsWellFormed(components, a);
    }
  }

  // -------------------------------------------------------------- main results

  /**
   The kept alerts are a true top: together with the dropped ones they are all the alerts, and none of
   the dropped precedes a kept one. So a critical alert is dropped only if all kept ones are critical.
   */
  lemma AlertsAreTopmost(
    targetID: string, components: map<string, string>, alerts: seq<SourceAlert>, limit: nat, now: Instant,
    out: AlertsOutput) returns (dropped: seq<ActiveAlert>)
    requires AlertsListed(targetID, components, alerts, limit, now, out)
    ensures multiset(out.alerts) + multiset(dropped) == multiset(RedactAll(components, alerts))
    ensures forall k, d | k in out.alerts && d in dropped :: CompareAlerts(k, d) <= 0
    ensures out.truncated <==> dropped != []
    ensures out.truncated ==> |out.alerts| == limit
    ensures (exists d | d in dropped :: d.severity == Critical) ==>
              |out.alerts| == limit && forall k | k in out.alerts :: k.severity == Critical
  {
    hide CompareAlerts, RedactAll, Sorted;
    var all := RedactAll(components, alerts);
    CompareAlertsIsTotalPreorder();
    TopIffSelection(CompareAlerts, all, limit, out.alerts);
    dropped :| IsSelection(CompareAlerts, all, limit, out.alerts, dropped);
    SameMultiset(out.alerts + dropped, all);
    forall k, d | k in out.alerts && d in dropped && d.severity == Critical ensures k.severity == Critical {
      CriticalComesFirst(k, d);
    }
  }

  lemma CriticalComesFirst(k: ActiveAlert, d: ActiveAlert)
    requires CompareAlerts(k, d) <= 0 && d.severity == Critical
    ensures k.severity == Critical
  {
  }

  /**
   The order clients see: by severity from critical to unknown, then by name, then by start from the
   oldest, with alerts that have no start last.
   */
  lemma ListedAlertsAscend(
    targetID: string, components: map<string, string>, alerts: seq<SourceAlert>, limit: nat, now: Instant,
    out: AlertsOutput, i: nat, j: nat)
    requires AlertsListed(targetID, components, alerts, limit, now, out) && i < j < |out.alerts|
    ensures var a, b := out.alerts[i], out.alerts[j];
            && (b.severity == Critical ==> a.severity == Critical)
            && (b.severity == Warning ==> a.severity == Critical || a.severity == Warning)
            && (b.severity == Info ==> a.severity != SeverityUnknown)
            && (a.severity == b.severity ==> Compare(a.name, b.name) <= 0)
            && (a.severity == b.severity && a.name == b.name && b.startedAt.Some? ==>
                  a.startedAt.Some? && a.startedAt.value <= b.startedAt.value)
  {
    hide Compare, RedactAll;
    var a, b := out.alerts[i], out.alerts[j];
    assert CompareAlerts(a, b) <= 0;
    CompareIsAntisymmetric(a.name, b.name);
  }

  /** `x` shows the source alert `a`: severity and start always, the name and its component if it may be shown. */
  ghost predicate ShowsAlert(components: map<string, string>, x: ActiveAlert, a: SourceAlert) {
    && x.severity == NormalizeAlertSeverity(a.severity) && x.startedAt == a.startsAt
    && x.name == (if AlertName(a.name) then a.name else "unknown")
    && x.component == (if AlertName(a.name) && a.name in components then components[a.name] else "")
  }

  lemma {:induction false} RedactedShowSource(components: map<string, string>, alerts: seq<SourceAlert>, i: nat)
    requires i < |alerts|
    ensures ShowsAlert(components, RedactAll(components, alerts)[i], alerts[i])
    decreases |alerts|
  {
    hide AlertName, NormalizeAlertSeverity;
    var n := |alerts| - 1;
    if i < n {
      RedactedShowSource(components, alerts[..n], i);
    }
  }

  /**
   The list, on the source alerts: each entry shows one of them and none is shown twice; one that is not shown
   although its severity reads critical was displaced by as many others that read critical as the limit allows.
   */
  lemma ListedAlertsShowSource(
    targetID: string, components: map<string, string>, alerts: seq<SourceAlert>, limit: nat, now: Instant,
    out: AlertsOutput) returns (shown: seq<nat>)
    requires AlertsListed(targetID, components, alerts, limit, now, out)
    ensures |shown| == |out.alerts| == (if |alerts| <= limit then |alerts| else limit) && Distinct(shown)
    ensures out.truncated <==> |alerts| > limit
    ensures forall i | 0 <= i < |shown| ::
              shown[i] < |alerts| && ShowsAlert(components, out.alerts[i], alerts[shown[i]])
    ensures forall j: nat | j < |alerts| && j !in shown && NormalizeAlertSeverity(alerts[j].severity) == Critical ::
              |shown| == limit && forall i | 0 <= i < |shown| ::
                NormalizeAlertSeverity(alerts[shown[i]].severity) == Critical
  {
    hide RedactAll, AlertName, NormalizeAlertSeverity, CompareAlerts;
    var all := RedactAll(components, alerts);
    var sorted :| IsSorting(CompareAlerts, all, sorted) && out.alerts == Take(sorted, limit);
    var from := PermutationHasOrigins(all, sorted);
    shown := from[..|out.alerts|];
    forall i | 0 <= i < |alerts| ensures ShowsAlert(components, all[i], alerts[i]) {
      RedactedShowSource(components, alerts, i);
    }
    forall i | 0 <= i < |shown|
      ensures shown[i] < |alerts| && ShowsAlert(components, out.alerts[i], alerts[shown[i]])
    {
      assert out.alerts[i] == sorted[i] == all[from[i]];
    }
    forall j: nat, i | j < |alerts| && j !in shown && 0 <= i < |shown|
                       && NormalizeAlertSeverity(alerts[j].severity) == Critical
      ensures NormalizeAlertSeverity(alerts[shown[i]].severity) == Critical
    {
      CriticalsDisplace(all, sorted, from, |shown|, j, i);
    }
    forall j: nat | j < |alerts| && j !in shown ensures |shown| == limit {
      assert j in from;
    }
  }

  lemma CriticalsDisplace(
    all: seq<ActiveAlert>, sorted: seq<ActiveAlert>, from: seq<nat>, k: nat, j: nat, i: nat)
    requires Sorted(CompareAlerts, sorted) && Origins(all, sorted, from)
    requires i < k <= |from| && j < |all| && j !in from[..k] && all[j].severity == Critical
    ensures all[from[i]].severity == Critical
  {
    hide CompareAlerts;
    var m := PlaceAfter(from, k, j);
    CriticalComesFirst(sorted[i], sorted[m]);
  }

  lemma PlaceAfter(from: seq<nat>, k: nat, j: nat) returns (m: nat)
    requires k <= |from| && j in from && j !in from[..k]
    ensures k <= m < |from| && from[m] == j
  {
    assert from == from[..k] + from[k..];
    m :| k <= m < |from| && from[m] == j;
  }

  lemma {:induction false} RedactConcat(components: map<string, string>, a: seq<SourceAlert>, b: seq<SourceAlert>)
    ensures RedactAll(components, a + b) == RedactAll(components, a) + RedactAll(components, b)
    decreases |b|
  {
    hide Redact;
    if b == [] {
      assert a + b == a;
    } else {
      RedactConcat(components, a, b[..|b| - 1]);
      assert (a + b)[..|a + b| - 1] == a + b[..|b| - 1];
    }
  }

  lemma {:induction false} RedactPermutes(components: map<string, string>, p: seq<SourceAlert>, q: seq<SourceAlert>)
    requires multiset(p) == multiset(q)
    ensures multiset(RedactAll(components, p)) == multiset(RedactAll(components, q))
    decreases |p|
  {
    hide Redact, RedactAll;
    SameMultiset(p, q);
    if p != [] {
      var n := |p| - 1;
      var a, b := TakeLastOut(p, q);
      assert p == p[..n] + [p[n]];
      RedactPermutes(components, p[..n], a + b);
      RedactConcat(components, a, b);
      RedactConcat(components, a, [p[n]] + b);
      RedactConcat(components, [p[n]], b);
      RedactConcat(components, p[..n], [p[n]]);
    }
  }

  /**
   Reordering the source never changes what is listed up to the component: severity, name and start
   agree position by position, a smaller limit gives a prefix, and the flags agree.
   */
  lemma AlertsDoNotDependOnSourceOrder(
    components: map<string, string>, s1: seq<SourceAlert>, s2: seq<SourceAlert>,
    l1: nat, l2: nat, k1: seq<ActiveAlert>, k2: seq<ActiveAlert>)
    requires multiset(s1) == multiset(s2) && l1 <= l2
    requires IsTop(CompareAlerts, RedactAll(components, s1), l1, k1)
    requires IsTop(CompareAlerts, RedactAll(components, s2), l2, k2)
    ensures |k1| <= |k2| && |RedactAll(components, s1)| == |RedactAll(components, s2)|
    ensures forall i | 0 <= i < |k1| ::
              k1[i].severity == k2[i].severity && k1[i].name == k2[i].name && k1[i].startedAt == k2[i].startedAt
  {
    hide Compare, RedactAll;
    RedactPermutes(components, s1, s2);
    CompareAlertsIsTotalPreorder();
    SameMultiset(RedactAll(components, s1), RedactAll(components, s2));
    TopsArePrefixes(CompareAlerts, RedactAll(components, s1), RedactAll(components, s2), l1, l2, k1, k2);
    assert forall i | 0 <= i < |k1| :: CompareAlerts(k1[i], k2[..|k1|][i]) == 0;
  }

  /** Whole records, component included, never depend on the order of the source or of the sort. */
  ghost predicate RecordsAreDetermined(components: map<string, string>) {
    forall s1, s2, limit: nat, k1, k2 |
      && multiset(s1) == multiset(s2)
      && IsTop(CompareAlerts, RedactAll(components, s1), limit, k1)
      && IsTop(CompareAlerts, RedactAll(components, s2), limit, k2) ::
      k1 == k2
  }

  lemma RedactedAlertsAreTieFree(components: map<string, string>, alerts: seq<SourceAlert>)
    requires UNKNOWN !in components
    ensures TieFree(CompareAlerts, RedactAll(components, alerts))
  {
    hide RedactAll, Compare, NormalizeAlertSeverity, AlertName;
    CompareAlertsIsTotalPreorder();
    RedactedMembers(components, alerts);
    forall x, y | x in RedactAll(components, alerts) && y in RedactAll(components, alerts) && CompareAlerts(x, y) == 0
      ensures x == y
    {
      var a :| a in alerts && x == Redact(components, a);
      var b :| b in alerts && y == Redact(components, b);
      assert x.component == ComponentOf(components, x.name) && y.component == ComponentOf(components, y.name);
    }
  }

  /** With a component for "unknown", an alert of that name ties with a redacted one but differs from it. */
  lemma UnknownMappingBreaksTies(components: map<string, string>)
    requires UNKNOWN in components && components[UNKNOWN] != ""
    ensures !RecordsAreDetermined(components)
  {
    hide NormalizeAlertSeverity, AlertName, Compare;
    var named, unnamed := SourceAlert(UNKNOWN, "", None), SourceAlert("", "", None);
    UnknownIsAnAlertName();
    var s := [named, unnamed];
    var x, y := Redact(components, named), Redact(components, unnamed);
    RedactedMembers(components, s);
    assert named in s && unnamed in s;
    CompareAlertsIsTotalPreorder();
    var all := RedactAll(components, s);
    var p, q := TiesLeaveAChoice(CompareAlerts, all, x, y);
  }

  lemma UnknownIsAnAlertName()
    ensures AlertName(UNKNOWN) && !AlertName("")
  {
  }

  /**
   Exactly when whole records are determined by the source contents: when no component is configured
   for the name "unknown", which redacted alerts share.
   */
  lemma RecordsAreDeterminedIffUnknownUnmapped(components: map<string, string>)
    requires ValidComponents(components)
    ensures RecordsAreDetermined(components) <==> UNKNOWN !in components
  {
    hide RedactAll, Compare, NormalizeAlertSeverity;
    if UNKNOWN in components {
      assert Identifier(components[UNKNOWN]);
      UnknownMappingBreaksTies(components);
    } else {
      CompareAlertsIsTotalPreorder();
      forall s1, s2, limit: nat, k1, k2 |
        && multiset(s1) == multiset(s2)
        && IsTop(CompareAlerts, RedactAll(components, s1), limit, k1)
        && IsTop(CompareAlerts, RedactAll(components, s2), limit, k2)
        ensures k1 == k2
      {
        RedactPermutes(components, s1, s2);
        RedactedAlertsAreTieFree(components, s1);
        SameMultiset(RedactAll(components, s1), RedactAll(components, s2));
        TopsArePrefixes(CompareAlerts, RedactAll(components, s1), RedactAll(components, s2), limit, limit, k1, k2);
        TopsArePrefixes(CompareAlerts, RedactAll(components, s2), RedactAll(components, s1), limit, limit, k2, k1);
      }
    }
  }

  /** How many of the alerts come strictly before `a` in the list. */
  function Ahead(components: map<string, string>, alerts: seq<SourceAlert>, a: SourceAlert): nat {
    Preceding(CompareAlerts, RedactAll(components, alerts), Redact(components, a))
  }

  /**
   Exactly when the observation succeeds: when the clock and the starts of the alerts that fewer than
   `limit` others precede lie in the years 0 to 9999 in UTC. One such start outside them fails the whole
   list, not one entry; a start further down is cut away before it is encoded.
   */
  lemma AlertsSucceedIffLeadingStartsEncodable(
    targetID: string, components: map<string, string>, alerts: seq<SourceAlert>, limit: nat, now: Instant,
    r: Result<AlertsOutput>)
    requires AlertsResult(targetID, components, alerts, limit, now, r)
    ensures r.Ok? <==> && Encodable(now)
                       && forall a | a in alerts && Ahead(components, alerts, a) < limit :: MaybeEncodable(a.startsAt)
    ensures r.Err? ==> r.error == ENCODE_ERROR
  {
    hide CompareAlerts, RedactAll, Redact, Preceding;
    var out :| AlertsListed(targetID, components, alerts, limit, now, out)
               && r == if AlertsTimes(out) then Ok(out) else Err(ENCODE_ERROR);
    var all, p := RedactAll(components, alerts), (x: ActiveAlert) => MaybeEncodable(x.startedAt);
    CompareAlertsIsTotalPreorder();
    KeptAllIffKeepableAll(CompareAlerts, all, limit, out.alerts, p);
    StartsAreRedacted(components, alerts);
    assert AlertsTimes(out) <==> Encodable(now) && forall k | k in out.alerts :: p(k);
  }

  lemma StartsAreRedacted(components: map<string, string>, alerts: seq<SourceAlert>)
    ensures forall a | a in alerts ::
              Redact(components, a) in RedactAll(components, alerts) && Redact(components, a).startedAt == a.startsAt
    ensures forall x | x in RedactAll(components, alerts) :: exists a | a in alerts :: x == Redact(components, a)
  {
    hide RedactAll, AlertName, NormalizeAlertSeverity;
    RedactedMembers(components, alerts);
  }

  /** An observation that succeeds does so for every order of the source and for every smaller limit. */
  lemma SmallerLimitsSucceedToo(
    targetID: string, components: map<string, string>, s1: seq<SourceAlert>, s2: seq<SourceAlert>,
    l1: nat, l2: nat, now: Instant, r1: Result<AlertsOutput>, r2: Result<AlertsOutput>)
    requires multiset(s1) == multiset(s2) && l1 <= l2
    requires AlertsResult(targetID, components, s1, l1, now, r1)
    requires AlertsResult(targetID, components, s2, l2, now, r2)
    ensures r2.Ok? ==> r1.Ok?
  {
    hide AlertsResult, Redact, RedactAll;
    AlertsSucceedIffLeadingStartsEncodable(targetID, components, s1, l1, now, r1);
    AlertsSucceedIffLeadingStartsEncodable(targetID, components, s2, l2, now, r2);
    SameMultiset(s1, s2);
    RedactPermutes(components, s1, s2);
    forall a ensures Ahead(components, s1, a) == Ahead(components, s2, a) {
      PrecedingPermutes(CompareAlerts, RedactAll(components, s1), RedactAll(components, s2), Redact(components, a));
    }
  }

  /** A list that is not cut succeeds iff the clock and every start can be encoded. */
  lemma UncutAlertsSucceedIffStartsEncodable(
    targetID: string, components: map<string, string>, alerts: seq<SourceAlert>, limit: nat, now: Instant,
    r: Result<AlertsOutput>)
    requires AlertsResult(targetID, components, alerts, limit, now, r)
    requires |alerts| <= limit
    ensures r.Ok? <==> Encodable(now) && forall a | a in alerts :: MaybeEncodable(a.startsAt)
    ensures r.Err? ==> r.error == ENCODE_ERROR
  {
    hide AlertsResult, Redact, RedactAll, CompareAlerts, Preceding;
    AlertsSucceedIffLeadingStartsEncodable(targetID, components, alerts, limit, now, r);
    StartsAreRedacted(components, alerts);
    CompareAlertsIsTotalPreorder();
    forall a | a in alerts ensures Ahead(components, alerts, a) < limit {
      FewerPrecedeThanAll(CompareAlerts, RedactAll(components, alerts), Redact(components, a));
    }
  }

  /** An alert that starts at `LATE` fails the list in which it is the only one. */
  lemma OneStartFailsTheList(targetID: string, now: Instant, limit: nat, r: Result<AlertsOutput>)
    requires limit >= 1 && Encodable(now)
    requires AlertsResult(targetID, map[], [SourceAlert("Late", "critical", Some(LATE))], limit, now, r)
    ensures r == Err(ENCODE_ERROR)
  {
    hide AlertsResult;
    var late := SourceAlert("Late", "critical", Some(LATE));
    UncutAlertsSucceedIffStartsEncodable(targetID, map[], [late], limit, now, r);
    assert late in [late];
  }

  /** Behind an earlier alert of its name it is cut away under the limit 1, and the list succeeds. */
  lemma OneStartMayBeCut(
    targetID: string, components: map<string, string>, name: string, severity: string, now: Instant,
    r: Result<AlertsOutput>)
    requires Encodable(now)
    requires AlertsResult(targetID, components,
               [SourceAlert(name, severity, Some(LATE)), SourceAlert(name, severity, Some(0))], 1, now, r)
    ensures r.Ok?
  {
    hide AlertsResult, Ahead;
    var late, early := SourceAlert(name, severity, Some(LATE)), SourceAlert(name, severity, Some(0));
    AlertsSucceedIffLeadingStartsEncodable(targetID, components, [late, early], 1, now, r);
    EarlierIsAhead(components, late, early);
  }

  lemma EarlierIsAhead(components: map<string, string>, late: SourceAlert, early: SourceAlert)
    requires late.name == early.name && late.severity == early.severity
    requires late.startsAt.Some? && early.startsAt.Some? && early.startsAt.value < late.startsAt.value
    ensures Ahead(components, [late, early], late) >= 1
  {
    hide AlertName, NormalizeAlertSeverity;
    var a, b := Redact(components, late), Redact(components, early);
    CompareIsAntisymmetric(a.name, a.name);
    assert [late, early][..1] == [late] && [late][..0] == [];
    assert RedactAll(components, [late, early]) == [a, b];
    assert CompareAlerts(b, a) < 0 && [a, b][1] == b;
  }
}
