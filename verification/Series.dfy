/**
 The monitoring configuration: scrape identities keyed by job and instance, and alert components. The
 key joins the two labels with a NUL, which identifies the pair because configured labels contain none.
 */
module Series {
  import opened Text
  import opened Errors
  import opened Contracts
  import opened Policy

  datatype ScrapeIdentity = ScrapeIdentity(id: string, job: string, instance: string)

  datatype AlertComponent = AlertComponent(alertName: string, component: string)

  datatype Service = Service(namespace: string, name: string, port: string)

  /** `^[a-z0-9](?:[a-z0-9-]{0,13}[a-z0-9])?$`. */
  predicate PortName(s: string) {
    && 1 <= |s| <= 15
    && LowerOrDigit(s[0]) && LowerOrDigit(s[|s| - 1])
    && forall i | 0 <= i < |s| :: LabelChar(s[i])
  }

  predicate ValidService(s: Service) {
    Label(s.namespace) && Label(s.name) && PortName(s.port)
  }

  predicate ControlChar(c: char) {
    (c as int) < 0x20 || (c as int) == 0x7F
  }

  predicate ValidLabelValue(value: string) {
    value != "" && |value| <= 256 && forall i | 0 <= i < |value| :: !ControlChar(value[i])
  }

  /** An empty instance is allowed, and then matches series without the label only. */
  predicate ValidIdentity(s: ScrapeIdentity) {
    Identifier(s.id) && ValidLabelValue(s.job) && (s.instance == "" || ValidLabelValue(s.instance))
  }

  function SeriesKey(job: string, instance: string): string {
    job + [NUL] + instance
  }

  /**
   The key of a pair without NULs is the key of that pair only, even among pairs that do contain NULs:
   no sample, whatever its labels, can match the wrong identity.
   */
  lemma SeriesKeyIdentifies(job: string, instance: string, j: string, i: string)
    requires Lacks(job, NUL) && Lacks(instance, NUL)
    ensures SeriesKey(job, instance) == SeriesKey(j, i) <==> job == j && instance == i
  {
    var x, y := SeriesKey(job, instance), SeriesKey(j, i);
    if x == y {
      assert y[|j|] == NUL;
      assert forall k | 0 <= k < |x| && k != |job| :: x[k] != NUL by {
        forall k | 0 <= k < |x| && k != |job| ensures x[k] != NUL {
          if k < |job| { assert x[k] == job[k]; } else { assert x[k] == instance[k - |job| - 1]; }
        }
      }
      assert |j| == |job|;
      assert job == x[..|job|] == y[..|j|] == j;
      assert instance == x[|job| + 1..] == y[|j| + 1..] == i;
    }
  }

  /** Both labels need to be free of NULs for that. */
  lemma SeriesKeyNeedsNulFreeLabels()
    ensures SeriesKey("a\0b", "c") == SeriesKey("a", "b\0c")
  {
    assert SeriesKey("a\0b", "c") == ['a', NUL, 'b', NUL, 'c'];
    assert SeriesKey("a", "b\0c") == ['a', NUL, 'b', NUL, 'c'];
  }

  lemma IdentitiesLackNul(s: ScrapeIdentity)
    requires ValidIdentity(s)
    ensures Lacks(s.job, NUL) && Lacks(s.instance, NUL)
  {
  }

  /** The scrape identities `NewClient` accepts. */
  ghost predicate AcceptedScrapes(scrapes: seq<ScrapeIdentity>) {
    && 1 <= |scrapes| <= MAX_LIST_LIMIT
    && DistinctIdentities(scrapes)
  }

  ghost predicate DistinctIdentities(scrapes: seq<ScrapeIdentity>) {
    && (forall s | s in scrapes :: ValidIdentity(s))
    && forall i, j | 0 <= i < j < |scrapes| ::
         && scrapes[i].id != scrapes[j].id
         && (scrapes[i].job != scrapes[j].job || scrapes[i].instance != scrapes[j].instance)
  }

  function Ids(scrapes: seq<ScrapeIdentity>): set<string> {
    set s | s in scrapes :: s.id
  }

  function Keys(scrapes: seq<ScrapeIdentity>): set<string> {
    set s | s in scrapes :: SeriesKey(s.job, s.instance)
  }

  /** The checks of one identity against those before it. */
  function IdentityProblem(s: ScrapeIdentity, seenIDs: set<string>, seenSeries: set<string>): Option<Error> {
    var invalid := ValidateIdentifier("scrape", s.id);
    if invalid.Some? then invalid
    else if !ValidLabelValue(s.job) || (s.instance != "" && !ValidLabelValue(s.instance)) then
      Some(Plain("scrape label match is invalid"))
    else if s.id in seenIDs then Some(Plain("scrape identifier is duplicated"))
    else if SeriesKey(s.job, s.instance) in seenSeries then Some(Plain("scrape label match is duplicated"))
    else None
  }

  /** Comparing keys finds exactly the repeated identifiers and label pairs. */
  lemma IdentityIsChecked(scrapes: seq<ScrapeIdentity>, s: ScrapeIdentity)
    requires DistinctIdentities(scrapes)
    ensures IdentityProblem(s, Ids(scrapes), Keys(scrapes)).None? <==> DistinctIdentities(scrapes + [s])
  {
    hide ValidLabelValue, Identifier, SeriesKey;
    var grown := scrapes + [s];
    assert grown[|scrapes|] == s;
    if ValidIdentity(s) {
      forall t | t in scrapes
        ensures SeriesKey(s.job, s.instance) == SeriesKey(t.job, t.instance)
           <==> s.job == t.job && s.instance == t.instance
      {
        IdentitiesLackNul(s);
        SeriesKeyIdentifies(s.job, s.instance, t.job, t.instance);
      }
      assert s.id in Ids(scrapes) <==> exists i | 0 <= i < |scrapes| :: scrapes[i].id == s.id;
      assert SeriesKey(s.job, s.instance) in Keys(scrapes)
        <==> exists i | 0 <= i < |scrapes| :: scrapes[i].job == s.job && scrapes[i].instance == s.instance;
      RepeatedOrNot(scrapes, s);
    } else {
      assert s in grown;
    }
  }

  lemma RepeatedOrNot(scrapes: seq<ScrapeIdentity>, s: ScrapeIdentity)
    requires DistinctIdentities(scrapes) && ValidIdentity(s)
    ensures DistinctIdentities(scrapes + [s])
       <==> forall i | 0 <= i < |scrapes| ::
              && scrapes[i].id != s.id
              && (scrapes[i].job != s.job || scrapes[i].instance != s.instance)
  {
    hide ValidIdentity;
    var grown := scrapes + [s];
    assert grown[|scrapes|] == s;
    if DistinctIdentities(grown) {
      forall i | 0 <= i < |scrapes|
        ensures scrapes[i].id != s.id && (scrapes[i].job != s.job || scrapes[i].instance != s.instance)
      {
        assert grown[i] == scrapes[i];
      }
    }
  }

  lemma SeenGrows(scrapes: seq<ScrapeIdentity>, s: ScrapeIdentity)
    ensures Ids(scrapes + [s]) == Ids(scrapes) + {s.id}
    ensures Keys(scrapes + [s]) == Keys(scrapes) + {SeriesKey(s.job, s.instance)}
  {
    hide SeriesKey;
    assert forall t :: t in scrapes + [s] <==> t in scrapes || t == s;
  }

  lemma DistinctPrefix(scrapes: seq<ScrapeIdentity>, n: nat)
    requires n <= |scrapes|
    ensures DistinctIdentities(scrapes) ==> DistinctIdentities(scrapes[..n])
  {
  }

  /** The loop over the configured identities. */
  method CheckScrapes(configured: seq<ScrapeIdentity>) returns (r: Result<seq<ScrapeIdentity>>)
    ensures r.Ok? <==> AcceptedScrapes(configured)
    ensures r.Ok? ==> r.value == configured
  {
    hide ValidIdentity, IdentityProblem, SeriesKey;
    if |configured| == 0 || |configured| > MAX_LIST_LIMIT {
      return Err(Plain("monitoring target must have from 1 to 50 scrape identities"));
    }
    var scrapes: seq<ScrapeIdentity> := [];
    var seenIDs: set<string> := {};
    var seenSeries: set<string> := {};
    for i := 0 to |configured|
      invariant scrapes == configured[..i]
      invariant DistinctIdentities(scrapes)
      invariant seenIDs == Ids(scrapes) && seenSeries == Keys(scrapes)
    {
      var scrape := configured[i];
      var problem := IdentityProblem(scrape, seenIDs, seenSeries);
      IdentityIsChecked(scrapes, scrape);
      assert configured[..i + 1] == scrapes + [scrape];
      DistinctPrefix(configured, i + 1);
      if problem.Some? {
        return Err(problem.value);
      }
      SeenGrows(scrapes, scrape);
      seenIDs := seenIDs + {scrape.id};
      seenSeries := seenSeries + {SeriesKey(scrape.job, scrape.instance)};
      scrapes := scrapes + [scrape];
    }
    assert configured[..|configured|] == configured;
    return Ok(scrapes);
  }

  // --------------------------------------------------------------- components

  /** The component mappings `NewClient` accepts. */
  ghost predicate AcceptedComponents(configured: seq<AlertComponent>) {
    |configured| <= MAX_LIST_LIMIT && DistinctComponents(configured)
  }

  ghost predicate DistinctComponents(configured: seq<AlertComponent>) {
    && (forall c | c in configured :: AlertName(c.alertName) && Identifier(c.component))
    && forall i, j | 0 <= i < j < |configured| :: configured[i].alertName != configured[j].alertName
  }

  ghost predicate Maps(components: map<string, string>, configured: seq<AlertComponent>) {
    forall c :: c in configured <==> c.alertName in components && components[c.alertName] == c.component
  }

  method BuildComponents(configured: seq<AlertComponent>) returns (r: Result<map<string, string>>)
    ensures r.Ok? <==> AcceptedComponents(configured)
    ensures r.Ok? ==> Maps(r.value, configured)
  {
    hide AlertName, Identifier;
    if |configured| > MAX_LIST_LIMIT {
      return Err(Plain("monitoring target has too many alert component mappings"));
    }
    var components: map<string, string> := map[];
    for i := 0 to |configured|
      invariant DistinctComponents(configured[..i])
      invariant Maps(components, configured[..i])
    {
      var c := configured[i];
      assert c in configured;
      assert configured[..i + 1] == configured[..i] + [c];
      if !AlertName(c.alertName) {
        return Err(Plain("alert name mapping is invalid"));
      }
      var invalid := ValidateIdentifier("component", c.component);
      if invalid.Some? {
        return Err(invalid.value);
      }
      if c.alertName in components {
        var earlier := AlertComponent(c.alertName, components[c.alertName]);
        assert earlier in configured[..i];
        return Err(Plain("alert name mapping is duplicated"));
      }
      MapGrows(components, configured[..i], c);
      components := components[c.alertName := c.component];
    }
    assert configured[..|configured|] == configured;
    return Ok(components);
  }

  lemma MapGrows(components: map<string, string>, configured: seq<AlertComponent>, c: AlertComponent)
    requires Maps(components, configured) && c.alertName !in components
    ensures Maps(components[c.alertName := c.component], configured + [c])
    ensures forall d | d in configured :: d.alertName != c.alertName
  {
    forall d ensures d in configured + [c] <==> d in configured || d == c {
    }
  }
}
