/**
 The scrape-health join: configured identities against the samples of the fixed Prometheus query. The
 one-pass join over maps keyed by label pair is proved against a specification that only compares labels.
 */
module Scrapes {
  import opened Text
  import opened Errors
  import opened Contracts
  import opened Policy
  import opened Encoding
  import opened Sorting
  import opened Series

  /** What `strconv.ParseFloat` makes of a text. */
  datatype Float = Unparsable | NotANumber | Infinite | Finite(value: real)

  /** One raw JSON value of a sample. A JSON null decodes into the zero value of its target. */
  datatype Raw = RawNumber(value: real) | RawText(number: Float) | RawNull | RawOther

  datatype Sample = Sample(job: string, instance: string, value: seq<Raw>)

  /** The answer to the query: a request error, text that does not decode, or a decoded response. */
  datatype QueryReply =
    | QueryFailed(error: Error)
    | QueryMalformed
    | QueryDecoded(status: string, resultType: string, samples: seq<Sample>, warnings: nat)

  const MAX_TIMESTAMP := 253_402_300_799.0

  /** The last bytes of a decoded sample: its state and time. */
  datatype Reading = Reading(state: ScrapeState, sampledAt: Instant)

  function Timestamp(raw: Raw): Option<real> {
    match raw
    case RawNumber(value) => Some(value)
    case RawNull => Some(0.0)
    case _ => None
  }

  /** `parsePrometheusValue`; every failure is reported alike. */
  function ParseValue(value: seq<Raw>): Option<Reading> {
    if |value| != 2 then None
    else
      var timestamp := Timestamp(value[0]);
      if timestamp.None? || timestamp.value < 0.0 || timestamp.value > MAX_TIMESTAMP then None
      else if !value[1].RawText? || !value[1].number.Finite? then None
      else if value[1].number.value == 0.0 then Some(Reading(Down, InstantOf(timestamp.value)))
      else if value[1].number.value == 1.0 then Some(Reading(Up, InstantOf(timestamp.value)))
      else None
  }

  /** Whole seconds, and the fraction cut to nanoseconds. */
  function InstantOf(seconds: real): Instant {
    seconds.Floor * 1_000_000_000 + ((seconds - seconds.Floor as real) * 1_000_000_000.0).Floor
  }

  /** Every accepted sample has an instant that can be encoded. */
  lemma ReadingsAreEncodable(value: seq<Raw>)
    ensures ParseValue(value).Some? ==> Encodable(ParseValue(value).value.sampledAt)
  {
    if ParseValue(value).Some? {
      var seconds := Timestamp(value[0]).value;
      assert 0 <= seconds.Floor <= 253_402_300_799;
      assert 0.0 <= seconds - seconds.Floor as real < 1.0;
    }
  }

  /** A reading is up for one and down for zero, at the sample's time cut to nanoseconds. */
  lemma ReadingsMeanTheirSample(value: seq<Raw>)
    requires ParseValue(value).Some?
    ensures |value| == 2 && Timestamp(value[0]).Some? && value[1].RawText? && value[1].number.Finite?
    ensures var reading, x := ParseValue(value).value, value[1].number.value;
            && (x == 0.0 || x == 1.0)
            && (reading.state == Up <==> x == 1.0) && (reading.state == Down <==> x == 0.0)
    ensures var t, seconds := ParseValue(value).value.sampledAt, Timestamp(value[0]).value;
            t as real <= seconds * 1_000_000_000.0 < t as real + 1.0
  {
    var seconds := Timestamp(value[0]).value;
    var fraction := (seconds - seconds.Floor as real) * 1_000_000_000.0;
    assert seconds * 1_000_000_000.0 == seconds.Floor as real * 1_000_000_000.0 + fraction;
  }

  /**
   Exactly which samples are accepted, and where their time comes from: the timestamp, if there is one,
   and the first instant of 1970 for a null.
   */
  lemma AcceptedSamples(value: seq<Raw>)
    ensures ParseValue(value).Some?
       <==> && |value| == 2
            && (value[0].RawNull? || (value[0].RawNumber? && 0.0 <= value[0].value <= MAX_TIMESTAMP))
            && value[1].RawText? && value[1].number.Finite?
            && (value[1].number.value == 0.0 || value[1].number.value == 1.0)
    ensures ParseValue(value).Some? ==>
              var t := ParseValue(value).value.sampledAt;
              if value[0].RawNumber? then t as real <= value[0].value * 1_000_000_000.0 < t as real + 1.0
              else value[0].RawNull? && t == 0
  {
    if ParseValue(value).Some? {
      ReadingsMeanTheirSample(value);
      ZeroInstant();
    }
  }

  lemma ZeroInstant()
    ensures InstantOf(0.0) == 0
  {
    assert (0.0).Floor == 0;
  }

  /** A null in place of the timestamp is accepted. */
  lemma NullTimestampIsAccepted()
    ensures ParseValue([RawNull, RawText(Finite(1.0))]) == Some(Reading(Up, 0))
  {
    ZeroInstant();
  }

  // ------------------------------------------------------------ specification

  predicate Matches(c: ScrapeIdentity, s: Sample) {
    c.job == s.job && c.instance == s.instance
  }

  predicate Configured(scrapes: seq<ScrapeIdentity>, s: Sample) {
    exists c | c in scrapes :: Matches(c, s)
  }

  /** Every identity has at most one matching sample, and every matching sample reads as up or down. */
  ghost predicate Joinable(scrapes: seq<ScrapeIdentity>, samples: seq<Sample>) {
    && (forall c, i, j | c in scrapes && 0 <= i < j < |samples| :: !(Matches(c, samples[i]) && Matches(c, samples[j])))
    && forall s | s in samples && Configured(scrapes, s) :: ParseValue(s.value).Some?
  }

  /** `h` is the entry of `c`: the reading of the sample that matches, or missing. */
  ghost predicate Reports(c: ScrapeIdentity, samples: seq<Sample>, h: ScrapeHealth) {
    && h.id == c.id
    && (forall s | s in samples && Matches(c, s) ::
          ParseValue(s.value) == Some(Reading(h.state, h.sampledAt.GetOr(0))) && h.sampledAt.Some?)
    && ((forall s | s in samples :: !Matches(c, s)) ==> h.state == Missing && h.sampledAt.None?)
  }

  ghost predicate AscendingIds(out: seq<ScrapeHealth>) {
    forall i, j | 0 <= i < j < |out| :: Compare(out[i].id, out[j].id) < 0
  }

  ghost predicate IsReported(c: ScrapeIdentity, samples: seq<Sample>, out: seq<ScrapeHealth>) {
    exists h | h in out :: Reports(c, samples, h)
  }

  ghost predicate IsReport(scrapes: seq<ScrapeIdentity>, samples: seq<Sample>, h: ScrapeHealth) {
    exists c | c in scrapes :: Reports(c, samples, h)
  }

  /**
   An identity configured without an instance does not stand for all instances of its job: it is missing
   exactly when every series of the job has an instance.
   */
  lemma OmittedInstanceMeansNoInstance(c: ScrapeIdentity, samples: seq<Sample>, h: ScrapeHealth)
    requires c.instance == "" && Reports(c, samples, h)
    ensures h.state == Missing <==> forall s | s in samples && s.job == c.job :: s.instance != ""
  {
    if s :| s in samples && s.job == c.job && s.instance == "" {
      assert Matches(c, s);
      ReadingsMeanTheirSample(s.value);
    }
  }

  /** One entry per identity, in strictly ascending order of the identifiers. */
  ghost predicate Joined(scrapes: seq<ScrapeIdentity>, samples: seq<Sample>, out: seq<ScrapeHealth>) {
    && |out| == |scrapes|
    && AscendingIds(out)
    && (forall c | c in scrapes :: IsReported(c, samples, out))
    && forall h | h in out :: IsReport(scrapes, samples, h)
  }

  /** The result of the tool for a decoded response. */
  ghost predicate ScrapesResult(
    targetID: string, scrapes: seq<ScrapeIdentity>, reply: QueryReply, now: Instant, r: Result<ScrapesOutput>)
  {
    match reply
    case QueryFailed(error) => r == Err(error)
    case QueryMalformed => r == Err(Value(SourceInvalidResponse))
    case QueryDecoded(status, resultType, samples, warnings) =>
      if status != "success" || resultType != "vector" || !Joinable(scrapes, samples) then
        r == Err(Value(SourceInvalidResponse))
      else if !Encodable(now) then r == Err(ENCODE_ERROR)
      else
        && r.Ok? && r.value.target == targetID && r.value.observedAt == now
        && Joined(scrapes, samples, r.value.scrapes)
        && (r.value.partial <==> warnings > 0)
  }

  // ------------------------------------------------------------------- method

  function CompareScrapes(a: ScrapeHealth, b: ScrapeHealth): int {
    Compare(a.id, b.id)
  }

  function KeyOf(s: Sample): string {
    SeriesKey(s.job, s.instance)
  }

  /** The keys of the configured identities pick out the configured samples. */
  lemma KeysPickConfigured(scrapes: seq<ScrapeIdentity>, s: Sample)
    requires DistinctIdentities(scrapes)
    ensures KeyOf(s) in Keys(scrapes) <==> Configured(scrapes, s)
    ensures forall c | c in scrapes :: SeriesKey(c.job, c.instance) == KeyOf(s) <==> Matches(c, s)
  {
    hide ValidLabelValue, SeriesKey;
    forall c | c in scrapes ensures SeriesKey(c.job, c.instance) == KeyOf(s) <==> Matches(c, s) {
      IdentitiesLackNul(c);
      SeriesKeyIdentifies(c.job, c.instance, s.job, s.instance);
    }
  }

  /** The index after the first `n` samples: the readings of the configured ones by key, without repetition. */
  ghost predicate Indexes(scrapes: seq<ScrapeIdentity>, samples: seq<Sample>, index: map<string, Reading>) {
    && (forall s | s in samples && Configured(scrapes, s) ::
          ParseValue(s.value).Some? && KeyOf(s) in index && index[KeyOf(s)] == ParseValue(s.value).value)
    && (forall k | k in index :: exists s | s in samples :: Configured(scrapes, s) && KeyOf(s) == k)
    && forall i, j | 0 <= i < j < |samples| && Configured(scrapes, samples[i]) && Configured(scrapes, samples[j]) ::
         KeyOf(samples[i]) != KeyOf(samples[j])
  }

  /** The pass over the samples. */
  method IndexSamples(scrapes: seq<ScrapeIdentity>, samples: seq<Sample>) returns (index: Option<map<string, Reading>>)
    requires DistinctIdentities(scrapes)
    ensures index.Some? <==> Joinable(scrapes, samples)
    ensures index.Some? ==> Indexes(scrapes, samples, index.value)
  {
    hide SeriesKey, ParseValue, ValidIdentity, Keys, Configured, Matches, KeyOf;
    var configured := ConfiguredKeys(scrapes);
    var readings: map<string, Reading> := map[];
    for n := 0 to |samples|
      invariant Indexes(scrapes, samples[..n], readings)
    {
      var sample := samples[n];
      var key := KeyOf(sample);
      KeysPickConfigured(scrapes, sample);
      assert samples[..n + 1] == samples[..n] + [sample];
      if key !in configured {
        IndexSkips(scrapes, samples[..n], sample, readings);
      } else if key in readings {
        RepeatedKeyIsAmbiguous(scrapes, samples, n, readings);
        return None;
      } else {
        var reading := ParseValue(sample.value);
        if reading.None? {
          assert sample in samples;
          return None;
        }
        IndexGrows(scrapes, samples[..n], sample, readings, reading.value);
        readings := readings[key := reading.value];
      }
    }
    assert samples[..|samples|] == samples;
    IndexedIsJoinable(scrapes, samples, readings);
    return Some(readings);
  }

  method ConfiguredKeys(scrapes: seq<ScrapeIdentity>) returns (configured: set<string>)
    ensures configured == Keys(scrapes)
  {
    configured := {};
    for i := 0 to |scrapes|
      invariant configured == Keys(scrapes[..i])
    {
      assert scrapes[..i + 1] == scrapes[..i] + [scrapes[i]];
      SeenGrows(scrapes[..i], scrapes[i]);
      configured := configured + {SeriesKey(scrapes[i].job, scrapes[i].instance)};
    }
    assert scrapes[..|scrapes|] == scrapes;
  }

  lemma IndexSkips(scrapes: seq<ScrapeIdentity>, samples: seq<Sample>, s: Sample, index: map<string, Reading>)
    requires Indexes(scrapes, samples, index) && !Configured(scrapes, s)
    ensures Indexes(scrapes, samples + [s], index)
  {
    hide Configured, KeyOf, ParseValue;
    forall k | k in index ensures exists t | t in samples + [s] :: Configured(scrapes, t) && KeyOf(t) == k {
      var t :| t in samples && Configured(scrapes, t) && KeyOf(t) == k;
      assert t in samples + [s];
    }
  }

  lemma IndexGrows(
    scrapes: seq<ScrapeIdentity>, samples: seq<Sample>, s: Sample, index: map<string, Reading>, reading: Reading)
    requires Indexes(scrapes, samples, index) && Configured(scrapes, s)
    requires KeyOf(s) !in index && ParseValue(s.value) == Some(reading)
    ensures Indexes(scrapes, samples + [s], index[KeyOf(s) := reading])
  {
    hide Configured, KeyOf, ParseValue;
    forall t | t in samples && Configured(scrapes, t) ensures KeyOf(t) != KeyOf(s) {
      assert KeyOf(t) in index;
    }
    var grown := index[KeyOf(s) := reading];
    forall k | k in grown
      ensures exists t | t in samples + [s] :: Configured(scrapes, t) && KeyOf(t) == k
    {
      if k == KeyOf(s) {
        assert s in samples + [s];
      } else {
        var t :| t in samples && Configured(scrapes, t) && KeyOf(t) == k;
        assert t in samples + [s];
      }
    }
  }

  lemma RepeatedKeyIsAmbiguous(
    scrapes: seq<ScrapeIdentity>, samples: seq<Sample>, n: nat, index: map<string, Reading>)
    requires DistinctIdentities(scrapes) && n < |samples|
    requires Indexes(scrapes, samples[..n], index)
    requires Configured(scrapes, samples[n]) && KeyOf(samples[n]) in index
    ensures !Joinable(scrapes, samples)
  {
    hide ParseValue, SeriesKey, ValidIdentity, KeyOf;
    var s :| s in samples[..n] && Configured(scrapes, s) && KeyOf(s) == KeyOf(samples[n]);
    var i :| 0 <= i < n && samples[i] == s;
    var c :| c in scrapes && Matches(c, samples[n]);
    KeysPickConfigured(scrapes, samples[n]);
    KeysPickConfigured(scrapes, s);
    assert Matches(c, samples[i]) && Matches(c, samples[n]);
  }

  lemma IndexedIsJoinable(scrapes: seq<ScrapeIdentity>, samples: seq<Sample>, index: map<string, Reading>)
    requires DistinctIdentities(scrapes) && Indexes(scrapes, samples, index)
    ensures Joinable(scrapes, samples)
  {
    hide ParseValue, SeriesKey, ValidIdentity, KeyOf;
    forall c, i, j | c in scrapes && 0 <= i < j < |samples|
      ensures !(Matches(c, samples[i]) && Matches(c, samples[j]))
    {
      KeysPickConfigured(scrapes, samples[i]);
      KeysPickConfigured(scrapes, samples[j]);
    }
  }

  /** The entry of one identity from the index. */
  function Entry(c: ScrapeIdentity, index: map<string, Reading>): ScrapeHealth {
    var key := SeriesKey(c.job, c.instance);
    if key in index then ScrapeHealth(c.id, index[key].state, Some(index[key].sampledAt))
    else ScrapeHealth(c.id, Missing, None)
  }

  lemma EntryReports(scrapes: seq<ScrapeIdentity>, samples: seq<Sample>, index: map<string, Reading>, c: ScrapeIdentity)
    requires DistinctIdentities(scrapes) && Indexes(scrapes, samples, index) && c in scrapes
    ensures Reports(c, samples, Entry(c, index))
  {
    hide ParseValue, SeriesKey, ValidIdentity;
    var key := SeriesKey(c.job, c.instance);
    forall s | s in samples ensures KeyOf(s) == key <==> Matches(c, s) {
      KeysPickConfigured(scrapes, s);
    }
    if key in index {
      var s :| s in samples && Configured(scrapes, s) && KeyOf(s) == key;
      assert Matches(c, s);
    }
  }

  /** The loop over the identities and the sort. */
  method CollectEntries(scrapes: seq<ScrapeIdentity>, ghost samples: seq<Sample>, index: map<string, Reading>)
    returns (out: seq<ScrapeHealth>)
    requires DistinctIdentities(scrapes) && Indexes(scrapes, samples, index)
    ensures Joined(scrapes, samples, out)
  {
    hide Indexes, Entry, ValidIdentity, Compare;
    var entries: seq<ScrapeHealth> := [];
    for i := 0 to |scrapes|
      invariant |entries| == i
      invariant forall j | 0 <= j < i :: entries[j] == Entry(scrapes[j], index)
    {
      entries := entries + [Entry(scrapes[i], index)];
    }
    CompareScrapesIsTotalPreorder();
    out := SortSlice(entries, CompareScrapes);
    EntriesAreJoined(scrapes, samples, index, entries, out);
  }

  lemma CompareScrapesIsTotalPreorder()
    ensures TotalPreorder(CompareScrapes)
  {
    forall a, b ensures FlipsAt(CompareScrapes, a, b) {
      CompareIsAntisymmetric(a.id, b.id);
    }
    forall a, b, c ensures TransitiveAt(CompareScrapes, a, b, c) {
      if CompareScrapes(a, b) <= 0 && CompareScrapes(b, c) <= 0 {
        CompareIsTransitive(a.id, b.id, c.id);
      }
    }
  }

  lemma SortedEntriesAscend(entries: seq<ScrapeHealth>, out: seq<ScrapeHealth>)
    requires IsSorting(CompareScrapes, entries, out)
    requires forall i, j | 0 <= i < j < |entries| :: entries[i].id != entries[j].id
    ensures AscendingIds(out)
  {
    hide Compare;
    forall i, j | 0 <= i < j < |entries| ensures CompareScrapes(entries[i], entries[j]) != 0 {
      CompareIsAntisymmetric(entries[i].id, entries[j].id);
    }
    CompareScrapesIsTotalPreorder();
    SortingIsStrict(CompareScrapes, entries, out);
    forall i, j | 0 <= i < j < |out| ensures Compare(out[i].id, out[j].id) < 0 {
      assert CompareScrapes(out[i], out[j]) < 0;
    }
  }

  lemma EntriesAreJoined(
    scrapes: seq<ScrapeIdentity>, samples: seq<Sample>, index: map<string, Reading>,
    entries: seq<ScrapeHealth>, out: seq<ScrapeHealth>)
    requires DistinctIdentities(scrapes) && Indexes(scrapes, samples, index)
    requires |entries| == |scrapes| && forall j | 0 <= j < |scrapes| :: entries[j] == Entry(scrapes[j], index)
    requires IsSorting(CompareScrapes, entries, out)
    ensures Joined(scrapes, samples, out)
  {
    hide Compare, ValidIdentity, Indexes, Reports;
    SameMultiset(entries, out);
    forall j | 0 <= j < |scrapes| ensures entries[j].id == scrapes[j].id && Reports(scrapes[j], samples, entries[j]) {
      EntryReports(scrapes, samples, index, scrapes[j]);
    }
    SortedEntriesAscend(entries, out);
    forall c | c in scrapes ensures IsReported(c, samples, out) {
      var j :| 0 <= j < |scrapes| && scrapes[j] == c;
      assert entries[j] in out;
    }
    forall h | h in out ensures IsReport(scrapes, samples, h) {
      var j :| 0 <= j < |entries| && entries[j] == h;
      assert scrapes[j] in scrapes;
    }
  }

  /** `GetScrapeHealth` for the configured target, given the answer to the query. */
  method ObserveScrapes(
    targetID: string, scrapes: seq<ScrapeIdentity>, reply: QueryReply, now: Instant, format: Instant -> string)
    returns (r: Result<ScrapesOutput>)
    requires Identifier(targetID) && AcceptedScrapes(scrapes) && Rfc3339(format)
    ensures ScrapesResult(targetID, scrapes, reply, now, r)
  {
    hide Joinable, Joined, Indexes, ValidIdentity, Entry;
    if reply.QueryFailed? {
      return Err(reply.error);
    }
    if reply.QueryMalformed? || reply.status != "success" || reply.resultType != "vector" {
      return Err(Value(SourceInvalidResponse));
    }
    var index := IndexSamples(scrapes, reply.samples);
    if index.None? {
      return Err(Value(SourceInvalidResponse));
    }
    var entries := CollectEntries(scrapes, reply.samples, index.value);
    var result := ScrapesOutput(targetID, now, entries, reply.warnings > 0);
    EntriesAreWellFormed(scrapes, reply.samples, result);
    ScrapesNeverTooLarge(result, format);
    var oversized := CheckResultSize(MarshalScrapes(result, format));
    if oversized.Some? {
      return Err(oversized.value);
    }
    return Ok(result);
  }

  lemma EntriesAreWellFormed(scrapes: seq<ScrapeIdentity>, samples: seq<Sample>, out: ScrapesOutput)
    requires Identifier(out.target) && AcceptedScrapes(scrapes)
    requires Joined(scrapes, samples, out.scrapes)
    ensures ScrapesShape(out)
    ensures forall h | h in out.scrapes :: MaybeEncodable(h.sampledAt)
  {
    hide ParseValue, Compare, ValidLabelValue;
    forall h | h in out.scrapes ensures Identifier(h.id) && MaybeEncodable(h.sampledAt) {
      assert IsReport(scrapes, samples, h);
      var c :| c in scrapes && Reports(c, samples, h);
      if s :| s in samples && Matches(c, s) {
        ReadingsAreEncodable(s.value);
      }
    }
  }

  // -------------------------------------------------------------- main results

  /** The two sample lists have the same configured samples, each as often. */
  ghost predicate SameConfigured(scrapes: seq<ScrapeIdentity>, s1: seq<Sample>, s2: seq<Sample>) {
    forall s | Configured(scrapes, s) :: multiset(s1)[s] == multiset(s2)[s]
  }

  /** Permuting the samples, or adding or removing any that match no identity, keeps the configured ones. */
  lemma PermutedOrIrrelevantIsSameConfigured(
    scrapes: seq<ScrapeIdentity>, s1: seq<Sample>, s2: seq<Sample>, others: seq<Sample>)
    requires multiset(s2) == multiset(s1 + others)
    requires forall s | s in others :: !Configured(scrapes, s)
    ensures SameConfigured(scrapes, s1, s2)
  {
    hide Configured;
    forall s | Configured(scrapes, s) ensures multiset(s1)[s] == multiset(s2)[s] {
      assert s !in multiset(others);
      assert multiset(s1 + others) == multiset(s1) + multiset(others);
    }
  }

  lemma SameConfiguredMembers(scrapes: seq<ScrapeIdentity>, s1: seq<Sample>, s2: seq<Sample>, s: Sample)
    requires SameConfigured(scrapes, s1, s2) && Configured(scrapes, s)
    ensures s in s1 <==> s in s2
  {
    hide Configured;
    assert s in s1 <==> multiset(s1)[s] > 0;
    assert s in s2 <==> multiset(s2)[s] > 0;
  }

  lemma {:induction false} TwiceInTwoPlaces<T>(q: seq<T>, x: T) returns (i: nat, j: nat)
    requires multiset(q)[x] >= 2
    ensures i < j < |q| && q[i] == q[j] == x
  {
    assert q == [q[0]] + q[1..];
    if q[0] == x {
      assert multiset(q[1..])[x] >= 1;
      assert x in q[1..];
      i := 0;
      j :| 0 < j < |q| && q[j] == x;
    } else {
      assert multiset(q[1..])[x] >= 2;
      var a, b := TwiceInTwoPlaces(q[1..], x);
      i, j := a + 1, b + 1;
    }
  }

  lemma JoinableTransfers(scrapes: seq<ScrapeIdentity>, s1: seq<Sample>, s2: seq<Sample>)
    requires SameConfigured(scrapes, s1, s2) && Joinable(scrapes, s1)
    ensures Joinable(scrapes, s2)
  {
    hide ParseValue;
    forall s | s in s2 && Configured(scrapes, s) ensures ParseValue(s.value).Some? {
      SameConfiguredMembers(scrapes, s1, s2, s);
    }
    forall c, i, j | c in scrapes && 0 <= i < j < |s2| ensures !(Matches(c, s2[i]) && Matches(c, s2[j])) {
      if Matches(c, s2[i]) && Matches(c, s2[j]) {
        TwoMatchesTransfer(scrapes, s1, s2, c, i, j);
        assert false;
      }
    }
  }

  lemma TwoMatchesTransfer(
    scrapes: seq<ScrapeIdentity>, s1: seq<Sample>, s2: seq<Sample>, c: ScrapeIdentity, i: nat, j: nat)
    requires SameConfigured(scrapes, s1, s2) && c in scrapes
    requires i < j < |s2| && Matches(c, s2[i]) && Matches(c, s2[j])
    ensures exists k, l :: 0 <= k < l < |s1| && Matches(c, s1[k]) && Matches(c, s1[l])
  {
    assert Configured(scrapes, s2[i]) && Configured(scrapes, s2[j]);
    if s2[i] == s2[j] {
      RepetitionCounts(s2, i, j);
      var k, l := TwiceInTwoPlaces(s1, s2[i]);
      assert Matches(c, s1[k]) && Matches(c, s1[l]);
    } else {
      SameConfiguredMembers(scrapes, s1, s2, s2[i]);
      SameConfiguredMembers(scrapes, s1, s2, s2[j]);
      assert s2[i] in s2 && s2[j] in s2;
      var k :| 0 <= k < |s1| && s1[k] == s2[i];
      var l :| 0 <= l < |s1| && s1[l] == s2[j];
      if k < l {
        assert Matches(c, s1[k]) && Matches(c, s1[l]);
      } else {
        assert Matches(c, s1[l]) && Matches(c, s1[k]);
      }
    }
  }

  lemma ReportsTransfer(
    scrapes: seq<ScrapeIdentity>, s1: seq<Sample>, s2: seq<Sample>, c: ScrapeIdentity, h: ScrapeHealth)
    requires SameConfigured(scrapes, s1, s2) && c in scrapes
    requires Reports(c, s1, h)
    ensures Reports(c, s2, h)
  {
    hide ParseValue;
    forall s | Matches(c, s) ensures s in s1 <==> s in s2 {
      assert Configured(scrapes, s);
      SameConfiguredMembers(scrapes, s1, s2, s);
    }
  }

  lemma ReportIsUnique(c: ScrapeIdentity, samples: seq<Sample>, h: ScrapeHealth, k: ScrapeHealth)
    requires Reports(c, samples, h) && Reports(c, samples, k)
    ensures h == k
  {
    hide ParseValue;
    if s :| s in samples && Matches(c, s) {
      assert ParseValue(s.value) == Some(Reading(h.state, h.sampledAt.GetOr(0)));
      assert ParseValue(s.value) == Some(Reading(k.state, k.sampledAt.GetOr(0)));
    }
  }

  /** The entries are determined by the identities and the samples. */
  lemma JoinIsUnique(scrapes: seq<ScrapeIdentity>, samples: seq<Sample>, o1: seq<ScrapeHealth>, o2: seq<ScrapeHealth>)
    requires DistinctIdentities(scrapes)
    requires Joined(scrapes, samples, o1) && Joined(scrapes, samples, o2)
    ensures o1 == o2
  {
    hide IsReport, IsReported, Compare, ValidIdentity;
    JoinedMembers(scrapes, samples, o1, o2);
    JoinedMembers(scrapes, samples, o2, o1);
    CompareScrapesIsTotalPreorder();
    StrictOrderIsUnique(CompareScrapes, o1, o2);
  }

  lemma JoinedMembers(scrapes: seq<ScrapeIdentity>, samples: seq<Sample>, o1: seq<ScrapeHealth>, o2: seq<ScrapeHealth>)
    requires Joined(scrapes, samples, o1) && Joined(scrapes, samples, o2)
    ensures forall h | h in o1 :: h in o2
    ensures AscendingIds(o1)
  {
    hide Reports, Compare;
    forall h | h in o1 ensures h in o2 {
      assert IsReport(scrapes, samples, h);
      var c :| c in scrapes && Reports(c, samples, h);
      assert IsReported(c, samples, o2);
      var k :| k in o2 && Reports(c, samples, k);
      ReportIsUnique(c, samples, h, k);
    }
  }

  lemma JoinedTransfers(scrapes: seq<ScrapeIdentity>, s1: seq<Sample>, s2: seq<Sample>, out: seq<ScrapeHealth>)
    requires SameConfigured(scrapes, s1, s2) && Joined(scrapes, s1, out)
    ensures Joined(scrapes, s2, out)
  {
    hide Reports, AscendingIds, SameConfigured;
    forall c | c in scrapes ensures IsReported(c, s2, out) {
      assert IsReported(c, s1, out);
      var h :| h in out && Reports(c, s1, h);
      ReportsTransfer(scrapes, s1, s2, c, h);
    }
    forall h | h in out ensures IsReport(scrapes, s2, h) {
      assert IsReport(scrapes, s1, h);
      var c :| c in scrapes && Reports(c, s1, h);
      ReportsTransfer(scrapes, s1, s2, c, h);
    }
  }

  /**
   The outcome depends on the configured samples alone: two responses that have the same ones, in any
   order and among any others, duplicated or unparsable though these may be, have one outcome.
   */
  lemma OutcomeDependsOnConfiguredSamples(
    targetID: string, scrapes: seq<ScrapeIdentity>, s1: seq<Sample>, s2: seq<Sample>, warnings: nat, now: Instant,
    r1: Result<ScrapesOutput>, r2: Result<ScrapesOutput>)
    requires AcceptedScrapes(scrapes) && SameConfigured(scrapes, s1, s2)
    requires ScrapesResult(targetID, scrapes, QueryDecoded("success", "vector", s1, warnings), now, r1)
    requires ScrapesResult(targetID, scrapes, QueryDecoded("success", "vector", s2, warnings), now, r2)
    ensures r1 == r2
    ensures Encodable(now) ==> (r1.Ok? <==> Joinable(scrapes, s1))
  {
    hide Joinable, Joined, ValidIdentity;
    assert SameConfigured(scrapes, s2, s1);
    if Joinable(scrapes, s1) { JoinableTransfers(scrapes, s1, s2); }
    if Joinable(scrapes, s2) { JoinableTransfers(scrapes, s2, s1); }
    if Joinable(scrapes, s1) && Encodable(now) {
      JoinedTransfers(scrapes, s1, s2, r1.value.scrapes);
      JoinIsUnique(scrapes, s2, r1.value.scrapes, r2.value.scrapes);
    }
  }
}
