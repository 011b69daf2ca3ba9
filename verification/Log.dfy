/**
 The audit log as any interleaving of concurrent calls leaves it. Every call ends by encoding its event
 as one line under a mutex; the writer takes the bytes of a line in pieces of any size.
 */
module Log {
  import opened Text
  import opened Errors
  import opened Contracts
  import opened Encoding
  import opened ToolErrors
  import opened Audit

  // -------------------------------------------------------------------- lines

  /** The members of an event that are left out when empty. */
  function OptionalText(name: string, value: string, rest: string): string {
    if value == "" then rest else Then(name, Quote(value), rest)
  }

  function OptionalMember(name: string, value: Option<string>): string {
    if value.None? then "" else "," + Member(name, value.value, "")
  }

  function OptionalDecimal(n: Option<int>): Option<string> {
    if n.None? then None else Some(Decimal(n.value))
  }

  function OptionalBool(b: Option<bool>): Option<string> {
    if b.None? then None else Some(EncodeBool(b.value))
  }

  function EncodeCounts(e: Event): string {
    OptionalMember("itemCount", OptionalDecimal(e.itemCount)) +
    OptionalMember("partial", OptionalBool(e.partial)) +
    OptionalMember("truncated", OptionalBool(e.truncated)) + "}"
  }

  function EncodeOutcome(e: Event): string {
    Then("durationMs", Decimal(e.durationMS), Member("outcome", Quote(e.outcome.Text()), EncodeCounts(e)))
  }

  function EncodeSubject(e: Event): string {
    Then("tool", Quote(e.tool.Text()),
    OptionalText("target", e.target,
    OptionalText("scope", e.scope, EncodeOutcome(e))))
  }

  /** The JSON text of an event; `stamp` gives the text of its time. */
  function EncodeEvent(e: Event, stamp: Instant -> string): string {
    "{" + Then("timestamp", Quote(stamp(e.timestamp)),
          Then("schemaVersion", Decimal(e.schemaVersion), EncodeSubject(e)))
  }

  const NEWLINE := '\n'

  predicate OneLine(s: string) {
    Lacks(s, NEWLINE)
  }

  lemma {:induction false} QuotesAreOneLine(s: string)
    ensures OneLine(Escape(s)) && OneLine(Quote(s))
  {
    if s != "" {
      QuotesAreOneLine(s[1..]);
    }
  }

  lemma {:induction false} DigitsAreOneLine(n: nat)
    ensures OneLine(Digits(n))
  {
    if n >= 10 {
      DigitsAreOneLine(n / 10);
    }
  }

  lemma DecimalsAreOneLine(n: int)
    ensures OneLine(Decimal(n))
  {
    DigitsAreOneLine(if n < 0 then -n else n);
  }

  lemma MembersAreOneLine(name: string, value: string, rest: string)
    requires OneLine(name) && OneLine(value) && OneLine(rest)
    ensures OneLine(Member(name, value, rest)) && OneLine(Then(name, value, rest))
  {
  }

  lemma OptionalMembersAreOneLine(name: string, n: Option<int>, b: Option<bool>)
    requires OneLine(name)
    ensures OneLine(OptionalMember(name, OptionalDecimal(n))) && OneLine(OptionalMember(name, OptionalBool(b)))
  {
    hide Decimal, Member;
    if n.Some? {
      DecimalsAreOneLine(n.value);
      MembersAreOneLine(name, Decimal(n.value), "");
    }
    if b.Some? {
      MembersAreOneLine(name, EncodeBool(b.value), "");
    }
  }

  lemma CountsAreOneLine(e: Event)
    ensures OneLine(EncodeCounts(e))
  {
    hide OptionalMember, OptionalDecimal, OptionalBool;
    OptionalMembersAreOneLine("itemCount", e.itemCount, None);
    OptionalMembersAreOneLine("partial", None, e.partial);
    OptionalMembersAreOneLine("truncated", None, e.truncated);
  }

  lemma OutcomeIsOneLine(e: Event)
    ensures OneLine(EncodeOutcome(e))
  {
    hide EncodeCounts, Member, Then, Quote, Decimal;
    CountsAreOneLine(e);
    QuotesAreOneLine(e.outcome.Text());
    MembersAreOneLine("outcome", Quote(e.outcome.Text()), EncodeCounts(e));
    DecimalsAreOneLine(e.durationMS);
    MembersAreOneLine("durationMs", Decimal(e.durationMS), Member("outcome", Quote(e.outcome.Text()), EncodeCounts(e)));
  }

  lemma OptionalTextIsOneLine(name: string, value: string, rest: string)
    requires OneLine(name) && OneLine(rest)
    ensures OneLine(OptionalText(name, value, rest))
  {
    hide Quote, Then;
    QuotesAreOneLine(value);
    MembersAreOneLine(name, Quote(value), rest);
  }

  lemma SubjectIsOneLine(e: Event)
    ensures OneLine(EncodeSubject(e))
  {
    hide EncodeOutcome, OptionalText, Then, Quote;
    OutcomeIsOneLine(e);
    OptionalTextIsOneLine("scope", e.scope, EncodeOutcome(e));
    OptionalTextIsOneLine("target", e.target, OptionalText("scope", e.scope, EncodeOutcome(e)));
    QuotesAreOneLine(e.tool.Text());
    MembersAreOneLine("tool", Quote(e.tool.Text()),
                      OptionalText("target", e.target, OptionalText("scope", e.scope, EncodeOutcome(e))));
  }

  /** Whatever the event and the clock say, the event takes one line. */
  lemma EventsAreOneLine(e: Event, stamp: Instant -> string)
    ensures OneLine(EncodeEvent(e, stamp))
  {
    hide EncodeSubject, Then, Quote, Decimal;
    SubjectIsOneLine(e);
    DecimalsAreOneLine(e.schemaVersion);
    MembersAreOneLine("schemaVersion", Decimal(e.schemaVersion), EncodeSubject(e));
    QuotesAreOneLine(stamp(e.timestamp));
    MembersAreOneLine("timestamp", Quote(stamp(e.timestamp)),
                      Then("schemaVersion", Decimal(e.schemaVersion), EncodeSubject(e)));
  }

  // ------------------------------------------------------------------ members

  function Pair(name: string, value: string): string {
    "\"" + name + "\":" + value
  }

  function PairIf(present: bool, name: string, value: string): seq<string> {
    if present then [Pair(name, value)] else []
  }

  /** The members of an event in the order of the schema; an empty identifier, count or flag has none. */
  function EventMembers(e: Event, stamp: Instant -> string): seq<string> {
    [Pair("timestamp", Quote(stamp(e.timestamp)))]
    + ([Pair("schemaVersion", Decimal(e.schemaVersion))] + SubjectMembers(e))
  }

  function SubjectMembers(e: Event): seq<string> {
    [Pair("tool", Quote(e.tool.Text()))]
    + (PairIf(e.target != "", "target", Quote(e.target))
    + (PairIf(e.scope != "", "scope", Quote(e.scope)) + OutcomeMembers(e)))
  }

  function OutcomeMembers(e: Event): seq<string> {
    [Pair("durationMs", Decimal(e.durationMS))] + ([Pair("outcome", Quote(e.outcome.Text()))] + CountMembers(e))
  }

  function CountMembers(e: Event): seq<string> {
    PairIf(e.itemCount.Some?, "itemCount", Decimal(e.itemCount.GetOr(0)))
    + PairIf(e.partial.Some?, "partial", EncodeBool(e.partial.GetOr(false)))
    + PairIf(e.truncated.Some?, "truncated", EncodeBool(e.truncated.GetOr(false)))
  }

  /** A member and a text of members make one text of members. */
  lemma ThenJoins(name: string, value: string, parts: seq<string>)
    requires parts != []
    ensures Then(name, value, Join(parts, ',') + "}") == Join([Pair(name, value)] + parts, ',') + "}"
  {
    assert ([Pair(name, value)] + parts)[1..] == parts;
  }

  lemma OptionalTextJoins(name: string, value: string, parts: seq<string>)
    requires parts != []
    ensures OptionalText(name, value, Join(parts, ',') + "}")
         == Join(PairIf(value != "", name, Quote(value)) + parts, ',') + "}"
  {
    hide Quote, Then, Join;
    if value == "" {
      assert PairIf(value != "", name, Quote(value)) + parts == parts;
    } else {
      ThenJoins(name, Quote(value), parts);
    }
  }

  lemma {:induction false} JoinEnds(parts: seq<string>, last: string)
    requires parts != []
    ensures Join(parts + [last], ',') == Join(parts, ',') + ("," + last)
    decreases |parts|
  {
    if |parts| == 1 {
      assert (parts + [last])[1..] == [last];
    } else {
      JoinEnds(parts[1..], last);
      assert (parts + [last])[1..] == parts[1..] + [last];
    }
  }

  lemma OptionalMemberJoins(parts: seq<string>, name: string, value: Option<string>)
    requires parts != []
    ensures Join(parts + PairIf(value.Some?, name, value.GetOr("")), ',')
         == Join(parts, ',') + OptionalMember(name, value)
  {
    hide Join;
    if value.None? {
      assert parts + PairIf(false, name, "") == parts;
    } else {
      JoinEnds(parts, Pair(name, value.value));
      assert Member(name, value.value, "") == Pair(name, value.value);
    }
  }

  lemma CountsJoin(e: Event, first: string)
    ensures Join([first] + CountMembers(e), ',') + "}" == first + EncodeCounts(e)
  {
    hide Join, OptionalMember, Decimal, EncodeBool, PairIf;
    var n, p, t := OptionalDecimal(e.itemCount), OptionalBool(e.partial), OptionalBool(e.truncated);
    AbsentPairs(e);
    var one := [first] + PairIf(n.Some?, "itemCount", n.GetOr(""));
    var two := one + PairIf(p.Some?, "partial", p.GetOr(""));
    var three := two + PairIf(t.Some?, "truncated", t.GetOr(""));
    OptionalMemberJoins([first], "itemCount", n);
    OptionalMemberJoins(one, "partial", p);
    OptionalMemberJoins(two, "truncated", t);
    assert [first] + CountMembers(e) == three;
    JoinOne(first);
  }

  lemma JoinOne(first: string)
    ensures Join([first], ',') == first
  {
  }

  lemma AbsentPairs(e: Event)
    ensures PairIf(e.itemCount.Some?, "itemCount", Decimal(e.itemCount.GetOr(0)))
         == PairIf(OptionalDecimal(e.itemCount).Some?, "itemCount", OptionalDecimal(e.itemCount).GetOr(""))
    ensures PairIf(e.partial.Some?, "partial", EncodeBool(e.partial.GetOr(false)))
         == PairIf(OptionalBool(e.partial).Some?, "partial", OptionalBool(e.partial).GetOr(""))
    ensures PairIf(e.truncated.Some?, "truncated", EncodeBool(e.truncated.GetOr(false)))
         == PairIf(OptionalBool(e.truncated).Some?, "truncated", OptionalBool(e.truncated).GetOr(""))
  {
    hide Decimal, EncodeBool;
  }

  lemma OutcomeIsItsMembers(e: Event)
    ensures EncodeOutcome(e) == Join(OutcomeMembers(e), ',') + "}"
  {
    hide Join, Then, Member, Quote, Decimal, EncodeCounts, CountMembers;
    var outcome := Pair("outcome", Quote(e.outcome.Text()));
    CountsJoin(e, outcome);
    MemberIsPair("outcome", Quote(e.outcome.Text()), EncodeCounts(e));
    ThenJoins("durationMs", Decimal(e.durationMS), [outcome] + CountMembers(e));
  }

  lemma SubjectIsItsMembers(e: Event)
    ensures EncodeSubject(e) == Join(SubjectMembers(e), ',') + "}"
  {
    hide Join, Then, OptionalText, Quote, EncodeOutcome, PairIf, OutcomeMembers;
    OutcomeIsItsMembers(e);
    assert OutcomeMembers(e) != [] by { OutcomeMembersExist(e); }
    OptionalTextJoins("scope", e.scope, OutcomeMembers(e));
    var scoped := PairIf(e.scope != "", "scope", Quote(e.scope)) + OutcomeMembers(e);
    OptionalTextJoins("target", e.target, scoped);
    ThenJoins("tool", Quote(e.tool.Text()), PairIf(e.target != "", "target", Quote(e.target)) + scoped);
  }

  lemma OutcomeMembersExist(e: Event)
    ensures OutcomeMembers(e) != []
  {
  }

  /** An event is encoded as the object of its members, in order and separated by commas. */
  lemma EventIsItsMembers(e: Event, stamp: Instant -> string)
    ensures EncodeEvent(e, stamp) == "{" + (Join(EventMembers(e, stamp), ',') + "}")
  {
    hide Join, Then, Quote, Decimal, EncodeSubject, PairIf, CountMembers;
    SubjectIsItsMembers(e);
    var version := [Pair("schemaVersion", Decimal(e.schemaVersion))];
    ThenJoins("schemaVersion", Decimal(e.schemaVersion), SubjectMembers(e));
    ThenJoins("timestamp", Quote(stamp(e.timestamp)), version + SubjectMembers(e));
    assert EventMembers(e, stamp) == [Pair("timestamp", Quote(stamp(e.timestamp)))] + (version + SubjectMembers(e));
  }

  lemma MemberIsPair(name: string, value: string, rest: string)
    ensures Member(name, value, rest) == Pair(name, value) + rest
  {
  }
}
