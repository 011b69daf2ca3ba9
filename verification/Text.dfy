/**
 Go strings as byte sequences: a `string` here stands for the bytes of a Go string, one char per byte.
 The module holds the bytewise order of `strings.Compare`, `strings.Split`, the character classes and
 the patterns the adapters validate with, and the NUL-joined composite keys they sort by.
 */
module Text {

  const NUL: char := '\0'

  /** `strings.Compare`: the sign of the bytewise lexicographic comparison. */
  function Compare(a: string, b: string): int {
    if a == "" then (if b == "" then 0 else -1)
    else if b == "" then 1
    else if a[0] < b[0] then -1
    else if b[0] < a[0] then 1
    else Compare(a[1..], b[1..])
  }

  /** Comparison is zero on equal strings only, and swapping the arguments flips the sign. */
  lemma {:induction false} CompareIsAntisymmetric(a: string, b: string)
    ensures Compare(a, b) == -Compare(b, a)
    ensures Compare(a, b) == 0 <==> a == b
    ensures -1 <= Compare(a, b) <= 1
    decreases |a|
  {
    if a != "" && b != "" && a[0] == b[0] {
      CompareIsAntisymmetric(a[1..], b[1..]);
      assert a == [a[0]] + a[1..] && b == [b[0]] + b[1..];
    }
  }

  lemma {:induction false} CompareIsTransitive(a: string, b: string, c: string)
    requires Compare(a, b) <= 0 && Compare(b, c) <= 0
    ensures Compare(a, c) <= 0
    decreases |a|
  {
    if a != "" && b != "" && c != "" && a[0] == b[0] == c[0] {
      CompareIsTransitive(a[1..], b[1..], c[1..]);
    }
  }

  /** No byte of `s` is `c`. NUL is the least byte, so a NUL-free string is made of greater bytes. */
  predicate Lacks(s: string, c: char) {
    forall i | 0 <= i < |s| :: s[i] != c
  }

  /**
   Joining with NUL turns the comparison into a lexicographic one, for heads that lack NUL.
   A shorter head that is a prefix of the other meets NUL, below every byte of the longer one.
   */
  lemma {:induction false} CompareJoined(a: string, b: string, s: string, t: string)
    requires Lacks(a, NUL) && Lacks(b, NUL)
    ensures Compare(a + [NUL] + s, b + [NUL] + t)
         == (if Compare(a, b) != 0 then Compare(a, b) else Compare(s, t))
    decreases |a|
  {
    var x, y := a + [NUL] + s, b + [NUL] + t;
    if a == "" && b == "" {
      assert x[1..] == s && y[1..] == t;
    } else if a == "" {
      assert x[0] == NUL && y[0] == b[0];
    } else if b == "" {
      assert x[0] == a[0] && y[0] == NUL;
    } else if a[0] == b[0] {
      CompareJoined(a[1..], b[1..], s, t);
      assert x[1..] == a[1..] + [NUL] + s && y[1..] == b[1..] + [NUL] + t;
    } else {
      assert x[0] == a[0] && y[0] == b[0];
    }
  }

  /** The composite sort key `scope + "\x00" + kind + "\x00" + name` of the list tools. */
  function CompositeKey(scope: string, kind: string, name: string): string {
    scope + [NUL] + kind + [NUL] + name
  }

  /** Lexicographic comparison of triples. */
  function CompareTriples(s1: string, k1: string, n1: string, s2: string, k2: string, n2: string): int {
    if Compare(s1, s2) != 0 then Compare(s1, s2)
    else if Compare(k1, k2) != 0 then Compare(k1, k2)
    else Compare(n1, n2)
  }

  /**
   The composed key is a correct order: for NUL-free scopes and kinds it compares like the triple,
   and equal keys force equal triples. Nothing is asked of the names.
   */
  lemma CompositeKeyOrdersTriples(s1: string, k1: string, n1: string, s2: string, k2: string, n2: string)
    requires Lacks(s1, NUL) && Lacks(k1, NUL) && Lacks(s2, NUL) && Lacks(k2, NUL)
    ensures Compare(CompositeKey(s1, k1, n1), CompositeKey(s2, k2, n2)) == CompareTriples(s1, k1, n1, s2, k2, n2)
    ensures CompositeKey(s1, k1, n1) == CompositeKey(s2, k2, n2) <==> s1 == s2 && k1 == k2 && n1 == n2
  {
    var t1, t2 := k1 + [NUL] + n1, k2 + [NUL] + n2;
    assert CompositeKey(s1, k1, n1) == s1 + [NUL] + t1;
    assert CompositeKey(s2, k2, n2) == s2 + [NUL] + t2;
    CompareJoined(s1, s2, t1, t2);
    CompareJoined(k1, k2, n1, n2);
    CompareIsAntisymmetric(CompositeKey(s1, k1, n1), CompositeKey(s2, k2, n2));
    CompareIsAntisymmetric(s1, s2);
    CompareIsAntisymmetric(k1, k2);
    CompareIsAntisymmetric(n1, n2);
  }

  /** The condition on scopes is needed: with a NUL in a scope two different triples share a key. */
  lemma CompositeKeyNeedsNulFreeScopes()
    ensures CompositeKey("a", "b", "c\0d") == CompositeKey("a\0b", "c", "d")
  {
    assert CompositeKey("a", "b", "c\0d") == ['a', NUL, 'b', NUL, 'c', NUL, 'd'];
    assert CompositeKey("a\0b", "c", "d") == ['a', NUL, 'b', NUL, 'c', NUL, 'd'];
  }

  // ---------------------------------------------------------------- splitting

  /** `strings.Split(s, sep)` for a one-byte separator. */
  function Split(s: string, sep: char): (parts: seq<string>)
    ensures |parts| >= 1
  {
    if s == "" then [""]
    else
      var rest := Split(s[1..], sep);
      if s[0] == sep then [""] + rest
      else [[s[0]] + rest[0]] + rest[1..]
  }

  function Join(parts: seq<string>, sep: char): string
    requires |parts| >= 1
  {
    if |parts| == 1 then parts[0] else parts[0] + [sep] + Join(parts[1..], sep)
  }

  /** No part contains the separator. */
  predicate Separated(parts: seq<string>, sep: char) {
    |parts| >= 1 && forall p | p in parts :: Lacks(p, sep)
  }

  lemma {:induction false} SplitSeparates(s: string, sep: char)
    ensures Separated(Split(s, sep), sep)
  {
    if s != "" {
      SplitSeparates(s[1..], sep);
      var rest := Split(s[1..], sep);
      assert Lacks(rest[0], sep);
      forall p | p in Split(s, sep) ensures Lacks(p, sep) {
        if p in rest { assert Lacks(p, sep); }
      }
    }
  }

  lemma {:induction false} SplitThenJoin(s: string, sep: char)
    ensures Join(Split(s, sep), sep) == s
  {
    if s != "" {
      SplitThenJoin(s[1..], sep);
      var rest := Split(s[1..], sep);
      assert s == [s[0]] + s[1..];
      if s[0] == sep {
        assert Split(s, sep)[1..] == rest;
      } else {
        JoinPrepend(s[0], rest, sep);
      }
    }
  }

  lemma JoinPrepend(c: char, parts: seq<string>, sep: char)
    requires |parts| >= 1
    ensures Join([[c] + parts[0]] + parts[1..], sep) == [c] + Join(parts, sep)
  {
    var longer := [[c] + parts[0]] + parts[1..];
    assert longer[1..] == parts[1..];
    if |parts| > 1 {
      assert Join(longer, sep) == ([c] + parts[0]) + [sep] + Join(parts[1..], sep);
    }
  }

  /** Splitting a join gives the parts back, so a decomposition into separated parts is unique. */
  lemma {:induction false} JoinThenSplit(parts: seq<string>, sep: char)
    requires Separated(parts, sep)
    ensures Split(Join(parts, sep), sep) == parts
    decreases |parts|, |parts[0]|
  {
    var joined := Join(parts, sep);
    if parts[0] == "" {
      if |parts| > 1 {
        assert joined == [sep] + Join(parts[1..], sep);
        assert joined[1..] == Join(parts[1..], sep);
        JoinThenSplit(parts[1..], sep);
        assert parts == [parts[0]] + parts[1..];
      }
    } else {
      var c, shorter := parts[0][0], [parts[0][1..]] + parts[1..];
      assert shorter[1..] == parts[1..];
      assert parts[0] == [c] + parts[0][1..];
      assert Lacks(parts[0], sep);
      JoinPrepend(c, shorter, sep);
      assert [[c] + shorter[0]] + shorter[1..] == parts;
      assert joined[1..] == Join(shorter, sep);
      forall p | p in shorter ensures Lacks(p, sep) {
        if p != shorter[0] { assert p in parts; }
      }
      JoinThenSplit(shorter, sep);
      assert parts == [parts[0]] + parts[1..];
    }
  }

  // ----------------------------------------------------------------- patterns

  predicate Lower(c: char) { 'a' <= c <= 'z' }
  predicate Upper(c: char) { 'A' <= c <= 'Z' }
  predicate Digit(c: char) { '0' <= c <= '9' }
  predicate LowerOrDigit(c: char) { Lower(c) || Digit(c) }
  predicate LabelChar(c: char) { LowerOrDigit(c) || c == '-' }

  /** `^[a-z0-9](?:[a-z0-9-]{0,61}[a-z0-9])?$`: a DNS label. */
  predicate Label(s: string) {
    && 1 <= |s| <= 63
    && LowerOrDigit(s[0]) && LowerOrDigit(s[|s| - 1])
    && forall i | 0 <= i < |s| :: LabelChar(s[i])
  }

  /** `^[a-z](?:[a-z0-9-]{0,30}[a-z0-9])?$`: an opaque public identifier. */
  predicate Identifier(s: string) {
    && 1 <= |s| <= 32
    && Lower(s[0]) && LowerOrDigit(s[|s| - 1])
    && forall i | 0 <= i < |s| :: LabelChar(s[i])
  }

  predicate AlertNameChar(c: char) {
    Lower(c) || Upper(c) || Digit(c) || c == '_' || c == ':' || c == '.' || c == '-'
  }

  /** `^[A-Za-z][A-Za-z0-9_:.-]{0,127}$`: an alert name that may be copied into a result. */
  predicate AlertName(s: string) {
    && 1 <= |s| <= 128
    && (Lower(s[0]) || Upper(s[0]))
    && forall i | 1 <= i < |s| ::
         AlertNameChar(s[i])
  }

  const MAX_OBJECT_NAME := 253

  /** `validObjectName`: within the length limit, every dot-separated part is a label. */
  predicate ValidObjectName(name: string) {
    && 0 < |name| <= MAX_OBJECT_NAME
    && forall part | part in Split(name, '.') :: Label(part)
  }

  /** The grammar of object names: dot-joined labels, within the length limit. */
  ghost predicate IsDotted(labels: seq<string>, name: string) {
    && |labels| >= 1
    && (forall l | l in labels :: Label(l))
    && Join(labels, '.') == name
  }

  lemma LabelsAreSeparated(labels: seq<string>)
    requires |labels| >= 1
    requires forall l | l in labels :: Label(l)
    ensures Separated(labels, '.')
  {
    forall p | p in labels ensures Lacks(p, '.') {
      assert Label(p);
    }
  }

  /**
   The recogniser accepts exactly the dot-joins of one or more labels of at most 253 bytes; the
   labels are determined by the name, and splitting then joining gives the name back.
   */
  lemma ObjectNameGrammar(name: string)
    ensures ValidObjectName(name) <==> |name| <= MAX_OBJECT_NAME && exists labels :: IsDotted(labels, name)
    ensures forall l1, l2 | IsDotted(l1, name) && IsDotted(l2, name) :: l1 == l2
    ensures forall labels | IsDotted(labels, name) :: Split(name, '.') == labels
    ensures Join(Split(name, '.'), '.') == name
  {
    SplitThenJoin(name, '.');
    SplitSeparates(name, '.');
    forall labels | IsDotted(labels, name)
      ensures Split(name, '.') == labels && |name| > 0
    {
      LabelsAreSeparated(labels);
      JoinThenSplit(labels, '.');
      assert Label(labels[0]);
    }
    if ValidObjectName(name) {
      assert IsDotted(Split(name, '.'), name);
    }
  }

  /** Every byte of a valid name is a label byte or a dot. */
  lemma {:induction false} JoinedLabelBytes(parts: seq<string>)
    requires |parts| >= 1
    requires forall p | p in parts :: Label(p)
    ensures forall i | 0 <= i < |Join(parts, '.')| :: LabelChar(Join(parts, '.')[i]) || Join(parts, '.')[i] == '.'
    decreases |parts|
  {
    assert Label(parts[0]);
    if |parts| > 1 {
      forall p | p in parts[1..] ensures Label(p) { assert p in parts; }
      JoinedLabelBytes(parts[1..]);
    }
  }

  lemma ObjectNameBytes(name: string)
    requires ValidObjectName(name)
    ensures forall i | 0 <= i < |name| :: LabelChar(name[i]) || name[i] == '.'
    ensures Lacks(name, NUL)
  {
    SplitThenJoin(name, '.');
    JoinedLabelBytes(Split(name, '.'));
  }

  lemma IdentifierLacksNul(s: string)
    requires Identifier(s)
    ensures Lacks(s, NUL)
  {
  }
}
