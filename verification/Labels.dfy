/** Authorization labels: splitting a grant header, the canonical stored form,
    and reading it back. Strings are sequences of code points, on which
    lexicographic order agrees with the byte order of UTF-8. */
module Labels {

  predicate IsSpace(c: char) {
    || '\t' <= c <= '\r' || c == ' ' || c == '\U{0085}' || c == '\U{00A0}' || c == '\U{1680}'
    || '\U{2000}' <= c <= '\U{200A}' || c == '\U{2028}' || c == '\U{2029}' || c == '\U{202F}'
    || c == '\U{205F}' || c == '\U{3000}'
  }

  predicate Separates(c: char, commas: bool) { IsSpace(c) || (commas && c == ',') }

  function Flush(cur: string): seq<string> { if cur == [] then [] else [cur] }

  /** Tokens of `cur + s` where `cur` is a token already begun. */
  function Scan(s: string, cur: string, commas: bool): seq<string> {
    if s == [] then Flush(cur)
    else if Separates(s[0], commas) then Flush(cur) + Scan(s[1..], [], commas)
    else Scan(s[1..], cur + [s[0]], commas)
  }

  /** Reading a stored label string back. */
  function Fields(s: string): seq<string> { Scan(s, [], false) }

  /** Tokenizing a labels header on commas and white space. */
  function SplitLabels(s: string): seq<string> { Scan(s, [], true) }

  predicate Solid(s: string, commas: bool) { forall c <- s :: !Separates(c, commas) }

  predicate IsToken(s: string) { s != [] && Solid(s, false) }

  function TrimLeft(s: string): string {
    if s != [] && IsSpace(s[0]) then TrimLeft(s[1..]) else s
  }

  function TrimRight(s: string): string {
    if s != [] && IsSpace(s[|s| - 1]) then TrimRight(s[..|s| - 1]) else s
  }

  function TrimSpace(s: string): string { TrimRight(TrimLeft(s)) }

  // ---- order --------------------------------------------------------------

  predicate Less(a: string, b: string) {
    if b == [] then false
    else if a == [] then true
    else a[0] < b[0] || (a[0] == b[0] && Less(a[1..], b[1..]))
  }

  lemma {:induction false} LessTrans(a: string, b: string, c: string)
    requires Less(a, b) && Less(b, c)
    ensures Less(a, c)
  {
    if a != [] && a[0] == b[0] == c[0] { LessTrans(a[1..], b[1..], c[1..]); }
  }

  lemma {:induction false} LessIrreflexive(a: string)
    ensures !Less(a, a)
  {
    if a != [] { LessIrreflexive(a[1..]); }
  }

  lemma {:induction false} LessTotal(a: string, b: string)
    ensures a == b || Less(a, b) || Less(b, a)
  {
    if a != [] && b != [] && a[0] == b[0] {
      LessTotal(a[1..], b[1..]);
      assert a == [a[0]] + a[1..] && b == [b[0]] + b[1..];
    }
  }

  predicate Sorted(q: seq<string>) {
    forall i, j :: 0 <= i < j < |q| ==> Less(q[i], q[j])
  }

  ghost function Elements(q: seq<string>): set<string> { set x | x in q }

  lemma {:induction false} SortedUnique(p: seq<string>, q: seq<string>)
    requires Sorted(p) && Sorted(q) && Elements(p) == Elements(q)
    ensures p == q
  {
    assert p != [] ==> p[0] in Elements(p);
    assert q != [] ==> q[0] in Elements(q);
    if p != [] && q != [] {
      FirstIsLeast(p, q);
      FirstIsLeast(q, p);
      if Less(p[0], q[0]) && Less(q[0], p[0]) {
        LessTrans(p[0], q[0], p[0]);
        LessIrreflexive(p[0]);
      }
      RestElements(p);
      RestElements(q);
      SortedUnique(p[1..], q[1..]);
      assert p == [p[0]] + p[1..] && q == [q[0]] + q[1..];
    }
  }

  lemma FirstIsLeast(p: seq<string>, q: seq<string>)
    requires p != [] && q != [] && Sorted(q) && Elements(p) == Elements(q)
    ensures p[0] == q[0] || Less(q[0], p[0])
  {
    assert p[0] in Elements(q);
    var i :| 0 <= i < |q| && q[i] == p[0];
  }

  lemma RestElements(p: seq<string>)
    requires p != [] && Sorted(p)
    ensures Elements(p[1..]) == Elements(p) - {p[0]}
  {
    LessIrreflexive(p[0]);
    forall x | x in Elements(p) - {p[0]} ensures x in p[1..] {
      var i :| 0 <= i < |p| && p[i] == x;
      assert p[1..][i - 1] == x;
    }
  }

  // ---- canonical form -------------------------------------------------------

  /** `q` with `x` in its place, unless `x` is empty or already there. */
  function Insert(x: string, q: seq<string>): seq<string> {
    if x == [] then q
    else if q == [] then [x]
    else if x == q[0] then q
    else if Less(x, q[0]) then [x] + q
    else [q[0]] + Insert(x, q[1..])
  }

  /** The label set as a strictly sorted list. */
  function Canon(labels: seq<string>): seq<string> {
    if labels == [] then [] else Insert(TrimSpace(labels[|labels| - 1]), Canon(labels[..|labels| - 1]))
  }

  function Join(q: seq<string>): string {
    if q == [] then [] else if |q| == 1 then q[0] else q[0] + " " + Join(q[1..])
  }

  function Normalize(labels: seq<string>): string { Join(Canon(labels)) }

  /** The labels a list stands for: its trimmed, nonempty entries. */
  ghost function Meant(labels: seq<string>): set<string> {
    set l | l in labels && TrimSpace(l) != [] :: TrimSpace(l)
  }

  lemma {:induction false} InsertSorted(x: string, q: seq<string>)
    requires Sorted(q)
    ensures Sorted(Insert(x, q))
    ensures Elements(Insert(x, q)) == Elements(q) + (if x == [] then {} else {x})
  {
    if x != [] && q != [] && x != q[0] {
      if Less(x, q[0]) {
        forall i | 0 <= i < |q| ensures Less(x, q[i]) { if i > 0 { LessTrans(x, q[0], q[i]); } }
        ConsSorted(x, q);
      } else {
        LessTotal(x, q[0]);
        InsertSorted(x, q[1..]);
        var r := Insert(x, q[1..]);
        forall i | 0 <= i < |r| ensures Less(q[0], r[i]) {
          assert r[i] in Elements(r);
        }
        ConsSorted(q[0], r);
        ConsSorted(q[0], q[1..]);
        assert q == [q[0]] + q[1..];
      }
    }
  }

  lemma ConsSorted(x: string, q: seq<string>)
    requires Sorted(q) && forall i :: 0 <= i < |q| ==> Less(x, q[i])
    ensures Sorted([x] + q) && Elements([x] + q) == Elements(q) + {x}
  {
  }

  lemma {:induction false} CanonSorted(labels: seq<string>)
    ensures Sorted(Canon(labels)) && Elements(Canon(labels)) == Meant(labels)
  {
    if labels != [] {
      var front, last := labels[..|labels| - 1], labels[|labels| - 1];
      CanonSorted(front);
      InsertSorted(TrimSpace(last), Canon(front));
      assert labels == front + [last];
      assert Meant(labels) == Meant(front) + (if TrimSpace(last) == [] then {} else {TrimSpace(last)});
    }
  }

  // ---- tokens ---------------------------------------------------------------

  lemma {:induction false} ScanTokens(s: string, cur: string, commas: bool)
    requires Solid(cur, commas)
    ensures forall t <- Scan(s, cur, commas) :: t != [] && Solid(t, commas)
  {
    if s != [] {
      if Separates(s[0], commas) { ScanTokens(s[1..], [], commas); }
      else { ScanTokens(s[1..], cur + [s[0]], commas); }
    }
  }

  lemma {:induction false} ScanSplits(a: string, c: char, b: string, cur: string, commas: bool)
    requires Separates(c, commas)
    ensures Scan(a + [c] + b, cur, commas) == Scan(a, cur, commas) + Scan(b, [], commas)
  {
    if a == [] {
      assert (a + [c] + b)[0] == c && (a + [c] + b)[1..] == b;
    } else {
      assert (a + [c] + b)[0] == a[0] && (a + [c] + b)[1..] == a[1..] + [c] + b;
      ScanSplits(a[1..], c, b, if Separates(a[0], commas) then [] else cur + [a[0]], commas);
    }
  }

  lemma {:induction false} ScanWhole(t: string, cur: string, commas: bool)
    requires Solid(t, commas)
    ensures Scan(t, cur, commas) == Flush(cur + t)
  {
    if t == [] {
      assert cur + t == cur;
    } else {
      assert (cur + [t[0]]) + t[1..] == cur + t;
      ScanWhole(t[1..], cur + [t[0]], commas);
    }
  }

  /** A labels header is split at every comma and white space, and nowhere else. */
  lemma SplitsAtSeparators(a: string, c: char, b: string)
    ensures c == ',' || IsSpace(c) ==> SplitLabels(a + [c] + b) == SplitLabels(a) + SplitLabels(b)
    ensures (forall x <- a :: x != ',' && !IsSpace(x)) ==> SplitLabels(a) == if a == "" then [] else [a]
  {
    if c == ',' || IsSpace(c) { ScanSplits(a, c, b, [], true); }
    if forall x <- a :: x != ',' && !IsSpace(x) { ScanWhole(a, [], true); assert [] + a == a; }
  }

  /** A solid prefix is carried over in one go. */
  lemma {:induction false} ScanSolid(t: string, rest: string, cur: string)
    requires Solid(t, false)
    ensures Scan(t + rest, cur, false) == Scan(rest, cur + t, false)
  {
    if t == [] {
      assert t + rest == rest && cur + t == cur;
    } else {
      assert (t + rest)[1..] == t[1..] + rest;
      assert (cur + [t[0]]) + t[1..] == cur + t;
      ScanSolid(t[1..], rest, cur + [t[0]]);
    }
  }

  lemma {:induction false} FieldsOfJoin(q: seq<string>)
    requires forall t <- q :: IsToken(t)
    ensures Fields(Join(q)) == q
  {
    if q != [] { assert q[0] in q && IsToken(q[0]); }
    if |q| == 1 {
      ScanSolid(q[0], [], []);
      assert q[0] + [] == q[0];
    } else if |q| > 1 {
      var rest := " " + Join(q[1..]);
      assert Join(q) == q[0] + rest;
      ScanSolid(q[0], rest, []);
      assert rest[1..] == Join(q[1..]);
      FieldsOfJoin(q[1..]);
      assert [] + q[0] == q[0];
    }
  }

  lemma {:induction false} TrimToken(s: string)
    requires IsToken(s)
    ensures TrimSpace(s) == s
  {
    assert s[0] in s && s[|s| - 1] in s;
  }

  // ---- results ---------------------------------------------------------------

  /** Reading the stored string back gives the sorted label list exactly when no
      label has white space inside it. */
  lemma FieldsNormalizeIff(labels: seq<string>)
    ensures Fields(Normalize(labels)) == Canon(labels) <==> (forall l <- Meant(labels) :: Solid(l, false))
  {
    CanonSorted(labels);
    var q := Canon(labels);
    if forall l <- Meant(labels) :: Solid(l, false) {
      forall t | t in q ensures IsToken(t) { assert t in Elements(q); }
      FieldsOfJoin(q);
    }
    if Fields(Normalize(labels)) == q {
      ScanTokens(Normalize(labels), [], false);
      forall l | l in Meant(labels) ensures Solid(l, false) { assert l in Elements(q); }
    }
  }

  /** Two lists of tokens have one stored form exactly when they are the same set. */
  lemma Canonical(a: seq<string>, b: seq<string>)
    requires forall t <- a :: IsToken(t)
    requires forall t <- b :: IsToken(t)
    ensures Normalize(a) == Normalize(b) <==> Elements(a) == Elements(b)
  {
    MeantTokens(a);
    MeantTokens(b);
    CanonSorted(a);
    CanonSorted(b);
    if Elements(a) == Elements(b) {
      SortedUnique(Canon(a), Canon(b));
    }
    if Normalize(a) == Normalize(b) {
      FieldsNormalizeIff(a);
      FieldsNormalizeIff(b);
    }
  }

  lemma MeantTokens(a: seq<string>)
    requires forall t <- a :: IsToken(t)
    ensures Meant(a) == Elements(a)
  {
    forall t | t in a ensures TrimSpace(t) == t { TrimToken(t); }
  }

  /** With white space inside a label the stored form is ambiguous. */
  lemma SpacedLabelsCollide()
    ensures Normalize(["a b"]) == Normalize(["a", "b"]) && Elements(["a b"]) != Elements(["a", "b"])
  {
    assert TrimLeft("a b") == "a b" && TrimRight("a b") == "a b";
    assert ["a b"][..0] == [];
    assert TrimSpace("a") == "a" && TrimSpace("b") == "b";
    assert ["a", "b"][..1] == ["a"] && ["a"][..0] == [];
    assert Canon(["a"]) == ["a"];
    assert Less("a", "b") && !Less("b", "a");
    assert Insert("b", ["a"]) == ["a"] + Insert("b", ["a"][1..]);
    assert Canon(["a", "b"]) == ["a", "b"];
    assert Join(["a", "b"]) == "a" + " " + Join(["a", "b"][1..]);
    assert "a b" in Elements(["a b"]) && "a b" !in Elements(["a", "b"]);
  }

  /** A grant header that follows another one changes the stored labels exactly
      when it names a different set, and the stored string reads back as that
      set in strict order. */
  lemma GrantsAreCanonical(first: string, second: string)
    ensures Normalize(SplitLabels(second)) != Normalize(SplitLabels(first))
       <==> Elements(SplitLabels(second)) != Elements(SplitLabels(first))
    ensures Sorted(Fields(Normalize(SplitLabels(second))))
         && Elements(Fields(Normalize(SplitLabels(second)))) == Elements(SplitLabels(second))
  {
    var a, b := SplitLabels(first), SplitLabels(second);
    ScanTokens(first, [], true);
    ScanTokens(second, [], true);
    forall t | t in a || t in b ensures IsToken(t) { assert forall c <- t :: Separates(c, false) ==> Separates(c, true); }
    Canonical(b, a);
    MeantTokens(b);
    CanonSorted(b);
    FieldsNormalizeIff(b);
  }

  predicate Tokens(labels: seq<string>) { forall t <- labels :: IsToken(t) }

  /** A string as labels are stored: sorted, without repeats, one space between them. */
  predicate InStoredForm(s: string) { s == Normalize(Fields(s)) }

  lemma FieldsAreTokens(s: string)
    ensures Tokens(Fields(s))
  {
    ScanTokens(s, [], false);
  }

  lemma SplitsAreTokens(s: string)
    ensures Tokens(SplitLabels(s))
  {
    ScanTokens(s, [], true);
    forall t | t in SplitLabels(s) ensures IsToken(t) { assert forall c <- t :: Separates(c, false) ==> Separates(c, true); }
  }

  /** Tokens are stored in that form, which reads back as the same set. */
  lemma NormalizedIsStored(labels: seq<string>)
    requires Tokens(labels)
    ensures InStoredForm(Normalize(labels)) && Elements(Fields(Normalize(labels))) == Elements(labels)
  {
    MeantTokens(labels);
    CanonSorted(labels);
    FieldsNormalizeIff(labels);
    FieldsAreTokens(Normalize(labels));
    Canonical(Fields(Normalize(labels)), labels);
  }

  /** A grant of tokens differs from what is stored exactly when the sets differ. */
  lemma DiffersIff(s: string, labels: seq<string>)
    requires InStoredForm(s) && Tokens(labels)
    ensures Normalize(labels) != s <==> Elements(Fields(s)) != Elements(labels)
  {
    FieldsAreTokens(s);
    Canonical(labels, Fields(s));
  }

  // ---- the loops ----------------------------------------------------------------

  predicate Ascending(q: seq<string>) {
    forall i, j :: 0 <= i < j < |q| ==> !Less(q[j], q[i])
  }

  /** Stands for the library's sort: some ascending order of the same entries. */
  method SortStrings(q: seq<string>) returns (r: seq<string>)
    ensures Ascending(r) && multiset(r) == multiset(q)
  {
    r := [];
    for i := 0 to |q|
      invariant Ascending(r) && multiset(r) == multiset(q[..i])
    {
      assert q[..i + 1] == q[..i] + [q[i]];
      r := Place(r, q[i]);
    }
    assert q[..|q|] == q;
  }

  method Place(q: seq<string>, x: string) returns (r: seq<string>)
    requires Ascending(q)
    ensures Ascending(r) && multiset(r) == multiset(q) + multiset{x}
  {
    var i := |q|;
    while i > 0 && Less(x, q[i - 1])
      invariant 0 <= i <= |q|
      invariant forall j :: i <= j < |q| ==> Less(x, q[j])
    {
      i := i - 1;
    }
    r := q[..i] + [x] + q[i..];
    assert q == q[..i] + q[i..];
    forall a, b | 0 <= a < b < |r| ensures !Less(r[b], r[a]) {
      PlacedPair(q, x, i, a, b);
    }
  }

  lemma PlacedPair(q: seq<string>, x: string, i: nat, a: nat, b: nat)
    requires Ascending(q) && i <= |q| && a < b <= |q|
    requires forall j :: i <= j < |q| ==> Less(x, q[j])
    requires i == 0 || !Less(x, q[i - 1])
    ensures var r := q[..i] + [x] + q[i..]; !Less(r[b], r[a])
  {
    var r := q[..i] + [x] + q[i..];
    if b == i && a < i - 1 {
      if Less(x, q[a]) {
        LessTotal(q[a], q[i - 1]);
        if Less(q[a], q[i - 1]) { LessTrans(x, q[a], q[i - 1]); }
      }
    } else if a == i {
      if Less(q[b - 1], x) { LessTrans(q[b - 1], x, q[b - 1]); LessIrreflexive(q[b - 1]); }
    }
  }

  method NormalizeLabels(labels: seq<string>) returns (s: string)
    ensures s == Normalize(labels)
  {
    var seen: set<string>, out: seq<string> := {}, [];
    for i := 0 to |labels|
      invariant seen == Elements(out) == Meant(labels[..i])
      invariant forall a, b :: 0 <= a < b < |out| ==> out[a] != out[b]
    {
      var l := TrimSpace(labels[i]);
      assert labels[..i + 1] == labels[..i] + [labels[i]];
      if l != "" && l !in seen {
        seen := seen + {l};
        out := out + [l];
      }
    }
    assert labels[..|labels|] == labels;
    var sorted := SortStrings(out);
    DistinctSorted(out, sorted);
    CanonSorted(labels);
    SortedUnique(sorted, Canon(labels));
    s := Join(sorted);
  }

  lemma DistinctSorted(q: seq<string>, r: seq<string>)
    requires forall a, b :: 0 <= a < b < |q| ==> q[a] != q[b]
    requires Ascending(r) && multiset(r) == multiset(q)
    ensures Sorted(r) && Elements(r) == Elements(q)
  {
    forall x | x in q ensures multiset(q)[x] == 1 { Once(q, x); }
    assert forall x :: x in r <==> x in multiset(r);
    assert forall x :: x in q <==> x in multiset(q);
    forall i, j | 0 <= i < j < |r| ensures Less(r[i], r[j]) {
      LessTotal(r[i], r[j]);
      if r[i] == r[j] { Twice(r, i, j); }
    }
  }

  lemma Once(q: seq<string>, x: string)
    requires x in q && forall a, b :: 0 <= a < b < |q| ==> q[a] != q[b]
    ensures multiset(q)[x] == 1
  {
    var i :| 0 <= i < |q| && q[i] == x;
    assert q == q[..i] + [x] + q[i + 1..];
    assert x !in q[..i] && x !in q[i + 1..];
  }

  lemma Twice(r: seq<string>, i: nat, j: nat)
    requires i < j < |r| && r[i] == r[j]
    ensures multiset(r)[r[i]] >= 2
  {
    assert r == r[..i] + [r[i]] + r[i + 1..j] + [r[j]] + r[j + 1..];
  }
}
