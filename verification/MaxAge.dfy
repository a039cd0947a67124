/** Does a Set-Cookie header delete its cookie? The scan looks at signs and digits
    only; here it is compared with the integer the attribute denotes. Attribute
    rules follow sections 5.2.2 and 5.3 of RFC 6265. */
module MaxAge {
  import opened Stores
  import Labels

  /** Splitting at every separator; there is always a first part. */
  function Split(s: string, sep: char): (r: seq<string>)
    ensures r != []
  {
    if s == [] then [[]]
    else
      var rest := Split(s[1..], sep);
      if s[0] == sep then [[]] + rest else [[s[0]] + rest[0]] + rest[1..]
  }

  /** Name and value around the first equals sign. */
  function Cut(s: string): Option<(string, string)> {
    if s == [] then None
    else if s[0] == '=' then Some(([], s[1..]))
    else match Cut(s[1..]) case None => None case Some(p) => Some(([s[0]] + p.0, p.1))
  }

  function Lower(c: char): char { if 'A' <= c <= 'Z' then c + ('a' - 'A') else c }

  predicate IsMaxAge(name: string) {
    |name| == 7 && Lower(name[0]) == 'm' && Lower(name[1]) == 'a' && Lower(name[2]) == 'x' && name[3] == '-'
    && Lower(name[4]) == 'a' && Lower(name[5]) == 'g' && Lower(name[6]) == 'e'
  }

  // ---- what a value denotes ---------------------------------------------------------

  predicate IsDigit(c: char) { '0' <= c <= '9' }

  predicate IsNumeral(s: string) { s != [] && forall c <- s :: IsDigit(c) }

  function Numeral(s: string): nat
    requires forall c <- s :: IsDigit(c)
  {
    if s == [] then 0
    else assert IsDigit(s[|s| - 1]); Numeral(s[..|s| - 1]) * 10 + (s[|s| - 1] as int - '0' as int)
  }

  function Magnitude(value: string): string { if value != [] && value[0] == '-' then value[1..] else value }

  /** The integer an attribute value denotes, if it is well formed. */
  function Denotes(value: string): Option<int> {
    if !IsNumeral(Magnitude(value)) then None
    else
      var n: int := Numeral(Magnitude(value));
      Some(if value[0] == '-' then -n else n)
  }

  function MaxAgeOf(part: string): Option<int> {
    match Cut(part)
    case None => None
    case Some(p) => if IsMaxAge(Labels.TrimSpace(p.0)) then Denotes(Labels.TrimSpace(p.1)) else None
  }

  /** The last well-formed Max-Age among the attributes. */
  function LastMaxAge(attributes: seq<string>): Option<int> {
    if attributes == [] then None
    else
      var last := MaxAgeOf(attributes[|attributes| - 1]);
      if last.Some? then last else LastMaxAge(attributes[..|attributes| - 1])
  }

  /** Splitting loses nothing and leaves no separator inside a part. */
  function Glued(parts: seq<string>, sep: char): string
    requires parts != []
  {
    if |parts| == 1 then parts[0] else parts[0] + [sep] + Glued(parts[1..], sep)
  }

  lemma {:induction false} SplitIsExact(s: string, sep: char)
    ensures Glued(Split(s, sep), sep) == s && forall p <- Split(s, sep) :: sep !in p
  {
    if s != [] {
      SplitIsExact(s[1..], sep);
      var rest := Split(s[1..], sep);
      assert s == [s[0]] + s[1..];
      if s[0] == sep {
        assert ([[]] + rest)[1..] == rest;
      } else {
        var parts := [[s[0]] + rest[0]] + rest[1..];
        assert parts[1..] == rest[1..];
      }
    }
  }

  /** The last well-formed Max-Age is the one behind which there is no other. */
  lemma {:induction false} LastDecides(attributes: seq<string>, i: nat)
    requires i < |attributes| && MaxAgeOf(attributes[i]).Some? && forall j :: i < j < |attributes| ==> MaxAgeOf(attributes[j]).None?
    ensures LastMaxAge(attributes) == MaxAgeOf(attributes[i])
  {
    if i < |attributes| - 1 { LastDecides(attributes[..|attributes| - 1], i); }
  }

  lemma {:induction false} NoneDecides(attributes: seq<string>)
    requires forall a <- attributes :: MaxAgeOf(a).None?
    ensures LastMaxAge(attributes).None?
  {
    if attributes != [] {
      assert attributes[|attributes| - 1] in attributes;
      NoneDecides(attributes[..|attributes| - 1]);
    }
  }

  lemma {:induction false} NumeralIsZero(s: string)
    requires forall c <- s :: IsDigit(c)
    ensures Numeral(s) == 0 <==> forall c <- s :: c == '0'
  {
    if s != [] {
      var front := s[..|s| - 1];
      assert forall c <- front :: c in s;
      assert s[|s| - 1] in s && s == front + [s[|s| - 1]];
      NumeralIsZero(front);
    }
  }

  // ---- the scan ------------------------------------------------------------------------

  /** The digit loop of the scan. */
  method ScanDigits(digits: string) returns (valid: bool, allZero: bool)
    ensures valid <==> forall c <- digits :: IsDigit(c)
    ensures valid ==> (allZero <==> forall c <- digits :: c == '0')
  {
    allZero, valid := true, true;
    for i := 0 to |digits|
      invariant valid && (forall j :: 0 <= j < i ==> IsDigit(digits[j]))
      invariant allZero <==> forall j :: 0 <= j < i ==> digits[j] == '0'
    {
      if digits[i] < '0' || digits[i] > '9' {
        assert digits[i] in digits;
        valid := false;
        return;
      }
      if digits[i] != '0' { allZero := false; }
    }
    assert forall j :: 0 <= j < |digits| ==> digits[j] in digits;
  }

  method MaxAgeDeletes(raw: string) returns (deletes: bool, ok: bool)
    ensures ok <==> LastMaxAge(Split(raw, ';')[1..]).Some?
    ensures deletes <==> ok && LastMaxAge(Split(raw, ';')[1..]).value <= 0
  {
    var parts := Split(raw, ';')[1..];
    deletes, ok := false, false;
    for i := 0 to |parts|
      invariant ok <==> LastMaxAge(parts[..i]).Some?
      invariant deletes <==> ok && LastMaxAge(parts[..i]).value <= 0
    {
      assert parts[..i + 1][..i] == parts[..i] && parts[..i + 1][i] == parts[i];
      var cut := Cut(parts[i]);
      if cut.None? || !IsMaxAge(Labels.TrimSpace(cut.value.0)) { continue; }
      var value := Labels.TrimSpace(cut.value.1);
      var negative := |value| > 0 && value[0] == '-';
      var digits := if negative then value[1..] else value;
      if digits == "" { continue; }
      var valid, allZero := ScanDigits(digits);
      if !valid { continue; }
      NumeralIsZero(digits);
      ok := true;
      deletes := negative || allZero;
    }
    assert parts[..|parts|] == parts;
  }

  /** Max-Age decides if any is well formed; otherwise the expiry date does. */
  method CookieDeletesNow(raw: string, expires: Option<int>, now: int) returns (r: bool)
    ensures r <==> match LastMaxAge(Split(raw, ';')[1..])
                   case Some(age) => age <= 0
                   case None => expires.Some? && expires.value <= now
  {
    var deletes, ok := MaxAgeDeletes(raw);
    if ok { return deletes; }
    return expires.Some? && !(expires.value > now);
  }
}
