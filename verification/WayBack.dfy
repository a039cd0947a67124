/** The redirect of a denied browser: where it leads, and that the endpoint gets to know the
    way back. */
module WayBack {
  import opened Stores
  import opened MaxAge
  import opened Policy

  /** Path and query of the request that was denied. */
  function Target(path: string, query: string): string { if query == "" then path else path + "?" + query }

  predicate Unreserved(c: char) { 'a' <= c <= 'z' || 'A' <= c <= 'Z' || '0' <= c <= '9' || c in {'-', '_', '.', '~'} }

  /** Escaping of one byte for a query; there are no other characters in a request. */
  function QueryByte(c: char): string {
    if Unreserved(c) || c as int >= 256 then [c] else if c == ' ' then "+" else Escape(c)
  }

  function QueryEscape(s: string): string { if s == "" then "" else QueryByte(s[0]) + QueryEscape(s[1..]) }

  /** How a server reads a value of a query. */
  function QueryUnescape(s: string): Option<string> {
    if s == "" then Some("")
    else if s[0] == '+' then Prefixed(' ', QueryUnescape(s[1..]))
    else if s[0] != '%' then Prefixed(s[0], QueryUnescape(s[1..]))
    else if |s| >= 3 && HexDigit(s[1]).Some? && HexDigit(s[2]).Some?
    then Prefixed((HexDigit(s[1]).value * 16 + HexDigit(s[2]).value) as char, QueryUnescape(s[3..]))
    else None
  }

  predicate QuerySafe(s: string) { forall c <- s :: c != '&' && c != '#' && c != '=' && c != '?' }

  lemma ReadsOneByte(c: char, rest: string)
    requires c as int < 256
    ensures QueryUnescape(QueryByte(c) + rest) == Prefixed(c, QueryUnescape(rest)) && QuerySafe(QueryByte(c))
  {
    var e, v := QueryByte(c) + rest, c as int;
    if Unreserved(c) || c == ' ' {
      assert e[1..] == rest;
    } else {
      HexIsDigit(v / 16);
      HexIsDigit(v % 16);
      SafeHex(v / 16);
      SafeHex(v % 16);
      assert e[0] == '%' && e[1] == Hex(v / 16) && e[2] == Hex(v % 16) && e[3..] == rest;
      assert (v / 16 * 16 + v % 16) as char == c;
    }
  }

  lemma SafeHex(d: int)
    requires 0 <= d < 16
    ensures Hex(d) != '&' && Hex(d) != '='
  {
  }

  /** Escaping is undone by reading, and leaves nothing that ends a value. */
  lemma {:induction false} ReadsEscaped(s: string)
    requires AreBytes(s)
    ensures QueryUnescape(QueryEscape(s)) == Some(s) && QuerySafe(QueryEscape(s))
  {
    if s != "" {
      ReadsEscaped(s[1..]);
      ReadsOneByte(s[0], QueryEscape(s[1..]));
      assert s == [s[0]] + s[1..];
    }
  }

  // ---- the query of a location ----------------------------------------------------------------------------

  function BeforeFragment(s: string): string { if s == "" || s[0] == '#' then "" else [s[0]] + BeforeFragment(s[1..]) }

  function AfterMark(s: string): Option<string> { if s == "" then None else if s[0] == '?' then Some(s[1..]) else AfterMark(s[1..]) }

  /** The query a client sends when it follows the location. */
  function QueryOf(location: string): Option<string> { AfterMark(BeforeFragment(location)) }

  lemma {:induction false} WholeBeforeFragment(s: string)
    requires '#' !in s
    ensures BeforeFragment(s) == s
  {
    if s != "" {
      assert s[0] in s && s == [s[0]] + s[1..];
      WholeBeforeFragment(s[1..]);
    }
  }

  lemma {:induction false} FragmentEnds(s: string, rest: string)
    requires '#' in s
    ensures BeforeFragment(s + rest) == BeforeFragment(s)
  {
    assert (s + rest)[0] == s[0] && (s + rest)[1..] == s[1..] + rest;
    if s[0] != '#' {
      assert s == [s[0]] + s[1..];
      FragmentEnds(s[1..], rest);
    }
  }

  lemma {:induction false} MarkStays(s: string, rest: string)
    ensures AfterMark(s).Some? <==> '?' in s
    ensures AfterMark(s + rest) == if '?' in s then Some(AfterMark(s).value + rest) else AfterMark(rest)
  {
    if s == "" {
      assert s + rest == rest;
    } else {
      assert (s + rest)[0] == s[0] && (s + rest)[1..] == s[1..] + rest && s == [s[0]] + s[1..];
      MarkStays(s[1..], rest);
    }
  }

  // ---- its last parameter -------------------------------------------------------------------------------------

  function LastPart(query: string): string { var parts := Split(query, '&'); parts[|parts| - 1] }

  lemma {:induction false} OnePart(s: string)
    requires '&' !in s
    ensures Split(s, '&') == [s]
  {
    if s != "" {
      assert s[0] in s && s == [s[0]] + s[1..];
      OnePart(s[1..]);
    }
  }

  lemma {:induction false} LastPartOf(s: string, last: string)
    requires '&' !in last
    ensures LastPart(s + "&" + last) == last
  {
    var q := s + "&" + last;
    if s == "" {
      assert q[0] == '&' && q[1..] == last;
      OnePart(last);
    } else {
      assert q[0] == s[0] && q[1..] == s[1..] + "&" + last;
      LastPartOf(s[1..], last);
      assert |Split(s[1..] + "&" + last, '&')| > 1 by { TwoParts(s[1..], last); }
    }
  }

  lemma {:induction false} TwoParts(s: string, last: string)
    ensures |Split(s + "&" + last, '&')| > 1
  {
    var q := s + "&" + last;
    if s == "" {
      assert q[0] == '&' && q[1..] == last;
    } else {
      assert q[0] == s[0] && q[1..] == s[1..] + "&" + last;
      TwoParts(s[1..], last);
    }
  }

  lemma {:induction false} CutsAtFirst(name: string, value: string)
    requires '=' !in name
    ensures Cut(name + "=" + value) == Some((name, value))
  {
    var s := name + "=" + value;
    if name == "" {
      assert s[0] == '=' && s[1..] == value;
    } else {
      assert name[0] in name && name == [name[0]] + name[1..];
      assert s[0] == name[0] && s[1..] == name[1..] + "=" + value;
      CutsAtFirst(name[1..], value);
    }
  }

  /** A name the configuration may give the parameter and that a query can carry as it is. */
  predicate PlainParam(param: string) { QuerySafe(param) }

  /** A denied browser that follows its redirect brings the way back along: the last
      parameter of its query has the configured name, and its value reads as the path and
      query that were denied, exactly if the endpoint has no fragment. Behind a fragment
      the parameter never leaves the browser. */
  lemma WayBackArrives(a: Compiled, endpoint: string, path: string, query: string)
    requires AreBytes(path) && AreBytes(query) && PlainParam(a.param)
    ensures var location := Location(a, endpoint, QueryEscape(Target(path, query)));
            && endpoint <= location
            && if '#' in endpoint then QueryOf(location) == QueryOf(endpoint)
               else
                 && QueryOf(location).Some? && Cut(LastPart(QueryOf(location).value)).Some?
                 && var (name, value) := Cut(LastPart(QueryOf(location).value)).value;
                    name == a.param && QueryUnescape(value) == Some(Target(path, query))
  {
    ReadsEscaped(Target(path, query));
    Carries(a, endpoint, QueryEscape(Target(path, query)));
  }

  lemma Carries(a: Compiled, endpoint: string, back: string)
    requires PlainParam(a.param) && QuerySafe(back)
    ensures var location := Location(a, endpoint, back);
            && endpoint <= location
            && if '#' in endpoint then QueryOf(location) == QueryOf(endpoint)
               else QueryOf(location).Some? && Cut(LastPart(QueryOf(location).value)) == Some((a.param, back))
  {
    var pair := a.param + "=" + back;
    var sep := if '?' in endpoint then "&" else "?";
    assert Location(a, endpoint, back) == endpoint + (sep + pair);
    if '#' in endpoint {
      FragmentEnds(endpoint, sep + pair);
    } else {
      PairIsLast(endpoint, sep, pair);
      CutsAtFirst(a.param, back);
    }
  }

  lemma PairIsLast(endpoint: string, sep: string, pair: string)
    requires '#' !in endpoint && '#' !in pair && '&' !in pair && sep == if '?' in endpoint then "&" else "?"
    ensures var q := QueryOf(endpoint + (sep + pair)); q.Some? && LastPart(q.value) == pair
  {
    WholeBeforeFragment(endpoint + (sep + pair));
    MarkStays(endpoint, sep + pair);
    if '?' in endpoint {
      var q := AfterMark(endpoint).value;
      assert q + (sep + pair) == q + "&" + pair;
      LastPartOf(q, pair);
    } else {
      assert (sep + pair)[0] == '?' && (sep + pair)[1..] == pair;
      OnePart(pair);
    }
  }
}
