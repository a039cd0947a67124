/** Path authorization: rules over cleaned paths, the longest segment prefix wins,
    and a policy that would send a denied client in circles is refused at load.

    Paths are byte strings: every character stands for one byte. */
module Authz {
  import opened MaxAge

  const ANONYMOUS := "anonymous"

  // ---- cleaned paths ---------------------------------------------------------------

  predicate IsName(seg: string) { seg != "" && seg != "." && seg != ".." && '/' !in seg }

  /** Walking down the segments of a rooted path: empty and dot segments stay,
      double dots go up but never above the root. */
  function Walk(segs: seq<string>, at: seq<string>): seq<string> {
    if segs == [] then at
    else if segs[0] == "" || segs[0] == "." then Walk(segs[1..], at)
    else if segs[0] == ".." then Walk(segs[1..], if at == [] then [] else at[..|at| - 1])
    else Walk(segs[1..], at + [segs[0]])
  }

  /** Where a path leads. */
  function Place(path: string): seq<string> { Walk(Split(path, '/'), []) }

  function Slashed(names: seq<string>): string {
    if names == [] then "" else "/" + names[0] + Slashed(names[1..])
  }

  function Spelled(names: seq<string>): string { if names == [] then "/" else Slashed(names) }

  /** `path.Clean` on rooted paths. */
  function Clean(path: string): string { Spelled(Place(path)) }

  lemma {:induction false} SplitNames(s: string)
    ensures forall seg <- Split(s, '/') :: '/' !in seg
  {
    if s != [] { SplitNames(s[1..]); }
  }

  lemma {:induction false} WalkNames(segs: seq<string>, at: seq<string>)
    requires forall seg <- segs :: '/' !in seg
    requires forall n <- at :: IsName(n)
    ensures forall n <- Walk(segs, at) :: IsName(n)
  {
    if segs != [] {
      assert segs[0] in segs && forall seg <- segs[1..] :: seg in segs;
      if segs[0] == "" || segs[0] == "." { WalkNames(segs[1..], at); }
      else if segs[0] == ".." { WalkNames(segs[1..], if at == [] then [] else at[..|at| - 1]); }
      else { WalkNames(segs[1..], at + [segs[0]]); }
    }
  }

  lemma PlaceNames(path: string)
    ensures forall n <- Place(path) :: IsName(n)
  {
    SplitNames(path);
    WalkNames(Split(path, '/'), []);
  }

  lemma {:induction false} SplitName(name: string)
    requires '/' !in name
    ensures Split(name, '/') == [name]
  {
    if name != [] {
      assert name[0] in name;
      SplitName(name[1..]);
      assert [name[0]] + name[1..] == name;
    }
  }

  /** A path appended to anything adds its segments. */
  lemma {:induction false} SplitConcat(x: string, path: string)
    requires path != "" && path[0] == '/'
    ensures Split(x + path, '/') == Split(x, '/') + Split(path, '/')[1..]
  {
    if x == [] {
      assert x + path == path;
    } else {
      assert (x + path)[1..] == x[1..] + path && (x + path)[0] == x[0];
      SplitConcat(x[1..], path);
      var q, r := Split(x[1..], '/'), Split(path, '/')[1..];
      ConsConcat(x[0], q, r);
    }
  }

  /** One step of splitting, before and after something is appended. */
  lemma ConsConcat(c: char, q: seq<string>, r: seq<string>)
    requires q != []
    ensures [[]] + (q + r) == ([[]] + q) + r
    ensures [[c] + (q + r)[0]] + (q + r)[1..] == ([[c] + q[0]] + q[1..]) + r
  {
  }

  lemma {:induction false} SplitSlashed(names: seq<string>)
    requires forall n <- names :: IsName(n)
    ensures Split(Slashed(names), '/') == [""] + names
  {
    if names != [] {
      assert names[0] in names && names == [names[0]] + names[1..];
      var rest := Slashed(names[1..]);
      assert ("/" + names[0] + rest)[1..] == names[0] + rest;
      SplitSlashed(names[1..]);
      if names[1..] == [] {
        assert names[0] + rest == names[0];
        SplitName(names[0]);
      } else {
        SplitName(names[0]);
        SplitConcat(names[0], rest);
      }
    }
  }

  lemma {:induction false} WalkPlain(names: seq<string>, at: seq<string>)
    requires forall n <- names :: IsName(n)
    ensures Walk(names, at) == at + names
  {
    if names == [] {
      assert at + names == at;
    } else {
      assert names[0] in names;
      WalkPlain(names[1..], at + [names[0]]);
      assert at + [names[0]] + names[1..] == at + names;
    }
  }

  lemma PlaceOfSpelled(names: seq<string>)
    requires forall n <- names :: IsName(n)
    ensures Place(Spelled(names)) == names
  {
    if names == [] {
      assert Split("/", '/') == [[], []];
      assert Walk([[], []], []) == Walk([[], []][1..], []);
    } else {
      SplitSlashed(names);
      assert ([""] + names)[1..] == names;
      WalkPlain(names, []);
    }
  }

  /** Where one more segment leads from a place. */
  function Entered(at: seq<string>, seg: string): seq<string> {
    if IsName(seg) then at + [seg] else if seg == ".." && at != [] then at[..|at| - 1] else at
  }

  lemma {:induction false} WalkOn(segs: seq<string>, seg: string, at: seq<string>)
    requires '/' !in seg
    ensures Walk(segs + [seg], at) == Entered(Walk(segs, at), seg)
  {
    if segs == [] {
      assert segs + [seg] == [seg] && [seg][1..] == [];
    } else {
      assert (segs + [seg])[0] == segs[0] && (segs + [seg])[1..] == segs[1..] + [seg];
      WalkOn(segs[1..], seg, if IsName(segs[0]) || '/' in segs[0] then at + [segs[0]] else Entered(at, segs[0]));
    }
  }

  /** A path leads segment by segment: names go down, double dots up, the rest stays. */
  lemma PlaceBelow(path: string, seg: string)
    requires '/' !in seg
    ensures Place("") == [] && Place(path + "/" + seg) == Entered(Place(path), seg)
  {
    assert Split("", '/') == [""];
    assert ("/" + seg)[1..] == seg && path + "/" + seg == path + ("/" + seg);
    SplitName(seg);
    SplitConcat(path, "/" + seg);
    WalkOn(Split(path, '/'), seg, []);
  }

  /** Cleaning does not move a path, and a clean path is its own cleaning. */
  lemma CleanKeepsPlace(path: string)
    ensures Place(Clean(path)) == Place(path) && Clean(Clean(path)) == Clean(path)
  {
    PlaceNames(path);
    PlaceOfSpelled(Place(path));
  }

  // ---- coverage -------------------------------------------------------------------------

  /** The test of the match loop, on cleaned paths. */
  predicate Covers(rule: string, p: string) { rule == "/" || p == rule || rule + "/" <= p }

  lemma {:induction false} SlashedConcat(a: seq<string>, b: seq<string>)
    ensures Slashed(a + b) == Slashed(a) + Slashed(b)
  {
    if a == [] {
      assert a + b == b;
    } else {
      assert (a + b)[1..] == a[1..] + b;
      SlashedConcat(a[1..], b);
    }
  }

  lemma SlashedLength(names: seq<string>)
    requires forall n <- names :: IsName(n)
    ensures names != [] ==> |Slashed(names)| >= 2
  {
    if names != [] { assert names[0] in names; }
  }

  /** The string test is the segment-prefix test. */
  lemma CoversIsPrefix(rule: string, p: string)
    requires rule == Clean(rule) && p == Clean(p)
    ensures Covers(rule, p) <==> Place(rule) <= Place(p)
  {
    var a, b := Place(rule), Place(p);
    PlaceNames(rule);
    PlaceNames(p);
    if a <= b {
      var c := b[|a|..];
      assert b == a + c;
      SlashedConcat(a, c);
      if a != [] && c != [] { assert Slashed(c)[0] == '/'; }
    }
    SlashedLength(a);
    if rule + "/" <= p && rule != "/" {
      var rest := p[|rule|..];
      assert p == rule + rest && rest[0] == '/';
      CoveredTail(a, b, rest);
    }
  }

  lemma {:induction false} CoveredTail(a: seq<string>, b: seq<string>, rest: string)
    requires (forall n <- a :: IsName(n)) && (forall n <- b :: IsName(n))
    requires Slashed(b) == Slashed(a) + rest && rest != "" && rest[0] == '/'
    ensures a <= b
  {
    var tail := Split(rest, '/')[1..];
    assert [""] + b == [""] + a + tail by {
      SplitSlashed(b);
      SplitSlashed(a);
      SplitConcat(Slashed(a), rest);
    }
    assert b == ([""] + b)[1..] == ([""] + a + tail)[1..] == a + tail;
  }

  lemma {:induction false} LongerPlaceLongerPath(a: seq<string>, b: seq<string>)
    requires a <= b && |a| < |b| && forall n <- b :: IsName(n)
    ensures |Spelled(a)| < |Spelled(b)|
  {
    var c := b[|a|..];
    assert b == a + c && forall n <- c :: n in b;
    SlashedConcat(a, c);
    SlashedLength(c);
  }
}
