/**
 How the strict JSON scanner prints the path it reports.  The text leads back to one path
 among those whose keys have neither a dot nor a bracket, and to several otherwise.
 */
module StrictPath {
  import opened Text
  import opened StrictJson
  import opened Semver

  function Part(seg: Segment): string {
    match seg
    case Key(k) => "." + k
    case Index(i) => "[" + Decimal(i) + "]"
  }

  function Body(path: seq<Segment>): string {
    if path == [] then "" else Part(path[0]) + Body(path[1..])
  }

  function Render(path: seq<Segment>): string {
    "$" + Body(path)
  }

  lemma {:induction false} BodyMore(path: seq<Segment>, seg: Segment)
    ensures Body(path + [seg]) == Body(path) + Part(seg)
  {
    hide Part;
    if path == [] {
      assert [seg][1..] == [] && Body([]) == "";
    } else {
      BodyMore(path[1..], seg);
      assert (path + [seg])[1..] == path[1..] + [seg] && (path + [seg])[0] == path[0];
      Glued(Part(path[0]), Body(path[1..]), Part(seg));
    }
  }

  lemma Glued(a: string, b: string, c: string)
    ensures a + (b + c) == a + b + c
  {
  }

  /** `renderStrictJSONPath`. */
  method RenderPath(path: seq<Segment>) returns (text: string)
    ensures text == Render(path)
  {
    hide Part;
    text := "$";
    assert path[..0] == [] && "$" + "" == "$";
    for j := 0 to |path|
      invariant text == "$" + Body(path[..j])
    {
      assert path[..j + 1] == path[..j] + [path[j]];
      BodyMore(path[..j], path[j]);
      Glued("$", Body(path[..j]), Part(path[j]));
      text := text + Part(path[j]);
    }
    assert path[..|path|] == path;
  }

  // ---- reading it back ----

  predicate Plain(k: string) {
    '.' !in k && '[' !in k
  }

  predicate PlainPath(path: seq<Segment>) {
    forall j :: 0 <= j < |path| && path[j].Key? ==> Plain(path[j].key)
  }

  /** Nothing, or the start of another segment. */
  predicate Onward(s: string) {
    s == "" || s[0] == '.' || s[0] == '['
  }

  lemma PartStarts(seg: Segment)
    ensures Part(seg) != "" && Part(seg)[0] == if seg.Key? then '.' else '['
  {
  }

  lemma BodyIsOnward(path: seq<Segment>)
    ensures Onward(Body(path)) && (Body(path) == "" <==> path == [])
  {
    if path != [] { PartStarts(path[0]); }
  }

  /** A plain key ends where the next segment starts. */
  lemma KeyEnds(a: string, x: string, b: string, y: string)
    requires Plain(a) && Plain(b) && Onward(x) && Onward(y) && a + x == b + y
    ensures a == b && x == y
  {
    var s := a + x;
    assert forall k :: 0 <= k < |a| ==> s[k] == a[k] && s[k] in a;
    assert forall k :: 0 <= k < |b| ==> s[k] == b[k] && s[k] in b;
    assert x != "" ==> s[|a|] == x[0];
    assert y != "" ==> s[|b|] == y[0];
    assert |a| == |b|;
    assert a == s[..|a|] && x == s[|a|..] && b == s[..|b|] && y == s[|b|..];
  }

  lemma DecimalIsDigits(n: nat)
    ensures ']' !in Decimal(n)
  {
  }

  lemma BracketEnds(a: string, x: string, b: string, y: string)
    requires ']' !in a && ']' !in b && "[" + a + "]" + x == "[" + b + "]" + y
    ensures a == b && x == y
  {
    assert ("[" + a + "]" + x)[1..] == a + "]" + x && ("[" + b + "]" + y)[1..] == b + "]" + y;
    CutUnique(a, b, x, y, ']');
  }

  /** A number ends at its bracket. */
  lemma IndexEnds(i: nat, x: string, j: nat, y: string)
    requires "[" + Decimal(i) + "]" + x == "[" + Decimal(j) + "]" + y
    ensures i == j && x == y
  {
    hide Decimal, Number;
    DecimalIsDigits(i);
    DecimalIsDigits(j);
    BracketEnds(Decimal(i), x, Decimal(j), y);
    assert Number(Decimal(i)) == i && Number(Decimal(j)) == j;
  }

  /** Among paths with plain keys the text determines the path. */
  lemma {:induction false} PlainPathReadsBack(p: seq<Segment>, q: seq<Segment>)
    requires PlainPath(p) && PlainPath(q) && Body(p) == Body(q)
    ensures p == q
  {
    hide Part, Plain, Onward;
    BodyIsOnward(p);
    BodyIsOnward(q);
    if p != [] && q != [] {
      var x, y := Body(p[1..]), Body(q[1..]);
      BodyIsOnward(p[1..]);
      BodyIsOnward(q[1..]);
      PartStarts(p[0]);
      PartStarts(q[0]);
      assert (Part(p[0]) + x)[0] == Part(p[0])[0] && (Part(q[0]) + y)[0] == Part(q[0])[0];
      SameFirst(p[0], x, q[0], y);
      PlainPathReadsBack(p[1..], q[1..]);
      assert p == [p[0]] + p[1..] && q == [q[0]] + q[1..];
    }
  }

  lemma SameKey(k: string, x: string, l: string, y: string)
    requires Plain(k) && Plain(l) && Onward(x) && Onward(y) && "." + k + x == "." + l + y
    ensures k == l && x == y
  {
    assert ("." + k + x)[1..] == k + x && ("." + l + y)[1..] == l + y;
    KeyEnds(k, x, l, y);
  }

  lemma SameFirst(a: Segment, x: string, b: Segment, y: string)
    requires (a.Key? <==> b.Key?) && (a.Key? ==> Plain(a.key)) && (b.Key? ==> Plain(b.key))
    requires Onward(x) && Onward(y) && Part(a) + x == Part(b) + y
    ensures a == b && x == y
  {
    hide Decimal, Plain, Onward;
    if a.Key? { SameKey(a.key, x, b.key, y); } else { IndexEnds(a.i, x, b.i, y); }
  }

  lemma Swallowed(k: string, t: string, rest: string)
    ensures "." + k + (t + rest) == "." + (k + t) + rest
  {
  }

  lemma SwallowsNext(k: string, seg: Segment, rest: seq<Segment>)
    ensures Body([Key(k), seg] + rest) == Body([Key(k + Part(seg))] + rest)
  {
    hide Decimal;
    var two, one := [Key(k), seg] + rest, [Key(k + Part(seg))] + rest;
    assert two[1..] == [seg] + rest && two[1..][1..] == rest && one[1..] == rest;
    Swallowed(k, Part(seg), Body(rest));
  }

  /** Any key takes the segment after it for a part of itself: the text of such a path has a second reading. */
  lemma KeySwallows(before: seq<Segment>, k: string, seg: Segment, rest: seq<Segment>)
    ensures Render(before + ([Key(k), seg] + rest)) == Render(before + ([Key(k + Part(seg))] + rest))
    ensures before + ([Key(k), seg] + rest) != before + ([Key(k + Part(seg))] + rest)
  {
    hide Part, Body;
    BodyOf(before, [Key(k), seg] + rest);
    BodyOf(before, [Key(k + Part(seg))] + rest);
    SwallowsNext(k, seg, rest);
    assert |before + ([Key(k), seg] + rest)| != |before + ([Key(k + Part(seg))] + rest)|;
  }

  lemma {:induction false} BodyOf(a: seq<Segment>, b: seq<Segment>)
    ensures Body(a + b) == Body(a) + Body(b)
  {
    hide Part;
    if a == [] {
      assert a + b == b;
    } else {
      BodyOf(a[1..], b);
      assert (a + b)[1..] == a[1..] + b && (a + b)[0] == a[0];
      Glued(Part(a[0]), Body(a[1..]), Body(b));
    }
  }

  // ---- exactly when there is a second reading ----

  ghost predicate EndsInIndex(s: string) {
    exists a, n :: s == a + Part(Index(n))
  }

  /** A key stands before another segment, or the last key holds a dot or ends like an index. */
  ghost predicate Confusable(path: seq<Segment>) {
    || (exists j :: 0 <= j < |path| - 1 && path[j].Key?)
    || (path != [] && path[|path| - 1].Key?
        && ('.' in path[|path| - 1].key || EndsInIndex(path[|path| - 1].key)))
  }

  ghost predicate HasSecondReading(path: seq<Segment>) {
    exists q :: q != path && Render(q) == Render(path)
  }

  /** The text of any segments holds a dot or ends in an index. */
  lemma {:induction false} DotOrIndex(q: seq<Segment>)
    requires q != []
    ensures '.' in Body(q) || EndsInIndex(Body(q))
  {
    hide Decimal;
    var rest := Body(q[1..]);
    if q[0].Key? {
      assert Body(q)[0] == '.';
    } else if |q| == 1 {
      assert Body(q) == "" + Part(Index(q[0].i));
    } else {
      DotOrIndex(q[1..]);
      if EndsInIndex(rest) {
        var a, n :| rest == a + Part(Index(n));
        assert Body(q) == (Part(q[0]) + a) + Part(Index(n));
      }
    }
  }

  lemma SuffixEnds(k: string, rest: string)
    requires '.' in rest || EndsInIndex(rest)
    ensures '.' in k + rest || EndsInIndex(k + rest)
  {
    hide Decimal;
    if '.' in rest {
      var j :| 0 <= j < |rest| && rest[j] == '.';
      assert (k + rest)[|k| + j] == '.';
    } else {
      var a, n :| rest == a + Part(Index(n));
      assert k + rest == (k + a) + Part(Index(n));
    }
  }

  lemma DotCancels(k: string, rest: string, key: string)
    requires "." + k + rest == "." + key
    ensures k + rest == key
  {
    assert ("." + k + rest)[1..] == k + rest && ("." + key)[1..] == key;
  }

  /** A text that starts with a dot starts with a key. */
  lemma FirstIsKey(q: seq<Segment>, key: string)
    requires Body(q) == "." + key
    ensures q != [] && q[0].Key? && q[0].key + Body(q[1..]) == key
  {
    hide Decimal;
    BodyIsOnward(q);
    PartStarts(q[0]);
    assert Body(q)[0] == Part(q[0])[0] && ("." + key)[0] == '.';
    hide Body;
    DotCancels(q[0].key, Body(q[1..]), key);
  }

  lemma KeyAlone(key: string, q: seq<Segment>)
    requires '.' !in key && !EndsInIndex(key) && Body(q) == "." + key
    ensures q == [Key(key)]
  {
    hide Body, EndsInIndex;
    FirstIsKey(q, key);
    BodyIsOnward(q[1..]);
    var k, rest := q[0].key, Body(q[1..]);
    if q[1..] != [] {
      DotOrIndex(q[1..]);
      SuffixEnds(k, rest);
    } else {
      assert k + "" == k && q == [q[0]];
    }
  }

  /** A text that starts with an index starts with that index. */
  lemma FirstIsIndex(q: seq<Segment>, i: nat, rest: string)
    requires Body(q) == Part(Index(i)) + rest
    ensures q != [] && q[0] == Index(i) && Body(q[1..]) == rest
  {
    hide Decimal;
    BodyIsOnward(q);
    PartStarts(Index(i));
    assert (Part(Index(i)) + rest)[0] == '[';
    PartStarts(q[0]);
    assert Body(q)[0] == Part(q[0])[0];
    hide Body;
    IndexEnds(q[0].i, Body(q[1..]), i, rest);
  }

  lemma BodyFirst(p: seq<Segment>)
    requires p != []
    ensures Body(p) == Part(p[0]) + Body(p[1..])
    ensures |p| == 1 && p[0].Key? ==> Body(p) == "." + p[0].key
  {
    hide Decimal;
    if |p| == 1 { assert p[1..] == [] && Part(p[0]) + "" == Part(p[0]); }
  }

  /** Without such a key there is only one reading. */
  lemma {:induction false} ReadsOneWay(p: seq<Segment>, q: seq<Segment>)
    requires !Confusable(p) && Body(p) == Body(q)
    ensures p == q
    decreases p
  {
    BodyIsOnward(p);
    BodyIsOnward(q);
    hide Body, Part, EndsInIndex;
    if p != [] {
      BodyFirst(p);
      if p[0].Key? {
        assert |p| == 1;
        KeyAlone(p[0].key, q);
      } else {
        FirstIsIndex(q, p[0].i, Body(p[1..]));
        StillClear(p);
        ReadsOneWay(p[1..], q[1..]);
        assert p == [p[0]] + p[1..] && q == [q[0]] + q[1..];
      }
    }
  }

  lemma StillClear(p: seq<Segment>)
    requires p != [] && !Confusable(p)
    ensures !Confusable(p[1..])
  {
    hide EndsInIndex;
    var r := p[1..];
    assert forall j :: 0 <= j < |r| ==> r[j] == p[j + 1];
  }

  lemma SplitKey(before: seq<Segment>, a: string, seg: Segment)
    ensures Render(before + [Key(a), seg]) == Render(before + [Key(a + Part(seg))])
    ensures before + [Key(a), seg] != before + [Key(a + Part(seg))]
  {
    hide Part, Body;
    KeySwallows(before, a, seg, []);
    assert [Key(a), seg] + [] == [Key(a), seg] && [Key(a + Part(seg))] + [] == [Key(a + Part(seg))];
  }

  lemma AnotherByMerging(path: seq<Segment>, j: nat)
    requires j + 1 < |path| && path[j].Key?
    ensures HasSecondReading(path)
  {
    hide Part, Render;
    var rest := path[j + 2..];
    assert path == path[..j] + ([Key(path[j].key), path[j + 1]] + rest);
    KeySwallows(path[..j], path[j].key, path[j + 1], rest);
  }

  lemma AnotherBySplitting(path: seq<Segment>, a: string, seg: Segment)
    requires path != [] && path[|path| - 1] == Key(a + Part(seg))
    ensures HasSecondReading(path)
  {
    hide Part, Render;
    var k := |path| - 1;
    assert path == path[..k] + [Key(a + Part(seg))];
    SplitKey(path[..k], a, seg);
  }

  lemma ConfusableHasAnother(path: seq<Segment>)
    requires Confusable(path)
    ensures HasSecondReading(path)
  {
    hide HasSecondReading, Part, EndsInIndex;
    if j :| 0 <= j < |path| - 1 && path[j].Key? {
      AnotherByMerging(path, j);
    } else {
      var a, seg := LastPart(path[|path| - 1].key);
      AnotherBySplitting(path, a, seg);
    }
  }

  lemma LastPart(key: string) returns (a: string, seg: Segment)
    requires '.' in key || EndsInIndex(key)
    ensures key == a + Part(seg)
  {
    hide Decimal;
    if '.' in key {
      var j :| 0 <= j < |key| && key[j] == '.';
      a, seg := key[..j], Key(key[j + 1..]);
      assert key == key[..j] + ([key[j]] + key[j + 1..]);
    } else {
      var b, n :| key == b + Part(Index(n));
      a, seg := b, Index(n);
    }
  }

  /** The text of a path leads back to it alone if and only if no key in it can be confused with what follows. */
  lemma SecondReadingExactly(path: seq<Segment>)
    ensures HasSecondReading(path) <==> Confusable(path)
  {
    hide Body, Confusable;
    if Confusable(path) { ConfusableHasAnother(path); }
    if q :| q != path && Render(q) == Render(path) {
      PrefixCancels("$", Body(q), Body(path));
      if !Confusable(path) { ReadsOneWay(path, q); }
    }
  }
}
