/**
 Rosters: the union of two agent lists, without repetitions and in byte order.
 There is only one such list, so any sorting routine gives it.
 */
module Roster {
  import opened Text

  lemma {:induction false} LessTransitive(a: string, b: string, c: string)
    requires Less(a, b) && Less(b, c)
    ensures Less(a, c)
  {
    if a != "" && a[0] == b[0] == c[0] {
      LessTransitive(a[1..], b[1..], c[1..]);
    }
  }

  lemma {:induction false} LessTotal(a: string, b: string)
    ensures Less(a, b) || a == b || Less(b, a)
  {
    if a != "" && b != "" && a[0] == b[0] {
      LessTotal(a[1..], b[1..]);
      if a[1..] == b[1..] {
        assert a == [a[0]] + a[1..] && b == [b[0]] + b[1..];
      }
    }
  }

  /** In order and without repetitions. */
  predicate Ordered(s: seq<string>) {
    forall i, j :: 0 <= i < j < |s| ==> Less(s[i], s[j])
  }

  function Elements(s: seq<string>): set<string> {
    set x | x in s
  }

  /** The list with one more name at its place. */
  function Insert(s: seq<string>, x: string): seq<string> {
    if s == [] then [x]
    else if s[0] == x then s
    else if Less(x, s[0]) then [x] + s
    else [s[0]] + Insert(s[1..], x)
  }

  function Sort(s: seq<string>): seq<string> {
    if s == [] then [] else Insert(Sort(s[..|s| - 1]), s[|s| - 1])
  }

  /** `sortedUnion`. */
  function SortedUnion(a: seq<string>, b: seq<string>): seq<string> {
    Sort(a + b)
  }

  lemma ConsElements(x: string, s: seq<string>)
    ensures Elements([x] + s) == Elements(s) + {x}
  {
  }

  /** A smaller name in front keeps the order. */
  lemma ConsOrdered(x: string, s: seq<string>)
    requires Ordered(s) && forall y :: y in s ==> Less(x, y)
    ensures Ordered([x] + s)
  {
  }

  lemma {:induction false} InsertKeeps(s: seq<string>, x: string)
    requires Ordered(s)
    ensures Ordered(Insert(s, x)) && Elements(Insert(s, x)) == Elements(s) + {x}
  {
    if s == [] || s[0] == x {
      return;
    }
    hide Less;
    ConsElements(s[0], s[1..]);
    assert s == [s[0]] + s[1..];
    if Less(x, s[0]) {
      forall y | y in s ensures Less(x, y) {
        var j :| 0 <= j < |s| && s[j] == y;
        if j > 0 { LessTransitive(x, s[0], s[j]); }
      }
      ConsElements(x, s);
      ConsOrdered(x, s);
    } else {
      InsertKeeps(s[1..], x);
      LessTotal(x, s[0]);
      var t := Insert(s[1..], x);
      forall y | y in t ensures Less(s[0], y) {
        assert y in Elements(t);
        if y != x {
          var j :| 0 <= j < |s[1..]| && s[1..][j] == y;
          assert s[j + 1] == y;
        }
      }
      ConsElements(s[0], t);
      ConsOrdered(s[0], t);
    }
  }

  lemma {:induction false} SortSorts(s: seq<string>)
    ensures Ordered(Sort(s)) && Elements(Sort(s)) == Elements(s)
  {
    if s != [] {
      var k := |s| - 1;
      SortSorts(s[..k]);
      InsertKeeps(Sort(s[..k]), s[k]);
      assert s == s[..k] + [s[k]];
    }
  }

  /** Two ordered lists of the same names are the same list. */
  lemma {:induction false} OrderedUnique(a: seq<string>, b: seq<string>)
    requires Ordered(a) && Ordered(b) && Elements(a) == Elements(b)
    ensures a == b
  {
    assert b != [] ==> b[0] in Elements(b);
    if a != [] {
      assert a[0] in Elements(b);
      var k :| 0 <= k < |b| && b[k] == a[0];
      assert b[0] in Elements(a);
      var l :| 0 <= l < |a| && a[l] == b[0];
      if k > 0 {
        // then b[0] < a[0] <= a[l] == b[0]
        if l > 0 { LessTransitive(b[0], a[0], a[l]); }
        LessIrreflexive(b[0]);
        assert false;
      }
      TailElements(a);
      TailElements(b);
      OrderedUnique(a[1..], b[1..]);
      assert a == [a[0]] + a[1..] && b == [b[0]] + b[1..];
    }
  }

  lemma TailElements(a: seq<string>)
    requires a != [] && Ordered(a)
    ensures Elements(a[1..]) == Elements(a) - {a[0]} && Ordered(a[1..])
  {
    LessIrreflexive(a[0]);
    assert a == [a[0]] + a[1..];
    forall x | x in a[1..] ensures x != a[0] {
      var i :| 0 <= i < |a[1..]| && a[1..][i] == x;
      assert Less(a[0], a[i + 1]);
    }
  }

  /** The union is the one ordered list of the names on either side. */
  lemma UnionIsOrdered(a: seq<string>, b: seq<string>)
    ensures Ordered(SortedUnion(a, b)) && Elements(SortedUnion(a, b)) == Elements(a) + Elements(b)
  {
    SortSorts(a + b);
  }

  /** An ordered list absorbs what it already holds. */
  lemma UnionAbsorbs(a: seq<string>, b: seq<string>)
    requires Ordered(a) && Elements(b) <= Elements(a)
    ensures SortedUnion(a, b) == a
  {
    UnionIsOrdered(a, b);
    OrderedUnique(SortedUnion(a, b), a);
  }

  /** `dedupeStrings`, then `sort.Strings`: the loop keeps the first of equal names. */
  method DedupeAndSort(values: seq<string>) returns (r: seq<string>)
    ensures r == Sort(values)
  {
    var seen: set<string>, out: seq<string> := {}, [];
    for i := 0 to |values|
      invariant seen == Elements(out) == Elements(values[..i])
    {
      assert values[..i + 1] == values[..i] + [values[i]];
      if values[i] !in seen {
        seen, out := seen + {values[i]}, out + [values[i]];
      }
    }
    assert values[..|values|] == values;
    r := Sort(out);
    SortSorts(out);
    SortSorts(values);
    OrderedUnique(r, Sort(values));
  }
}
