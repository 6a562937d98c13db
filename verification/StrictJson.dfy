/**
 The strict JSON pre-pass: on the tokens of a value it consumes exactly that value, or
 reports the first repeated member name or the first container nested too deep
 (member-name uniqueness, section 4 of RFC 8259).  The imperative scanner keeps its
 path in a growing slice whose backing array siblings share.
 */
module StrictJson {

  // ---- values, tokens and violations ----

  datatype Value = Str(s: string) | Other(text: string)

  datatype Json = Atom(v: Value) | Obj(members: Members) | Arr(items: Items)

  datatype Members = NoMembers | Member(key: string, val: Json, rest: Members)

  datatype Items = NoItems | Item(item: Json, others: Items)

  datatype Token = OpenObject | CloseObject | OpenArray | CloseArray | Scalar(v: Value)

  function Tokens(v: Json): seq<Token> {
    match v
    case Atom(x) => [Scalar(x)]
    case Obj(ms) => [OpenObject] + MemberTokens(ms) + [CloseObject]
    case Arr(xs) => [OpenArray] + ItemTokens(xs) + [CloseArray]
  }

  function MemberTokens(ms: Members): seq<Token> {
    match ms
    case NoMembers => []
    case Member(k, v, rest) => [Scalar(Str(k))] + Tokens(v) + MemberTokens(rest)
  }

  function ItemTokens(xs: Items): seq<Token> {
    match xs
    case NoItems => []
    case Item(v, rest) => Tokens(v) + ItemTokens(rest)
  }

  datatype Segment = Key(key: string) | Index(i: nat)

  datatype Violation = Duplicate(path: seq<Segment>, key: string) | TooDeep(path: seq<Segment>)

  const MAX_DEPTH := 256

  /** Every violation of a value, in the order of its tokens. */
  function All(v: Json, path: seq<Segment>, depth: nat): seq<Violation> {
    if v.Atom? then []
    else
      (if depth >= MAX_DEPTH then [TooDeep(path)] else [])
      + (if v.Obj? then AllMembers(v.members, {}, path, depth) else AllItems(v.items, 0, path, depth))
  }

  function AllMembers(ms: Members, seen: set<string>, path: seq<Segment>, depth: nat): seq<Violation> {
    match ms
    case NoMembers => []
    case Member(k, v, rest) =>
      (if k in seen then [Duplicate(path, k)] else [])
      + All(v, path + [Key(k)], depth + 1) + AllMembers(rest, seen + {k}, path, depth)
  }

  function AllItems(xs: Items, i: nat, path: seq<Segment>, depth: nat): seq<Violation> {
    match xs
    case NoItems => []
    case Item(v, rest) => All(v, path + [Index(i)], depth + 1) + AllItems(rest, i + 1, path, depth)
  }

  // ---- the scanner as a function ----

  datatype Outcome = Ok(rest: seq<Token>) | Err(violation: Violation) | Bad

  /** `rejectDuplicateJSONValue` on what is left of the token stream. */
  function ScanValue(ts: seq<Token>, path: seq<Segment>, depth: nat): (r: Outcome)
    ensures r.Ok? ==> |r.rest| < |ts| && r.rest == ts[|ts| - |r.rest|..]
    decreases |ts|, 0
  {
    if ts == [] then Bad
    else if ts[0].Scalar? then Ok(ts[1..])
    else if depth >= MAX_DEPTH then Err(TooDeep(path))
    else if ts[0].OpenObject? then ScanMembers(ts[1..], path, depth, {})
    else if ts[0].OpenArray? then ScanItems(ts[1..], path, depth, 0)
    else Bad
  }

  function ScanMembers(ts: seq<Token>, path: seq<Segment>, depth: nat, seen: set<string>): (r: Outcome)
    ensures r.Ok? ==> |r.rest| < |ts| && r.rest == ts[|ts| - |r.rest|..]
    decreases |ts|, 1
  {
    if ts == [] then Bad
    else if ts[0].CloseObject? then Ok(ts[1..])
    else if !ts[0].Scalar? || !ts[0].v.Str? then Bad
    else if ts[0].v.s in seen then Err(Duplicate(path, ts[0].v.s))
    else
      var r := ScanValue(ts[1..], path + [Key(ts[0].v.s)], depth + 1);
      if !r.Ok? then r else ScanMembers(r.rest, path, depth, seen + {ts[0].v.s})
  }

  function ScanItems(ts: seq<Token>, path: seq<Segment>, depth: nat, i: nat): (r: Outcome)
    ensures r.Ok? ==> |r.rest| < |ts| && r.rest == ts[|ts| - |r.rest|..]
    decreases |ts|, 1
  {
    if ts == [] then Bad
    else if ts[0].CloseArray? then Ok(ts[1..])
    else if ts[0].CloseObject? then Bad
    else
      var r := ScanValue(ts, path + [Index(i)], depth + 1);
      if !r.Ok? then r else ScanItems(r.rest, path, depth, i + 1)
  }

  /** What a scan must report: the first violation, or nothing and the tokens after the value. */
  function Verdict(all: seq<Violation>, rest: seq<Token>): Outcome {
    if all == [] then Ok(rest) else Err(all[0])
  }

  lemma {:induction false} ScanIsVerdict(v: Json, rest: seq<Token>, path: seq<Segment>, depth: nat)
    ensures ScanValue(Tokens(v) + rest, path, depth) == Verdict(All(v, path, depth), rest)
    decreases v
  {
    var ts := Tokens(v) + rest;
    match v
    case Atom(_) => assert ts[1..] == rest;
    case Obj(ms) =>
      if depth < MAX_DEPTH {
        assert ts[1..] == MemberTokens(ms) + ([CloseObject] + rest);
        MembersAreVerdict(ms, rest, path, depth, {});
      }
    case Arr(xs) =>
      if depth < MAX_DEPTH {
        assert ts[1..] == ItemTokens(xs) + ([CloseArray] + rest);
        ItemsAreVerdict(xs, rest, path, depth, 0);
      }
  }

  lemma ScanOneMember(k: string, tail: seq<Token>, path: seq<Segment>, depth: nat, seen: set<string>)
    ensures ScanMembers([Scalar(Str(k))] + tail, path, depth, seen) ==
            if k in seen then Err(Duplicate(path, k))
            else
              var r := ScanValue(tail, path + [Key(k)], depth + 1);
              if !r.Ok? then r else ScanMembers(r.rest, path, depth, seen + {k})
  {
    var ts := [Scalar(Str(k))] + tail;
    assert ts[0] == Scalar(Str(k)) && ts[1..] == tail;
  }

  lemma MemberTokensCons(k: string, v: Json, others: Members, end: seq<Token>)
    ensures MemberTokens(Member(k, v, others)) + end == [Scalar(Str(k))] + (Tokens(v) + (MemberTokens(others) + end))
  {
    hide Tokens;
  }

  lemma {:induction false} MembersAreVerdict(ms: Members, rest: seq<Token>, path: seq<Segment>, depth: nat,
      seen: set<string>)
    ensures ScanMembers(MemberTokens(ms) + ([CloseObject] + rest), path, depth, seen)
        == Verdict(AllMembers(ms, seen, path, depth), rest)
    decreases ms
  {
    var end := [CloseObject] + rest;
    var ts := MemberTokens(ms) + end;
    match ms
    case NoMembers => assert ts == end && end[1..] == rest;
    case Member(k, v, others) =>
      hide ScanMembers, ScanValue, Tokens, MemberTokens;
      var tail := MemberTokens(others) + end;
      MemberTokensCons(k, v, others, end);
      ScanOneMember(k, Tokens(v) + tail, path, depth, seen);
      var a, b := All(v, path + [Key(k)], depth + 1), AllMembers(others, seen + {k}, path, depth);
      if k in seen {
        assert AllMembers(ms, seen, path, depth)[0] == Duplicate(path, k);
      } else {
        ScanIsVerdict(v, tail, path + [Key(k)], depth + 1);
        MembersAreVerdict(others, rest, path, depth, seen + {k});
        assert AllMembers(ms, seen, path, depth) == a + b;
        hide All, AllMembers;
      }
  }

  lemma FirstToken(v: Json)
    ensures Tokens(v) != [] && !Tokens(v)[0].CloseArray? && !Tokens(v)[0].CloseObject?
  {
  }

  lemma {:induction false} ItemsAreVerdict(xs: Items, rest: seq<Token>, path: seq<Segment>, depth: nat, i: nat)
    ensures ScanItems(ItemTokens(xs) + ([CloseArray] + rest), path, depth, i)
        == Verdict(AllItems(xs, i, path, depth), rest)
    decreases xs
  {
    var end := [CloseArray] + rest;
    var ts := ItemTokens(xs) + end;
    match xs
    case NoItems => assert ts == end && end[1..] == rest;
    case Item(v, others) =>
      FirstToken(v);
      assert ts == Tokens(v) + (ItemTokens(others) + end) && ts[0] == Tokens(v)[0];
      ScanIsVerdict(v, ItemTokens(others) + end, path + [Index(i)], depth + 1);
      ItemsAreVerdict(others, rest, path, depth, i + 1);
  }

  // ---- what a clean value is ----

  function Max(a: nat, b: nat): nat { if a < b then b else a }

  /** How deep containers are nested. */
  function Nesting(v: Json): nat {
    match v
    case Atom(_) => 0
    case Obj(ms) => 1 + MemberNesting(ms)
    case Arr(xs) => 1 + ItemNesting(xs)
  }

  function MemberNesting(ms: Members): nat {
    if ms.NoMembers? then 0 else Max(Nesting(ms.val), MemberNesting(ms.rest))
  }

  function ItemNesting(xs: Items): nat {
    if xs.NoItems? then 0 else Max(Nesting(xs.item), ItemNesting(xs.others))
  }

  function Names(ms: Members): set<string> {
    if ms.NoMembers? then {} else {ms.key} + Names(ms.rest)
  }

  /** No object, at any depth, repeats a member name. */
  predicate NoRepeats(v: Json) {
    match v
    case Atom(_) => true
    case Obj(ms) => NoRepeatsIn(ms)
    case Arr(xs) => NoRepeatsAmong(xs)
  }

  predicate NoRepeatsIn(ms: Members) {
    ms.Member? ==> ms.key !in Names(ms.rest) && NoRepeats(ms.val) && NoRepeatsIn(ms.rest)
  }

  predicate NoRepeatsAmong(xs: Items) {
    xs.Item? ==> NoRepeats(xs.item) && NoRepeatsAmong(xs.others)
  }

  predicate Fits(nesting: nat, depth: nat) {
    nesting == 0 || depth + nesting <= MAX_DEPTH
  }

  lemma {:induction false} CleanIff(v: Json, path: seq<Segment>, depth: nat)
    ensures All(v, path, depth) == [] <==> NoRepeats(v) && Fits(Nesting(v), depth)
    decreases v
  {
    match v
    case Atom(_) =>
    case Obj(ms) => CleanMembersIff(ms, {}, path, depth);
    case Arr(xs) => CleanItemsIff(xs, 0, path, depth);
  }

  lemma {:induction false} CleanMembersIff(ms: Members, seen: set<string>, path: seq<Segment>, depth: nat)
    ensures AllMembers(ms, seen, path, depth) == [] <==>
            NoRepeatsIn(ms) && Names(ms) !! seen && Fits(MemberNesting(ms), depth + 1)
    decreases ms
  {
    if ms.Member? {
      CleanIff(ms.val, path + [Key(ms.key)], depth + 1);
      CleanMembersIff(ms.rest, seen + {ms.key}, path, depth);
    }
  }

  lemma {:induction false} CleanItemsIff(xs: Items, i: nat, path: seq<Segment>, depth: nat)
    ensures AllItems(xs, i, path, depth) == [] <==> NoRepeatsAmong(xs) && Fits(ItemNesting(xs), depth + 1)
    decreases xs
  {
    if xs.Item? {
      CleanIff(xs.item, path + [Index(i)], depth + 1);
      CleanItemsIff(xs.others, i + 1, path, depth);
    }
  }

  /**
   On the tokens of any value the scan succeeds, having consumed exactly the value, if and only if no object
   repeats a name and containers nest at most 256 deep; otherwise it reports the first violation.
   */
  lemma StrictScan(v: Json, rest: seq<Token>)
    ensures ScanValue(Tokens(v) + rest, [], 0) == Ok(rest) <==> NoRepeats(v) && Nesting(v) <= MAX_DEPTH
    ensures !(NoRepeats(v) && Nesting(v) <= MAX_DEPTH) ==>
              All(v, [], 0) != [] && ScanValue(Tokens(v) + rest, [], 0) == Err(All(v, [], 0)[0])
  {
    ScanIsVerdict(v, rest, [], 0);
    CleanIff(v, [], 0);
  }

  // ---- where a violation is ----

  /** `u` is found in `v` by following the path. */
  predicate Reaches(v: Json, path: seq<Segment>, u: Json)
    decreases v
  {
    if path == [] then u == v
    else
      match v
      case Atom(_) => false
      case Obj(ms) => path[0].Key? && ReachesMember(ms, path[0].key, path[1..], u)
      case Arr(xs) => path[0].Index? && ReachesItem(xs, path[0].i, path[1..], u)
  }

  predicate ReachesMember(ms: Members, k: string, path: seq<Segment>, u: Json)
    decreases ms
  {
    ms.Member? && ((ms.key == k && Reaches(ms.val, path, u)) || ReachesMember(ms.rest, k, path, u))
  }

  predicate ReachesItem(xs: Items, i: nat, path: seq<Segment>, u: Json)
    decreases xs
  {
    xs.Item? && (if i == 0 then Reaches(xs.item, path, u) else ReachesItem(xs.others, i - 1, path, u))
  }

  function Count(ms: Members, k: string): nat {
    if ms.NoMembers? then 0 else (if ms.key == k then 1 else 0) + Count(ms.rest, k)
  }

  /** The violation is real at `u`, `n` steps below a value at the given depth. */
  predicate RealAt(x: Violation, u: Json, depth: nat) {
    match x
    case Duplicate(_, k) => u.Obj? && Count(u.members, k) >= 2
    case TooDeep(_) => !u.Atom? && depth >= MAX_DEPTH
  }

  /** Every violation names the path of the container it is about. */
  lemma {:induction false} ViolationIsThere(v: Json, path: seq<Segment>, depth: nat, x: Violation)
    returns (below: seq<Segment>, u: Json)
    requires x in All(v, path, depth)
    ensures x.path == path + below && Reaches(v, below, u) && RealAt(x, u, depth + |below|)
    decreases v
  {
    if depth >= MAX_DEPTH && x == TooDeep(path) {
      below, u := [], v;
    } else if v.Obj? {
      assert x in AllMembers(v.members, {}, path, depth);
      below, u := MemberViolation(v.members, {}, v.members, path, depth, x);
    } else {
      assert x in AllItems(v.items, 0, path, depth);
      below, u := ItemViolation(v.items, 0, path, depth, x);
    }
  }

  /** How often a name occurs in the whole, given what was seen and what is left. */
  lemma CountRest(ms: Members, seen: set<string>, whole: Members)
    requires ms.Member? && forall k :: Count(whole, k) >= Count(ms, k) + if k in seen then 1 else 0
    ensures forall k :: Count(whole, k) >= Count(ms.rest, k) + if k in seen + {ms.key} then 1 else 0
    ensures ms.key in seen ==> Count(whole, ms.key) >= 2
  {
  }

  lemma {:induction false} MemberViolation(ms: Members, seen: set<string>, whole: Members, path: seq<Segment>,
      depth: nat, x: Violation)
    returns (below: seq<Segment>, u: Json)
    requires x in AllMembers(ms, seen, path, depth)
    requires forall k :: Count(whole, k) >= Count(ms, k) + if k in seen then 1 else 0
    ensures x.path == path + below
    ensures if below == [] then u == Obj(whole) && RealAt(x, u, depth)
            else below[0].Key? && ReachesMember(ms, below[0].key, below[1..], u) && RealAt(x, u, depth + |below|)
    decreases ms
  {
    var inner := path + [Key(ms.key)];
    CountRest(ms, seen, whole);
    hide All, Reaches, Count;
    if ms.key in seen && x == Duplicate(path, ms.key) {
      below, u := [], Obj(whole);
    } else if x in All(ms.val, inner, depth + 1) {
      var b;
      b, u := ViolationIsThere(ms.val, inner, depth + 1, x);
      below := [Key(ms.key)] + b;
      assert below[1..] == b;
    } else {
      assert x in AllMembers(ms.rest, seen + {ms.key}, path, depth);
      below, u := MemberViolation(ms.rest, seen + {ms.key}, whole, path, depth, x);
    }
  }

  lemma {:induction false} ItemViolation(xs: Items, i: nat, path: seq<Segment>, depth: nat, x: Violation)
    returns (below: seq<Segment>, u: Json)
    requires x in AllItems(xs, i, path, depth)
    ensures x.path == path + below && below != [] && below[0].Index? && below[0].i >= i
    ensures ReachesItem(xs, below[0].i - i, below[1..], u) && RealAt(x, u, depth + |below|)
    decreases xs
  {
    var inner := path + [Index(i)];
    hide All, RealAt, Reaches;
    if x in All(xs.item, inner, depth + 1) {
      var b;
      b, u := ViolationIsThere(xs.item, inner, depth + 1, x);
      below := [Index(i)] + b;
      assert below[1..] == b;
    } else {
      below, u := ItemViolation(xs.others, i + 1, path, depth, x);
    }
  }

  /** The path a failed scan reports leads to the container that is at fault. */
  lemma ReportIsThere(v: Json, rest: seq<Token>) returns (u: Json)
    requires ScanValue(Tokens(v) + rest, [], 0).Err?
    ensures var x := ScanValue(Tokens(v) + rest, [], 0).violation;
            Reaches(v, x.path, u) && RealAt(x, u, |x.path|)
  {
    ScanIsVerdict(v, rest, [], 0);
    var x := All(v, [], 0)[0];
    var below;
    below, u := ViolationIsThere(v, [], 0, x);
    assert [] + below == below;
  }

  // ---- the scanner itself ----

  class Decoder {
    const tokens: seq<Token>
    var pos: nat

    constructor (ts: seq<Token>)
      ensures tokens == ts && pos == 0
    {
      tokens, pos := ts, 0;
    }

    ghost predicate Valid()
      reads this
    {
      pos <= |tokens|
    }

    ghost function Left(): seq<Token>
      requires Valid()
      reads this
    {
      tokens[pos..]
    }

    /** `More`: another element before the closing delimiter. */
    predicate More()
      requires Valid()
      reads this
    {
      pos < |tokens| && !tokens[pos].CloseObject? && !tokens[pos].CloseArray?
    }
  }

  /** A Go slice: a prefix of a backing array. */
  datatype Slice = Slice(buf: array<Segment>, len: nat)

  /** `append`: in place while the backing array has room, otherwise into a larger copy. */
  method Append(s: Slice, x: Segment) returns (t: Slice)
    requires s.len <= s.buf.Length
    modifies s.buf
    ensures t.len == s.len + 1 <= t.buf.Length && (t.buf == s.buf || fresh(t.buf))
    ensures t.buf[..t.len] == old(s.buf[..s.len]) + [x]
    ensures s.buf[..s.len] == old(s.buf[..s.len])
  {
    if s.len < s.buf.Length {
      s.buf[s.len] := x;
      t := Slice(s.buf, s.len + 1);
    } else {
      var bigger := new Segment[2 * s.len + 1](_ => x);
      for i := 0 to s.len
        invariant bigger[..i] == s.buf[..i]
        invariant bigger[s.len] == x
        modifies bigger
      {
        bigger[i] := s.buf[i];
      }
      t := Slice(bigger, s.len + 1);
    }
  }

  datatype Result = Done | Failed(violation: Violation) | Malformed

  /** The result and the place reached are what the function says. */
  ghost predicate Agrees(r: Result, left: seq<Token>, spec: Outcome) {
    match r
    case Done => spec == Ok(left)
    case Failed(x) => spec == Err(x)
    case Malformed => spec == Bad
  }

  /** `rejectDuplicateJSONValue`: whatever children write behind it, the path of a container stays its own. */
  method Reject(d: Decoder, path: Slice, depth: nat) returns (r: Result)
    requires d.Valid() && path.len <= path.buf.Length
    modifies d, path.buf
    ensures d.Valid() && d.pos >= old(d.pos) && (r.Done? ==> d.pos > old(d.pos))
    ensures path.buf[..path.len] == old(path.buf[..path.len])
    ensures Agrees(r, d.Left(), ScanValue(old(d.Left()), old(path.buf[..path.len]), depth))
    decreases |d.tokens| - d.pos, 0
  {
    ghost var ts, p := d.Left(), path.buf[..path.len];
    if d.pos == |d.tokens| {
      return Malformed;
    }
    var token := d.tokens[d.pos];
    d.pos := d.pos + 1;
    assert d.Left() == ts[1..];
    if token.Scalar? {
      return Done;
    }
    if depth >= MAX_DEPTH {
      return Failed(TooDeep(path.buf[..path.len]));
    }
    match token
    case OpenObject => r := RejectMembers(d, path, depth);
    case OpenArray => r := RejectItems(d, path, depth);
    case _ => r := Malformed;
  }

  method RejectMembers(d: Decoder, path: Slice, depth: nat) returns (r: Result)
    requires d.Valid() && path.len <= path.buf.Length
    modifies d, path.buf
    ensures d.Valid() && d.pos >= old(d.pos)
    ensures path.buf[..path.len] == old(path.buf[..path.len])
    ensures Agrees(r, d.Left(), ScanMembers(old(d.Left()), old(path.buf[..path.len]), depth, {}))
    decreases |d.tokens| - d.pos, 1
  {
    ghost var spec, p := ScanMembers(d.Left(), path.buf[..path.len], depth, {}), path.buf[..path.len];
    var seen: set<string> := {};
    while d.More()
      invariant d.Valid() && d.pos >= old(d.pos) && path.buf[..path.len] == p
      invariant ScanMembers(d.Left(), p, depth, seen) == spec
      decreases |d.tokens| - d.pos
    {
      var token := d.tokens[d.pos];
      ghost var ts := d.Left();
      d.pos := d.pos + 1;
      assert d.Left() == ts[1..];
      if !token.Scalar? || !token.v.Str? {
        return Malformed;
      }
      var key := token.v.s;
      if key in seen {
        return Failed(Duplicate(path.buf[..path.len], key));
      }
      seen := seen + {key};
      var child := Append(path, Key(key));
      r := Reject(d, child, depth + 1);
      if !r.Done? {
        return;
      }
    }
    if d.pos == |d.tokens| || !d.tokens[d.pos].CloseObject? {
      return Malformed;
    }
    d.pos := d.pos + 1;
    r := Done;
  }

  method RejectItems(d: Decoder, path: Slice, depth: nat) returns (r: Result)
    requires d.Valid() && path.len <= path.buf.Length
    modifies d, path.buf
    ensures d.Valid() && d.pos >= old(d.pos)
    ensures path.buf[..path.len] == old(path.buf[..path.len])
    ensures Agrees(r, d.Left(), ScanItems(old(d.Left()), old(path.buf[..path.len]), depth, 0))
    decreases |d.tokens| - d.pos, 1
  {
    ghost var spec, p := ScanItems(d.Left(), path.buf[..path.len], depth, 0), path.buf[..path.len];
    var i := 0;
    while d.More()
      invariant d.Valid() && d.pos >= old(d.pos) && path.buf[..path.len] == p
      invariant ScanItems(d.Left(), p, depth, i) == spec
      decreases |d.tokens| - d.pos
    {
      var child := Append(path, Index(i));
      r := Reject(d, child, depth + 1);
      if !r.Done? {
        return;
      }
      i := i + 1;
    }
    if d.pos == |d.tokens| || !d.tokens[d.pos].CloseArray? {
      return Malformed;
    }
    d.pos := d.pos + 1;
    r := Done;
  }
}
