/**
 Contract negotiation: version parsing with machine integers, comparison by
 subtraction, and requirement ranges.
 */
module Semver {
  import opened Text

  /** The largest value of Go's 64-bit int. */
  const MAX_INT := 0x7fff_ffff_ffff_ffff

  const MIN_INT := -MAX_INT - 1

  /** 64-bit subtraction, wrapping around. */
  function Sub(a: int, b: int): int {
    var d := a - b;
    if d > MAX_INT then d - 0x1_0000_0000_0000_0000
    else if d < MIN_INT then d + 0x1_0000_0000_0000_0000
    else d
  }

  datatype Version = Version(major: int, minor: int, patch: int)

  /** What the version pattern and `strconv.Atoi` can produce. */
  predicate Machine(v: Version) {
    0 <= v.major <= MAX_INT && 0 <= v.minor <= MAX_INT && 0 <= v.patch <= MAX_INT
  }

  // ---- numbers ----

  predicate Digit(c: char) {
    '0' <= c <= '9'
  }

  /** `0|[1-9][0-9]*`. */
  predicate Numeral(s: string) {
    s != "" && (forall c :: c in s ==> Digit(c)) && (|s| > 1 ==> s[0] != '0')
  }

  /** The number a digit string stands for. */
  function Number(s: string): nat
    requires forall c :: c in s ==> Digit(c)
  {
    if s == "" then 0
    else
      var k := |s| - 1;
      assert Digit(s[k]) by { assert s[k] in s; }
      assert forall c :: c in s[..k] ==> c in s;
      10 * Number(s[..k]) + (s[k] as int - '0' as int)
  }

  /** `strconv.Atoi`, whose error is dropped: out of range gives the largest int. */
  function Atoi(s: string): int
    requires forall c :: c in s ==> Digit(c)
  {
    if Number(s) > MAX_INT then MAX_INT else Number(s)
  }

  // ---- versions ----

  /** The numbers of a version text, without any limit. */
  datatype Exact = Exact(major: nat, minor: nat, patch: nat)

  /** A text cut at its two dots. */
  function Cut(s: string): Option<(string, string, string)> {
    var i := IndexOf(s, '.');
    if i == |s| then None
    else
      var rest := s[i + 1..];
      var j := IndexOf(rest, '.');
      if j == |rest| then None else Some((s[..i], rest[..j], rest[j + 1..]))
  }

  predicate IsVersion(s: string) {
    Cut(s).Some? && Numeral(Cut(s).value.0) && Numeral(Cut(s).value.1) && Numeral(Cut(s).value.2)
  }

  /** `parseSemanticVersion`. */
  function Parse(s: string): Option<Version> {
    if !IsVersion(s) then None
    else
      var (a, b, c) := Cut(s).value;
      Some(Version(Atoi(a), Atoi(b), Atoi(c)))
  }

  function Meaning(s: string): Exact
    requires IsVersion(s)
  {
    var (a, b, c) := Cut(s).value;
    Exact(Number(a), Number(b), Number(c))
  }

  function Clamp(n: nat): nat { if n > MAX_INT then MAX_INT else n }

  /** What parsing makes of a version. */
  function Clamped(e: Exact): Exact { Exact(Clamp(e.major), Clamp(e.minor), Clamp(e.patch)) }

  /** `compareSemanticVersions`. */
  function Compare(a: Version, b: Version): int {
    if a.major != b.major then Sub(a.major, b.major)
    else if a.minor != b.minor then Sub(a.minor, b.minor)
    else Sub(a.patch, b.patch)
  }

  /** The precedence of section 11 of SemVer 2.0.0, for versions without pre-release parts. */
  predicate Before(a: Exact, b: Exact) {
    a.major < b.major || (a.major == b.major && (a.minor < b.minor || (a.minor == b.minor && a.patch < b.patch)))
  }

  /** On what parsing can produce, the subtraction never wraps: its sign is the order. */
  lemma CompareIsOrder(a: Version, b: Version)
    requires Machine(a) && Machine(b)
    ensures Compare(a, b) < 0 <==> Before(Exact(a.major, a.minor, a.patch), Exact(b.major, b.minor, b.patch))
    ensures Compare(a, b) == 0 <==> a == b
    ensures Compare(a, b) > 0 <==> Before(Exact(b.major, b.minor, b.patch), Exact(a.major, a.minor, a.patch))
    ensures MIN_INT <= Compare(a, b) <= MAX_INT
  {
  }

  lemma ParseIsMachine(s: string)
    ensures Parse(s).Some? ==> Machine(Parse(s).value)
  {
  }

  /** In general the sign of the comparison is the order of the clamped numbers. */
  lemma ComparesClamped(s: string, t: string)
    requires IsVersion(s) && IsVersion(t)
    ensures var c, m, n := Compare(Parse(s).value, Parse(t).value), Clamped(Meaning(s)), Clamped(Meaning(t));
            (c < 0 <==> Before(m, n)) && (c > 0 <==> Before(n, m)) && (c == 0 <==> m == n)
  {
    ParseIsMachine(s);
    ParseIsMachine(t);
    CompareIsOrder(Parse(s).value, Parse(t).value);
  }

  /** Different numbers that parsing makes equal: both are at or past the limit. */
  predicate Blurred(a: nat, b: nat) {
    a != b && a >= MAX_INT && b >= MAX_INT
  }

  /** The clamped minor and patch numbers put `m` before `n`. */
  predicate TailBefore(m: Exact, n: Exact) {
    Clamp(m.minor) < Clamp(n.minor) || (Clamp(m.minor) == Clamp(n.minor) && Clamp(m.patch) < Clamp(n.patch))
  }

  /**
   The first number in which the versions differ is not blurred; or what follows it happens to point the same
   way, so that the comparison comes out right by accident.
   */
  predicate Faithful(m: Exact, n: Exact) {
    if m.major != n.major then
      Blurred(m.major, n.major) ==> if m.major < n.major then TailBefore(m, n) else TailBefore(n, m)
    else if m.minor != n.minor then
      Blurred(m.minor, n.minor) ==>
        if m.minor < n.minor then Clamp(m.patch) < Clamp(n.patch) else Clamp(n.patch) < Clamp(m.patch)
    else !Blurred(m.patch, n.patch)
  }

  /** The comparison of two texts comes out as section 11 of SemVer 2.0.0 orders them. */
  predicate Exactly11(s: string, t: string)
    requires IsVersion(s) && IsVersion(t)
  {
    var c, m, n := Compare(Parse(s).value, Parse(t).value), Meaning(s), Meaning(t);
    (c < 0 <==> Before(m, n)) && (c > 0 <==> Before(n, m)) && (c == 0 <==> m == n)
  }

  /** Parsed versions compare as the texts mean if and only if no blurred number decides. */
  lemma ParsedCompareExactly(s: string, t: string)
    requires IsVersion(s) && IsVersion(t)
    ensures Exactly11(s, t) <==> Faithful(Meaning(s), Meaning(t))
  {
    ComparesClamped(s, t);
    hide Parse, Meaning, Compare, IsVersion;
  }

  /** Every number is below the limit. */
  predicate Small(e: Exact) {
    e.major < MAX_INT && e.minor < MAX_INT && e.patch < MAX_INT
  }

  /** One side below the limit is enough. */
  lemma SmallIsFaithful(m: Exact, n: Exact)
    requires Small(m) || Small(n)
    ensures Faithful(m, n)
  {
  }

  /** Two versions compare equal exactly when their numbers are equal or both at or past the limit. */
  lemma TiesExactly(s: string, t: string)
    requires IsVersion(s) && IsVersion(t)
    ensures Compare(Parse(s).value, Parse(t).value) == 0 <==>
            && Same(Meaning(s).major, Meaning(t).major) && Same(Meaning(s).minor, Meaning(t).minor)
            && Same(Meaning(s).patch, Meaning(t).patch)
  {
    ComparesClamped(s, t);
    hide Parse, Meaning, Compare, IsVersion;
  }

  predicate Same(a: nat, b: nat) {
    a == b || Blurred(a, b)
  }

  // ---- every version has a text ----

  function Decimal(n: nat): (s: string)
    ensures Numeral(s) && Number(s) == n
  {
    var d := [(n % 10) as char + '0'];
    assert forall c :: c in d ==> c == d[0];
    if n < 10 then
      assert d[..0] == [];
      d
    else
      var s := Decimal(n / 10) + d;
      assert s[..|s| - 1] == Decimal(n / 10);
      assert Number(Decimal(n / 10)) > 0;
      s
  }

  function Spell(e: Exact): string {
    Decimal(e.major) + "." + (Decimal(e.minor) + "." + Decimal(e.patch))
  }

  lemma FirstDot(a: string, rest: string)
    requires '.' !in a
    ensures var s := a + "." + rest; IndexOf(s, '.') == |a| && s[..|a|] == a && s[|a| + 1..] == rest
  {
    var s := a + "." + rest;
    var i := IndexOf(s, '.');
    assert s[|a|] == '.';
    assert forall k :: 0 <= k < |a| ==> s[k] == a[k] && a[k] in a;
  }

  /** Every version, however large, is what some text means. */
  lemma SpellReads(e: Exact)
    ensures IsVersion(Spell(e)) && Meaning(Spell(e)) == e
  {
    var a, b, c := Decimal(e.major), Decimal(e.minor), Decimal(e.patch);
    FirstDot(a, b + "." + c);
    FirstDot(b, c);
    assert Cut(Spell(e)) == Some((a, b, c));
  }

  /** Past the limit the order can even be inverted. */
  lemma OrderInverts() returns (s: string, t: string)
    ensures IsVersion(s) && IsVersion(t) && Before(Meaning(s), Meaning(t))
    ensures Compare(Parse(s).value, Parse(t).value) > 0
  {
    var m, n := Exact(MAX_INT + 1, 5, 0), Exact(MAX_INT + 2, 3, 0);
    SpellReads(m);
    SpellReads(n);
    s, t := Spell(m), Spell(n);
    ComparesClamped(s, t);
    hide Parse, Meaning, Compare, IsVersion, Spell;
  }

  // ---- ranges ----

  datatype Op = AtLeast | AtMost | Above | Below | Exactly

  datatype Term = Term(op: Op, version: Version)

  predicate Prefixed(s: string, p: string) {
    |p| <= |s| && s[..|p|] == p
  }

  /** One comparison of a requirement: the longest operator first. */
  function ParseTerm(s: string): Option<Term> {
    if Prefixed(s, ">=") then Of(AtLeast, s[2..])
    else if Prefixed(s, "<=") then Of(AtMost, s[2..])
    else if Prefixed(s, ">") then Of(Above, s[1..])
    else if Prefixed(s, "<") then Of(Below, s[1..])
    else if Prefixed(s, "=") then Of(Exactly, s[1..])
    else None
  }

  function Of(op: Op, text: string): Option<Term> {
    if Parse(text).Some? then Some(Term(op, Parse(text).value)) else None
  }

  predicate Holds(t: Term, v: Version) {
    var c := Compare(v, t.version);
    match t.op
    case AtLeast => c >= 0
    case AtMost => c <= 0
    case Above => c > 0
    case Below => c < 0
    case Exactly => c == 0
  }

  /** How an operator is written. */
  function Symbol(op: Op): string {
    match op
    case AtLeast => ">="
    case AtMost => "<="
    case Above => ">"
    case Below => "<"
    case Exactly => "="
  }

  /** What an operator asks of a version, in the exact order. */
  predicate Asks(op: Op, v: Exact, bound: Exact) {
    match op
    case AtLeast => !Before(v, bound)
    case AtMost => !Before(bound, v)
    case Above => Before(bound, v)
    case Below => Before(v, bound)
    case Exactly => v == bound
  }

  lemma VersionStartsWithDigit(s: string)
    requires IsVersion(s)
    ensures s != "" && Digit(s[0])
  {
    var a := Cut(s).value.0;
    assert a == s[..|a|] && a[0] in a;
  }

  /** An operator followed by a version is read as that operator: a longer one is never mistaken for a shorter. */
  lemma TermReads(op: Op, text: string)
    requires IsVersion(text)
    ensures ParseTerm(Symbol(op) + text) == Some(Term(op, Parse(text).value))
  {
    hide Parse, IsVersion, Prefixed;
    VersionStartsWithDigit(text);
    ParsesVersion(text);
    var s := Symbol(op) + text;
    assert s[|Symbol(op)|..] == text && s[|Symbol(op)|] == text[0];
    assert s[0] == Symbol(op)[0] && (|Symbol(op)| == 2 ==> s[1] == '=');
    PrefixedTwo(s, '>', '=');
    PrefixedTwo(s, '<', '=');
    PrefixedOne(s, '>');
    PrefixedOne(s, '<');
    PrefixedOne(s, '=');
    assert [ '>', '=' ] == ">=" && [ '<', '=' ] == "<=" && ['>'] == ">" && ['<'] == "<" && ['='] == "=";
  }

  lemma PrefixedTwo(s: string, a: char, b: char)
    requires |s| >= 2
    ensures Prefixed(s, [a, b]) <==> s[0] == a && s[1] == b
  {
    assert s[..2] == [s[0], s[1]];
  }

  lemma PrefixedOne(s: string, a: char)
    requires |s| >= 1
    ensures Prefixed(s, [a]) <==> s[0] == a
  {
    assert s[..1] == [s[0]];
  }

  lemma ParsesVersion(text: string)
    requires IsVersion(text)
    ensures Parse(text).Some?
  {
  }

  /** A term holds of a version exactly when the order says so, unless a blurred number decides. */
  lemma TermMeans(op: Op, text: string, candidate: string)
    requires IsVersion(text) && IsVersion(candidate) && Faithful(Meaning(candidate), Meaning(text))
    ensures var t := ParseTerm(Symbol(op) + text);
            t.Some? && (Holds(t.value, Parse(candidate).value) <==> Asks(op, Meaning(candidate), Meaning(text)))
  {
    TermReads(op, text);
    ParsedCompareExactly(candidate, text);
    hide ParseTerm, Parse, Meaning, Compare, Faithful;
  }

  /** The term is an operator and a version, and asks something that holds of `e`. */
  ghost predicate TermAsks(term: string, e: Exact) {
    exists op, text :: term == Symbol(op) + text && IsVersion(text) && Asks(op, e, Meaning(text))
  }

  /** A term is read as an operator and a version exactly when it is written as one. */
  lemma TermSplits(term: string) returns (op: Op, text: string)
    requires ParseTerm(term).Some?
    ensures term == Symbol(op) + text && IsVersion(text)
  {
    hide IsVersion, Cut;
    op := ParseTerm(term).value.op;
    text := term[|Symbol(op)|..];
    assert term == term[..|Symbol(op)|] + text;
  }

  lemma TermExactly(term: string, candidate: string)
    requires IsVersion(candidate) && Small(Meaning(candidate))
    ensures ParseTerm(term).Some? && Holds(ParseTerm(term).value, Parse(candidate).value)
            <==> TermAsks(term, Meaning(candidate))
  {
    hide Parse, Meaning, IsVersion, Faithful, Symbol, ParseTerm, Holds, Asks;
    var e := Meaning(candidate);
    if ParseTerm(term).Some? {
      var op, text := TermSplits(term);
      SmallIsFaithful(e, Meaning(text));
      TermMeans(op, text, candidate);
    }
    if TermAsks(term, e) {
      var op, text :| term == Symbol(op) + text && IsVersion(text) && Asks(op, e, Meaning(text));
      SmallIsFaithful(e, Meaning(text));
      TermMeans(op, text, candidate);
    }
  }

  /** `strings.Fields`. */
  function Fields(s: string): seq<string> {
    if s == "" then []
    else if IsSpace(s[0]) then Fields(s[1..])
    else
      var k := Run(s);
      [s[..k]] + Fields(s[k..])
  }

  function Run(s: string): (k: nat)
    ensures k <= |s| && (s != "" && !IsSpace(s[0]) ==> k > 0)
  {
    if s == "" || IsSpace(s[0]) then 0 else 1 + Run(s[1..])
  }

  predicate IsWord(w: string) {
    w != "" && forall c :: c in w ==> !IsSpace(c)
  }

  predicate IsGap(g: string) {
    forall c :: c in g ==> IsSpace(c)
  }

  /** Words with white space around and between them, which only at the ends may be missing. */
  predicate Spaced(gaps: seq<string>, words: seq<string>) {
    && |gaps| == |words| + 1
    && (forall i :: 0 <= i < |words| ==> IsWord(words[i]))
    && (forall i :: 0 <= i < |gaps| ==> IsGap(gaps[i]))
    && (forall i :: 0 < i < |words| ==> gaps[i] != "")
  }

  function Weave(gaps: seq<string>, words: seq<string>): string
    requires |gaps| == |words| + 1
  {
    if words == [] then gaps[0] else gaps[0] + words[0] + Weave(gaps[1..], words[1..])
  }

  lemma {:induction false} FieldsSkip(g: string, s: string)
    requires IsGap(g)
    ensures Fields(g + s) == Fields(s)
  {
    if g == "" {
      assert g + s == s;
    } else {
      assert (g + s)[0] == g[0] && g[0] in g && (g + s)[1..] == g[1..] + s;
      FieldsSkip(g[1..], s);
    }
  }

  lemma {:induction false} RunOfWord(w: string, s: string)
    requires (forall c :: c in w ==> !IsSpace(c)) && (s == "" || IsSpace(s[0]))
    ensures Run(w + s) == |w|
  {
    if w == "" {
      assert w + s == s;
    } else {
      assert (w + s)[0] == w[0] && w[0] in w && (w + s)[1..] == w[1..] + s;
      RunOfWord(w[1..], s);
    }
  }

  lemma FieldsWord(w: string, s: string)
    requires IsWord(w) && (s == "" || IsSpace(s[0]))
    ensures Fields(w + s) == [w] + Fields(s)
  {
    RunOfWord(w, s);
    assert (w + s)[0] == w[0] && w[0] in w && (w + s)[..|w|] == w && (w + s)[|w|..] == s;
  }

  lemma SpacedTail(gaps: seq<string>, words: seq<string>)
    requires Spaced(gaps, words) && words != []
    ensures Spaced(gaps[1..], words[1..])
    ensures var s := Weave(gaps[1..], words[1..]); s == "" || IsSpace(s[0])
  {
    hide IsWord;
    var g := gaps[1..][0];
    assert IsGap(g);
    if g != "" { assert g[0] in g; }
  }

  lemma {:induction false} FieldsOfWeave(gaps: seq<string>, words: seq<string>)
    requires Spaced(gaps, words)
    ensures Fields(Weave(gaps, words)) == words
  {
    var g := gaps[0];
    if words == [] {
      FieldsSkip(g, "");
      assert g + "" == g;
    } else {
      var rest := Weave(gaps[1..], words[1..]);
      SpacedTail(gaps, words);
      FieldsOfWeave(gaps[1..], words[1..]);
      FieldsWord(words[0], rest);
      FieldsSkip(g, words[0] + rest);
      assert g + words[0] + rest == g + (words[0] + rest);
    }
  }

  lemma {:induction false} RunIsMaximal(s: string)
    ensures forall c :: c in s[..Run(s)] ==> !IsSpace(c)
    ensures Run(s) < |s| ==> IsSpace(s[Run(s)])
  {
    if s != "" && !IsSpace(s[0]) {
      RunIsMaximal(s[1..]);
      assert s[..Run(s)] == [s[0]] + s[1..][..Run(s[1..])];
    }
  }

  /** The text is made of the words and gaps; it can start with white space only in its first gap. */
  predicate Woven(s: string, gaps: seq<string>, words: seq<string>) {
    Spaced(gaps, words) && Weave(gaps, words) == s && (s != "" && IsSpace(s[0]) ==> gaps[0] != "")
  }

  lemma GapMore(c: char, g: string)
    requires IsSpace(c) && IsGap(g)
    ensures IsGap([c] + g)
  {
    hide IsSpace;
  }

  lemma PutSpace(s: string, gaps: seq<string>, words: seq<string>) returns (more: seq<string>)
    requires s != "" && IsSpace(s[0]) && Woven(s[1..], gaps, words)
    ensures Woven(s, more, words)
  {
    hide IsWord, IsSpace, IsGap;
    GapMore(s[0], gaps[0]);
    var g := [s[0]] + gaps[0];
    more := gaps[0 := g];
    assert more[1..] == gaps[1..] && s == [s[0]] + s[1..];
    assert words != [] ==> g + words[0] == [s[0]] + (gaps[0] + words[0]);
  }

  lemma PutWord(s: string, k: nat, gaps: seq<string>, words: seq<string>) returns (more: seq<string>)
    requires 0 < k <= |s| && IsWord(s[..k]) && Woven(s[k..], gaps, words) && (k < |s| ==> IsSpace(s[k]))
    ensures Woven(s, more, [s[..k]] + words)
  {
    assert s == s[..k] + s[k..] && s[0] in s[..k];
    hide IsSpace;
    more := [""] + gaps;
    assert more[1..] == gaps && ([s[..k]] + words)[1..] == words;
    assert words != [] ==> IsWord(words[0]);
    assert "" + s[..k] == s[..k];
  }

  lemma {:induction false} FieldsWeave(s: string) returns (gaps: seq<string>)
    ensures Woven(s, gaps, Fields(s))
    decreases |s|
  {
    hide Woven, IsSpace;
    if s == "" {
      gaps := [""];
      WovenNothing();
    } else if IsSpace(s[0]) {
      gaps := FieldsWeave(s[1..]);
      gaps := PutSpace(s, gaps, Fields(s[1..]));
    } else {
      var k := Run(s);
      RunIsMaximal(s);
      gaps := FieldsWeave(s[k..]);
      gaps := PutWord(s, k, gaps, Fields(s[k..]));
    }
  }

  lemma WovenNothing()
    ensures Woven("", [""], [])
  {
  }

  /** The fields of a text are its maximal runs without white space, in order. */
  lemma FieldsExactly(s: string, words: seq<string>)
    ensures Fields(s) == words <==> exists gaps :: Spaced(gaps, words) && Weave(gaps, words) == s
  {
    hide Fields, Weave;
    var gaps := FieldsWeave(s);
    forall g | Spaced(g, words) && Weave(g, words) == s ensures Fields(s) == words { FieldsOfWeave(g, words); }
  }

  /** A lone version means exactly that version; otherwise every term must hold. */
  predicate Contains(requirement: string, v: Version) {
    var terms := Fields(requirement);
    && Trim(requirement) == requirement && requirement != ""
    && if |terms| == 1 && Parse(terms[0]).Some? then Compare(v, Parse(terms[0]).value) == 0
       else forall i :: 0 <= i < |terms| ==> ParseTerm(terms[i]).Some? && Holds(ParseTerm(terms[i]).value, v)
  }

  /** `semverRangeContains`. */
  method RangeContains(requirement: string, candidate: string) returns (ok: bool)
    ensures ok <==> Parse(candidate).Some? && Contains(requirement, Parse(candidate).value)
  {
    hide Parse, ParseTerm, Holds, Compare, Fields, Trim;
    var v := Parse(candidate);
    if v.None? || Trim(requirement) != requirement || requirement == "" {
      return false;
    }
    var terms := Fields(requirement);
    if |terms| == 1 {
      var exact := Parse(terms[0]);
      if exact.Some? {
        return Compare(v.value, exact.value) == 0;
      }
    }
    for i := 0 to |terms|
      invariant forall j :: 0 <= j < i ==> ParseTerm(terms[j]).Some? && Holds(ParseTerm(terms[j]).value, v.value)
    {
      var term := ParseTerm(terms[i]);
      if term.None? || !Holds(term.value, v.value) {
        return false;
      }
    }
    return true;
  }

  /** What a requirement asks of a version, in the exact order. */
  ghost predicate Meets(requirement: string, e: Exact) {
    var terms := Fields(requirement);
    && Trim(requirement) == requirement && requirement != ""
    && if |terms| == 1 && IsVersion(terms[0]) then e == Meaning(terms[0])
       else forall i :: 0 <= i < |terms| ==> TermAsks(terms[i], e)
  }

  /** Whatever the requirement says, a candidate below the limit is judged as the exact order judges it. */
  lemma RequirementMeans(requirement: string, candidate: string)
    requires IsVersion(candidate) && Small(Meaning(candidate))
    ensures Contains(requirement, Parse(candidate).value) <==> Meets(requirement, Meaning(candidate))
  {
    var terms := Fields(requirement);
    if |terms| == 1 && IsVersion(terms[0]) {
      SmallIsFaithful(Meaning(candidate), Meaning(terms[0]));
      ParsedCompareExactly(candidate, terms[0]);
    }
    forall i | 0 <= i < |terms|
      ensures ParseTerm(terms[i]).Some? && Holds(ParseTerm(terms[i]).value, Parse(candidate).value)
              <==> TermAsks(terms[i], Meaning(candidate))
    {
      TermExactly(terms[i], candidate);
    }
    hide Meaning, Fields, Trim, ParseTerm, Holds, TermAsks, Compare, Faithful;
  }

  /** The contract this program offers: so every requirement it meets is judged exactly. */
  const CONTRACT := "0.61.1"

  lemma ContractIsSmall()
    ensures IsVersion(CONTRACT) && Meaning(CONTRACT) == Exact(0, 61, 1) && Small(Meaning(CONTRACT))
  {
    SpellReads(Exact(0, 61, 1));
    assert Decimal(0) == "0" && Decimal(1) == "1" && Decimal(6) == "6";
    assert Decimal(61) == "61";
    assert Spell(Exact(0, 61, 1)) == "0" + "." + ("61" + "." + "1") == CONTRACT;
    hide IsVersion, Meaning;
  }

  predicate AtMostAs(a: Version, b: Version)
    requires Machine(a) && Machine(b)
  {
    a == b || Before(Exact(a.major, a.minor, a.patch), Exact(b.major, b.minor, b.patch))
  }

  lemma TermIsConvex(t: Term, a: Version, b: Version, c: Version)
    requires Machine(t.version) && Machine(a) && Machine(b) && Machine(c)
    requires AtMostAs(a, b) && AtMostAs(b, c) && Holds(t, a) && Holds(t, c)
    ensures Holds(t, b)
  {
    CompareIsOrder(a, t.version);
    CompareIsOrder(b, t.version);
    CompareIsOrder(c, t.version);
    hide Compare;
  }

  lemma TermIsMachine(s: string)
    ensures ParseTerm(s).Some? ==> Machine(ParseTerm(s).value.version)
  {
    forall i | 0 <= i <= |s| ensures Parse(s[i..]).Some? ==> Machine(Parse(s[i..]).value) { ParseIsMachine(s[i..]); }
    hide Parse;
  }

  /** Ranges are convex: with two versions they contain everything between. */
  lemma RangeIsConvex(requirement: string, a: Version, b: Version, c: Version)
    requires Machine(a) && Machine(b) && Machine(c) && AtMostAs(a, b) && AtMostAs(b, c)
    requires Contains(requirement, a) && Contains(requirement, c)
    ensures Contains(requirement, b)
  {
    var terms := Fields(requirement);
    hide Fields, Trim;
    if |terms| == 1 && Parse(terms[0]).Some? {
      ParseIsMachine(terms[0]);
      hide Parse;
      TermIsConvex(Term(Exactly, Parse(terms[0]).value), a, b, c);
    } else {
      forall i | 0 <= i < |terms| ensures ParseTerm(terms[i]).Some? && Holds(ParseTerm(terms[i]).value, b) {
        TermIsMachine(terms[i]);
        hide ParseTerm;
        TermIsConvex(ParseTerm(terms[i]).value, a, b, c);
      }
    }
  }

  // ---- negotiation ----

  datatype Requirement = Requirement(semver: string, intent: int, result: int, features: seq<string>)

  /** The supported features asked for, in the order they are supported. */
  function Picked(supported: seq<string>, asked: set<string>): seq<string> {
    if supported == [] then []
    else
      var k := |supported| - 1;
      Picked(supported[..k], asked) + if supported[k] in asked then [supported[k]] else []
  }

  /** `Negotiate`. */
  method Negotiate(r: Requirement, contract: string, supported: seq<string>) returns (features: Option<seq<string>>)
    ensures features.Some? <==>
            && Parse(contract).Some? && Contains(r.semver, Parse(contract).value) && r.intent == 1 && r.result == 1
            && (forall i, j :: 0 <= i < j < |r.features| ==> r.features[i] != r.features[j])
            && (forall f :: f in r.features ==> f in supported)
    ensures features.Some? ==> features.value == Picked(supported, set f | f in r.features)
  {
    hide Contains, Parse;
    var included := RangeContains(r.semver, contract);
    if !included || r.intent != 1 || r.result != 1 {
      return None;
    }
    var seen: set<string> := {};
    for i := 0 to |r.features|
      invariant seen == set f | f in r.features[..i]
      invariant forall j, k :: 0 <= j < k < i ==> r.features[j] != r.features[k]
      invariant forall j :: 0 <= j < i ==> r.features[j] in supported
    {
      assert r.features[..i + 1] == r.features[..i] + [r.features[i]];
      if r.features[i] in seen {
        var j :| 0 <= j < i && r.features[j] == r.features[i];
        return None;
      }
      seen := seen + {r.features[i]};
      if r.features[i] !in supported {
        assert r.features[i] in r.features;
        return None;
      }
    }
    assert r.features[..|r.features|] == r.features;
    var out: seq<string> := [];
    for i := 0 to |supported|
      invariant out == Picked(supported[..i], seen)
    {
      assert supported[..i + 1][..i] == supported[..i];
      if supported[i] in seen {
        out := out + [supported[i]];
      }
    }
    assert supported[..|supported|] == supported;
    return Some(out);
  }
}
