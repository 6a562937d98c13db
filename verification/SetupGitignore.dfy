/**
 The .gitignore that `setup` appends to, and exactly when doing it again changes
 nothing.
 */
module SetupGitignore {
  import opened Text

  /** `strings.Split(s, "\n")`. */
  function Lines(s: string): (r: seq<string>)
    ensures |r| >= 1
  {
    if s == "" then [""]
    else if s[0] == '\n' then [""] + Lines(s[1..])
    else
      var rest := Lines(s[1..]);
      [[s[0]] + rest[0]] + rest[1..]
  }

  /** No line of a text holds a newline. */
  lemma {:induction false} LinesAreLines(s: string, l: string)
    requires l in Lines(s)
    ensures NewlineFree(l)
  {
    if s != "" {
      var rest := Lines(s[1..]);
      if s[0] == '\n' {
        if l != "" { LinesAreLines(s[1..], l); }
      } else if l == [s[0]] + rest[0] {
        LinesAreLines(s[1..], rest[0]);
      } else {
        assert l in rest[1..];
        LinesAreLines(s[1..], l);
      }
    }
  }

  /** A newline between two texts separates their lines. */
  lemma {:induction false} LinesAppend(a: string, b: string)
    ensures Lines(a + "\n" + b) == Lines(a) + Lines(b)
  {
    var s := a + "\n" + b;
    if a == "" {
      assert s[0] == '\n' && s[1..] == b;
    } else {
      LinesAppend(a[1..], b);
      assert s[0] == a[0] && s[1..] == a[1..] + "\n" + b;
      LinesCons(a, Lines(b));
      LinesCons(s, []);
    }
  }

  /** How the first character joins the first line. */
  lemma LinesCons(a: string, more: seq<string>)
    requires a != ""
    ensures Lines(a) + more ==
            if a[0] == '\n' then [""] + (Lines(a[1..]) + more)
            else [[a[0]] + (Lines(a[1..]) + more)[0]] + (Lines(a[1..]) + more)[1..]
  {
  }

  lemma {:induction false} LinesOfLine(a: string)
    requires NewlineFree(a)
    ensures Lines(a) == [a]
  {
    if a != "" {
      assert NewlineFree(a[1..]);
      LinesOfLine(a[1..]);
      assert a == [a[0]] + a[1..];
    }
  }

  /** `strings.TrimSuffix(p, "/")`. */
  function Bare(p: string): string {
    if p != "" && p[|p| - 1] == '/' then p[..|p| - 1] else p
  }

  /** A line that already ignores the pattern. */
  predicate Covers(line: string, p: string) {
    Trim(line) == p || Trim(line) == "/" + p || Trim(line) == Bare(p)
  }

  predicate Found(data: string, p: string) {
    exists l :: l in Lines(data) && Covers(l, p)
  }

  /** The pattern is found again once it stands on a line of its own. */
  predicate Findable(p: string) {
    NewlineFree(p) && Trim(p) == p
  }

  const LOCAL_PATTERN := ".amq/launch.local.json"

  const HEADING := "# Agent Message Queue local state"

  /** Relative roots are ignored as directories, absolute ones are not. */
  function RootPattern(root: string): Option<string> {
    if root != "" && root[0] == '/' then None else Some(Bare(root) + "/")
  }

  function Missing(data: string, root: Option<string>): seq<string> {
    (if root.Some? && !Found(data, root.value) then [root.value] else [])
    + (if !Found(data, LOCAL_PATTERN) then [LOCAL_PATTERN] else [])
  }

  /** `setupGitignoreData` on the present contents (empty when there is no file). */
  function Appended(data: string, root: Option<string>): string {
    var missing := Missing(data, root);
    if missing == [] then data
    else data + (if data != "" then "\n" else "") + (HEADING + "\n" + Join(missing, '\n') + "\n")
  }

  lemma FindableIfTight(p: string)
    requires NewlineFree(p) && Trimmed(p)
    ensures Findable(p)
  {
    TrimmedIsTrimSpaceTest(p);
  }

  lemma LocalFindable()
    ensures Findable(LOCAL_PATTERN)
  {
    hide Findable, Trim, TrimLeft, TrimRight;
    assert LOCAL_PATTERN[0] == '.' && LOCAL_PATTERN[21] == 'n' && |LOCAL_PATTERN| == 22;
    assert NewlineFree(LOCAL_PATTERN);
    FindableIfTight(LOCAL_PATTERN);
  }

  /** What is found stays found when lines are added after it. */
  lemma FoundStays(data: string, more: string, p: string)
    ensures Found(data + "\n" + more, p) <==> Found(data, p) || Found(more, p)
  {
    LinesAppend(data, more);
    var all := Lines(data + "\n" + more);
    if Found(data, p) {
      var l :| l in Lines(data) && Covers(l, p);
      assert l in all;
    }
    if Found(more, p) {
      var l :| l in Lines(more) && Covers(l, p);
      assert l in all;
    }
  }

  /** Each of the one or two missing patterns stands on its own line. */
  lemma FoundInTail(heading: string, missing: seq<string>, p: string)
    requires |missing| == 1 || |missing| == 2
    requires NewlineFree(heading)
    ensures Found(heading + "\n" + Join(missing, '\n') + "\n", p) <==>
            Covers(heading, p) || Covers("", p) || exists q :: q in missing && Found(q, p)
  {
    hide Covers, Found, Lines;
    var body := Join(missing, '\n');
    assert heading + "\n" + body + "\n" == heading + "\n" + (body + "\n" + "");
    FoundStays(heading, body + "\n" + "", p);
    FoundStays(body, "", p);
    FoundOneLine(heading, p);
    FoundOneLine("", p);
    if |missing| == 1 {
      assert missing == [missing[0]] && body == missing[0];
    } else {
      assert missing == [missing[0], missing[1]];
      assert missing[1..] == [missing[1]];
      assert body == missing[0] + "\n" + missing[1];
      FoundStays(missing[0], missing[1], p);
    }
  }

  lemma FoundOneLine(line: string, p: string)
    requires NewlineFree(line)
    ensures Found(line, p) <==> Covers(line, p)
  {
    hide Covers;
    LinesOfLine(line);
    assert line in [line];
  }

  /** What is found after the patterns were appended. */
  lemma FoundAfter(data: string, root: Option<string>, p: string)
    requires Missing(data, root) != []
    ensures Found(Appended(data, root), p) <==>
            || Found(data, p) || Covers(HEADING, p) || Covers("", p)
            || exists q :: q in Missing(data, root) && Found(q, p)
  {
    hide Covers, Found, Lines, Join;
    var missing := Missing(data, root);
    var tail := HEADING + "\n" + Join(missing, '\n') + "\n";
    assert NewlineFree(HEADING);
    FoundInTail(HEADING, missing, p);
    if data == "" {
      FoundOneLine("", p);
      assert data + "" + tail == tail;
    } else {
      FoundStays(data, tail, p);
    }
  }

  lemma TrimStarts(s: string)
    ensures Trim(s) != "" ==> !IsSpace(Trim(s)[0])
    ensures |Trim(s)| <= |s| && (NewlineFree(s) ==> NewlineFree(Trim(s)))
    ensures s != "" && !IsSpace(s[0]) ==> Trim(s) != "" && Trim(s)[0] == s[0]
  {
    hide IsSpace, TrimLeft, TrimRight;
    var l := TrimLeft(s);
    var r := TrimRight(l);
    assert forall c :: c in r ==> c in l;
    assert forall c :: c in l ==> c in s;
    if s != "" && !IsSpace(s[0]) {
      assert l == s;
      assert r != "";
    }
  }

  /** No line covers a pattern with a newline in it. */
  lemma UncoveredByNewline(line: string, rp: string)
    requires NewlineFree(line) && rp != "" && rp[|rp| - 1] == '/' && !NewlineFree(rp)
    ensures !Covers(line, rp)
  {
    TrimStarts(line);
    hide Trim;
    var i :| 0 <= i < |rp| && rp[i] == '\n';
    assert i < |rp| - 1;
    assert ("/" + rp)[i + 1] == '\n' && Bare(rp)[i] == '\n';
  }

  /** A pattern that starts with white space is covered only by a line that spells it after a slash. */
  lemma CoveredAfterSlash(line: string, rp: string)
    requires |rp| > 1 && rp[|rp| - 1] == '/' && IsSpace(rp[0])
    ensures Covers(line, rp) ==> Trim(line) == "/" + rp
  {
    TrimStarts(line);
    hide Trim, IsSpace;
    assert Bare(rp)[0] == rp[0];
  }

  lemma UnfindableStart(rp: string)
    requires rp != "" && rp[|rp| - 1] == '/' && !Findable(rp) && NewlineFree(rp)
    ensures IsSpace(rp[0]) && |rp| > 1
  {
    if Trimmed(rp) { FindableIfTight(rp); }
  }

  /** None of the appended lines covers a pattern that is not findable. */
  lemma NotFoundAgain(line: string, rp: string)
    requires NewlineFree(line) && rp != "" && rp[|rp| - 1] == '/' && !Findable(rp)
    requires line == "" || (!IsSpace(line[0]) && line[0] != '/') || line == rp
    ensures !Covers(line, rp)
  {
    hide Findable, IsSpace, Trim;
    TrimStarts(line);
    if NewlineFree(rp) {
      UnfindableStart(rp);
      CoveredAfterSlash(line, rp);
      assert ("/" + rp)[0] == '/' && |"/" + rp| == |rp| + 1;
    } else {
      UncoveredByNewline(line, rp);
    }
  }

  lemma NotFoundIn(q: string, rp: string)
    requires rp != "" && rp[|rp| - 1] == '/' && !Findable(rp)
    requires q == rp || q == LOCAL_PATTERN
    ensures !Found(q, rp)
  {
    hide Findable, Covers;
    if q == LOCAL_PATTERN {
      assert NewlineFree(q) by { LocalIsLine(); }
      FoundOneLine(q, rp);
      assert LOCAL_PATTERN[0] == '.';
      NotFoundAgain(q, rp);
    } else if NewlineFree(rp) {
      FoundOneLine(rp, rp);
      NotFoundAgain(rp, rp);
    } else if Found(q, rp) {
      var l :| l in Lines(q) && Covers(l, rp);
      LinesAreLines(q, l);
      UncoveredByNewline(l, rp);
    }
  }

  lemma LocalIsLine()
    ensures NewlineFree(LOCAL_PATTERN)
  {
  }

  lemma HeadingCovers(rp: string)
    requires rp != "" && rp[|rp| - 1] == '/' && !Findable(rp)
    ensures !Covers(HEADING, rp) && !Covers("", rp)
  {
    hide Findable, Covers;
    assert HEADING[0] == '#' && NewlineFree(HEADING);
    NotFoundAgain(HEADING, rp);
    NotFoundAgain("", rp);
  }

  /** Appending ends the search for a pattern exactly when it had been found before or can be found at all. */
  lemma RootFoundAfter(data: string, rp: string)
    requires rp != "" && rp[|rp| - 1] == '/' && !Found(data, rp)
    ensures Found(Appended(data, Some(rp)), rp) <==> Findable(rp)
  {
    hide Covers, Found, Lines, Appended, Trim;
    assert rp in Missing(data, Some(rp));
    FoundAfter(data, Some(rp), rp);
    if Findable(rp) {
      CoversItself(rp);
      FoundOneLine(rp, rp);
    } else {
      HeadingCovers(rp);
      forall q | q in Missing(data, Some(rp)) ensures !Found(q, rp) { NotFoundIn(q, rp); }
    }
  }

  lemma LocalFoundAfter(data: string, root: Option<string>)
    ensures Found(Appended(data, root), LOCAL_PATTERN)
  {
    hide Covers;
    if Missing(data, root) != [] {
      FoundAfter(data, root, LOCAL_PATTERN);
      if !Found(data, LOCAL_PATTERN) {
        assert LOCAL_PATTERN in Missing(data, root);
        LocalFindable();
        assert Covers(LOCAL_PATTERN, LOCAL_PATTERN) by { CoversItself(LOCAL_PATTERN); }
        FoundOneLine(LOCAL_PATTERN, LOCAL_PATTERN);
      }
    }
  }

  lemma CoversItself(p: string)
    requires Findable(p)
    ensures Covers(p, p)
  {
  }

  /** Nothing is missing exactly when nothing is changed. */
  lemma UnchangedIffNoneMissing(data: string, root: Option<string>)
    ensures Appended(data, root) == data <==> Missing(data, root) == []
  {
    hide Missing, Join;
    if Missing(data, root) != [] {
      assert |HEADING| > 0;
      assert |Appended(data, root)| > |data|;
    }
  }

  /**
   Running setup again leaves .gitignore alone if and only if the root pattern was there before, or is one
   line without leading white space, or the root is absolute.
   */
  lemma SecondTimeUnchanged(data: string, root: string)
    ensures var rp := RootPattern(root);
            Appended(Appended(data, rp), rp) == Appended(data, rp) <==>
            rp.None? || Found(data, rp.value) || Findable(rp.value)
  {
    var rp := RootPattern(root);
    var after := Appended(data, rp);
    hide Found, Findable;
    UnchangedIffNoneMissing(after, rp);
    UnchangedIffNoneMissing(data, rp);
    LocalFoundAfter(data, rp);
    if rp.Some? {
      if !Found(data, rp.value) {
        RootFoundAfter(data, rp.value);
      } else if Missing(data, rp) != [] {
        FoundAfter(data, rp, rp.value);
      }
    }
  }

  /** In terms of the root itself. */
  lemma RootIsFindable(root: string)
    requires RootPattern(root).Some?
    ensures Findable(RootPattern(root).value) <==> NewlineFree(root) && (root == "" || !IsSpace(root[0]))
  {
    hide Trim, IsSpace, NewlineFree;
    var rp := RootPattern(root).value;
    PatternOf(root);
    TrimStarts(rp);
    if NewlineFree(root) && (root == "" || !IsSpace(root[0])) {
      assert !IsSpace('/') && !IsSpace(rp[0]) by { SlashIsNoSpace(); }
      FindableIfTight(rp);
    }
  }

  /** The pattern of a relative root starts as the root does and has its lines. */
  lemma PatternOf(root: string)
    requires RootPattern(root).Some?
    ensures var rp := RootPattern(root).value;
            && rp != "" && rp[|rp| - 1] == '/' && (NewlineFree(rp) <==> NewlineFree(root))
            && (if root == "" then rp[0] == '/' else rp[0] == root[0])
  {
    var rp, bare := RootPattern(root).value, Bare(root);
    assert rp == bare + "/" && root == bare + root[|bare|..];
    assert NewlineFree(root[|bare|..]);
  }

  lemma SlashIsNoSpace()
    ensures !IsSpace('/')
  {
  }

  /** There is always something to ignore. */
  lemma AppendedNonEmpty(data: string, root: Option<string>)
    ensures Appended(data, root) != ""
  {
    if data == "" {
      FoundOneLine("", LOCAL_PATTERN);
      assert Trim("") == "" && |LOCAL_PATTERN| == 22 && |"/" + LOCAL_PATTERN| == 23;
      assert LOCAL_PATTERN[21] == 'n';
      hide Join;
      assert |HEADING| > 0;
      assert Missing(data, root) != [];
    }
  }
}
