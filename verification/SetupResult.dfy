/**
 What `amq setup` is for: the disk a complete run leaves, stated in terms of its inputs and
 of what was there before, when it refuses, and when it says that mailboxes are missing.
 */
module SetupResult {
  import opened Text
  import opened Roster
  import opened SetupGitignore
  import opened Setup

  /** A mailbox of the agent at the base root and one in the session. */
  predicate HasBoxes(boxes: set<(string, string)>, session: string, handle: string) {
    ("", handle) in boxes && (session, handle) in boxes
  }

  /** The agents asked for, each as launch.json already had it or else as it was probed; or those already there. */
  ghost predicate AgentsAsked(inp: Inputs, existing: Option<Project>, agents: seq<Agent>) {
    match inp.agents
    case None => existing.Some? && agents == existing.value.agents
    case Some(names) =>
      && |agents| == |names|
      && forall i :: 0 <= i < |names| ==>
           && agents[i].handle == names[i]
           && (Known(existing, names[i]) ==> agents[i] in existing.value.agents)
           && (!Known(existing, names[i]) ==> agents[i] == inp.probe(names[i]).(handle := names[i]))
  }

  ghost predicate Known(existing: Option<Project>, handle: string) {
    existing.Some? && exists a :: a in existing.value.agents && a.handle == handle
  }

  lemma {:induction false} ByHandleFinds(agents: seq<Agent>, h: string)
    ensures ByHandle(agents, h).Some? <==> exists a :: a in agents && a.handle == h
    ensures ByHandle(agents, h).Some? ==> ByHandle(agents, h).value in agents && ByHandle(agents, h).value.handle == h
  {
    if agents != [] {
      var k := |agents| - 1;
      ByHandleFinds(agents[..k], h);
      assert agents == agents[..k] + [agents[k]];
      assert forall a :: a in agents <==> a in agents[..k] || a == agents[k];
    }
  }

  lemma AgentsAreAsked(inp: Inputs, existing: Option<Project>, pr: Project)
    requires ProjectOf(inp, existing) == Some(pr)
    ensures pr.session == inp.session && pr.layout == inp.layout && AgentsAsked(inp, existing, pr.agents)
  {
    if inp.agents.Some? {
      var names, given := inp.agents.value, if existing.Some? then existing.value.agents else [];
      forall i | 0 <= i < |names|
        ensures Known(existing, names[i]) ==> pr.agents[i] in given
        ensures !Known(existing, names[i]) ==> pr.agents[i] == inp.probe(names[i]).(handle := names[i])
      {
        ByHandleFinds(given, names[i]);
        assert pr.agents[i] == Picked(names[i], inp.probe, given);
      }
    }
  }

  lemma LocalTextMeans(c: Codec, d: Disk, launchers: seq<string>)
    requires RoundTrips(c) && (d.local.Some? ==> c.localOf(d.local.value).Some?)
    ensures c.localOf(LocalText(c, d, launchers)) == Some(launchers)
  {
    assert c.localOf(c.localText(launchers)) == Some(launchers);
    if d.local.Some? {
      var given := c.localOf(d.local.value).value;
      assert c.localOf(c.localText(given)) == Some(given);
    }
  }

  /** The mailboxes on a finished disk: one at the base and one in the session for every handle. */
  lemma BoxesLeft(session: string, handles: seq<string>, boxes: set<(string, string)>, h: string)
    requires Wanted(session, handles) <= boxes && h in handles
    ensures HasBoxes(boxes, session, h)
  {
    assert ("", h) in Wanted(session, handles) && (session, h) in Wanted(session, handles);
  }

  lemma BoxesMissing(session: string, handles: seq<string>, boxes: set<(string, string)>)
    ensures !(Wanted(session, handles) <= boxes) <==> exists h :: h in handles && !HasBoxes(boxes, session, h)
  {
    if !(Wanted(session, handles) <= boxes) {
      var x :| x in Wanted(session, handles) && x !in boxes;
      assert x.1 in handles && !HasBoxes(boxes, session, x.1);
    }
    if h :| h in handles && !HasBoxes(boxes, session, h) {
      if Wanted(session, handles) <= boxes { BoxesLeft(session, handles, boxes, h); }
    }
  }

  /** What .gitignore says after setup: what it said before, and what it needs to. */
  ghost predicate Ignored(inp: Inputs, root: string, before: Option<string>, after: Option<string>) {
    if inp.noGitignore then after == before
    else
      var data := if before.Some? then before.value else "";
      && after.Some? && data <= after.value && Found(after.value, LOCAL_PATTERN)
      && (Relative(root) && Findable(Directory(root)) ==> Found(after.value, Directory(root)))
      && (Found(data, LOCAL_PATTERN) && (Relative(root) ==> Found(data, Directory(root))) ==> after.value == data)
  }

  /** The root with a slash at its end. */
  function Directory(root: string): string {
    if root != "" && root[|root| - 1] == '/' then root else root + "/"
  }

  /** A pattern is found when a line, but for white space around it, is the pattern, or that after a slash. */
  lemma FoundMeans(data: string, p: string)
    requires p != ""
    ensures Found(data, p) <==>
            exists l :: l in Lines(data) && (Trim(l) == p || Trim(l) == "/" + p
                                             || (p[|p| - 1] == '/' && Trim(l) == p[..|p| - 1]))
  {
    hide Lines, Trim;
    forall l ensures Covers(l, p) <==>
        Trim(l) == p || Trim(l) == "/" + p || (p[|p| - 1] == '/' && Trim(l) == p[..|p| - 1]) { }
  }

  predicate Relative(root: string) {
    root == "" || root[0] != '/'
  }

  lemma PatternOfRelative(root: string)
    ensures RootPattern(root) == if Relative(root) then Some(Directory(root)) else None
  {
    if root != "" && root[|root| - 1] == '/' { assert root == root[..|root| - 1] + "/"; }
  }

  lemma GitignoreLeft(inp: Inputs, root: string, d: Disk)
    ensures Ignored(inp, root, d.gitignore, if inp.noGitignore then d.gitignore else GitignoreText(inp, root, d))
  {
    hide Appended, Found, Findable, RootPattern;
    var data := if d.gitignore.Some? then d.gitignore.value else "";
    LocalFoundAfter(data, RootPattern(root));
    AppendedExtends(data, RootPattern(root));
    PatternOfRelative(root);
    if RootPattern(root).Some? && Findable(RootPattern(root).value) { RootFoundThen(data, root); }
    if Found(data, LOCAL_PATTERN) && (RootPattern(root).Some? ==> Found(data, RootPattern(root).value)) {
      UnchangedIffNoneMissing(data, RootPattern(root));
    }
  }

  /** launch.json and the roster say what was asked, and every agent has its mailboxes. */
  ghost predicate Launches(c: Codec, inp: Inputs, d: Disk, now: string, e: Disk, pr: Project, ro: Setup.Config) {
    && pr.session == inp.session && pr.layout == inp.layout && AgentsAsked(inp, Parsed(c, d), pr.agents)
    && ro.agents == Handles(pr.agents)
    && ro.created == (if Current(c, d).Some? then Current(c, d).value.created else now)
    && (forall a :: a in pr.agents ==> HasBoxes(e.boxes, inp.session, a.handle))
    && (forall x :: x in e.boxes <==> x in d.boxes || (Lacking(d.boxes, inp.session, pr.agents)
                                                       && IsMadeFor(inp.session, pr.agents, x)))
  }

  /** Some agent is without one of its two mailboxes. */
  ghost predicate Lacking(boxes: set<(string, string)>, session: string, agents: seq<Agent>) {
    exists a :: a in agents && !HasBoxes(boxes, session, a.handle)
  }

  /** The mailboxes setup makes: at the base and in the session, for the agents and for the user. */
  ghost predicate IsMadeFor(session: string, agents: seq<Agent>, x: (string, string)) {
    (x.0 == "" || x.0 == session) && (x.1 == "user" || exists a :: a in agents && a.handle == x.1)
  }

  /** The disk after a complete run, in terms of the inputs and of what was there before. */
  ghost predicate Leaves(c: Codec, inp: Inputs, d: Disk, now: string, root: string, e: Disk) {
    && e.project.Some? && e.roster.Some? && e.local.Some? && e.rc.Some?
    && c.projectOf(e.project.value).Some? && c.rosterOf(e.roster.value).Some?
    && Launches(c, inp, d, now, e, c.projectOf(e.project.value).value, c.rosterOf(e.roster.value).value)
    && (Parsed(c, d) == c.projectOf(e.project.value) ==> e.project == d.project)
    && c.localOf(e.local.value) == Some(inp.launchers)
    && (d.local.Some? && c.localOf(d.local.value) == Some(inp.launchers) ==> e.local == d.local)
    && c.rcRoot(e.rc.value) == Some(root) && (d.rc.Some? ==> e.rc == d.rc) && (d.rc.None? ==> root == Trim(inp.root))
    && Ignored(inp, root, d.gitignore, e.gitignore)
  }

  lemma AppendedExtends(data: string, root: Option<string>)
    ensures data <= Appended(data, root)
  {
    hide Missing, Join;
  }

  /** A relative root whose pattern can be found is found after setup. */
  lemma RootFoundThen(data: string, root: string)
    requires RootPattern(root).Some? && Findable(RootPattern(root).value)
    ensures Found(Appended(data, RootPattern(root)), RootPattern(root).value)
  {
    hide Found, Findable, Appended, Missing;
    var rp := RootPattern(root).value;
    assert rp != "" && rp[|rp| - 1] == '/';
    if Found(data, rp) {
      UnchangedIffNoneMissing(data, Some(rp));
      if Missing(data, Some(rp)) != [] { FoundAfter(data, Some(rp), rp); }
    } else {
      RootFoundAfter(data, rp);
    }
  }

  lemma RosterLeft(c: Codec, created: string, handles: seq<string>, text: string)
    requires RoundTrips(c) && text == c.rosterText(Setup.Config(created, handles))
    ensures c.rosterOf(text) == Some(Setup.Config(created, handles))
  {
  }

  lemma HandleBoxes(boxes: set<(string, string)>, session: string, agents: seq<Agent>)
    ensures Wanted(session, Handles(agents)) <= boxes <==>
            forall a :: a in agents ==> HasBoxes(boxes, session, a.handle)
  {
    hide Wanted, HasBoxes;
    var hs := Handles(agents);
    BoxesMissing(session, hs, boxes);
    if Wanted(session, hs) <= boxes {
      forall a | a in agents ensures HasBoxes(boxes, session, a.handle) {
        var i :| 0 <= i < |agents| && agents[i] == a;
        assert hs[i] in hs;
      }
    } else {
      var h :| h in hs && !HasBoxes(boxes, session, h);
      var i :| 0 <= i < |hs| && hs[i] == h;
      assert agents[i] in agents;
    }
  }

  lemma PlanLaunches(c: Codec, inp: Inputs, d: Disk, now: string, created: string, pr: Project, p: Plan)
    requires IsPlan(c, inp, d, created, pr, p) && (Current(c, d).None? ==> created == now)
    ensures Launches(c, inp, d, now, Goal(p, d), pr, Setup.Config(created, p.handles))
  {
    hide Wanted, ProjectOf, AgentsAsked, GitignoreText, ProjectText, LocalText, SortedUnion, Preview, Agrees, HasBoxes,
         Readable, RootOf, Handles, Humans;
    AgentsAreAsked(inp, Parsed(c, d), pr);
    assert p.wanted <= Goal(p, d).boxes;
    HandleBoxes(Goal(p, d).boxes, inp.session, pr.agents);
    HandleBoxes(d.boxes, inp.session, pr.agents);
    assert p.provision <==> Lacking(d.boxes, inp.session, pr.agents);
    forall x ensures x in p.wanted + p.humans <==> IsMadeFor(inp.session, pr.agents, x) {
      MadeExactly(inp.session, pr.agents, x);
    }
    hide IsMadeFor, Lacking;
  }

  lemma MadeExactly(session: string, agents: seq<Agent>, x: (string, string))
    ensures x in Wanted(session, Handles(agents)) + Humans(session) <==> IsMadeFor(session, agents, x)
  {
    var hs := Handles(agents);
    if x.1 in hs {
      var i :| 0 <= i < |hs| && hs[i] == x.1;
      assert agents[i] in agents && agents[i].handle == x.1;
    }
    if a :| a in agents && a.handle == x.1 {
      var i :| 0 <= i < |agents| && agents[i] == a;
      assert hs[i] in hs;
    }
    assert x == (x.0, x.1);
  }

  lemma RootLeft(c: Codec, inp: Inputs, d: Disk, root: string)
    requires RoundTrips(c) && RootOf(c, inp, d.rc) == Some(root)
    ensures c.rcRoot(if d.rc.Some? then d.rc.value else c.rcText(root)) == Some(root)
    ensures d.rc.None? ==> root == Trim(inp.root)
  {
    assert c.rcRoot(c.rcText(root)) == Some(root);
    hide Trim;
  }

  lemma PlanLeaves(c: Codec, inp: Inputs, d: Disk, now: string, created: string, pr: Project, p: Plan)
    requires RoundTrips(c) && IsPlan(c, inp, d, created, pr, p) && (Current(c, d).None? ==> created == now)
    ensures Leaves(c, inp, d, now, p.root, Goal(p, d))
  {
    PlanLaunches(c, inp, d, now, created, pr, p);
    hide RoundTrips, ProjectOf, GitignoreText, ProjectText, LocalText, SortedUnion, Preview, Launches, Ignored, RootOf,
         Wanted, Humans, Handles, Mailboxes;
    ProjectTextMeans(c, d, pr);
    LocalTextMeans(c, d, inp.launchers);
    FilesAreKept(c, d, pr, inp.launchers);
    GitignoreLeft(inp, p.root, d);
    RosterLeft(c, created, p.handles, p.final);
    RootLeft(c, inp, d, p.root);
    assert p.gitignore.None? <==> inp.noGitignore by { NoneIgnored(inp, p.root, d); }
  }

  /** A file that already says so keeps its bytes. */
  lemma FilesAreKept(c: Codec, d: Disk, pr: Project, launchers: seq<string>)
    ensures Parsed(c, d) == Some(pr) ==> Some(ProjectText(c, d, pr)) == d.project
    ensures d.local.Some? && c.localOf(d.local.value) == Some(launchers) ==>
              Some(LocalText(c, d, launchers)) == d.local
  {
  }

  lemma NoneIgnored(inp: Inputs, root: string, d: Disk)
    ensures GitignoreText(inp, root, d).None? <==> inp.noGitignore
  {
    hide Appended;
  }

  /** A complete setup leaves what it was asked for. */
  lemma SetupLeaves(c: Codec, inp: Inputs, d: Disk, now: string)
    requires RoundTrips(c) && Build(c, inp, d, now).Some?
    ensures var p := Build(c, inp, d, now).value; Leaves(c, inp, d, now, p.root, After(p, d, 7))
  {
    hide Build, Leaves, RoundTrips, After, Goal, ProjectOf, Parsed;
    BuildIsPlan(c, inp, d, now);
    var p := Build(c, inp, d, now).value;
    var created := if Current(c, d).Some? then Current(c, d).value.created else now;
    PlanLeaves(c, inp, d, now, created, ProjectOf(inp, Parsed(c, d)).value, p);
    AfterAll(p, d);
  }

  /** Setup refuses exactly when a file cannot be read, the root is missing or contradicted, or no agents are known. */
  lemma BuildExactly(c: Codec, inp: Inputs, d: Disk, now: string)
    ensures Build(c, inp, d, now).Some? <==>
            && (d.project.Some? ==> c.projectOf(d.project.value).Some?)
            && (d.local.Some? ==> c.localOf(d.local.value).Some?)
            && (d.roster.Some? ==> c.rosterOf(d.roster.value).Some?)
            && (d.rc.None? ==> Trim(inp.root) != "")
            && (d.rc.Some? ==> c.rcRoot(d.rc.value).Some?
                               && (inp.rootExplicit ==> Some(inp.root) == c.rcRoot(d.rc.value)))
            && (inp.agents.Some? || d.project.Some?)
  {
    hide Preview, Wanted, ProjectText, LocalText, GitignoreText, SortedUnion, Trim, Choose, Handles;
  }

  /** The preview speaks of mailboxes exactly when some agent of the launch.json to come lacks one of its two. */
  lemma ProvisionExactly(c: Codec, inp: Inputs, d: Disk, now: string)
    requires RoundTrips(c) && Build(c, inp, d, now).Some?
    ensures var p := Build(c, inp, d, now).value;
            && c.projectOf(p.project).Some?
            && (Provision in p.changes <==>
                  exists a :: a in c.projectOf(p.project).value.agents && !HasBoxes(d.boxes, inp.session, a.handle))
  {
    hide Build, Wanted, ProjectOf, GitignoreText, ProjectText, LocalText, SortedUnion, Preview, Agrees, HasBoxes,
         RootOf, Readable, RoundTrips, Handles;
    BuildIsPlan(c, inp, d, now);
    var p, pr := Build(c, inp, d, now).value, ProjectOf(inp, Parsed(c, d)).value;
    assert d.project.Some? ==> Parsed(c, d).Some? by { ReadableParses(c, d); }
    ProjectTextMeans(c, d, pr);
    HandleBoxes(d.boxes, inp.session, pr.agents);
    PreviewsProvision(p, d);
  }

  lemma ReadableParses(c: Codec, d: Disk)
    requires Readable(c, d)
    ensures d.project.Some? ==> Parsed(c, d).Some?
  {
  }

  lemma PreviewsProvision(p: Plan, d: Disk)
    ensures Provision in Preview(p, d) <==> p.provision
  {
  }
}
