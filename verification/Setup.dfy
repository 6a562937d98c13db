/**
 `amq setup`: the plan it previews and the seven writes that commit it, each atomic,
 with a stop possible between any two.  The roster goes through a union first, so
 that at no point launch.json names an agent the queue does not know.

 JSON encoding is an arbitrary codec; the laws need only that it reads back what it
 wrote.
 */
module Setup {
  import opened Text
  import opened Roster
  import opened SetupGitignore

  datatype Agent = Agent(handle: string, spec: string)

  datatype Project = Project(session: string, agents: seq<Agent>, layout: string)

  datatype Config = Config(created: string, agents: seq<string>)

  datatype Codec = Codec(
    projectText: Project -> string, projectOf: string -> Option<Project>,
    localText: seq<string> -> string, localOf: string -> Option<seq<string>>,
    rosterText: Config -> string, rosterOf: string -> Option<Config>,
    rcText: string -> string, rcRoot: string -> Option<string>)

  ghost predicate RoundTrips(c: Codec) {
    && (forall x :: c.projectOf(c.projectText(x)) == Some(x))
    && (forall x :: c.localOf(c.localText(x)) == Some(x))
    && (forall x :: c.rosterOf(c.rosterText(x)) == Some(x))
    && (forall x :: c.rcRoot(c.rcText(x)) == Some(x))
  }

  /** A non-interactive setup; without agents it keeps those of the existing launch.json. */
  datatype Inputs = Inputs(
    root: string, rootExplicit: bool,
    agents: Option<seq<string>>, probe: string -> Agent,
    session: string, layout: string, launchers: seq<string>, noGitignore: bool)

  /** What setup reads and writes; `boxes` are the mailboxes present, as (session, handle). */
  datatype Disk = Disk(
    boxes: set<(string, string)>,
    roster: Option<string>,
    project: Option<string>,
    local: Option<string>,
    gitignore: Option<string>,
    rc: Option<string>)

  datatype Step = Provision | RosterCompatible | ProjectConfig | RosterFinal | LocalConfig | Gitignore | AmqRc

  datatype Plan = Plan(
    root: string,
    handles: seq<string>,
    wanted: set<(string, string)>,
    humans: set<(string, string)>,
    provision: bool,
    union: string,
    final: string,
    project: string,
    local: string,
    gitignore: Option<string>,   // nothing with --no-gitignore
    rc: string,
    changes: seq<Step>)          // the preview

  // ---- building the plan ----

  /** `setupRoot`: an existing .amqrc decides, and contradicts a different explicit root. */
  function RootOf(c: Codec, inp: Inputs, rc: Option<string>): Option<string> {
    if rc.Some? then
      if c.rcRoot(rc.value).None? || (inp.rootExplicit && inp.root != c.rcRoot(rc.value).value) then None
      else c.rcRoot(rc.value)
    else if Trim(inp.root) == "" then None
    else Some(Trim(inp.root))
  }

  function ByHandle(agents: seq<Agent>, h: string): Option<Agent> {
    if agents == [] then None
    else if agents[|agents| - 1].handle == h then Some(agents[|agents| - 1])
    else ByHandle(agents[..|agents| - 1], h)
  }

  /** `chooseSetupAgents`: what launch.json says about an agent is kept. */
  function Choose(names: seq<string>, probe: string -> Agent, given: seq<Agent>): (r: seq<Agent>)
    ensures |r| == |names|
    ensures forall i :: 0 <= i < |names| ==> r[i].handle == names[i]
  {
    seq(|names|, i requires 0 <= i < |names| => Picked(names[i], probe, given))
  }

  function Picked(name: string, probe: string -> Agent, given: seq<Agent>): (a: Agent)
    ensures a.handle == name
  {
    if ByHandle(given, name).Some? && ByHandle(given, name).value.handle == name then ByHandle(given, name).value
    else probe(name).(handle := name)
  }

  function Handles(agents: seq<Agent>): (r: seq<string>)
    ensures |r| == |agents|
    ensures forall i :: 0 <= i < |r| ==> r[i] == agents[i].handle
  {
    seq(|agents|, i requires 0 <= i < |agents| => agents[i].handle)
  }

  /** Keep the bytes on disk when they mean the same. */
  function Kept(text: string, existing: Option<string>, canonical: string): string {
    if existing.Some? && canonical == text then existing.value else text
  }

  function Wanted(session: string, handles: seq<string>): set<(string, string)> {
    (set h | h in handles :: ("", h)) + (set h | h in handles :: (session, h))
  }

  const HUMAN := "user"

  /** Provisioning also makes mailboxes for the reserved human handle; whether it is needed is judged without them. */
  function Humans(session: string): set<(string, string)> {
    {("", HUMAN), (session, HUMAN)}
  }

  function ProjectOf(inp: Inputs, existing: Option<Project>): Option<Project> {
    if inp.agents.Some? then
      var before := if existing.Some? then existing.value.agents else [];
      Some(Project(inp.session, Choose(inp.agents.value, inp.probe, before), inp.layout))
    else if existing.Some? then Some(Project(inp.session, existing.value.agents, inp.layout))
    else None
  }

  /** Every file that exists can be read. */
  predicate Readable(c: Codec, d: Disk) {
    && (d.project.Some? ==> c.projectOf(d.project.value).Some?)
    && (d.local.Some? ==> c.localOf(d.local.value).Some?)
    && (d.roster.Some? ==> c.rosterOf(d.roster.value).Some?)
  }

  function Parsed(c: Codec, d: Disk): Option<Project> {
    if d.project.Some? then c.projectOf(d.project.value) else None
  }

  function ProjectText(c: Codec, d: Disk, p: Project): string {
    Kept(c.projectText(p), d.project, if Parsed(c, d).Some? then c.projectText(Parsed(c, d).value) else "")
  }

  function LocalText(c: Codec, d: Disk, launchers: seq<string>): string {
    var canonical := if d.local.Some? && c.localOf(d.local.value).Some?
                     then c.localText(c.localOf(d.local.value).value) else "";
    Kept(c.localText(launchers), d.local, canonical)
  }

  function Current(c: Codec, d: Disk): Option<Config> {
    if d.roster.Some? then c.rosterOf(d.roster.value) else None
  }

  function GitignoreText(inp: Inputs, root: string, d: Disk): Option<string> {
    if inp.noGitignore then None
    else Some(Appended(if d.gitignore.Some? then d.gitignore.value else "", RootPattern(root)))
  }

  /** `buildSetupState`. */
  function Build(c: Codec, inp: Inputs, d: Disk, now: string): Option<Plan> {
    var root := RootOf(c, inp, d.rc);
    var project := ProjectOf(inp, Parsed(c, d));
    if !Readable(c, d) || root.None? || project.None? then None
    else
      var handles := Handles(project.value.agents);
      var created := if Current(c, d).Some? then Current(c, d).value.created else now;
      var known := if Current(c, d).Some? then Current(c, d).value.agents else [];
      var wanted := Wanted(inp.session, handles);
      var p := Plan(root.value, handles, wanted, Humans(inp.session), !(wanted <= d.boxes),
                    c.rosterText(Config(created, SortedUnion(known, handles))), c.rosterText(Config(created, handles)),
                    ProjectText(c, d, project.value), LocalText(c, d, inp.launchers),
                    GitignoreText(inp, root.value, d), if d.rc.Some? then d.rc.value else c.rcText(root.value), []);
      Some(p.(changes := Preview(p, d)))
  }

  function If(b: bool, s: Step): seq<Step> {
    if b then [s] else []
  }

  /** The `addChange` list. */
  function Preview(p: Plan, d: Disk): seq<Step> {
    If(p.provision, Provision)
    + If(d.roster != Some(p.union), RosterCompatible)
    + If(d.project != Some(p.project), ProjectConfig)
    + If(p.union != p.final, RosterFinal)
    + If(d.local != Some(p.local), LocalConfig)
    + If(p.gitignore.Some? && p.gitignore.value != (if d.gitignore.Some? then d.gitignore.value else ""), Gitignore)
    + If(d.rc.None?, AmqRc)
  }

  // ---- committing it ----

  const STEPS := 7

  /** The order of the writes. */
  function StepAt(i: nat): Step {
    match i
    case 0 => Provision
    case 1 => RosterCompatible
    case 2 => ProjectConfig
    case 3 => RosterFinal
    case 4 => LocalConfig
    case 5 => Gitignore
    case _ => AmqRc
  }

  /** The mailboxes provisioning ensures, if it takes place. */
  function Mailboxes(p: Plan): set<(string, string)> {
    if p.provision then p.wanted + p.humans else {}
  }

  /** One step of `commitSetup`. */
  function Do(p: Plan, d: Disk, s: Step): Disk {
    match s
    case Provision => d.(boxes := d.boxes + Mailboxes(p))
    case RosterCompatible => d.(roster := Some(p.union))
    case ProjectConfig => d.(project := Some(p.project))
    case RosterFinal => d.(roster := Some(p.final))
    case LocalConfig => d.(local := Some(p.local))
    case Gitignore => if p.gitignore.Some? && p.gitignore.value != "" then d.(gitignore := p.gitignore) else d
    case AmqRc => d.(rc := Some(p.rc))
  }

  /** Whether the step reports a write. */
  predicate Reports(p: Plan, d: Disk, s: Step) {
    if s.Provision? then p.provision else Do(p, d, s) != d
  }

  /** The disk after the first `k` steps. */
  function After(p: Plan, d: Disk, k: nat): Disk
    requires k <= STEPS
  {
    if k == 0 then d else Do(p, After(p, d, k - 1), StepAt(k - 1))
  }

  /** The steps reported by then. */
  function Reported(p: Plan, d: Disk, k: nat): seq<Step>
    requires k <= STEPS
  {
    if k == 0 then []
    else Reported(p, d, k - 1) + If(Reports(p, After(p, d, k - 1), StepAt(k - 1)), StepAt(k - 1))
  }

  lemma AfterEach(p: Plan, d: Disk)
    ensures && After(p, d, 0) == d
            && After(p, d, 1) == Do(p, d, Provision)
            && After(p, d, 2) == After(p, d, 1).(roster := Some(p.union))
            && After(p, d, 3) == After(p, d, 2).(project := Some(p.project))
            && After(p, d, 4) == After(p, d, 3).(roster := Some(p.final))
            && After(p, d, 5) == After(p, d, 4).(local := Some(p.local))
            && After(p, d, 6) == Do(p, After(p, d, 5), Gitignore)
            && After(p, d, 7) == After(p, d, 6).(rc := Some(p.rc))
  {
    assert After(p, d, 3) == Do(p, After(p, d, 2), ProjectConfig);
    assert After(p, d, 5) == Do(p, After(p, d, 4), LocalConfig);
  }

  /** What the preview relies on. */
  predicate Agrees(p: Plan, d: Disk) {
    && (d.rc.Some? ==> p.rc == d.rc.value)
    && (p.gitignore.Some? ==> p.gitignore.value != "")
  }

  lemma ReportsEach(p: Plan, d: Disk)
    requires Agrees(p, d)
    ensures && (Reports(p, After(p, d, 0), Provision) <==> p.provision)
            && (Reports(p, After(p, d, 1), RosterCompatible) <==> d.roster != Some(p.union))
            && (Reports(p, After(p, d, 2), ProjectConfig) <==> d.project != Some(p.project))
            && (Reports(p, After(p, d, 3), RosterFinal) <==> p.union != p.final)
            && (Reports(p, After(p, d, 4), LocalConfig) <==> d.local != Some(p.local))
            && (Reports(p, After(p, d, 5), Gitignore) <==> p.gitignore.Some? && d.gitignore != p.gitignore)
            && (Reports(p, After(p, d, 6), AmqRc) <==> d.rc.None?)
  {
    AfterEach(p, d);
    hide After;
  }

  lemma ReportedNext(p: Plan, d: Disk, k: nat, s: Step)
    requires k < STEPS && StepAt(k) == s
    ensures Reported(p, d, k + 1) == Reported(p, d, k) + If(Reports(p, After(p, d, k), s), s)
  {
  }

  lemma CommitReports(p: Plan, d: Disk)
    requires Agrees(p, d)
    ensures Reported(p, d, 7) == Preview(p, d)
  {
    hide After, Do, Reports, If, Reported;
    ReportsEach(p, d);
    ReportedNone(p, d);
    ReportedNext(p, d, 0, Provision);
    ReportedNext(p, d, 1, RosterCompatible);
    ReportedNext(p, d, 2, ProjectConfig);
    ReportedNext(p, d, 3, RosterFinal);
    ReportedNext(p, d, 4, LocalConfig);
    ReportedNext(p, d, 5, Gitignore);
    ReportedNext(p, d, 6, AmqRc);
    assert [] + If(p.provision, Provision) == If(p.provision, Provision);
  }

  lemma ReportedNone(p: Plan, d: Disk)
    ensures Reported(p, d, 0) == []
  {
  }

  lemma BuildAgrees(c: Codec, inp: Inputs, d: Disk, now: string)
    requires Build(c, inp, d, now).Some?
    ensures var p := Build(c, inp, d, now).value; Agrees(p, d) && p.changes == Preview(p, d)
  {
    hide Appended, RootPattern, SortedUnion, ProjectText, LocalText, ProjectOf, Wanted, Trim, Current, Handles;
    AppendedNonEmpty(if d.gitignore.Some? then d.gitignore.value else "",
                     RootPattern(Build(c, inp, d, now).value.root));
  }

  /** Without interference the steps reported are the changes previewed, one to one and in order. */
  lemma PreviewMatchesCommit(c: Codec, inp: Inputs, d: Disk, now: string)
    requires Build(c, inp, d, now).Some?
    ensures var p := Build(c, inp, d, now).value; Reported(p, d, 7) == p.changes
  {
    hide Reported, Preview;
    BuildAgrees(c, inp, d, now);
    CommitReports(Build(c, inp, d, now).value, d);
  }

  // ---- the roster covers launch.json ----

  /** Every agent of the launch.json on disk is in the roster on disk. */
  predicate Covered(c: Codec, d: Disk) {
    Parsed(c, d).Some? ==>
      Current(c, d).Some? && Elements(Handles(Parsed(c, d).value.agents)) <= Elements(Current(c, d).value.agents)
  }

  /** The texts in a plan mean what the plan is for. */
  ghost predicate Means(c: Codec, d: Disk, p: Plan) {
    && c.projectOf(p.project).Some? && Handles(c.projectOf(p.project).value.agents) == p.handles
    && c.rosterOf(p.union).Some? && c.rosterOf(p.final).Some?
    && c.rosterOf(p.final).value.agents == p.handles
    && c.rosterOf(p.union).value.agents
       == SortedUnion(if Current(c, d).Some? then Current(c, d).value.agents else [], p.handles)
    && c.rosterOf(p.union).value.created == c.rosterOf(p.final).value.created
  }

  lemma ProjectTextMeans(c: Codec, d: Disk, p: Project)
    requires RoundTrips(c) && (d.project.Some? ==> Parsed(c, d).Some?)
    ensures c.projectOf(ProjectText(c, d, p)) == Some(p)
  {
    if d.project.Some? && Parsed(c, d).Some? && c.projectText(Parsed(c, d).value) == c.projectText(p) {
      assert c.projectOf(c.projectText(p)) == Some(p);
      assert c.projectOf(c.projectText(Parsed(c, d).value)) == Parsed(c, d);
    }
  }

  lemma BuildMeans(c: Codec, inp: Inputs, d: Disk, now: string)
    requires RoundTrips(c) && Build(c, inp, d, now).Some?
    ensures Means(c, d, Build(c, inp, d, now).value)
  {
    ProjectTextMeans(c, d, ProjectOf(inp, Parsed(c, d)).value);
    hide Appended, RootPattern, SortedUnion, Preview, ProjectText;
  }

  lemma CoveredAfter(c: Codec, d: Disk, p: Plan, k: nat)
    requires Means(c, d, p) && k <= 7 && (Covered(c, d) || k >= 3)
    ensures Covered(c, After(p, d, k))
  {
    AfterEach(p, d);
    UnionIsOrdered(if Current(c, d).Some? then Current(c, d).value.agents else [], p.handles);
    hide After, SortedUnion;
  }

  /**
   Whenever commitSetup is stopped, the roster covers the launch.json then on disk, provided it did at the
   start; and it does in any case once launch.json has been written.
   */
  lemma RosterCoversLaunch(c: Codec, inp: Inputs, d: Disk, now: string, k: nat)
    requires RoundTrips(c) && Build(c, inp, d, now).Some? && k <= 7 && (Covered(c, d) || k >= 3)
    ensures Covered(c, After(Build(c, inp, d, now).value, d, k))
  {
    hide Covered, After, Means;
    BuildMeans(c, inp, d, now);
    CoveredAfter(c, d, Build(c, inp, d, now).value, k);
  }

  // ---- running it again ----

  /** Stopped after `k` steps, possibly in the middle of provisioning. */
  ghost predicate StoppedAt(p: Plan, d: Disk, k: nat, e: Disk) {
    && k <= 7
    && e == After(p, d, k).(boxes := e.boxes)
    && After(p, d, k).boxes <= e.boxes <= After(p, d, k).boxes + Mailboxes(p)
  }

  /** What a completed setup leaves behind. */
  function Goal(p: Plan, d: Disk): Disk {
    Disk(d.boxes + Mailboxes(p), Some(p.final), Some(p.project), Some(p.local),
         if p.gitignore.Some? then p.gitignore else d.gitignore, Some(p.rc))
  }

  lemma AfterAll(p: Plan, d: Disk)
    requires Agrees(p, d)
    ensures After(p, d, 7) == Goal(p, d)
  {
    AfterEach(p, d);
    hide After;
  }

  /** The conditions under which .amqrc and .gitignore can be met again. */
  predicate Repeatable(inp: Inputs, d: Disk, root: string) {
    && (inp.rootExplicit && d.rc.None? ==> Trim(inp.root) == inp.root)
    && (inp.noGitignore || RootPattern(root).None?
        || Found(if d.gitignore.Some? then d.gitignore.value else "", RootPattern(root).value)
        || Findable(RootPattern(root).value))
    && (inp.agents.Some? ==> Ordered(inp.agents.value))
  }

  /** An explicit root is accepted the second time exactly when it was given without surrounding white space. */
  lemma RootAgain(c: Codec, inp: Inputs, root: string)
    requires RoundTrips(c) && RootOf(c, inp, None) == Some(root)
    ensures RootOf(c, inp, Some(c.rcText(root))) == Some(root) <==> !inp.rootExplicit || Trim(inp.root) == inp.root
  {
    assert c.rcRoot(c.rcText(root)) == Some(root);
  }

  lemma {:induction false} ByHandleIn(agents: seq<Agent>, i: nat)
    requires i < |agents| && forall j :: 0 <= j < |agents| && j != i ==> agents[j].handle != agents[i].handle
    ensures ByHandle(agents, agents[i].handle) == Some(agents[i])
  {
    var k := |agents| - 1;
    if i < k {
      ByHandleIn(agents[..k], i);
    }
  }

  /** Agents once chosen are chosen again. */
  lemma ChooseAgain(names: seq<string>, probe: string -> Agent, given: seq<Agent>)
    requires Ordered(names)
    ensures Choose(names, probe, Choose(names, probe, given)) == Choose(names, probe, given)
  {
    var r := Choose(names, probe, given);
    forall i | 0 <= i < |names| ensures Picked(names[i], probe, r) == r[i] {
      forall j | 0 <= j < |r| && j != i ensures r[j].handle != r[i].handle {
        LessIrreflexive(names[i]);
        assert Less(names[i], names[j]) || Less(names[j], names[i]);
      }
      ByHandleIn(r, i);
    }
  }

  /** launch.json is settled by the first run that writes it. */
  lemma ProjectAgain(c: Codec, inp: Inputs, d: Disk, e: Disk, p: Project)
    requires RoundTrips(c) && (d.project.Some? ==> Parsed(c, d).Some?) && ProjectOf(inp, Parsed(c, d)) == Some(p)
    requires inp.agents.Some? ==> Ordered(inp.agents.value)
    requires e.project == d.project || e.project == Some(ProjectText(c, d, p))
    ensures (e.project.Some? ==> Parsed(c, e).Some?) && ProjectOf(inp, Parsed(c, e)) == Some(p)
    ensures ProjectText(c, e, p) == ProjectText(c, d, p)
  {
    ProjectTextMeans(c, d, p);
    if e.project != d.project {
      assert Parsed(c, e) == Some(p);
      if inp.agents.Some? {
        ChooseAgain(inp.agents.value, inp.probe, if Parsed(c, d).Some? then Parsed(c, d).value.agents else []);
      }
    }
  }

  lemma LocalAgain(c: Codec, d: Disk, e: Disk, launchers: seq<string>)
    requires RoundTrips(c) && (d.local.Some? ==> c.localOf(d.local.value).Some?)
    requires e.local == d.local || e.local == Some(LocalText(c, d, launchers))
    ensures (e.local.Some? ==> c.localOf(e.local.value).Some?)
    ensures LocalText(c, e, launchers) == LocalText(c, d, launchers)
  {
    assert c.localOf(c.localText(launchers)) == Some(launchers);
    if d.local.Some? {
      var given := c.localOf(d.local.value).value;
      assert c.localOf(c.localText(given)) == Some(given);
    }
  }

  lemma GitignoreAgain(inp: Inputs, root: string, d: Disk, e: Disk)
    requires Repeatable(inp, d, root)
    requires e.gitignore == d.gitignore || e.gitignore == GitignoreText(inp, root, d)
    ensures GitignoreText(inp, root, e) == GitignoreText(inp, root, d)
  {
    SecondTimeUnchanged(if d.gitignore.Some? then d.gitignore.value else "", root);
    hide Appended, Found, Findable;
  }

  /** What a stopped run may have left of each file. */
  ghost predicate PartlyDone(p: Plan, d: Disk, k: nat, e: Disk) {
    && (e.project == d.project || e.project == Some(p.project))
    && (e.local == d.local || e.local == Some(p.local))
    && (e.gitignore == d.gitignore || (p.gitignore.Some? && e.gitignore == p.gitignore))
    && (e.rc == d.rc || e.rc == Some(p.rc))
    && e.roster == (if k < 2 then d.roster else if k < 4 then Some(p.union) else Some(p.final))
    && d.boxes <= e.boxes <= d.boxes + Mailboxes(p) && (k >= 1 ==> e.boxes == d.boxes + Mailboxes(p))
  }

  lemma StoppedIsPartlyDone(p: Plan, d: Disk, k: nat, e: Disk)
    requires StoppedAt(p, d, k, e)
    ensures PartlyDone(p, d, k, e)
  {
    AfterEach(p, d);
    hide After;
  }

  /** The parts of a plan, in terms of what is on disk. */
  ghost predicate IsPlan(c: Codec, inp: Inputs, d: Disk, created: string, pr: Project, p: Plan) {
    && Readable(c, d) && RootOf(c, inp, d.rc) == Some(p.root) && ProjectOf(inp, Parsed(c, d)) == Some(pr)
    && p.handles == Handles(pr.agents) && p.wanted == Wanted(inp.session, p.handles)
    && p.humans == Humans(inp.session)
    && (p.provision <==> !(p.wanted <= d.boxes))
    && (Current(c, d).Some? ==> created == Current(c, d).value.created)
    && p.union == c.rosterText(Config(
         created, SortedUnion(if Current(c, d).Some? then Current(c, d).value.agents else [], p.handles)))
    && p.final == c.rosterText(Config(created, p.handles))
    && p.project == ProjectText(c, d, pr) && p.local == LocalText(c, d, inp.launchers)
    && p.gitignore == GitignoreText(inp, p.root, d)
    && p.rc == (if d.rc.Some? then d.rc.value else c.rcText(p.root))
    && Agrees(p, d) && p.changes == Preview(p, d)
  }

  lemma BuildIsPlan(c: Codec, inp: Inputs, d: Disk, now: string)
    requires Build(c, inp, d, now).Some?
    ensures IsPlan(c, inp, d, if Current(c, d).Some? then Current(c, d).value.created else now,
                   ProjectOf(inp, Parsed(c, d)).value, Build(c, inp, d, now).value)
  {
    BuildAgrees(c, inp, d, now);
    hide Agrees, Preview, Appended, SortedUnion, ProjectText, LocalText, GitignoreText, Wanted, Trim;
  }

  /** A plan can be made again from what a stopped run left. */
  lemma BuildAgain(c: Codec, inp: Inputs, d: Disk, created: string, pr: Project, p: Plan, k: nat, e: Disk, now: string)
    requires RoundTrips(c) && IsPlan(c, inp, d, created, pr, p) && PartlyDone(p, d, k, e) && Repeatable(inp, d, p.root)
    ensures Build(c, inp, e, now).Some? && SameEnd(p, Build(c, inp, e, now).value)
  {
    ProjectAgain(c, inp, d, e, pr);
    LocalAgain(c, d, e, inp.launchers);
    GitignoreAgain(inp, p.root, d, e);
    RosterReadable(c, d, created, p, k, e);
    assert RootOf(c, inp, e.rc) == Some(p.root) by {
      hide Build, Preview, Appended, Found, Findable, Readable, Wanted, ProjectText, LocalText, GitignoreText,
          SortedUnion;
      if e.rc != d.rc && d.rc.None? { RootAgain(c, inp, p.root); }
    }
    BuildIsPlanFor(c, inp, e, now, pr, p.root);
  }

  lemma RosterReadable(c: Codec, d: Disk, created: string, p: Plan, k: nat, e: Disk)
    requires RoundTrips(c) && (d.roster.Some? ==> c.rosterOf(d.roster.value).Some?)
    requires p.final == c.rosterText(Config(created, p.handles))
        && (exists u :: p.union == c.rosterText(Config(created, u)))
    requires e.roster == (if k < 2 then d.roster else if k < 4 then Some(p.union) else Some(p.final))
    ensures e.roster.Some? ==> c.rosterOf(e.roster.value).Some?
    ensures k >= 2 ==> Current(c, e).Some? && Current(c, e).value.created == created
    ensures k >= 4 ==> Current(c, e).value.agents == p.handles
  {
    var u :| p.union == c.rosterText(Config(created, u));
    assert c.rosterOf(p.union) == Some(Config(created, u));
    assert c.rosterOf(p.final) == Some(Config(created, p.handles));
  }

  lemma BuildIsPlanFor(c: Codec, inp: Inputs, e: Disk, now: string, pr: Project, root: string)
    requires Readable(c, e) && RootOf(c, inp, e.rc) == Some(root) && ProjectOf(inp, Parsed(c, e)) == Some(pr)
    ensures Build(c, inp, e, now).Some?
    ensures var q := Build(c, inp, e, now).value;
            && q.root == root && q.handles == Handles(pr.agents) && q.wanted == Wanted(inp.session, Handles(pr.agents))
            && q.humans == Humans(inp.session)
            && q.project == ProjectText(c, e, pr) && q.local == LocalText(c, e, inp.launchers)
            && q.gitignore == GitignoreText(inp, root, e) && q.rc == (if e.rc.Some? then e.rc.value else c.rcText(root))
  {
    hide Preview, Appended, SortedUnion, ProjectText, LocalText, GitignoreText, Wanted, Readable, RootOf, ProjectOf;
  }

  /** Two plans for the same end. */
  predicate SameEnd(p: Plan, q: Plan) {
    && q.root == p.root && q.handles == p.handles && q.wanted == p.wanted && q.humans == p.humans
    && q.project == p.project
    && q.local == p.local && q.gitignore == p.gitignore && q.rc == p.rc
  }

  /** The stop did not leave just the human's mailboxes to be made, which no later run would find missing. */
  predicate Provisioned(p: Plan, e: Disk) {
    !p.provision || !(p.wanted <= e.boxes) || p.humans <= e.boxes
  }

  lemma SameBoxes(d: Disk, p: Plan, k: nat, e: Disk, q: Plan)
    requires SameEnd(p, q) && PartlyDone(p, d, k, e)
    requires (p.provision <==> !(p.wanted <= d.boxes)) && (q.provision <==> !(q.wanted <= e.boxes))
    ensures e.boxes + Mailboxes(q) == d.boxes + Mailboxes(p) <==> Provisioned(p, e)
    ensures e.boxes + Mailboxes(q) + p.humans >= d.boxes + Mailboxes(p) >= e.boxes + Mailboxes(q)
    ensures k >= 1 ==> Provisioned(p, e)
  {
  }

  lemma SameGoal(c: Codec, d: Disk, created: string, p: Plan, k: nat, e: Disk, recreated: string, q: Plan)
    requires RoundTrips(c) && SameEnd(p, q) && PartlyDone(p, d, k, e)
    requires p.final == c.rosterText(Config(created, p.handles))
        && q.final == c.rosterText(Config(recreated, q.handles))
    ensures Goal(q, e) == Goal(p, d).(roster := Goal(q, e).roster, boxes := Goal(q, e).boxes)
    ensures Current(c, Goal(q, e)) == Some(Config(recreated, p.handles))
    ensures recreated == created ==> Goal(q, e) == Goal(p, d).(boxes := Goal(q, e).boxes)
  {
    assert c.rosterOf(q.final) == Some(Config(recreated, p.handles));
  }

  /** The creation time of a roster already on disk, or written before the stop, is kept. */
  lemma CreatedKept(c: Codec, inp: Inputs, d: Disk, created: string, pr: Project, p: Plan, k: nat, e: Disk,
      pr2: Project, q: Plan, again: string)
    requires RoundTrips(c) && IsPlan(c, inp, d, created, pr, p) && PartlyDone(p, d, k, e)
        && IsPlan(c, inp, e, again, pr2, q)
    requires d.roster.Some? || k >= 2
    ensures again == created
  {
    hide Preview, Wanted, ProjectText, LocalText, GitignoreText, SortedUnion, RootOf, ProjectOf, Agrees;
    RosterReadable(c, d, created, p, k, e);
  }

  /**
   Rerunning the same setup from wherever it was stopped reaches the same files; only a roster that had not
   been written at all may get a later creation time.  It reaches the same mailboxes if and only if the stop did
   not come when only those of the reserved human handle were left to be made; then these stay missing.
   */
  lemma RerunConverges(c: Codec, inp: Inputs, d: Disk, now: string, k: nat, e: Disk, later: string)
    requires RoundTrips(c) && Build(c, inp, d, now).Some? && StoppedAt(Build(c, inp, d, now).value, d, k, e)
    requires Repeatable(inp, d, Build(c, inp, d, now).value.root)
    ensures Build(c, inp, e, later).Some?
    ensures var p, q := Build(c, inp, d, now).value, Build(c, inp, e, later).value;
            var first, again := After(p, d, 7), After(q, e, 7);
            && again == first.(roster := again.roster, boxes := again.boxes)
            && Current(c, again).Some? && Current(c, again).value.agents == p.handles
            && (again.boxes == first.boxes <==> Provisioned(p, e))
            && again.boxes <= first.boxes <= again.boxes + p.humans
            && (k >= 1 ==> Provisioned(p, e))
            && (d.roster.Some? || k >= 2 ==> again == first.(boxes := again.boxes))
  {
    hide Build, After, StoppedAt, Repeatable, RoundTrips, ProjectOf, Parsed, PartlyDone, Goal, SortedUnion, Preview,
         Wanted,
         ProjectText, LocalText, GitignoreText, RootOf, Readable, Agrees;
    var p := Build(c, inp, d, now).value;
    BuildIsPlan(c, inp, d, now);
    var created := if Current(c, d).Some? then Current(c, d).value.created else now;
    var pr := ProjectOf(inp, Parsed(c, d)).value;
    StoppedIsPartlyDone(p, d, k, e);
    BuildAgain(c, inp, d, created, pr, p, k, e, later);
    BuildIsPlan(c, inp, e, later);
    var q := Build(c, inp, e, later).value;
    var again := if Current(c, e).Some? then Current(c, e).value.created else later;
    AfterAll(p, d);
    AfterAll(q, e);
    SameGoal(c, d, created, p, k, e, again, q);
    SameBoxes(d, p, k, e, q);
    assert Goal(q, e).boxes == e.boxes + Mailboxes(q) && Goal(p, d).boxes == d.boxes + Mailboxes(p) by {
      GoalBoxes(q, e);
      GoalBoxes(p, d);
    }
    if d.roster.Some? || k >= 2 {
      CreatedKept(c, inp, d, created, pr, p, k, e, ProjectOf(inp, Parsed(c, e)).value, q, again);
    }
  }

  lemma GoalBoxes(p: Plan, d: Disk)
    ensures Goal(p, d).boxes == d.boxes + Mailboxes(p)
  {
  }

  /** Such a stop: every agent has its mailboxes and the human has none in the session; no rerun makes it. */
  lemma HumanMailboxStaysMissing(c: Codec, inp: Inputs, d: Disk, now: string, later: string)
    requires RoundTrips(c) && Build(c, inp, d, now).Some?
    requires Repeatable(inp, d, Build(c, inp, d, now).value.root) && Build(c, inp, d, now).value.provision
    requires (inp.session, HUMAN) !in d.boxes + Build(c, inp, d, now).value.wanted && inp.session != ""
    ensures var p := Build(c, inp, d, now).value;
            var e := d.(boxes := d.boxes + p.wanted + {("", HUMAN)});
            && StoppedAt(p, d, 0, e) && Build(c, inp, e, later).Some?
            && (inp.session, HUMAN) in After(p, d, 7).boxes
            && (inp.session, HUMAN) !in After(Build(c, inp, e, later).value, e, 7).boxes
  {
    var p := Build(c, inp, d, now).value;
    var e := d.(boxes := d.boxes + p.wanted + {("", HUMAN)});
    assert p.humans == Humans(inp.session) by { BuildIsPlan(c, inp, d, now); }
    assert StoppedAt(p, d, 0, e);
    RerunConverges(c, inp, d, now, 0, e, later);
    BuildIsPlan(c, inp, d, now);
    BuildIsPlan(c, inp, e, later);
    hide Build, Repeatable, RoundTrips, Preview, Appended, SortedUnion, ProjectText, LocalText, GitignoreText, RootOf,
         ProjectOf, Readable, Wanted;
    AfterAll(p, d);
    AfterAll(Build(c, inp, e, later).value, e);
  }

  /** Only an ordered roster equals its own union. */
  lemma UnionOfItself(handles: seq<string>)
    ensures SortedUnion(handles, handles) == handles <==> Ordered(handles)
  {
    UnionIsOrdered(handles, handles);
    if Ordered(handles) { UnionAbsorbs(handles, handles); }
  }

  /** What is left to change once everything is in place. */
  lemma NothingLeft(c: Codec, inp: Inputs, d: Disk, created: string, p: Plan, q: Plan, pr: Project)
    requires RoundTrips(c) && SameEnd(p, q) && p.final == c.rosterText(Config(created, p.handles))
    requires IsPlan(c, inp, Goal(p, d), created, pr, q) && (p.provision <==> !(p.wanted <= d.boxes))
    ensures q.changes == if Ordered(p.handles) then [] else [RosterCompatible, RosterFinal]
  {
    var e := Goal(p, d);
    hide Wanted, ProjectText, LocalText, GitignoreText, SortedUnion, RootOf, ProjectOf, Ordered;
    UnionOfItself(p.handles);
    assert Current(c, e) == Some(Config(created, p.handles));
    assert c.rosterOf(q.union) == Some(Config(created, SortedUnion(p.handles, p.handles)));
    assert c.rosterOf(q.final) == Some(Config(created, p.handles));
    assert !q.provision && e.project == Some(q.project) && e.local == Some(q.local) && e.rc.Some?;
    assert q.gitignore.Some? ==> e.gitignore == q.gitignore;
    assert q.union != q.final <==> !Ordered(p.handles);
    assert e.roster != Some(q.union) <==> !Ordered(p.handles);
  }

  /** A second run after a complete one writes nothing if and only if the roster is in order. */
  lemma SecondRunWritesNothing(c: Codec, inp: Inputs, d: Disk, now: string, later: string)
    requires RoundTrips(c) && Build(c, inp, d, now).Some? && Repeatable(inp, d, Build(c, inp, d, now).value.root)
    ensures var p := Build(c, inp, d, now).value;
            var again := Build(c, inp, After(p, d, 7), later);
            && again.Some?
            && again.value.changes == if Ordered(p.handles) then [] else [RosterCompatible, RosterFinal]
  {
    hide Build, After, Repeatable, RoundTrips, ProjectOf, Parsed, PartlyDone, Goal, SortedUnion, Preview, Wanted,
         ProjectText, LocalText, GitignoreText, RootOf, Readable, Agrees, Ordered;
    var p := Build(c, inp, d, now).value;
    var e := After(p, d, 7);
    BuildIsPlan(c, inp, d, now);
    var created := if Current(c, d).Some? then Current(c, d).value.created else now;
    var pr := ProjectOf(inp, Parsed(c, d)).value;
    StoppedIsPartlyDone(p, d, 7, e);
    BuildAgain(c, inp, d, created, pr, p, 7, e, later);
    BuildIsPlan(c, inp, e, later);
    var q := Build(c, inp, e, later).value;
    var again := if Current(c, e).Some? then Current(c, e).value.created else later;
    AfterAll(p, d);
    var pr2 := ProjectOf(inp, Parsed(c, e)).value;
    CreatedKept(c, inp, d, created, pr, p, 7, e, pr2, q, again);
    NothingLeft(c, inp, d, created, p, q, pr2);
  }

  // ---- the commit itself ----

  /** A step may fail before it takes effect, or after (a sync error once the file is in place). */
  datatype Fault = Fine | Before | Late

  /** The step has nothing to write, or it can be written. */
  predicate Works(p: Plan, d: Disk, io: Step -> Fault, i: nat)
    requires i < 7
  {
    Reports(p, After(p, d, i), StepAt(i)) ==> io(StepAt(i)).Fine?
  }

  /** The first `n` steps work. */
  predicate Through(p: Plan, d: Disk, io: Step -> Fault, n: nat) {
    n <= 7 && forall i: nat :: i < n ==> Works(p, d, io, i)
  }

  lemma NothingYet(p: Plan, d: Disk, io: Step -> Fault)
    ensures Through(p, d, io, 0)
  {
  }

  lemma StopsShort(p: Plan, d: Disk, io: Step -> Fault, i: nat, k: nat)
    requires i < 7 && Stops(p, d, io, i, k)
    ensures !Through(p, d, io, 7)
  {
    hide Works;
  }

  /** The first step that cannot be written stops the run, before or after taking effect. */
  predicate Stops(p: Plan, d: Disk, io: Step -> Fault, i: nat, k: nat)
    requires i < 7
  {
    && !Works(p, d, io, i) && Through(p, d, io, i)
    && (k == i || k == i + 1) && (io(StepAt(i)).Before? ==> k == i)
  }

  lemma StepsInOrder()
    ensures StepAt(0) == Provision && StepAt(1) == RosterCompatible && StepAt(2) == ProjectConfig
    ensures StepAt(3) == RosterFinal && StepAt(4) == LocalConfig && StepAt(5) == Gitignore && StepAt(6) == AmqRc
  {
  }

  class Files {
    var boxes: set<(string, string)>
    var roster: Option<string>
    var project: Option<string>
    var local: Option<string>
    var gitignore: Option<string>
    var rc: Option<string>
    var written: seq<Step>

    ghost function Now(): Disk
      reads this
    {
      Disk(boxes, roster, project, local, gitignore, rc)
    }

    /** One step, and its entry in the list of writes; an unchanged file is left alone. */
    method Perform(p: Plan, s: Step, io: Step -> Fault, ghost d: Disk, ghost i: nat) returns (ok: bool, ghost k: nat)
      requires i < 7 && s == StepAt(i) && Now() == After(p, d, i) && written == Reported(p, d, i)
      requires Through(p, d, io, i)
      modifies this
      ensures (k == i || k == i + 1) && Now() == After(p, d, k)
      ensures ok ==> k == i + 1 && written == Reported(p, d, i + 1)
      ensures !ok ==> written == Reported(p, d, i)
      ensures ok ==> Through(p, d, io, i + 1)
      ensures !ok ==> Stops(p, d, io, i, k)
    {
      var changes :=
        match s
        case Provision => p.provision
        case RosterCompatible => roster != Some(p.union)
        case ProjectConfig => project != Some(p.project)
        case RosterFinal => roster != Some(p.final)
        case LocalConfig => local != Some(p.local)
        case Gitignore => p.gitignore.Some? && p.gitignore.value != "" && gitignore != p.gitignore
        case AmqRc => rc != Some(p.rc);
      assert changes <==> Reports(p, Now(), s);
      if !changes {
        return true, i + 1;
      }
      if io(s).Before? {
        return false, i;
      }
      match s {
        case Provision => boxes := boxes + p.wanted + p.humans;
        case RosterCompatible => roster := Some(p.union);
        case ProjectConfig => project := Some(p.project);
        case RosterFinal => roster := Some(p.final);
        case LocalConfig => local := Some(p.local);
        case Gitignore => gitignore := p.gitignore;
        case AmqRc => rc := Some(p.rc);
      }
      k := i + 1;
      ok := io(s).Fine?;
      if ok {
        written := written + [s];
      }
    }

    /**
     `commitSetup`.  Whatever fails, the disk is that of a stopped run, and the list of writes that of its
     completed steps; without faults all seven are done.
     */
    method Commit(p: Plan, io: Step -> Fault) returns (ok: bool, ghost k: nat)
      requires written == []
      modifies this
      ensures k <= 7 && Now() == After(p, old(Now()), k)
      ensures ok ==> k == 7 && written == Reported(p, old(Now()), 7)
      ensures written == Reported(p, old(Now()), k) || (k > 0 && written == Reported(p, old(Now()), k - 1))
      ensures ok <==> Through(p, old(Now()), io, 7)
      ensures !ok ==> exists i: nat :: i < 7 && Stops(p, old(Now()), io, i, k)
    {
      ghost var d := Now();
      assert After(p, d, 0) == d && Reported(p, d, 0) == [];
      hide After, Reported, Reports, StepAt, Through, Stops;
      StepsInOrder();
      assert Through(p, d, io, 0) by { NothingYet(p, d, io); }
      ghost var i := 0;
      ok, k := Perform(p, Provision, io, d, 0);
      if ok {
        i := 1;
        ok, k := Perform(p, RosterCompatible, io, d, 1);
      }
      if ok {
        i := 2;
        ok, k := Perform(p, ProjectConfig, io, d, 2);
      }
      if ok {
        i := 3;
        ok, k := Perform(p, RosterFinal, io, d, 3);
      }
      if ok {
        i := 4;
        ok, k := Perform(p, LocalConfig, io, d, 4);
      }
      if ok {
        i := 5;
        ok, k := Perform(p, Gitignore, io, d, 5);
      }
      if ok {
        i := 6;
        ok, k := Perform(p, AmqRc, io, d, 6);
      }
      if !ok { StopsShort(p, d, io, i, k); }
    }
  }
}
