/**
 Finding the queue from the working directory: the Git boundary, the three walks up
 the directory tree that it bounds, and the two resolvers that choose a root.

 A directory is the list of its path components, so its ancestors are the prefixes
 of the list.  What is found in a directory is given by the tree.
 */
module Walks {
  import opened Text

  type Path = seq<string>

  datatype Marker = Absent | Present | Uninspectable

  /** What one walk finds in one directory. */
  datatype Probe = Miss | Hit | Broken

  datatype Tree = Tree(
    cwd: Path,                  // as the process sees it
    resolved: Path,                 // with symbolic links resolved
    marker: Path -> Marker,     // .git
    bare: Path -> bool,         // the shape of a bare repository
    home: Path -> bool,         // the home directory
    amqrc: Path -> Probe,
    mail: Path -> Probe,        // .agent-mail
    launch: Path -> Probe)      // .amq/launch.json

  function Parent(p: Path): Path
    requires p != []
  {
    p[..|p| - 1]
  }

  // ---- nearest ancestors ----

  function Nearest(has: Path -> bool, p: Path): Option<Path> {
    if has(p) then Some(p) else if p == [] then None else Nearest(has, Parent(p))
  }

  /** The nearest ancestor is the longest prefix that qualifies. */
  lemma {:induction false} NearestIsLongest(has: Path -> bool, p: Path)
    ensures Nearest(has, p).Some? ==> Nearest(has, p).value <= p && has(Nearest(has, p).value)
    ensures forall k :: 0 <= k <= |p| && has(p[..k]) ==> Nearest(has, p).Some? && k <= |Nearest(has, p).value|
  {
    assert p[..|p|] == p;
    if !has(p) && p != [] {
      NearestIsLongest(has, Parent(p));
      forall k | 0 <= k <= |p| && has(p[..k]) ensures Nearest(has, p).Some? && k <= |Nearest(has, p).value| {
        assert k < |p| && Parent(p)[..k] == p[..k];
      }
    }
  }

  // ---- the Git boundary ----

  /** A present or uninspectable marker. */
  predicate Marked(t: Tree, p: Path) {
    !t.marker(p).Absent?
  }

  /** A worktree's own .git directory looks bare but is not a boundary. */
  predicate LooksBare(t: Tree, p: Path) {
    (p == [] || p[|p| - 1] != ".git") && t.bare(p)
  }

  function Boundary(t: Tree): Option<Path> {
    var marked := Nearest(p => Marked(t, p), t.resolved);
    if marked.Some? then marked else Nearest(p => LooksBare(t, p), t.resolved)
  }

  /** `gitWorktreeRootFromCWD`: markers win over bare candidates, however near those are. */
  method GitRoot(t: Tree) returns (top: Option<Path>)
    ensures top == Boundary(t)
  {
    var marked, looksBare := p => Marked(t, p), p => LooksBare(t, p);
    var dir, candidate: Option<Path> := t.resolved, None;
    while true
      invariant Nearest(marked, t.resolved) == Nearest(marked, dir)
      invariant Nearest(looksBare, t.resolved) == if candidate.Some? then candidate else Nearest(looksBare, dir)
      decreases |dir|
    {
      if Marked(t, dir) {
        return Some(dir);
      }
      if candidate.None? && LooksBare(t, dir) {
        candidate := Some(dir);
      }
      if dir == [] {
        return candidate;
      }
      dir := Parent(dir);
    }
  }

  // ---- the walks ----

  datatype Found = NotFound | At(dir: Path) | Trouble(dir: Path)

  /** One walk up from `dir`, as far as the ceiling, or outside Git as far as home. */
  function Search(t: Tree, probe: Path -> Probe, ceiling: Option<Path>, dir: Path): Found {
    if ceiling.None? && t.home(dir) then NotFound
    else
      match probe(dir)
      case Hit => At(dir)
      case Broken => Trouble(dir)
      case Miss => if ceiling == Some(dir) || dir == [] then NotFound else Search(t, probe, ceiling, Parent(dir))
  }

  /** Inside Git the walk starts from the resolved directory. */
  function Start(t: Tree): Path {
    if Boundary(t).Some? then t.resolved else t.cwd
  }

  function Look(t: Tree, probe: Path -> Probe): Found {
    Search(t, probe, Boundary(t), Start(t))
  }

  /** What a walk may look at: inside Git nothing above the boundary, outside nothing from home upwards. */
  predicate Eligible(t: Tree, ceiling: Option<Path>, start: Path, dir: Path) {
    && dir <= start
    && (if ceiling.Some? then |ceiling.value| <= |dir| else forall k :: |dir| <= k <= |start| ==> !t.home(start[..k]))
  }

  /** The loop of findAndLoadAmqrc, detectAgentMailDir and findProjectLaunchJSONPath. */
  method Walk(t: Tree, probe: Path -> Probe) returns (r: Found, ghost looked: set<Path>)
    ensures r == Look(t, probe)
    ensures forall d :: d in looked ==> Eligible(t, Boundary(t), Start(t), d)
    ensures !r.NotFound? ==> r.dir in looked
  {
    var ceiling := GitRoot(t);
    BoundaryIsAncestor(t);
    var start := if ceiling.Some? then t.resolved else t.cwd;
    var dir := start;
    looked := {};
    assert start[..|start|] == start;
    while ceiling.Some? || !t.home(dir)
      invariant dir <= start && Search(t, probe, ceiling, start) == Search(t, probe, ceiling, dir)
      invariant ceiling.Some? ==> ceiling.value <= dir
      invariant ceiling.None? ==> forall k :: |dir| < k <= |start| ==> !t.home(start[..k])
      invariant forall d :: d in looked ==> Eligible(t, ceiling, start, d)
      decreases |dir|
    {
      looked := looked + {dir};
      assert dir == start[..|dir|];
      var p := probe(dir);
      if p.Hit? {
        return At(dir), looked;
      }
      if p.Broken? {
        return Trouble(dir), looked;
      }
      if ceiling == Some(dir) {
        break;
      }
      if dir == [] {
        break;
      }
      if ceiling.Some? { StillBelow(ceiling.value, dir); }
      dir := Parent(dir);
    }
    r := NotFound;
  }

  /**
   The boundary is the nearest marked ancestor; only if there is none, the nearest that looks like a bare
   repository.
   */
  lemma BoundaryIsNearest(t: Tree, k: nat)
    requires k <= |t.resolved|
    ensures !t.marker(t.resolved[..k]).Absent? ==>
              Boundary(t).Some? && !t.marker(Boundary(t).value).Absent? && k <= |Boundary(t).value|
    ensures t.bare(t.resolved[..k]) && (k > 0 ==> t.resolved[k - 1] != ".git") ==>
              Boundary(t).Some? && (!t.marker(Boundary(t).value).Absent? || k <= |Boundary(t).value|)
    ensures Boundary(t).Some? ==>
              var b := Boundary(t).value;
              && b <= t.resolved
              && (!t.marker(b).Absent? || (t.bare(b) && (b != [] ==> b[|b| - 1] != ".git")))
  {
    NearestIsLongest(p => Marked(t, p), t.resolved);
    NearestIsLongest(p => LooksBare(t, p), t.resolved);
    if k > 0 { assert t.resolved[..k][k - 1] == t.resolved[k - 1]; }
  }

  lemma StillBelow(c: Path, dir: Path)
    requires dir != [] && c <= dir && c != dir
    ensures c <= Parent(dir)
  {
    assert dir[..|dir|] == dir && c == dir[..|c|];
  }

  lemma BoundaryIsAncestor(t: Tree)
    ensures Boundary(t).Some? ==> Boundary(t).value <= t.resolved
  {
    NearestIsLongest(p => Marked(t, p), t.resolved);
    NearestIsLongest(p => LooksBare(t, p), t.resolved);
  }

  /** The result is the nearest eligible directory in which anything at all was found. */
  lemma {:induction false} SearchIsNearest(t: Tree, probe: Path -> Probe, ceiling: Option<Path>, dir: Path)
    requires ceiling.Some? ==> ceiling.value <= dir
    ensures var r := Search(t, probe, ceiling, dir);
            && (forall k :: 0 <= k <= |dir| && Eligible(t, ceiling, dir, dir[..k]) && !probe(dir[..k]).Miss?
                  ==> !r.NotFound? && k <= |r.dir|)
            && (!r.NotFound? ==> Eligible(t, ceiling, dir, r.dir) && probe(r.dir) == (if r.At? then Hit else Broken))
  {
    assert dir[..|dir|] == dir;
    if (ceiling.Some? || !t.home(dir)) && probe(dir).Miss? && ceiling != Some(dir) && dir != [] {
      var up := Parent(dir);
      if ceiling.Some? { StillBelow(ceiling.value, dir); }
      SearchIsNearest(t, probe, ceiling, up);
      forall k | 0 <= k < |dir| ensures Eligible(t, ceiling, dir, dir[..k]) <==> Eligible(t, ceiling, up, up[..k]) {
        assert up[..k] == dir[..k];
        EligibleAbove(t, ceiling, dir, dir[..k]);
      }
      var r := Search(t, probe, ceiling, dir);
      if !r.NotFound? { EligibleAbove(t, ceiling, dir, r.dir); }
      forall k | 0 <= k <= |dir| && Eligible(t, ceiling, dir, dir[..k]) && !probe(dir[..k]).Miss?
        ensures !r.NotFound? && k <= |r.dir|
      {
        assert k < |dir| && up[..k] == dir[..k];
      }
    }
  }

  /** Eligibility from one directory further up. */
  lemma EligibleAbove(t: Tree, ceiling: Option<Path>, dir: Path, d: Path)
    requires dir != [] && d <= Parent(dir) && (ceiling.Some? || !t.home(dir))
    ensures Eligible(t, ceiling, dir, d) <==> Eligible(t, ceiling, Parent(dir), d)
  {
    var up := Parent(dir);
    assert forall k :: 0 <= k <= |up| ==> up[..k] == dir[..k];
    assert dir[..|dir|] == dir;
  }

  /** All three walks return the nearest hit between the working directory and the boundary, and none looks beyond. */
  lemma LookIsNearest(t: Tree, probe: Path -> Probe)
    ensures var r := Look(t, probe);
            && (forall k :: 0 <= k <= |Start(t)| && Eligible(t, Boundary(t), Start(t), Start(t)[..k])
                            && !probe(Start(t)[..k]).Miss? ==>
                   !r.NotFound? && k <= |r.dir|)
            && (!r.NotFound? ==>
                  Eligible(t, Boundary(t), Start(t), r.dir) && probe(r.dir) == (if r.At? then Hit else Broken))
  {
    BoundaryIsAncestor(t);
    SearchIsNearest(t, probe, Boundary(t), Start(t));
  }

  // ---- the two resolvers ----

  /** The roots named in configuration files and the environment, each possibly blank. */
  datatype Settings = Settings(rcRoot: Path -> string, globalEnv: string, globalRc: Option<string>,
      globalRcBroken: bool)

  /** A root as its source gives it. */
  datatype Choice = FromRc(dir: Path, root: string) | FromGlobalEnv(root: string) | FromGlobalRc(root: string)
      | Detected(dir: Path)

  datatype Resolution = Chosen(choice: Choice) | Refused | NoSource

  /** The project configuration: nothing, a root, a file without a root, or trouble. */
  function ProjectRoot(t: Tree, c: Settings): Option<Choice> {
    var r := Look(t, t.amqrc);
    if r.At? && c.rcRoot(r.dir) != "" then Some(FromRc(r.dir, c.rcRoot(r.dir))) else None
  }

  function LocalRoot(t: Tree): Option<Choice> {
    var r := Look(t, t.mail);
    if r.At? then Some(Detected(r.dir)) else None
  }

  /** `resolveDiscoveredBaseRoot`: one source after the other. */
  function Discovered(t: Tree, c: Settings): Resolution {
    if ProjectRoot(t, c).Some? then Chosen(ProjectRoot(t, c).value)
    else if Look(t, t.amqrc).Trouble? then Refused
    else if c.globalEnv != "" then Chosen(FromGlobalEnv(c.globalEnv))
    else if Boundary(t).Some? then (if LocalRoot(t).Some? then Chosen(LocalRoot(t).value) else Refused)
    else if c.globalRcBroken then Refused
    else if c.globalRc.Some? && c.globalRc.value != "" then Chosen(FromGlobalRc(c.globalRc.value))
    else if LocalRoot(t).Some? then Chosen(LocalRoot(t).value)
    else NoSource
  }

  /**
   The directory is the nearest in which the walk finds anything, no higher than the boundary nor, outside Git, than
   the directory below home.
   */
  predicate First(t: Tree, probe: Path -> Probe, d: Path) {
    if Boundary(t).Some? then FirstFrom(t, probe, t.resolved, d) else FirstFrom(t, probe, t.cwd, d)
  }

  predicate FirstFrom(t: Tree, probe: Path -> Probe, start: Path, d: Path) {
    && Eligible(t, Boundary(t), start, d) && !probe(d).Miss?
    && forall k :: |d| < k <= |start| && Eligible(t, Boundary(t), start, start[..k]) ==> probe(start[..k]).Miss?
  }

  lemma LookIsFirst(t: Tree, probe: Path -> Probe, d: Path)
    ensures Look(t, probe) == At(d) <==> First(t, probe, d) && probe(d).Hit?
    ensures Look(t, probe) == Trouble(d) <==> First(t, probe, d) && probe(d).Broken?
  {
    LookIsNearest(t, probe);
    hide Look, Eligible, Boundary;
    var start := Start(t);
    var r := Look(t, probe);
    if First(t, probe, d) {
      FoundIsPrefix(t, d);
      assert d == start[..|d|];
      assert !r.NotFound? && |d| <= |r.dir|;
      FoundIsPrefix(t, r.dir);
      FirstIsLongest(t, probe, d, |r.dir|);
    }
  }

  lemma FirstIsLongest(t: Tree, probe: Path -> Probe, d: Path, k: nat)
    requires First(t, probe, d) && k <= |Start(t)| && Eligible(t, Boundary(t), Start(t), Start(t)[..k])
    requires !probe(Start(t)[..k]).Miss?
    ensures k <= |d|
  {
    hide Boundary, Eligible;
  }

  lemma FoundIsPrefix(t: Tree, d: Path)
    requires Eligible(t, Boundary(t), Start(t), d)
    ensures |d| <= |Start(t)| && d == Start(t)[..|d|]
  {
    hide Boundary;
  }

  /** What lies beyond the eligible directories makes no difference. */
  lemma LooksNoFurther(t: Tree, p: Path -> Probe, q: Path -> Probe)
    requires forall d :: Eligible(t, Boundary(t), Start(t), d) ==> p(d) == q(d)
    ensures Look(t, p) == Look(t, q)
  {
    var r, s := Look(t, p), Look(t, q);
    LookIsNearest(t, p);
    LookIsNearest(t, q);
    hide Look, Eligible, Boundary, Start;
    if !r.NotFound? {
      FoundIsPrefix(t, r.dir);
      assert !s.NotFound? && |r.dir| <= |s.dir|;
    }
    if !s.NotFound? {
      FoundIsPrefix(t, s.dir);
      assert !r.NotFound? && |s.dir| <= |r.dir|;
    }
  }

  /** The nearest project file names a root. */
  ghost predicate ProjectNames(t: Tree, c: Settings) {
    exists d :: First(t, t.amqrc, d) && t.amqrc(d).Hit? && c.rcRoot(d) != ""
  }

  /** Nothing nearer to the project decides: its file names no root and can be read, and no global root is set. */
  ghost predicate Undecided(t: Tree, c: Settings) {
    !ProjectNames(t, c) && (forall d :: First(t, t.amqrc, d) ==> !t.amqrc(d).Broken?) && c.globalEnv == ""
  }

  predicate GlobalFileNames(t: Tree, c: Settings, root: string) {
    Boundary(t).None? && !c.globalRcBroken && c.globalRc == Some(root) && root != ""
  }

  /**
   The order of the sources.  The project file comes first; then, unless that file is broken, the global
   environment; then in Git the directory found there, and outside Git the global file before it.
   */
  lemma SourcesExactly(t: Tree, c: Settings, d: Path, root: string)
    ensures Discovered(t, c) == Chosen(FromRc(d, root)) <==>
            First(t, t.amqrc, d) && t.amqrc(d).Hit? && root == c.rcRoot(d) != ""
    ensures Discovered(t, c) == Chosen(FromGlobalEnv(root)) <==>
            Undecided(t, c.(globalEnv := "")) && root == c.globalEnv != ""
    ensures Discovered(t, c) == Chosen(FromGlobalRc(root)) <==> Undecided(t, c) && GlobalFileNames(t, c, root)
    ensures Discovered(t, c) == Chosen(Detected(d)) <==>
            && Undecided(t, c) && First(t, t.mail, d) && t.mail(d).Hit?
            && (Boundary(t).None? ==> !c.globalRcBroken && (c.globalRc.None? || c.globalRc.value == ""))
  {
    hide Look, First, Boundary;
    forall x
      ensures Look(t, t.amqrc) == At(x) <==> First(t, t.amqrc, x) && t.amqrc(x).Hit?
      ensures Look(t, t.amqrc) == Trouble(x) <==> First(t, t.amqrc, x) && t.amqrc(x).Broken?
    { LookIsFirst(t, t.amqrc, x); }
    LookIsFirst(t, t.mail, d);
    var found := Look(t, t.amqrc);
    if !found.NotFound? {
      assert First(t, t.amqrc, found.dir);
    }
  }

  /** The agent named by flag or, failing that, by AM_ME. */
  function Agent(meFlag: string, envMe: string): string {
    if meFlag != "" then meFlag else Trim(envMe)
  }

  /**
   `resolveEnvConfigWithSource` without a root flag and without AM_ROOT: collect everything, then choose.  It
   refuses also when an agent is named whose handle is not valid, which the other resolver never looks at.
   */
  method ResolveEnv(t: Tree, c: Settings, meFlag: string, envMe: string, normalize: string -> Option<string>)
    returns (r: Option<(Choice, string)>)
    ensures r.Some? <==>
            Discovered(t, c).Chosen? && (Agent(meFlag, envMe) == "" || normalize(Agent(meFlag, envMe)).Some?)
    ensures r.Some? ==> r.value.0 == Discovered(t, c).choice
    ensures r.Some? ==>
              if Agent(meFlag, envMe) == "" then r.value.1 == "" else Some(r.value.1) == normalize(Agent(meFlag, envMe))
  {
    hide Trim;
    var me := if meFlag != "" then meFlag else Trim(envMe);
    var rc;
    ghost var looked;
    rc, looked := Walk(t, t.amqrc);
    var rcError := rc.Trouble?;
    var rcRoot := if rc.At? then c.rcRoot(rc.dir) else "";
    var git := GitRoot(t);
    var globalRc, globalError := "", false;
    if git.None? {
      globalError := c.globalRcBroken;
      globalRc := if !c.globalRcBroken && c.globalRc.Some? then c.globalRc.value else "";
    }
    var local;
    local, looked := Walk(t, t.mail);

    var chosen: Option<Choice>;
    if rc.At? && rcRoot != "" {
      chosen := Some(FromRc(rc.dir, rcRoot));
    } else if c.globalEnv != "" {
      chosen := Some(FromGlobalEnv(c.globalEnv));
    } else if git.Some? && local.At? {
      chosen := Some(Detected(local.dir));
    } else if globalRc != "" {
      chosen := Some(FromGlobalRc(globalRc));
    } else if local.At? {
      chosen := Some(Detected(local.dir));
    } else {
      chosen := None;
    }
    if rcError {
      return None;
    }
    if globalError && rcRoot == "" && c.globalEnv == "" {
      return None;
    }
    if chosen.None? {
      return None;
    }
    if me != "" {
      var handle := normalize(me);
      if handle.None? {
        return None;
      }
      me := handle.value;
    }
    return Some((chosen.value, me));
  }
}
