/**
 `route explain` against `send`: the command it prints is parsed and planned again,
 and exactly when that gives the same delivery root.
 */
module RouteExplain {
  import opened Text
  import opened BridgeEnvelope
  import opened Routing
  import opened Conversation
  import Shell

  datatype Target = Target(to: string, project: string, session: string)

  /** `parseInlineRecipient`, applied when no project was given. */
  function Inline(raw: string, project: string, session: string): Target {
    var i := IndexOf(raw, '@');
    if project != "" || i == |raw| || raw[i + 1..] == "" then Target(raw, project, session)
    else
      var q := raw[i + 1..];
      var j := IndexOf(q, ':');
      var (p, s) := if j == |q| then (q, "") else (q[..j], q[j + 1..]);
      Target(raw[..i], p, if session == "" then s else session)
  }

  /** Planning as both commands do it: the project decides by its trimmed text but is looked up as given. */
  function PlanFor(w: World, source: Root, t: Target): Option<Route> {
    if Trim(t.project) == "" then Plan(w, source, "", Trim(t.session), true)
    else Plan(w, source, t.project, Trim(t.session), true)
  }

  /** A flag that is left out when it has no value. */
  function Maybe(k: string, v: string): seq<string> {
    if v != "" then [k, v] else []
  }

  /** `buildRouteArgv`. */
  function Argv(path: string, me: string, to: string, project: string, session: string): seq<string> {
    ["amq", "send"] + ["--root", path, "--me", me, "--to", to] + Maybe("--project", project)
        + Maybe("--session", session)
  }

  datatype Explained = Explained(target: Target, route: Route, argv: seq<string>)

  /** `explainRoute` for one recipient. */
  function Explain(w: World, source: Root, path: string, me: string, to: string, project: string,
      session: string): Option<Explained> {
    var t := Inline(Trim(to), Trim(project), Trim(session));
    var plan := PlanFor(w, source, t);
    if Normal(me).None? || Normal(t.to).None? || plan.None? || (plan.value.root, Normal(t.to).value) !in w.boxes
    then None
    else Some(Explained(t, plan.value, Argv(path, Normal(me).value, Normal(t.to).value, t.project, plan.value.session)))
  }

  // ---- reading the command back ----

  predicate IsFlag(a: string) {
    a == "--root" || a == "--me" || a == "--to" || a == "--project" || a == "--session"
  }

  /** The flag package on string flags written as two arguments. */
  function Flags(args: seq<string>): Option<map<string, string>> {
    if args == [] then Some(map[])
    else if |args| == 1 || !IsFlag(args[0]) then None
    else
      var rest := Flags(args[2..]);
      if rest.None? then None else Some(map[args[0] := args[1]] + rest.value)
  }

  function Get(m: map<string, string>, k: string): string {
    if k in m then m[k] else ""
  }

  /** What `send` does with the command: where it would deliver. */
  function Resend(w: World, source: Root, path: string, argv: seq<string>): Option<Root> {
    if |argv| < 2 || argv[..2] != ["amq", "send"] then None
    else
      var flags := Flags(argv[2..]);
      if flags.None? || Get(flags.value, "--root") != path then None
      else
        var t := Inline(Trim(Get(flags.value, "--to")), Trim(Get(flags.value, "--project")),
            Trim(Get(flags.value, "--session")));
        var plan := PlanFor(w, source, t);
        if Normal(t.to).None? || plan.None? || (plan.value.root, Normal(t.to).value) !in w.boxes then None
        else Some(plan.value.root)
  }

  lemma FlagsCons(k: string, v: string, rest: seq<string>)
    requires IsFlag(k) && Flags(rest).Some?
    ensures Flags([k, v] + rest) == Some(map[k := v] + Flags(rest).value)
  {
    hide IsFlag;
    var all := [k, v] + rest;
    assert all[0] == k && all[1] == v && all[2..] == rest;
  }

  /** A flag at the front is found, and leaves later ones as they were. */
  lemma FlagsPut(k: string, v: string, rest: seq<string>)
    requires IsFlag(k) && Flags(rest).Some? && k !in Flags(rest).value
    ensures var all := [k, v] + rest;
            && Flags(all).Some? && Get(Flags(all).value, k) == v
            && Flags(all).value.Keys == Flags(rest).value.Keys + {k}
            && forall x :: x != k ==> Get(Flags(all).value, x) == Get(Flags(rest).value, x)
  {
    hide IsFlag, Flags;
    FlagsCons(k, v, rest);
  }

  lemma FlagsMaybe(k: string, v: string, rest: seq<string>)
    requires IsFlag(k) && Flags(rest).Some? && k !in Flags(rest).value
    ensures var all := Maybe(k, v) + rest;
            && Flags(all).Some? && Get(Flags(all).value, k) == v
            && Flags(all).value.Keys <= Flags(rest).value.Keys + {k}
            && forall x :: x != k ==> Get(Flags(all).value, x) == Get(Flags(rest).value, x)
  {
    hide IsFlag, Flags;
    if v != "" {
      FlagsPut(k, v, rest);
    } else {
      assert [] + rest == rest;
    }
  }

  lemma TailReadsBack(p: string, project: string, s: string, session: string)
    requires IsFlag(p) && IsFlag(s) && p != s
    ensures var ps := Maybe(p, project) + Maybe(s, session);
            && Flags(ps).Some? && Get(Flags(ps).value, p) == project && Get(Flags(ps).value, s) == session
            && Flags(ps).value.Keys <= {p, s}
  {
    assert Flags([]) == Some(map[]);
    hide IsFlag, Flags, Get;
    FlagsMaybe(s, session, []);
    assert Maybe(s, session) + [] == Maybe(s, session);
    FlagsMaybe(p, project, Maybe(s, session));
  }

  lemma FrontReadsBack(r: string, path: string, m: string, me: string, t: string, to: string, ps: seq<string>)
    requires IsFlag(r) && IsFlag(m) && IsFlag(t) && r != m && r != t && m != t
    requires Flags(ps).Some? && r !in Flags(ps).value && m !in Flags(ps).value && t !in Flags(ps).value
    ensures var args := [r, path] + ([m, me] + ([t, to] + ps));
            && Flags(args).Some?
            && var f := Flags(args).value;
            && Get(f, r) == path && Get(f, m) == me && Get(f, t) == to
            && forall x :: x != r && x != m && x != t ==> Get(f, x) == Get(Flags(ps).value, x)
  {
    hide IsFlag, Flags, Get;
    FlagsPut(t, to, ps);
    FlagsPut(m, me, [t, to] + ps);
    FlagsPut(r, path, [m, me] + ([t, to] + ps));
  }

  lemma FlagsDiffer()
    ensures "--root" != "--me" && "--root" != "--to" && "--root" != "--project" && "--root" != "--session"
    ensures "--me" != "--to" && "--me" != "--project" && "--me" != "--session"
    ensures "--to" != "--project" && "--to" != "--session" && "--project" != "--session"
  {
    assert |"--root"| == 6 && |"--me"| == 4 && |"--to"| == 4 && |"--project"| == 9 && |"--session"| == 9;
    assert "--me"[2] == 'm' && "--to"[2] == 't' && "--project"[2] == 'p' && "--session"[2] == 's';
  }

  lemma FlagsAreFlags()
    ensures IsFlag("--root") && IsFlag("--me") && IsFlag("--to") && IsFlag("--project") && IsFlag("--session")
  {
  }

  lemma ArgvTail(a: string, b: string, front: seq<string>, p: seq<string>, s: seq<string>)
    requires |front| == 6
    ensures ([a, b] + front + p + s)[2..]
            == [front[0], front[1]] + ([front[2], front[3]] + ([front[4], front[5]] + (p + s)))
    ensures ([a, b] + front + p + s)[..2] == [a, b]
  {
  }

  /** Parsing the printed argument vector gives back what was put in. */
  lemma ArgvReadsBack(path: string, me: string, to: string, project: string, session: string)
    ensures var argv := Argv(path, me, to, project, session);
            && |argv| >= 2 && argv[..2] == ["amq", "send"] && Flags(argv[2..]).Some?
            && var m := Flags(argv[2..]).value;
            && Get(m, "--root") == path && Get(m, "--me") == me && Get(m, "--to") == to
            && Get(m, "--project") == project && Get(m, "--session") == session
  {
    hide Flags, IsFlag, Get, Maybe;
    FlagsDiffer();
    FlagsAreFlags();
    TailReadsBack("--project", project, "--session", session);
    FrontReadsBack("--root", path, "--me", me, "--to", to, Maybe("--project", project) + Maybe("--session", session));
    ArgvTail("amq", "send", ["--root", path, "--me", me, "--to", to], Maybe("--project", project),
        Maybe("--session", session));
  }

  /** The project's text is looked up after trimming the second time. */
  predicate SameLookup(w: World, source: Root, project: string) {
    || Trim(project) == "" || Trim(project) == project
    || (&& source.base in w.projects && project in w.projects[source.base].peers
        && Trim(project) in w.projects[source.base].peers
        && w.projects[source.base].peers[Trim(project)] == w.projects[source.base].peers[project])
  }

  /** A mirrored session is taken as it is, but a given one must be a valid handle. */
  predicate Mirrors(source: Root, t: Target) {
    Trim(t.project) != "" && Trim(t.session) == "" && source.session.Some?
  }

  lemma TrimTwice(s: string)
    ensures Trim(Trim(s)) == Trim(s)
  {
    TrimmedIsTrimSpaceTest(Trim(s));
    var l := TrimLeft(s);
    var r := TrimRight(l);
    if r != "" {
      assert r[0] == l[0];
      assert Trimmed(r);
    }
  }

  /** Planning again inside the project. */
  lemma PlanAgainLocal(w: World, source: Root, t: Target)
    requires PlanFor(w, source, t).Some? && Trim(t.project) == ""
    ensures var r := PlanFor(w, source, t).value;
            r.session == Trim(t.session) && PlanFor(w, source, Target(t.to, Trim(t.project), r.session)) == Some(r)
  {
    TrimTwice(t.project);
    TrimTwice(t.session);
    hide Trim, ValidHandle;
  }

  /** Planning again into a peer project: the session planned is the one given, the one mirrored, or none. */
  lemma PlanAgainPeer(w: World, source: Root, t: Target)
    requires PlanFor(w, source, t).Some? && Trim(t.project) != ""
    requires source.session.Some? ==> source.session.value != "" && Trim(source.session.value) == source.session.value
    ensures var r := PlanFor(w, source, t).value;
            && source.base in w.projects && t.project in w.projects[source.base].peers
            && r.root.base == w.projects[source.base].peers[t.project]
            && Trim(r.session) == r.session
            && r.session == (if Trim(t.session) != "" then Trim(t.session)
                             else if source.session.Some? then source.session.value else "")
            && r.root.session == (if r.session == "" then None else Some(r.session))
            && (Trim(t.session) != "" ==> ValidHandle(r.session))
            && w.projects[source.base].name != "" && (r.session != "" ==> SessionRoot(w, r.root.base, r.session).Some?)
  {
    hide Trim, ValidHandle, Plan;
    TrimTwice(t.session);
    TrimNothing();
    PeerPlanNeeds(w, source, t.project, Trim(t.session));
    if Trim(t.session) != "" {
      PeerSessionPlan(w, source, t.project, Trim(t.session), true);
    } else if source.session.Some? {
      PeerMirrorPlan(w, source, t.project);
    } else {
      PeerBasePlan(w, source, t.project);
    }
  }

  lemma TrimNothing()
    ensures Trim("") == ""
  {
  }

  /** A plan into another project needs both projects to have a name. */
  lemma PeerPlanNeeds(w: World, source: Root, project: string, session: string)
    requires project != "" && Plan(w, source, project, session, true).Some?
    ensures source.base in w.projects && w.projects[source.base].name != ""
    ensures project in w.projects[source.base].peers
  {
    hide ValidHandle, SessionRoot;
  }

  /** A mirrored session is not checked to be a handle. */
  lemma PeerMirrorPlan(w: World, source: Root, project: string)
    requires project != "" && source.session.Some? && source.base in w.projects && w.projects[source.base].name != ""
    ensures var p := w.projects[source.base];
            Plan(w, source, project, "", true) ==
            if project !in p.peers then None
            else Into(SessionRoot(w, p.peers[project], source.session.value), p.name, source.session.value)
  {
  }

  /** A plan into a named session of a peer. */
  lemma PeerSessionPlan(w: World, source: Root, project: string, s: string, mirror: bool)
    requires project != "" && s != "" && source.base in w.projects && w.projects[source.base].name != ""
    ensures var p := w.projects[source.base];
            Plan(w, source, project, s, mirror) ==
            if project !in p.peers || !ValidHandle(s) then None
            else Into(SessionRoot(w, p.peers[project], s), p.name, s)
  {
    hide ValidHandle;
  }

  lemma PeerBasePlan(w: World, source: Root, project: string)
    requires project != "" && source.session.None? && source.base in w.projects && w.projects[source.base].name != ""
    ensures var p := w.projects[source.base];
            Plan(w, source, project, "", true) ==
            if project !in p.peers then None else Some(Route(Root(p.peers[project], None), p.name, ""))
  {
  }

  lemma PlanAgainPeerIff(w: World, source: Root, t: Target)
    requires PlanFor(w, source, t).Some? && Trim(t.project) != ""
    requires source.session.Some? ==> source.session.value != "" && Trim(source.session.value) == source.session.value
    ensures var r := PlanFor(w, source, t).value;
            var again := PlanFor(w, source, Target(t.to, Trim(t.project), r.session));
            again.Some? && again.value.root == r.root <==>
            SameLookup(w, source, t.project) && (Mirrors(source, t) ==> ValidHandle(source.session.value))
  {
    hide Trim, ValidHandle, Plan;
    PlanAgainPeer(w, source, t);
    TrimTwice(t.project);
    var r := PlanFor(w, source, t).value;
    var q := Trim(t.project);
    if r.session != "" {
      PeerSessionPlan(w, source, q, r.session, true);
    } else {
      PeerBasePlan(w, source, q);
    }
  }

  /**
   Planning again with the planned session gives the same delivery root if and only if the project is found
   under its trimmed name and a mirrored session is a valid handle.
   */
  lemma PlanAgain(w: World, source: Root, t: Target)
    requires PlanFor(w, source, t).Some?
    requires source.session.Some? ==> source.session.value != "" && Trim(source.session.value) == source.session.value
    ensures var r := PlanFor(w, source, t).value;
            var again := PlanFor(w, source, Target(t.to, Trim(t.project), Trim(r.session)));
            again.Some? && again.value.root == r.root <==>
            SameLookup(w, source, t.project) && (Mirrors(source, t) ==> ValidHandle(source.session.value))
  {
    if Trim(t.project) == "" {
      TrimTwice(t.session);
      hide PlanFor, Trim, ValidHandle;
      PlanAgainLocal(w, source, t);
    } else {
      hide PlanFor, Trim, ValidHandle;
      PlanAgainPeer(w, source, t);
      PlanAgainPeerIff(w, source, t);
    }
  }

  /** A valid handle is never taken for an inline recipient. */
  lemma HandleIsNotInline(h: string, project: string, session: string)
    requires ValidHandle(h)
    ensures Inline(h, project, session) == Target(h, project, session)
  {
    HandleIsTight(h);
    var i := IndexOf(h, '@');
  }

  /** An inline recipient names the agent before the at sign, then the project, and a session after a colon. */
  lemma InlineReads(a: string, p: string, s: string, session: string)
    requires '@' !in a && ':' !in p
    ensures p != "" ==> Inline(a + "@" + p, "", session) == Target(a, p, session)
    ensures Inline(a + "@" + p + ":" + s, "", session) == Target(a, p, if session == "" then s else session)
  {
    hide Inline, IndexOf;
    var q := p + ":" + s;
    assert a + "@" + p + ":" + s == a + "@" + q;
    CutFound(p, s, ':');
    if p != "" { AtReads(a, p, session); }
    AtReads(a, q, session);
  }

  /** The first at sign ends the agent. */
  lemma AtReads(a: string, q: string, session: string)
    requires '@' !in a && q != ""
    ensures var j := IndexOf(q, ':');
            Inline(a + "@" + q, "", session) ==
            if j == |q| then Target(a, q, session)
            else Target(a, q[..j], if session == "" then q[j + 1..] else session)
  {
    hide IndexOf;
    CutFound(a, q, '@');
  }

  /** Anything else is a recipient as it stands: with a project given, without an at sign, or with nothing after it. */
  lemma InlineStands(raw: string, project: string, session: string)
    requires project != "" || '@' !in raw || ('@' !in raw[..|raw| - 1] && raw[|raw| - 1] == '@')
    ensures Inline(raw, project, session) == Target(raw, project, session)
  {
    var i := IndexOf(raw, '@');
    if project == "" && '@' in raw {
      assert forall j :: 0 <= j < |raw| - 1 ==> raw[..|raw| - 1][j] == raw[j];
      assert i == |raw| - 1;
    }
  }

  /**
   A route is explained exactly when sender and recipient are valid handles and the root meant is there with a mailbox
   for the recipient; the command names them, the project, and the session given or mirrored.
   */
  lemma ExplainExactly(w: World, source: Root, path: string, me: string, to: string, project: string,
      session: string, at: Root)
    ensures var e := Explain(w, source, path, me, to, project, session);
            var t := Inline(Trim(to), Trim(project), Trim(session));
            var p := if Trim(t.project) == "" then "" else t.project;
            && (e.Some? && e.value.route.root == at <==>
                && ValidHandle(Trim(me)) && ValidHandle(Trim(t.to))
                && Meant(w, source, p, Trim(t.session), true, at) && (at, Trim(t.to)) in w.boxes)
            && (e.Some? ==> e.value.target == t && Commands(e.value.argv, path, Trim(me), Trim(t.to), t.project,
                  if Trim(t.session) != "" then Trim(t.session)
                  else if p != "" && source.session.Some? then source.session.value else ""))
  {
    hide Inline, Trim, Plan, Meant, ValidHandle, Argv, Commands;
    var t := Inline(Trim(to), Trim(project), Trim(session));
    var p := if Trim(t.project) == "" then "" else t.project;
    PlanExactly(w, source, p, Trim(t.session), true, at);
    var e := Explain(w, source, path, me, to, project, session);
    if e.Some? {
      ArgvCommands(path, Trim(me), Trim(t.to), t.project, e.value.route.session);
    }
  }

  /** The argument vector is a send command with these flags. */
  predicate Commands(argv: seq<string>, path: string, me: string, to: string, project: string, session: string) {
    && |argv| >= 2 && argv[0] == "amq" && argv[1] == "send"
    && var m := Flags(argv[2..]);
       && m.Some? && Get(m.value, "--root") == path && Get(m.value, "--me") == me && Get(m.value, "--to") == to
       && Get(m.value, "--project") == project && Get(m.value, "--session") == session
  }

  lemma ArgvCommands(path: string, me: string, to: string, project: string, session: string)
    ensures Commands(Argv(path, me, to, project, session), path, me, to, project, session)
  {
    ArgvReadsBack(path, me, to, project, session);
    hide Flags, Maybe, Get;
  }

  /** Route explain is a fixpoint of planning, exactly under the conditions of `PlanAgain`. */
  lemma ExplainIsFixpoint(w: World, source: Root, path: string, me: string, to: string, project: string,
      session: string)
    requires Explain(w, source, path, me, to, project, session).Some?
    requires source.session.Some? ==> source.session.value != "" && Trim(source.session.value) == source.session.value
    ensures var e := Explain(w, source, path, me, to, project, session).value;
            Resend(w, source, path, e.argv) == Some(e.route.root) <==>
            SameLookup(w, source, e.target.project) && (Mirrors(source, e.target) ==> ValidHandle(source.session.value))
  {
    hide Flags, Argv, PlanFor, Trim, ValidHandle, Inline, SameLookup, Mirrors;
    var e := Explain(w, source, path, me, to, project, session).value;
    var h := Normal(e.target.to).value;
    HandleIsTight(h);
    ArgvReadsBack(path, Normal(me).value, h, e.target.project, e.route.session);
    HandleIsNotInline(h, Trim(e.target.project), Trim(e.route.session));
    PlanAgain(w, source, e.target);
    PlanIgnoresTo(w, source, e.target.to, h, Trim(e.target.project), Trim(e.route.session));
    hide Get, Normal;
    var m := Flags(e.argv[2..]).value;
    assert Inline(Trim(Get(m, "--to")), Trim(Get(m, "--project")), Trim(Get(m, "--session")))
           == Target(h, Trim(e.target.project), Trim(e.route.session));
  }

  lemma PlanIgnoresTo(w: World, source: Root, a: string, b: string, project: string, session: string)
    ensures PlanFor(w, source, Target(a, project, session)) == PlanFor(w, source, Target(b, project, session))
  {
    hide Trim, Plan;
  }

  lemma NoEmptyArgument(path: string, me: string, to: string, project: string, session: string)
    requires me != "" && to != ""
    ensures "" !in Argv(path, me, to, project, session) <==> path != ""
  {
    var argv := Argv(path, me, to, project, session);
    assert argv[3] == path;
    forall i | 0 <= i < |argv| && i != 3 ensures |argv[i]| > 0 { }
  }

  /** A shell that reads the display command runs the argument vector, as long as the root has a path at all. */
  lemma DisplayRunsArgv(w: World, source: Root, path: string, me: string, to: string, project: string, session: string)
    requires Explain(w, source, path, me, to, project, session).Some?
    ensures var e := Explain(w, source, path, me, to, project, session).value;
            Shell.Words(Shell.Display(e.argv)) == Some(e.argv) <==> path != ""
  {
    hide PlanFor, Inline, Trim, Argv, Shell.Words, Shell.Display;
    var e := Explain(w, source, path, me, to, project, session).value;
    assert Normal(me).value != "" && Normal(e.target.to).value != "";
    hide Normal;
    NoEmptyArgument(path, Normal(me).value, Normal(e.target.to).value, e.target.project, e.route.session);
    Shell.DisplayIsExact(e.argv);
  }
}
