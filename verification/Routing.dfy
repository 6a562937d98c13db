/**
 Where a message goes: `planDeliveryRoute` over a world of projects, sessions and
 registered peers, the reply metadata stamped on the way out, and how `reply` reads
 it on the way back.

 A root is the base root of a project or a session directly below it; each project
 is named by the .amqrc that owns its base root.
 */
module Routing {
  import opened Text
  import opened BridgeEnvelope

  /** `base` identifies a project by its base root; at the base there is no session. */
  datatype Root = Root(base: string, session: Option<string>)

  datatype Project = Project(name: string, peers: map<string, string>, sessions: set<string>)

  datatype World = World(projects: map<string, Project>, boxes: set<(Root, string)>)

  datatype Message = Message(
    id: string, from: string, to: seq<string>, thread: string, refs: seq<string>,
    replyTo: string, replyProject: string)

  // ---- planning ----

  datatype Route = Route(root: Root, sourceProject: string, session: string)

  /** `resolveSessionRoot`. */
  function SessionRoot(w: World, base: string, session: string): Option<Root> {
    if base in w.projects && session in w.projects[base].sessions then Some(Root(base, Some(session))) else None
  }

  function Into(r: Option<Root>, sourceProject: string, session: string): Option<Route> {
    if r.Some? then Some(Route(r.value, sourceProject, session)) else None
  }

  /** `planDeliveryRoute`; sends mirror the sender's session in the peer project, replies do not. */
  function Plan(w: World, source: Root, project: string, session: string, mirror: bool): Option<Route> {
    if project != "" then
      if source.base !in w.projects || w.projects[source.base].name == "" then None
      else
        var p := w.projects[source.base];
        if project !in p.peers then None
        else if session != "" then
          if !ValidHandle(session) then None else Into(SessionRoot(w, p.peers[project], session), p.name, session)
        else if mirror && source.session.Some? then
          Into(SessionRoot(w, p.peers[project], source.session.value), p.name, source.session.value)
        else Some(Route(Root(p.peers[project], None), p.name, ""))
    else if session != "" then
      if !ValidHandle(session) || source.session.None? then None
      else Into(SessionRoot(w, source.base, session), "", session)
    else Some(Route(source, "", ""))
  }

  // ---- reply metadata ----

  /** What `send` stamps, and `replyToForSource`: nothing on a local message. */
  function Stamp(me: string, source: Root, project: string, session: string): string {
    if project == "" && session == "" then ""
    else if source.session.Some? then me + "@" + source.session.value
    else if project != "" then me
    else ""
  }

  datatype Return = Return(handle: string, session: string)

  /** `normalizeHandle`. */
  function Normal(raw: string): Option<string> {
    if ValidHandle(Trim(raw)) then Some(Trim(raw)) else None
  }

  /** `parseReplyToRoute`. */
  function ParseReplyTo(raw: string, allowBase: bool): Option<Return> {
    var i := IndexOf(raw, '@');
    if !Trimmed(raw) then None
    else if i == |raw| then
      if allowBase && Normal(raw).Some? then Some(Return(Normal(raw).value, "")) else None
    else
      var handle, session := raw[..i], raw[i + 1..];
      if '@' in session || Normal(handle).None? || Normal(session).None? then None
      else Some(Return(Normal(handle).value, Normal(session).value))
  }

  lemma HandleIsTight(h: string)
    requires ValidHandle(h)
    ensures Trimmed(h) && Trim(h) == h && '@' !in h && Normal(h) == Some(h)
  {
    assert h[0] in h && h[|h| - 1] in h;
    assert HandleChar(h[0]) && HandleChar(h[|h| - 1]);
    TrimmedIsTrimSpaceTest(h);
  }

  /** Reading undoes stamping, for valid handles and sessions that are valid handles too. */
  lemma StampReadsBack(h: string, s: string, allowBase: bool)
    requires ValidHandle(h) && ValidHandle(s)
    ensures ParseReplyTo(h + "@" + s, allowBase) == Some(Return(h, s))
    ensures ParseReplyTo(h, true) == Some(Return(h, ""))
  {
    HandleIsTight(h);
    HandleIsTight(s);
    var raw := h + "@" + s;
    var i := IndexOf(raw, '@');
    assert raw[|h|] == '@';
    assert raw == raw[..i] + "@" + raw[i + 1..];
    CutUnique(raw[..i], h, raw[i + 1..], s, '@');
    assert raw[0] == h[0] && raw[|raw| - 1] == s[|s| - 1];
  }

  predicate Halves(raw: string, h: string, s: string) {
    raw == h + "@" + s && '@' !in h && '@' !in s
  }

  /**
   A handle alone, where that is allowed, or two handles around the only at sign, and no outer white space; white
   space around the at sign is let through.
   */
  ghost predicate ReadsAs(raw: string, allowBase: bool, handle: string, session: string) {
    && Trimmed(raw) && ValidHandle(handle)
    && (|| (allowBase && raw == handle && session == "")
        || (ValidHandle(session) && exists h, s :: Halves(raw, h, s) && Trim(h) == handle && Trim(s) == session))
  }

  lemma HalvesAreCut(raw: string, h: string, s: string)
    ensures var i := IndexOf(raw, '@');
            Halves(raw, h, s) <==> i < |raw| && h == raw[..i] && s == raw[i + 1..] && '@' !in s
  {
    var i := IndexOf(raw, '@');
    if i < |raw| {
      assert raw == raw[..i] + "@" + raw[i + 1..];
    }
    if Halves(raw, h, s) {
      assert raw[|h|] == '@';
      CutUnique(raw[..i], h, raw[i + 1..], s, '@');
    }
  }

  lemma ReplyToReadsExactly(raw: string, allowBase: bool, r: Return)
    ensures ParseReplyTo(raw, allowBase) == Some(r) <==> ReadsAs(raw, allowBase, r.handle, r.session)
  {
    hide ValidHandle, Halves, IndexOf, Trim, Trimmed;
    var i := IndexOf(raw, '@');
    assert Trimmed(raw) ==> Trim(raw) == raw by { TrimmedIsTrimSpaceTest(raw); }
    forall h, s
      ensures Halves(raw, h, s) <==> i < |raw| && h == raw[..i] && s == raw[i + 1..] && '@' !in s
    { HalvesAreCut(raw, h, s); }
    if i < |raw| {
      assert Halves(raw, raw[..i], raw[i + 1..]) <==> '@' !in raw[i + 1..];
      assert !ValidHandle(raw) by { if ValidHandle(raw) { HandleIsTight(raw); } }
    }
  }

  /** A session name may start with a dash, a handle may not: such a stamp cannot be read. */
  lemma DashedSessionUnreadable(h: string, s: string, allowBase: bool)
    requires ValidHandle(h) && s != "" && (forall c :: c in s ==> HandleChar(c))
    ensures ParseReplyTo(h + "@" + s, allowBase).Some? <==> s[0] != '-'
  {
    if s[0] != '-' {
      StampReadsBack(h, s, allowBase);
    } else {
      HandleIsTight(h);
      var raw := h + "@" + s;
      var i := IndexOf(raw, '@');
      assert raw[|h|] == '@';
      assert raw == raw[..i] + "@" + raw[i + 1..];
      assert '@' !in s;
      CutUnique(raw[..i], h, raw[i + 1..], s, '@');
      DashTrims(s);
    }
  }

  lemma DashTrims(s: string)
    requires s != "" && s[0] == '-' && forall c :: c in s ==> HandleChar(c)
    ensures Normal(s).None?
  {
    assert HandleChar(s[|s| - 1]);
    assert Trimmed(s);
    TrimmedIsTrimSpaceTest(s);
  }
}
