/**
 Conversations: one `send` and any number of `reply`s, each to the message before.
 The metadata stamped on each message brings the next one back to its author.
 */
module Conversation {
  import opened Text
  import opened BridgeEnvelope
  import opened Routing

  /** A message in a mailbox, and who wrote it from where. */
  datatype Delivered = Delivered(at: Root, box: string, msg: Message, from: Root, author: string)

  /** `send` to the given recipients; refuses to send to oneself unless told to. */
  function Send(w: World, source: Root, me: string, to: seq<string>, project: string, session: string,
                id: string, thread: string, refs: seq<string>, allowSelf: bool): Option<(Root, Message)> {
    var plan := Plan(w, source, project, session, true);
    if !ValidHandle(me) || to == [] || (exists h :: h in to && !ValidHandle(h)) || plan.None? then None
    else if !allowSelf && plan.value.root == source && me in to then None
    else if exists h :: h in to && (plan.value.root, h) !in w.boxes then None
    else
      Some((plan.value.root,
            Message(id, me, to, thread, refs, Stamp(me, source, project, plan.value.session),
                    plan.value.sourceProject)))
  }

  /** The recipient `reply` reads off the original: its mailbox, project and session. */
  function Addressee(me: string, m: Message): Option<(string, string, string)> {
    if m.replyProject != "" then
      var r := ParseReplyTo(m.replyTo, true);
      if Trim(m.replyProject) == "" || r.None? then None
      else Some((r.value.handle, Trim(m.replyProject), r.value.session))
    else if m.replyTo != "" then
      var r := ParseReplyTo(m.replyTo, false);
      if r.None? then None else Some((r.value.handle, "", r.value.session))
    else
      var raw := if m.from != me then m.from else if m.to != [] then m.to[0] else "";
      if ValidHandle(raw) then Some((raw, "", "")) else None
  }

  /** `reply` to a message in one's mailbox. */
  function Reply(w: World, d: Delivered, id: string): Option<Delivered> {
    var a := Addressee(d.box, d.msg);
    if a.None? then None
    else
      var (handle, project, session) := a.value;
      var plan := Plan(w, d.at, project, session, false);
      if plan.None? || (plan.value.root, handle) !in w.boxes then None
      else
        var m := Message(id, d.box, [handle], d.msg.thread, d.msg.refs + [d.msg.id],
                         Stamp(d.box, d.at, project, plan.value.session),
                         if project != "" then plan.value.sourceProject else "");
        Some(Delivered(plan.value.root, handle, m, d.at, d.box))
  }

  // ---- where messages go ----

  /** The session is there. */
  predicate SessionExists(w: World, r: Root) {
    r.base in w.projects && r.session.Some? && r.session.value in w.projects[r.base].sessions
  }

  /** The project has a name to send under and knows the peer. */
  predicate Knows(w: World, base: string, project: string) {
    base in w.projects && w.projects[base].name != "" && project in w.projects[base].peers
  }

  /**
   The root meant by a project and a session, either of which may be missing: a project gives the base, a session
   the session; without a project one stays in one's own, and without a session a message that mirrors, or that
   names nothing at all, keeps the sender's.  A session to go to must be there; across sessions, so must one's own.
   */
  predicate Meant(w: World, source: Root, project: string, session: string, mirror: bool, at: Root) {
    && (project != "" ==> Knows(w, source.base, project) && at.base == w.projects[source.base].peers[project])
    && (project == "" ==> at.base == source.base)
    && (session != "" ==> ValidHandle(session) && at.session == Some(session))
    && (session == "" ==> at.session == if project == "" || mirror then source.session else None)
    && (project == "" && session != "" ==> source.session.Some?)
    && ((project != "" || session != "") && at.session.Some? ==> SessionExists(w, at))
  }

  /** The way back: nothing on a local message, else the handle, with the session if there is one. */
  predicate WayBack(w: World, source: Root, me: string, project: string, session: string, m: Message) {
    && (project == "" ==> m.replyProject == "")
    && (project != "" ==> source.base in w.projects && m.replyProject == w.projects[source.base].name)
    && (project == "" && session == "" ==> m.replyTo == "")
    && (project != "" || session != "" ==>
        m.replyTo == if source.session.Some? then me + "@" + source.session.value else me)
  }

  lemma PlanExactly(w: World, source: Root, project: string, session: string, mirror: bool, at: Root)
    ensures var plan := Plan(w, source, project, session, mirror);
            && (plan.Some? && plan.value.root == at <==> Meant(w, source, project, session, mirror, at))
            && (plan.Some? && project != "" ==> plan.value.sourceProject == w.projects[source.base].name)
            && (plan.Some? && project == "" ==> plan.value.sourceProject == "" && plan.value.session == session)
            && (plan.Some? && project != "" ==>
                plan.value.session == if session != "" then session
                                      else if mirror && source.session.Some? then source.session.value else "")
  {
    hide ValidHandle;
  }

  /**
   A message is sent exactly when sender and recipients are valid handles, the root meant by the arguments is there
   with a mailbox for each recipient, and it is not one's own mailbox unless that was allowed; it says what was asked.
   */
  lemma SendExactly(w: World, source: Root, me: string, to: seq<string>, project: string, session: string,
                    id: string, thread: string, refs: seq<string>, allowSelf: bool, at: Root, m: Message)
    ensures Send(w, source, me, to, project, session, id, thread, refs, allowSelf) == Some((at, m)) <==>
            && ValidHandle(me) && to != [] && (forall h :: h in to ==> ValidHandle(h))
            && Meant(w, source, project, session, true, at)
            && (forall h :: h in to ==> (at, h) in w.boxes)
            && (at == source && me in to ==> allowSelf)
            && m.id == id && m.from == me && m.to == to && m.thread == thread && m.refs == refs
            && WayBack(w, source, me, project, session, m)
  {
    hide ValidHandle, Plan, Meant;
    PlanExactly(w, source, project, session, true, at);
    if Meant(w, source, project, session, true, at) {
      MeantNeeds(w, source, project, session, true, at);
    }
  }

  lemma MeantNeeds(w: World, source: Root, project: string, session: string, mirror: bool, at: Root)
    requires Meant(w, source, project, session, mirror, at)
    ensures project != "" ==> source.base in w.projects
    ensures project == "" && session != "" ==> source.session.Some?
  {
    hide ValidHandle;
  }

  /** The recipient and session a message asks replies to go to: its stamp, or without one its other end. */
  ghost predicate Addressed(me: string, m: Message, handle: string, session: string) {
    if m.replyProject != "" then Trim(m.replyProject) != "" && ReadsAs(m.replyTo, true, handle, session)
    else if m.replyTo != "" then ReadsAs(m.replyTo, false, handle, session)
    else
      && ValidHandle(handle) && session == ""
      && (m.from != me ==> handle == m.from)
      && (m.from == me ==> m.to != [] && handle == m.to[0])
  }

  lemma AddresseeExactly(me: string, m: Message, handle: string, session: string)
    ensures Addressee(me, m) == Some((handle, Trim(m.replyProject), session)) <==> Addressed(me, m, handle, session)
    ensures Addressee(me, m).Some? ==> Addressee(me, m).value.1 == Trim(m.replyProject)
  {
    hide ParseReplyTo, ReadsAs, ValidHandle;
    ReplyToReadsExactly(m.replyTo, m.replyProject != "", Return(handle, session));
    assert !ValidHandle("") by { if ValidHandle("") { HandleNonEmpty(""); } }
  }

  /**
   A reply goes out exactly when the message names someone to answer, with a mailbox at the root meant; it is sent
   to them alone, in the thread of the message and referring to it.
   */
  lemma ReplyExactly(w: World, d: Delivered, id: string, r: Delivered)
    ensures Reply(w, d, id) == Some(r) <==>
            && (exists session :: Addressed(d.box, d.msg, r.box, session)
                    && Meant(w, d.at, Trim(d.msg.replyProject), session, false, r.at)
                    && WayBack(w, d.at, d.box, Trim(d.msg.replyProject), session, r.msg))
            && (r.at, r.box) in w.boxes && r.from == d.at && r.author == d.box
            && r.msg.id == id && r.msg.from == d.box && r.msg.to == [r.box] && r.msg.thread == d.msg.thread
            && r.msg.refs == d.msg.refs + [d.msg.id]
  {
    hide Addressee, Addressed, Plan, Meant, Trim, WayBack, Stamp;
    var project := Trim(d.msg.replyProject);
    forall session
      ensures Addressee(d.box, d.msg) == Some((r.box, project, session)) <==> Addressed(d.box, d.msg, r.box, session)
    { AddresseeExactly(d.box, d.msg, r.box, session); }
    assert Addressee(d.box, d.msg).Some? ==> Addressee(d.box, d.msg).value.1 == project by {
      AddresseeExactly(d.box, d.msg, r.box, "");
    }
    forall session
      ensures var plan := Plan(w, d.at, project, session, false);
              && (plan.Some? && plan.value.root == r.at <==> Meant(w, d.at, project, session, false, r.at))
              && (plan.Some? && plan.value.root == r.at ==>
                  (WayBack(w, d.at, d.box, project, session, r.msg) <==>
                   && r.msg.replyTo == Stamp(d.box, d.at, project, plan.value.session)
                   && r.msg.replyProject == if project != "" then plan.value.sourceProject else ""))
    { ReplyStamp(w, d, project, session, r); }
  }

  lemma ReplyStamp(w: World, d: Delivered, project: string, session: string, r: Delivered)
    ensures var plan := Plan(w, d.at, project, session, false);
            && (plan.Some? && plan.value.root == r.at <==> Meant(w, d.at, project, session, false, r.at))
            && (plan.Some? && plan.value.root == r.at ==>
                (WayBack(w, d.at, d.box, project, session, r.msg) <==>
                 && r.msg.replyTo == Stamp(d.box, d.at, project, plan.value.session)
                 && r.msg.replyProject == if project != "" then plan.value.sourceProject else ""))
  {
    hide Plan, Meant;
    PlanExactly(w, d.at, project, session, false, r.at);
    if Meant(w, d.at, project, session, false, r.at) {
      MeantNeeds(w, d.at, project, session, false, r.at);
    }
  }

  // ---- what makes a message answerable ----

  predicate SessionOk(w: World, r: Root) {
    && r.base in w.projects
    && (r.session.Some? ==> ValidHandle(r.session.value) && r.session.value in w.projects[r.base].sessions)
  }

  /** Each project knows the other under the name the other goes by. */
  predicate Mutual(w: World, p: string, q: string) {
    && p in w.projects && q in w.projects
    && Trimmed(w.projects[p].name) && Trimmed(w.projects[q].name)
    && w.projects[q].name in w.projects[p].peers && w.projects[p].peers[w.projects[q].name] == q
    && w.projects[p].name in w.projects[q].peers && w.projects[q].peers[w.projects[p].name] == p
  }

  /** Both ends exist, and the metadata is that of a local, a cross-session or a cross-project message. */
  predicate Linked(w: World, d: Delivered) {
    && ValidHandle(d.author) && ValidHandle(d.box) && d.msg.from == d.author
    && (d.at, d.box) in w.boxes && (d.from, d.author) in w.boxes
    && SessionOk(w, d.at) && SessionOk(w, d.from)
    && (|| (d.msg.replyProject == "" && d.msg.replyTo == "" && d.at == d.from && d.author != d.box)
        || (&& d.msg.replyProject == "" && d.at.base == d.from.base && d.at.session.Some? && d.from.session.Some?
            && d.msg.replyTo == d.author + "@" + d.from.session.value)
        || (&& Mutual(w, d.at.base, d.from.base) && d.msg.replyProject == w.projects[d.from.base].name
            && d.msg.replyTo == Stamp(d.author, d.from, d.msg.replyProject, "")))
  }

  lemma LocalReply(w: World, d: Delivered, id: string)
    requires Linked(w, d) && d.msg.replyProject == "" && d.msg.replyTo == ""
    ensures Reply(w, d, id).Some? && Returns(d, Reply(w, d, id).value, id) && Linked(w, Reply(w, d, id).value)
  {
    assert d.at == d.from && d.author != d.box;
  }

  lemma SessionReply(w: World, d: Delivered, id: string)
    requires Linked(w, d) && d.msg.replyProject == "" && d.msg.replyTo != ""
    ensures Reply(w, d, id).Some? && Returns(d, Reply(w, d, id).value, id) && Linked(w, Reply(w, d, id).value)
  {
    hide ValidHandle, ParseReplyTo, Trim, Mutual;
    assert d.from.session.Some?;
    var s := d.from.session.value;
    StampReadsBack(d.author, s, false);
    assert Addressee(d.box, d.msg) == Some((d.author, "", s));
    assert s != "" by { HandleNonEmpty(s); }
    assert Plan(w, d.at, "", s, false) == Some(Route(d.from, "", s));
  }

  lemma ProjectReply(w: World, d: Delivered, id: string)
    requires Linked(w, d) && d.msg.replyProject != ""
    ensures Reply(w, d, id).Some? && Returns(d, Reply(w, d, id).value, id) && Linked(w, Reply(w, d, id).value)
  {
    var name := w.projects[d.from.base].name;
    assert Mutual(w, d.at.base, d.from.base);
    TrimmedIsTrimSpaceTest(name);
    StampReadsBack(d.author, if d.from.session.Some? then d.from.session.value else d.author, true);
    hide ValidHandle, ParseReplyTo, Trim, Trimmed;
    var s := if d.from.session.Some? then d.from.session.value else "";
    assert d.from.session.Some? ==> s != "" by { if d.from.session.Some? { HandleNonEmpty(s); } }
    assert Addressee(d.box, d.msg) == Some((d.author, name, s));
    assert Plan(w, d.at, name, s, false) == Some(Route(d.from, w.projects[d.at.base].name, s));
    assert Mutual(w, d.from.base, d.at.base);
  }

  lemma HandleNonEmpty(h: string)
    requires ValidHandle(h)
    ensures h != ""
  {
  }

  /** The reply is in the mailbox of the author it answers, in its thread, with one more reference. */
  predicate Returns(d: Delivered, r: Delivered, id: string) {
    && r.at == d.from && r.box == d.author && r.from == d.at && r.author == d.box
    && r.msg.id == id && r.msg.thread == d.msg.thread && r.msg.refs == d.msg.refs + [d.msg.id]
  }

  /** A reply to an answerable message arrives at its author and is answerable in turn. */
  lemma ReplyComesHome(w: World, d: Delivered, id: string)
    requires Linked(w, d)
    ensures Reply(w, d, id).Some? && Returns(d, Reply(w, d, id).value, id) && Linked(w, Reply(w, d, id).value)
  {
    hide Linked, Reply, Returns;
    if d.msg.replyProject != "" {
      ProjectReply(w, d, id);
    } else if d.msg.replyTo != "" {
      SessionReply(w, d, id);
    } else {
      LocalReply(w, d, id);
    }
  }

  /** What `send` delivers is answerable. */
  lemma SendIsAnswerable(w: World, source: Root, me: string, to: seq<string>, project: string, session: string,
                         id: string, thread: string, refs: seq<string>, allowSelf: bool, h: string)
    requires Send(w, source, me, to, project, session, id, thread, refs, allowSelf).Some? && h in to
    requires (source, me) in w.boxes && SessionOk(w, source)
    requires SessionOk(w, Send(w, source, me, to, project, session, id, thread, refs, allowSelf).value.0)
    requires project != "" ==> Mutual(w, source.base, w.projects[source.base].peers[project])
    requires project == "" && session == "" ==> h != me
    ensures var (at, msg) := Send(w, source, me, to, project, session, id, thread, refs, allowSelf).value;
            Linked(w, Delivered(at, h, msg, source, me)) && msg.thread == thread && msg.refs == refs && msg.id == id
  {
    hide ValidHandle;
  }

  /** A conversation: every message answers the one before. */
  function Talk(w: World, d: Delivered, ids: seq<string>): Option<seq<Delivered>>
    decreases ids
  {
    if ids == [] then Some([d])
    else
      var r := Reply(w, d, ids[0]);
      if r.None? then None
      else
        var rest := Talk(w, r.value, ids[1..]);
        if rest.None? then None else Some([d] + rest.value)
  }

  /**
   Each message is in the mailbox of the author of the one before it, in one thread, and refers to all its
   ancestors.
   */
  ghost predicate Converses(d: Delivered, ids: seq<string>, ds: seq<Delivered>) {
    && |ds| == |ids| + 1 && ds[0] == d
    && (forall i :: 0 <= i < |ids| ==> ds[i + 1].at == ds[i].from && ds[i + 1].box == ds[i].author)
    && (forall i :: 0 <= i < |ids| ==> ds[i + 1].from == ds[i].at && ds[i + 1].author == ds[i].box)
    && (forall i :: 0 <= i < |ids| ==> ds[i + 1].msg.id == ids[i])
    && (forall i :: 0 <= i <= |ids| ==> ds[i].msg.thread == d.msg.thread)
    && (forall i :: 0 <= i < |ids| ==> ds[i + 1].msg.refs == d.msg.refs + [d.msg.id] + ids[..i])
  }

  lemma ConversesCons(d: Delivered, r: Delivered, ids: seq<string>, rest: seq<Delivered>)
    requires ids != [] && Returns(d, r, ids[0]) && Converses(r, ids[1..], rest)
    ensures Converses(d, ids, [d] + rest)
  {
    var ds := [d] + rest;
    forall i | 0 <= i < |ids| ensures ds[i + 1].msg.refs == d.msg.refs + [d.msg.id] + ids[..i] {
      if i > 0 {
        assert ids[..i] == [ids[0]] + ids[1..][..i - 1];
        assert ds[i + 1] == rest[i - 1 + 1];
        assert rest[i].msg.refs == r.msg.refs + [r.msg.id] + ids[1..][..i - 1];
      }
    }
    forall i | 0 <= i < |ids|
      ensures ds[i + 1].at == ds[i].from && ds[i + 1].box == ds[i].author && ds[i + 1].from == ds[i].at
              && ds[i + 1].author == ds[i].box && ds[i + 1].msg.id == ids[i]
    {
      if i > 0 {
        var j := i - 1;
        assert ds[i + 1] == rest[j + 1] && ds[i] == rest[j] && ids[i] == ids[1..][j];
      }
    }
  }

  /** Conversations of any length stay between their two mailboxes and keep their thread and history. */
  lemma {:induction false} ConversationHolds(w: World, d: Delivered, ids: seq<string>)
    requires Linked(w, d)
    ensures Talk(w, d, ids).Some? && Converses(d, ids, Talk(w, d, ids).value)
    decreases ids
  {
    hide Linked, Reply, Returns;
    if ids != [] {
      ReplyComesHome(w, d, ids[0]);
      var r := Reply(w, d, ids[0]).value;
      ConversationHolds(w, r, ids[1..]);
      ConversesCons(d, r, ids, Talk(w, r, ids[1..]).value);
    }
  }

  /** A local message to oneself is answered to its first recipient: its author only if it names the author first. */
  lemma SelfReply(w: World, d: Delivered, id: string)
    requires d.msg.replyProject == "" && d.msg.replyTo == "" && d.msg.from == d.box == d.author && d.at == d.from
    requires ValidHandle(d.box) && (d.at, d.box) in w.boxes
    ensures (Reply(w, d, id).Some? && Reply(w, d, id).value.box == d.author) <==> d.msg.to != [] && d.msg.to[0] == d.box
  {
  }

  /**
   A message sent across sessions is answered exactly when the sender's session name is a valid handle;
   session names may start with a dash, handles may not.
   */
  lemma AnswerableIffSessionIsHandle(w: World, d: Delivered, id: string)
    requires ValidHandle(d.author) && d.at.base == d.from.base && d.at.session.Some? && d.from.session.Some?
    requires d.msg.replyProject == "" && d.msg.replyTo == d.author + "@" + d.from.session.value
    requires d.from.session.value != "" && forall c :: c in d.from.session.value ==> HandleChar(c)
    requires d.from.base in w.projects && d.from.session.value in w.projects[d.from.base].sessions
        && (d.from, d.author) in w.boxes
    ensures Reply(w, d, id).Some? && Reply(w, d, id).value.at == d.from && Reply(w, d, id).value.box == d.author
            <==> ValidHandle(d.from.session.value)
  {
    hide ParseReplyTo, Trim, Trimmed, Reply, Addressee, Plan;
    var s := d.from.session.value;
    assert ValidHandle(s) <==> s[0] != '-';
    DashedSessionUnreadable(d.author, s, false);
    if s[0] != '-' {
      StampReadsBack(d.author, s, false);
    }
    hide ValidHandle;
    SessionAnswer(w, d, id);
  }

  /** Across sessions a reply arrives exactly when its stamp can be read as the author's. */
  lemma SessionAnswer(w: World, d: Delivered, id: string)
    requires d.at.base == d.from.base && d.at.session.Some? && d.from.session.Some? && d.from.session.value != ""
    requires d.msg.replyProject == "" && d.msg.replyTo == d.author + "@" + d.from.session.value
    requires d.from.base in w.projects && d.from.session.value in w.projects[d.from.base].sessions
        && (d.from, d.author) in w.boxes
    requires ParseReplyTo(d.msg.replyTo, false).Some? ==>
               && ParseReplyTo(d.msg.replyTo, false) == Some(Return(d.author, d.from.session.value))
               && ValidHandle(d.from.session.value)
    ensures Reply(w, d, id).Some? && Reply(w, d, id).value.at == d.from && Reply(w, d, id).value.box == d.author
            <==> ParseReplyTo(d.msg.replyTo, false).Some?
  {
    hide ParseReplyTo, Trim, Trimmed, Stamp, ValidHandle;
    assert |d.msg.replyTo| > 0;
  }
}
