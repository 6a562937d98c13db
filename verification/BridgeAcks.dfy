/**
 Runs of both hosts that end with an acknowledgement: one in which everything goes well,
 so that the theorems about acknowledged transfers speak of something, and one that ends
 without the destination receipt.
 */
module BridgeAcks {
  import opened Text
  import opened BridgeEnvelope
  import opened BridgeSource
  import opened BridgeRetry
  import opened BridgeRead
  import opened BridgeRuns
  import opened BridgeLimits
  import opened BridgeSystem
  import opened BridgePoll
  import opened BridgeEndToEnd
  import Runs

  // ---- the destination on one transfer ----

  /** Nothing is stored under the names of the transfer, which is authentic. */
  ghost predicate Fresh(w: Setting, s: System, env: Envelope) {
    && s.dst.phase.Waiting? && Authentic(w, s, env)
    && FileOf(env) !in s.dst.inbox.live && DestReceiptName(env) !in s.dst.receipts.live
  }

  /** Verified and published; the inbox is synced. */
  function AfterApply(d: Dest, env: Envelope): Dest {
    d.(inbox := Both(d.inbox.live[FileOf(env) := env.payload]),
       published := d.published + {(FileOf(env), env.payload)}, committed := d.committed + {env}, phase := Applied(env))
  }

  const APPLYING := [AtDest(ApplyEnvelope)]

  lemma Applies(w: Setting, s: System, env: Envelope)
    requires s.dst.phase.Waiting? && Authentic(w, s, env) && InboxAllows(s.dst.inbox.live, env)
    ensures Leads(w, s, [AtDest(Poll(env))] + APPLYING, s.(dst := AfterApply(s.dst, env)))
  {
    hide Leads, SignedBy, FileOf, CanonicalBytes;
    Authenticated(w, s, env);
    var s1 := s.(dst := s.dst.(phase := Verified(env)));
    Stepped(w, s1, ApplyEnvelope);
    LeadsOn(w, s, [AtDest(Poll(env))], s1, APPLYING, s.(dst := AfterApply(s.dst, env)));
  }

  function AfterAck(d: Dest, env: Envelope): Dest {
    AfterApply(d, env).(receipts := Both(d.receipts.live[DestReceiptName(env) := NewDestReceipt(env)]),
                        acked := d.acked + {env}, phase := Waiting)
  }

  function Acknowledging(env: Envelope): seq<SysEvent> {
    [AtDest(Poll(env))] + APPLYING + [AtDest(WriteDestReceipt)] + [AtDest(Ack)]
  }

  /** Four steps acknowledge a transfer, and its receipt is on disk. */
  lemma Acknowledges(w: Setting, s: System, env: Envelope)
    requires Fresh(w, s, env)
    ensures Leads(w, s, Acknowledging(env), s.(dst := AfterAck(s.dst, env)))
  {
    hide Leads, SignedBy, FileOf, DestReceiptName, CanonicalBytes, HasDestReceipt;
    Applies(w, s, env);
    var s1 := s.(dst := AfterApply(s.dst, env));
    Stepped(w, s1, WriteDestReceipt);
    var s2 := s1.(dst := DestApply(s1.dst, WriteDestReceipt));
    Stepped(w, s2, Ack);
    LeadsOn(w, s, [AtDest(Poll(env))] + APPLYING, s1, [AtDest(WriteDestReceipt)], s2);
    LeadsOn(w, s, [AtDest(Poll(env))] + APPLYING + [AtDest(WriteDestReceipt)], s2, [AtDest(Ack)],
            s.(dst := AfterAck(s.dst, env)));
  }

  /** What another host has signed counts as much as what the source host signs. */
  lemma ForeignIsAcked(w: Setting, env: Envelope)
    requires w.policy(env) && env.sourceHost != w.sourceHost
    ensures var events := [Sign(env.sourceHost, CanonicalBytes(env))] + Acknowledging(env);
            env in Runs.Run(SysStepper(w), Start(), events).dst.acked
  {
    hide FileOf, DestReceiptName, CanonicalBytes;
    var sign := Sign(env.sourceHost, CanonicalBytes(env));
    var s := Advance(w, Start(), sign);
    assert Fresh(w, s, env);
    Acknowledges(w, s, env);
    assert ([sign] + Acknowledging(env))[1..] == Acknowledging(env);
    hide Advance, Fresh;
    assert Runs.Run(SysStepper(w), Start(), [sign] + Acknowledging(env))
        == Runs.Run(SysStepper(w), s, Acknowledging(env));
  }

  // ---- and without a sync of its receipt ----

  /** Applied, the receipt written but not synced; the courier starts over. */
  function LeftUnrecorded(d: Dest, env: Envelope): Dest {
    AfterApply(d, env).(receipts := Put(d.receipts, DestReceiptName(env), NewDestReceipt(env)), phase := Waiting)
  }

  lemma LeavesUnsynced(w: Setting, s: System, env: Envelope)
    requires Fresh(w, s, env)
    ensures Leads(w, s, [AtDest(Poll(env))] + APPLYING + [AtDest(WriteDestUnsynced)],
                  s.(dst := LeftUnrecorded(s.dst, env)))
  {
    hide Leads, SignedBy, FileOf, DestReceiptName, CanonicalBytes, HasDestReceipt;
    Applies(w, s, env);
    var s1 := s.(dst := AfterApply(s.dst, env));
    Stepped(w, s1, WriteDestUnsynced);
    LeadsOn(w, s, [AtDest(Poll(env))] + APPLYING, s1, [AtDest(WriteDestUnsynced)],
            s.(dst := LeftUnrecorded(s.dst, env)));
  }

  /** The second attempt finds the receipt and trusts it. */
  lemma TrustsLeftover(w: Setting, s: System, env: Envelope)
    requires s.dst.phase.Waiting? && Authentic(w, s, env) && InboxAllows(s.dst.inbox.live, env)
    requires Lookup(s.dst.receipts.live, DestReceiptName(env)) == Some(NewDestReceipt(env))
    ensures Leads(w, s, Acknowledging(env),
                  s.(dst := AfterApply(s.dst, env).(acked := s.dst.acked + {env}, phase := Waiting)))
  {
    hide Leads, SignedBy, FileOf, ReceiptFilename, CanonicalBytes;
    Applies(w, s, env);
    var s1 := s.(dst := AfterApply(s.dst, env));
    assert EqualFold(env.payloadSha, env.payloadSha);
    hide EqualFold;
    Stepped(w, s1, WriteDestReceipt);
    var s2 := s1.(dst := s1.dst.(phase := Recorded(env)));
    Stepped(w, s2, Ack);
    LeadsOn(w, s, [AtDest(Poll(env))] + APPLYING, s1, [AtDest(WriteDestReceipt)], s2);
    LeadsOn(w, s, [AtDest(Poll(env))] + APPLYING + [AtDest(WriteDestReceipt)], s2, [AtDest(Ack)],
            s.(dst := AfterApply(s.dst, env).(acked := s.dst.acked + {env}, phase := Waiting)));
  }

  /**
   From any state: a receipt whose sync failed is trusted by the next poll, the transfer acknowledged, and a power
   failure then leaves it acknowledged without a receipt.
   */
  lemma TrustLosesReceipt(w: Setting, s: System, env: Envelope) returns (events: seq<SysEvent>)
    requires Fresh(w, s, env) && DestReceiptName(env) !in s.dst.receipts.synced
    ensures var t := Runs.Run(SysStepper(w), s, events);
            t.src == s.src && env in t.dst.acked && DestReceiptName(env) !in t.dst.receipts.live
  {
    hide SignedBy, FileOf, ReceiptFilename, CanonicalBytes, Runs.Run, SysStepper;
    var a := [AtDest(Poll(env))] + APPLYING + [AtDest(WriteDestUnsynced)];
    LeavesUnsynced(w, s, env);
    var s1 := s.(dst := LeftUnrecorded(s.dst, env));
    assert Authentic(w, s1, env) by { SameSignatures(w, s, s1, env); }
    TrustsLeftover(w, s1, env);
    var s2 := s1.(dst := AfterApply(s1.dst, env).(acked := s1.dst.acked + {env}, phase := Waiting));
    LeadsOn(w, s, a, s1, Acknowledging(env), s2);
    var d := DestPowerLoss(s2.dst.inbox.live, s2.dst.receipts.live - {DestReceiptName(env)});
    Stepped(w, s2, d);
    LeadsOn(w, s, a + Acknowledging(env), s2, [AtDest(d)], s2.(dst := DestApply(s2.dst, d)));
    events := a + Acknowledging(env) + [AtDest(d)];
  }

  // ---- from the sender to the acknowledgement ----

  predicate Deliverable(w: Setting, c: Call, i: Item) {
    && Sendable(w.push, c, i) && i.sidecar == Some(LabelLine(c.alias))
    && w.policy(i.env) && i.env.sourceHost == w.sourceHost
  }

  /** The message of call 0 pushed, and nothing yet at the destination. */
  function Underway(c: Call, i: Item): System {
    Start().(src := TakenWhole(c, i))
  }

  lemma SentAway(w: Setting, c: Call, i: Item)
    requires Deliverable(w, c, i)
    ensures Leads(w, Start(), AtSourceAll(Sending(c, i)), Underway(c, i)) && Fresh(w, Underway(c, i), i.env)
  {
    hide IsMessageName, LabelLine, CanonicalBytes, ReceiptName;
    var push := Whole(w.push, c, i);
    SourceAlone(w, Start(), push);
    assert i in TakenWhole(c, i).seen;
  }

  /** A receipt of the destination that was never synced is lost after the acknowledgement. */
  lemma TrustedReceiptIsLost(w: Setting, c: Call, i: Item) returns (events: seq<SysEvent>)
    requires Deliverable(w, c, i)
    ensures var s := Runs.Run(SysStepper(w), Start(), events);
            && 0 in s.src.enqueued && s.src.calls == map[0 := c]
            && i.env in s.dst.acked && DestReceiptName(i.env) !in s.dst.receipts.live
  {
    hide Deliverable, Fresh, ReceiptFilename, LabelLine, SysStepper, Runs.Run;
    SentAway(w, c, i);
    var more := TrustLosesReceipt(w, Underway(c, i), i.env);
    LeadsOn(w, Start(), AtSourceAll(Sending(c, i)), Underway(c, i), more,
            Runs.Run(SysStepper(w), Underway(c, i), more));
    events := AtSourceAll(Sending(c, i)) + more;
  }

  ghost function WholeWay(c: Call, i: Item): seq<SysEvent> {
    AtSourceAll(Sending(c, i)) + Acknowledging(i.env)
  }

  lemma Arrives(w: Setting, c: Call, i: Item)
    requires Deliverable(w, c, i)
    ensures Leads(w, Start(), WholeWay(c, i), Underway(c, i).(dst := AfterAck(Start().dst, i.env)))
  {
    hide Deliverable, Fresh, Leads, LabelLine;
    SentAway(w, c, i);
    Acknowledges(w, Underway(c, i), i.env);
    LeadsOn(w, Start(), AtSourceAll(Sending(c, i)), Underway(c, i), Acknowledging(i.env),
            Underway(c, i).(dst := AfterAck(Start().dst, i.env)));
  }

  // ---- that run is orderly ----

  /** Neither a new call, nor a power failure, nor a read. */
  predicate Calm(e: Event) {
    !(e.Enqueue? && e.call.Open?) && !e.PowerLoss? && e != Scan(ReadData)
  }

  lemma {:induction false} CalmIsOrderly(p: Params, s: Source, events: seq<Event>, f: nat)
    requires forall e :: e in events ==> Calm(e)
    ensures Runs.Allowed(Stepper(p), ORDERLY(f), s, events)
    decreases events
  {
    hide Apply;
    if events != [] {
      assert events[0] in events && forall e :: e in events[1..] ==> e in events;
      CalmIsOrderly(p, Apply(p, s, events[0]), events[1..], f);
    }
  }

  /** The events after the creation of the file, up to the listing of the spool. */
  function BeforeRead(c: Call): seq<Event> {
    [Enqueue(0, Write(|c.data|))] + [Enqueue(0, SyncFile)] + Labelling(0, c) + [Scan(List([c.name]))]
  }

  function AfterRead(i: Item): seq<Event> {
    [Scan(ReadLabel)] + [Scan(Take)] + ([Posting(i)] + [Push(WriteReceipt)] + MOVING)
  }

  lemma SendingInParts(c: Call, i: Item)
    requires i.name == c.name
    ensures Sending(c, i) == [Enqueue(0, Open(c.name, c.data, c.alias))] + BeforeRead(c)
                             + ([Scan(ReadData)] + AfterRead(i))
    ensures Publishing(0, c) + Labelling(0, c) + [Scan(List([c.name]))]
            == [Enqueue(0, Open(c.name, c.data, c.alias))] + BeforeRead(c)
  {
    hide LabelLine;
  }

  lemma SendingIsOrderly(p: Params, c: Call, i: Item)
    requires Sendable(p, c, i)
    ensures Runs.Allowed(Stepper(p), ORDERLY(0), Init(), Sending(c, i))
  {
    hide LabelLine, Apply, IsMessageName, Reaches;
    var open, list := Enqueue(0, Open(c.name, c.data, c.alias)), Scan(List([c.name]));
    SendingInParts(c, i);
    CalmIsOrderly(p, Apply(p, Init(), open), BeforeRead(c), 0);
    var enqueue := Enqueues(p, c);
    Then(p, Init(), enqueue, Spooled(c), list);
    var s := Apply(p, Spooled(c), list);
    ListKeeps(p, Spooled(c), [c.name]);
    OpenIsOrderly(p, open, BeforeRead(c));
    CalmIsOrderly(p, Apply(p, s, Scan(ReadData)), AfterRead(i), 0);
    ReadIsOrderly(p, s, AfterRead(i));
    ReachesMeans(p, Init(), enqueue + [list], s);
    Runs.AllowedAppend(Stepper(p), ORDERLY(0), Init(), [open] + BeforeRead(c), [Scan(ReadData)] + AfterRead(i));
  }

  lemma ReachesMeans(p: Params, s: Source, events: seq<Event>, t: Source)
    requires Reaches(p, s, events, t)
    ensures t == Runs.Run(Stepper(p), s, events)
  {
  }

  lemma ListKeeps(p: Params, s: Source, names: seq<string>)
    ensures Apply(p, s, Scan(List(names))).enqueued == s.enqueued
  {
    hide ScanApply;
  }

  lemma OpenIsOrderly(p: Params, e: Event, rest: seq<Event>)
    requires e.Enqueue? && Runs.Allowed(Stepper(p), ORDERLY(0), Apply(p, Init(), e), rest)
    ensures Runs.Allowed(Stepper(p), ORDERLY(0), Init(), [e] + rest)
  {
    hide Apply;
    assert ([e] + rest)[0] == e && ([e] + rest)[1..] == rest;
  }

  lemma ReadIsOrderly(p: Params, s: Source, rest: seq<Event>)
    requires 0 in s.enqueued && Runs.Allowed(Stepper(p), ORDERLY(0), Apply(p, s, Scan(ReadData)), rest)
    ensures Runs.Allowed(Stepper(p), ORDERLY(0), s, [Scan(ReadData)] + rest)
  {
    hide Apply;
    assert ([Scan(ReadData)] + rest)[0] == Scan(ReadData) && ([Scan(ReadData)] + rest)[1..] == rest;
  }

  lemma SourceFirst(e: SysEvent, rest: seq<SysEvent>)
    ensures SourceEvents([e] + rest) == (if e.AtSource? then [e.e] else []) + SourceEvents(rest)
  {
    assert ([e] + rest)[0] == e && ([e] + rest)[1..] == rest;
    assert [] + SourceEvents(rest) == SourceEvents(rest);
  }

  lemma AtSourceFirst(a: seq<Event>, b: seq<SysEvent>)
    ensures AtSourceAll(a) + b == if a == [] then b else [AtSource(a[0])] + (AtSourceAll(a[1..]) + b)
  {
  }

  lemma {:induction false} SourceEventsOf(a: seq<Event>, b: seq<SysEvent>)
    ensures SourceEvents(AtSourceAll(a) + b) == a + SourceEvents(b)
    decreases a
  {
    hide SourceEvents, AtSourceAll;
    AtSourceFirst(a, b);
    var tail := SourceEvents(b);
    if a == [] {
      assert [] + tail == tail;
    } else {
      SourceFirst(AtSource(a[0]), AtSourceAll(a[1..]) + b);
      SourceEventsOf(a[1..], b);
      assert a == [a[0]] + a[1..];
      Associates([a[0]], a[1..], tail);
    }
  }

  lemma Associates(a: seq<Event>, b: seq<Event>, c: seq<Event>)
    ensures a + (b + c) == a + b + c
  {
  }

  lemma OnlySending(c: Call, i: Item)
    ensures SourceEvents(WholeWay(c, i)) == Sending(c, i)
  {
    hide Sending;
    SourceEventsOf(Sending(c, i), Acknowledging(i.env));
    var ack := [AtDest(Ack)] + [];
    var record := [AtDest(WriteDestReceipt)] + ack;
    var apply := [AtDest(ApplyEnvelope)] + record;
    assert Acknowledging(i.env) == [AtDest(Poll(i.env))] + apply;
    SourceFirst(AtDest(Ack), []);
    SourceFirst(AtDest(WriteDestReceipt), ack);
    SourceFirst(AtDest(ApplyEnvelope), record);
    SourceFirst(AtDest(Poll(i.env)), apply);
    assert Sending(c, i) + [] == Sending(c, i);
  }

  // ---- configured hosts ----

  /** The destination receives for this alias, and lets in what the source host signs with its key generation. */
  ghost predicate Serves(cfg: Config, d: DestConfig, alias: string) {
    && d.sha == cfg.sha && alias == d.receiveAlias && alias in d.allowedDest
    && cfg.sourceHost in d.allowedSource && Lookup(d.trusted, cfg.sourceHost) == Some(cfg.keyGeneration)
  }

  lemma SendableMeans(cfg: Config, c: Call, i: Item)
    requires Sendable(ParamsOf(cfg), c, i)
    ensures Accepts(cfg, c.name, c.data, c.alias) && Read(cfg, c.name, c.data, i.sidecar) == Some(i.env)
  {
    hide Read, Accepts, IsMessageName;
  }

  /** What the courier made of an enqueued message is let in by a destination that serves its alias. */
  lemma OwnIsLetIn(cfg: Config, d: DestConfig, c: Call, e: Envelope)
    requires Accepts(cfg, c.name, c.data, c.alias) && Serves(cfg, d, c.alias)
    requires Read(cfg, c.name, c.data, Some(LabelLine(c.alias))) == Some(e)
    ensures Policy(d, e) && e.sourceHost == cfg.sourceHost
  {
    OwnEnvelope(cfg, c.name, c.data, c.alias, e);
    hide Accepts, Read, ValidEnvelope, CanonicalBytes, IsSignatureText, LabelLine, ParseAlias;
  }

  lemma IsDeliverable(cfg: Config, d: DestConfig, c: Call, i: Item)
    requires Sendable(ParamsOf(cfg), c, i) && i.sidecar == Some(LabelLine(c.alias)) && Serves(cfg, d, c.alias)
    ensures Deliverable(SettingOf(cfg, d), c, i)
  {
    hide Sendable, Policy, LabelLine, ParamsOf, Accepts, Read, Serves;
    SendableMeans(cfg, c, i);
    OwnIsLetIn(cfg, d, c, i.env);
  }

  lemma RunEnds(cfg: Config, d: DestConfig, c: Call, i: Item)
    requires Deliverable(SettingOf(cfg, d), c, i)
    ensures RunOf(cfg, d, WholeWay(c, i)) == Underway(c, i).(dst := AfterAck(Start().dst, i.env))
  {
    hide Deliverable, WholeWay, Underway, AfterAck;
    Arrives(SettingOf(cfg, d), c, i);
  }

  lemma EndState(c: Call, i: Item)
    ensures var s := Underway(c, i).(dst := AfterAck(Start().dst, i.env));
            && s.dst.acked == {i.env} && s.src.seen == {i} && s.src.enqueued == {0} && s.src.calls == map[0 := c]
  {
    hide FileOf, DestReceiptName, ReceiptName, LabelLine, NewDestReceipt, GoodReceipt;
    assert {} + {i.env} == {i.env};
  }

  lemma DeliverableIsSent(w: Setting, c: Call, i: Item)
    requires Deliverable(w, c, i)
    ensures i.env.sourceHost == w.sourceHost
  {
  }

  /**
   Every message the courier can send is acknowledged by a destination that serves its alias, in a run that is
   orderly all the way.
   */
  lemma AckReached(cfg: Config, d: DestConfig, c: Call, i: Item)
    requires Sendable(ParamsOf(cfg), c, i) && i.sidecar == Some(LabelLine(c.alias)) && Serves(cfg, d, c.alias)
    requires LineSafe(i.env)
    ensures var s := RunOf(cfg, d, WholeWay(c, i));
            && Acknowledged(cfg, d, s, i.env) && 0 in s.src.enqueued
            && forall g :: SignedFor(s.src, g, i.env) ==>
                 Runs.Allowed(Stepper(ParamsOf(cfg)), ORDERLY(g), Init(), SourceEvents(WholeWay(c, i)))
  {
    hide RunOf, WholeWay, LineSafe, Stepper, Runs.Allowed, Sending, Deliverable, Sendable, Underway, AfterAck, ParamsOf,
         CanonicalBytes, SourceEvents, PolicyOf;
    IsDeliverable(cfg, d, c, i);
    DeliverableIsSent(SettingOf(cfg, d), c, i);
    RunEnds(cfg, d, c, i);
    EndState(c, i);
    OnlySending(c, i);
    SendingIsOrderly(ParamsOf(cfg), c, i);
  }

  // ---- a configuration in which all this happens ----

  /** Names for everything an envelope names, all free to differ. */
  datatype Names = Names(
    host: string, handle: string, destHost: string, destAgent: string, id: string, thread: string, key: string)

  predicate AllHandles(n: Names) {
    && ValidHandle(n.host) && ValidHandle(n.handle) && ValidHandle(n.destHost) && ValidHandle(n.destAgent)
    && ValidHandle(n.id) && ValidHandle(n.thread) && ValidHandle(n.key)
  }

  function AliasOf(n: Names): string { n.destHost + "/" + n.destAgent }

  const SIGNATURE := seq(128, i => '0')

  function SmallConfig(sha: Sha, n: Names): Config {
    Config(n.host, n.handle, "", {AliasOf(n)}, n.key, 1, 1, sha, (x: string) => Some(Header(n.id, n.thread, n.handle)),
           (x: string) => SIGNATURE)
  }

  function SmallDest(sha: Sha, n: Names): DestConfig {
    DestConfig(AliasOf(n), {AliasOf(n)}, {n.host}, map[n.host := n.key], sha)
  }

  function SmallCall(n: Names): Call { Call(n.id + ".md", "x", AliasOf(n)) }

  lemma SmallAlias(n: Names)
    requires ValidHandle(n.destHost) && ValidHandle(n.destAgent)
    ensures ParseAlias(AliasOf(n)).Some? && Trimmed(AliasOf(n))
  {
    AliasRoundTrip(AliasOf(n), Alias(n.destHost, n.destAgent));
    AliasIsTrimmed(AliasOf(n));
  }

  lemma SmallName(h: string)
    requires ValidHandle(h)
    ensures ValidFilename(h + ".md")
  {
    var n := h + ".md";
    HandleIsPlain(h);
    assert n[0] == h[0] && n[|n| - 3..] == ".md";
    assert forall c :: c in n ==> c in h || c in ".md";
    assert '\0' !in h && h[0] in h;
  }

  lemma SmallSigns(sha: Sha, n: Names)
    requires AllHandles(n)
    ensures GoodIdentity(SmallConfig(sha, n)) && SignsWell(SmallConfig(sha, n))
  {
    HandleIsPlain(n.key);
    assert forall c :: c in SIGNATURE ==> c == '0';
    assert IsSignatureText(SIGNATURE);
    hide ValidHandle, IsSignatureText, Trimmed;
  }

  lemma SmallIsAccepted(sha: Sha, n: Names)
    requires AllHandles(n)
    ensures Accepts(SmallConfig(sha, n), n.id + ".md", "x", AliasOf(n)) && IsMessageName(n.id + ".md")
  {
    SmallName(n.id);
    HandleIsPlain(n.id);
    HandleIsPlain(n.thread);
    SmallAlias(n);
    assert IsMessageName(n.id + ".md");
    hide ParseAlias, Trimmed, ValidFilename, ValidHandle, IsMessageName;
  }

  lemma IsSendable(cfg: Config, c: Call, i: Item)
    requires Accepts(cfg, c.name, c.data, c.alias) && IsMessageName(c.name) && cfg.batch > 0 && c.data != ""
    requires i.name == c.name && i.data == c.data && Read(cfg, i.name, i.data, i.sidecar) == Some(i.env)
    ensures Sendable(ParamsOf(cfg), c, i)
  {
    hide Read, Accepts, IsMessageName;
  }

  /** The courier makes an envelope of the small message, with its five names in their places. */
  lemma SmallIsRead(sha: Sha, n: Names) returns (e: Envelope)
    requires AllHandles(n)
    ensures Read(SmallConfig(sha, n), n.id + ".md", "x", Some(LabelLine(AliasOf(n)))) == Some(e)
    ensures e.sourceHost == n.host && e.sourceHandle == n.handle && e.messageId == n.id && e.threadId == n.thread
    ensures e.keyGeneration == n.key && e.destAlias == AliasOf(n) && e.payload == "x"
  {
    hide AllHandles, Accepts, Read, LabelLine, CanonicalBytes, IsSignatureText, GoodIdentity, SignsWell, Trimmed;
    var cfg := SmallConfig(sha, n);
    SmallIsAccepted(sha, n);
    SmallSigns(sha, n);
    AcceptsExactly(cfg, n.id + ".md", "x", AliasOf(n));
    e := Read(cfg, n.id + ".md", "x", Some(LabelLine(AliasOf(n)))).value;
    OwnEnvelope(cfg, n.id + ".md", "x", AliasOf(n), e);
  }

  lemma SmallIsServed(sha: Sha, n: Names)
    ensures Serves(SmallConfig(sha, n), SmallDest(sha, n), AliasOf(n))
  {
  }

  lemma HandleLines(e: Envelope)
    requires ValidHandle(e.messageId) && ValidHandle(e.threadId) && ValidHandle(e.keyGeneration)
    ensures LineSafe(e)
  {
    HandleIsPlain(e.messageId);
    HandleIsPlain(e.threadId);
    HandleIsPlain(e.keyGeneration);
  }

  /**
   An acknowledged transfer is reachable, and so is the hypothesis that its run is orderly, whatever the names of
   hosts, handles, message, thread and key and whatever the digest function: the theorems about acknowledged
   transfers are about something.
   */
  lemma AckedIsReachable(sha: Sha, n: Names) returns (events: seq<SysEvent>, env: Envelope)
    requires AllHandles(n)
    ensures env.sourceHost == n.host && env.sourceHandle == n.handle && env.destAlias == n.destHost + "/" + n.destAgent
    ensures env.messageId == n.id && env.threadId == n.thread && env.keyGeneration == n.key
    ensures var cfg, d := SmallConfig(sha, n), SmallDest(sha, n);
            var s := RunOf(cfg, d, events);
            && Acknowledged(cfg, d, s, env) && 0 in s.src.enqueued
            && forall g :: SignedFor(s.src, g, env) ==>
                 Runs.Allowed(Stepper(ParamsOf(cfg)), ORDERLY(g), Init(), SourceEvents(events))
  {
    env := SmallIsRead(sha, n);
    HandleLines(env);
    SmallIsAccepted(sha, n);
    SmallIsServed(sha, n);
    hide RunOf, Acknowledged, SignedFor, ValidHandle, LabelLine, LineSafe, WholeWay, Accepts, Read, IsMessageName,
         Serves, Sendable;
    var i := Item(n.id + ".md", "x", Some(LabelLine(AliasOf(n))), env);
    IsSendable(SmallConfig(sha, n), SmallCall(n), i);
    AckReached(SmallConfig(sha, n), SmallDest(sha, n), SmallCall(n), i);
    events := WholeWay(SmallCall(n), i);
  }
}
