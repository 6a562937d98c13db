/**
 The two hosts joined: what reached the destination is what the courier read on the source
 host, and that is what a sender enqueued exactly when it was read whole.
 */
module BridgeEndToEnd {
  import opened Text
  import opened BridgeEnvelope
  import opened BridgeSource
  import opened BridgeSafety
  import opened BridgeRetry
  import opened BridgeRead
  import opened BridgeSystem
  import BridgeLimits
  import Runs

  // ---- the source within the system ----

  function SourceEvents(events: seq<SysEvent>): seq<Event> {
    if events == [] then []
    else if events[0].AtSource? then [events[0].e] + SourceEvents(events[1..])
    else SourceEvents(events[1..])
  }

  /** The source of the system runs by itself, so whatever holds of its runs holds here. */
  lemma {:induction false} SourceRuns(w: Setting, s: System, events: seq<SysEvent>)
    ensures Runs.Run(SysStepper(w), s, events).src == Runs.Run(Stepper(w.push), s.src, SourceEvents(events))
    decreases events
  {
    hide Apply, DestEnabled, DestApply;
    if events != [] {
      SourceRuns(w, Advance(w, s, events[0]), events[1..]);
      if events[0].AtSource? {
        var e, more := events[0].e, SourceEvents(events[1..]);
        assert ([e] + more)[0] == e && ([e] + more)[1..] == more;
      }
    }
  }

  lemma {:induction false} NobodyElseSigns(w: Setting, s: System, events: seq<SysEvent>)
    requires forall h, b :: (h, b) in s.foreign ==> h != w.sourceHost
    ensures forall h, b :: (h, b) in Runs.Run(SysStepper(w), s, events).foreign ==> h != w.sourceHost
    decreases events
  {
    hide Apply, DestEnabled, DestApply;
    if events != [] { NobodyElseSigns(w, Advance(w, s, events[0]), events[1..]); }
  }

  /**
   In every run, power failures and interrupted calls included, an acknowledged transfer from the source host has
   the signed bytes of something its courier read, under the name of a message some sender handed to `Enqueue`.
   */
  lemma AckedHasRead(w: Setting, events: seq<SysEvent>, env: Envelope) returns (i: Item, f: nat)
    requires env in Runs.Run(SysStepper(w), Start(), events).dst.acked && env.sourceHost == w.sourceHost
    ensures var s := Runs.Run(SysStepper(w), Start(), events);
            && i in s.src.seen && CanonicalBytes(i.env) == CanonicalBytes(env) && w.policy(env)
            && w.push.read(i.name, i.data, i.sidecar) == Some(i.env)
            && f in s.src.calls && s.src.calls[f].name == i.name
            && w.push.accepts(s.src.calls[f].name, s.src.calls[f].data, s.src.calls[f].alias)
            && Delivered(s.dst, env)
  {
    var s := Runs.Run(SysStepper(w), Start(), events);
    AckedIsCommitted(w, events, env);
    NobodyElseSigns(w, Start(), events);
    SourceRuns(w, Start(), events);
    GenuineReached(w.push, SourceEvents(events));
    WfReached(w.push, SourceEvents(events));
    hide Runs.Run, SysStepper, Stepper, CanonicalBytes, Delivered, Named, CallsOk, PhaseOk, PlacedOk;
    i :| i in s.src.seen && CanonicalBytes(i.env) == CanonicalBytes(env);
    f :| f in s.src.calls && s.src.calls[f].name == i.name;
  }

  // ---- the receiving side's configuration ----

  datatype DestConfig = DestConfig(
    receiveAlias: string,
    allowedDest: set<string>,
    allowedSource: set<string>,
    trusted: map<string, string>,   // source host to key generation
    sha: Sha)

  /** `PollOnce` and `ApplyEnvelope` before the signature and the commit. */
  predicate Policy(d: DestConfig, env: Envelope) {
    && env.destAlias == d.receiveAlias && env.destAlias in d.allowedDest
    && env.sourceHost in d.allowedSource && env.sourceHost in d.trusted
    && ValidEnvelope(d.sha, env)
    && env.keyGeneration == d.trusted[env.sourceHost]
    && ParseAlias(env.destAlias) == ParseAlias(d.receiveAlias)
  }

  function PolicyOf(d: DestConfig): Envelope -> bool {
    env => Policy(d, env)
  }

  function SettingOf(cfg: Config, d: DestConfig): Setting {
    Setting(ParamsOf(cfg), cfg.sourceHost, PolicyOf(d))
  }

  /** The same message as far as an envelope can tell: id, thread and digest. */
  predicate SameMessage(cfg: Config, a: string, b: string) {
    && cfg.parse(a).Some? && cfg.parse(b).Some?
    && cfg.parse(a).value.id == cfg.parse(b).value.id && cfg.parse(a).value.thread == cfg.parse(b).value.thread
    && cfg.sha(a) == cfg.sha(b)
  }

  /** The transfer `env` carries the message of the call to the destination its sender named. */
  predicate Carries(cfg: Config, c: Call, env: Envelope) {
    && env.destAlias == c.alias
    && cfg.parse(c.data).Some?
    && env.messageId == cfg.parse(c.data).value.id && env.threadId == cfg.parse(c.data).value.thread
    && env.transferId == TransferId(cfg.sha, cfg.sourceHost, env.messageId, env.destAlias)
    && cfg.sha(env.payload) == cfg.sha(c.data)
  }

  /** What the courier signs tells what it read. */
  lemma SignedFields(cfg: Config, i: Item)
    requires Read(cfg, i.name, i.data, i.sidecar) == Some(i.env)
    ensures ValidEnvelope(cfg.sha, i.env) && AliasFor(cfg, i.sidecar) == Some(i.env.destAlias)
    ensures cfg.parse(i.data).Some? && i.env.payload == i.data
    ensures i.env.messageId == cfg.parse(i.data).value.id && i.env.threadId == cfg.parse(i.data).value.thread
    ensures i.env.transferId == TransferId(cfg.sha, cfg.sourceHost, i.env.messageId, i.env.destAlias)
  {
    hide ValidFilename, ValidEnvelope, TransferId, CanonicalBytes, AliasFor;
  }

  lemma SameBytesCarry(cfg: Config, c: Call, i: Item, env: Envelope)
    requires Accepts(cfg, c.name, c.data, c.alias)
    requires Read(cfg, i.name, i.data, i.sidecar) == Some(i.env)
    requires ValidEnvelope(cfg.sha, env) && LineSafe(env) && LineSafe(i.env)
    requires CanonicalBytes(i.env) == CanonicalBytes(env)
    ensures Carries(cfg, c, env) <==> AliasFor(cfg, i.sidecar) == Some(c.alias) && SameMessage(cfg, i.data, c.data)
  {
    SignedFields(cfg, i);
    CanonicalBytesInjective(cfg.sha, i.env, env);
    hide Read, ValidEnvelope, TransferId, CanonicalBytes, AliasFor, ToLower;
  }

  ghost function RunOf(cfg: Config, d: DestConfig, events: seq<SysEvent>): System {
    Runs.Run(SysStepper(SettingOf(cfg, d)), Start(), events)
  }

  /** The transfer was acknowledged and claims to come from the source host; no field holds a newline. */
  ghost predicate Acknowledged(cfg: Config, d: DestConfig, s: System, env: Envelope) {
    && d.sha == cfg.sha && env in s.dst.acked && env.sourceHost == cfg.sourceHost && LineSafe(env)
    && forall j :: j in s.src.seen ==> LineSafe(j.env)
  }

  /** What an acknowledged transfer says about the item `i` and the call `c` of that name. */
  predicate Traces(cfg: Config, d: DestConfig, c: Call, i: Item, env: Envelope) {
    && c.name == i.name && CanonicalBytes(i.env) == CanonicalBytes(env)
    && AliasFor(cfg, i.sidecar) == Some(env.destAlias) && env.destAlias == d.receiveAlias
    && (Carries(cfg, c, env) <==> AliasFor(cfg, i.sidecar) == Some(c.alias) && SameMessage(cfg, i.data, c.data))
  }

  lemma ReadTraces(cfg: Config, d: DestConfig, c: Call, i: Item, env: Envelope)
    requires d.sha == cfg.sha && Policy(d, env) && LineSafe(env) && LineSafe(i.env) && c.name == i.name
    requires Accepts(cfg, c.name, c.data, c.alias) && Read(cfg, i.name, i.data, i.sidecar) == Some(i.env)
    requires CanonicalBytes(i.env) == CanonicalBytes(env)
    ensures Traces(cfg, d, c, i, env)
  {
    SameBytesCarry(cfg, c, i, env);
    SignedFields(cfg, i);
    CanonicalBytesInjective(cfg.sha, i.env, env);
    hide Read, ValidEnvelope, TransferId, CanonicalBytes, AliasFor, Carries, SameMessage, ToLower, Accepts;
  }

  /**
   End to end, in every run: an acknowledged transfer from the source host carries the message some sender handed
   to `Enqueue`, to the alias that sender named, if and only if the courier had read that message and that alias.
   */
  lemma AckedCarriesExactly(cfg: Config, d: DestConfig, events: seq<SysEvent>, env: Envelope)
    returns (i: Item, f: nat)
    requires Acknowledged(cfg, d, RunOf(cfg, d, events), env)
    ensures var s := RunOf(cfg, d, events);
            && i in s.src.seen && f in s.src.calls && Traces(cfg, d, s.src.calls[f], i, env)
            && Delivered(s.dst, env)
  {
    hide Delivered, Runs.Run, SysStepper, Read, Accepts, Policy, Traces, CanonicalBytes, LineSafe;
    i, f := AckedHasRead(SettingOf(cfg, d), events, env);
    ReadTraces(cfg, d, RunOf(cfg, d, events).src.calls[f], i, env);
  }

  lemma OrderlyReadsWhole(cfg: Config, events: seq<Event>, f: nat, i: Item)
    requires Runs.Allowed(Stepper(ParamsOf(cfg)), ORDERLY(f), Init(), events)
    requires var s := Runs.Run(Stepper(ParamsOf(cfg)), Init(), events);
             i in s.seen && f in s.calls && s.calls[f].name == i.name
    ensures var s := Runs.Run(Stepper(ParamsOf(cfg)), Init(), events);
            f in s.enqueued && WholeRead(cfg, s.calls[f], i) && cfg.parse(i.data).Some?
  {
    hide Runs.Run, Stepper, Runs.Allowed, Own, Read, Accepts, WholeRead;
    var s := Runs.Run(Stepper(ParamsOf(cfg)), Init(), events);
    GenuineReached(ParamsOf(cfg), events);
    OrderlyReadsAreOwn(ParamsOf(cfg), events, f, i);
    OwnExactly(cfg, s.calls[f], i);
    SignedFields(cfg, i);
  }

  /** The courier signed these bytes for something it read under the name of call `f`. */
  ghost predicate SignedFor(s: Source, f: nat, env: Envelope) {
    f in s.calls && exists i :: i in s.seen && i.name == s.calls[f].name && CanonicalBytes(i.env) == CanonicalBytes(env)
  }

  /**
   And when the courier reads a message only after its `Enqueue` has returned, and no power failure strikes in its
   window, then what arrives under that name is the enqueued message at the alias its sender named.
   */
  lemma AckedCarriesEnqueued(cfg: Config, d: DestConfig, events: seq<SysEvent>, env: Envelope)
    returns (i: Item, f: nat)
    requires Acknowledged(cfg, d, RunOf(cfg, d, events), env)
    requires forall g :: SignedFor(RunOf(cfg, d, events).src, g, env) ==>
               Runs.Allowed(Stepper(ParamsOf(cfg)), ORDERLY(g), Init(), SourceEvents(events))
    ensures var s := RunOf(cfg, d, events);
            && i in s.src.seen && f in s.src.enqueued && f in s.src.calls && s.src.calls[f].name == i.name
            && Carries(cfg, s.src.calls[f], env) && s.src.calls[f].alias == d.receiveAlias && Delivered(s.dst, env)
  {
    hide Runs.Run, SysStepper, Stepper, Runs.Allowed, Carries, AliasFor, Delivered, LineSafe, CanonicalBytes;
    i, f := AckedCarriesExactly(cfg, d, events, env);
    assert SignedFor(RunOf(cfg, d, events).src, f, env);
    SourceRuns(SettingOf(cfg, d), Start(), events);
    OrderlyReadsWhole(cfg, SourceEvents(events), f, i);
  }

  // ---- what a push receipt alone does not tell ----

  ghost function AtSourceAll(events: seq<Event>): seq<SysEvent> {
    if events == [] then [] else [AtSource(events[0])] + AtSourceAll(events[1..])
  }

  lemma {:induction false} SourceAlone(w: Setting, s: System, events: seq<Event>)
    ensures Runs.Run(SysStepper(w), s, AtSourceAll(events)) == s.(src := Runs.Run(Stepper(w.push), s.src, events))
    decreases events
  {
    hide Apply;
    if events != [] {
      var t := Advance(w, s, AtSource(events[0]));
      SourceAlone(w, t, events[1..]);
      assert AtSourceAll(events)[0] == AtSource(events[0]) && AtSourceAll(events)[1..] == AtSourceAll(events[1..]);
    }
  }

  /** The push receipt and the archive say nothing about the destination: both exist while nothing was committed. */
  lemma PushReceiptIsNoCommit(w: Setting, c: Call, i: Item) returns (events: seq<SysEvent>)
    requires BridgeLimits.Sendable(w.push, c, i) && i.sidecar == Some(LabelLine(c.alias))
    ensures var s := Runs.Run(SysStepper(w), Start(), events);
            && 0 in s.src.enqueued && s.src.calls == map[0 := c] && c.name !in s.src.spool.live
            && OnDisk(s.src.receipts, TransportAccepted, i.env) && StoredIn(s.src, s.src.sent, c)
            && s.dst.committed == {} && s.dst.published == {}
  {
    hide ReceiptFilename, IsMessageName, LabelLine;
    var push := BridgeLimits.Whole(w.push, c, i);
    SourceAlone(w, Start(), push);
    events := AtSourceAll(push);
  }
}
