/**
 Both hosts and the rendezvous between them.  The rendezvous is not trusted with
 anything: it may lose, repeat, reorder or make up envelopes, so a poll returns an
 arbitrary one.  A signature verifies exactly when the holder of that host's key
 signed those bytes.  Either host may lose power.
 */
module BridgeSystem {
  import opened Text
  import opened BridgeEnvelope
  import opened BridgeSource
  import Runs

  datatype PollPhase = Waiting | Verified(env: Envelope) | Applied(env: Envelope) | Recorded(env: Envelope)

  datatype Dest = Dest(
    inbox: Dir<string>,                     // inbox/new of the local agent
    receipts: Dir<ReceiptFile>,
    phase: PollPhase,
    published: set<(string, string)>,       // every (file, bytes) ever visible in inbox/new
    consumed: set<string>,                  // every file a consumer took out of inbox/new
    committed: set<Envelope>,               // every envelope ApplyEnvelope succeeded on
    acked: set<Envelope>)                   // every envelope an acknowledgement was sent for

  datatype System = System(src: Source, dst: Dest, foreign: set<(string, string)>)

  /** `policy` is everything `PollOnce` checks about an envelope except the signature. */
  datatype Setting = Setting(push: Params, sourceHost: string, policy: Envelope -> bool)

  /** Unsynced: the file is visible and complete, but the sync of its directory failed and an error is returned. */
  datatype DestStep =
    | Poll(env: Envelope)
    | ApplyEnvelope
    | ApplyUnsynced
    | WriteDestReceipt
    | WriteDestUnsynced
    | TearDestReceipt
    | Ack
    | PollStops
    | Consume(file: string)
    | DestPowerLoss(inbox: map<string, string>, receipts: map<string, ReceiptFile>)

  datatype SysEvent =
    | AtSource(e: Event)
    | Sign(host: string, bytes: string)
    | AtDest(d: DestStep)

  function Start(): System {
    System(Init(), Dest(Nowhere(), Nowhere(), Waiting, {}, {}, {}, {}), {})
  }

  /** The key of `host` signed `bytes`. */
  ghost predicate SignedBy(w: Setting, s: System, host: string, bytes: string) {
    || (host, bytes) in s.foreign
    || (host == w.sourceHost && exists i :: i in s.src.seen && CanonicalBytes(i.env) == bytes)
  }

  function FileOf(e: Envelope): string { TransferFilename(e.sourceHost, e.transferId) }

  function DestReceiptName(e: Envelope): string { ReceiptFilename(e.transferId, DestinationCommitted) }

  predicate HasDestReceipt(receipts: map<string, ReceiptFile>, env: Envelope) {
    DestReceiptName(env) in receipts && Matches(receipts[DestReceiptName(env)], DestinationCommitted, env)
  }

  ghost predicate DestEnabled(w: Setting, s: System, d: DestStep) {
    match d
    case Poll(env) =>
      s.dst.phase.Waiting? && w.policy(env) && SignedBy(w, s, env.sourceHost, CanonicalBytes(env))
    case ApplyEnvelope =>
      // no-replace publication: absent, or already there with the same bytes
      s.dst.phase.Verified? && (FileOf(s.dst.phase.env) in s.dst.inbox.live ==>
                                  s.dst.inbox.live[FileOf(s.dst.phase.env)] == s.dst.phase.env.payload)
    case ApplyUnsynced => s.dst.phase.Verified? && FileOf(s.dst.phase.env) !in s.dst.inbox.live
    case WriteDestReceipt =>
      s.dst.phase.Applied? && (DestReceiptName(s.dst.phase.env) in s.dst.receipts.live ==>
                                 HasDestReceipt(s.dst.receipts.live, s.dst.phase.env))
    case WriteDestUnsynced => s.dst.phase.Applied? && DestReceiptName(s.dst.phase.env) !in s.dst.receipts.live
    case TearDestReceipt => s.dst.phase.Applied? && DestReceiptName(s.dst.phase.env) !in s.dst.receipts.live
    case Ack => s.dst.phase.Recorded?
    case PollStops => true
    case Consume(file) => file in s.dst.inbox.live
    case DestPowerLoss(inbox, receipts) => Survives(s.dst.inbox, inbox) && ReceiptsSurvive(s.dst.receipts, receipts)
  }

  function Put<V>(d: Dir<V>, n: string, v: V): Dir<V> { Dir(d.live[n := v], d.synced) }

  function NewDestReceipt(env: Envelope): ReceiptFile {
    Written(DestinationCommitted, env.transferId, env.payloadSha)
  }

  function Published(d: Dest, env: Envelope): Dest {
    d.(inbox := Put(d.inbox, FileOf(env), env.payload), published := d.published + {(FileOf(env), env.payload)})
  }

  /** The effect of an enabled step; a receipt that is already there is not synced again. */
  function DestApply(d: Dest, step: DestStep): Dest
    requires step.Poll? || step.PollStops? || step.Consume? || step.DestPowerLoss? || !d.phase.Waiting?
  {
    match step
    case Poll(env) => d.(phase := Verified(env))
    case ApplyEnvelope =>
      var p := Published(d, d.phase.env);
      p.(inbox := Synced(p.inbox), committed := d.committed + {d.phase.env}, phase := Applied(d.phase.env))
    case ApplyUnsynced => Published(d, d.phase.env).(phase := Waiting)
    case WriteDestReceipt =>
      var name := DestReceiptName(d.phase.env);
      d.(receipts := if name in d.receipts.live then d.receipts
                     else Synced(Put(d.receipts, name, NewDestReceipt(d.phase.env))),
         phase := Recorded(d.phase.env))
    case WriteDestUnsynced =>
      d.(receipts := Put(d.receipts, DestReceiptName(d.phase.env), NewDestReceipt(d.phase.env)), phase := Waiting)
    case TearDestReceipt => d.(receipts := Put(d.receipts, DestReceiptName(d.phase.env), Torn), phase := Waiting)
    case Ack => d.(acked := d.acked + {d.phase.env}, phase := Waiting)
    case PollStops => d.(phase := Waiting)
    case Consume(file) =>
      d.(inbox := Dir(d.inbox.live - {file}, d.inbox.synced), consumed := d.consumed + {file})
    case DestPowerLoss(inbox, receipts) =>
      d.(inbox := Dir(inbox, inbox), receipts := Dir(receipts, receipts), phase := Waiting)
  }

  ghost function Advance(w: Setting, s: System, e: SysEvent): System {
    match e
    case AtSource(x) => s.(src := Apply(w.push, s.src, x))
    case Sign(host, bytes) => if host == w.sourceHost then s else s.(foreign := s.foreign + {(host, bytes)})
    case AtDest(d) => if DestEnabled(w, s, d) then s.(dst := DestApply(s.dst, d)) else s
  }

  ghost function SysStepper(w: Setting): (System, SysEvent) -> System {
    (s, e) => Advance(w, s, e)
  }

  /** A published transfer stays in the inbox, bytes and all, until its consumer takes it or the power fails. */
  lemma InboxKept(w: Setting, s: System, e: SysEvent, file: string)
    requires file in s.dst.inbox.live
    requires e != AtDest(Consume(file)) && !(e.AtDest? && e.d.DestPowerLoss?)
    ensures var t := Advance(w, s, e);
            file in t.dst.inbox.live && t.dst.inbox.live[file] == s.dst.inbox.live[file]
  {
    hide FileOf, DestReceiptName, SignedBy, Survives, ReceiptsSurvive, Apply, HasDestReceipt;
  }

  // ---- what an acknowledgement means ----

  ghost predicate Authentic(w: Setting, s: System, env: Envelope) {
    w.policy(env) && SignedBy(w, s, env.sourceHost, CanonicalBytes(env))
  }

  /** Published once, and still in the inbox across a power failure unless a consumer took it. */
  predicate Delivered(d: Dest, env: Envelope) {
    && (FileOf(env), env.payload) in d.published
    && (FileOf(env) in d.consumed || Holds(d.inbox, FileOf(env), env.payload))
  }

  ghost predicate Committed(w: Setting, s: System, env: Envelope) {
    Authentic(w, s, env) && Delivered(s.dst, env)
  }

  ghost predicate DestInv(w: Setting, s: System) {
    && (!s.dst.phase.Waiting? ==> Authentic(w, s, s.dst.phase.env))
    && (s.dst.phase.Applied? || s.dst.phase.Recorded? ==> s.dst.phase.env in s.dst.committed)
    && (forall env :: env in s.dst.committed ==> Committed(w, s, env))
    && s.dst.acked <= s.dst.committed
    && (forall f :: f in s.dst.inbox.live ==> (f, s.dst.inbox.live[f]) in s.dst.published)
    && (forall f :: f in s.dst.inbox.synced ==> (f, s.dst.inbox.synced[f]) in s.dst.published)
  }

  lemma SourceOnlySigns(p: Params, s: Source, e: Event)
    ensures s.seen <= Apply(p, s, e).seen
  {
    hide EnqueueApply, ScanApply, WorkApply, CanFail;
  }

  /** Signatures are never taken back. */
  lemma AuthenticStays(w: Setting, s: System, e: SysEvent, env: Envelope)
    requires Authentic(w, s, env)
    ensures Authentic(w, Advance(w, s, e), env)
  {
    hide DestEnabled, DestApply, CanonicalBytes, Apply;
    if e.AtSource? { SourceOnlySigns(w.push, s.src, e.e); }
  }

  /** No step takes a delivered message out of the inbox but its consumer. */
  lemma DeliveredStays(w: Setting, s: System, d: DestStep, env: Envelope)
    requires Delivered(s.dst, env) && DestEnabled(w, s, d)
    ensures Delivered(DestApply(s.dst, d), env)
  {
    hide TransferFilename, SignedBy, ReceiptFilename, Matches, ReceiptsSurvive;
  }

  lemma DestStepKeeps(w: Setting, s: System, d: DestStep)
    requires DestInv(w, s) && DestEnabled(w, s, d)
    ensures DestInv(w, s.(dst := DestApply(s.dst, d)))
  {
    hide CanonicalBytes, TransferFilename, ReceiptFilename, Matches, EqualFold, ReceiptsSurvive;
    var t := s.(dst := DestApply(s.dst, d));
    assert Advance(w, s, AtDest(d)) == t;
    forall env | Authentic(w, s, env) ensures Authentic(w, t, env) { AuthenticStays(w, s, AtDest(d), env); }
    forall env | env in t.dst.committed ensures Committed(w, t, env) {
      if env in s.dst.committed { DeliveredStays(w, s, d, env); }
    }
  }

  lemma AdvanceKeeps(w: Setting, s: System, e: SysEvent)
    requires DestInv(w, s)
    ensures DestInv(w, Advance(w, s, e))
  {
    hide DestEnabled, DestApply, CanonicalBytes, Apply, Authentic, TransferFilename;
    if e.AtDest? {
      if DestEnabled(w, s, e.d) { DestStepKeeps(w, s, e.d); }
    } else {
      var t := Advance(w, s, e);
      forall env | Authentic(w, s, env) ensures Authentic(w, t, env) { AuthenticStays(w, s, e, env); }
    }
  }

  lemma DestInvReached(w: Setting, events: seq<SysEvent>)
    ensures DestInv(w, Runs.Run(SysStepper(w), Start(), events))
  {
    hide Advance;
    var any := (s: System, e: SysEvent) => true;
    forall s, e | DestInv(w, s) ensures DestInv(w, SysStepper(w)(s, e)) { AdvanceKeeps(w, s, e); }
    Runs.AllAllowed(SysStepper(w), any, Start(), events);
    Runs.Preserved(SysStepper(w), any, (s: System) => DestInv(w, s), Start(), events);
  }

  /**
   In every run of both hosts, power failures included, an acknowledged transfer was authenticated, and its
   payload was published under its transfer file name and stays there on disk until a consumer takes it.
   */
  lemma AckedIsCommitted(w: Setting, events: seq<SysEvent>, env: Envelope)
    requires env in Runs.Run(SysStepper(w), Start(), events).dst.acked
    ensures Committed(w, Runs.Run(SysStepper(w), Start(), events), env)
    ensures var d := Runs.Run(SysStepper(w), Start(), events).dst;
            var name := "xfer-" + env.sourceHost + "-" + env.transferId + ".md";
            (name, env.payload) in d.published && (name in d.consumed || Holds(d.inbox, name, env.payload))
  {
    DestInvReached(w, events);
    hide Committed, SysStepper, Runs.Run;
    CommittedUnder(w, Runs.Run(SysStepper(w), Start(), events), env);
  }

  lemma CommittedUnder(w: Setting, s: System, env: Envelope)
    requires Committed(w, s, env)
    ensures var name := "xfer-" + env.sourceHost + "-" + env.transferId + ".md";
            (name, env.payload) in s.dst.published && (name in s.dst.consumed || Holds(s.dst.inbox, name, env.payload))
  {
    hide Authentic;
  }

  // ---- the destination receipt ----

  /** A receipt that is visible but was never synced is taken for the transfer at hand. */
  predicate TrustsUnsynced(s: System, e: SysEvent) {
    && e == AtDest(WriteDestReceipt) && s.dst.phase.Applied?
    && HasDestReceipt(s.dst.receipts.live, s.dst.phase.env)
    && !OnDisk(s.dst.receipts, DestinationCommitted, s.dst.phase.env)
  }

  ghost const SYNCED := (s: System, e: SysEvent) => !TrustsUnsynced(s, e)

  predicate DestReceipts(d: Dest) {
    && (d.phase.Recorded? ==> OnDisk(d.receipts, DestinationCommitted, d.phase.env))
    && (forall env :: env in d.acked ==> OnDisk(d.receipts, DestinationCommitted, env))
  }

  lemma OnDiskStays(w: Setting, s: System, d: DestStep, env: Envelope)
    requires OnDisk(s.dst.receipts, DestinationCommitted, env) && DestEnabled(w, s, d)
    ensures OnDisk(DestApply(s.dst, d).receipts, DestinationCommitted, env)
  {
    hide TransferFilename, SignedBy, ReceiptFilename, Matches;
  }

  lemma NewIsOnDisk(d: Dir<ReceiptFile>, env: Envelope)
    ensures OnDisk(Synced(Put(d, DestReceiptName(env), NewDestReceipt(env))), DestinationCommitted, env)
  {
    hide ReceiptFilename;
  }

  lemma ReceiptStepKeeps(w: Setting, s: System, d: DestStep)
    requires DestReceipts(s.dst) && DestEnabled(w, s, d) && !TrustsUnsynced(s, AtDest(d))
    ensures DestReceipts(DestApply(s.dst, d))
  {
    if s.dst.phase.Applied? { NewIsOnDisk(s.dst.receipts, s.dst.phase.env); }
    hide OnDisk, SignedBy, FileOf, Matches, Survives, ReceiptsSurvive, NewDestReceipt;
    forall env | OnDisk(s.dst.receipts, DestinationCommitted, env)
      ensures OnDisk(DestApply(s.dst, d).receipts, DestinationCommitted, env)
    {
      OnDiskStays(w, s, d, env);
    }
  }

  /** A step keeps acknowledgements covered by receipts on disk if and only if it trusts no unsynced receipt. */
  lemma DestReceiptsKeptExactly(w: Setting, s: System, e: SysEvent)
    requires DestReceipts(s.dst)
    ensures DestReceipts(Advance(w, s, e).dst) <==> !TrustsUnsynced(s, e)
  {
    if TrustsUnsynced(s, e) {
      assert DestEnabled(w, s, WriteDestReceipt);
      hide OnDisk, DestEnabled, HasDestReceipt;
    } else {
      hide DestReceipts, DestEnabled, DestApply, TrustsUnsynced, Apply;
      if e.AtDest? && DestEnabled(w, s, e.d) { ReceiptStepKeeps(w, s, e.d); }
    }
  }

  /** A power failure of the destination that leaves the transfer without its receipt. */
  ghost predicate DropsDestReceipt(w: Setting, s: System, env: Envelope, d: DestStep) {
    && d.DestPowerLoss? && DestEnabled(w, s, d)
    && !HasDestReceipt(DestApply(s.dst, d).receipts.live, env)
  }

  /** A visible destination receipt can be lost to a power failure if and only if it is not on disk. */
  lemma DestReceiptDropsExactly(w: Setting, s: System, env: Envelope)
    requires HasDestReceipt(s.dst.receipts.live, env)
    ensures (exists d :: DropsDestReceipt(w, s, env, d)) <==> !OnDisk(s.dst.receipts, DestinationCommitted, env)
  {
    hide ReceiptFilename, Matches, SignedBy;
    if !OnDisk(s.dst.receipts, DestinationCommitted, env) {
      var d := DestPowerLoss(s.dst.inbox.live, s.dst.receipts.live - {DestReceiptName(env)});
      assert DropsDestReceipt(w, s, env, d);
    }
    if d :| DropsDestReceipt(w, s, env, d) {
      assert DestApply(s.dst, d).receipts.live == d.receipts;
    }
  }

  /** The destination receipt is on disk too, unless one that was never synced was trusted. */
  lemma AckedHasReceipt(w: Setting, events: seq<SysEvent>, env: Envelope)
    requires Runs.Allowed(SysStepper(w), SYNCED, Start(), events)
    requires env in Runs.Run(SysStepper(w), Start(), events).dst.acked
    ensures OnDisk(Runs.Run(SysStepper(w), Start(), events).dst.receipts, DestinationCommitted, env)
  {
    hide DestEnabled, DestApply, TrustsUnsynced, OnDisk, Apply;
    forall s: System, e | DestReceipts(s.dst) && SYNCED(s, e) ensures DestReceipts(SysStepper(w)(s, e).dst) {
      if e.AtDest? && DestEnabled(w, s, e.d) { ReceiptStepKeeps(w, s, e.d); }
    }
    Runs.Preserved(SysStepper(w), SYNCED, (s: System) => DestReceipts(s.dst), Start(), events);
  }
}
