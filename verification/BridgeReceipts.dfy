/**
 A message leaves the spool only after a transport receipt is on disk, in every run with
 power failures: the receipt of whatever the courier read under its name.  That is the
 sender's own transfer if and only if the courier read the whole message and its sidecar;
 nothing makes the courier wait for either.
 */
module BridgeReceipts {
  import opened Text
  import opened BridgeEnvelope
  import opened BridgeSource
  import opened BridgeSafety
  import Runs

  // ---- receipts on disk ----

  /** A power failure may drop or tear a receipt if and only if its directory entry was not synced. */
  lemma ReceiptDropsExactly(d: Dir<ReceiptFile>, f: string)
    requires f in d.live
    ensures (exists after :: ReceiptsSurvive(d, after) && Lookup(after, f) != Some(d.live[f]))
            <==> Lookup(d.synced, f) != Some(d.live[f])
  {
    if Lookup(d.synced, f) != Some(d.live[f]) {
      var after := d.live - {f};
      assert ReceiptsSurvive(d, after) && Lookup(after, f) != Some(d.live[f]);
    }
  }

  lemma ReceiptsStay(d: Dir<ReceiptFile>, after: map<string, ReceiptFile>, stage: BridgeEnvelope.Stage, e: Envelope)
    requires OnDisk(d, stage, e) && ReceiptsSurvive(d, after)
    ensures OnDisk(Dir(after, after), stage, e)
  {
  }

  /** A new receipt leaves the others where they are. */
  lemma ReceiptAdded(d: Dir<ReceiptFile>, f: string, r: ReceiptFile, stage: BridgeEnvelope.Stage, e: Envelope)
    requires OnDisk(d, stage, e) && f !in d.live
    ensures OnDisk(Dir(d.live[f := r], d.synced), stage, e) && OnDisk(Synced(Dir(d.live[f := r], d.synced)), stage, e)
  {
  }

  /**
   What is stored under an item's names and is not the item stops it there: with another receipt it is neither
   posted nor moved, and with other bytes in the archive it is not removed from the spool.
   */
  lemma ContradictionBlocks(s: Source, work: WorkStep)
    requires s.phase.Working? && s.phase.at < |s.phase.items|
    ensures var i := s.phase.items[s.phase.at];
            var f := ReceiptFilename(i.env.transferId, TransportAccepted);
            && (s.phase.step.Check? && f in s.receipts.live
                && !Matches(s.receipts.live[f], TransportAccepted, i.env) ==>
                WorkApply(s, work) == s)
            && (s.phase.step.Receipted? && i.name in s.sent.live
                && Lookup(Texts(s.files, s.sent.live), i.name) != Some(i.data) ==>
                WorkApply(s, work) == s)
  {
    hide Matches, ReceiptFilename, Texts, Lookup, EqualFold;
  }

  // ---- every receipt was earned ----

  ghost predicate WasPosted(r: ReceiptFile, f: string, posted: set<Envelope>) {
    r.Written? ==>
      exists e :: e in posted && ReceiptFilename(e.transferId, TransportAccepted) == f
          && Matches(r, TransportAccepted, e)
  }

  ghost predicate AllPosted(receipts: map<string, ReceiptFile>, posted: set<Envelope>) {
    forall f :: f in receipts ==> WasPosted(receipts[f], f, posted)
  }

  predicate AcceptedPosted(phase: Phase, posted: set<Envelope>) {
    phase.Working? && phase.at < |phase.items| && phase.step.Accepted? ==>
      phase.items[phase.at].env in posted && EqualFold(phase.step.digest, phase.items[phase.at].env.payloadSha)
  }

  ghost predicate Traced(s: Source) {
    AllPosted(s.receipts.live, s.posted) && AllPosted(s.receipts.synced, s.posted) && AcceptedPosted(s.phase, s.posted)
  }

  lemma PostedMore(receipts: map<string, ReceiptFile>, posted: set<Envelope>, e: Envelope)
    requires AllPosted(receipts, posted)
    ensures AllPosted(receipts, posted + {e})
  {
    forall f | f in receipts ensures WasPosted(receipts[f], f, posted + {e}) {
      assert WasPosted(receipts[f], f, posted);
    }
  }

  lemma NewReceiptPosted(i: Item, step: Step, posted: set<Envelope>)
    requires step.Accepted? ==> i.env in posted && EqualFold(step.digest, i.env.payloadSha)
    ensures WasPosted(NewReceipt(i, step), ReceiptName(i), posted) && WasPosted(Torn, ReceiptName(i), posted)
  {
  }

  lemma AcceptTraced(s: Source, work: WorkStep)
    requires Traced(s) && !IsMove(work)
    ensures Traced(WorkApply(s, work))
  {
    hide WasPosted, ReceiptName, Matches, EqualFold, Texts;
    if s.phase.Working? && s.phase.at < |s.phase.items| {
      var i := s.phase.items[s.phase.at];
      PostedMore(s.receipts.live, s.posted, i.env);
      PostedMore(s.receipts.synced, s.posted, i.env);
      NewReceiptPosted(i, s.phase.step, s.posted);
    }
  }

  lemma MoveTraced(s: Source, work: WorkStep)
    requires Traced(s) && IsMove(work)
    ensures Traced(WorkApply(s, work))
  {
    hide AllPosted, ReceiptName, Matches, EqualFold, Texts;
  }

  lemma PowerTraced(s: Source, d: Disk)
    requires Traced(s)
    ensures Traced(PowerApply(s, d))
  {
    hide Survives, FilesSurvive;
    if CanFail(s, d) {
      forall f | f in d.receipts ensures WasPosted(d.receipts[f], f, s.posted) {
        assert f in s.receipts.live ==> WasPosted(s.receipts.live[f], f, s.posted);
        assert f in s.receipts.synced ==> WasPosted(s.receipts.synced[f], f, s.posted);
      }
    }
  }

  lemma ScanTraced(p: Params, s: Source, scan: ScanStep)
    requires Traced(s)
    ensures Traced(ScanApply(p, s, scan))
  {
    hide AllPosted, EqualFold, Texts, IsListing;
  }

  lemma StepTraced(p: Params, s: Source, e: Event)
    requires Traced(s)
    ensures Traced(Apply(p, s, e))
  {
    if e.Scan? { ScanTraced(p, s, e.scan); }
    if e.PowerLoss? { PowerTraced(s, e.disk); }
    if e.Push? {
      if IsMove(e.work) { MoveTraced(s, e.work); } else { AcceptTraced(s, e.work); }
    }
    hide EnqueueApply, ScanApply, WorkApply, PowerApply, AllPosted;
  }

  lemma TracedReached(p: Params, events: seq<Event>)
    ensures Traced(Runs.Run(Stepper(p), Init(), events))
  {
    var any := (s: Source, e: Event) => true;
    forall s, e | Traced(s) ensures Traced(Stepper(p)(s, e)) { StepTraced(p, s, e); }
    Runs.AllAllowed(Stepper(p), any, Init(), events);
    Runs.Preserved(Stepper(p), any, (s: Source) => Traced(s), Init(), events);
  }

  /** Every complete transport receipt, in every run, was earned: an envelope of its id and digest was posted. */
  lemma ReceiptsAreEarned(p: Params, events: seq<Event>, f: string)
    requires f in Runs.Run(Stepper(p), Init(), events).receipts.live
    requires Runs.Run(Stepper(p), Init(), events).receipts.live[f].Written?
    ensures var s := Runs.Run(Stepper(p), Init(), events);
            exists e :: e in s.posted && ReceiptFilename(e.transferId, TransportAccepted) == f
                        && Matches(s.receipts.live[f], TransportAccepted, e)
  {
    hide ReceiptFilename, Matches, Stepper, Runs.Run;
    TracedReached(p, events);
    var s := Runs.Run(Stepper(p), Init(), events);
    assert WasPosted(s.receipts.live[f], f, s.posted);
  }

  // ---- removal only after a receipt ----

  predicate PastReceipt(step: Step) {
    !step.Check? && !step.Accepted?
  }

  /** What the courier does to this name rests on receipts that are on disk. */
  predicate Receipts(n: string, phase: Phase, receipts: Dir<ReceiptFile>, gone: map<string, Item>) {
    && (phase.Working? && phase.at < |phase.items| && phase.items[phase.at].name == n && PastReceipt(phase.step)
        ==> OnDisk(receipts, TransportAccepted, phase.items[phase.at].env))
    && (n in gone ==> OnDisk(receipts, TransportAccepted, gone[n].env))
  }

  /** A call's file is missing from the spool only when the courier removed it. */
  predicate Gone(s: Source, f: nat, n: string) {
    && (f in s.writers || f in s.enqueued ==> n in s.spool.live || n in s.gone)
    && (f in s.enqueued && n in s.spool.live ==> n in s.spool.synced)
  }

  predicate ReceiptOk(s: Source, f: nat) {
    f in s.calls ==> Receipts(s.calls[f].name, s.phase, s.receipts, s.gone) && Gone(s, f, s.calls[f].name)
  }

  ghost predicate ReceiptInv(s: Source, f: nat) {
    FreshInv(s, f) && Traced(s) && ReceiptOk(s, f)
  }

  /** The courier takes up a receipt that is visible but was never synced, for the name of call `f`. */
  predicate ReusesUnsynced(s: Source, f: nat, e: Event) {
    && e == Push(UseReceipt) && s.phase.Working? && s.phase.at < |s.phase.items|
    && f in s.calls && s.phase.items[s.phase.at].name == s.calls[f].name
    && WorkEnabled(s, s.phase.items[s.phase.at], s.phase.step, UseReceipt)
    && !OnDisk(s.receipts, TransportAccepted, s.phase.items[s.phase.at].env)
  }

  ghost function RELIABLE(f: nat): (Source, Event) -> bool {
    (s, e) => !Reuses(s, f, e) && !ReusesUnsynced(s, f, e)
  }

  lemma OpenKeepsReceipts(p: Params, s: Source, f: nat, g: nat, call: EnqueueStep)
    requires ReceiptInv(s, f) && call.Open? && !Reuses(s, f, Enqueue(g, call))
    ensures ReceiptOk(EnqueueApply(p, s, g, call), f)
  {
    hide OnDisk, Named, CallSafe, PlacedOk, Traced;
  }

  lemma GoKeepsReceipts(s: Source, f: nat, g: nat, call: EnqueueStep)
    requires ReceiptInv(s, f) && g in s.writers && g in s.calls
    ensures ReceiptOk(EnqueueGo(s, g, s.calls[g], s.writers[g], call), f)
  {
    hide Receipts, Named, CallSafe, PlacedOk, PhaseOk, SeenOk, LabelLine, Traced;
  }

  lemma ScanKeepsReceipts(p: Params, s: Source, f: nat, scan: ScanStep)
    requires ReceiptInv(s, f)
    ensures ReceiptOk(ScanApply(p, s, scan), f)
  {
    hide Wf, Once, Secure, IsListing, Texts, OnDisk, Traced;
  }

  /** The receipt just written is the item's own. */
  lemma WrittenMatches(s: Source, i: Item)
    requires Traced(s) && s.phase.Working? && s.phase.at < |s.phase.items| && i == s.phase.items[s.phase.at]
    requires s.phase.step.Accepted?
    ensures OnDisk(Synced(Receive(s, i, NewReceipt(i, s.phase.step))), TransportAccepted, i.env)
  {
    hide AllPosted, ReceiptFilename, EqualFold;
  }

  /** A receipt on disk stays there. */
  lemma WorkKeepsOnDisk(s: Source, work: WorkStep, e: Envelope)
    requires OnDisk(s.receipts, TransportAccepted, e)
    ensures OnDisk(WorkApply(s, work).receipts, TransportAccepted, e)
  {
    hide OnDisk, Texts, Matches, EqualFold, ReceiptName, NewReceipt, Moving, Lookup;
    if s.phase.Working? && s.phase.at < |s.phase.items| {
      var i := s.phase.items[s.phase.at];
      if ReceiptName(i) !in s.receipts.live {
        ReceiptAdded(s.receipts, ReceiptName(i), NewReceipt(i, s.phase.step), TransportAccepted, e);
        ReceiptAdded(s.receipts, ReceiptName(i), Torn, TransportAccepted, e);
      }
    }
  }

  lemma AcceptKeepsReceipts(s: Source, f: nat, work: WorkStep)
    requires ReceiptInv(s, f) && !IsMove(work) && !ReusesUnsynced(s, f, Push(work))
    ensures ReceiptOk(WorkApply(s, work), f)
  {
    hide Wf, Once, Secure, OnDisk, Texts, Matches, EqualFold, ReceiptName, NewReceipt, Traced;
    if f in s.calls && s.phase.Working? && s.phase.at < |s.phase.items| {
      var i, n := s.phase.items[s.phase.at], s.calls[f].name;
      if s.phase.step.Accepted? { WrittenMatches(s, i); }
      if n in s.gone { WorkKeepsOnDisk(s, work, s.gone[n].env); }
    }
  }

  lemma MoveKeepsReceipts(s: Source, f: nat, work: WorkStep)
    requires ReceiptInv(s, f) && IsMove(work)
    ensures ReceiptOk(WorkApply(s, work), f)
  {
    hide OnDisk, Named, CallSafe, PlacedOk, SeenOk, CallsOk, Texts, NameUsed, Traced;
  }

  lemma PowerKeepsReceipts(s: Source, f: nat, d: Disk)
    requires ReceiptInv(s, f)
    ensures ReceiptOk(PowerApply(s, d), f)
  {
    hide OnDisk, PhaseOk, SeenOk, CallSafe, PlacedOk, CallsOk, Traced, ReceiptsSurvive, FilesSurvive;
    if f in s.calls && CanFail(s, d) && s.calls[f].name in s.gone {
      ReceiptsStay(s.receipts, d.receipts, TransportAccepted, s.gone[s.calls[f].name].env);
    }
  }

  lemma StepKeepsReceipts(p: Params, s: Source, f: nat, e: Event)
    requires ReceiptInv(s, f) && !Reuses(s, f, e) && !ReusesUnsynced(s, f, e)
    ensures ReceiptInv(Apply(p, s, e), f)
  {
    FreshKeeps(p, s, f, e);
    StepTraced(p, s, e);
    match e
    case Enqueue(g, call) => {
      if call.Open? { OpenKeepsReceipts(p, s, f, g, call); }
      else if g in s.writers && g in s.calls { GoKeepsReceipts(s, f, g, call); }
    }
    case Scan(scan) => ScanKeepsReceipts(p, s, f, scan);
    case Push(work) => {
      if IsMove(work) { MoveKeepsReceipts(s, f, work); } else { AcceptKeepsReceipts(s, f, work); }
    }
    case Stop =>
    case PowerLoss(d) => PowerKeepsReceipts(s, f, d);
    hide EnqueueGo, ScanApply, WorkApply, PowerApply, FreshInv, Traced, OnDisk;
  }

  /** A step keeps removals covered by receipts on disk if and only if it takes up no receipt that was never synced. */
  lemma StepKeepsReceiptsExactly(p: Params, s: Source, f: nat, e: Event)
    requires ReceiptInv(s, f) && !Reuses(s, f, e)
    ensures ReceiptInv(Apply(p, s, e), f) <==> !ReusesUnsynced(s, f, e)
  {
    if ReusesUnsynced(s, f, e) {
      var i := s.phase.items[s.phase.at];
      assert Apply(p, s, e) == Work(s, i, UseReceipt);
      hide OnDisk, WorkEnabled, FreshInv, Traced;
    } else {
      StepKeepsReceipts(p, s, f, e);
    }
  }

  lemma ReceiptsReached(p: Params, events: seq<Event>, f: nat)
    requires Runs.Allowed(Stepper(p), RELIABLE(f), Init(), events)
    ensures ReceiptInv(Runs.Run(Stepper(p), Init(), events), f)
  {
    forall s, e | ReceiptInv(s, f) && RELIABLE(f)(s, e) ensures ReceiptInv(Stepper(p)(s, e), f) {
      StepKeepsReceipts(p, s, f, e);
    }
    Runs.Preserved(Stepper(p), RELIABLE(f), (s: Source) => ReceiptInv(s, f), Init(), events);
  }

  /**
   A message whose name was used for one call only is missing from the spool only because the courier removed it
   for something it had read under that name, and the receipt of that transfer is on disk and was earned: across
   power failures, unless a receipt that was never synced was taken up again.
   */
  lemma ReceiptBeforeRemoval(p: Params, events: seq<Event>, f: nat)
    requires Runs.Allowed(Stepper(p), RELIABLE(f), Init(), events)
    requires var s := Runs.Run(Stepper(p), Init(), events);
             f in s.enqueued && f in s.calls && s.calls[f].name !in s.spool.live
    ensures var s := Runs.Run(Stepper(p), Init(), events);
            var n := s.calls[f].name;
            && n in s.gone && s.gone[n] in s.seen && s.gone[n].name == n
            && OnDisk(s.receipts, TransportAccepted, s.gone[n].env)
            && WasPosted(s.receipts.live[ReceiptName(s.gone[n])], ReceiptName(s.gone[n]), s.posted)
  {
    ReceiptsReached(p, events, f);
  }
}
