/**
 What the courier reads under a message's name.  While an enqueued message stays in the
 spool its sidecar stays too, so every retry makes the transfer its sender asked for;
 only a power failure in one window can separate the two.  Everything the courier read
 only after `Enqueue` had returned is the sender's own.
 */
module BridgeRetry {
  import opened Text
  import opened BridgeEnvelope
  import opened BridgeSource
  import opened BridgeSafety
  import Runs

  /** The envelope of an enqueued message: the one its own sidecar asks for. */
  function Own(p: Params, c: Call): Option<Envelope> {
    p.read(c.name, c.data, Some(LabelLine(c.alias)))
  }

  /** Every signed item is what the courier makes of what it read, and every call was accepted. */
  ghost predicate Genuine(p: Params, s: Source) {
    && (forall i :: i in s.seen ==> p.read(i.name, i.data, i.sidecar) == Some(i.env))
    && (forall f :: f in s.calls ==> p.accepts(s.calls[f].name, s.calls[f].data, s.calls[f].alias))
  }

  lemma StepGenuine(p: Params, s: Source, e: Event)
    requires Genuine(p, s)
    ensures Genuine(p, Apply(p, s, e))
  {
    hide EnqueueGo, WorkApply, CanFail, Texts, IsListing;
  }

  lemma GenuineReached(p: Params, events: seq<Event>)
    ensures Genuine(p, Runs.Run(Stepper(p), Init(), events))
  {
    hide Apply;
    var any := (s: Source, e: Event) => true;
    forall s, e | Genuine(p, s) ensures Genuine(p, Stepper(p)(s, e)) { StepGenuine(p, s, e); }
    Runs.AllAllowed(Stepper(p), any, Init(), events);
    Runs.Preserved(Stepper(p), any, (s: Source) => Genuine(p, s), Init(), events);
  }

  // ---- message and sidecar stay together ----

  /** The call has written its sidecar. */
  predicate HasLabel(s: Source, f: nat) {
    f in s.enqueued || (f in s.writers && s.writers[f].Labeled?)
  }

  predicate Paired(s: Source, f: nat, n: string) {
    && (HasLabel(s, f) || (f in s.writers && s.writers[f].Labeling?) ==>
          n in s.spool.live ==> n in s.sidecars.live)
    && (f in s.enqueued ==>
          && (n in s.spool.live ==> n in s.spool.synced)
          && (n in s.spool.synced && n in s.sidecars.live ==> n in s.sidecars.synced))
    && (s.phase.Working? && s.phase.at < |s.phase.items| && s.phase.items[s.phase.at].name == n ==>
          s.phase.step.SourceGone? || s.phase.step.SidecarGone? ==> n !in s.spool.live)
  }

  predicate LabelSolid(s: Source, f: nat, c: Call) {
    HasLabel(s, f) ==> Solid(s.labels, f, LabelLine(c.alias))
  }

  predicate RetryOk(s: Source, f: nat) {
    f in s.calls ==> Paired(s, f, s.calls[f].name) && LabelSolid(s, f, s.calls[f])
  }

  ghost predicate RetryInv(s: Source, f: nat) {
    FreshInv(s, f) && RetryOk(s, f)
  }

  /** The message is still on disk and its sidecar already removed: the courier stands before the sync of the spool. */
  predicate Window(s: Source, f: nat) {
    f in s.calls && f in s.enqueued && s.calls[f].name in s.spool.synced && s.calls[f].name !in s.sidecars.live
  }

  /** The name is not given to a second call, and no power failure strikes in the window. */
  predicate Steady(s: Source, f: nat, e: Event) {
    !Reuses(s, f, e) && !(e.PowerLoss? && Window(s, f))
  }

  ghost function STEADY(f: nat): (Source, Event) -> bool {
    (s, e) => Steady(s, f, e)
  }

  lemma OpenKeepsRetry(p: Params, s: Source, f: nat, g: nat, call: EnqueueStep)
    requires RetryInv(s, f) && call.Open? && !Reuses(s, f, Enqueue(g, call))
    ensures RetryOk(EnqueueApply(p, s, g, call), f)
  {
    hide CallSafe, PlacedOk, LabelLine, Named;
  }

  lemma OwnCallKeepsRetry(s: Source, f: nat, call: EnqueueStep)
    requires RetryInv(s, f) && f in s.writers && f in s.calls
    ensures RetryOk(EnqueueGo(s, f, s.calls[f], s.writers[f], call), f)
  {
    hide CallSafe, PlacedOk, PhaseOk, SeenOk, LabelLine;
  }

  lemma OtherCallKeepsRetry(s: Source, f: nat, g: nat, call: EnqueueStep)
    requires RetryInv(s, f) && g in s.writers && g in s.calls && g != f
    ensures RetryOk(EnqueueGo(s, g, s.calls[g], s.writers[g], call), f)
  {
    if f in s.calls { OtherCall(s, f, g, call); }
    hide Wf, Secure, Once, LabelLine, EnqueueGo;
  }

  lemma ScanKeepsRetry(p: Params, s: Source, f: nat, scan: ScanStep)
    requires RetryInv(s, f)
    ensures RetryOk(ScanApply(p, s, scan), f)
  {
    hide Wf, Once, Secure, IsListing, Texts, LabelLine;
  }

  lemma WorkKeepsRetry(s: Source, f: nat, work: WorkStep)
    requires RetryInv(s, f)
    ensures RetryOk(WorkApply(s, work), f)
  {
    hide Wf, Once, Secure, Texts, LabelLine, ReceiptName, Matches, EqualFold, Receive, NewReceipt;
  }

  lemma PowerKeepsRetry(s: Source, f: nat, d: Disk)
    requires RetryInv(s, f) && !Window(s, f)
    ensures RetryOk(PowerApply(s, d), f)
  {
    hide CallSafe, PlacedOk, PhaseOk, SeenOk, CallsOk, LabelLine, ReceiptsSurvive;
  }

  lemma StepKeepsRetry(p: Params, s: Source, f: nat, e: Event)
    requires RetryInv(s, f) && Steady(s, f, e)
    ensures RetryInv(Apply(p, s, e), f)
  {
    FreshKeeps(p, s, f, e);
    match e
    case Enqueue(g, call) => {
      if call.Open? { OpenKeepsRetry(p, s, f, g, call); }
      else if g in s.writers && g in s.calls {
        if g == f { OwnCallKeepsRetry(s, f, call); } else { OtherCallKeepsRetry(s, f, g, call); }
      }
    }
    case Scan(scan) => ScanKeepsRetry(p, s, f, scan);
    case Push(work) => WorkKeepsRetry(s, f, work);
    case Stop =>
    case PowerLoss(d) => PowerKeepsRetry(s, f, d);
    hide EnqueueGo, ScanApply, WorkApply, PowerApply, FreshInv, LabelLine, Solid;
  }

  lemma RetryReached(p: Params, events: seq<Event>, f: nat)
    requires Runs.Allowed(Stepper(p), STEADY(f), Init(), events)
    ensures RetryInv(Runs.Run(Stepper(p), Init(), events), f)
  {
    forall s, e | RetryInv(s, f) && STEADY(f)(s, e) ensures RetryInv(Stepper(p)(s, e), f) {
      StepKeepsRetry(p, s, f, e);
    }
    Runs.Preserved(Stepper(p), STEADY(f), (s: Source) => RetryInv(s, f), Init(), events);
  }

  /** What a spool file shows to the courier. */
  function Shown(p: Params, s: Source, n: string): Option<Envelope> {
    var spool, labels := Texts(s.files, s.spool.live), Texts(s.labels, s.sidecars.live);
    if n in spool then EnvelopeOf(p, spool, labels, n) else None
  }

  lemma ShownIsOwn(p: Params, s: Source, f: nat)
    requires RetryInv(s, f) && f in s.calls && HasLabel(s, f) && s.calls[f].name in s.spool.live
    ensures Shown(p, s, s.calls[f].name) == Own(p, s.calls[f])
    ensures Lookup(Texts(s.files, s.spool.live), s.calls[f].name) == Some(s.calls[f].data)
    ensures Lookup(Texts(s.labels, s.sidecars.live), s.calls[f].name) == Some(LabelLine(s.calls[f].alias))
  {
    hide PhaseOk, SeenOk, PlacedOk, LabelLine;
  }

  /**
   While an enqueued message stays in the spool its sidecar stays too, so every retry makes the envelope its
   sender asked for: across power failures, except one that strikes in the window.
   */
  lemma RetriesKeepTransfer(p: Params, events: seq<Event>, f: nat)
    requires Runs.Allowed(Stepper(p), STEADY(f), Init(), events)
    requires var s := Runs.Run(Stepper(p), Init(), events);
             f in s.enqueued && f in s.calls && s.calls[f].name in s.spool.live
    ensures var s := Runs.Run(Stepper(p), Init(), events);
            Shown(p, s, s.calls[f].name) == Own(p, s.calls[f])
  {
    RetryReached(p, events, f);
    ShownIsOwn(p, Runs.Run(Stepper(p), Init(), events), f);
  }

  /** A power failure leaves the message in the spool without its sidecar. */
  ghost predicate Splits(s: Source, f: nat, d: Disk)
    requires f in s.calls
  {
    CanFail(s, d) && s.calls[f].name in d.spool && s.calls[f].name !in d.sidecars
  }

  function Settled(files: Files): Files {
    map f | f in files :: Bytes(files[f].kept, files[f].kept)
  }

  /** The power failure that undoes the removal of the message and not that of its sidecar. */
  lemma WindowSplits(s: Source, f: nat) returns (d: Disk)
    requires Window(s, f)
    ensures Splits(s, f, d)
  {
    var n := s.calls[f].name;
    d := Disk(Settled(s.files), Settled(s.labels), s.spool.live[n := s.spool.synced[n]], s.sidecars.live, s.sent.live,
              s.receipts.live);
    assert FilesSurvive(s.files, d.files) && FilesSurvive(s.labels, d.labels);
    assert Survives(s.spool, d.spool);
  }

  /** The window is exact: a power failure can separate an enqueued message from its sidecar just there. */
  lemma SplitsExactlyInWindow(p: Params, events: seq<Event>, f: nat)
    requires Runs.Allowed(Stepper(p), STEADY(f), Init(), events)
    requires f in Runs.Run(Stepper(p), Init(), events).enqueued && f in Runs.Run(Stepper(p), Init(), events).calls
    ensures var s := Runs.Run(Stepper(p), Init(), events);
            (exists d :: Splits(s, f, d)) <==> Window(s, f)
  {
    var s := Runs.Run(Stepper(p), Init(), events);
    RetryReached(p, events, f);
    if Window(s, f) { var d := WindowSplits(s, f); }
    hide CallSafe, PlacedOk, PhaseOk, SeenOk, CallsOk, LabelLine, ReceiptsSurvive, FilesSurvive, Runs.Run, Stepper;
  }

  // ---- what the courier read after Enqueue had returned ----

  /** The courier is about to read the bytes of the file of call `f`. */
  predicate AboutToRead(s: Source, f: nat, e: Event) {
    && e == Scan(ReadData) && s.phase.Reading? && |s.phase.got| < |s.phase.names|
    && f in s.calls && s.phase.names[|s.phase.got|] == s.calls[f].name
  }

  /** The run is steady and the courier reads the message only once its `Enqueue` has succeeded. */
  predicate Orderly(s: Source, f: nat, e: Event) {
    Steady(s, f, e) && (AboutToRead(s, f, e) ==> f in s.enqueued)
  }

  ghost function ORDERLY(f: nat): (Source, Event) -> bool {
    (s, e) => Orderly(s, f, e)
  }

  ghost predicate SeenOwn(p: Params, s: Source, f: nat, c: Call) {
    && (forall i :: i in s.seen && i.name == c.name ==> f in s.enqueued && Own(p, c) == Some(i.env))
    && (s.phase.Reading? && s.phase.data.Some? && |s.phase.got| < |s.phase.names| ==>
          s.phase.names[|s.phase.got|] == c.name ==>
          f in s.enqueued && s.phase.data == Some(c.data) && c.name in s.spool.live)
  }

  ghost predicate OrderlyInv(p: Params, s: Source, f: nat) {
    RetryInv(s, f) && (f in s.calls ==> SeenOwn(p, s, f, s.calls[f]))
  }

  lemma ScanOrderly(p: Params, s: Source, f: nat, scan: ScanStep)
    requires OrderlyInv(p, s, f) && (AboutToRead(s, f, Scan(scan)) ==> f in s.enqueued)
    ensures var t := ScanApply(p, s, scan); f in t.calls ==> SeenOwn(p, t, f, t.calls[f])
  {
    if f in s.calls && f in s.enqueued && s.calls[f].name in s.spool.live { ShownIsOwn(p, s, f); }
    hide Wf, Once, Secure, IsListing, Texts, LabelLine, RetryOk, Shown;
  }

  lemma OpenOrderly(p: Params, s: Source, f: nat, g: nat, call: EnqueueStep)
    requires OrderlyInv(p, s, f) && call.Open? && !Reuses(s, f, Enqueue(g, call))
    ensures var t := EnqueueApply(p, s, g, call); f in t.calls ==> SeenOwn(p, t, f, t.calls[f])
  {
    hide CallSafe, PlacedOk, LabelLine, RetryOk, Named;
  }

  lemma GoOrderly(p: Params, s: Source, f: nat, g: nat, call: EnqueueStep)
    requires OrderlyInv(p, s, f) && g in s.writers && g in s.calls
    ensures var t := EnqueueGo(s, g, s.calls[g], s.writers[g], call); f in t.calls ==> SeenOwn(p, t, f, t.calls[f])
  {
    hide CallSafe, PlacedOk, PhaseOk, SeenOk, LabelLine, RetryOk;
  }

  lemma WorkReads(s: Source, work: WorkStep)
    ensures if s.phase.Reading? then WorkApply(s, work) == s else !WorkApply(s, work).phase.Reading?
  {
    hide WorkEnabled, Receive, NewReceipt;
  }

  lemma StepOrderly(p: Params, s: Source, f: nat, e: Event)
    requires OrderlyInv(p, s, f) && Orderly(s, f, e)
    ensures OrderlyInv(p, Apply(p, s, e), f)
  {
    StepKeepsRetry(p, s, f, e);
    match e
    case Enqueue(g, call) => {
      if call.Open? { OpenOrderly(p, s, f, g, call); }
      else if g in s.writers && g in s.calls { GoOrderly(p, s, f, g, call); }
    }
    case Scan(scan) => ScanOrderly(p, s, f, scan);
    case Push(work) => WorkReads(s, work);
    case Stop =>
    case PowerLoss(_) =>
    hide EnqueueGo, ScanApply, WorkApply, CanFail, RetryInv, LabelLine, Own;
  }

  /** Everything the courier read under the name is the message of the enqueued call, addressed as its sender asked. */
  lemma OrderlyReadsAreOwn(p: Params, events: seq<Event>, f: nat, i: Item)
    requires Runs.Allowed(Stepper(p), ORDERLY(f), Init(), events)
    requires var s := Runs.Run(Stepper(p), Init(), events); i in s.seen && f in s.calls && s.calls[f].name == i.name
    ensures var s := Runs.Run(Stepper(p), Init(), events);
            f in s.enqueued && Own(p, s.calls[f]) == Some(i.env)
  {
    hide Orderly, Apply, Own;
    forall s, e | OrderlyInv(p, s, f) && ORDERLY(f)(s, e) ensures OrderlyInv(p, Stepper(p)(s, e), f) {
      StepOrderly(p, s, f, e);
    }
    Runs.Preserved(Stepper(p), ORDERLY(f), (s: Source) => OrderlyInv(p, s, f), Init(), events);
  }
}
