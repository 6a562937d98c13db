/**
 When the receipt that lets a message leave the spool is that of the sender's own
 transfer: whenever the courier did not read the message before its sidecar was written,
 across every power failure.
 */
module BridgeOwn {
  import opened Text
  import opened BridgeEnvelope
  import opened BridgeSource
  import opened BridgeSafety
  import opened BridgeReceipts
  import opened BridgeRetry
  import opened BridgeRead
  import Runs

  /** The call is on its way and has not written its sidecar. */
  predicate Early(s: Source, f: nat) {
    f in s.writers && (s.writers[f].Writing? || s.writers[f].Published? || s.writers[f].Labeling?)
  }

  /** The courier does not read the message while its call is early. */
  predicate Patient(s: Source, f: nat, e: Event) {
    !Reuses(s, f, e) && !ReusesUnsynced(s, f, e) && (AboutToRead(s, f, e) ==> !Early(s, f))
  }

  ghost function PATIENT(f: nat): (Source, Event) -> bool {
    (s, e) => Patient(s, f, e)
  }

  /** The courier holds nothing it read under this name. */
  predicate Untouched(phase: Phase, n: string) {
    match phase
    case Idle => true
    case Reading(names, got, data) =>
      && (forall j :: 0 <= j < |got| ==> got[j].name != n)
      && (data.Some? && |got| < |names| ==> names[|got|] != n)
    case Working(items, at, step) => forall j :: 0 <= j < |items| ==> items[j].name != n
  }

  /** Everything the courier holds under the call's name is its own transfer, and none of it is past its receipt. */
  predicate HeldOwn(phase: Phase, c: Call, own: Option<Envelope>) {
    match phase
    case Idle => true
    case Reading(names, got, data) =>
      && (forall j :: 0 <= j < |got| && got[j].name == c.name ==> own == Some(got[j].env))
      && (data.Some? && |got| < |names| && names[|got|] == c.name ==> data == Some(c.data))
    case Working(items, at, step) =>
      && (forall j :: 0 <= j < |items| && items[j].name == c.name ==> own == Some(items[j].env))
      && (at < |items| && items[at].name == c.name ==> !PastReceipt(step))
  }

  predicate Together(s: Source, f: nat, n: string) {
    && n in s.spool.live && n in s.sidecars.live
    && (f in s.enqueued ==> n in s.spool.synced && n in s.sidecars.synced)
  }

  predicate Receipted(r: Dir<ReceiptFile>, own: Option<Envelope>) {
    own.Some? && OnDisk(r, TransportAccepted, own.value)
  }

  predicate OwnOk(s: Source, f: nat, c: Call, own: Option<Envelope>) {
    && (Early(s, f) ==>
          && c.name in s.spool.live && Untouched(s.phase, c.name)
          && (s.writers[f].Labeling? ==> c.name in s.sidecars.live))
    && (HasLabel(s, f) ==>
          Receipted(s.receipts, own) || (Together(s, f, c.name) && HeldOwn(s.phase, c, own)))
    && LabelSolid(s, f, c)
  }

  ghost predicate OwnInv(p: Params, s: Source, f: nat) {
    ReceiptInv(s, f) && (f in s.calls ==> OwnOk(s, f, s.calls[f], Own(p, s.calls[f])))
  }

  lemma OpenKeepsOwn(p: Params, s: Source, f: nat, g: nat, call: EnqueueStep)
    requires OwnInv(p, s, f) && call.Open? && !Reuses(s, f, Enqueue(g, call))
    ensures var t := EnqueueApply(p, s, g, call); f in t.calls ==> OwnOk(t, f, t.calls[f], Own(p, t.calls[f]))
  {
    hide CallSafe, PlacedOk, LabelLine, Named, OnDisk, Traced, ReceiptOk, Own, Receipted;
  }

  lemma OwnCallKeepsOwn(p: Params, s: Source, f: nat, call: EnqueueStep)
    requires OwnInv(p, s, f) && f in s.writers && f in s.calls
    ensures var t := EnqueueGo(s, f, s.calls[f], s.writers[f], call); OwnOk(t, f, t.calls[f], Own(p, t.calls[f]))
  {
    hide CallSafe, PlacedOk, PhaseOk, SeenOk, LabelLine, OnDisk, Traced, ReceiptOk, Own, Receipted;
  }

  lemma OtherCallKeepsOwn(p: Params, s: Source, f: nat, g: nat, call: EnqueueStep)
    requires OwnInv(p, s, f) && g in s.writers && g in s.calls && g != f && f in s.calls
    ensures var t := EnqueueGo(s, g, s.calls[g], s.writers[g], call); OwnOk(t, f, t.calls[f], Own(p, t.calls[f]))
  {
    OtherCall(s, f, g, call);
    hide FreshInv, LabelLine, OnDisk, Traced, ReceiptOk, Own, Receipted, Untouched, HeldOwn, EnqueueGo;
  }

  lemma ScanUntouched(p: Params, s: Source, f: nat, scan: ScanStep)
    requires f in s.calls && Untouched(s.phase, s.calls[f].name) && !AboutToRead(s, f, Scan(scan))
    ensures Untouched(ScanApply(p, s, scan).phase, s.calls[f].name)
  {
    hide Texts, IsListing;
  }

  lemma ScanHeld(p: Params, s: Source, c: Call, scan: ScanStep)
    requires HeldOwn(s.phase, c, Own(p, c))
    requires Lookup(Texts(s.files, s.spool.live), c.name) == Some(c.data)
    requires Lookup(Texts(s.labels, s.sidecars.live), c.name) == Some(LabelLine(c.alias))
    ensures HeldOwn(ScanApply(p, s, scan).phase, c, Own(p, c))
  {
    hide Texts, IsListing, LabelLine;
  }

  lemma TextsTogether(s: Source, f: nat)
    requires FreshInv(s, f) && f in s.calls && HasLabel(s, f) && Together(s, f, s.calls[f].name)
    requires LabelSolid(s, f, s.calls[f])
    ensures Lookup(Texts(s.files, s.spool.live), s.calls[f].name) == Some(s.calls[f].data)
    ensures Lookup(Texts(s.labels, s.sidecars.live), s.calls[f].name) == Some(LabelLine(s.calls[f].alias))
  {
    hide PhaseOk, SeenOk, PlacedOk, LabelLine;
  }

  lemma ScanKeepsOwn(p: Params, s: Source, f: nat, scan: ScanStep)
    requires OwnInv(p, s, f) && f in s.calls && Patient(s, f, Scan(scan))
    ensures var t := ScanApply(p, s, scan); OwnOk(t, f, t.calls[f], Own(p, t.calls[f]))
  {
    hide FreshInv, Texts, Reuses, LabelLine, Traced, ReceiptOk, Receipted, Untouched, HeldOwn, ScanApply, Solid;
    if Early(s, f) { ScanUntouched(p, s, f, scan); }
    if HasLabel(s, f) && Together(s, f, s.calls[f].name) && HeldOwn(s.phase, s.calls[f], Own(p, s.calls[f])) {
      TextsTogether(s, f);
      ScanHeld(p, s, s.calls[f], scan);
    }
  }

  /** The courier leaves a message alone that it does not hold. */
  lemma WorkUntouched(s: Source, n: string, work: WorkStep)
    requires Untouched(s.phase, n) && n in s.spool.live
    ensures var t := WorkApply(s, work);
            Untouched(t.phase, n) && n in t.spool.live && (n in s.sidecars.live ==> n in t.sidecars.live)
  {
    hide Texts, ReceiptName, Matches, EqualFold, Receive, NewReceipt;
  }

  /** It removes a message it holds, or goes past its receipt, only with the receipt on disk. */
  lemma WorkHeld(s: Source, f: nat, own: Option<Envelope>, work: WorkStep)
    requires f in s.calls && PhaseOk(s.calls, s.phase, s.seen)
    requires HeldOwn(s.phase, s.calls[f], own) && Together(s, f, s.calls[f].name) && ReceiptOk(WorkApply(s, work), f)
    ensures var t := WorkApply(s, work);
            Receipted(t.receipts, own) || (Together(t, f, s.calls[f].name) && HeldOwn(t.phase, s.calls[f], own))
  {
    hide Texts, ReceiptName, Matches, EqualFold, Receive, NewReceipt, OnDisk, Gone, NameUsed;
  }

  /** What the courier has no hand in stays as it is. */
  lemma WorkLabels(s: Source, f: nat, c: Call, work: WorkStep)
    ensures var t := WorkApply(s, work);
            && (Early(t, f) <==> Early(s, f)) && (HasLabel(t, f) <==> HasLabel(s, f))
            && (LabelSolid(t, f, c) <==> LabelSolid(s, f, c)) && t.calls == s.calls && t.writers == s.writers
  {
    hide WorkApply, LabelLine;
  }

  lemma WorkKeepsOwn(p: Params, s: Source, f: nat, work: WorkStep)
    requires OwnInv(p, s, f) && f in s.calls && ReceiptOk(WorkApply(s, work), f)
    ensures var t := WorkApply(s, work); OwnOk(t, f, t.calls[f], Own(p, t.calls[f]))
  {
    var own, c := Own(p, s.calls[f]), s.calls[f];
    if Receipted(s.receipts, own) { WorkKeepsOnDisk(s, work, own.value); }
    WorkLabels(s, f, c, work);
    assert PhaseOk(s.calls, s.phase, s.seen);
    hide FreshInv, LabelSolid, OnDisk, Traced, ReceiptOk, Untouched, HeldOwn, WorkApply, Own, Together, PhaseOk,
         HasLabel;
    if Early(s, f) { WorkUntouched(s, c.name, work); }
    if Together(s, f, c.name) && HeldOwn(s.phase, c, own) { WorkHeld(s, f, own, work); }
  }

  lemma TogetherStays(s: Source, f: nat, d: Disk)
    requires FreshInv(s, f) && f in s.calls && f in s.enqueued && Together(s, f, s.calls[f].name) && CanFail(s, d)
    ensures Together(PowerApply(s, d), f, s.calls[f].name)
  {
    hide CallSafe, PlacedOk, PhaseOk, SeenOk, CallsOk, ReceiptsSurvive, FilesSurvive;
  }

  lemma PowerKeepsOwn(p: Params, s: Source, f: nat, d: Disk)
    requires OwnInv(p, s, f) && f in s.calls
    ensures var t := PowerApply(s, d); OwnOk(t, f, t.calls[f], Own(p, t.calls[f]))
  {
    hide FreshInv, LabelLine, ReceiptsSurvive, Survives, Own, OnDisk, Traced, ReceiptOk, Together;
    var own := Own(p, s.calls[f]);
    if CanFail(s, d) {
      if Receipted(s.receipts, own) { ReceiptsStay(s.receipts, d.receipts, TransportAccepted, own.value); }
      if f in s.enqueued && Together(s, f, s.calls[f].name) { TogetherStays(s, f, d); }
    }
  }

  lemma StepKeepsOwn(p: Params, s: Source, f: nat, e: Event)
    requires OwnInv(p, s, f) && Patient(s, f, e)
    ensures OwnInv(p, Apply(p, s, e), f)
  {
    StepKeepsReceipts(p, s, f, e);
    match e
    case Enqueue(g, call) => {
      if call.Open? { OpenKeepsOwn(p, s, f, g, call); }
      else if g in s.writers && g in s.calls && f in s.calls {
        if g == f { OwnCallKeepsOwn(p, s, f, call); } else { OtherCallKeepsOwn(p, s, f, g, call); }
      }
    }
    case Scan(scan) => { if f in s.calls { ScanKeepsOwn(p, s, f, scan); } }
    case Push(work) => { if f in s.calls { WorkKeepsOwn(p, s, f, work); } }
    case Stop =>
    case PowerLoss(d) => { if f in s.calls { PowerKeepsOwn(p, s, f, d); } }
    hide EnqueueGo, ScanApply, WorkApply, CanFail, ReceiptInv, LabelLine, Own, Receipted;
  }

  /**
   When the courier never read a message before its sidecar was written, the message leaves the spool only after
   the receipt of the transfer its sender asked for is on disk: in every run, with power failures anywhere.
   */
  lemma OwnReceiptBeforeRemoval(p: Params, events: seq<Event>, f: nat)
    requires Runs.Allowed(Stepper(p), PATIENT(f), Init(), events)
    requires var s := Runs.Run(Stepper(p), Init(), events);
             f in s.enqueued && f in s.calls && s.calls[f].name !in s.spool.live
    ensures var s := Runs.Run(Stepper(p), Init(), events);
            Own(p, s.calls[f]).Some? && OnDisk(s.receipts, TransportAccepted, Own(p, s.calls[f]).value)
  {
    hide Patient, Apply, OnDisk, Own;
    forall s, e | OwnInv(p, s, f) && PATIENT(f)(s, e) ensures OwnInv(p, Stepper(p)(s, e), f) {
      StepKeepsOwn(p, s, f, e);
    }
    Runs.Preserved(Stepper(p), PATIENT(f), (s: Source) => OwnInv(p, s, f), Init(), events);
  }

  /**
   In any case the receipt is the sender's own if and only if the courier had read the whole message, and a
   sidecar, or none, that names the sender's destination.
   */
  lemma ReceiptIsOwnExactly(cfg: Config, events: seq<Event>, f: nat)
    requires Runs.Allowed(Stepper(ParamsOf(cfg)), RELIABLE(f), Init(), events)
    requires var s := Runs.Run(Stepper(ParamsOf(cfg)), Init(), events);
             f in s.enqueued && f in s.calls && s.calls[f].name !in s.spool.live
    ensures var s := Runs.Run(Stepper(ParamsOf(cfg)), Init(), events);
            var c := s.calls[f];
            && c.name in s.gone && OnDisk(s.receipts, TransportAccepted, s.gone[c.name].env)
            && (Own(ParamsOf(cfg), c) == Some(s.gone[c.name].env) <==> WholeRead(cfg, c, s.gone[c.name]))
  {
    hide Runs.Run, Stepper, Runs.Allowed, Own, Read, Accepts, WholeRead, OnDisk, WasPosted;
    var s := Runs.Run(Stepper(ParamsOf(cfg)), Init(), events);
    ReceiptBeforeRemoval(ParamsOf(cfg), events, f);
    GenuineReached(ParamsOf(cfg), events);
    OwnExactly(cfg, s.calls[f], s.gone[s.calls[f].name]);
  }
}
