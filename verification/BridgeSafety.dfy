/**
 What the source half of the bridge keeps in every run: no enqueued message is ever
 lost, even across power failures, unless its spool name was given to two calls; and
 then a step loses a message exactly when it unlinks the only copy of another call.
 */
module BridgeSafety {
  import opened Text
  import opened BridgeSource
  import Runs

  // ---- what holds in every run ----

  type Calls = map<nat, Call>

  /** Every entry is a file that a call created under that very name. */
  predicate Named(calls: Calls, d: Dir<nat>) {
    && (forall n :: n in d.live ==> d.live[n] in calls && calls[d.live[n]].name == n)
    && (forall n :: n in d.synced ==> d.synced[n] in calls && calls[d.synced[n]].name == n)
  }

  predicate NameUsed(calls: Calls, n: string) {
    exists f :: f in calls && calls[f].name == n
  }

  predicate CallsOk(calls: Calls, files: Files, writers: map<nat, CallStage>, enqueued: set<nat>) {
    && writers.Keys <= calls.Keys && calls.Keys <= files.Keys
    && enqueued <= calls.Keys && enqueued !! writers.Keys
    && (forall f :: f in calls ==> calls[f].data != "")
    && (forall f :: f in writers && f in files && writers[f].Writing? ==> files[f].kept == "")
  }

  predicate PhaseOk(calls: Calls, phase: Phase, seen: set<Item>) {
    match phase
    case Idle => true
    case Reading(names, got, data) =>
      && (forall j :: 0 <= j < |got| ==> got[j] in seen)
      && (forall j :: 0 <= j < |names| ==> NameUsed(calls, names[j]))
    case Working(items, at, step) => at < |items| && forall j :: 0 <= j < |items| ==> items[j] in seen
  }

  ghost predicate SeenOk(calls: Calls, seen: set<Item>, gone: map<string, Item>) {
    && (forall i :: i in seen ==> NameUsed(calls, i.name))
    && (forall n :: n in gone ==> gone[n] in seen && gone[n].name == n)
  }

  /** The archive entry of the current item exists once it was linked, and is on disk once it was synced. */
  predicate PlacedOk(phase: Phase, sent: Dir<nat>) {
    phase.Working? && phase.at < |phase.items| ==>
      var n := phase.items[phase.at].name;
      && (phase.step.Linked? ==> n in sent.live)
      && (phase.step.SentSynced? || phase.step.SourceGone? || phase.step.SidecarGone?
          ==> n in sent.live && Lookup(sent.synced, n) == Some(sent.live[n]))
  }

  ghost predicate Wf(s: Source) {
    && Named(s.calls, s.spool) && Named(s.calls, s.sidecars) && Named(s.calls, s.sent)
    && CallsOk(s.calls, s.files, s.writers, s.enqueued)
    && PhaseOk(s.calls, s.phase, s.seen) && SeenOk(s.calls, s.seen, s.gone)
    && PlacedOk(s.phase, s.sent)
  }

  /** Calls only accumulate. */
  lemma NewCall(calls: Calls, f: nat, c: Call)
    requires f !in calls
    ensures forall n :: NameUsed(calls, n) ==> NameUsed(calls[f := c], n)
    ensures NameUsed(calls[f := c], c.name)
    ensures forall d :: Named(calls, d) ==>
              Named(calls[f := c], d) && Named(calls[f := c], Dir(d.live[c.name := f], d.synced))
  {
    var more := calls[f := c];
    assert f in more && more[f].name == c.name;
    forall n | NameUsed(calls, n) ensures NameUsed(more, n) {
      var g :| g in calls && calls[g].name == n;
      assert g in more && more[g].name == n;
    }
  }

  lemma NewWriter(s: Source, f: nat, c: Call)
    requires Wf(s) && f !in s.calls && c.data != ""
    ensures PhaseOk(s.calls[f := c], s.phase, s.seen) && SeenOk(s.calls[f := c], s.seen, s.gone)
    ensures CallsOk(s.calls[f := c], s.files[f := Bytes("", "")], s.writers[f := Writing], s.enqueued)
  {
    NewCall(s.calls, f, c);
    hide Named, NameUsed, PlacedOk;
  }

  lemma OpenKeepsWf(p: Params, s: Source, f: nat, call: EnqueueStep)
    requires Wf(s) && call.Open?
    ensures Wf(EnqueueApply(p, s, f, call))
  {
    hide Named, NameUsed, PhaseOk, SeenOk, CallsOk, PlacedOk;
    if f !in s.calls && call.data != "" {
      NewCall(s.calls, f, Call(call.name, call.data, call.alias));
      NewWriter(s, f, Call(call.name, call.data, call.alias));
    }
  }

  lemma Unlinked(calls: Calls, d: Dir<nat>, n: string)
    requires Named(calls, d)
    ensures Named(calls, d.(live := d.live - {n})) && Named(calls, Synced(d))
    ensures forall f :: f in calls && calls[f].name == n ==> Named(calls, d.(live := d.live[n := f]))
  {
  }

  lemma GoKeepsWf(s: Source, f: nat, call: EnqueueStep)
    requires Wf(s) && f in s.writers && f in s.calls
    ensures Wf(EnqueueGo(s, f, s.calls[f], s.writers[f], call))
  {
    hide Named, NameUsed, PhaseOk, SeenOk;
    Unlinked(s.calls, s.spool, s.calls[f].name);
    Unlinked(s.calls, s.sidecars, s.calls[f].name);
  }

  lemma Listed(calls: Calls, d: Dir<nat>, names: seq<string>)
    requires Named(calls, d) && IsListing(names, Eligible(d.live))
    ensures forall j :: 0 <= j < |names| ==> NameUsed(calls, names[j])
  {
    forall j | 0 <= j < |names| ensures NameUsed(calls, names[j]) {
      assert names[j] in Eligible(d.live);
      assert calls[d.live[names[j]]].name == names[j];
    }
  }

  lemma ScanKeepsWf(p: Params, s: Source, scan: ScanStep)
    requires Wf(s)
    ensures Wf(ScanApply(p, s, scan))
  {
    hide Named, NameUsed, CallsOk, IsListing, Texts;
    if scan.List? && IsListing(scan.names, Eligible(s.spool.live)) { Listed(s.calls, s.spool, scan.names); }
  }

  lemma Archives(calls: Calls, spool: Dir<nat>, sent: Dir<nat>, n: string)
    requires Named(calls, spool) && Named(calls, sent) && n in spool.live
    ensures Named(calls, sent.(live := sent.live[n := spool.live[n]]))
  {
  }

  lemma Remembered(calls: Calls, seen: set<Item>, gone: map<string, Item>, i: Item)
    requires SeenOk(calls, seen, gone) && i in seen
    ensures SeenOk(calls, seen, gone[i.name := i])
  {
  }

  lemma OnTheWay(calls: Calls, phase: Phase, seen: set<Item>)
    requires PhaseOk(calls, phase, seen) && phase.Working?
    ensures forall step :: PhaseOk(calls, Working(phase.items, phase.at, step), seen)
    ensures PhaseOk(calls, AfterItem(phase), seen) && PhaseOk(calls, Idle, seen)
    ensures phase.at < |phase.items| && phase.items[phase.at] in seen
  {
  }

  lemma WorkKeepsPlaced(s: Source, work: WorkStep)
    requires PhaseOk(s.calls, s.phase, s.seen) && PlacedOk(s.phase, s.sent)
    ensures PlacedOk(WorkApply(s, work).phase, WorkApply(s, work).sent)
  {
    hide Texts, ReceiptName, Matches, EqualFold, NameUsed;
  }

  lemma AcceptKeepsWf(s: Source, work: WorkStep)
    requires Wf(s) && !IsMove(work)
    ensures Wf(WorkApply(s, work))
  {
    WorkKeepsPlaced(s, work);
    if s.phase.Working? { OnTheWay(s.calls, s.phase, s.seen); }
    hide Named, CallsOk, WorkEnabled, SeenOk, PhaseOk, PlacedOk, Receive, NewReceipt;
  }

  lemma MoveKeepsWf(s: Source, work: WorkStep)
    requires Wf(s) && IsMove(work)
    ensures Wf(WorkApply(s, work))
  {
    hide Named, CallsOk, WorkEnabled, SeenOk, PhaseOk, AfterItem, PlacedOk;
    WorkKeepsPlaced(s, work);
    if s.phase.Working? {
      OnTheWay(s.calls, s.phase, s.seen);
      var i := s.phase.items[s.phase.at];
      Unlinked(s.calls, s.spool, i.name);
      Unlinked(s.calls, s.sidecars, i.name);
      Unlinked(s.calls, s.sent, i.name);
      Remembered(s.calls, s.seen, s.gone, i);
      if i.name in s.spool.live { Archives(s.calls, s.spool, s.sent, i.name); }
    }
  }

  lemma Survivors(calls: Calls, d: Dir<nat>, after: map<string, nat>)
    requires Named(calls, d) && Survives(d, after)
    ensures Named(calls, Dir(after, after))
  {
  }

  lemma PowerKeepsWf(s: Source, d: Disk)
    requires Wf(s)
    ensures Wf(PowerApply(s, d))
  {
    hide Named, NameUsed, Survives, SeenOk, ReceiptsSurvive;
    if CanFail(s, d) {
      Survivors(s.calls, s.spool, d.spool);
      Survivors(s.calls, s.sidecars, d.sidecars);
      Survivors(s.calls, s.sent, d.sent);
    }
  }

  lemma StopKeepsWf(s: Source)
    requires Wf(s)
    ensures Wf(s.(phase := Idle))
  {
    hide Named, CallsOk, SeenOk;
  }

  lemma StepKeepsWf(p: Params, s: Source, e: Event)
    requires Wf(s)
    ensures Wf(Apply(p, s, e))
  {
    hide Wf, EnqueueGo, ScanApply, WorkApply, PowerApply;
    match e
    case Enqueue(f, call) => {
      if call.Open? { OpenKeepsWf(p, s, f, call); }
      else if f in s.writers && f in s.calls { GoKeepsWf(s, f, call); }
    }
    case Scan(scan) => ScanKeepsWf(p, s, scan);
    case Push(work) => { if IsMove(work) { MoveKeepsWf(s, work); } else { AcceptKeepsWf(s, work); } }
    case Stop => StopKeepsWf(s);
    case PowerLoss(d) => PowerKeepsWf(s, d);
  }

  lemma WfReached(p: Params, events: seq<Event>)
    ensures Wf(Runs.Run(Stepper(p), Init(), events))
  {
    var any := (s: Source, e: Event) => true;
    forall s, e | Wf(s) ensures Wf(Stepper(p)(s, e)) { StepKeepsWf(p, s, e); }
    Runs.AllAllowed(Stepper(p), any, Init(), events);
    Runs.Preserved(Stepper(p), any, (s: Source) => Wf(s), Init(), events);
  }

  // ---- no enqueued message is lost ----

  predicate Solid(files: Files, f: nat, data: string) {
    f in files && files[f] == Bytes(data, data)
  }

  /** The archive has the call's own file under its name, or another file with the same bytes on disk. */
  predicate Archived(files: Files, sent: Dir<nat>, f: nat, c: Call) {
    && c.name in sent.live && Holds(sent, c.name, sent.live[c.name])
    && (sent.live[c.name] == f || Solid(files, sent.live[c.name], c.data))
  }

  /**
   While `Enqueue` runs, its file is in the spool or archived; when it has succeeded, it is so across a power
   failure.
   */
  predicate CallSafe(s: Source, f: nat, c: Call) {
    && (f in s.writers ==>
          && (Lookup(s.spool.live, c.name) == Some(f) || Archived(s.files, s.sent, f, c))
          && (!s.writers[f].Writing? ==> Solid(s.files, f, c.data)))
    && (f in s.enqueued ==>
          && (Holds(s.spool, c.name, f) || Archived(s.files, s.sent, f, c))
          && Solid(s.files, f, c.data))
  }

  predicate Secure(s: Source, f: nat) {
    f in s.calls ==> CallSafe(s, f, s.calls[f])
  }

  /** The step removes this name from the spool; the call that does so, if any, gives up its own file. */
  predicate Unlinks(s: Source, e: Event, n: string) {
    match e
    case Enqueue(g, call) =>
      && call.Fail? && g in s.writers && g in s.calls && s.calls[g].name == n
      && (s.writers[g].Writing? || s.writers[g].Published? || s.writers[g].Aborting?)
    case Push(work) =>
      && work.RemoveSource? && s.phase.Working? && s.phase.at < |s.phase.items| && s.phase.items[s.phase.at].name == n
      && s.phase.step.SentSynced?
    case _ => false
  }

  /** The step unlinks the message of a call that still needs it: another than the one giving up, and not archived. */
  predicate Risky(s: Source, f: nat, e: Event) {
    && f in s.calls && (f in s.writers || f in s.enqueued)
    && Unlinks(s, e, s.calls[f].name) && Lookup(s.spool.live, s.calls[f].name) == Some(f)
    && (e.Enqueue? ==> e.f != f)
    && !Archived(s.files, s.sent, f, s.calls[f])
  }

  lemma NewFile(s: Source, f: nat, c: Call, g: nat)
    requires Named(s.calls, s.sent) && g !in s.calls && Archived(s.files, s.sent, f, c)
    ensures Archived(s.files[g := Bytes("", "")], s.sent, f, c)
  {
  }

  lemma OpenSecure(p: Params, s: Source, f: nat, g: nat, call: EnqueueStep)
    requires Wf(s) && Secure(s, f) && call.Open?
    ensures Secure(EnqueueApply(p, s, g, call), f)
  {
    hide SeenOk, PhaseOk, PlacedOk, Archived;
    if f in s.calls && g !in s.calls && Archived(s.files, s.sent, f, s.calls[f]) { NewFile(s, f, s.calls[f], g); }
  }

  lemma OwnCallSecure(s: Source, f: nat, call: EnqueueStep)
    requires Wf(s) && Secure(s, f) && f in s.writers && f in s.calls
    ensures Secure(EnqueueGo(s, f, s.calls[f], s.writers[f], call), f)
  {
    hide SeenOk, PhaseOk, PlacedOk, Named, LabelLine;
  }

  lemma OtherCallSecure(s: Source, f: nat, g: nat, call: EnqueueStep)
    requires Wf(s) && Secure(s, f) && g in s.writers && g in s.calls && g != f
    ensures Secure(EnqueueGo(s, g, s.calls[g], s.writers[g], call), f) <==> !Risky(s, f, Enqueue(g, call))
  {
    hide SeenOk, PhaseOk, PlacedOk, Named, LabelLine;
  }

  lemma EnqueueSecure(p: Params, s: Source, f: nat, e: Event)
    requires Wf(s) && Secure(s, f) && e.Enqueue?
    ensures Secure(Apply(p, s, e), f) <==> !Risky(s, f, e)
  {
    hide Wf, Secure, EnqueueGo, Archived;
    if e.call.Open? {
      OpenSecure(p, s, f, e.f, e.call);
    } else if e.f in s.writers && e.f in s.calls {
      if e.f == f { OwnCallSecure(s, f, e.call); } else { OtherCallSecure(s, f, e.f, e.call); }
    }
  }

  lemma LinkSecure(s: Source, f: nat)
    requires Wf(s) && Secure(s, f)
    ensures Secure(WorkApply(s, Link), f) && Secure(WorkApply(s, SyncSent), f) && Secure(WorkApply(s, SyncSpool), f)
  {
    hide SeenOk, PhaseOk, PlacedOk, Named, Texts, AfterItem, ReceiptName, Matches;
  }

  lemma RemoveSecure(s: Source, f: nat)
    requires Wf(s) && Secure(s, f)
    ensures Secure(WorkApply(s, RemoveSource), f) <==> !Risky(s, f, Push(RemoveSource))
  {
    hide SeenOk, PhaseOk, PlacedOk, Named, Texts, AfterItem, ReceiptName, Matches;
  }

  lemma OtherWork(s: Source, work: WorkStep)
    requires !IsMove(work) || work.RemoveSidecar?
    ensures WorkApply(s, work).spool == s.spool && WorkApply(s, work).sent == s.sent
  {
    hide WorkEnabled, Accepting;
  }

  lemma WorkSecure(p: Params, s: Source, f: nat, e: Event)
    requires Wf(s) && Secure(s, f) && e.Push?
    ensures Secure(Apply(p, s, e), f) <==> !Risky(s, f, e)
  {
    LinkSecure(s, f);
    RemoveSecure(s, f);
    hide Wf, WorkApply, Archived;
    if !IsMove(e.work) || e.work.RemoveSidecar? { OtherWork(s, e.work); }
  }

  lemma PowerSecure(p: Params, s: Source, f: nat, e: Event)
    requires Wf(s) && Secure(s, f) && e.PowerLoss?
    ensures Secure(Apply(p, s, e), f)
  {
    hide SeenOk, PhaseOk, NameUsed, ReceiptsSurvive;
  }

  /** In any state of any run, a step keeps a call's message safe if and only if it does not unlink its only copy. */
  lemma StepKeepsExactly(p: Params, s: Source, f: nat, e: Event)
    requires Wf(s) && Secure(s, f)
    ensures Secure(Apply(p, s, e), f) <==> !Risky(s, f, e)
  {
    hide Wf, EnqueueApply, WorkApply, PowerApply, Archived, Holds, Solid;
    match e
    case Enqueue(_, _) => EnqueueSecure(p, s, f, e);
    case Scan(_) =>
    case Push(_) => WorkSecure(p, s, f, e);
    case Stop =>
    case PowerLoss(_) => PowerSecure(p, s, f, e);
  }

  ghost function SAFE(f: nat): (Source, Event) -> bool {
    (s, e) => !Risky(s, f, e)
  }

  /** Some file on disk under the call's name, in the spool or in the archive, holds the bytes of its message. */
  predicate StoredIn(s: Source, d: Dir<nat>, c: Call) {
    c.name in d.live && Holds(d, c.name, d.live[c.name]) && Solid(s.files, d.live[c.name], c.data)
  }

  predicate Stored(s: Source, c: Call) {
    StoredIn(s, s.spool, c) || StoredIn(s, s.sent, c)
  }

  ghost predicate SafeInv(s: Source, f: nat) {
    Wf(s) && Secure(s, f)
  }

  lemma SafeReached(p: Params, events: seq<Event>, f: nat)
    requires Runs.Allowed(Stepper(p), SAFE(f), Init(), events)
    ensures SafeInv(Runs.Run(Stepper(p), Init(), events), f)
  {
    forall s, e | SafeInv(s, f) && SAFE(f)(s, e) ensures SafeInv(Stepper(p)(s, e), f) {
      StepKeepsWf(p, s, e);
      StepKeepsExactly(p, s, f, e);
    }
    Runs.Preserved(Stepper(p), SAFE(f), (s: Source) => SafeInv(s, f), Init(), events);
  }

  /**
   No enqueued message is lost: whatever calls interleave with the courier, with stops and power failures
   anywhere, its bytes are in the spool or in the archive, as long as no step unlinks its only copy.
   */
  lemma NothingLost(p: Params, events: seq<Event>, f: nat)
    requires Runs.Allowed(Stepper(p), SAFE(f), Init(), events)
    requires f in Runs.Run(Stepper(p), Init(), events).enqueued
    ensures var s := Runs.Run(Stepper(p), Init(), events);
            f in s.calls && Stored(s, s.calls[f])
  {
    SafeReached(p, events, f);
  }

  /** And such a step does lose it. */
  lemma RiskyLoses(p: Params, s: Source, f: nat, e: Event)
    requires SafeInv(s, f) && f in s.enqueued && Risky(s, f, e)
    ensures Stored(s, s.calls[f]) && !Stored(Apply(p, s, e), s.calls[f])
  {
    hide SeenOk, PhaseOk, ReceiptName, Matches, Texts;
  }

  // ---- a name for one call only ----

  /** No other call ever created a file under this call's name. */
  predicate Once(s: Source, f: nat) {
    f in s.calls ==> forall g :: g in s.calls && s.calls[g].name == s.calls[f].name ==> g == f
  }

  /** The step gives the name of call `f` to another call, or the name of another call to `f`. */
  predicate Reuses(s: Source, f: nat, e: Event) {
    && e.Enqueue? && e.call.Open?
    && ((f in s.calls && e.call.name == s.calls[f].name) || (e.f == f && NameUsed(s.calls, e.call.name)))
  }

  ghost function FRESH(f: nat): (Source, Event) -> bool {
    (s, e) => !Reuses(s, f, e)
  }

  lemma CallsGrow(p: Params, s: Source, e: Event)
    ensures Apply(p, s, e).calls == s.calls
            || (e.Enqueue? && e.call.Open? && e.f !in s.calls && e.call.data != ""
                && Apply(p, s, e).calls == s.calls[e.f := Call(e.call.name, e.call.data, e.call.alias)])
  {
    hide WorkApply, ScanApply, EnqueueGo, CanFail;
  }

  lemma FreshKeepsOnce(p: Params, s: Source, f: nat, e: Event)
    requires Once(s, f) && !Reuses(s, f, e)
    ensures Once(Apply(p, s, e), f)
  {
    hide Apply;
    CallsGrow(p, s, e);
  }

  /** The steps of another call do not touch what is under this call's name, except that they may sync it. */
  predicate Elsewhere(s: Source, t: Source, f: nat, n: string) {
    && (f in t.writers <==> f in s.writers) && (f in s.writers ==> f in t.writers && t.writers[f] == s.writers[f])
    && (f in t.enqueued <==> f in s.enqueued)
    && (f in s.labels ==> f in t.labels && t.labels[f] == s.labels[f])
    && Lookup(t.spool.live, n) == Lookup(s.spool.live, n) && Lookup(t.sidecars.live, n) == Lookup(s.sidecars.live, n)
    && ((t.spool.synced == s.spool.synced && t.sidecars.synced == s.sidecars.synced)
        || (t.spool.synced == s.spool.live && t.sidecars.synced == s.sidecars.live))
  }

  lemma OtherCall(s: Source, f: nat, g: nat, call: EnqueueStep)
    requires Once(s, f) && f in s.calls && g in s.writers && g in s.calls && g != f
    ensures Elsewhere(s, EnqueueGo(s, g, s.calls[g], s.writers[g], call), f, s.calls[f].name)
  {
    hide LabelLine;
    assert s.calls[g].name != s.calls[f].name;
  }

  /** A name that stands for one call only is never unlinked while the call needs it. */
  lemma FreshIsSafe(s: Source, f: nat, e: Event)
    requires SafeInv(s, f) && Once(s, f)
    ensures !Risky(s, f, e)
  {
    hide SeenOk, PhaseOk, NameUsed, CallsOk;
  }

  ghost predicate FreshInv(s: Source, f: nat) {
    SafeInv(s, f) && Once(s, f)
  }

  lemma FreshKeeps(p: Params, s: Source, f: nat, e: Event)
    requires FreshInv(s, f) && !Reuses(s, f, e)
    ensures FreshInv(Apply(p, s, e), f)
  {
    FreshIsSafe(s, f, e);
    hide Apply, Risky, Wf, Secure, Once, Reuses;
    StepKeepsWf(p, s, e);
    StepKeepsExactly(p, s, f, e);
    FreshKeepsOnce(p, s, f, e);
  }

  lemma FreshReached(p: Params, events: seq<Event>, f: nat)
    requires Runs.Allowed(Stepper(p), FRESH(f), Init(), events)
    ensures FreshInv(Runs.Run(Stepper(p), Init(), events), f)
  {
    hide Apply, Reuses;
    forall s, e | FreshInv(s, f) && FRESH(f)(s, e) ensures FreshInv(Stepper(p)(s, e), f) {
      FreshKeeps(p, s, f, e);
    }
    Runs.Preserved(Stepper(p), FRESH(f), (s: Source) => FreshInv(s, f), Init(), events);
  }

  /** So nothing is lost, without further condition, as long as the call's name is not used for another call. */
  lemma NothingLostFresh(p: Params, events: seq<Event>, f: nat)
    requires Runs.Allowed(Stepper(p), FRESH(f), Init(), events)
    requires f in Runs.Run(Stepper(p), Init(), events).enqueued
    ensures var s := Runs.Run(Stepper(p), Init(), events);
            f in s.calls && Stored(s, s.calls[f])
  {
    FreshReached(p, events, f);
    hide Runs.Run, Stepper, FRESH;
  }
}
