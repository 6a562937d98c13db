/**
 The source half of the bridge as a labelled transition system.  Any number of
 `Enqueue` calls fill the spool, one system call at a time, while one courier process
 runs `PushOnce`, one file operation or request at a time; nothing keeps the two
 apart.  A call or the courier may stop between any two steps, and so may the machine.

 A call is a number, and so are the two files it creates, the message and its sidecar:
 directories map names to calls, so that a file keeps its identity across a hard link
 and while it is still being written.  Every directory has a live view and the view
 that survives a power failure, and so has every file's content.  An event that is
 not enabled leaves the state alone, so every finite sequence of events is a run.
 */
module BridgeSource {
  import opened Text
  import opened BridgeEnvelope

  /**
   What the machine needs to know about message contents: how `readSpool` turns a file name, its bytes and
   its sidecar into a signed envelope, and what `Enqueue` accepts.  `BridgeRead` gives the actual ones.
   */
  datatype Params = Params(
    read: (string, string, Option<string>) -> Option<Envelope>,
    accepts: (string, string, string) -> bool,
    batch: nat)

  /** One directory: what processes see, and what a power failure is sure to keep. */
  datatype Dir<V> = Dir(live: map<string, V>, synced: map<string, V>)

  /** Both views alike. */
  function Both<V>(m: map<string, V>): Dir<V> { Dir(m, m) }

  function Synced<V>(d: Dir<V>): Dir<V> { Both(d.live) }

  /** The name stands for this value, for processes and after a power failure. */
  predicate Holds<V(==)>(d: Dir<V>, n: string, v: V) {
    Lookup(d.live, n) == Some(v) && Lookup(d.synced, n) == Some(v)
  }

  /** The content of a file, as processes see it and as the disk has it. */
  datatype Bytes = Bytes(live: string, kept: string)

  type Files = map<nat, Bytes>

  /** A receipt file is written in place, so a stop in the middle leaves it torn. */
  datatype ReceiptFile = Torn | Written(stage: Stage, transferId: string, digest: string)

  predicate Matches(r: ReceiptFile, stage: Stage, e: Envelope) {
    r.Written? && r.stage == stage && r.transferId == e.transferId && EqualFold(r.digest, e.payloadSha)
  }

  /** A receipt for this envelope is visible and survives a power failure. */
  predicate OnDisk(d: Dir<ReceiptFile>, stage: Stage, e: Envelope) {
    var f := ReceiptFilename(e.transferId, stage);
    f in d.live && Holds(d, f, d.live[f]) && Matches(d.live[f], stage, e)
  }

  /** One spool file as the courier read it: its bytes, its sidecar if there was one, the envelope signed. */
  datatype Item = Item(name: string, data: string, sidecar: Option<string>, env: Envelope)

  /** Where `PushOnce` stands with one item. */
  datatype Step =
    | Check
    | Accepted(digest: string)
    | Receipted
    | Linked
    | SentSynced
    | SourceGone
    | SidecarGone

  datatype Phase =
    | Idle
    | Reading(names: seq<string>, got: seq<Item>, data: Option<string>)
    | Working(items: seq<Item>, at: nat, step: Step)

  /** Where an `Enqueue` stands; `Aborting` is after the removal of a sidecar that could not be written. */
  datatype CallStage = Writing | Published | Labeling | Labeled | Aborting

  /** The arguments of one `Enqueue` that got as far as creating its file. */
  datatype Call = Call(name: string, data: string, alias: string)

  /** What `Enqueue` writes into the sidecar. */
  function LabelLine(alias: string): string { alias + "\n" }

  /** `spool` and `sidecars` share a directory; sidecars are listed under the message they belong to. */
  datatype Source = Source(
    files: Files,               // the message file of each call
    labels: Files,              // the sidecar file of each call
    spool: Dir<nat>,
    sidecars: Dir<nat>,
    sent: Dir<nat>,
    receipts: Dir<ReceiptFile>,
    phase: Phase,
    writers: map<nat, CallStage>,  // the calls under way
    calls: map<nat, Call>,        // every call that created its file
    enqueued: set<nat>,           // every call that reported success
    posted: set<Envelope>,        // every envelope handed to the rendezvous
    seen: set<Item>,              // everything the courier read and signed
    gone: map<string, Item>)      // the item for which a name was last removed from the spool

  function Nowhere<V>(): Dir<V> { Dir(map[], map[]) }

  function Init(): Source {
    Source(map[], map[], Nowhere(), Nowhere(), Nowhere(), Nowhere(), Idle, map[], map[], {}, {}, {}, map[])
  }

  // ---- what a directory shows ----

  function Texts(files: Files, dir: map<string, nat>): map<string, string> {
    map n | n in dir && dir[n] in files :: files[dir[n]].live
  }

  function Eligible<V>(live: map<string, V>): set<string> {
    set n | n in live && IsMessageName(n)
  }

  /** The envelope of one spool file, or nothing when `readSpool` fails on it. */
  function EnvelopeOf(p: Params, spool: map<string, string>, labels: map<string, string>, n: string): Option<Envelope>
    requires n in spool
  {
    p.read(n, spool[n], Lookup(labels, n))
  }

  /** Every eligible file must be readable, not only those of the batch. */
  predicate Readable(p: Params, spool: map<string, string>, labels: map<string, string>) {
    forall n :: n in Eligible(spool) ==> EnvelopeOf(p, spool, labels, n).Some?
  }

  /** `os.ReadDir` after filtering: all eligible names, in order. */
  predicate IsListing(names: seq<string>, eligible: set<string>) {
    && |names| == |eligible|
    && (forall i, j :: 0 <= i < j < |names| ==> Less(names[i], names[j]))
    && (forall n :: n in names ==> n in eligible)
  }

  // ---- events ----

  datatype EnqueueStep =
    | Open(name: string, data: string, alias: string)
    | Write(n: nat)
    | SyncFile
    | Label
    | WriteLabel(n: nat)
    | SyncLabel
    | Done
    | Unlabel(removed: bool)
    | Fail
    | Quit

  datatype ScanStep = List(names: seq<string>) | ReadData | ReadLabel | Take

  datatype WorkStep =
    | UseReceipt
    | Post(delivered: bool, accepted: Option<string>)
    | WriteReceipt
    | WriteUnsynced
    | TearReceipt
    | Link
    | SyncSent
    | RemoveSource
    | RemoveSidecar
    | SyncSpool

  /** What a power failure leaves. */
  datatype Disk = Disk(
    files: Files,
    labels: Files,
    spool: map<string, nat>,
    sidecars: map<string, nat>,
    sent: map<string, nat>,
    receipts: map<string, ReceiptFile>)

  datatype Event =
    | Enqueue(f: nat, call: EnqueueStep)
    | Scan(scan: ScanStep)
    | Push(work: WorkStep)
    | Stop
    | PowerLoss(disk: Disk)

  // ---- Enqueue ----

  /** `Enqueue` from the exclusive creation of the message on. */
  function EnqueueApply(p: Params, s: Source, f: nat, call: EnqueueStep): (t: Source)
    ensures t.sent == s.sent && t.receipts == s.receipts && t.phase == s.phase
    ensures t.seen == s.seen && t.posted == s.posted && t.gone == s.gone
  {
    if call.Open? then
      if f in s.calls || call.name in s.spool.live || call.data == "" || !p.accepts(call.name, call.data, call.alias)
      then s
      else
        s.(files := s.files[f := Bytes("", "")],
           spool := s.spool.(live := s.spool.live[call.name := f]),
           writers := s.writers[f := Writing],
           calls := s.calls[f := Call(call.name, call.data, call.alias)])
    else if f !in s.writers || f !in s.calls then s
    else EnqueueGo(s, f, s.calls[f], s.writers[f], call)
  }

  function Content(files: Files, f: nat): Bytes {
    if f in files then files[f] else Bytes("", "")
  }

  /** Appending to a file until its first `n` characters are there; nothing is synced. */
  function Extended(files: Files, f: nat, text: string, n: nat): Files {
    if |Content(files, f).live| <= n <= |text| then files[f := Bytes(text[..n], Content(files, f).kept)] else files
  }

  /** A call under way that has reached `stage`; errors remove what was created, by name. */
  function EnqueueGo(s: Source, f: nat, c: Call, stage: CallStage, call: EnqueueStep): (t: Source)
    ensures t.sent == s.sent && t.receipts == s.receipts && t.phase == s.phase && t.calls == s.calls
    ensures t.seen == s.seen && t.posted == s.posted && t.gone == s.gone
  {
    match call
    case Open(_, _, _) => s
    case Write(n) =>
      if stage.Writing? then s.(files := Extended(s.files, f, c.data, n)) else s
    case SyncFile =>
      if stage.Writing? && Content(s.files, f).live == c.data then
        s.(files := s.files[f := Bytes(c.data, c.data)], writers := s.writers[f := Published])
      else s
    case Label =>
      if stage.Published? && c.name !in s.sidecars.live then
        s.(labels := s.labels[f := Bytes("", "")],
           sidecars := s.sidecars.(live := s.sidecars.live[c.name := f]),
           writers := s.writers[f := Labeling])
      else s
    case WriteLabel(n) =>
      if stage.Labeling? then s.(labels := Extended(s.labels, f, LabelLine(c.alias), n)) else s
    case SyncLabel =>
      if stage.Labeling? && Content(s.labels, f).live == LabelLine(c.alias) then
        s.(labels := s.labels[f := Bytes(LabelLine(c.alias), LabelLine(c.alias))],
           writers := s.writers[f := Labeled])
      else s
    case Done =>
      if stage.Labeled? then
        s.(spool := Synced(s.spool), sidecars := Synced(s.sidecars),
           enqueued := s.enqueued + {f}, writers := s.writers - {f})
      else s
    case Unlabel(removed) =>
      if stage.Labeling? then
        s.(sidecars := if removed then s.sidecars.(live := s.sidecars.live - {c.name}) else s.sidecars,
           writers := s.writers[f := Aborting])
      else s
    case Fail =>
      if stage.Writing? || stage.Published? || stage.Aborting? then
        s.(spool := s.spool.(live := s.spool.live - {c.name}), writers := s.writers - {f})
      else s
    case Quit => s.(writers := s.writers - {f})
  }

  // ---- reading the spool ----

  /** `readSpool`: list, then the bytes and the sidecar of every eligible file in turn, then cut to the batch. */
  function ScanApply(p: Params, s: Source, scan: ScanStep): (t: Source)
    ensures t == s.(phase := t.phase, seen := t.seen) && s.seen <= t.seen
  {
    match scan
    case List(names) =>
      if s.phase.Idle? && IsListing(names, Eligible(s.spool.live)) then s.(phase := Reading(names, [], None)) else s
    case ReadData =>
      if s.phase.Reading? && s.phase.data.None? && |s.phase.got| < |s.phase.names|
         && Lookup(Texts(s.files, s.spool.live), s.phase.names[|s.phase.got|]).Some?
      then s.(phase := s.phase.(data := Lookup(Texts(s.files, s.spool.live), s.phase.names[|s.phase.got|])))
      else s
    case ReadLabel =>
      if s.phase.Reading? && s.phase.data.Some? && |s.phase.got| < |s.phase.names|
      then LabelRead(p, s, s.phase.names[|s.phase.got|], s.phase.data.value)
      else s
    case Take =>
      if s.phase.Reading? && s.phase.data.None? && |s.phase.got| == |s.phase.names|
      then s.(phase := Begun(s.phase.got, p.batch))
      else s
  }

  function LabelRead(p: Params, s: Source, n: string, data: string): Source
    requires s.phase.Reading?
  {
    var sidecar := Lookup(Texts(s.labels, s.sidecars.live), n);
    var env := p.read(n, data, sidecar);
    if env.None? then s
    else
      var i := Item(n, data, sidecar, env.value);
      s.(phase := s.phase.(got := s.phase.got + [i], data := None), seen := s.seen + {i})
  }

  /** At most a batch is pushed. */
  function Begun(items: seq<Item>, batch: nat): Phase {
    var n := if |items| < batch then |items| else batch;
    if n == 0 then Idle else Working(items[..n], 0, Check)
  }

  // ---- pushing one item ----

  function ReceiptName(i: Item): string { ReceiptFilename(i.env.transferId, TransportAccepted) }

  predicate WorkEnabled(s: Source, i: Item, step: Step, work: WorkStep) {
    var f := ReceiptName(i);
    match work
    case UseReceipt => step.Check? && f in s.receipts.live && Matches(s.receipts.live[f], TransportAccepted, i.env)
    case Post(delivered, accepted) =>
      && step.Check? && f !in s.receipts.live
      && (accepted.Some? ==> delivered && EqualFold(accepted.value, i.env.payloadSha))
    case WriteReceipt => step.Accepted? && f !in s.receipts.live
    case WriteUnsynced => step.Accepted? && f !in s.receipts.live
    case TearReceipt => step.Accepted? && f !in s.receipts.live
    case Link =>
      && step.Receipted?
      && (if i.name in s.sent.live then Lookup(Texts(s.files, s.sent.live), i.name) == Some(i.data)
          else i.name in s.spool.live)
    case SyncSent => step.Linked?
    case RemoveSource => step.SentSynced?
    case RemoveSidecar => step.SourceGone?
    case SyncSpool => step.SidecarGone?
  }

  function Receive(s: Source, i: Item, r: ReceiptFile): Dir<ReceiptFile> {
    s.receipts.(live := s.receipts.live[ReceiptName(i) := r])
  }

  function NewReceipt(i: Item, step: Step): ReceiptFile {
    if step.Accepted? then Written(TransportAccepted, i.env.transferId, step.digest) else Torn
  }

  /** Nothing but directories, the courier and the post changes. */
  predicate OnlyCourier(s: Source, t: Source) {
    && t.files == s.files && t.labels == s.labels && t.writers == s.writers
    && t.calls == s.calls && t.enqueued == s.enqueued && t.seen == s.seen
  }

  function AtStep(phase: Phase, step: Step): Phase
    requires phase.Working?
  {
    Working(phase.items, phase.at, step)
  }

  /** Up to the receipt. */
  function Accepting(s: Source, i: Item, work: WorkStep): (t: Source)
    requires s.phase.Working?
    ensures OnlyCourier(s, t) && t.spool == s.spool && t.sidecars == s.sidecars && t.sent == s.sent && t.gone == s.gone
  {
    match work
    case UseReceipt => s.(phase := AtStep(s.phase, Receipted))
    case Post(delivered, accepted) =>
      s.(posted := if delivered then s.posted + {i.env} else s.posted,
         phase := if accepted.Some? then AtStep(s.phase, Accepted(accepted.value)) else Idle)
    case WriteReceipt =>
      s.(receipts := Synced(Receive(s, i, NewReceipt(i, s.phase.step))), phase := AtStep(s.phase, Receipted))
    case WriteUnsynced => s.(receipts := Receive(s, i, NewReceipt(i, s.phase.step)), phase := Idle)
    case TearReceipt => s.(receipts := Receive(s, i, Torn), phase := Idle)
    case _ => s
  }

  /** `moveToSent`. */
  function Moving(s: Source, i: Item, work: WorkStep): (t: Source)
    requires s.phase.Working?
    ensures OnlyCourier(s, t) && t.receipts == s.receipts && t.posted == s.posted
  {
    match work
    case Link =>
      s.(sent := if i.name in s.sent.live || i.name !in s.spool.live then s.sent
                 else s.sent.(live := s.sent.live[i.name := s.spool.live[i.name]]),
         phase := AtStep(s.phase, Linked))
    case SyncSent => s.(sent := Synced(s.sent), phase := AtStep(s.phase, SentSynced))
    case RemoveSource =>
      s.(spool := s.spool.(live := s.spool.live - {i.name}), gone := s.gone[i.name := i],
         phase := AtStep(s.phase, SourceGone))
    case RemoveSidecar =>
      s.(sidecars := s.sidecars.(live := s.sidecars.live - {i.name}), phase := AtStep(s.phase, SidecarGone))
    case SyncSpool =>
      s.(spool := Synced(s.spool), sidecars := Synced(s.sidecars), phase := AfterItem(s.phase))
    case _ => s
  }

  predicate IsMove(work: WorkStep) {
    work.Link? || work.SyncSent? || work.RemoveSource? || work.RemoveSidecar? || work.SyncSpool?
  }

  /** The effect of one enabled step on the current item. */
  function Work(s: Source, i: Item, work: WorkStep): (t: Source)
    requires s.phase.Working?
    ensures OnlyCourier(s, t)
  {
    if IsMove(work) then Moving(s, i, work) else Accepting(s, i, work)
  }

  /** Where the loop stands when the current item is done. */
  function AfterItem(phase: Phase): Phase {
    if !phase.Working? || phase.at + 1 == |phase.items| then Idle else Working(phase.items, phase.at + 1, Check)
  }

  function WorkApply(s: Source, work: WorkStep): (t: Source)
    ensures OnlyCourier(s, t)
  {
    if s.phase.Working? && s.phase.at < |s.phase.items| && WorkEnabled(s, s.phase.items[s.phase.at], s.phase.step, work)
    then Work(s, s.phase.items[s.phase.at], work)
    else s
  }

  // ---- power failures ----

  /** Each name shows its live or its synced entry; agreeing views are kept. */
  ghost predicate Survives<V(!new)>(d: Dir<V>, after: map<string, V>) {
    && (forall n :: n in after ==> Lookup(d.live, n) == Some(after[n]) || Lookup(d.synced, n) == Some(after[n]))
    && (forall n :: n in d.live && Lookup(d.synced, n) == Some(d.live[n]) ==> Lookup(after, n) == Some(d.live[n]))
  }

  /** The same for receipts, but one that was not synced may also be torn. */
  ghost predicate ReceiptsSurvive(d: Dir<ReceiptFile>, after: map<string, ReceiptFile>) {
    && (forall n :: n in after ==>
          || (after[n].Torn? && n in d.live)
          || Lookup(d.live, n) == Some(after[n]) || Lookup(d.synced, n) == Some(after[n]))
    && (forall n :: n in d.live && Lookup(d.synced, n) == Some(d.live[n]) ==> Lookup(after, n) == Some(d.live[n]))
  }

  /** Content that was synced is kept, any other may come back as anything. */
  ghost predicate FilesSurvive(files: Files, after: Files) {
    && after.Keys == files.Keys
    && forall f :: f in files ==>
         after[f].live == after[f].kept && (files[f].live == files[f].kept ==> after[f] == files[f])
  }

  ghost predicate CanFail(s: Source, d: Disk) {
    && FilesSurvive(s.files, d.files) && FilesSurvive(s.labels, d.labels)
    && Survives(s.spool, d.spool) && Survives(s.sidecars, d.sidecars) && Survives(s.sent, d.sent)
    && ReceiptsSurvive(s.receipts, d.receipts)
  }

  ghost function PowerApply(s: Source, d: Disk): Source {
    if !CanFail(s, d) then s
    else
      s.(files := d.files, labels := d.labels, spool := Dir(d.spool, d.spool),
         sidecars := Dir(d.sidecars, d.sidecars), sent := Dir(d.sent, d.sent),
         receipts := Dir(d.receipts, d.receipts), phase := Idle, writers := map[])
  }

  ghost function Apply(p: Params, s: Source, e: Event): Source {
    match e
    case Enqueue(f, call) => EnqueueApply(p, s, f, call)
    case Scan(scan) => ScanApply(p, s, scan)
    case Push(work) => WorkApply(s, work)
    case Stop => s.(phase := Idle)
    case PowerLoss(disk) => PowerApply(s, disk)
  }

  ghost function Stepper(p: Params): (Source, Event) -> Source {
    (s, e) => Apply(p, s, e)
  }
}
