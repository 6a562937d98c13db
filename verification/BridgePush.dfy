/**
 `PushOnce` itself, over directories it changes in place.  Each operation is one
 event of `BridgeSource`, so whatever holds in every run of that system holds at
 every point of the loop; the method's own contract says when it converges.
 */
module BridgePush {
  import opened Text
  import opened BridgeEnvelope
  import opened BridgeSource
  import opened BridgeRuns

  datatype Op = PostOp | ReceiptOp | LinkOp | SyncSentOp | RemoveOp | SidecarOp | SyncSpoolOp

  /**
   What a failed write of a receipt leaves: a torn file when it cannot be removed, a good one when only the sync
   failed.
   */
  datatype Leftover = Nothing | TornFile | UnsyncedFile

  /** What the outside does: which operation fails on which message, and the digest in the rendezvous' reply. */
  datatype Faults = Faults(
    fails: (string, Op) -> bool,
    delivered: string -> bool,
    reply: string -> string,
    leaves: string -> Leftover)

  predicate NoFault(io: Faults, i: Item) {
    && (forall op :: !io.fails(i.name, op))
    && EqualFold(io.reply(i.name), i.env.payloadSha)
  }

  predicate DistinctNames(items: seq<Item>) {
    forall i, j :: 0 <= i < j < |items| ==> items[i].name != items[j].name
  }

  /** The item is what the courier makes of the file of its name. */
  predicate IsItem(p: Params, spool: map<string, string>, labels: map<string, string>, i: Item) {
    && i.name in spool && i.data == spool[i.name] && i.sidecar == Lookup(labels, i.name)
    && EnvelopeOf(p, spool, labels, i.name) == Some(i.env)
  }

  predicate HasReceipt(receipts: map<string, ReceiptFile>, env: Envelope) {
    var f := ReceiptFilename(env.transferId, TransportAccepted);
    f in receipts && Matches(receipts[f], TransportAccepted, env)
  }

  /** The receipt file allows the item: absent, or complete and for the same transfer and digest. */
  predicate ReceiptAllows(receipts: map<string, ReceiptFile>, i: Item) {
    ReceiptName(i) in receipts ==> Matches(receipts[ReceiptName(i)], TransportAccepted, i.env)
  }

  /** So does the archive: nothing under the item's name, or a file with its bytes. */
  predicate ArchiveAllows(files: Files, sent: map<string, nat>, i: Item) {
    i.name in sent ==> Lookup(Texts(files, sent), i.name) == Some(i.data)
  }

  /** No stored file contradicts the item, and no two items claim one receipt file for different payloads. */
  ghost predicate Unopposed(s: Source, items: seq<Item>, k: nat)
    requires k <= |items|
  {
    && (forall j :: 0 <= j < k ==>
          ReceiptAllows(s.receipts.live, items[j]) && ArchiveAllows(s.files, s.sent.live, items[j]))
    && (forall j, l :: 0 <= j < l < k && ReceiptName(items[j]) == ReceiptName(items[l])
          ==> EqualFold(items[j].env.payloadSha, items[l].env.payloadSha))
  }

  function NamesOf(items: seq<Item>): set<string> {
    set i | i in items :: i.name
  }

  predicate Explained(items: seq<Item>, k: nat, f: string) {
    k <= |items| && exists j :: 0 <= j < k && f == ReceiptName(items[j])
  }

  ghost predicate Removed(before: map<string, nat>, after: map<string, nat>, items: seq<Item>, k: nat) {
    k <= |items| && after == before - NamesOf(items[..k])
  }

  /** The first `k` items are archived with their receipts; the archive is unchanged for the others. */
  ghost predicate Placed(s0: Source, s: Source, items: seq<Item>, k: nat) {
    && k <= |items| && s.files == s0.files
    && (forall j :: 0 <= j < k ==> Lookup(Texts(s.files, s.sent.live), items[j].name) == Some(items[j].data))
    && (forall j :: 0 <= j < k ==> HasReceipt(s.receipts.live, items[j].env))
    && (forall j :: k <= j < |items| ==> Lookup(s.sent.live, items[j].name) == Lookup(s0.sent.live, items[j].name))
  }

  ghost predicate ReceiptsGrow(r0: map<string, ReceiptFile>, r: map<string, ReceiptFile>, items: seq<Item>, k: nat) {
    && (forall f :: f in r0 ==> f in r && r[f] == r0[f])
    && (forall f :: f in r && f !in r0 ==> Explained(items, k, f))
  }

  /** From `s0` the first `k` items have been pushed and nothing else has changed on disk. */
  ghost predicate Progress(s0: Source, s: Source, items: seq<Item>, k: nat) {
    && k <= |items|
    && Removed(s0.spool.live, s.spool.live, items, k) && Removed(s0.sidecars.live, s.sidecars.live, items, k)
    && Placed(s0, s, items, k) && ReceiptsGrow(s0.receipts.live, s.receipts.live, items, k)
    && Unopposed(s0, items, k)
  }

  /** Two items with one receipt file pass one after the other exactly when their digests agree. */
  lemma SharedReceipt(r: map<string, ReceiptFile>, a: Item, b: Item)
    requires HasReceipt(r, a.env) && ReceiptName(a) == ReceiptName(b)
    ensures ReceiptAllows(r, b) <==> EqualFold(a.env.payloadSha, b.env.payloadSha)
  {
    ReceiptFilenameInjective(a.env.transferId, TransportAccepted, b.env.transferId, TransportAccepted);
  }

  lemma NextReceiptAllowed(r0: map<string, ReceiptFile>, r: map<string, ReceiptFile>, items: seq<Item>, k: nat)
    requires k < |items| && ReceiptsGrow(r0, r, items, k) && forall j :: 0 <= j < k ==> HasReceipt(r, items[j].env)
    ensures ReceiptAllows(r, items[k]) <==>
            && ReceiptAllows(r0, items[k])
            && forall j :: 0 <= j < k && ReceiptName(items[j]) == ReceiptName(items[k])
                 ==> EqualFold(items[j].env.payloadSha, items[k].env.payloadSha)
  {
    var f := ReceiptName(items[k]);
    forall j | 0 <= j < k && ReceiptName(items[j]) == f
      ensures ReceiptAllows(r, items[k]) <==> EqualFold(items[j].env.payloadSha, items[k].env.payloadSha)
    {
      assert HasReceipt(r, items[j].env);
      SharedReceipt(r, items[j], items[k]);
    }
    if f in r && f !in r0 {
      assert Explained(items, k, f);
    }
  }

  lemma SameArchive(files: Files, a: map<string, nat>, b: map<string, nat>, i: Item)
    requires Lookup(a, i.name) == Lookup(b, i.name)
    ensures ArchiveAllows(files, a, i) <==> ArchiveAllows(files, b, i)
  {
  }

  /** Whether the next item can pass is already decided by the state at the start. */
  lemma NextAllowed(s0: Source, s: Source, items: seq<Item>, k: nat)
    requires Progress(s0, s, items, k) && k < |items|
    ensures ReceiptAllows(s.receipts.live, items[k]) && ArchiveAllows(s.files, s.sent.live, items[k])
            <==> Unopposed(s0, items, k + 1)
  {
    hide ReceiptFilename, Matches, EqualFold, ReceiptAllows, Explained, HasReceipt, Texts, ArchiveAllows;
    NextReceiptAllowed(s0.receipts.live, s.receipts.live, items, k);
    SameArchive(s.files, s.sent.live, s0.sent.live, items[k]);
  }

  lemma RemovedStep(before: map<string, nat>, mid: map<string, nat>, items: seq<Item>, k: nat)
    requires k < |items| && Removed(before, mid, items, k)
    ensures Removed(before, mid - {items[k].name}, items, k + 1)
  {
    assert items[..k + 1] == items[..k] + [items[k]];
    assert NamesOf(items[..k + 1]) == NamesOf(items[..k]) + {items[k].name};
  }

  /** Removing the first `k` items leaves the next one where it was. */
  lemma NextRemains(files: Files, before: map<string, nat>, after: map<string, nat>, items: seq<Item>, k: nat)
    requires k < |items| && DistinctNames(items) && Removed(before, after, items, k)
    requires Lookup(Texts(files, before), items[k].name) == Some(items[k].data)
    ensures items[k].name in after && Lookup(Texts(files, after), items[k].name) == Some(items[k].data)
  {
    assert items[k].name !in NamesOf(items[..k]);
  }

  lemma UnopposedPrefix(s: Source, items: seq<Item>, k: nat)
    requires k <= |items| && Unopposed(s, items, |items|)
    ensures Unopposed(s, items, k)
  {
  }

  /** How `PushItem` changes the receipts. */
  ghost predicate AddsReceipt(r: map<string, ReceiptFile>, after: map<string, ReceiptFile>, i: Item) {
    || after == r
    || (ReceiptName(i) !in r && ReceiptName(i) in after && after == r[ReceiptName(i) := after[ReceiptName(i)]])
  }

  /** What `moveToSent` leaves in the archive: the item's file, or the equal one that was there. */
  predicate ArchivedAs(spool: map<string, nat>, sent: map<string, nat>, after: map<string, nat>, i: Item) {
    i.name in spool && after == if i.name in sent then sent else sent[i.name := spool[i.name]]
  }

  lemma ArchiveHasItem(files: Files, spool: map<string, nat>, sent: map<string, nat>, after: map<string, nat>, i: Item)
    requires ArchivedAs(spool, sent, after, i) && ArchiveAllows(files, sent, i)
    requires Lookup(Texts(files, spool), i.name) == Some(i.data)
    ensures Lookup(Texts(files, after), i.name) == Some(i.data)
    ensures forall n :: n != i.name ==> Lookup(after, n) == Lookup(sent, n)
    ensures forall n :: n != i.name ==> Lookup(Texts(files, after), n) == Lookup(Texts(files, sent), n)
  {
  }

  lemma PlacedStep(s0: Source, s: Source, t: Source, items: seq<Item>, k: nat)
    requires k < |items| && Placed(s0, s, items, k) && DistinctNames(items)
    requires AddsReceipt(s.receipts.live, t.receipts.live, items[k]) && HasReceipt(t.receipts.live, items[k].env)
    requires t.files == s.files && ArchivedAs(s.spool.live, s.sent.live, t.sent.live, items[k])
    requires ArchiveAllows(s.files, s.sent.live, items[k])
    requires Lookup(Texts(s.files, s.spool.live), items[k].name) == Some(items[k].data)
    ensures Placed(s0, t, items, k + 1)
  {
    ArchiveHasItem(s.files, s.spool.live, s.sent.live, t.sent.live, items[k]);
    hide Texts, ArchivedAs, ArchiveAllows, Matches;
    forall j | 0 <= j < k + 1 ensures HasReceipt(t.receipts.live, items[j].env) {
      if j < k { assert HasReceipt(s.receipts.live, items[j].env); }
    }
    assert forall j :: 0 <= j < |items| && j != k ==> items[j].name != items[k].name;
  }

  lemma ReceiptsStep(r0: map<string, ReceiptFile>, r: map<string, ReceiptFile>, after: map<string, ReceiptFile>,
                     items: seq<Item>, k: nat)
    requires k < |items| && ReceiptsGrow(r0, r, items, k) && AddsReceipt(r, after, items[k])
    ensures ReceiptsGrow(r0, after, items, k + 1)
  {
    forall f | f in after && f !in r0 ensures Explained(items, k + 1, f) {
      if f in r { assert Explained(items, k, f); }
    }
  }

  /** A sorted listing as long as the set it comes from holds all of it. */
  lemma ListingIsComplete(listing: seq<string>, eligible: set<string>)
    requires IsListing(listing, eligible)
    ensures forall n :: n in eligible ==> n in listing
  {
    var seen := set n | n in listing;
    SortedCardinality(listing);
    SubsetOfSameSize(seen, eligible);
  }

  lemma {:induction false} SortedCardinality(names: seq<string>)
    requires forall i, j :: 0 <= i < j < |names| ==> Less(names[i], names[j])
    ensures |set n | n in names| == |names|
  {
    if names != [] {
      var k := |names| - 1;
      SortedCardinality(names[..k]);
      var rest := set n | n in names[..k];
      if names[k] in names[..k] {
        var i :| 0 <= i < k && names[i] == names[k];
        LessIrreflexive(names[k]);
        assert false;
      }
      assert names == names[..k] + [names[k]];
      assert (set n | n in names) == rest + {names[k]};
    }
  }

  lemma SubsetOfSameSize(a: set<string>, b: set<string>)
    requires a <= b && |a| == |b|
    ensures a == b
  {
    assert |b - a| == |b| - |a|;
  }

  lemma NothingOpposes(s: Source)
    ensures Unopposed(s, [], 0)
  {
  }

  lemma ProgressStart(s: Source, t: Source, items: seq<Item>)
    requires t.files == s.files && t.spool == s.spool && t.sidecars == s.sidecars && t.sent == s.sent
    requires t.receipts == s.receipts
    ensures Progress(s, t, items, 0)
  {
    hide ReceiptFilename, Matches, HasReceipt, ReceiptAllows, ArchiveAllows, Texts;
    assert items[..0] == [] && NamesOf([]) == {};
  }

  lemma AfterItemIgnoresStep(a: Phase, b: Phase)
    requires a.Working? && b.Working? && a.items == b.items && a.at == b.at
    ensures AfterItem(a) == AfterItem(b)
  {
  }

  lemma Listed(spool: map<string, nat>, listing: seq<string>, k: nat)
    requires IsListing(listing, Eligible(spool)) && k < |listing|
    ensures listing[k] in spool && IsMessageName(listing[k])
  {
    assert listing[k] in Eligible(spool);
  }

  /** One file that cannot be read makes the spool unreadable. */
  lemma Unreadable(p: Params, files: Files, spool: map<string, nat>, labels: map<string, string>,
                   listing: seq<string>, k: nat)
    requires IsListing(listing, Eligible(spool)) && k < |listing| && listing[k] in spool && spool[listing[k]] in files
    requires EnvelopeOf(p, Texts(files, spool), labels, listing[k]).None?
    ensures !Readable(p, Texts(files, spool), labels)
  {
    Listed(spool, listing, k);
    assert listing[k] in Eligible(Texts(files, spool));
  }

  lemma AllReadable(p: Params, files: Files, spool: map<string, nat>, labels: map<string, string>,
                    listing: seq<string>, got: seq<Item>)
    requires IsListing(listing, Eligible(spool)) && |got| == |listing|
    requires forall j :: 0 <= j < |got| ==> got[j].name == listing[j] && IsItem(p, Texts(files, spool), labels, got[j])
    ensures Readable(p, Texts(files, spool), labels)
  {
    ListingIsComplete(listing, Eligible(spool));
    forall n | n in Eligible(Texts(files, spool)) ensures EnvelopeOf(p, Texts(files, spool), labels, n).Some? {
      assert n in Eligible(spool);
      var j :| 0 <= j < |listing| && listing[j] == n;
      assert IsItem(p, Texts(files, spool), labels, got[j]);
    }
  }

  lemma ItemsDistinct(listing: seq<string>, eligible: set<string>, items: seq<Item>)
    requires IsListing(listing, eligible) && |items| <= |listing|
    requires forall j :: 0 <= j < |items| ==> items[j].name == listing[j]
    ensures DistinctNames(items)
  {
    forall a, b | 0 <= a < b < |items| ensures items[a].name != items[b].name {
      assert Less(listing[a], listing[b]);
      LessIrreflexive(listing[a]);
    }
  }

  function Least(a: nat, b: nat): nat { if a < b then a else b }

  /** The courier works on item `i` and has reached `step`. */
  predicate AtItem(phase: Phase, i: Item, step: Step) {
    phase.Working? && phase.at < |phase.items| && phase.items[phase.at] == i && phase.step == step
  }

  /** The three ways in which a receipt file comes into being. */
  lemma Recorded(p: Params, s: Source, i: Item, digest: string)
    requires AtItem(s.phase, i, Accepted(digest)) && ReceiptName(i) !in s.receipts.live
    ensures var r := s.receipts.live[ReceiptName(i) := Written(TransportAccepted, i.env.transferId, digest)];
            && Reaches(p, s, [Push(WriteReceipt)],
                       s.(phase := AtStep(s.phase, Receipted), receipts := Dir(r, r)))
            && Reaches(p, s, [Push(WriteUnsynced)], s.(phase := Idle, receipts := Dir(r, s.receipts.synced)))
    ensures Reaches(p, s, [Push(TearReceipt)],
                    s.(phase := Idle, receipts := Dir(s.receipts.live[ReceiptName(i) := Torn], s.receipts.synced)))
  {
    hide Reaches, ReceiptName, Moving;
    Worked(p, s, WriteReceipt);
    Worked(p, s, WriteUnsynced);
    Worked(p, s, TearReceipt);
  }

  /** A receipt taken up, and a post with its outcome. */
  lemma Offered(p: Params, s: Source, i: Item, delivered: bool, accepted: Option<string>)
    requires AtItem(s.phase, i, Check) && (accepted.Some? ==> delivered && EqualFold(accepted.value, i.env.payloadSha))
    ensures HasReceipt(s.receipts.live, i.env) ==>
              Reaches(p, s, [Push(UseReceipt)], s.(phase := AtStep(s.phase, Receipted)))
    ensures ReceiptName(i) !in s.receipts.live ==>
              Reaches(p, s, [Push(Post(delivered, accepted))],
                      s.(posted := if delivered then s.posted + {i.env} else s.posted,
                         phase := if accepted.Some? then AtStep(s.phase, Accepted(accepted.value)) else Idle))
  {
    hide Reaches, ReceiptFilename, Moving, EqualFold;
    if HasReceipt(s.receipts.live, i.env) { Worked(p, s, UseReceipt); }
    if ReceiptName(i) !in s.receipts.live { Worked(p, s, Post(delivered, accepted)); }
  }

  class Courier {
    var files: Files
    var labels: Files
    var spool: map<string, nat>
    var sidecars: map<string, nat>
    var sent: map<string, nat>
    var receipts: map<string, ReceiptFile>
    ghost var spoolSynced: map<string, nat>
    ghost var sidecarsSynced: map<string, nat>
    ghost var sentSynced: map<string, nat>
    ghost var receiptsSynced: map<string, ReceiptFile>
    ghost var phase: Phase
    ghost var writers: map<nat, CallStage>
    ghost var calls: map<nat, Call>
    ghost var enqueued: set<nat>
    ghost var posted: set<Envelope>
    ghost var seen: set<Item>
    ghost var gone: map<string, Item>

    ghost function Abs(): Source
      reads this
    {
      Source(files, labels, Dir(spool, spoolSynced), Dir(sidecars, sidecarsSynced), Dir(sent, sentSynced),
             Dir(receipts, receiptsSynced), phase, writers, calls, enqueued, posted, seen, gone)
    }

    /** Every spool entry has a file behind it. */
    predicate Valid()
      reads this
    {
      forall n :: n in spool ==> spool[n] in files
    }

    /** The spool file of the item still has the bytes that were read. */
    predicate Here(i: Item)
      reads this
    {
      i.name in spool && Lookup(Texts(files, spool), i.name) == Some(i.data)
    }

    ghost predicate At(i: Item, step: Step)
      reads this
    {
      AtItem(phase, i, step)
    }

    /** Reuse a receipt already on disk, or post the envelope. */
    method PostItem(p: Params, i: Item, io: Faults) returns (ok: bool, ghost events: seq<Event>)
      requires At(i, Check)
      modifies this`phase, this`posted
      ensures Reaches(p, old(Abs()), events, Abs())
      ensures ok ==> ReceiptAllows(receipts, i)
      ensures phase == if !ok then Idle
                       else if ReceiptName(i) in receipts then AtStep(old(phase), Receipted)
                       else AtStep(old(phase), Accepted(io.reply(i.name)))
      ensures ok && ReceiptName(i) !in receipts ==> EqualFold(io.reply(i.name), i.env.payloadSha)
      ensures NoFault(io, i) && ReceiptAllows(receipts, i) ==> ok
    {
      hide Reaches, ReceiptFilename, EqualFold, WorkEnabled;
      ghost var s := Abs();
      var f := ReceiptName(i);
      if f in receipts && !Matches(receipts[f], TransportAccepted, i.env) {
        Stopped(p, s);
        phase := Idle;
        ok, events := false, [Stop];
      } else if f in receipts {
        Offered(p, s, i, false, None);
        phase := AtStep(phase, Receipted);
        ok, events := true, [Push(UseReceipt)];
      } else {
        ok := !io.fails(i.name, PostOp) && EqualFold(io.reply(i.name), i.env.payloadSha);
        var delivered := ok || io.delivered(i.name);
        ghost var accepted := if ok then Some(io.reply(i.name)) else None;
        Offered(p, s, i, delivered, accepted);
        if delivered { posted := posted + {i.env}; }
        phase := if ok then AtStep(phase, Accepted(io.reply(i.name))) else Idle;
        events := [Push(Post(delivered, accepted))];
      }
    }

    /** A receipt that could not be written and synced, and what is left of it. */
    method FailToRecord(p: Params, i: Item, io: Faults) returns (ghost events: seq<Event>)
      requires At(i, Accepted(io.reply(i.name))) && ReceiptName(i) !in receipts
      requires EqualFold(io.reply(i.name), i.env.payloadSha)
      modifies this`phase, this`receipts
      ensures Reaches(p, old(Abs()), events, Abs())
      ensures phase == Idle
      ensures match io.leaves(i.name)
              case Nothing => receipts == old(receipts)
              case TornFile => receipts == old(receipts)[ReceiptName(i) := Torn]
              case UnsyncedFile => HasReceipt(receipts, i.env)
      ensures AddsReceipt(old(receipts), receipts, i)
    {
      hide Reaches, ReceiptFilename, EqualFold, WorkEnabled;
      Recorded(p, Abs(), i, io.reply(i.name));
      Stopped(p, Abs());
      phase := Idle;
      match io.leaves(i.name) {
        case Nothing =>
          events := [Stop];
        case TornFile =>
          receipts := receipts[ReceiptName(i) := Torn];
          events := [Push(TearReceipt)];
        case UnsyncedFile =>
          receipts := receipts[ReceiptName(i) := Written(TransportAccepted, i.env.transferId, io.reply(i.name))];
          events := [Push(WriteUnsynced)];
      }
    }

    /** Record what the rendezvous accepted; the receipt file and its directory are synced. */
    method RecordAccepted(p: Params, i: Item, io: Faults) returns (ok: bool, ghost events: seq<Event>)
      requires At(i, Accepted(io.reply(i.name))) && ReceiptName(i) !in receipts
      requires EqualFold(io.reply(i.name), i.env.payloadSha)
      modifies this`phase, this`receipts, this`receiptsSynced
      ensures Reaches(p, old(Abs()), events, Abs())
      ensures ok == !io.fails(i.name, ReceiptOp)
      ensures phase == if ok then AtStep(old(phase), Receipted) else Idle
      ensures ok ==> HasReceipt(receipts, i.env) && receiptsSynced == receipts
      ensures !ok ==> match io.leaves(i.name)
                      case Nothing => receipts == old(receipts)
                      case TornFile => receipts == old(receipts)[ReceiptName(i) := Torn]
                      case UnsyncedFile => HasReceipt(receipts, i.env)
      ensures !ok ==> receiptsSynced == old(receiptsSynced)
      ensures AddsReceipt(old(receipts), receipts, i)
    {
      hide Reaches, ReceiptFilename, EqualFold;
      ok := !io.fails(i.name, ReceiptOp);
      if ok {
        Recorded(p, Abs(), i, io.reply(i.name));
        receipts := receipts[ReceiptName(i) := Written(TransportAccepted, i.env.transferId, io.reply(i.name))];
        receiptsSynced := receipts;
        phase := AtStep(phase, Receipted);
        events := [Push(WriteReceipt)];
      } else {
        events := FailToRecord(p, i, io);
      }
    }

    method Accept(p: Params, i: Item, io: Faults) returns (ok: bool, ghost events: seq<Event>)
      requires At(i, Check)
      modifies this`phase, this`posted, this`receipts, this`receiptsSynced
      ensures Reaches(p, old(Abs()), events, Abs())
      ensures ok ==> phase == AtStep(old(phase), Receipted) && HasReceipt(receipts, i.env)
      ensures ok ==> ReceiptAllows(old(receipts), i)
      ensures AddsReceipt(old(receipts), receipts, i)
      ensures !ok ==> phase == Idle
      ensures NoFault(io, i) && ReceiptAllows(old(receipts), i) ==> ok
    {
      hide Reaches, ReceiptFilename, EqualFold, Matches;
      ghost var s := Abs();
      ok, events := PostItem(p, i, io);
      if ok && ReceiptName(i) !in receipts {
        ghost var t := Abs();
        ghost var more;
        ok, more := RecordAccepted(p, i, io);
        ReachesAppend(p, s, events, t, more, Abs());
        events := events + more;
      }
    }

    /** Link into the archive without replacing. */
    method LinkSent(p: Params, i: Item, io: Faults) returns (ok: bool, ghost events: seq<Event>)
      requires At(i, Receipted) && Here(i)
      modifies this`phase, this`sent
      ensures Reaches(p, old(Abs()), events, Abs())
      ensures ok == (ArchiveAllows(files, old(sent), i) && !io.fails(i.name, LinkOp))
      ensures phase == if ok then AtStep(old(phase), Linked) else Idle
      ensures if ok then ArchivedAs(spool, old(sent), sent, i) else sent == old(sent)
    {
      hide Reaches, Accepting, Matches, ReceiptName, ReceiptFilename;
      ghost var s := Abs();
      ok := ArchiveAllows(files, sent, i) && !io.fails(i.name, LinkOp);
      if ok {
        Worked(p, s, Link);
        if i.name !in sent { sent := sent[i.name := spool[i.name]]; }
        phase := AtStep(phase, Linked);
        events := [Push(Link)];
      } else {
        Stopped(p, s);
        phase := Idle;
        events := [Stop];
      }
    }

    /** Sync the archive. */
    method SyncSentDir(p: Params, i: Item, io: Faults) returns (ok: bool, ghost events: seq<Event>)
      requires At(i, Linked)
      modifies this`phase, this`sentSynced
      ensures Reaches(p, old(Abs()), events, Abs())
      ensures ok == !io.fails(i.name, SyncSentOp)
      ensures phase == if ok then AtStep(old(phase), SentSynced) else Idle
    {
      hide Reaches, Accepting, Texts, Matches, ReceiptName, ReceiptFilename;
      ghost var s := Abs();
      ok := !io.fails(i.name, SyncSentOp);
      if ok {
        Worked(p, s, SyncSent);
        sentSynced := sent;
        phase := AtStep(phase, SentSynced);
        events := [Push(SyncSent)];
      } else {
        Stopped(p, s);
        phase := Idle;
        events := [Stop];
      }
    }

    method Archive(p: Params, i: Item, io: Faults) returns (ok: bool, ghost events: seq<Event>)
      requires At(i, Receipted) && Here(i)
      modifies this`phase, this`sent, this`sentSynced
      ensures Reaches(p, old(Abs()), events, Abs())
      ensures ok ==> phase == AtStep(old(phase), SentSynced) && ArchivedAs(spool, old(sent), sent, i)
      ensures ok ==> ArchiveAllows(files, old(sent), i)
      ensures !ok ==> phase == Idle
      ensures NoFault(io, i) && ArchiveAllows(files, old(sent), i) ==> ok
    {
      hide Reaches, EqualFold, ArchiveAllows;
      ghost var s := Abs();
      ok, events := LinkSent(p, i, io);
      if ok {
        ghost var t := Abs();
        ghost var more;
        ok, more := SyncSentDir(p, i, io);
        ReachesAppend(p, s, events, t, more, Abs());
        events := events + more;
      }
    }

    /** The message goes first. */
    method RemoveMessage(p: Params, i: Item, io: Faults) returns (ok: bool, ghost events: seq<Event>)
      requires At(i, SentSynced)
      modifies this`phase, this`spool, this`gone
      ensures Reaches(p, old(Abs()), events, Abs())
      ensures ok == !io.fails(i.name, RemoveOp)
      ensures phase == if ok then AtStep(old(phase), SourceGone) else Idle
      ensures spool == if ok then old(spool) - {i.name} else old(spool)
    {
      hide Reaches, Accepting, Texts, Matches, ReceiptName, ReceiptFilename;
      ghost var s := Abs();
      ok := !io.fails(i.name, RemoveOp);
      if ok {
        Worked(p, s, RemoveSource);
        spool, gone := spool - {i.name}, gone[i.name := i];
        phase := AtStep(phase, SourceGone);
        events := [Push(RemoveSource)];
      } else {
        Stopped(p, s);
        phase := Idle;
        events := [Stop];
      }
    }

    /** Then its sidecar. */
    method RemoveSidecarFile(p: Params, i: Item, io: Faults) returns (ok: bool, ghost events: seq<Event>)
      requires At(i, SourceGone)
      modifies this`phase, this`sidecars
      ensures Reaches(p, old(Abs()), events, Abs())
      ensures ok == !io.fails(i.name, SidecarOp)
      ensures phase == if ok then AtStep(old(phase), SidecarGone) else Idle
      ensures sidecars == if ok then old(sidecars) - {i.name} else old(sidecars)
    {
      hide Reaches, Accepting, Texts, Matches, ReceiptName, ReceiptFilename;
      ghost var s := Abs();
      ok := !io.fails(i.name, SidecarOp);
      if ok {
        Worked(p, s, RemoveSidecar);
        sidecars := sidecars - {i.name};
        phase := AtStep(phase, SidecarGone);
        events := [Push(RemoveSidecar)];
      } else {
        Stopped(p, s);
        phase := Idle;
        events := [Stop];
      }
    }

    /** Then the directory is synced, and the next item is due. */
    method SyncSpoolDir(p: Params, i: Item, io: Faults) returns (ok: bool, ghost events: seq<Event>)
      requires At(i, SidecarGone)
      modifies this`phase, this`spoolSynced, this`sidecarsSynced
      ensures Reaches(p, old(Abs()), events, Abs())
      ensures ok == !io.fails(i.name, SyncSpoolOp)
      ensures phase == if ok then AfterItem(old(phase)) else Idle
    {
      hide Reaches, Accepting, Texts, Matches, ReceiptName, ReceiptFilename;
      ghost var s := Abs();
      ok := !io.fails(i.name, SyncSpoolOp);
      if ok {
        Worked(p, s, SyncSpool);
        spoolSynced := spool;
        sidecarsSynced := sidecars;
        phase := AfterItem(phase);
        events := [Push(SyncSpool)];
      } else {
        Stopped(p, s);
        phase := Idle;
        events := [Stop];
      }
    }

    /** The end of `moveToSent`: the message is removed before its sidecar, so a retry still finds the sidecar. */
    method Retire(p: Params, i: Item, io: Faults) returns (ok: bool, ghost events: seq<Event>)
      requires At(i, SentSynced)
      modifies this`phase, this`spool, this`spoolSynced, this`sidecars, this`sidecarsSynced, this`gone
      ensures Reaches(p, old(Abs()), events, Abs())
      ensures ok ==> spool == old(spool) - {i.name} && sidecars == old(sidecars) - {i.name}
      ensures phase == if ok then AfterItem(old(phase)) else Idle
      ensures NoFault(io, i) ==> ok
    {
      hide Reaches, EqualFold, AfterItem;
      ghost var s := Abs();
      ghost var more: seq<Event>;
      ok, events := RemoveMessage(p, i, io);
      if ok {
        ghost var t := Abs();
        ok, more := RemoveSidecarFile(p, i, io);
        ReachesAppend(p, s, events, t, more, Abs());
        events := events + more;
      }
      if ok {
        AfterItemIgnoresStep(phase, old(phase));
        ghost var t := Abs();
        ok, more := SyncSpoolDir(p, i, io);
        ReachesAppend(p, s, events, t, more, Abs());
        events := events + more;
      }
    }

    /** `moveToSent`, on an item whose receipt is on disk. */
    method MoveToSent(p: Params, i: Item, io: Faults) returns (ok: bool, ghost events: seq<Event>)
      requires At(i, Receipted) && Here(i)
      modifies this`phase, this`spool, this`spoolSynced, this`sidecars, this`sidecarsSynced, this`sent,
               this`sentSynced, this`gone
      ensures Reaches(p, old(Abs()), events, Abs())
      ensures phase == if ok then AfterItem(old(phase)) else Idle
      ensures ok ==> ArchiveAllows(files, old(sent), i)
      ensures NoFault(io, i) && ArchiveAllows(files, old(sent), i) ==> ok
      ensures ok ==> && spool == old(spool) - {i.name} && sidecars == old(sidecars) - {i.name}
                     && ArchivedAs(old(spool), old(sent), sent, i)
    {
      hide Reaches, AfterItem, ArchiveAllows, NoFault;
      ghost var s := Abs();
      ok, events := Archive(p, i, io);
      if ok {
        AfterItemIgnoresStep(phase, old(phase));
        ghost var t := Abs();
        ghost var more: seq<Event>;
        ok, more := Retire(p, i, io);
        ReachesAppend(p, s, events, t, more, Abs());
        events := events + more;
      }
    }

    /** One turn of the loop: accept, then move to sent. */
    method PushItem(p: Params, i: Item, io: Faults) returns (ok: bool, ghost events: seq<Event>)
      requires At(i, Check) && Here(i)
      modifies this
      ensures files == old(files) && labels == old(labels) && seen == old(seen)
      ensures Reaches(p, old(Abs()), events, Abs())
      ensures phase == if ok then AfterItem(old(phase)) else Idle
      ensures ok ==> ReceiptAllows(old(receipts), i) && ArchiveAllows(files, old(sent), i)
      ensures NoFault(io, i) && ReceiptAllows(old(receipts), i) && ArchiveAllows(files, old(sent), i) ==> ok
      ensures ok ==> && spool == old(spool) - {i.name} && sidecars == old(sidecars) - {i.name}
                     && ArchivedAs(old(spool), old(sent), sent, i) && HasReceipt(receipts, i.env)
      ensures AddsReceipt(old(receipts), receipts, i)
    {
      hide Reaches, AfterItem, ArchiveAllows, ReceiptAllows, NoFault, AddsReceipt, HasReceipt, ArchivedAs, Texts;
      ghost var s := Abs();
      ok, events := Accept(p, i, io);
      if ok {
        AfterItemIgnoresStep(phase, old(phase));
        ghost var t := Abs();
        ghost var more: seq<Event>;
        ok, more := MoveToSent(p, i, io);
        ReachesAppend(p, s, events, t, more, Abs());
        events := events + more;
      }
    }

    /** The bytes and the sidecar of one file, parsed, addressed and signed. */
    method ReadFile(p: Params, listing: seq<string>, got: seq<Item>)
      returns (item: Option<Item>, ghost events: seq<Event>)
      requires phase == Reading(listing, got, None) && |got| < |listing| && listing[|got|] in spool && Valid()
      modifies this`phase, this`seen
      ensures Reaches(p, old(Abs()), events, Abs())
      ensures item.Some? <==> EnvelopeOf(p, Texts(files, spool), Texts(labels, sidecars), listing[|got|]).Some?
      ensures item.Some? ==> item.value.name == listing[|got|]
                             && IsItem(p, Texts(files, spool), Texts(labels, sidecars), item.value)
      ensures phase == if item.Some? then Reading(listing, got + [item.value], None) else Idle
    {
      hide Reaches, Texts;
      ghost var s := Abs();
      var n := listing[|got|];
      assert n in Texts(files, spool) by { SpoolText(n); }
      var data, sidecar := Texts(files, spool)[n], Lookup(Texts(labels, sidecars), n);
      var env := p.read(n, data, sidecar);
      if env.None? {
        Stopped(p, s);
        item, events := None, [Stop];
        phase := Idle;
      } else {
        item, events := Some(Item(n, data, sidecar, env.value)), [Scan(ReadData)] + [Scan(ReadLabel)];
        ReadsNext(p, s, item.value);
        phase, seen := Reading(listing, got + [item.value], None), seen + {item.value};
      }
    }

    lemma SpoolText(n: string)
      requires Valid() && n in spool
      ensures n in Texts(files, spool)
    {
    }

    /** `readSpool`: the whole directory is read, the first files become the batch. */
    method ReadSpool(p: Params, listing: seq<string>) returns (ok: bool, got: seq<Item>, ghost events: seq<Event>)
      requires phase == Idle && Valid() && IsListing(listing, Eligible(spool))
      modifies this`phase, this`seen
      ensures Reaches(p, old(Abs()), events, Abs())
      ensures ok <==> Readable(p, Texts(files, spool), Texts(labels, sidecars))
      ensures ok ==> |got| == |listing| && phase == Begun(got, p.batch)
      ensures ok ==> forall j :: 0 <= j < |got| ==>
                       got[j].name == listing[j] && IsItem(p, Texts(files, spool), Texts(labels, sidecars), got[j])
      ensures !ok ==> phase == Idle
    {
      hide Reaches, Texts, IsListing, IsItem, EnvelopeOf, Begun, Readable, Eligible;
      ghost var s0 := Abs();
      Lists(p, s0, listing);
      phase := Reading(listing, [], None);
      got, events := [], [Scan(List(listing))];
      for k := 0 to |listing|
        invariant |got| == k && phase == Reading(listing, got, None) && Reaches(p, s0, events, Abs())
        invariant forall j :: 0 <= j < k ==>
                    got[j].name == listing[j] && IsItem(p, Texts(files, spool), Texts(labels, sidecars), got[j])
      {
        Listed(spool, listing, k);
        ghost var s, more := Abs(), [];
        var item;
        item, more := ReadFile(p, listing, got);
        ReachesAppend(p, s0, events, s, more, Abs());
        events := events + more;
        if item.None? {
          Unreadable(p, files, spool, Texts(labels, sidecars), listing, k);
          return false, got, events;
        }
        got := got + [item.value];
      }
      AllReadable(p, files, spool, Texts(labels, sidecars), listing, got);
      ghost var s := Abs();
      TakesBatch(p, s);
      phase := Begun(got, p.batch);
      ReachesAppend(p, s0, events, s, [Scan(Take)], Abs());
      events := events + [Scan(Take)];
      ok := true;
    }

    /** The loop over the batch, once the spool is read and every item is signed. */
    method PushBatch(p: Params, items: seq<Item>, io: Faults, ghost s0: Source)
      returns (ok: bool, ghost events: seq<Event>)
      requires items != [] && DistinctNames(items) && phase == Working(items, 0, Check)
      requires Progress(s0, Abs(), items, 0)
      requires forall j :: 0 <= j < |items| ==>
                 Lookup(Texts(s0.files, s0.spool.live), items[j].name) == Some(items[j].data)
      modifies this
      ensures Reaches(p, old(Abs()), events, Abs())
      ensures ok ==> Progress(s0, Abs(), items, |items|)
      ensures phase == Idle
      ensures (forall j :: 0 <= j < |items| ==> NoFault(io, items[j])) ==> (ok <==> Unopposed(s0, items, |items|))
    {
      hide Reaches, ReceiptFilename, NoFault, Unopposed, ReceiptsGrow, Removed, AddsReceipt, HasReceipt,
           ReceiptAllows, ArchiveAllows, Texts;
      events := [];
      ghost var s1 := Abs();
      ReachesItself(p, s1);
      for k := 0 to |items|
        invariant Progress(s0, Abs(), items, k)
        invariant phase == if k == |items| then Idle else Working(items, k, Check)
        invariant Reaches(p, s1, events, Abs())
      {
        ghost var s := Abs();
        NextRemains(s0.files, s0.spool.live, s.spool.live, items, k);
        NextAllowed(s0, s, items, k);
        ghost var more;
        ok, more := PushItem(p, items[k], io);
        ReachesAppend(p, s1, events, s, more, Abs());
        events := events + more;
        if !ok {
          if Unopposed(s0, items, |items|) { UnopposedPrefix(s0, items, k + 1); }
          return;
        }
        RemovedStep(s0.spool.live, s.spool.live, items, k);
        RemovedStep(s0.sidecars.live, s.sidecars.live, items, k);
        PlacedStep(s0, s, Abs(), items, k);
        ReceiptsStep(s0.receipts.live, s.receipts.live, receipts, items, k);
      }
      ok := true;
    }

    /**
     `PushOnce`.  Whatever fails, it only moves along the protocol.  Without faults it succeeds exactly when the
     whole spool is readable and nothing stored opposes the batch, and then archives exactly the first
     min(batch, n) files, whatever crash left the directories as they are.
     */
    method PushOnce(p: Params, listing: seq<string>, io: Faults)
      returns (ok: bool, ghost items: seq<Item>, ghost events: seq<Event>)
      requires phase == Idle && Valid() && IsListing(listing, Eligible(spool))
      modifies this
      ensures Reaches(p, old(Abs()), events, Abs())
      ensures !Readable(p, old(Texts(files, spool)), old(Texts(labels, sidecars))) ==>
                !ok && Abs() == old(Abs()).(seen := seen)
      ensures Readable(p, old(Texts(files, spool)), old(Texts(labels, sidecars))) ==>
                && |items| == Least(|listing|, p.batch)
                && (forall j :: 0 <= j < |items| ==>
                      && items[j].name == listing[j]
                      && IsItem(p, old(Texts(files, spool)), old(Texts(labels, sidecars)), items[j]))
                && (ok ==> Progress(old(Abs()), Abs(), items, |items|) && phase == Idle)
                && ((forall j :: 0 <= j < |items| ==> NoFault(io, items[j])) ==>
                      (ok <==> Unopposed(old(Abs()), items, |items|)))
    {
      hide Reaches, Progress, Unopposed, NoFault, EnvelopeOf, Eligible, Readable, Texts;
      ghost var s0 := Abs();
      var got, todo;
      ok, got, events := ReadSpool(p, listing);
      todo := if |got| < p.batch then got else got[..p.batch];
      items := todo;
      ProgressStart(s0, Abs(), items);
      if ok && todo == [] { NothingOpposes(s0); }
      if ok && todo != [] {
        ItemsDistinct(listing, Eligible(spool), items);
        ghost var t, more := Abs(), [];
        assert phase == Working(items, 0, Check) by { assert got[..|got|] == got; }
        ok, more := PushBatch(p, todo, io, s0);
        ReachesAppend(p, s0, events, t, more, Abs());
        events := events + more;
      }
    }
  }
}
