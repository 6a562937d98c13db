/**
 Stretches of runs of the source, put together from single steps, and the runs that show
 which conditions of the safety theorems cannot be dropped.
 */
module BridgeRuns {
  import opened Text
  import opened BridgeEnvelope
  import opened BridgeSource
  import Runs

  /** The events lead from one state to the other. */
  ghost predicate Reaches(p: Params, s: Source, events: seq<Event>, t: Source) {
    t == Runs.Run(Stepper(p), s, events)
  }

  lemma ReachesAppend(p: Params, s: Source, a: seq<Event>, t: Source, b: seq<Event>, u: Source)
    requires Reaches(p, s, a, t) && Reaches(p, t, b, u)
    ensures Reaches(p, s, a + b, u)
  {
    hide Stepper;
    Runs.RunAppend(Stepper(p), s, a, b);
  }

  lemma ReachesItself(p: Params, s: Source)
    ensures Reaches(p, s, [], s)
  {
    hide Stepper;
  }

  lemma OneStep(p: Params, s: Source, e: Event)
    ensures Reaches(p, s, [e], Apply(p, s, e))
  {
    Runs.RunSnoc(Stepper(p), s, [], e);
    assert [] + [e] == [e];
  }

  lemma Then(p: Params, s: Source, a: seq<Event>, t: Source, e: Event)
    requires Reaches(p, s, a, t)
    ensures Reaches(p, s, a + [e], Apply(p, t, e))
  {
    hide Reaches, Apply;
    OneStep(p, t, e);
    ReachesAppend(p, s, a, t, [e], Apply(p, t, e));
  }

  // ---- Enqueue ----

  function Publishing(f: nat, c: Call): seq<Event> {
    [Enqueue(f, Open(c.name, c.data, c.alias))] + [Enqueue(f, Write(|c.data|))] + [Enqueue(f, SyncFile)]
  }

  function AfterPublishing(s: Source, f: nat, c: Call): Source {
    s.(files := s.files[f := Bytes(c.data, c.data)], spool := s.spool.(live := s.spool.live[c.name := f]),
       writers := s.writers[f := Published], calls := s.calls[f := c])
  }

  lemma Opens(p: Params, s: Source, f: nat, c: Call)
    requires f !in s.calls && c.name !in s.spool.live && c.data != "" && p.accepts(c.name, c.data, c.alias)
    ensures Apply(p, s, Enqueue(f, Open(c.name, c.data, c.alias)))
            == s.(files := s.files[f := Bytes("", "")], spool := s.spool.(live := s.spool.live[c.name := f]),
                  writers := s.writers[f := Writing], calls := s.calls[f := c])
  {
  }

  lemma Writes(p: Params, s: Source, f: nat, n: nat)
    requires f in s.writers && s.writers[f].Writing? && f in s.calls && f in s.files
    requires |s.files[f].live| <= n <= |s.calls[f].data|
    ensures Apply(p, s, Enqueue(f, Write(n)))
            == s.(files := s.files[f := Bytes(s.calls[f].data[..n], s.files[f].kept)])
  {
  }

  lemma WritesAll(p: Params, s: Source, f: nat)
    requires f in s.writers && s.writers[f].Writing? && f in s.calls && f in s.files
    requires |s.files[f].live| <= |s.calls[f].data|
    ensures var d := s.calls[f].data;
            Apply(p, s, Enqueue(f, Write(|d|))) == s.(files := s.files[f := Bytes(d, s.files[f].kept)])
  {
    hide Apply;
    Writes(p, s, f, |s.calls[f].data|);
    assert s.calls[f].data[..|s.calls[f].data|] == s.calls[f].data;
  }

  lemma SyncsFile(p: Params, s: Source, f: nat)
    requires f in s.writers && s.writers[f].Writing? && f in s.calls && f in s.files
    requires s.files[f].live == s.calls[f].data
    ensures var d := s.calls[f].data;
            Apply(p, s, Enqueue(f, SyncFile))
            == s.(files := s.files[f := Bytes(d, d)], writers := s.writers[f := Published])
  {
  }

  /** A new call up to the published message. */
  lemma Publishes(p: Params, s: Source, f: nat, c: Call)
    requires f !in s.calls && c.name !in s.spool.live && c.data != "" && p.accepts(c.name, c.data, c.alias)
    ensures Reaches(p, s, Publishing(f, c), AfterPublishing(s, f, c))
  {
    hide Reaches, Apply;
    var e1, e2, e3 := Enqueue(f, Open(c.name, c.data, c.alias)), Enqueue(f, Write(|c.data|)), Enqueue(f, SyncFile);
    var s1 := s.(files := s.files[f := Bytes("", "")], spool := s.spool.(live := s.spool.live[c.name := f]),
                 writers := s.writers[f := Writing], calls := s.calls[f := c]);
    var s2 := s1.(files := s.files[f := Bytes(c.data, "")]);
    Opens(p, s, f, c);
    WritesAll(p, s1, f);
    assert s1.files[f := Bytes(c.data, "")] == s2.files;
    SyncsFile(p, s2, f);
    assert s2.files[f := Bytes(c.data, c.data)] == s.files[f := Bytes(c.data, c.data)];
    assert s.writers[f := Writing][f := Published] == s.writers[f := Published];
    OneStep(p, s, e1);
    Then(p, s, [e1], s1, e2);
    Then(p, s, [e1] + [e2], s2, e3);
  }

  function Labelling(f: nat, c: Call): seq<Event> {
    [Enqueue(f, Label)] + [Enqueue(f, WriteLabel(|LabelLine(c.alias)|))] + [Enqueue(f, SyncLabel)] + [Enqueue(f, Done)]
  }

  function AfterLabelling(s: Source, f: nat, c: Call): Source {
    s.(labels := s.labels[f := Bytes(LabelLine(c.alias), LabelLine(c.alias))], spool := Synced(s.spool),
       sidecars := Dir(s.sidecars.live[c.name := f], s.sidecars.live[c.name := f]),
       enqueued := s.enqueued + {f}, writers := s.writers - {f})
  }

  lemma Labels(p: Params, s: Source, f: nat)
    requires f in s.writers && s.writers[f].Published? && f in s.calls && s.calls[f].name !in s.sidecars.live
    ensures Apply(p, s, Enqueue(f, Label))
            == s.(labels := s.labels[f := Bytes("", "")], writers := s.writers[f := Labeling],
                  sidecars := s.sidecars.(live := s.sidecars.live[s.calls[f].name := f]))
  {
  }

  lemma WritesLabel(p: Params, s: Source, f: nat, n: nat)
    requires f in s.writers && s.writers[f].Labeling? && f in s.calls && f in s.labels && s.labels[f] == Bytes("", "")
    requires n <= |LabelLine(s.calls[f].alias)|
    ensures Apply(p, s, Enqueue(f, WriteLabel(n)))
            == s.(labels := s.labels[f := Bytes(LabelLine(s.calls[f].alias)[..n], "")])
  {
    hide LabelLine;
  }

  lemma SyncsLabel(p: Params, s: Source, f: nat)
    requires f in s.writers && s.writers[f].Labeling? && f in s.calls && f in s.labels
    requires s.labels[f].live == LabelLine(s.calls[f].alias)
    ensures var line := LabelLine(s.calls[f].alias);
            Apply(p, s, Enqueue(f, SyncLabel))
            == s.(labels := s.labels[f := Bytes(line, line)], writers := s.writers[f := Labeled])
  {
    hide LabelLine;
  }

  lemma Succeeds(p: Params, s: Source, f: nat)
    requires f in s.writers && s.writers[f].Labeled? && f in s.calls
    ensures Apply(p, s, Enqueue(f, Done))
            == s.(spool := Synced(s.spool), sidecars := Synced(s.sidecars), enqueued := s.enqueued + {f},
                  writers := s.writers - {f})
  {
  }

  /** The call from its published message to its success. */
  lemma Finishes(p: Params, s: Source, f: nat, c: Call)
    requires f in s.writers && s.writers[f].Published? && f in s.calls && s.calls[f] == c && c.name !in s.sidecars.live
    ensures Reaches(p, s, Labelling(f, c), AfterLabelling(s, f, c))
  {
    hide Reaches, LabelLine, Apply;
    var line := LabelLine(c.alias);
    var e1, e2, e3, e4 := Enqueue(f, Label), Enqueue(f, WriteLabel(|line|)), Enqueue(f, SyncLabel), Enqueue(f, Done);
    Labels(p, s, f);
    var s1 := Apply(p, s, e1);
    WritesLabel(p, s1, f, |line|);
    assert line[..|line|] == line;
    var s2 := Apply(p, s1, e2);
    SyncsLabel(p, s2, f);
    var s3 := Apply(p, s2, e3);
    Succeeds(p, s3, f);
    assert s.writers[f := Labeling][f := Labeled] - {f} == s.writers - {f};
    assert Apply(p, s3, e4) == AfterLabelling(s, f, c);
    OneStep(p, s, e1);
    Then(p, s, [e1], s1, e2);
    Then(p, s, [e1] + [e2], s2, e3);
    Then(p, s, [e1] + [e2] + [e3], s3, e4);
  }

  // ---- a call that gives up ----

  lemma Unlabels(p: Params, s: Source, f: nat)
    requires f in s.writers && s.writers[f].Labeling? && f in s.calls
    ensures Apply(p, s, Enqueue(f, Unlabel(true)))
            == s.(sidecars := s.sidecars.(live := s.sidecars.live - {s.calls[f].name}),
                  writers := s.writers[f := Aborting])
  {
  }

  lemma Fails(p: Params, s: Source, f: nat)
    requires f in s.writers && f in s.calls
    requires s.writers[f].Writing? || s.writers[f].Published? || s.writers[f].Aborting?
    ensures Apply(p, s, Enqueue(f, Fail))
            == s.(spool := s.spool.(live := s.spool.live - {s.calls[f].name}), writers := s.writers - {f})
  {
  }

  lemma Quits(p: Params, s: Source, f: nat)
    requires f in s.writers && f in s.calls
    ensures Apply(p, s, Enqueue(f, Quit)) == s.(writers := s.writers - {f})
  {
  }

  // ---- reading the spool ----

  lemma Lists(p: Params, s: Source, names: seq<string>)
    requires s.phase.Idle? && IsListing(names, Eligible(s.spool.live))
    ensures Reaches(p, s, [Scan(List(names))], s.(phase := Reading(names, [], None)))
  {
    hide Reaches, IsListing;
    OneStep(p, s, Scan(List(names)));
  }

  /** The bytes and then the sidecar of the next file. */
  lemma ReadsNext(p: Params, s: Source, i: Item)
    requires s.phase.Reading? && s.phase.data.None? && |s.phase.got| < |s.phase.names|
    requires s.phase.names[|s.phase.got|] == i.name
    requires Lookup(Texts(s.files, s.spool.live), i.name) == Some(i.data)
    requires Lookup(Texts(s.labels, s.sidecars.live), i.name) == i.sidecar
    requires p.read(i.name, i.data, i.sidecar) == Some(i.env)
    ensures Reaches(p, s, [Scan(ReadData)] + [Scan(ReadLabel)],
                    s.(phase := Reading(s.phase.names, s.phase.got + [i], None), seen := s.seen + {i}))
  {
    hide Reaches, IsListing, Texts;
    var s1 := s.(phase := Reading(s.phase.names, s.phase.got, Some(i.data)));
    assert Apply(p, s, Scan(ReadData)) == s1;
    OneStep(p, s, Scan(ReadData));
    Then(p, s, [Scan(ReadData)], s1, Scan(ReadLabel));
  }

  lemma TakesBatch(p: Params, s: Source)
    requires s.phase.Reading? && s.phase.data.None? && |s.phase.got| == |s.phase.names|
    ensures Reaches(p, s, [Scan(Take)], s.(phase := Begun(s.phase.got, p.batch)))
  {
    hide Reaches, IsListing, Texts;
    OneStep(p, s, Scan(Take));
  }

  function Taking(n: string): seq<Event> {
    [Scan(List([n]))] + ([Scan(ReadData)] + [Scan(ReadLabel)]) + [Scan(Take)]
  }

  /** The courier finds one message and reads it, with or without its sidecar. */
  lemma Takes(p: Params, s: Source, i: Item)
    requires s.phase.Idle? && p.batch > 0 && IsMessageName(i.name) && s.spool.live.Keys == {i.name}
    requires Lookup(Texts(s.files, s.spool.live), i.name) == Some(i.data)
    requires Lookup(Texts(s.labels, s.sidecars.live), i.name) == i.sidecar
    requires p.read(i.name, i.data, i.sidecar) == Some(i.env)
    ensures Reaches(p, s, Taking(i.name), s.(phase := Working([i], 0, Check), seen := s.seen + {i}))
  {
    assert Eligible(s.spool.live) == {i.name};
    assert IsListing([i.name], Eligible(s.spool.live));
    hide Reaches, IsListing, Texts, IsMessageName;
    var s1 := s.(phase := Reading([i.name], [], None));
    var s2 := s.(phase := Reading([i.name], [i], None), seen := s.seen + {i});
    Lists(p, s, [i.name]);
    ReadsNext(p, s1, i);
    assert [] + [i] == [i] && [i][..1] == [i];
    ReachesAppend(p, s, [Scan(List([i.name]))], s1, [Scan(ReadData)] + [Scan(ReadLabel)], s2);
    TakesBatch(p, s2);
    ReachesAppend(p, s, [Scan(List([i.name]))] + ([Scan(ReadData)] + [Scan(ReadLabel)]), s2, [Scan(Take)],
                  s2.(phase := Begun([i], p.batch)));
  }

  // ---- the courier on a spool with one message ----

  /** A step of the courier on the current item. */
  lemma Worked(p: Params, s: Source, work: WorkStep)
    requires s.phase.Working? && s.phase.at < |s.phase.items|
    requires WorkEnabled(s, s.phase.items[s.phase.at], s.phase.step, work)
    ensures Reaches(p, s, [Push(work)], Work(s, s.phase.items[s.phase.at], work))
  {
    hide WorkEnabled, Work, Reaches;
    OneStep(p, s, Push(work));
  }

  lemma Stopped(p: Params, s: Source)
    ensures Reaches(p, s, [Stop], s.(phase := Idle))
  {
    hide Reaches;
    OneStep(p, s, Stop);
  }

  function GoodReceipt(i: Item): ReceiptFile {
    Written(TransportAccepted, i.env.transferId, i.env.payloadSha)
  }

  function Posting(i: Item): Event { Push(Post(true, Some(i.env.payloadSha))) }

  /** The rendezvous accepts the only item. */
  lemma Posts(p: Params, s: Source, i: Item)
    requires s.phase == Working([i], 0, Check) && ReceiptName(i) !in s.receipts.live
    ensures Reaches(p, s, [Posting(i)],
                    s.(phase := Working([i], 0, Accepted(i.env.payloadSha)), posted := s.posted + {i.env}))
  {
    hide Reaches, ReceiptName;
    assert EqualFold(i.env.payloadSha, i.env.payloadSha);
    hide EqualFold;
    Worked(p, s, Post(true, Some(i.env.payloadSha)));
  }

  lemma Records(p: Params, s: Source, i: Item)
    requires s.phase == Working([i], 0, Accepted(i.env.payloadSha)) && ReceiptName(i) !in s.receipts.live
    ensures var r := s.receipts.live[ReceiptName(i) := GoodReceipt(i)];
            && Reaches(p, s, [Push(WriteReceipt)], s.(phase := Working([i], 0, Receipted), receipts := Dir(r, r)))
            && Reaches(p, s, [Push(WriteUnsynced)], s.(phase := Idle, receipts := Dir(r, s.receipts.synced)))
  {
    hide Reaches, ReceiptName;
    Worked(p, s, WriteReceipt);
    Worked(p, s, WriteUnsynced);
  }

  const MOVING := [Push(Link)] + [Push(SyncSent)] + [Push(RemoveSource)]

  /** The current item, past its receipt, is archived and its message removed. */
  lemma MovesOn(p: Params, s: Source, i: Item)
    requires s.phase.Working? && s.phase.at < |s.phase.items| && s.phase.items[s.phase.at] == i
    requires s.phase.step == Receipted && WorkEnabled(s, i, Receipted, Link)
    ensures var sent := if i.name in s.sent.live || i.name !in s.spool.live then s.sent.live
                        else s.sent.live[i.name := s.spool.live[i.name]];
            Reaches(p, s, MOVING,
                    s.(phase := AtStep(s.phase, SourceGone), spool := s.spool.(live := s.spool.live - {i.name}),
                       sent := Both(sent), gone := s.gone[i.name := i]))
  {
    hide Reaches, ReceiptName, Texts;
    Worked(p, s, Link);
    var s1 := Work(s, i, Link);
    Worked(p, s1, SyncSent);
    var s2 := Work(s1, i, SyncSent);
    Worked(p, s2, RemoveSource);
    ReachesAppend(p, s, [Push(Link)], s1, [Push(SyncSent)], s2);
    ReachesAppend(p, s, [Push(Link)] + [Push(SyncSent)], s2, [Push(RemoveSource)], Work(s2, i, RemoveSource));
  }

  /** The same for an item that is the only one and new to the archive. */
  lemma Moves(p: Params, s: Source, i: Item)
    requires s.phase == Working([i], 0, Receipted) && i.name !in s.sent.live && i.name in s.spool.live
    ensures Reaches(p, s, MOVING,
                    s.(phase := Working([i], 0, SourceGone), spool := s.spool.(live := s.spool.live - {i.name}),
                       sent := Both(s.sent.live[i.name := s.spool.live[i.name]]), gone := s.gone[i.name := i]))
  {
    hide Reaches, ReceiptName, Texts;
    MovesOn(p, s, i);
  }

  const CLEANING := [Push(RemoveSidecar)] + [Push(SyncSpool)]

  /** Its sidecar is removed, if there is one, and the spool synced. */
  lemma Cleans(p: Params, s: Source, i: Item)
    requires s.phase == Working([i], 0, SourceGone)
    ensures var sidecars := s.sidecars.live - {i.name};
            Reaches(p, s, CLEANING, s.(phase := Idle, spool := Synced(s.spool), sidecars := Dir(sidecars, sidecars)))
  {
    hide Reaches, ReceiptName, Texts;
    var s1 := Work(s, i, RemoveSidecar);
    Worked(p, s, RemoveSidecar);
    Worked(p, s1, SyncSpool);
    ReachesAppend(p, s, [Push(RemoveSidecar)], s1, [Push(SyncSpool)], Work(s1, i, SyncSpool));
  }
}
