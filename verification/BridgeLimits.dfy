/**
 Runs that break the claims of the safety theorems where their conditions fail: nothing
 keeps the courier from a message whose sidecar is still missing, a call that fails
 removes whatever is under its name, a receipt that was never synced is trusted, and the
 removals of a message and its sidecar are not ordered on disk.
 */
module BridgeLimits {
  import opened Text
  import opened BridgeEnvelope
  import opened BridgeSource
  import opened BridgeSafety
  import opened BridgeReceipts
  import opened BridgeRetry
  import opened BridgeRuns
  import Runs

  /** A call that gets through, and what the courier makes of its file with the given sidecar. */
  predicate Sendable(p: Params, c: Call, i: Item) {
    && p.batch > 0 && c.data != "" && p.accepts(c.name, c.data, c.alias)
    && IsMessageName(c.name) && i.name == c.name && i.data == c.data
    && p.read(i.name, i.data, i.sidecar) == Some(i.env)
  }

  /** Published by call 0, taken by the courier and removed, while the call still stands before its sidecar. */
  function TakenEarly(c: Call, i: Item): Source {
    Source(map[0 := Bytes(c.data, c.data)], map[], Nowhere(), Nowhere(), Both(map[c.name := 0]),
           Both(map[ReceiptName(i) := GoodReceipt(i)]), Working([i], 0, SourceGone), map[0 := Published],
           map[0 := c], {}, {i.env}, {i}, map[c.name := i])
  }

  /** Accepted, recorded, archived and removed, from the moment the courier has read the only message. */
  lemma Pushed(p: Params, s: Source, i: Item) returns (events: seq<Event>)
    requires s.phase == Working([i], 0, Check) && s.receipts == Nowhere() && s.sent == Nowhere()
    requires s.spool.live.Keys == {i.name}
    ensures events == [Posting(i)] + [Push(WriteReceipt)] + MOVING
    ensures Reaches(p, s, events,
                    s.(phase := Working([i], 0, SourceGone), spool := s.spool.(live := map[]),
                       sent := Both(map[i.name := s.spool.live[i.name]]), gone := s.gone[i.name := i],
                       receipts := Both(map[ReceiptName(i) := GoodReceipt(i)]), posted := s.posted + {i.env}))
  {
    hide Reaches, ReceiptName;
    var s1 := s.(phase := Working([i], 0, Accepted(i.env.payloadSha)), posted := s.posted + {i.env});
    var s2 := s1.(phase := Working([i], 0, Receipted), receipts := Both(map[ReceiptName(i) := GoodReceipt(i)]));
    Posts(p, s, i);
    Records(p, s1, i);
    ReachesAppend(p, s, [Posting(i)], s1, [Push(WriteReceipt)], s2);
    Moves(p, s2, i);
    assert s.spool.live - {i.name} == map[];
    ReachesAppend(p, s, [Posting(i)] + [Push(WriteReceipt)], s2, MOVING,
                  s2.(phase := Working([i], 0, SourceGone), spool := s.spool.(live := map[]),
                      sent := Both(map[i.name := s.spool.live[i.name]]), gone := s.gone[i.name := i]));
    events := [Posting(i)] + [Push(WriteReceipt)] + MOVING;
  }

  lemma Early(p: Params, c: Call, i: Item) returns (events: seq<Event>)
    requires Sendable(p, c, i) && i.sidecar.None?
    ensures Reaches(p, Init(), events, TakenEarly(c, i))
  {
    hide Reaches, ReceiptName, IsMessageName;
    Publishes(p, Init(), 0, c);
    var s := AfterPublishing(Init(), 0, c);
    Takes(p, s, i);
    var s1 := s.(phase := Working([i], 0, Check), seen := s.seen + {i});
    ReachesAppend(p, Init(), Publishing(0, c), s, Taking(i.name), s1);
    var more := Pushed(p, s1, i);
    assert Init().seen + {i} == {i} && Init().posted + {i.env} == {i.env};
    assert Init().gone[i.name := i] == map[c.name := i];
    assert Reaches(p, s1, more, TakenEarly(c, i));
    ReachesAppend(p, Init(), Publishing(0, c) + Taking(i.name), s1, more, TakenEarly(c, i));
    events := Publishing(0, c) + Taking(i.name) + more;
  }

  /**
   `ReceiptBeforeRemoval` cannot promise the sender's own transfer: the courier reads a published message whose
   sidecar does not exist yet, takes the default destination, and is done before the sidecar is written.  The
   call then succeeds; its message has gone elsewhere, and its own transfer was never posted nor receipted.
   */
  lemma EarlyReadMisdirects(p: Params, c: Call, i: Item, own: Envelope) returns (events: seq<Event>)
    requires Sendable(p, c, i) && i.sidecar.None?
    requires Own(p, c) == Some(own) && own.transferId != i.env.transferId
    ensures var s := Runs.Run(Stepper(p), Init(), events);
            && 0 in s.enqueued && 0 in s.calls && s.calls[0] == c && c.name !in s.spool.live
            && OnDisk(s.receipts, TransportAccepted, i.env) && s.posted == {i.env}
            && own !in s.posted && ReceiptFilename(own.transferId, TransportAccepted) !in s.receipts.live
            && Stored(s, c)
  {
    hide IsMessageName;
    if ReceiptFilename(own.transferId, TransportAccepted) == ReceiptName(i) {
      ReceiptFilenameInjective(own.transferId, TransportAccepted, i.env.transferId, TransportAccepted);
    }
    events := Early(p, c, i);
    var s := TakenEarly(c, i);
    Cleans(p, s, i);
    var s1 := s.(phase := Idle);
    assert s.sidecars.live - {i.name} == map[];
    ReachesAppend(p, Init(), events, s, CLEANING, s1);
    Finishes(p, s1, 0, c);
    ReachesAppend(p, Init(), events + CLEANING, s1, Labelling(0, c), AfterLabelling(s1, 0, c));
    events := events + CLEANING + Labelling(0, c);
    assert OnDisk(s.receipts, TransportAccepted, i.env);
    hide ReceiptFilename;
  }

  /** Opened by call 0, written in part, taken by the courier and removed, while the call is still writing. */
  function TakenInPart(c: Call, i: Item): Source {
    TakenEarly(c, i).(files := map[0 := Bytes(i.data, "")], writers := map[0 := Writing])
  }

  lemma EarlyInPart(p: Params, c: Call, i: Item, n: nat) returns (events: seq<Event>)
    requires p.batch > 0 && c.data != "" && p.accepts(c.name, c.data, c.alias) && IsMessageName(c.name)
    requires n <= |c.data| && i.name == c.name && i.data == c.data[..n] && i.sidecar.None?
    requires p.read(i.name, i.data, i.sidecar) == Some(i.env)
    ensures Reaches(p, Init(), events, TakenInPart(c, i))
  {
    hide Reaches, ReceiptName, IsMessageName, Apply;
    var e1, e2 := Enqueue(0, Open(c.name, c.data, c.alias)), Enqueue(0, Write(n));
    Opens(p, Init(), 0, c);
    OneStep(p, Init(), e1);
    var s1 := Apply(p, Init(), e1);
    Writes(p, s1, 0, n);
    Then(p, Init(), [e1], s1, e2);
    var s2 := s1.(files := map[0 := Bytes(i.data, "")]);
    assert s1.files[0 := Bytes(i.data, "")] == s2.files;
    Takes(p, s2, i);
    var s3 := s2.(phase := Working([i], 0, Check), seen := s2.seen + {i});
    ReachesAppend(p, Init(), [e1] + [e2], s2, Taking(i.name), s3);
    var more := Pushed(p, s3, i);
    assert Init().seen + {i} == {i} && Init().posted + {i.env} == {i.env};
    assert Init().gone[i.name := i] == map[c.name := i];
    assert Reaches(p, s3, more, TakenInPart(c, i));
    ReachesAppend(p, Init(), [e1] + [e2] + Taking(i.name), s3, more, TakenInPart(c, i));
    events := [e1] + [e2] + Taking(i.name) + more;
  }

  /**
   The message is written in place, so a prefix of it that parses is sent as if it were the message, wherever the
   courier catches it; the call then succeeds all the same.
   */
  lemma EarlyReadTruncates(p: Params, c: Call, i: Item, n: nat) returns (events: seq<Event>)
    requires p.batch > 0 && c.data != "" && p.accepts(c.name, c.data, c.alias) && IsMessageName(c.name)
    requires n <= |c.data| && i.name == c.name && i.data == c.data[..n] && i.sidecar.None?
    requires p.read(i.name, i.data, i.sidecar) == Some(i.env)
    ensures var s := Runs.Run(Stepper(p), Init(), events);
            && 0 in s.enqueued && 0 in s.calls && s.calls[0] == c && c.name !in s.spool.live
            && s.posted == {i.env} && OnDisk(s.receipts, TransportAccepted, i.env) && Stored(s, c)
  {
    hide IsMessageName, Apply;
    events := EarlyInPart(p, c, i, n);
    var s := TakenInPart(c, i);
    Cleans(p, s, i);
    var s1 := s.(phase := Idle);
    assert s.sidecars.live - {i.name} == map[];
    ReachesAppend(p, Init(), events, s, CLEANING, s1);
    var e1, e2 := Enqueue(0, Write(|c.data|)), Enqueue(0, SyncFile);
    WritesAll(p, s1, 0);
    Then(p, Init(), events + CLEANING, s1, e1);
    var s2 := s1.(files := s1.files[0 := Bytes(c.data, "")]);
    SyncsFile(p, s2, 0);
    Then(p, Init(), events + CLEANING + [e1], s2, e2);
    var s3 := s2.(files := s2.files[0 := Bytes(c.data, c.data)], writers := s2.writers[0 := Published]);
    Finishes(p, s3, 0, c);
    ReachesAppend(p, Init(), events + CLEANING + [e1] + [e2], s3, Labelling(0, c), AfterLabelling(s3, 0, c));
    events := events + CLEANING + [e1] + [e2] + Labelling(0, c);
    assert OnDisk(s.receipts, TransportAccepted, i.env);
    hide ReceiptFilename;
  }

  /**
   `NothingLost` cannot do without its condition: while call 0 still stands before its sidecar, the courier
   archives its message; call 1 enqueues other bytes under the same name and succeeds; then call 0 finds the
   sidecar of call 1 in its way, and in giving up removes the message of call 1, of which no copy is left.
   */
  lemma ReuseLoses(p: Params, c: Call, i: Item, d: Call) returns (events: seq<Event>)
    requires Sendable(p, c, i) && i.sidecar.None?
    requires d.name == c.name && d.data != c.data && d.data != "" && p.accepts(d.name, d.data, d.alias)
    ensures var s := Runs.Run(Stepper(p), Init(), events);
            1 in s.enqueued && 1 in s.calls && s.calls[1] == d && !Stored(s, d)
  {
    hide IsMessageName, ReceiptName, LabelLine, Apply;
    events := Early(p, c, i);
    var s := TakenEarly(c, i);
    Publishes(p, s, 1, d);
    var s1 := AfterPublishing(s, 1, d);
    ReachesAppend(p, Init(), events, s, Publishing(1, d), s1);
    Finishes(p, s1, 1, d);
    var s2 := AfterLabelling(s1, 1, d);
    ReachesAppend(p, Init(), events + Publishing(1, d), s1, Labelling(1, d), s2);
    Fails(p, s2, 0);
    Then(p, Init(), events + Publishing(1, d) + Labelling(1, d), s2, Enqueue(0, Fail));
    events := events + Publishing(1, d) + Labelling(1, d) + [Enqueue(0, Fail)];
  }

  /** Enqueued by call 0, with everything on disk. */
  function Spooled(c: Call): Source {
    var line := LabelLine(c.alias);
    Source(map[0 := Bytes(c.data, c.data)], map[0 := Bytes(line, line)], Both(map[c.name := 0]), Both(map[c.name := 0]),
           Nowhere(), Nowhere(), Idle, map[], map[0 := c], {0}, {}, {}, map[])
  }

  lemma Enqueues(p: Params, c: Call) returns (events: seq<Event>)
    requires c.data != "" && p.accepts(c.name, c.data, c.alias)
    ensures events == Publishing(0, c) + Labelling(0, c) && Reaches(p, Init(), events, Spooled(c))
  {
    hide Reaches, LabelLine;
    Publishes(p, Init(), 0, c);
    var s := AfterPublishing(Init(), 0, c);
    Finishes(p, s, 0, c);
    assert s.writers - {0} == map[] && Init().enqueued + {0} == {0};
    assert AfterLabelling(s, 0, c) == Spooled(c);
    ReachesAppend(p, Init(), Publishing(0, c), s, Labelling(0, c), Spooled(c));
    events := Publishing(0, c) + Labelling(0, c);
  }

  /** The same message accepted, recorded, archived and removed. */
  function TakenWhole(c: Call, i: Item): Source {
    Spooled(c).(spool := Dir(map[], map[c.name := 0]), sent := Both(map[c.name := 0]),
                receipts := Both(map[ReceiptName(i) := GoodReceipt(i)]), phase := Working([i], 0, SourceGone),
                posted := {i.env}, seen := {i}, gone := map[c.name := i])
  }

  function Sending(c: Call, i: Item): seq<Event> {
    Publishing(0, c) + Labelling(0, c) + Taking(i.name) + ([Posting(i)] + [Push(WriteReceipt)] + MOVING)
  }

  lemma Whole(p: Params, c: Call, i: Item) returns (events: seq<Event>)
    requires Sendable(p, c, i) && i.sidecar == Some(LabelLine(c.alias))
    ensures events == Sending(c, i) && Reaches(p, Init(), events, TakenWhole(c, i))
  {
    hide Reaches, ReceiptName, IsMessageName, LabelLine;
    events := Enqueues(p, c);
    var s := Spooled(c);
    Takes(p, s, i);
    var s1 := s.(phase := Working([i], 0, Check), seen := s.seen + {i});
    ReachesAppend(p, Init(), events, s, Taking(i.name), s1);
    var more := Pushed(p, s1, i);
    assert s.seen + {i} == {i} && s.posted + {i.env} == {i.env};
    assert s.gone[i.name := i] == map[c.name := i];
    assert Reaches(p, s1, more, TakenWhole(c, i));
    ReachesAppend(p, Init(), events + Taking(i.name), s1, more, TakenWhole(c, i));
    events := events + Taking(i.name) + more;
  }

  /**
   The window of `RetriesKeepTransfer` is reached: the courier has removed the message and then the sidecar, and a
   power failure undoes the first removal only.  The retry then falls back to the default destination.
   */
  lemma PowerLossCanDropSidecar(p: Params, c: Call, i: Item) returns (events: seq<Event>)
    requires Sendable(p, c, i) && i.sidecar == Some(LabelLine(c.alias))
    ensures var s := Runs.Run(Stepper(p), Init(), events);
            && 0 in s.enqueued && 0 in s.calls && s.calls[0] == c && c.name in s.spool.live
            && Shown(p, s, c.name) == p.read(c.name, c.data, None)
  {
    hide ReceiptName, IsMessageName, LabelLine;
    events := Whole(p, c, i);
    var s := TakenWhole(c, i);
    Worked(p, s, RemoveSidecar);
    var s1 := Work(s, i, RemoveSidecar);
    assert s1.sidecars.live == map[];
    ReachesAppend(p, Init(), events, s, [Push(RemoveSidecar)], s1);
    var disk := WindowSplits(s1, 0);
    Then(p, Init(), events + [Push(RemoveSidecar)], s1, PowerLoss(disk));
    events := events + [Push(RemoveSidecar)] + [PowerLoss(disk)];
    var t := PowerApply(s1, disk);
    assert c.name in t.spool.live && t.spool.live[c.name] == 0 && t.files[0] == Bytes(c.data, c.data);
  }

  /** The same message accepted, but the directory of its receipt was not synced and the courier stopped. */
  function Unsynced(c: Call, i: Item): Source {
    Spooled(c).(receipts := Dir(map[ReceiptName(i) := GoodReceipt(i)], map[]), posted := {i.env}, seen := {i})
  }

  lemma LeftUnsynced(p: Params, c: Call, i: Item) returns (events: seq<Event>)
    requires Sendable(p, c, i) && i.sidecar == Some(LabelLine(c.alias))
    ensures Reaches(p, Init(), events, Unsynced(c, i))
  {
    hide Reaches, ReceiptName, IsMessageName, LabelLine;
    events := Enqueues(p, c);
    var s := Spooled(c);
    Takes(p, s, i);
    var s1 := s.(phase := Working([i], 0, Check), seen := s.seen + {i});
    ReachesAppend(p, Init(), events, s, Taking(i.name), s1);
    Posts(p, s1, i);
    var s2 := s1.(phase := Working([i], 0, Accepted(i.env.payloadSha)), posted := s.posted + {i.env});
    ReachesAppend(p, Init(), events + Taking(i.name), s1, [Posting(i)], s2);
    Records(p, s2, i);
    assert s.seen + {i} == {i} && s.posted + {i.env} == {i.env};
    ReachesAppend(p, Init(), events + Taking(i.name) + [Posting(i)], s2, [Push(WriteUnsynced)], Unsynced(c, i));
    events := events + Taking(i.name) + [Posting(i)] + [Push(WriteUnsynced)];
  }

  /** The courier takes the receipt up in its next turn and removes the message. */
  function TakenUnsynced(c: Call, i: Item): Source {
    TakenWhole(c, i).(receipts := Dir(map[ReceiptName(i) := GoodReceipt(i)], map[]))
  }

  lemma Resumed(p: Params, s: Source, i: Item)
    requires s.phase == Working([i], 0, Check)
    requires s.receipts.live == map[ReceiptName(i) := GoodReceipt(i)]
    ensures Reaches(p, s, [Push(UseReceipt)], s.(phase := Working([i], 0, Receipted)))
  {
    hide Reaches, ReceiptName;
    assert EqualFold(i.env.payloadSha, i.env.payloadSha);
    hide EqualFold;
    Worked(p, s, UseReceipt);
  }

  lemma TakesUp(p: Params, c: Call, i: Item) returns (events: seq<Event>)
    requires Sendable(p, c, i) && i.sidecar == Some(LabelLine(c.alias))
    ensures Reaches(p, Init(), events, TakenUnsynced(c, i))
  {
    hide Reaches, ReceiptName, IsMessageName, LabelLine;
    events := LeftUnsynced(p, c, i);
    var s := Unsynced(c, i);
    Takes(p, s, i);
    var s1 := s.(phase := Working([i], 0, Check), seen := s.seen + {i});
    ReachesAppend(p, Init(), events, s, Taking(i.name), s1);
    Resumed(p, s1, i);
    var s2 := s1.(phase := Working([i], 0, Receipted));
    ReachesAppend(p, Init(), events + Taking(i.name), s1, [Push(UseReceipt)], s2);
    Moves(p, s2, i);
    assert s.seen + {i} == {i} && s.spool.live - {i.name} == map[];
    assert s.gone[i.name := i] == map[c.name := i];
    assert Reaches(p, s2, MOVING, TakenUnsynced(c, i));
    ReachesAppend(p, Init(), events + Taking(i.name) + [Push(UseReceipt)], s2, MOVING, TakenUnsynced(c, i));
    events := events + Taking(i.name) + [Push(UseReceipt)] + MOVING;
  }

  /** A power failure may drop one receipt that was not synced while everything else visible stays. */
  lemma DropsReceipt(s: Source, name: string)
    requires name in s.receipts.live && Lookup(s.receipts.synced, name) != Some(s.receipts.live[name])
    ensures CanFail(s, Disk(Settled(s.files), Settled(s.labels), s.spool.live, s.sidecars.live, s.sent.live,
                            s.receipts.live - {name}))
  {
  }

  /**
   `ReceiptBeforeRemoval` cannot trust a receipt that was never synced: the courier reuses it, removes the message,
   and a power failure leaves the message removed and no receipt at all.
   */
  lemma UnsyncedReceiptIsLost(p: Params, c: Call, i: Item) returns (events: seq<Event>)
    requires Sendable(p, c, i) && i.sidecar == Some(LabelLine(c.alias))
    ensures var s := Runs.Run(Stepper(p), Init(), events);
            && 0 in s.enqueued && 0 in s.calls && s.calls[0] == c && c.name !in s.spool.live
            && s.receipts.live == map[]
  {
    hide ReceiptName, IsMessageName, LabelLine;
    events := TakesUp(p, c, i);
    var s := TakenUnsynced(c, i);
    var disk := Disk(Settled(s.files), Settled(s.labels), s.spool.live, s.sidecars.live, s.sent.live,
                     s.receipts.live - {ReceiptName(i)});
    DropsReceipt(s, ReceiptName(i));
    assert disk.receipts == map[];
    hide CanFail, Settled;
    Then(p, Init(), events, s, PowerLoss(disk));
    events := events + [PowerLoss(disk)];
  }

  /**
   What `StepKeepsReceiptsExactly` excludes does break the promise, wherever it happens: once an unsynced receipt
   is taken up for a message that can be archived, the message can end up removed and the receipt gone.
   */
  lemma UnsyncedReuseLoses(p: Params, s: Source, f: nat) returns (events: seq<Event>)
    requires ReusesUnsynced(s, f, Push(UseReceipt))
    requires WorkEnabled(s, s.phase.items[s.phase.at], Receipted, Link)
    ensures var t, n := Runs.Run(Stepper(p), s, [Push(UseReceipt)] + events), s.calls[f].name;
            && t.calls == s.calls && t.enqueued == s.enqueued && n !in t.spool.live
            && n in t.gone && t.gone[n] == s.phase.items[s.phase.at] && ReceiptName(t.gone[n]) !in t.receipts.live
  {
    hide ReceiptFilename, Matches, Texts, Apply;
    var i := s.phase.items[s.phase.at];
    var s1 := Work(s, i, UseReceipt);
    Worked(p, s, UseReceipt);
    MovesOn(p, s1, i);
    var s2 := Runs.Run(Stepper(p), s1, MOVING);
    ReachesAppend(p, s, [Push(UseReceipt)], s1, MOVING, s2);
    var disk := Disk(Settled(s2.files), Settled(s2.labels), s2.spool.live, s2.sidecars.live, s2.sent.live,
                     s2.receipts.live - {ReceiptName(i)});
    DropsReceipt(s2, ReceiptName(i));
    hide CanFail, Settled, Runs.Run, Stepper;
    Lost(p, s2, disk);
    Then(p, s, [Push(UseReceipt)] + MOVING, s2, PowerLoss(disk));
    events := MOVING + [PowerLoss(disk)];
    assert [Push(UseReceipt)] + MOVING + [PowerLoss(disk)] == [Push(UseReceipt)] + events;
  }

  lemma Lost(p: Params, s: Source, disk: Disk)
    requires CanFail(s, disk)
    ensures Apply(p, s, PowerLoss(disk)) == PowerApply(s, disk)
    ensures PowerApply(s, disk).spool.live == disk.spool && PowerApply(s, disk).receipts.live == disk.receipts
    ensures var t := PowerApply(s, disk); t.calls == s.calls && t.enqueued == s.enqueued && t.gone == s.gone
  {
  }
}
