/**
 `Enqueue` over the spool it changes in place, one system call after the other.  As with
 `PushOnce` every operation is an event of `BridgeSource`, so a courier or another call
 may come between any two of them; the contract says what the call does by itself.
 */
module BridgeEnqueue {
  import opened BridgeSource
  import opened BridgeRuns

  /** The first operation that fails, if any; an interrupted write leaves a part. */
  datatype Fault =
    | NoFault
    | WriteFails(n: nat)
    | SyncFails
    | LabelFails
    | LabelWriteFails(n: nat)
    | LabelSyncFails
    | DirSyncFails

  /** What `Enqueue` demands before it touches the spool, and the exclusive creation itself. */
  predicate Admitted(p: Params, spool: map<string, nat>, c: Call) {
    c.data != "" && p.accepts(c.name, c.data, c.alias) && c.name !in spool
  }

  class Sender {
    var files: Files
    var labels: Files
    var spool: map<string, nat>
    var sidecars: map<string, nat>
    ghost var rest: Source   // everything else, as far as this call is concerned

    ghost function Abs(): Source
      reads this
    {
      rest.(files := files, labels := labels, spool := Dir(spool, rest.spool.synced),
            sidecars := Dir(sidecars, rest.sidecars.synced))
    }

    /** The call has reached this stage. */
    ghost predicate At(f: nat, c: Call, stage: CallStage)
      reads this
    {
      f in rest.writers && rest.writers[f] == stage && f in rest.calls && rest.calls[f] == c
    }

    /** Create the message file, which must not exist. */
    method Create(p: Params, f: nat, c: Call)
      requires f !in rest.calls && Admitted(p, spool, c)
      modifies this`files, this`spool, this`rest
      ensures Reaches(p, old(Abs()), [Enqueue(f, Open(c.name, c.data, c.alias))], Abs()) && At(f, c, Writing)
      ensures spool == old(spool)[c.name := f]
      ensures files == old(files)[f := Bytes("", "")]
          && rest == old(rest).(writers := rest.writers, calls := rest.calls)
      ensures rest.writers == old(rest).writers[f := Writing] && rest.calls == old(rest).calls[f := c]
    {
      hide Reaches, Apply;
      OneStep(p, Abs(), Enqueue(f, Open(c.name, c.data, c.alias)));
      Opens(p, Abs(), f, c);
      files, spool := files[f := Bytes("", "")], spool[c.name := f];
      rest := rest.(writers := rest.writers[f := Writing], calls := rest.calls[f := c]);
    }

    /** Write the message, or a part of it, and sync the file. */
    method WriteMessage(p: Params, f: nat, c: Call, io: Fault) returns (ok: bool, ghost events: seq<Event>)
      requires At(f, c, Writing) && f in files && files[f] == Bytes("", "")
      modifies this`files, this`rest
      ensures Reaches(p, old(Abs()), events, Abs())
      ensures ok <==> !io.WriteFails? && !io.SyncFails?
      ensures ok ==> At(f, c, Published) && files == old(files)[f := Bytes(c.data, c.data)]
      ensures ok ==> rest == old(rest).(writers := old(rest).writers[f := Published])
      ensures !ok ==> At(f, c, Writing) && rest == old(rest)
    {
      hide Reaches, Apply;
      ghost var s := Abs();
      var n := if io.WriteFails? && io.n < |c.data| then io.n else |c.data|;
      Writes(p, s, f, n);
      OneStep(p, s, Enqueue(f, Write(n)));
      events := [Enqueue(f, Write(n))];
      files := files[f := Bytes(c.data[..n], "")];
      ok := !io.WriteFails? && !io.SyncFails?;
      if ok {
        assert c.data[..|c.data|] == c.data;
        ghost var t := Abs();
        SyncsFile(p, t, f);
        Then(p, s, events, t, Enqueue(f, SyncFile));
        events := events + [Enqueue(f, SyncFile)];
        files := files[f := Bytes(c.data, c.data)];
        rest := rest.(writers := rest.writers[f := Published]);
      }
    }

    /** Create the sidecar, which must not exist. */
    method CreateSidecar(p: Params, f: nat, c: Call)
      requires At(f, c, Published) && c.name !in sidecars
      modifies this`labels, this`sidecars, this`rest
      ensures Reaches(p, old(Abs()), [Enqueue(f, Label)], Abs()) && At(f, c, Labeling)
      ensures labels == old(labels)[f := Bytes("", "")] && sidecars == old(sidecars)[c.name := f]
      ensures rest == old(rest).(writers := old(rest).writers[f := Labeling])
    {
      hide Reaches, Apply;
      Labels(p, Abs(), f);
      OneStep(p, Abs(), Enqueue(f, Label));
      labels, sidecars := labels[f := Bytes("", "")], sidecars[c.name := f];
      rest := rest.(writers := rest.writers[f := Labeling]);
    }

    /** Write the sidecar, or a part of it, and sync it. */
    method FillSidecar(p: Params, f: nat, c: Call, io: Fault) returns (ok: bool, ghost events: seq<Event>)
      requires At(f, c, Labeling) && f in labels && labels[f] == Bytes("", "")
      modifies this`labels, this`rest
      ensures Reaches(p, old(Abs()), events, Abs())
      ensures ok <==> !io.LabelWriteFails? && !io.LabelSyncFails?
      ensures rest == if ok then old(rest).(writers := old(rest).writers[f := Labeled]) else old(rest)
      ensures ok ==> labels == old(labels)[f := Bytes(LabelLine(c.alias), LabelLine(c.alias))]
    {
      hide Reaches, Apply, LabelLine;
      ghost var s := Abs();
      var line := LabelLine(c.alias);
      var n := if io.LabelWriteFails? && io.n < |line| then io.n else |line|;
      WritesLabel(p, s, f, n);
      OneStep(p, s, Enqueue(f, WriteLabel(n)));
      events := [Enqueue(f, WriteLabel(n))];
      labels := labels[f := Bytes(line[..n], "")];
      ok := !io.LabelWriteFails? && !io.LabelSyncFails?;
      if ok {
        assert line[..|line|] == line;
        ghost var t := Abs();
        SyncsLabel(p, t, f);
        Then(p, s, events, t, Enqueue(f, SyncLabel));
        events := events + [Enqueue(f, SyncLabel)];
        labels := labels[f := Bytes(line, line)];
        rest := rest.(writers := rest.writers[f := Labeled]);
      }
    }

    /** `writeDestSidecar`, on a name without a sidecar. */
    method WriteSidecar(p: Params, f: nat, c: Call, io: Fault) returns (ok: bool, ghost events: seq<Event>)
      requires At(f, c, Published) && c.name !in sidecars
      modifies this`labels, this`sidecars, this`rest
      ensures Reaches(p, old(Abs()), events, Abs())
      ensures ok <==> !io.LabelWriteFails? && !io.LabelSyncFails?
      ensures sidecars == old(sidecars)[c.name := f]
      ensures rest == old(rest).(writers := old(rest).writers[f := if ok then Labeled else Labeling])
      ensures ok ==> labels == old(labels)[f := Bytes(LabelLine(c.alias), LabelLine(c.alias))]
    {
      hide Reaches, Apply, LabelLine;
      ghost var s := Abs();
      CreateSidecar(p, f, c);
      ghost var t, more := Abs(), [];
      ok, more := FillSidecar(p, f, c, io);
      ReachesAppend(p, s, [Enqueue(f, Label)], t, more, Abs());
      events := [Enqueue(f, Label)] + more;
      assert s.writers[f := Labeling][f := Labeled] == s.writers[f := Labeled];
    }

    /** Give up: remove the sidecar if this call created it, then the message, both by name. */
    method CleanUp(p: Params, f: nat, c: Call, labeling: bool) returns (ghost events: seq<Event>)
      requires if labeling then At(f, c, Labeling) else At(f, c, Writing) || At(f, c, Published)
      modifies this`spool, this`sidecars, this`rest
      ensures Reaches(p, old(Abs()), events, Abs())
      ensures spool == old(spool) - {c.name}
      ensures sidecars == if labeling then old(sidecars) - {c.name} else old(sidecars)
      ensures rest == old(rest).(writers := old(rest).writers - {f})
    {
      hide Reaches, Apply;
      ghost var s, writers := Abs(), rest.writers;
      ReachesItself(p, s);
      events := [];
      if labeling {
        Unlabels(p, s, f);
        OneStep(p, s, Enqueue(f, Unlabel(true)));
        events := [Enqueue(f, Unlabel(true))];
        sidecars := sidecars - {c.name};
        rest := rest.(writers := rest.writers[f := Aborting]);
      }
      ghost var t := Abs();
      Fails(p, t, f);
      Then(p, s, events, t, Enqueue(f, Fail));
      events := events + [Enqueue(f, Fail)];
      spool := spool - {c.name};
      rest := rest.(writers := rest.writers - {f});
      assert writers[f := Aborting] - {f} == writers - {f};
    }

    /** Sync the spool and report success, or leave everything where it is. */
    method Finish(p: Params, f: nat, c: Call, io: Fault) returns (ok: bool, ghost events: seq<Event>)
      requires At(f, c, Labeled)
      modifies this`rest
      ensures Reaches(p, old(Abs()), events, Abs())
      ensures ok <==> !io.DirSyncFails?
      ensures rest == if ok then old(rest).(spool := Both(spool), sidecars := Both(sidecars),
                                            enqueued := old(rest).enqueued + {f}, writers := old(rest).writers - {f})
                      else old(rest).(writers := old(rest).writers - {f})
    {
      hide Reaches, Apply;
      ok := !io.DirSyncFails?;
      Succeeds(p, Abs(), f);
      Quits(p, Abs(), f);
      OneStep(p, Abs(), Enqueue(f, if ok then Done else Quit));
      events := [Enqueue(f, if ok then Done else Quit)];
      rest := if ok then rest.(spool := Both(spool), sidecars := Both(sidecars), enqueued := rest.enqueued + {f},
                               writers := rest.writers - {f})
              else rest.(writers := rest.writers - {f});
    }

    /** From the published message on. */
    method Bind(p: Params, f: nat, c: Call, io: Fault) returns (ok: bool, ghost events: seq<Event>)
      requires At(f, c, Published) && c.name in spool
      modifies this`labels, this`spool, this`sidecars, this`rest
      ensures Reaches(p, old(Abs()), events, Abs())
      ensures ok <==> c.name !in old(sidecars) && (io.NoFault? || io.WriteFails? || io.SyncFails?)
      ensures ok ==> Abs() == AfterLabelling(old(Abs()), f, c)
      ensures !ok ==> rest == old(rest).(writers := old(rest).writers - {f})
      ensures !ok && (c.name in old(sidecars) || !io.DirSyncFails?) ==>
                spool == old(spool) - {c.name} && sidecars == old(sidecars)
      ensures !ok && c.name !in old(sidecars) && io.DirSyncFails? ==>
                spool == old(spool) && sidecars == old(sidecars)[c.name := f]
    {
      hide Reaches, Apply, LabelLine;
      ghost var s, writers := Abs(), rest.writers;
      if c.name in sidecars || io.LabelFails? {
        events := CleanUp(p, f, c, false);
        return false, events;
      }
      ghost var more;
      ok, events := WriteSidecar(p, f, c, io);
      ghost var t := Abs();
      if ok {
        ok, more := Finish(p, f, c, io);
        assert writers[f := Labeled] - {f} == writers - {f};
      } else {
        more := CleanUp(p, f, c, true);
        assert writers[f := Labeling] - {f} == writers - {f};
        assert old(sidecars)[c.name := f] - {c.name} == old(sidecars);
      }
      ReachesAppend(p, s, events, t, more, Abs());
      events := events + more;
    }

    /** Up to the published message, or to a part of it. */
    method Publish(p: Params, f: nat, c: Call, io: Fault) returns (ok: bool, ghost events: seq<Event>)
      requires f !in rest.calls && Admitted(p, spool, c)
      modifies this`files, this`spool, this`rest
      ensures Reaches(p, old(Abs()), events, Abs())
      ensures ok <==> !io.WriteFails? && !io.SyncFails?
      ensures At(f, c, if ok then Published else Writing)
      ensures ok ==> Abs() == AfterPublishing(old(Abs()), f, c)
      ensures spool == old(spool)[c.name := f]
      ensures rest.enqueued == old(rest).enqueued
    {
      hide Reaches, Apply, LabelLine, Admitted;
      ghost var s := Abs();
      Create(p, f, c);
      events := [Enqueue(f, Open(c.name, c.data, c.alias))];
      ghost var t, more := Abs(), [];
      ok, more := WriteMessage(p, f, c, io);
      assert s.writers[f := Writing][f := Published] == s.writers[f := Published];
      assert s.files[f := Bytes("", "")][f := Bytes(c.data, c.data)] == s.files[f := Bytes(c.data, c.data)];
      ReachesAppend(p, s, events, t, more, Abs());
      events := events + more;
    }

    /**
     `Enqueue`, undisturbed: it succeeds exactly when the message is admitted, no sidecar is in the way and
     nothing fails; then message and sidecar are complete and on disk.  A failed call leaves the names of the
     spool as they were, unless only the last sync failed: then the message stays and will be sent.
     */
    method Run(p: Params, f: nat, c: Call, io: Fault) returns (ok: bool, ghost events: seq<Event>)
      requires f !in rest.calls
      modifies this
      ensures Reaches(p, old(Abs()), events, Abs())
      ensures ok <==> Admitted(p, old(spool), c) && c.name !in old(sidecars) && io.NoFault?
      ensures ok ==> Abs() == AfterLabelling(AfterPublishing(old(Abs()), f, c), f, c)
      ensures !ok ==> rest.enqueued == old(rest).enqueued
      ensures !ok && !(Admitted(p, old(spool), c) && c.name !in old(sidecars) && io.DirSyncFails?) ==>
                spool == old(spool) && sidecars == old(sidecars)
      ensures Admitted(p, old(spool), c) && c.name !in old(sidecars) && io.DirSyncFails? ==>
                spool == old(spool)[c.name := f] && sidecars == old(sidecars)[c.name := f]
    {
      hide Reaches, AfterPublishing, AfterLabelling;
      ghost var s := Abs();
      if c.data == "" || !p.accepts(c.name, c.data, c.alias) || c.name in spool {
        ReachesItself(p, s);
        return false, [];
      }
      assert old(spool)[c.name := f] - {c.name} == old(spool);
      ok, events := Publish(p, f, c, io);
      ghost var t, more := Abs(), [];
      if ok {
        ok, more := Bind(p, f, c, io);
      } else {
        more := CleanUp(p, f, c, false);
      }
      ReachesAppend(p, s, events, t, more, Abs());
      events := events + more;
    }
  }
}
