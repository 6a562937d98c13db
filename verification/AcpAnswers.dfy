/**
 What the ACP companion answers over whole runs: when a session is open, which prompts
 are queued, and what the repetition of a queued event is told.
 */
module AcpAnswers {
  import opened Text
  import opened Acp
  import Runs

  ghost function Reach(events: seq<Step>): State {
    Runs.Run(STEPPER, Init(), events)
  }

  lemma ReachMore(events: seq<Step>, e: Step)
    ensures Reach(events + [e]) == Advance(Reach(events), e)
  {
    hide Advance;
    Runs.RunSnoc(STEPPER, Init(), events, e);
  }

  // ---- open sessions ----

  predicate Initializes(e: Step) {
    e.Receive? && e.line.Request? && e.line.wellFormed && e.line.call == Initialize(true)
  }

  predicate Opens(e: Step, session: string) {
    e.Receive? && e.line.Request? && e.line.wellFormed && e.line.call == NewSession(true, Some(session))
  }

  /** The process of event `i` is still the one at the end. */
  ghost predicate SameProcess(events: seq<Step>, i: nat)
    requires i <= |events|
  {
    Reach(events[..i]).process == Reach(events).process
  }

  ghost predicate ReadySince(events: seq<Step>) {
    exists i :: 0 <= i < |events| && Initializes(events[i]) && SameProcess(events, i)
  }

  /** The running process accepted initialize and later session/new for the session. */
  ghost predicate OpenSince(events: seq<Step>, session: string) {
    exists j :: 0 <= j < |events| && Opens(events[j], session) && SameProcess(events, j) && ReadySince(events[..j])
  }

  /** A process only gains; the next one starts with nothing. */
  lemma MemoryAfter(s: State, e: Step, session: string)
    ensures var t := Advance(s, e);
            && (t.process == s.process ==>
                && (t.ready <==> s.ready || Initializes(e))
                && (session in t.sessions <==> session in s.sessions || (s.ready && Opens(e, session))))
            && (t.process != s.process ==> t.process > s.process && !t.ready && session !in t.sessions)
  {
    hide Deliver, HasText;
    if e.Receive? && e.line.Request? && e.line.call.Prompt? && e.line.call.event.Some? {
      DeliverMemory(s, e.line.call.session, e.line.call.event.value, e.io);
    }
  }

  lemma DeliverMemory(s: State, session: string, event: Event, io: Io)
    ensures var t := Deliver(s, session, event, io).0;
            || (t.process == s.process && t.ready == s.ready && t.sessions == s.sessions)
            || (t.process > s.process && !t.ready && t.sessions == {})
  {
  }

  lemma {:induction false} ProcessGrows(events: seq<Step>, i: nat)
    requires i <= |events|
    ensures Reach(events[..i]).process <= Reach(events).process
  {
    assert events[..|events|] == events;
    if i < |events| {
      var k := |events| - 1;
      ProcessGrows(events[..k], i);
      assert events[..k][..i] == events[..i] && events == events[..k] + [events[k]];
      ReachMore(events[..k], events[k]);
      hide Advance, Reach;
      MemoryAfter(Reach(events[..k]), events[k], "");
    }
  }

  lemma SameProcessMore(events: seq<Step>, e: Step, i: nat)
    requires i <= |events|
    ensures SameProcess(events + [e], i) <==>
              SameProcess(events, i) && Reach(events + [e]).process == Reach(events).process
  {
    hide Reach;
    assert (events + [e])[..i] == events[..i];
    assert (events + [e])[..|events|] == events;
    ProcessGrows(events, i);
    ProcessGrows(events + [e], |events|);
  }

  lemma ReadySinceMore(events: seq<Step>, e: Step)
    ensures ReadySince(events + [e]) <==>
              Reach(events + [e]).process == Reach(events).process && (ReadySince(events) || Initializes(e))
  {
    hide Reach, SameProcess, Initializes;
    var all := events + [e];
    assert forall i :: 0 <= i < |events| ==> all[i] == events[i];
    assert all[|events|] == e;
    forall i | 0 <= i <= |events|
      ensures SameProcess(all, i) <==> SameProcess(events, i) && Reach(all).process == Reach(events).process
    { SameProcessMore(events, e, i); }
    SameNow(events);
    if ReadySince(events) && Reach(all).process == Reach(events).process {
      var i :| 0 <= i < |events| && Initializes(events[i]) && SameProcess(events, i);
      assert Initializes(all[i]) && SameProcess(all, i);
    }
  }

  lemma SameNow(events: seq<Step>)
    ensures SameProcess(events, |events|)
  {
    assert events[..|events|] == events;
  }

  lemma OpenSinceMore(events: seq<Step>, e: Step, session: string)
    ensures OpenSince(events + [e], session) <==>
              && Reach(events + [e]).process == Reach(events).process
              && (OpenSince(events, session) || (ReadySince(events) && Opens(e, session)))
  {
    hide Reach, SameProcess, Opens, ReadySince;
    var all := events + [e];
    assert forall i :: 0 <= i < |events| ==> all[i] == events[i] && all[..i] == events[..i];
    assert all[|events|] == e && all[..|events|] == events;
    forall i | 0 <= i <= |events|
      ensures SameProcess(all, i) <==> SameProcess(events, i) && Reach(all).process == Reach(events).process
    { SameProcessMore(events, e, i); }
    SameNow(events);
    if OpenSince(events, session) && Reach(all).process == Reach(events).process {
      var i :| 0 <= i < |events| && Opens(events[i], session) && SameProcess(events, i) && ReadySince(events[..i]);
      assert Opens(all[i], session) && SameProcess(all, i) && ReadySince(all[..i]);
    }
  }

  /** A session is open exactly when the running process accepted initialize and then opened it. */
  lemma {:induction false} OpenExactly(events: seq<Step>, session: string)
    ensures Reach(events).ready <==> ReadySince(events)
    ensures session in Reach(events).sessions <==> OpenSince(events, session)
  {
    if events != [] {
      var k := |events| - 1;
      var es, e := events[..k], events[k];
      assert events == es + [e];
      OpenExactly(es, session);
      ReachMore(es, e);
      hide Reach, Advance, ReadySince, OpenSince, Initializes, Opens;
      MemoryAfter(Reach(es), e, session);
      ReadySinceMore(es, e);
      OpenSinceMore(es, e, session);
    }
  }

  // ---- prompts ----

  /** A prompt as the server accepts it, in a session the process opened. */
  ghost predicate Posed(events: seq<Step>, line: Line, session: string, event: Event) {
    && line.Request? && line.wellFormed && line.id.Given? && OpenSince(events, session)
    && exists text :: Trim(text) != "" && line.call == Prompt(true, session, Some(text), Some(event))
  }

  /** A proper prompt is delivered or answered from the journal. */
  lemma PosedDelivers(events: seq<Step>, line: Line, session: string, event: Event, io: Io)
    requires Posed(events, line, session, event)
    ensures var s := Reach(events);
            var (t, reply) := Deliver(s, session, event, io);
            Handle(s, line, io) == (t, if reply.None? then None else Some(Response(Some(line.id.value), reply.value)))
  {
    hide Reach, OpenSince, ReadySince, Deliver, Trim;
    OpenExactly(events, session);
    assert Reach(events).ready by { OpenIsReady(events, session); }
  }

  lemma OpenIsReady(events: seq<Step>, session: string)
    requires OpenSince(events, session)
    ensures Reach(events).ready
  {
    hide Reach;
    var j :| 0 <= j < |events| && Opens(events[j], session) && SameProcess(events, j) && ReadySince(events[..j]);
    var i :| 0 <= i < j && Initializes(events[..j][i]) && SameProcess(events[..j], i);
    assert events[..j][..i] == events[..i];
    assert Initializes(events[i]) && SameProcess(events, i);
    OpenExactly(events, session);
  }

  /** Any other call or prompt is answered neither as queued nor as already queued, and delivers nothing. */
  lemma ImproperIsRefused(events: seq<Step>, line: Line, io: Io)
    requires line.Request? && line.id.Given?
    requires forall session, event :: !Posed(events, line, session, event)
    ensures var (t, r) := Handle(Reach(events), line, io);
            && r.Some? && !r.value.reply.Queued? && !r.value.reply.AlreadyQueued?
            && t.delivered == Reach(events).delivered && t.journal == Reach(events).journal
  {
    hide Reach, OpenSince, Deliver, Trim;
    if line.wellFormed && line.call.Prompt? && line.call.text.Some? && line.call.event.Some? {
      OpenExactly(events, line.call.session);
      assert !Posed(events, line, line.call.session, line.call.event.value);
    }
  }

  /** The other calls: each success is reported exactly when the call was accepted, which takes an open session. */
  lemma CallsExactly(events: seq<Step>, line: Line, io: Io, session: string)
    requires line.Request? && line.id.Given?
    ensures var r := Handle(Reach(events), line, io).1;
            && (r == Some(Response(Some(line.id.value), InvalidRequest)) <==> !line.wellFormed)
            && (r == Some(Response(Some(line.id.value), Initialized)) <==> Initializes(Receive(line, io)))
            && (r == Some(Response(Some(line.id.value), Opened(session))) <==>
                ReadySince(events) && Opens(Receive(line, io), session))
            && (line.call.Cancel? && line.call.session == session ==>
                (r == Some(Response(Some(line.id.value), Cancelled)) <==>
                 line.wellFormed && line.call.valid && OpenSince(events, session)))
  {
    hide Reach, OpenSince, ReadySince, Deliver, Trim;
    OpenExactly(events, session);
    if line.call.Prompt? && line.call.event.Some? {
      DeliverReplies(Reach(events), line.call.session, line.call.event.value, io);
    }
  }

  lemma DeliverReplies(s: State, session: string, event: Event, io: Io)
    ensures var r := Deliver(s, session, event, io).1;
            r.Some? ==> r.value.Queued? || r.value.AlreadyQueued? || r.value.Refused?
  {
  }

  /**
   A prompt is answered as queued exactly when it is proper, its event is not in the journal, the message reached
   the inbox and, if there is an event, its record was completed; the answer names the message delivered.
   */
  lemma QueuedExactly(events: seq<Step>, line: Line, session: string, event: Event, io: Io, message: string)
    requires Posed(events, line, session, event)
    ensures var s := Reach(events);
            var (t, r) := Handle(s, line, io);
            && (r == Some(Response(Some(line.id.value), Queued(message))) <==>
                && io.delivers && message == io.message
                && (event.Event? ==> event.id !in s.journal && io.journals.Recorded?))
            && (r == Some(Response(Some(line.id.value), Queued(message))) ==>
                && t.delivered == s.delivered + [Delivery(s.process, session, event, message)]
                && (event.Event? ==> t.journal == s.journal[event.id := Record(message)])
                && (event.NoEvent? ==> t.journal == s.journal))
  {
    hide Reach, OpenSince;
    PosedDelivers(events, line, session, event, io);
    hide Handle, HasText, Posed;
  }

  /** The repetition of a recorded event delivers nothing and is answered with a message delivered for it. */
  lemma RepeatIsAnswered(events: seq<Step>, line: Line, session: string, event: Event, io: Io)
    requires Posed(events, line, session, event) && event.Event? && WasRecorded(Reach(events), event.id)
    ensures var s := Reach(events);
            && Handle(s, line, io)
               == (s, Some(Response(Some(line.id.value), AlreadyQueued(s.journal[event.id].message))))
            && exists d :: d in s.delivered && d.event == event && d.message == s.journal[event.id].message
  {
    hide OpenSince;
    DuplicateNamesOriginal(events, event.id);
    hide Reach;
    PosedDelivers(events, line, session, event, io);
    hide Handle, HasText, Posed;
  }

  /**
   Once a prompt with an event was answered as queued, any later prompt for the event, after any further requests,
   crashes and restarts, is told the same message and delivers nothing.
   */
  lemma RepeatNamesFirst(before: seq<Step>, first: Line, s1: string, io1: Io, message: string,
                         after: seq<Step>, again: Line, s2: string, io2: Io, id: string)
    requires Posed(before, first, s1, Event(id))
    requires Handle(Reach(before), first, io1).1 == Some(Response(Some(first.id.value), Queued(message)))
    requires Posed(before + [Receive(first, io1)] + after, again, s2, Event(id))
    ensures var s := Reach(before + [Receive(first, io1)] + after);
            Handle(s, again, io2) == (s, Some(Response(Some(again.id.value), AlreadyQueued(message))))
  {
    var mid := before + [Receive(first, io1)];
    hide Posed;
    QueuedExactly(before, first, s1, Event(id), io1, message);
    ReachMore(before, Receive(first, io1));
    assert Reach(mid).journal[id] == Record(message);
    NothingOnceJournaled(mid, after, id);
    RepeatIsAnswered(mid + after, again, s2, Event(id), io2);
  }
}
