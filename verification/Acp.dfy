/**
 The ACP companion: one process reads request lines in order, keeps its sessions in
 memory and a journal of delivered events on disk.  The process may die inside a
 prompt, between the delivery and its journal record or in the middle of writing
 it, and be started again.
 */
module Acp {
  import opened Text
  import Runs

  // ---- requests ----

  datatype Event = NoEvent | Event(id: string)

  datatype Call =
    | Initialize(known: bool)                       // no unrecognized field
    | NewSession(valid: bool, id: Option<string>)   // the id generated, if that works
    | Prompt(valid: bool, session: string, text: Option<string>, event: Option<Event>)
    | Cancel(valid: bool, session: string)
    | OtherMethod

  /** The id member of a request object. */
  datatype Id = Absent | Null | Given(value: string)

  /** A line as the reader and the JSON decoder see it; an overlong one does not fit the reader's buffer. */
  datatype Line = Blank | Overlong | Unparsable | Request(wellFormed: bool, id: Id, call: Call)

  /** The id as decoded: a null one reads like an absent one, and an answer without an id shows null. */
  function Decoded(id: Id): Option<string> {
    if id.Given? then Some(id.value) else None
  }

  datatype Reply =
    | ParseError | InvalidRequest | Refused
    | Initialized | Opened(session: string) | Cancelled
    | Queued(message: string) | AlreadyQueued(message: string)

  datatype Response = Response(id: Option<string>, reply: Reply)

  // ---- the outside ----

  /** A record is written in place: an error or a crash may leave it torn. */
  datatype Journaling = Recorded | Unrecorded(torn: bool) | Died(torn: bool)

  /** How one prompt's file operations end: the message id, whether it reached the inbox, and its record. */
  datatype Io = Io(message: string, delivers: bool, journals: Journaling)

  datatype Record = Torn | Record(message: string)

  datatype Delivery = Delivery(process: nat, session: string, event: Event, message: string)

  datatype State = State(
    process: nat,                    // how often the companion was started again
    ready: bool,
    sessions: set<string>,
    journal: map<string, Record>,
    delivered: seq<Delivery>,
    incomplete: multiset<string>,    // deliveries of an event whose record was not completed
    initialized: set<nat>,           // processes that completed initialize
    created: set<(nat, string)>)      // sessions each process opened

  function Init(): State {
    State(0, false, {}, map[], [], multiset{}, {}, {})
  }

  /** The next process starts with nothing in memory. */
  function Restart(s: State): State {
    s.(process := s.process + 1, ready := false, sessions := {})
  }

  predicate HasText(text: string) {
    Trim(text) != ""
  }

  /** `DeliverPrompt`, after the checks of `prompt`. */
  function Deliver(s: State, session: string, event: Event, io: Io): (State, Option<Reply>) {
    if event.Event? && event.id in s.journal then
      (s, Some(if s.journal[event.id].Torn? then Refused else AlreadyQueued(s.journal[event.id].message)))
    else if !io.delivers then (s, Some(Refused))
    else
      var t := s.(delivered := s.delivered + [Delivery(s.process, session, event, io.message)]);
      if event.NoEvent? then (t, Some(Queued(io.message)))
      else
        match io.journals
        case Recorded => (t.(journal := t.journal[event.id := Record(io.message)]), Some(Queued(io.message)))
        case Unrecorded(torn) => (Unjournaled(t, event.id, torn), Some(Refused))
        case Died(torn) => (Restart(Unjournaled(t, event.id, torn)), None)
  }

  function Unjournaled(s: State, event: string, torn: bool): State {
    s.(incomplete := s.incomplete + multiset{event}, journal := if torn then s.journal[event := Torn] else s.journal)
  }

  /** `dispatch`; no reply when the process died. */
  function Dispatch(s: State, call: Call, io: Io): (State, Option<Reply>) {
    match call
    case Initialize(known) =>
      if known then (s.(ready := true, initialized := s.initialized + {s.process}), Some(Initialized))
      else (s, Some(Refused))
    case NewSession(valid, id) =>
      if !s.ready || !valid || id.None? then (s, Some(Refused))
      else
        (s.(sessions := s.sessions + {id.value}, created := s.created + {(s.process, id.value)}),
         Some(Opened(id.value)))
    case Prompt(valid, session, text, event) =>
      if !s.ready || !valid || session !in s.sessions || text.None? || event.None? || !HasText(text.value)
      then (s, Some(Refused))
      else Deliver(s, session, event.value, io)
    case Cancel(valid, session) => (s, Some(if valid && session in s.sessions then Cancelled else Refused))
    case OtherMethod => (s, Some(Refused))
  }

  /** `handle`. */
  function Handle(s: State, line: Line, io: Io): (State, Option<Response>) {
    match line
    case Blank => (s, None)
    case Overlong => (s, None)
    case Unparsable => (s, Some(Response(None, ParseError)))
    case Request(wellFormed, id, call) =>
      if !wellFormed then (s, Some(Response(Decoded(id), InvalidRequest)))
      else
        var (t, reply) := Dispatch(s, call, io);
        (t, if Decoded(id).None? || reply.None? then None else Some(Response(Decoded(id), reply.value)))
  }

  datatype Step = Receive(line: Line, io: Io) | Kill

  function Advance(s: State, e: Step): State {
    match e
    case Receive(line, io) => Handle(s, line, io).0
    case Kill => Restart(s)
  }

  const STEPPER := (s: State, e: Step) => Advance(s, e)

  // ---- deliveries per event ----

  function CountOf(delivered: seq<Delivery>, event: string): nat {
    if delivered == [] then 0
    else
      var k := |delivered| - 1;
      CountOf(delivered[..k], event) + if delivered[k].event == Event(event) then 1 else 0
  }

  lemma CountMore(delivered: seq<Delivery>, d: Delivery, event: string)
    ensures CountOf(delivered + [d], event) == CountOf(delivered, event) + if d.event == Event(event) then 1 else 0
  {
    assert (delivered + [d])[..|delivered|] == delivered;
  }

  predicate WasRecorded(s: State, event: string) {
    event in s.journal && s.journal[event].Record?
  }

  /** Exactly one delivery per event, plus those whose record was not completed. */
  ghost predicate Counted(s: State, event: string) {
    && CountOf(s.delivered, event) == s.incomplete[event] + (if WasRecorded(s, event) then 1 else 0)
    && (event in s.journal && s.journal[event].Torn? ==> s.incomplete[event] >= 1)
  }

  predicate Proper(s: State, d: Delivery) {
    d.process in s.initialized && (d.process, d.session) in s.created
  }

  ghost predicate Named(s: State, event: string) {
    WasRecorded(s, event) ==>
      exists d :: d in s.delivered && d.event == Event(event) && d.message == s.journal[event].message
  }

  ghost predicate Inv(s: State) {
    && (forall e :: Counted(s, e))
    && (forall e :: Named(s, e))
    && (forall d :: d in s.delivered ==> Proper(s, d))
    && (s.ready ==> s.process in s.initialized)
    && (forall x :: x in s.sessions ==> (s.process, x) in s.created)
  }

  /** What one prompt may add to the log and the journal. */
  ghost predicate Logs(s: State, t: State) {
    || (t.delivered == s.delivered && t.journal == s.journal && t.incomplete == s.incomplete)
    || (exists d :: LogsOne(s, t, d))
  }

  ghost predicate LogsOne(s: State, t: State, d: Delivery) {
    && t.delivered == s.delivered + [d]
    && if d.event.NoEvent? then t.journal == s.journal && t.incomplete == s.incomplete
       else
         && d.event.id !in s.journal
         && ((t.journal == s.journal[d.event.id := Record(d.message)] && t.incomplete == s.incomplete)
             || (&& (t.journal == s.journal || t.journal == s.journal[d.event.id := Torn])
                 && t.incomplete == s.incomplete + multiset{d.event.id}))
  }

  lemma DeliverLogs(s: State, session: string, event: Event, io: Io)
    ensures Logs(s, Deliver(s, session, event, io).0)
    ensures forall d :: d in Deliver(s, session, event, io).0.delivered ==>
              d in s.delivered || (d.process == s.process && d.session == session)
  {
    var t := Deliver(s, session, event, io).0;
    if t.delivered != s.delivered {
      assert LogsOne(s, t, Delivery(s.process, session, event, io.message));
    }
  }

  lemma LogsKeepCounts(s: State, t: State, d: Delivery, e: string)
    requires Counted(s, e) && LogsOne(s, t, d)
    ensures Counted(t, e)
  {
    CountMore(s.delivered, d, e);
    hide CountOf;
  }

  lemma LogsKeepNames(s: State, t: State, d: Delivery, e: string)
    requires Named(s, e) && LogsOne(s, t, d)
    ensures Named(t, e)
  {
    assert d in t.delivered;
    if WasRecorded(t, e) && d.event != Event(e) {
      var x :| x in s.delivered && x.event == Event(e) && x.message == s.journal[e].message;
      assert x in t.delivered;
    }
  }

  lemma DeliverKeeps(s: State, session: string, event: Event, io: Io)
    requires Inv(s) && s.ready && session in s.sessions
    ensures Inv(Deliver(s, session, event, io).0)
  {
    var t := Deliver(s, session, event, io).0;
    DeliverLogs(s, session, event, io);
    assert t.initialized == s.initialized && t.created == s.created;
    assert t.ready ==> t.process == s.process;
    assert t.sessions == {} || (t.sessions == s.sessions && t.process == s.process);
    hide Deliver, Counted, Named;
    if d :| LogsOne(s, t, d) {
      forall e ensures Counted(t, e) && Named(t, e) {
        LogsKeepCounts(s, t, d, e);
        LogsKeepNames(s, t, d, e);
      }
      forall x | x in t.delivered ensures Proper(t, x) {
        if x in s.delivered { assert Proper(s, x); }
      }
    } else {
      SameLog(s, t);
    }
  }

  lemma DispatchKeeps(s: State, call: Call, io: Io)
    requires Inv(s)
    ensures Inv(Dispatch(s, call, io).0)
  {
    if call.Prompt? && Dispatch(s, call, io).0 != s {
      DeliverKeeps(s, call.session, call.event.value, io);
    } else {
      var t := Dispatch(s, call, io).0;
      SameLog(s, t);
    }
  }

  /** Nothing but memory and its history changed. */
  lemma SameLog(s: State, t: State)
    requires Inv(s) && t.delivered == s.delivered && t.journal == s.journal && t.incomplete == s.incomplete
    requires s.initialized <= t.initialized && s.created <= t.created
    requires (t.ready ==> t.process in t.initialized) && (forall x :: x in t.sessions ==> (t.process, x) in t.created)
    ensures Inv(t)
  {
    forall e ensures Counted(t, e) && Named(t, e) { assert Counted(s, e) && Named(s, e); }
    forall d | d in t.delivered ensures Proper(t, d) { assert Proper(s, d); }
  }

  lemma StepKeeps(s: State, e: Step)
    requires Inv(s)
    ensures Inv(Advance(s, e))
  {
    hide Inv, Dispatch;
    if e.Kill? {
      SameLogRestart(s);
    } else if e.line.Request? && e.line.wellFormed {
      DispatchKeeps(s, e.line.call, e.io);
    }
  }

  lemma SameLogRestart(s: State)
    requires Inv(s)
    ensures Inv(Restart(s))
  {
    SameLog(s, Restart(s));
  }

  lemma InvReached(events: seq<Step>)
    ensures Inv(Runs.Run(STEPPER, Init(), events))
  {
    var any := (s: State, e: Step) => true;
    assert Inv(Init()) by {
      forall e ensures Counted(Init(), e) && Named(Init(), e) { }
    }
    hide Inv, Advance;
    forall s, e | Inv(s) ensures Inv(STEPPER(s, e)) { StepKeeps(s, e); }
    Runs.AllAllowed(STEPPER, any, Init(), events);
    Runs.Preserved(STEPPER, any, (s: State) => Inv(s), Init(), events);
  }

  /**
   Over any run with crashes and restarts an event is delivered once for its completed record, if it has one,
   and once for each delivery whose record was not completed; so at most one plus those.
   */
  lemma DeliveriesPerEvent(events: seq<Step>, event: string)
    ensures var s := Runs.Run(STEPPER, Init(), events);
            && CountOf(s.delivered, event) == s.incomplete[event] + (if WasRecorded(s, event) then 1 else 0)
            && CountOf(s.delivered, event) <= 1 + s.incomplete[event]
  {
    InvReached(events);
    assert Counted(Runs.Run(STEPPER, Init(), events), event);
  }

  /** Every delivery came from a process that had completed initialize and had opened the session it names. */
  lemma DeliveredInSession(events: seq<Step>, d: Delivery)
    requires d in Runs.Run(STEPPER, Init(), events).delivered
    ensures Proper(Runs.Run(STEPPER, Init(), events), d)
  {
    InvReached(events);
  }

  /** A duplicate is answered with the message that was queued for the event. */
  lemma DuplicateNamesOriginal(events: seq<Step>, event: string)
    requires WasRecorded(Runs.Run(STEPPER, Init(), events), event)
    ensures var s := Runs.Run(STEPPER, Init(), events);
            exists d :: d in s.delivered && d.event == Event(event) && d.message == s.journal[event].message
  {
    InvReached(events);
    assert Named(Runs.Run(STEPPER, Init(), events), event);
  }

  /** The journal keeps what it holds, and then nothing more is delivered for the event. */
  ghost predicate Settled(event: string, record: Record, n: nat, s: State) {
    event in s.journal && s.journal[event] == record && CountOf(s.delivered, event) == n
  }

  lemma AdvanceLogs(s: State, e: Step)
    ensures Logs(s, Advance(s, e))
  {
    hide Deliver, Logs;
    var t := Advance(s, e);
    if e.Receive? && e.line.Request? && e.line.call.Prompt? && e.line.call.event.Some? {
      DeliverLogs(s, e.line.call.session, e.line.call.event.value, e.io);
    }
    LogsNothing(s, t);
  }

  lemma LogsNothing(s: State, t: State)
    ensures t.delivered == s.delivered && t.journal == s.journal && t.incomplete == s.incomplete ==> Logs(s, t)
  {
  }

  lemma StepSettled(event: string, record: Record, n: nat, s: State, e: Step)
    requires Settled(event, record, n, s)
    ensures Settled(event, record, n, Advance(s, e))
  {
    AdvanceLogs(s, e);
    hide Advance, CountOf;
    var t := Advance(s, e);
    if d :| LogsOne(s, t, d) {
      CountMore(s.delivered, d, event);
    }
  }

  /** Nothing is delivered for an event once it is journaled, completely or not, however the run goes on. */
  lemma NothingOnceJournaled(before: seq<Step>, after: seq<Step>, event: string)
    requires event in Runs.Run(STEPPER, Init(), before).journal
    ensures var s, t := Runs.Run(STEPPER, Init(), before), Runs.Run(STEPPER, Init(), before + after);
            && event in t.journal && t.journal[event] == s.journal[event]
            && CountOf(t.delivered, event) == CountOf(s.delivered, event)
  {
    var s := Runs.Run(STEPPER, Init(), before);
    var any := (s: State, e: Step) => true;
    var r, n := s.journal[event], CountOf(s.delivered, event);
    var inv := (s: State) => Settled(event, r, n, s);
    hide Advance, Settled, Init;
    assert Settled(event, r, n, s) by { SettledNow(event, s); }
    forall x, e | inv(x) ensures inv(STEPPER(x, e)) { StepSettled(event, r, n, x, e); }
    Runs.AllAllowed(STEPPER, any, s, after);
    Runs.Preserved(STEPPER, any, inv, s, after);
    Runs.RunAppend(STEPPER, Init(), before, after);
    SettledMeans(event, r, n, Runs.Run(STEPPER, s, after));
  }

  lemma SettledNow(event: string, s: State)
    requires event in s.journal
    ensures Settled(event, s.journal[event], CountOf(s.delivered, event), s)
  {
  }

  lemma SettledMeans(event: string, r: Record, n: nat, s: State)
    requires Settled(event, r, n, s)
    ensures event in s.journal && s.journal[event] == r && CountOf(s.delivered, event) == n
  {
  }

  // ---- the server ----

  /** The lines that are answered. */
  predicate Answered(line: Line) {
    line.Unparsable? || (line.Request? && (!line.wellFormed || line.id.Given?))
  }

  function IdOf(line: Line): Option<string> {
    if line.Request? then Decoded(line.id) else None
  }

  /** What sections 4 and 4.1 of JSON-RPC 2.0 call for: an answer to all but notifications, which have no id member. */
  predicate Entitled(line: Line) {
    match line
    case Blank => false
    case Overlong => true
    case Unparsable => true
    case Request(wellFormed, id, _) => !wellFormed || !id.Absent?
  }

  /** The ids of the answers owed, in order. */
  function Owed(lines: seq<Line>): seq<Option<string>> {
    if lines == [] then []
    else
      var k := |lines| - 1;
      Owed(lines[..k]) + if Answered(lines[k]) then [IdOf(lines[k])] else []
  }

  function Ids(out: seq<Response>): (r: seq<Option<string>>)
    ensures |r| == |out| && forall i :: 0 <= i < |out| ==> r[i] == out[i].id
  {
    seq(|out|, i requires 0 <= i < |out| => out[i].id)
  }

  /**
   An answer, unless the process died first, goes to exactly the lines that are owed one and carries their id.
   Of the lines entitled to an answer just two kinds get none: overlong ones and requests with a null id.
   */
  lemma AnswerOwed(s: State, line: Line, io: Io)
    ensures var (t, r) := Handle(s, line, io);
            && (r.Some? ==> Answered(line) && r.value.id == IdOf(line))
            && (Answered(line) && t.process == s.process ==> r.Some?)
    ensures Answered(line) ==> Entitled(line)
    ensures Entitled(line) && !Answered(line) <==> line.Overlong? || (line.Request? && line.wellFormed && line.id.Null?)
  {
  }

  /** Reference: the state and the answers after the lines, one after the other. */
  function After(s: State, lines: seq<Line>, ios: seq<Io>): (State, seq<Response>)
    requires |ios| == |lines|
  {
    if lines == [] then (s, [])
    else
      var k := |lines| - 1;
      var (t, out) := After(s, lines[..k], ios[..k]);
      var (u, r) := Handle(t, lines[k], ios[k]);
      (u, if r.Some? then out + [r.value] else out)
  }

  lemma AfterNone(s: State, lines: seq<Line>, ios: seq<Io>)
    requires |ios| == |lines|
    ensures After(s, lines[..0], ios[..0]) == (s, [])
  {
  }

  lemma AfterMore(s: State, lines: seq<Line>, ios: seq<Io>, i: nat)
    requires |ios| == |lines| && i < |lines|
    ensures var (t, out) := After(s, lines[..i], ios[..i]);
            var (u, r) := Handle(t, lines[i], ios[i]);
            After(s, lines[..i + 1], ios[..i + 1]) == (u, if r.Some? then out + [r.value] else out)
  {
    assert lines[..i + 1][..i] == lines[..i] && ios[..i + 1][..i] == ios[..i];
    hide Handle;
  }

  lemma HandleCounts(s: State, line: Line, io: Io)
    ensures Handle(s, line, io).0.process >= s.process
  {
    hide Deliver, HasText;
    if line.Request? && line.call.Prompt? && line.call.event.Some? {
      DeliverCounts(s, line.call.session, line.call.event.value, io);
    }
  }

  lemma DeliverCounts(s: State, session: string, event: Event, io: Io)
    ensures Deliver(s, session, event, io).0.process >= s.process
  {
  }

  lemma {:induction false} ProcessesOnlyRestart(s: State, lines: seq<Line>, ios: seq<Io>)
    requires |ios| == |lines|
    ensures After(s, lines, ios).0.process >= s.process
  {
    if lines != [] {
      var k := |lines| - 1;
      ProcessesOnlyRestart(s, lines[..k], ios[..k]);
      hide Handle;
      HandleCounts(After(s, lines[..k], ios[..k]).0, lines[k], ios[k]);
    }
  }

  /** A process that lives through the lines answers exactly those that are owed an answer, in order. */
  lemma {:induction false} AnswersOwed(s: State, lines: seq<Line>, ios: seq<Io>)
    requires |ios| == |lines| && After(s, lines, ios).0.process == s.process
    ensures Ids(After(s, lines, ios).1) == Owed(lines)
  {
    if lines != [] {
      var k := |lines| - 1;
      var (t, out) := After(s, lines[..k], ios[..k]);
      ProcessesOnlyRestart(s, lines[..k], ios[..k]);
      HandleCounts(t, lines[k], ios[k]);
      AnswersOwed(s, lines[..k], ios[..k]);
      AnswerOwed(t, lines[k], ios[k]);
      var (u, r) := Handle(t, lines[k], ios[k]);
      hide Handle, Ids;
      if r.Some? { OneMore(out, r.value); }
    } else {
      assert Ids([]) == [];
    }
  }

  lemma OneMore(out: seq<Response>, r: Response)
    ensures Ids(out + [r]) == Ids(out) + [r.id]
  {
  }

  /** There is no reply exactly when the process died, which only a prompt can bring about. */
  lemma DispatchLives(s: State, call: Call, io: Io)
    ensures var (t, reply) := Dispatch(s, call, io);
            (reply.Some? <==> t.process == s.process) && (reply.None? ==> io.journals.Died?)
  {
    hide Deliver, HasText;
    if call.Prompt? && call.event.Some? {
      DeliverLives(s, call.session, call.event.value, io);
    }
  }

  lemma DeliverLives(s: State, session: string, event: Event, io: Io)
    ensures var (t, reply) := Deliver(s, session, event, io);
            (reply.Some? <==> t.process == s.process) && (reply.None? ==> io.journals.Died?)
  {
  }

  class Server {
    var ready: bool
    var sessions: set<string>
    var journal: map<string, Record>
    var delivered: seq<Delivery>
    ghost var process: nat
    ghost var incomplete: multiset<string>
    ghost var initialized: set<nat>
    ghost var created: set<(nat, string)>

    ghost function Now(): State
      reads this
    {
      State(process, ready, sessions, journal, delivered, incomplete, initialized, created)
    }

    /** The process is gone; what it had in memory with it. */
    method Die()
      modifies this
      ensures Now() == Restart(old(Now()))
    {
      ready, sessions := false, {};
      process := process + 1;
    }

    /** `DeliverPrompt`: the journal is consulted, the message delivered, then the journal written. */
    method DeliverPrompt(session: string, event: Event, io: Io, pid: nat) returns (reply: Option<Reply>)
      requires pid == process
      modifies this
      ensures (Now(), reply) == Deliver(old(Now()), session, event, io)
    {
      if event.Event? && event.id in journal {
        return Some(if journal[event.id].Torn? then Refused else AlreadyQueued(journal[event.id].message));
      }
      if !io.delivers {
        return Some(Refused);
      }
      delivered := delivered + [Delivery(pid, session, event, io.message)];
      if event.NoEvent? {
        return Some(Queued(io.message));
      }
      if io.journals.Recorded? {
        journal := journal[event.id := Record(io.message)];
        return Some(Queued(io.message));
      }
      incomplete := incomplete + multiset{event.id};
      if io.journals.torn {
        journal := journal[event.id := Torn];
      }
      if io.journals.Unrecorded? {
        return Some(Refused);
      }
      Die();
      return None;
    }

    method DispatchCall(call: Call, io: Io, pid: nat) returns (reply: Option<Reply>)
      requires pid == process
      modifies this
      ensures (Now(), reply) == Dispatch(old(Now()), call, io)
    {
      hide Deliver;
      match call {
        case Initialize(known) =>
          if !known {
            return Some(Refused);
          }
          ready := true;
          initialized := initialized + {process};
          return Some(Initialized);
        case NewSession(valid, id) =>
          if !ready || !valid || id.None? {
            return Some(Refused);
          }
          sessions := sessions + {id.value};
          created := created + {(process, id.value)};
          return Some(Opened(id.value));
        case Prompt(valid, session, text, event) =>
          if !ready || !valid || session !in sessions || text.None? || event.None? || !HasText(text.value) {
            return Some(Refused);
          }
          reply := DeliverPrompt(session, event.value, io, pid);
        case Cancel(valid, session) => reply := Some(if valid && session in sessions then Cancelled else Refused);
        case OtherMethod => reply := Some(Refused);
      }
    }

    method HandleLine(line: Line, io: Io, pid: nat) returns (resp: Option<Response>, alive: bool)
      requires pid == process
      modifies this
      ensures (Now(), resp) == Handle(old(Now()), line, io)
      ensures alive <==> process == pid
      ensures !io.journals.Died? ==> alive
    {
      hide Dispatch;
      alive := true;
      match line {
        case Blank => resp := None;
        case Overlong => resp := None;
        case Unparsable => resp := Some(Response(None, ParseError));
        case Request(wellFormed, id, call) =>
          if !wellFormed {
            return Some(Response(Decoded(id), InvalidRequest)), true;
          }
          DispatchLives(Now(), call, io);
          var reply := DispatchCall(call, io, pid);
          alive := reply.Some?;
          resp := if Decoded(id).None? || reply.None? then None else Some(Response(Decoded(id), reply.value));
      }
    }

    /**
     `Serve`: the state and the answers are those of the lines handled, one after the other; all lines are
     handled and all answers written, unless writing fails, the process dies or a line does not fit the buffer,
     which ends the loop with an error and no answer.
     */
    method Serve(lines: seq<Line>, ios: seq<Io>, writeFails: nat -> bool, pid: nat)
      returns (out: seq<Response>, ok: bool, handled: nat)
      requires |ios| == |lines| && pid == process
      modifies this
      ensures handled <= |lines| && Now() == After(old(Now()), lines[..handled], ios[..handled]).0
      ensures out <= After(old(Now()), lines[..handled], ios[..handled]).1
      ensures ok ==> handled == |lines| && Overlong !in lines
                     && out == After(old(Now()), lines, ios).1 && Ids(out) == Owed(lines)
      ensures (forall n :: !writeFails(n)) && (forall io :: io in ios ==> !io.journals.Died?) ==>
                && (ok <==> Overlong !in lines)
                && (!ok ==> handled < |lines| && lines[handled].Overlong?)
                && out == After(old(Now()), lines[..handled], ios[..handled]).1
    {
      hide Handle, Ids, Owed, After;
      ghost var s0 := Now();
      out, ok, handled := [], true, 0;
      AfterNone(s0, lines, ios);
      while handled < |lines| && ok
        invariant handled <= |lines|
        invariant Now() == After(s0, lines[..handled], ios[..handled]).0
        invariant out <= After(s0, lines[..handled], ios[..handled]).1
        invariant ok ==> process == pid && out == After(s0, lines[..handled], ios[..handled]).1
        invariant ok ==> Overlong !in lines[..handled]
        invariant (forall n :: !writeFails(n)) && (forall io :: io in ios ==> !io.journals.Died?) ==>
                    && (!ok ==> handled < |lines| && lines[handled].Overlong?)
                    && out == After(s0, lines[..handled], ios[..handled]).1
        decreases |lines| - handled, ok
      {
        if lines[handled].Overlong? {
          ok := false;
        } else {
          AfterMore(s0, lines, ios, handled);
          assert lines[..handled + 1] == lines[..handled] + [lines[handled]];
          var resp, alive := HandleLine(lines[handled], ios[handled], pid);
          ok := alive && (resp.Some? ==> !writeFails(|out|));
          if ok && resp.Some? { out := out + [resp.value]; }
          handled := handled + 1;
        }
      }
      assert lines[..|lines|] == lines && ios[..|ios|] == ios;
      if ok { AnswersOwed(s0, lines, ios); }
    }
  }

  // ---- event ids ----

  function Normalized(raw: string): string {
    ToLower(Trim(raw))
  }

  predicate IsEventId(id: string) {
    |id| == 64 && forall c :: c in id ==> '0' <= c <= '9' || 'a' <= c <= 'f'
  }

  function NormalizedAll(raw: seq<string>): set<string> {
    (set c | c in raw :: Normalized(c)) - {""}
  }

  /**
   `resolveEventID`: candidates are compared after trimming and lower-casing; the prompt has an event exactly
   when they all name one and the same valid id, and none exactly when all are blank.
   */
  method ResolveEvent(raw: seq<string>) returns (event: Option<Event>)
    ensures event == Some(NoEvent) <==> NormalizedAll(raw) == {}
    ensures forall id :: event == Some(Event(id)) <==>
              && NormalizedAll(raw) == {id}
              && |id| == 64 && forall c :: c in id ==> '0' <= c <= '9' || 'a' <= c <= 'f'
  {
    hide Normalized, NormalizedAll, IsEventId;
    forall id ensures IsEventId(id) <==> |id| == 64 && forall c :: c in id ==> '0' <= c <= '9' || 'a' <= c <= 'f' {
      EventIdIsDigest(id);
    }
    assert raw[..0] == [];
    var ids: seq<string> := [];
    NormalizedNone();
    for i := 0 to |raw|
      invariant forall j, k :: 0 <= j < k < |ids| ==> ids[j] != ids[k]
      invariant forall id :: id in ids <==> id in NormalizedAll(raw[..i])
      invariant forall id :: id in ids ==> IsEventId(id)
    {
      var id := Normalized(raw[i]);
      assert raw[..i + 1] == raw[..i] + [raw[i]];
      NormalizedMore(raw[..i], raw[i]);
      if id == "" {
        continue;
      }
      if !IsEventId(id) {
        assert id in NormalizedAll(raw) by { NormalizedIn(raw, i); }
        return None;
      }
      if id !in ids {
        ids := ids + [id];
      }
    }
    assert raw[..|raw|] == raw;
    if |ids| > 1 {
      assert ids[0] in NormalizedAll(raw) && ids[1] in NormalizedAll(raw);
      return None;
    }
    if |ids| == 1 {
      assert NormalizedAll(raw) == {ids[0]};
      return Some(Event(ids[0]));
    }
    return Some(NoEvent);
  }

  lemma EventIdIsDigest(id: string)
    ensures IsEventId(id) <==> |id| == 64 && forall c :: c in id ==> '0' <= c <= '9' || 'a' <= c <= 'f'
  {
  }

  lemma NormalizedNone()
    ensures NormalizedAll([]) == {}
  {
  }

  lemma NormalizedMore(raw: seq<string>, c: string)
    ensures NormalizedAll(raw + [c]) == NormalizedAll(raw) + ({Normalized(c)} - {""})
  {
    assert forall x :: x in raw + [c] <==> x in raw || x == c;
    forall n | n in NormalizedAll(raw) + ({Normalized(c)} - {""}) ensures n in NormalizedAll(raw + [c]) {
      if n in NormalizedAll(raw) {
        var x :| x in raw && Normalized(x) == n;
        assert x in raw + [c];
      } else {
        assert c in raw + [c];
      }
    }
  }

  lemma NormalizedIn(raw: seq<string>, i: nat)
    requires i < |raw| && Normalized(raw[i]) != ""
    ensures Normalized(raw[i]) in NormalizedAll(raw)
  {
    assert raw[i] in raw;
  }
}
