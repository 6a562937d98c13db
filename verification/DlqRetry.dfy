/**
 Retrying one dead-lettered message: `retryFromDLQLocked` step by step, with a crash
 possible between any two file operations, while consumers take the message from the
 inbox.  The envelope's lock admits one retry at a time.
 */
module DlqRetry {
  import Runs
  import opened Text

  datatype RetryState = Ready | Pending | Done

  /** The retry audit kept in the envelope. */
  datatype Audit = Audit(count: nat, state: RetryState)

  /** The next operation of the retry that holds the lock. */
  datatype Pc = Idle | AtUnlinkOld | AtStage | AtPublish | AtReset | AtFinish

  datatype Box = Box(
    inNew: Option<Audit>,     // dlq/new copy
    inCur: Option<Audit>,     // dlq/cur copy, which stands for the message when there is one
    inbox: bool,              // the original is in inbox/new
    claimed: bool,            // the original is in inbox/cur
    tmps: nat,                // staged copies in inbox/tmp
    pc: Pc,
    delivered: nat,           // deliveries made by retries
    leftovers: nat,           // failed attempts that left their staged copy behind
    taken: nat)               // copies that have left inbox/cur

  const MAX_RETRIES := 3

  datatype Event =
    | Begin(force: bool)
    | UnlinkOld
    | Stage
    | StageFails(kept: bool)
    | Publish
    | PublishFails(kept: bool)
    | Reset
    | Finish
    | Recover
    | Stop                    // an error return or a crash
    | Consume                 // a consumer claims the message
    | Take                    // the claimed message leaves inbox/cur
    | Inspect                 // `dlq read` moves or reconciles the envelope

  function Init(retained: bool): Box {
    Box(Some(Audit(0, Ready)), None, false, retained, 0, Idle, 0, 0, 0)
  }

  /** `FindDLQMessage`: the copy in cur wins. */
  function Current(b: Box): Option<Audit> {
    if b.inCur.Some? then b.inCur else b.inNew
  }

  /** Write the audit to cur. */
  function Save(b: Box, a: Audit): Box {
    b.(inCur := Some(a))
  }

  function State(b: Box, s: RetryState): Box {
    if b.inCur.Some? then Save(b, b.inCur.value.(state := s)) else b
  }

  /** A copy that cur stands for is removed from new. */
  function Reconciled(b: Box): Box {
    if b.inCur.Some? then b.(inNew := None) else b
  }

  function BeginStep(b: Box, force: bool): Box {
    var a := Current(b);
    var c := Reconciled(b);
    if a.None? || a.value.state != Ready || b.inbox || b.claimed then c
    else if a.value.count >= MAX_RETRIES && !force then c
    else Save(c, Audit(a.value.count + 1, Pending)).(pc := if c.inNew.Some? then AtUnlinkOld else AtStage)
  }

  /** A retry that finds an earlier one unfinished. */
  function RecoverStep(b: Box): Box {
    var a := Current(b);
    var c := Reconciled(b);
    if a.None? || a.value.state != Pending then c
    else if b.inbox || b.claimed then c.(pc := AtFinish)
    else if b.tmps > 0 then c.(tmps := b.tmps - 1, inbox := true, delivered := b.delivered + 1, pc := AtFinish)
    else c  // indeterminate: refuse
  }

  function Copies(there: bool): nat { if there then 1 else 0 }

  function Step(b: Box, e: Event): Box {
    match e
    case Begin(force) => if b.pc.Idle? then BeginStep(b, force) else b
    case Recover => if b.pc.Idle? then RecoverStep(b) else b
    case UnlinkOld => if b.pc.AtUnlinkOld? then b.(inNew := None, pc := AtStage) else b
    case Stage => if b.pc.AtStage? then b.(tmps := b.tmps + 1, pc := AtPublish) else b
    case StageFails(kept) =>
      if b.pc.AtStage? then
        b.(tmps := b.tmps + (if kept then 1 else 0), leftovers := b.leftovers + (if kept then 1 else 0), pc := AtReset)
      else b
    case Publish =>
      if b.pc.AtPublish? && b.tmps > 0 then
        if b.inbox then b.(tmps := b.tmps - 1, pc := AtFinish)
        else b.(tmps := b.tmps - 1, inbox := true, delivered := b.delivered + 1, pc := AtFinish)
      else b
    case PublishFails(kept) =>
      if b.pc.AtPublish? && b.tmps > 0 then
        b.(tmps := b.tmps - (if kept then 0 else 1), leftovers := b.leftovers + (if kept then 1 else 0), pc := AtReset)
      else b
    case Reset => if b.pc.AtReset? then State(b, Ready).(pc := Idle) else b
    case Finish => if b.pc.AtFinish? then State(b, Done).(pc := Idle) else b
    case Stop => b.(pc := Idle)
    case Consume => if b.inbox && !b.claimed then b.(inbox := false, claimed := true) else b
    case Take => b.(claimed := false, taken := b.taken + Copies(b.claimed))
    case Inspect =>
      if !b.pc.Idle? then b
      else if b.inCur.Some? then Reconciled(b)
      else b.(inCur := b.inNew, inNew := None)
  }

  const STEPPER := (b: Box, e: Event) => Step(b, e)

  /** Where an attempt may still add to the copies in circulation. */
  predicate Staging(b: Box) {
    b.pc.AtUnlinkOld? || b.pc.AtStage?
  }

  predicate Inv(b: Box) {
    && (b.inNew.Some? ==> b.inNew.value.state == Ready)
    && Current(b).Some?
    && (Current(b).value.state == Ready ==> b.delivered == 0 && b.tmps <= b.leftovers && b.pc.Idle?)
    && (Current(b).value.state == Done ==> b.delivered >= 1)
    && (Staging(b) || b.pc.AtReset? ==> b.delivered == 0 && b.tmps <= b.leftovers)
    && b.delivered + b.tmps <= 1 + b.leftovers
    && (b.pc.AtPublish? ==> b.delivered == 0)
    && (b.pc.AtFinish? ==> b.delivered >= 1)
    && (!b.pc.Idle? ==> b.inCur.Some?)
    && (b.inbox || (b.claimed && Current(b).value.state != Ready) ==> b.delivered >= 1)
  }

  /**
   What every step keeps.  A ready envelope has never been delivered; copies already delivered and copies
   still staged never exceed one, but for the staged copies that failed attempts left behind.
   */
  lemma StepKeeps(b: Box, e: Event)
    requires Inv(b)
    ensures Inv(Step(b, e))
  {
  }

  lemma InvReached(retained: bool, events: seq<Event>)
    ensures Inv(Runs.Run(STEPPER, Init(retained), events))
  {
    var any := (b: Box, e: Event) => true;
    forall b, e | Inv(b) ensures Inv(STEPPER(b, e)) { StepKeeps(b, e); }
    Runs.AllAllowed(STEPPER, any, Init(retained), events);
    Runs.Preserved(STEPPER, any, (b: Box) => Inv(b), Init(retained), events);
  }

  /**
   Over any number of retries, crashes and consumers a message is delivered at most once more than the number
   of attempts that left their staged copy behind; the envelope is never lost, and it says delivered only
   after a delivery.
   */
  lemma DeliveredAtMostOnce(retained: bool, events: seq<Event>)
    ensures var b := Runs.Run(STEPPER, Init(retained), events);
            && b.delivered <= 1 + b.leftovers
            && Current(b).Some? && (Current(b).value.state == Done ==> b.delivered >= 1)
  {
    InvReached(retained, events);
  }

  predicate Conserved(retained: bool, b: Box) {
    b.delivered + Copies(retained) == b.taken + Copies(b.inbox) + Copies(b.claimed)
  }

  lemma InitConserved(retained: bool)
    ensures Conserved(retained, Init(retained))
  {
  }

  lemma StepConserves(retained: bool, b: Box, e: Event)
    requires Conserved(retained, b)
    ensures Conserved(retained, Step(b, e))
  {
  }

  /** No copy appears or vanishes: each one delivered, or retained, is in the inbox, with a consumer, or was taken. */
  lemma CopiesAreConserved(retained: bool, events: seq<Event>)
    ensures Conserved(retained, Runs.Run(STEPPER, Init(retained), events))
  {
    var any := (b: Box, e: Event) => true;
    var inv := (b: Box) => Conserved(retained, b);
    hide Step, Conserved;
    assert Conserved(retained, Init(retained)) by { InitConserved(retained); }
    forall b, e | inv(b) ensures inv(STEPPER(b, e)) { StepConserves(retained, b, e); }
    Runs.AllAllowed(STEPPER, any, Init(retained), events);
    Runs.Preserved(STEPPER, any, inv, Init(retained), events);
  }

  // ---- whole attempts ----

  /** The steps of an attempt in which nothing fails; without a copy in new there is nothing to unlink. */
  function Attempt(force: bool): seq<Event> {
    [Begin(force), UnlinkOld, Stage, Publish, Finish]
  }

  lemma AttemptRuns(b: Box, force: bool)
    ensures Runs.Run(STEPPER, b, Attempt(force))
            == Step(Step(Step(Step(Step(b, Begin(force)), UnlinkOld), Stage), Publish), Finish)
  {
    hide Step;
    var es := Attempt(force);
    FourSteps(b, es[0], es[1], es[2], es[3]);
    assert es == es[..4] + [es[4]] && es[..4] == [es[0], es[1], es[2], es[3]];
    Runs.RunSnoc(STEPPER, b, es[..4], es[4]);
  }

  predicate MayRetry(b: Box, force: bool) {
    && Current(b).Some? && Current(b).value.state == Ready && !b.inbox && !b.claimed
    && (force || Current(b).value.count < MAX_RETRIES)
  }

  /**
   An undisturbed attempt delivers the message exactly when the envelope is ready, no copy is in the inbox or with a
   consumer, and the limit is not reached or overridden; it counts once and says so.  Otherwise it delivers
   nothing and leaves the audit as it was.  Either way the copy in cur is the only one left if there was one.
   */
  lemma AttemptDeliversExactly(b: Box, force: bool)
    requires b.pc.Idle?
    ensures var c := Runs.Run(STEPPER, b, Attempt(force));
            && c.pc.Idle? && c.tmps == b.tmps && c.leftovers == b.leftovers && c.claimed == b.claimed
            && (MayRetry(b, force) ==>
                && c.delivered == b.delivered + 1 && c.inbox && c.inNew.None?
                && Current(c) == Some(Audit(Current(b).value.count + 1, Done)))
            && (!MayRetry(b, force) ==>
                c.delivered == b.delivered && c.inbox == b.inbox && Current(c) == Current(b))
            && (b.inCur.Some? ==> c.inNew.None?)
  {
    AttemptRuns(b, force);
  }

  /**
   An attempt that cannot stage or cannot publish its copy delivers nothing and gives the envelope back, counted once
   more and ready; all it may leave is its staged copy.
   */
  lemma FailedAttempt(b: Box, force: bool, kept: bool)
    requires b.pc.Idle? && MayRetry(b, force)
    ensures var c := Step(Step(b, Begin(force)), UnlinkOld);
            var unstaged := Step(Step(c, StageFails(kept)), Reset);
            var unpublished := Step(Step(Step(c, Stage), PublishFails(kept)), Reset);
            && unstaged == unpublished && unstaged.pc.Idle? && unstaged.inNew.None?
            && Current(unstaged) == Some(Audit(Current(b).value.count + 1, Ready))
            && unstaged.delivered == b.delivered && !unstaged.inbox && !unstaged.claimed && unstaged.taken == b.taken
            && unstaged.tmps == b.tmps + Copies(kept) && unstaged.leftovers == b.leftovers + Copies(kept)
  {
  }

  /** The envelope's lock: while an attempt is under way no other begins, recovers or inspects. */
  lemma LockKeepsOut(b: Box, e: Event)
    requires !b.pc.Idle? && (e.Begin? || e.Recover? || e.Inspect?)
    ensures Step(b, e) == b
  {
  }

  /**
   A retry that finds an earlier one unfinished delivers exactly when a staged copy is left and no copy is in the
   inbox or with a consumer; it records the delivery, its own or the earlier one, and without either refuses.
   */
  lemma RecoveryExactly(retained: bool, events: seq<Event>)
    requires var b := Runs.Run(STEPPER, Init(retained), events); b.pc.Idle? && Current(b).Some?
    requires Current(Runs.Run(STEPPER, Init(retained), events)).value.state == Pending
    ensures var b := Runs.Run(STEPPER, Init(retained), events);
            var c := Step(Step(b, Recover), Finish);
            var count := Current(b).value.count;
            && c.pc.Idle? && c.claimed == b.claimed
            && (b.inbox || b.claimed ==>
                c.delivered == b.delivered && c.inbox == b.inbox && c.tmps == b.tmps
                && Current(c) == Some(Audit(count, Done)))
            && (!b.inbox && !b.claimed && b.tmps > 0 ==>
                c.delivered == b.delivered + 1 && c.inbox && c.tmps == b.tmps - 1
                && Current(c) == Some(Audit(count, Done)))
            && (!b.inbox && !b.claimed && b.tmps == 0 ==>
                c.delivered == b.delivered && !c.inbox && c.tmps == 0 && Current(c) == Current(b))
  {
    InvReached(retained, events);
  }

  predicate Unforced(b: Box, e: Event) {
    e.Begin? ==> !e.force
  }

  const UNFORCED := (b: Box, e: Event) => Unforced(b, e)

  predicate Bounded(b: Box) {
    && (b.inNew.Some? ==> b.inNew.value.count <= MAX_RETRIES)
    && (b.inCur.Some? ==> b.inCur.value.count <= MAX_RETRIES)
    && (b.inCur.Some? && b.inNew.Some? ==> b.inNew.value.count <= b.inCur.value.count)
  }

  lemma InitBounded(retained: bool)
    ensures Bounded(Init(retained))
  {
  }

  lemma StepBounded(b: Box, e: Event)
    requires Bounded(b) && Unforced(b, e)
    ensures Bounded(Step(b, e))
  {
  }

  /** Without --force the retry count never passes the limit, and the copy in cur never counts less than one in new. */
  lemma RetriesAreBounded(retained: bool, events: seq<Event>)
    requires Runs.Allowed(STEPPER, UNFORCED, Init(retained), events)
    ensures Bounded(Runs.Run(STEPPER, Init(retained), events))
  {
    hide Step, Bounded, Unforced;
    assert Bounded(Init(retained)) by { InitBounded(retained); }
    forall b, e | Bounded(b) && UNFORCED(b, e) ensures Bounded(STEPPER(b, e)) { StepBounded(b, e); }
    Runs.Preserved(STEPPER, UNFORCED, (b: Box) => Bounded(b), Init(retained), events);
  }

  // ---- the bound is tight ----

  ghost predicate Leads(b: Box, events: seq<Event>, c: Box) {
    c == Runs.Run(STEPPER, b, events)
  }

  lemma LeadsOn(a: Box, s: seq<Event>, b: Box, t: seq<Event>, c: Box)
    requires Leads(a, s, b) && Leads(b, t, c)
    ensures Leads(a, s + t, c)
  {
    hide Step;
    Runs.RunAppend(STEPPER, a, s, t);
  }

  lemma OneStep(b: Box, e: Event)
    ensures Leads(b, [e], Step(b, e))
  {
    hide Step;
    assert [e][1..] == [];
    assert Runs.Run(STEPPER, Step(b, e), []) == Step(b, e);
  }

  lemma FourSteps(b: Box, e1: Event, e2: Event, e3: Event, e4: Event)
    ensures Leads(b, [e1, e2, e3, e4], Step(Step(Step(Step(b, e1), e2), e3), e4))
  {
    hide Step, Leads;
    var b1 := Step(b, e1);
    var b2 := Step(b1, e2);
    var b3 := Step(b2, e3);
    OneStep(b, e1);
    OneStep(b1, e2);
    OneStep(b2, e3);
    OneStep(b3, e4);
    LeadsOn(b, [e1], b1, [e2], b2);
    LeadsOn(b, [e1] + [e2], b2, [e3], b3);
    LeadsOn(b, [e1] + [e2] + [e3], b3, [e4], Step(b3, e4));
    assert [e1] + [e2] + [e3] + [e4] == [e1, e2, e3, e4];
  }

  /** `n` attempts have failed and left their staged copies. */
  function Littered(n: nat): Box {
    Box(None, Some(Audit(n, Ready)), false, false, n, Idle, 0, n, 0)
  }

  /** Then one succeeded but could not say so, and `j` recoveries have each delivered a leftover. */
  function Redelivered(n: nat, j: nat): Box
    requires j <= n
  {
    Box(None, Some(Audit(n + 1, Pending)), true, false, n - j, Idle, 1 + j, n, j)
  }

  /** A publication fails and keeps its staged copy. */
  lemma Litters(n: nat, force: bool)
    requires force || n < MAX_RETRIES
    ensures Leads(Littered(n), [Begin(force), Stage, PublishFails(true), Reset], Littered(n + 1))
  {
    FourSteps(Littered(n), Begin(force), Stage, PublishFails(true), Reset);
  }

  /** One succeeds, and the process dies before it is recorded. */
  lemma Delivers(n: nat, force: bool)
    requires force || n < MAX_RETRIES
    ensures Leads(Littered(n), [Begin(force), Stage, Publish, Stop], Redelivered(n, 0))
  {
    FourSteps(Littered(n), Begin(force), Stage, Publish, Stop);
  }

  /** A consumer takes the message; the recovery publishes a leftover and dies in turn. */
  lemma Redelivers(n: nat, j: nat)
    requires j < n
    ensures Leads(Redelivered(n, j), [Consume, Take, Recover, Stop], Redelivered(n, j + 1))
  {
    FourSteps(Redelivered(n, j), Consume, Take, Recover, Stop);
  }

  lemma {:induction false} LittersOften(n: nat, force: bool) returns (events: seq<Event>)
    requires force || n <= MAX_RETRIES
    ensures Leads(Littered(0), events, Littered(n))
  {
    hide Leads;
    if n == 0 {
      events := [];
      assert Leads(Littered(0), [], Littered(0)) by { LeadsNowhere(Littered(0)); }
    } else {
      var before := LittersOften(n - 1, force);
      Litters(n - 1, force);
      LeadsOn(Littered(0), before, Littered(n - 1), [Begin(force), Stage, PublishFails(true), Reset], Littered(n));
      events := before + [Begin(force), Stage, PublishFails(true), Reset];
    }
  }

  lemma {:induction false} RedeliversOften(n: nat, j: nat) returns (events: seq<Event>)
    requires j <= n
    ensures Leads(Redelivered(n, 0), events, Redelivered(n, j))
    decreases j
  {
    hide Leads;
    if j == 0 {
      events := [];
      LeadsNowhere(Redelivered(n, 0));
    } else {
      var before := RedeliversOften(n, j - 1);
      Redelivers(n, j - 1);
      LeadsOn(Redelivered(n, 0), before, Redelivered(n, j - 1), [Consume, Take, Recover, Stop], Redelivered(n, j));
      events := before + [Consume, Take, Recover, Stop];
    }
  }

  lemma LeadsNowhere(b: Box)
    ensures Leads(b, [], b)
  {
  }

  /**
   The bound is tight for every number of leftovers: each staged copy left behind lets a later retry deliver the
   message once more.  Without --force the retry limit allows two of them.
   */
  lemma LeftoversDeliverAgain(n: nat, force: bool) returns (events: seq<Event>)
    requires force || n < MAX_RETRIES
    ensures var b := Runs.Run(STEPPER, Init(false), events); b.leftovers == n && b.delivered == n + 1
  {
    hide Step;
    var a := LittersOften(n, force);
    Inspected();
    LeadsOn(Init(false), [Inspect], Littered(0), a, Littered(n));
    Delivers(n, force);
    LeadsOn(Init(false), [Inspect] + a, Littered(n), [Begin(force), Stage, Publish, Stop], Redelivered(n, 0));
    var b := RedeliversOften(n, n);
    LeadsOn(Init(false), [Inspect] + a + [Begin(force), Stage, Publish, Stop], Redelivered(n, 0), b, Redelivered(n, n));
    events := [Inspect] + a + [Begin(force), Stage, Publish, Stop] + b;
  }

  lemma Inspected()
    ensures Leads(Init(false), [Inspect], Littered(0))
  {
    OneStep(Init(false), Inspect);
  }
}
