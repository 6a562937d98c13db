/**
 What a consumer's receipt says about where the message is, for good, and what becomes of
 a message whose claimant stops half-way.
 */
module MaildirReceipts {
  import Runs
  import opened Maildir
  import opened MaildirRace
  import opened MaildirPlaces

  // ---- receipts tell the place ----

  /** Drained means in cur and not in the DLQ; dead-lettered the other way round. */
  ghost predicate Told(w: World, r: Receipt) {
    if r.stage.Drained? then r.inst !in w.dlq && (w.present ==> InCur(w, r.inst))
    else r.inst in w.dlq && !InCur(w, r.inst)
  }

  ghost predicate AllTold(w: World) {
    forall r :: r in w.receipts ==> Told(w, r)
  }

  /** Nothing but the place of one instance, for which there is no receipt, changed. */
  ghost predicate OnlyMoves(w: World, v: World, i: nat) {
    && v.receipts == w.receipts && (forall r :: r in w.receipts ==> r.inst != i)
    && (forall j :: j != i ==> (j in v.dlq <==> j in w.dlq) && (InCur(v, j) <==> InCur(w, j)))
    && (v.present ==> w.present)
  }

  lemma MovesKeepTold(w: World, v: World, i: nat)
    requires AllTold(w) && OnlyMoves(w, v, i)
    ensures AllTold(v)
  {
    hide InCur;
    forall r | r in v.receipts ensures Told(v, r) { assert Told(w, r); }
  }

  lemma ClaimTells(w: World, pid: nat, x: Entry, isDrain: bool, rest: seq<Entry>)
    requires PlaceInv(w) && AllTold(w) && pid in w.procs && !w.procs[pid].Holding?
    ensures AllTold(ClaimStep(w, pid, x, isDrain, rest))
  {
    var v := ClaimStep(w, pid, x, isDrain, rest);
    if v.curBox == w.curBox {
      SamePlacesTell(w, v);
    } else {
      var i := w.newBox[x.name];
      Unplaced(w, x.name);
      forall j | j != i ensures InCur(v, j) <==> InCur(w, j) { CurGains(w, v, x.name, j); }
      forall r | r in w.receipts ensures r.inst != i {
        assert Claim(r.inst, r.pid) in w.claims;
      }
      assert OnlyMoves(w, v, i);
      MovesKeepTold(w, v, i);
    }
  }

  lemma CurGains(w: World, v: World, name: string, j: nat)
    requires name in w.newBox && name !in w.curBox && v.curBox == w.curBox[name := w.newBox[name]]
    requires j != w.newBox[name]
    ensures InCur(v, j) <==> InCur(w, j)
  {
    if InCur(w, j) {
      var n :| n in w.curBox && w.curBox[n] == j;
      assert n in v.curBox && v.curBox[n] == j;
    }
  }

  lemma CurLoses(w: World, v: World, name: string, j: nat)
    requires v.curBox == w.curBox - {name} && (name in w.curBox ==> j != w.curBox[name])
    ensures InCur(v, j) <==> InCur(w, j)
  {
    if InCur(w, j) {
      var n :| n in w.curBox && w.curBox[n] == j;
      assert n in v.curBox && v.curBox[n] == j;
    }
  }

  lemma SamePlacesTell(w: World, v: World)
    requires AllTold(w) && v.receipts == w.receipts && v.dlq == w.dlq && v.curBox == w.curBox && v.present == w.present
    ensures AllTold(v)
  {
    forall r | r in v.receipts ensures Told(v, r) { assert Told(w, r); }
  }

  lemma EmitTells(w: World, pid: nat)
    requires PlaceInv(w) && AllTold(w) && pid in w.procs && w.procs[pid].Holding?
    ensures AllTold(HoldStep(w, pid, w.procs[pid], Emit(pid)))
  {
    var p := w.procs[pid];
    var v := HoldStep(w, pid, p, Emit(pid));
    assert HolderOk(w, pid, p) && HoldOk(w, p);
    hide Inv, BoxesOk, BothOk;
    forall r | r in v.receipts ensures Told(v, r) {
      if r in w.receipts { assert Told(w, r); }
    }
  }

  lemma HoldTells(w: World, pid: nat, e: Event)
    requires PlaceInv(w) && AllTold(w) && pid in w.procs && w.procs[pid].Holding? && (e.Bury? || e.Unlink?)
    ensures AllTold(HoldStep(w, pid, w.procs[pid], e))
  {
    var p := w.procs[pid];
    var v := HoldStep(w, pid, p, e);
    OnlyHolder(w, pid);
    assert HolderOk(w, pid, p);
    assert p.mine.name in w.curBox && w.present && p.at.Buried? ==> w.curBox[p.mine.name] == p.mine.inst;
    assert !w.present ==> w.curBox == map[];
    hide Inv, BoxesOk, BothOk, HoldsOk;
    forall j | j != p.mine.inst ensures InCur(v, j) <==> InCur(w, j) {
      if v.curBox != w.curBox { CurLoses(w, v, p.mine.name, j); }
    }
    assert OnlyMoves(w, v, p.mine.inst);
    MovesKeepTold(w, v, p.mine.inst);
  }

  lemma PlainTells(w: World, e: Event)
    requires AllTold(w) && Plain(e)
    ensures AllTold(Step(w, e))
  {
    PlainChanges(w, e);
    hide Step;
    var v := Step(w, e);
    if v.curBox == w.curBox && v.present == w.present {
      SamePlacesTell(w, v);
    } else {
      forall r | r in v.receipts ensures Told(v, r) { assert Told(w, r); }
    }
  }

  lemma StepTells(w: World, e: Event)
    requires PlaceInv(w) && AllTold(w)
    ensures AllTold(Step(w, e))
  {
    hide ClaimStep, HoldStep, PlaceInv, AllTold;
    match e
    case TryClaim(pid) => {
      if pid in w.procs && w.procs[pid].Reading? {
        ClaimTells(w, pid, w.procs[pid].want, false, []);
      } else if pid in w.procs && w.procs[pid].Draining? && w.procs[pid].todo != [] {
        ClaimTells(w, pid, w.procs[pid].todo[0], true, w.procs[pid].todo[1..]);
      }
    }
    case Bury(pid) => { if pid in w.procs && w.procs[pid].Holding? { HoldTells(w, pid, e); } }
    case Unlink(pid) => { if pid in w.procs && w.procs[pid].Holding? { HoldTells(w, pid, e); } }
    case Emit(pid) => { if pid in w.procs && w.procs[pid].Holding? { EmitTells(w, pid); } }
    case _ => PlainTells(w, e);
  }

  /**
   In every run, and for good, a message with a drained receipt is in cur and not in the DLQ, and one with a
   dead-letter receipt is in the DLQ and no longer in cur.
   */
  lemma ReceiptTellsPlace(events: seq<Event>, r: Receipt)
    requires r in Runs.Run(STEPPER, Init(), events).receipts
    ensures Told(Runs.Run(STEPPER, Init(), events), r)
  {
    var any := (w: World, e: Event) => true;
    var inv := (w: World) => PlaceInv(w) && AllTold(w);
    assert PlaceInv(Init()) by { PlacesReached([]); assert Runs.Run(STEPPER, Init(), []) == Init(); }
    assert inv(Init());
    hide Step, PlaceInv, Init, Told;
    forall w, e | inv(w) ensures inv(STEPPER(w, e)) {
      StepKeepsPlaces(w, e);
      StepTells(w, e);
    }
    Runs.AllAllowed(STEPPER, any, Init(), events);
    Runs.Preserved(STEPPER, any, inv, Init(), events);
  }

  // ---- stopped claimants ----

  predicate HasStopped(w: World, pid: nat) {
    pid in w.procs && (w.procs[pid].Crashed? || w.procs[pid].Failed?)
  }

  /** The claimant of the instance has stopped; the message is where it left it, without a receipt. */
  ghost predicate Abandoned(w: World, c: Claim, inCur: bool, inDlq: bool) {
    && c in w.claims && HasStopped(w, c.pid) && w.present
    && (forall r :: r in w.receipts ==> r.inst != c.inst)
    && (InCur(w, c.inst) <==> inCur) && (c.inst in w.dlq <==> inDlq)
  }

  lemma ClaimLeaves(w: World, pid: nat, x: Entry, isDrain: bool, rest: seq<Entry>, c: Claim, inCur: bool, inDlq: bool)
    requires PlaceInv(w) && Abandoned(w, c, inCur, inDlq) && pid in w.procs && Running(w, pid)
    ensures Abandoned(ClaimStep(w, pid, x, isDrain, rest), c, inCur, inDlq)
  {
    var v := ClaimStep(w, pid, x, isDrain, rest);
    if v.curBox != w.curBox {
      Unplaced(w, x.name);
      assert w.newBox[x.name] != c.inst;
      CurGains(w, v, x.name, c.inst);
    }
  }

  lemma HoldLeaves(w: World, pid: nat, e: Event, c: Claim, inCur: bool, inDlq: bool)
    requires PlaceInv(w) && Abandoned(w, c, inCur, inDlq) && pid in w.procs && w.procs[pid].Holding?
    ensures Abandoned(HoldStep(w, pid, w.procs[pid], e), c, inCur, inDlq)
  {
    var p := w.procs[pid];
    var v := HoldStep(w, pid, p, e);
    OnlyHolder(w, pid);
    assert p.mine.inst != c.inst;
    assert HolderOk(w, pid, p);
    hide Inv, BoxesOk, BothOk, HoldsOk;
    if v.curBox != w.curBox { CurLoses(w, v, p.mine.name, c.inst); }
  }

  lemma PlainLeaves(w: World, e: Event, c: Claim, inCur: bool, inDlq: bool)
    requires Abandoned(w, c, inCur, inDlq) && Plain(e) && !e.RemoveMailbox?
    ensures Abandoned(Step(w, e), c, inCur, inDlq)
  {
    assert Step(w, e).present;
    PlainChanges(w, e);
    hide Step;
  }

  lemma StepLeaves(w: World, e: Event, c: Claim, inCur: bool, inDlq: bool)
    requires PlaceInv(w) && Abandoned(w, c, inCur, inDlq) && !e.RemoveMailbox?
    ensures Abandoned(Step(w, e), c, inCur, inDlq)
  {
    hide ClaimStep, HoldStep, PlaceInv, Abandoned;
    match e
    case TryClaim(pid) => {
      if pid in w.procs && w.procs[pid].Reading? {
        ClaimLeaves(w, pid, w.procs[pid].want, false, [], c, inCur, inDlq);
      } else if pid in w.procs && w.procs[pid].Draining? && w.procs[pid].todo != [] {
        ClaimLeaves(w, pid, w.procs[pid].todo[0], true, w.procs[pid].todo[1..], c, inCur, inDlq);
      }
    }
    case Bury(pid) => { if pid in w.procs && w.procs[pid].Holding? { HoldLeaves(w, pid, e, c, inCur, inDlq); } }
    case Unlink(pid) => { if pid in w.procs && w.procs[pid].Holding? { HoldLeaves(w, pid, e, c, inCur, inDlq); } }
    case Emit(pid) => { if pid in w.procs && w.procs[pid].Holding? { HoldLeaves(w, pid, e, c, inCur, inDlq); } }
    case _ => PlainLeaves(w, e, c, inCur, inDlq);
  }

  /** Where a holder that stops leaves its message. */
  lemma StopAbandons(w: World, pid: nat, e: Event)
    requires PlaceInv(w) && w.present && pid in w.procs && w.procs[pid].Holding? && (e == Crash(pid) || e == Fault(pid))
    ensures var p := w.procs[pid];
            Abandoned(Step(w, e), Claim(p.mine.inst, pid), !p.at.Unlinked?, !p.at.Fetched?)
  {
    var p := w.procs[pid];
    OnlyHolder(w, pid);
    assert HolderOk(w, pid, p) && HoldOk(w, p);
    hide ClaimStep, HoldStep, BoxesOk, BothOk, Inv;
  }

  /**
   A claimant that crashes or gives up half-way leaves its message for good where it is: in cur, in cur and the
   DLQ, or in the DLQ alone, and nobody ever attempts a receipt for it.
   */
  lemma AbandonedForGood(before: seq<Event>, pid: nat, stop: Event, after: seq<Event>)
    requires var w := Runs.Run(STEPPER, Init(), before); w.present && pid in w.procs && w.procs[pid].Holding?
    requires stop == Crash(pid) || stop == Fault(pid)
    requires Runs.Allowed(STEPPER, MAILBOX_STAYS, Runs.Run(STEPPER, Init(), before + [stop]), after)
    ensures var p := Runs.Run(STEPPER, Init(), before).procs[pid];
            Abandoned(Runs.Run(STEPPER, Init(), before + [stop] + after), Claim(p.mine.inst, pid), !p.at.Unlinked?,
              !p.at.Fetched?)
  {
    hide Step, PlaceInv, Init, Abandoned;
    var w := Runs.Run(STEPPER, Init(), before);
    var v := Runs.Run(STEPPER, Init(), before + [stop]);
    var p := w.procs[pid];
    var c, inCur, inDlq := Claim(p.mine.inst, pid), !p.at.Unlinked?, !p.at.Fetched?;
    var inv := (x: World) => PlaceInv(x) && Abandoned(x, c, inCur, inDlq);
    PlacesReached(before);
    PlacesReached(before + [stop]);
    Runs.RunSnoc(STEPPER, Init(), before, stop);
    StopAbandons(w, pid, stop);
    forall x, e | inv(x) && MAILBOX_STAYS(x, e) ensures inv(STEPPER(x, e)) {
      StepKeepsPlaces(x, e);
      StepLeaves(x, e, c, inCur, inDlq);
    }
    Runs.Preserved(STEPPER, MAILBOX_STAYS, inv, v, after);
    Runs.RunAppend(STEPPER, Init(), before + [stop], after);
  }

  // ---- every consumer ends ----

  /** How many steps of its own a process has left at most. */
  function Work(p: Proc): nat {
    match p
    case Draining(todo) => 4 * |todo|
    case Reading(_) => 4
    case Holding(_, at, rest) => 4 * |rest| + (match at case Fetched => 3 case Buried => 2 case Unlinked => 1)
    case _ => 0
  }

  /** The event is the next step of the process, or stops it. */
  predicate Moves(p: Proc, pid: nat, e: Event) {
    || (e == TryClaim(pid) && (p.Reading? || (p.Draining? && p.todo != [])))
    || (p.Holding? && (|| (e == Bury(pid) && p.at.Fetched?) || (e == Unlink(pid) && p.at.Buried?)
                       || (e == Emit(pid) && !p.at.Buried?)))
  }

  /**
   Each step of a process brings it nearer to its end, whatever its outcome; nothing else touches it but a crash or
   a fault, which end it; and once ended it stays as it is.
   */
  lemma OwnStepsRunOut(w: World, e: Event, pid: nat)
    requires pid in w.procs
    ensures var p := w.procs[pid];
            && pid in Step(w, e).procs
            && var q := Step(w, e).procs[pid];
            && (Moves(p, pid, e) ==> Work(q) < Work(p))
            && ((e == Crash(pid) || e == Fault(pid)) && Running(w, pid) ==>
                q == if e.Crash? then Crashed else Failed(IoFault))
            && (!Moves(p, pid, e) && !((e == Crash(pid) || e == Fault(pid)) && Running(w, pid)) ==> q == p)
  {
    var p := w.procs[pid];
    hide IsSnapshot, ClaimStep, HoldStep;
    match e
    case TryClaim(q) => {
      if q in w.procs && w.procs[q].Reading? {
        ClaimWorks(w, q, w.procs[q].want, false, []);
      } else if q in w.procs && w.procs[q].Draining? && w.procs[q].todo != [] {
        ClaimWorks(w, q, w.procs[q].todo[0], true, w.procs[q].todo[1..]);
      }
    }
    case Bury(q) => { if q in w.procs && w.procs[q].Holding? { HoldWorks(w, q, e); } }
    case Unlink(q) => { if q in w.procs && w.procs[q].Holding? { HoldWorks(w, q, e); } }
    case Emit(q) => { if q in w.procs && w.procs[q].Holding? { HoldWorks(w, q, e); } }
    case _ =>
  }

  lemma ClaimWorks(w: World, pid: nat, x: Entry, isDrain: bool, rest: seq<Entry>)
    requires pid in w.procs
    ensures var v := ClaimStep(w, pid, x, isDrain, rest);
            && pid in v.procs && v.procs == w.procs[pid := v.procs[pid]] && Work(v.procs[pid]) <= 4 * |rest| + 3
  {
  }

  lemma HoldWorks(w: World, pid: nat, e: Event)
    requires pid in w.procs && w.procs[pid].Holding? && (e == Bury(pid) || e == Unlink(pid) || e == Emit(pid))
    ensures var p := w.procs[pid];
            var v := HoldStep(w, pid, p, e);
            && pid in v.procs && v.procs == w.procs[pid := v.procs[pid]]
            && if Moves(p, pid, e) then Work(v.procs[pid]) < Work(p) else v.procs[pid] == p
  {
  }

  /** A holder that is let go on ends with the receipt it means to give. */
  lemma HolderFinishes(w: World, pid: nat)
    requires pid in w.procs && w.procs[pid].Holding? && w.procs[pid].at.Fetched?
    ensures var p := w.procs[pid];
            && Receipt(p.mine.inst, pid, Drained) in Step(w, Emit(pid)).receipts
            && Receipt(p.mine.inst, pid, DeadLettered) in
                 Step(Step(Step(w, Bury(pid)), Unlink(pid)), Emit(pid)).receipts
            && Step(w, Emit(pid)).procs[pid] == Next(p.rest)
            && Step(Step(Step(w, Bury(pid)), Unlink(pid)), Emit(pid)).procs[pid] == Next(p.rest)
  {
  }
}
