/**
 Where a delivered message can be while any number of consumers work on the inbox: in new
 and nowhere else until it is claimed, and in cur and the DLQ together only between the
 two halves of its claimant's dead-letter move.
 */
module MaildirPlaces {
  import Runs
  import opened MaildirRace

  ghost predicate Claimed(w: World, i: nat) {
    exists c :: c in w.claims && c.inst == i
  }

  ghost predicate InCur(w: World, i: nat) {
    exists n :: n in w.curBox && w.curBox[n] == i
  }

  ghost predicate InNewBox(w: World, i: nat) {
    exists n :: n in w.newBox && w.newBox[n] == i
  }

  /** The claimant has published the envelope and not unlinked the source: it is about to, or it stopped there. */
  predicate HalfWay(w: World, c: Claim) {
    && c.pid in w.procs
    && var p := w.procs[c.pid];
       p.Failed? || p.Crashed? || (p.Holding? && p.mine.inst == c.inst && p.at.Buried?)
  }

  /** What is in cur or in the DLQ is claimed, each instance under one name. */
  ghost predicate BoxesOk(w: World) {
    && (forall n :: n in w.curBox ==> Claimed(w, w.curBox[n]))
    && (forall i :: i in w.dlq ==> Claimed(w, i))
    && (forall m, n :: m in w.curBox && n in w.curBox && w.curBox[m] == w.curBox[n] ==> m == n)
    && (!w.present ==> w.curBox == map[] && w.newBox == map[])
  }

  ghost predicate BothOk(w: World) {
    && (forall n, c :: n in w.curBox && c in w.claims && c.inst == w.curBox[n] && c.inst in w.dlq ==> HalfWay(w, c))
    && (forall n, r :: n in w.curBox && r in w.receipts && r.inst == w.curBox[n] ==> r.inst !in w.dlq)
  }

  predicate HoldOk(w: World, p: Proc) {
    p.Holding? ==>
      && (p.at.Fetched? ==> p.mine.inst !in w.dlq)
      && (p.at.Unlinked? ==> forall n :: n in w.curBox ==> w.curBox[n] != p.mine.inst)
  }

  ghost predicate HoldsOk(w: World) {
    forall q :: q in w.procs ==> HoldOk(w, w.procs[q])
  }

  ghost predicate PlaceInv(w: World) {
    Inv(w) && BoxesOk(w) && BothOk(w) && HoldsOk(w)
  }

  // ---- claims ----

  lemma ClaimedStays(w: World, v: World, i: nat)
    requires Claimed(w, i) && w.claims <= v.claims
    ensures Claimed(v, i)
  {
    var c :| c in w.claims && c.inst == i;
    assert c in v.claims;
  }

  /** What is still in new is unclaimed, so it is in no other place. */
  lemma Unplaced(w: World, name: string)
    requires ClaimsOk(w) && BoxesOk(w) && name in w.newBox
    ensures !Claimed(w, w.newBox[name]) && w.newBox[name] !in w.dlq && !InCur(w, w.newBox[name])
  {
  }

  /** The state after `pid` has won the file `name`. */
  ghost predicate Won(w: World, v: World, pid: nat, name: string) {
    && name in w.newBox && name !in w.curBox && pid in w.procs && w.present && v.present
    && !w.procs[pid].Holding? && !w.procs[pid].Failed? && !w.procs[pid].Crashed?
    && v.curBox == w.curBox[name := w.newBox[name]] && v.dlq == w.dlq && v.receipts == w.receipts
    && v.claims == w.claims + {Claim(w.newBox[name], pid)}
    && exists rest :: v.procs == w.procs[pid := Holding(Entry(name, w.newBox[name]), Fetched, rest)]
  }

  lemma WinKeepsBoxes(w: World, v: World, pid: nat, name: string)
    requires ClaimsOk(w) && BoxesOk(w) && Won(w, v, pid, name)
    ensures BoxesOk(v)
  {
    Unplaced(w, name);
    assert Claim(w.newBox[name], pid) in v.claims;
    forall i | Claimed(w, i) ensures Claimed(v, i) { ClaimedStays(w, v, i); }
  }

  lemma WinKeepsBoth(w: World, v: World, pid: nat, name: string)
    requires ClaimsOk(w) && BoxesOk(w) && BothOk(w) && Won(w, v, pid, name)
    ensures BothOk(v)
  {
    Unplaced(w, name);
    hide BoxesOk, ClaimsOk, Claimed, InCur;
    forall n, c | n in v.curBox && c in v.claims && c.inst == v.curBox[n] && c.inst in v.dlq ensures HalfWay(v, c) {
      assert HalfWay(w, c);
    }
  }

  lemma WinKeepsHolds(w: World, v: World, pid: nat, name: string)
    requires Inv(w) && BoxesOk(w) && HoldsOk(w) && Won(w, v, pid, name)
    ensures HoldsOk(v)
  {
    Unplaced(w, name);
    forall q | q in v.procs ensures HoldOk(v, v.procs[q]) {
      if q != pid {
        assert HoldOk(w, w.procs[q]) && HolderOk(w, q, w.procs[q]);
      }
    }
  }

  lemma ClaimKeeps(w: World, pid: nat, x: Entry, isDrain: bool, rest: seq<Entry>)
    requires PlaceInv(w) && pid in w.procs && (w.procs[pid].Draining? || w.procs[pid].Reading?)
    ensures var v := ClaimStep(w, pid, x, isDrain, rest); BoxesOk(v) && BothOk(v) && HoldsOk(v)
  {
    var v := ClaimStep(w, pid, x, isDrain, rest);
    if w.present && x.name in w.newBox && x.name !in w.curBox {
      assert v.procs == w.procs[pid := Holding(Entry(x.name, w.newBox[x.name]), Fetched, rest)];
      assert Won(w, v, pid, x.name);
      hide ClaimStep, Won, Inv, BoxesOk, BothOk, HoldsOk;
      assert ClaimsOk(w) by { ClaimsAreOk(w); }
      WinKeepsBoxes(w, v, pid, x.name);
      WinKeepsBoth(w, v, pid, x.name);
      WinKeepsHolds(w, v, pid, x.name);
    } else {
      assert !v.procs[pid].Holding?;
      ProcMoves(w, v, pid);
    }
  }

  lemma ClaimsAreOk(w: World)
    requires Inv(w)
    ensures ClaimsOk(w)
  {
  }

  /** Only one process moves on, one that holds nothing. */
  lemma ProcMoves(w: World, v: World, pid: nat)
    requires BoxesOk(w) && BothOk(w) && HoldsOk(w) && pid in w.procs && pid in v.procs
    requires !w.procs[pid].Holding? && !w.procs[pid].Failed? && !w.procs[pid].Crashed? && !v.procs[pid].Holding?
    requires v.procs == w.procs[pid := v.procs[pid]]
    requires v.curBox == w.curBox && v.dlq == w.dlq && v.receipts == w.receipts && v.claims == w.claims
    requires v.present == w.present && v.newBox == w.newBox
    ensures BoxesOk(v) && BothOk(v) && HoldsOk(v)
  {
    forall i | Claimed(w, i) ensures Claimed(v, i) { ClaimedStays(w, v, i); }
    forall n, c | n in v.curBox && c in v.claims && c.inst == v.curBox[n] && c.inst in v.dlq ensures HalfWay(v, c) {
      assert HalfWay(w, c);
    }
    forall q | q in v.procs ensures HoldOk(v, v.procs[q]) { assert HoldOk(w, w.procs[q]); }
  }

  // ---- the claimant at work ----

  /** The holder of an instance is its only claimant, and nobody else holds it. */
  lemma OnlyHolder(w: World, pid: nat)
    requires Inv(w) && pid in w.procs && w.procs[pid].Holding?
    ensures Claim(w.procs[pid].mine.inst, pid) in w.claims
    ensures forall c :: c in w.claims && c.inst == w.procs[pid].mine.inst ==> c.pid == pid
    ensures forall r :: r in w.receipts ==> r.inst != w.procs[pid].mine.inst
    ensures forall q :: q in w.procs && q != pid && w.procs[q].Holding? ==>
              w.procs[q].mine.inst != w.procs[pid].mine.inst
  {
    assert HolderOk(w, pid, w.procs[pid]);
    forall q | q in w.procs && q != pid && w.procs[q].Holding?
      ensures w.procs[q].mine.inst != w.procs[pid].mine.inst
    {
      if w.procs[q].mine.inst == w.procs[pid].mine.inst { HoldersApart(w, pid, q); }
    }
  }

  lemma BuryKeeps(w: World, pid: nat)
    requires PlaceInv(w) && pid in w.procs && w.procs[pid].Holding?
    ensures var v := HoldStep(w, pid, w.procs[pid], Bury(pid)); BoxesOk(v) && BothOk(v) && HoldsOk(v)
  {
    OnlyHolder(w, pid);
    hide Inv;
    var p := w.procs[pid];
    var v := HoldStep(w, pid, p, Bury(pid));
    assert Claimed(v, p.mine.inst);
    forall i | Claimed(w, i) ensures Claimed(v, i) { ClaimedStays(w, v, i); }
    forall n, c | n in v.curBox && c in v.claims && c.inst == v.curBox[n] && c.inst in v.dlq ensures HalfWay(v, c) {
      if c.inst in w.dlq { assert HalfWay(w, c); }
    }
    forall q | q in v.procs ensures HoldOk(v, v.procs[q]) { assert HoldOk(w, w.procs[q]); }
  }

  lemma UnlinkKeeps(w: World, pid: nat)
    requires PlaceInv(w) && pid in w.procs && w.procs[pid].Holding?
    ensures var v := HoldStep(w, pid, w.procs[pid], Unlink(pid)); BoxesOk(v) && BothOk(v) && HoldsOk(v)
  {
    OnlyHolder(w, pid);
    assert HolderOk(w, pid, w.procs[pid]);
    hide Inv;
    var p := w.procs[pid];
    var v := HoldStep(w, pid, p, Unlink(pid));
    forall i | Claimed(w, i) ensures Claimed(v, i) { ClaimedStays(w, v, i); }
    forall n, c | n in v.curBox && c in v.claims && c.inst == v.curBox[n] && c.inst in v.dlq ensures HalfWay(v, c) {
      assert n in w.curBox && HalfWay(w, c);
    }
    forall q | q in v.procs ensures HoldOk(v, v.procs[q]) { assert HoldOk(w, w.procs[q]); }
  }

  lemma EmitKeeps(w: World, pid: nat)
    requires PlaceInv(w) && pid in w.procs && w.procs[pid].Holding?
    ensures var v := HoldStep(w, pid, w.procs[pid], Emit(pid)); BoxesOk(v) && BothOk(v) && HoldsOk(v)
  {
    OnlyHolder(w, pid);
    hide Inv;
    var p := w.procs[pid];
    var v := HoldStep(w, pid, p, Emit(pid));
    assert HoldOk(w, p);
    forall i | Claimed(w, i) ensures Claimed(v, i) { ClaimedStays(w, v, i); }
    forall n, c | n in v.curBox && c in v.claims && c.inst == v.curBox[n] && c.inst in v.dlq ensures HalfWay(v, c) {
      assert HalfWay(w, c);
    }
    forall q | q in v.procs ensures HoldOk(v, v.procs[q]) { assert HoldOk(w, w.procs[q]); }
  }

  // ---- everything else ----

  /** What the other events do: stop a process, start one, deliver, or remove the mailbox. */
  lemma PlainChanges(w: World, e: Event)
    requires Plain(e)
    ensures var v := Step(w, e);
            && v.dlq == w.dlq && v.receipts == w.receipts && v.claims == w.claims
            && ((v.curBox == w.curBox && v.present == w.present) || (v.curBox == map[] && !v.present))
            && (!v.present ==> v.newBox == w.newBox || v.newBox == map[])
            && (forall q :: q in w.procs ==>
                  q in v.procs && (v.procs[q] == w.procs[q] || v.procs[q].Failed? || v.procs[q].Crashed?))
            && (forall q :: q in v.procs && q !in w.procs ==> !v.procs[q].Holding?)
  {
    hide IsSnapshot, ClaimStep, HoldStep;
  }

  lemma PlainKeeps(w: World, e: Event)
    requires PlaceInv(w) && Plain(e)
    ensures var v := Step(w, e); BoxesOk(v) && BothOk(v) && HoldsOk(v)
  {
    PlainChanges(w, e);
    hide Step, Inv;
    var v := Step(w, e);
    forall i | Claimed(w, i) ensures Claimed(v, i) { ClaimedStays(w, v, i); }
    forall n, c | n in v.curBox && c in v.claims && c.inst == v.curBox[n] && c.inst in v.dlq ensures HalfWay(v, c) {
      assert HalfWay(w, c);
    }
    forall q | q in v.procs ensures HoldOk(v, v.procs[q]) {
      if q in w.procs { assert HoldOk(w, w.procs[q]); }
    }
  }

  lemma StepKeepsPlaces(w: World, e: Event)
    requires PlaceInv(w)
    ensures PlaceInv(Step(w, e))
  {
    StepKeeps(w, e);
    hide ClaimStep, HoldStep, BoxesOk, BothOk, HoldsOk, Inv;
    match e
    case TryClaim(pid) => {
      if pid in w.procs && w.procs[pid].Reading? {
        ClaimKeeps(w, pid, w.procs[pid].want, false, []);
      } else if pid in w.procs && w.procs[pid].Draining? && w.procs[pid].todo != [] {
        ClaimKeeps(w, pid, w.procs[pid].todo[0], true, w.procs[pid].todo[1..]);
      }
    }
    case Bury(pid) => { if pid in w.procs && w.procs[pid].Holding? { BuryKeeps(w, pid); } }
    case Unlink(pid) => { if pid in w.procs && w.procs[pid].Holding? { UnlinkKeeps(w, pid); } }
    case Emit(pid) => { if pid in w.procs && w.procs[pid].Holding? { EmitKeeps(w, pid); } }
    case _ => PlainKeeps(w, e);
  }

  lemma PlacesReached(events: seq<Event>)
    ensures PlaceInv(Runs.Run(STEPPER, Init(), events))
  {
    var any := (w: World, e: Event) => true;
    assert PlaceInv(Init());
    hide Step, PlaceInv, Init;
    forall w, e | PlaceInv(w) ensures PlaceInv(STEPPER(w, e)) { StepKeepsPlaces(w, e); }
    Runs.AllAllowed(STEPPER, any, Init(), events);
    Runs.Preserved(STEPPER, any, (w: World) => PlaceInv(w), Init(), events);
  }

  /**
   In every run a delivered message that is in new is in no other place; one that is in cur is there once; and one
   that is both in cur and in the DLQ has a claimant that published the envelope and has not unlinked the source,
   because it is about to or because it stopped there, and has attempted no receipt.
   */
  lemma OnePlaceAtATime(events: seq<Event>, i: nat)
    ensures var w := Runs.Run(STEPPER, Init(), events);
            && (!w.present ==> !InNewBox(w, i) && !InCur(w, i))
            && (InNewBox(w, i) ==> !InCur(w, i) && i !in w.dlq)
            && (forall m, n :: m in w.newBox && n in w.newBox && w.newBox[m] == i == w.newBox[n] ==> m == n)
            && (forall m, n :: m in w.curBox && n in w.curBox && w.curBox[m] == i == w.curBox[n] ==> m == n)
            && (InCur(w, i) && i in w.dlq ==>
                  && (exists c :: c in w.claims && c.inst == i && HalfWay(w, c))
                  && forall r :: r in w.receipts ==> r.inst != i)
  {
    PlacesReached(events);
    var w := Runs.Run(STEPPER, Init(), events);
    hide Runs.Run, HolderOk, ReceiptsOk, HoldsOk;
    if n :| n in w.newBox && w.newBox[n] == i { Unplaced(w, n); }
    if InCur(w, i) && i in w.dlq {
      var c :| c in w.claims && c.inst == i;
      assert HalfWay(w, c);
    }
  }
}
