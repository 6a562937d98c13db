/**
 Any number of `drain` and `read` processes on one inbox, interleaved step by step.
 A delivery is an instance with its own number; the claim is the one atomic rename
 that never replaces a file.  Processes may crash between any two steps.
 */
module MaildirRace {
  import Runs
  import opened Maildir

  datatype Entry = Entry(name: string, inst: nat)

  /** How far the holder of a claimed file is with it. */
  datatype Hold = Fetched | Buried | Unlinked

  datatype Why = LostRace | Collision | MailboxGone | IoFault

  datatype Proc =
    | Draining(todo: seq<Entry>)
    | Reading(want: Entry)
    | Holding(mine: Entry, at: Hold, rest: seq<Entry>)
    | Ended
    | Failed(why: Why)
    | Crashed

  datatype Claim = Claim(inst: nat, pid: nat)

  datatype Receipt = Receipt(inst: nat, pid: nat, stage: Stage)

  datatype World = World(
    present: bool,                  // the mailbox directories exist
    newBox: map<string, nat>,
    curBox: map<string, nat>,
    dlq: set<nat>,
    next: nat,                      // number of deliveries so far
    used: set<string>,
    procs: map<nat, Proc>,          // process ids are never used twice
    readers: set<nat>,              // those that run `read`
    claims: set<Claim>,
    receipts: set<Receipt>,
    lost: set<Claim>)               // who found which instance already taken

  datatype Event =
    | Deliver(name: string)
    | StartDrain(pid: nat, listing: seq<Entry>)
    | StartRead(pid: nat, want: Entry)
    | TryClaim(pid: nat)
    | Bury(pid: nat)
    | Unlink(pid: nat)
    | Emit(pid: nat)
    | Fault(pid: nat)
    | Crash(pid: nat)
    | RemoveMailbox

  function Init(): World {
    World(true, map[], map[], {}, 0, {}, map[], {}, {}, {}, {})
  }

  predicate InNew(w: World, x: Entry) {
    x.name in w.newBox && w.newBox[x.name] == x.inst
  }

  /** What a directory listing shows: entries of new, each once. */
  predicate IsSnapshot(w: World, listing: seq<Entry>) {
    && (forall i :: 0 <= i < |listing| ==> InNew(w, listing[i]))
    && (forall i, j :: 0 <= i < j < |listing| ==> listing[i] != listing[j])
  }

  /** The process goes on with what is left. */
  function Next(rest: seq<Entry>): Proc {
    if rest == [] then Ended else Draining(rest)
  }

  predicate Running(w: World, pid: nat) {
    pid in w.procs && (w.procs[pid].Draining? || w.procs[pid].Reading? || w.procs[pid].Holding?)
  }

  /** The claim of `x` by `pid`, a drain that still has `rest` to do, or a read. */
  function ClaimStep(w: World, pid: nat, x: Entry, isDrain: bool, rest: seq<Entry>): World {
    if !w.present then w.(procs := w.procs[pid := Failed(MailboxGone)])
    else if x.name !in w.newBox then
      w.(procs := w.procs[pid := if isDrain then Next(rest) else Failed(LostRace)],
         lost := w.lost + {Claim(x.inst, pid)})
    else if x.name in w.curBox then w.(procs := w.procs[pid := Failed(Collision)])
    else
      var inst := w.newBox[x.name];
      w.(newBox := w.newBox - {x.name}, curBox := w.curBox[x.name := inst],
         claims := w.claims + {Claim(inst, pid)},
         procs := w.procs[pid := Holding(Entry(x.name, inst), Fetched, rest)])
  }

  function HoldStep(w: World, pid: nat, p: Proc, e: Event): World
    requires p.Holding?
  {
    match e
    case Bury(_) =>
      if p.at.Fetched? then w.(dlq := w.dlq + {p.mine.inst}, procs := w.procs[pid := p.(at := Buried)]) else w
    case Unlink(_) =>
      if p.at.Buried? then w.(curBox := w.curBox - {p.mine.name}, procs := w.procs[pid := p.(at := Unlinked)])
      else w
    case Emit(_) =>
      if p.at.Buried? then w
      else w.(receipts := w.receipts + {Receipt(p.mine.inst, pid, if p.at.Fetched? then Drained else DeadLettered)},
              procs := w.procs[pid := Next(p.rest)])
    case _ => w
  }

  function Step(w: World, e: Event): World {
    match e
    case Deliver(name) =>
      if name in w.newBox || !w.present then w
      else w.(newBox := w.newBox[name := w.next], next := w.next + 1, used := w.used + {name})
    case StartDrain(pid, listing) =>
      if pid in w.procs || !IsSnapshot(w, listing) then w else w.(procs := w.procs[pid := Next(listing)])
    case StartRead(pid, want) =>
      if pid in w.procs || !InNew(w, want) then w
      else w.(procs := w.procs[pid := Reading(want)], readers := w.readers + {pid})
    case Fault(pid) => if Running(w, pid) then w.(procs := w.procs[pid := Failed(IoFault)]) else w
    case Crash(pid) => if Running(w, pid) then w.(procs := w.procs[pid := Crashed]) else w
    case RemoveMailbox => w.(present := false, newBox := map[], curBox := map[])
    case TryClaim(pid) =>
      if pid !in w.procs then w
      else if w.procs[pid].Reading? then ClaimStep(w, pid, w.procs[pid].want, false, [])
      else if w.procs[pid].Draining? && w.procs[pid].todo != [] then
        ClaimStep(w, pid, w.procs[pid].todo[0], true, w.procs[pid].todo[1..])
      else w
    case _ => if e.pid in w.procs && w.procs[e.pid].Holding? then HoldStep(w, e.pid, w.procs[e.pid], e) else w
  }

  const STEPPER := (w: World, e: Event) => Step(w, e)

  // ---- invariants ----

  /** A delivered instance is unclaimed exactly while it is in new. */
  ghost predicate ClaimsOk(w: World) {
    && (forall c :: c in w.claims ==> c.inst < w.next)
    && (forall c, d :: c in w.claims && d in w.claims && c.inst == d.inst ==> c == d)
    && (forall n :: n in w.newBox ==> w.newBox[n] < w.next)
    && (forall n, c :: n in w.newBox && c in w.claims ==> c.inst != w.newBox[n])
    && (forall m, n :: m in w.newBox && n in w.newBox && w.newBox[m] == w.newBox[n] ==> m == n)
    && (forall n :: n in w.newBox || n in w.curBox ==> n in w.used)
  }

  ghost predicate HolderOk(w: World, pid: nat, p: Proc) {
    p.Holding? ==>
      && Claim(p.mine.inst, pid) in w.claims
      && (forall r :: r in w.receipts ==> r.inst != p.mine.inst)
      && (w.present && !p.at.Unlinked? ==> p.mine.name in w.curBox && w.curBox[p.mine.name] == p.mine.inst)
      && (!p.at.Fetched? ==> p.mine.inst in w.dlq)
  }

  ghost predicate HoldersOk(w: World) {
    forall pid :: pid in w.procs ==> HolderOk(w, pid, w.procs[pid])
  }

  ghost predicate ReceiptsOk(w: World) {
    && (forall r :: r in w.receipts ==> Claim(r.inst, r.pid) in w.claims)
    && (forall r, q :: r in w.receipts && q in w.receipts && r.inst == q.inst ==> r == q)
  }

  ghost predicate Inv(w: World) {
    ClaimsOk(w) && HoldersOk(w) && ReceiptsOk(w)
  }

  /** Two holders never hold the same file. */
  lemma HoldersApart(w: World, p: nat, q: nat)
    requires Inv(w) && p in w.procs && q in w.procs && w.procs[p].Holding? && w.procs[q].Holding?
    requires w.procs[p].mine.inst == w.procs[q].mine.inst
    ensures p == q
  {
    assert HolderOk(w, p, w.procs[p]) && HolderOk(w, q, w.procs[q]);
  }

  lemma WinKeepsHolders(w: World, pid: nat, x: Entry, isDrain: bool, rest: seq<Entry>)
    requires Inv(w) && pid in w.procs && !w.procs[pid].Holding?
    requires w.present && x.name in w.newBox && x.name !in w.curBox
    ensures HoldersOk(ClaimStep(w, pid, x, isDrain, rest))
  {
    var v := ClaimStep(w, pid, x, isDrain, rest);
    forall q | q in v.procs ensures HolderOk(v, q, v.procs[q]) {
      assert HolderOk(w, q, w.procs[q]);
    }
  }

  lemma ClaimStepKeeps(w: World, pid: nat, x: Entry, isDrain: bool, rest: seq<Entry>)
    requires Inv(w) && pid in w.procs && !w.procs[pid].Holding?
    ensures Inv(ClaimStep(w, pid, x, isDrain, rest))
  {
    if w.present && x.name in w.newBox && x.name !in w.curBox {
      WinKeepsHolders(w, pid, x, isDrain, rest);
      hide HoldersOk;
      assert Inv(ClaimStep(w, pid, x, isDrain, rest));
    } else {
      var v := ClaimStep(w, pid, x, isDrain, rest);
      forall q | q in v.procs ensures HolderOk(v, q, v.procs[q]) { assert HolderOk(w, q, w.procs[q]); }
    }
  }

  lemma HoldStepKeeps(w: World, pid: nat, e: Event)
    requires Inv(w) && pid in w.procs && w.procs[pid].Holding?
    ensures Inv(HoldStep(w, pid, w.procs[pid], e))
  {
    var p := w.procs[pid];
    var v := HoldStep(w, pid, p, e);
    assert HolderOk(w, pid, p);
    forall q | q in v.procs ensures HolderOk(v, q, v.procs[q]) {
      assert HolderOk(w, q, w.procs[q]);
      if q != pid && w.procs[q].Holding? && w.procs[q].mine.inst == p.mine.inst { HoldersApart(w, pid, q); }
    }
  }

  lemma StepKeeps(w: World, e: Event)
    requires Inv(w)
    ensures Inv(Step(w, e))
  {
    hide ClaimStep, HoldStep, Inv;
    match e
    case TryClaim(pid) =>
      if pid in w.procs && w.procs[pid].Reading? {
        ClaimStepKeeps(w, pid, w.procs[pid].want, false, []);
      } else if pid in w.procs && w.procs[pid].Draining? && w.procs[pid].todo != [] {
        ClaimStepKeeps(w, pid, w.procs[pid].todo[0], true, w.procs[pid].todo[1..]);
      }
    case Bury(pid) => if pid in w.procs && w.procs[pid].Holding? { HoldStepKeeps(w, pid, e); }
    case Unlink(pid) => if pid in w.procs && w.procs[pid].Holding? { HoldStepKeeps(w, pid, e); }
    case Emit(pid) => if pid in w.procs && w.procs[pid].Holding? { HoldStepKeeps(w, pid, e); }
    case _ => PlainStepKeeps(w, e);
  }

  lemma PlainKeepsClaims(w: World, e: Event)
    requires ClaimsOk(w) && Plain(e)
    ensures ClaimsOk(Step(w, e)) && Step(w, e).claims == w.claims && Step(w, e).receipts == w.receipts
  {
    hide ClaimStep, HoldStep, IsSnapshot;
  }

  lemma PlainKeepsHolder(w: World, e: Event, q: nat)
    requires HoldersOk(w) && Plain(e) && q in Step(w, e).procs
    ensures HolderOk(Step(w, e), q, Step(w, e).procs[q])
  {
    hide ClaimStep, HoldStep, IsSnapshot;
    if q in w.procs { assert HolderOk(w, q, w.procs[q]); }
  }

  lemma PlainStepKeeps(w: World, e: Event)
    requires Inv(w) && Plain(e)
    ensures Inv(Step(w, e))
  {
    hide ClaimsOk, HolderOk, Step;
    PlainKeepsClaims(w, e);
    var v := Step(w, e);
    forall q | q in v.procs ensures HolderOk(v, q, v.procs[q]) { PlainKeepsHolder(w, e, q); }
  }

  lemma InvReached(events: seq<Event>)
    ensures Inv(Runs.Run(STEPPER, Init(), events))
  {
    var any := (w: World, e: Event) => true;
    assert Inv(Init());
    hide Step, Inv, Init;
    forall w, e | Inv(w) ensures Inv(STEPPER(w, e)) { StepKeeps(w, e); }
    Runs.AllAllowed(STEPPER, any, Init(), events);
    Runs.Preserved(STEPPER, any, (w: World) => Inv(w), Init(), events);
  }

  /** Whatever the interleaving and the crashes, a delivered message is claimed by at most one process. */
  lemma AtMostOneClaimant(events: seq<Event>, c: Claim, d: Claim)
    requires var w := Runs.Run(STEPPER, Init(), events); c in w.claims && d in w.claims && c.inst == d.inst
    ensures c.pid == d.pid
  {
    InvReached(events);
  }

  /** A receipt is attempted only by the process that claimed the message, and only once. */
  lemma ReceiptsByClaimant(events: seq<Event>, r: Receipt, q: Receipt)
    requires var w := Runs.Run(STEPPER, Init(), events); r in w.receipts && q in w.receipts
    ensures Claim(r.inst, r.pid) in Runs.Run(STEPPER, Init(), events).claims
    ensures r.inst == q.inst ==> r == q
  {
    InvReached(events);
  }

  // ---- nothing vanishes ----

  ghost predicate Somewhere(w: World, i: nat) {
    || (exists n :: n in w.newBox && w.newBox[n] == i)
    || (exists n :: n in w.curBox && w.curBox[n] == i)
    || i in w.dlq
  }

  ghost predicate Kept(w: World) {
    Inv(w) && forall i: nat :: i < w.next ==> Somewhere(w, i)
  }

  lemma MovedToCur(w: World, name: string, v: World, i: nat)
    requires name in w.newBox && name !in w.curBox && Somewhere(w, i)
    requires v.newBox == w.newBox - {name} && v.curBox == w.curBox[name := w.newBox[name]] && v.dlq == w.dlq
    ensures Somewhere(v, i)
  {
    if n :| n in w.newBox && w.newBox[n] == i {
      if n == name { assert v.curBox[name] == i; } else { assert n in v.newBox; }
    } else if n :| n in w.curBox && w.curBox[n] == i {
      assert n in v.curBox && v.curBox[n] == i;
    }
  }

  lemma UnlinkKeeps(w: World, name: string, v: World, i: nat)
    requires name in w.curBox && w.curBox[name] in w.dlq && Somewhere(w, i)
    requires v.newBox == w.newBox && v.curBox == w.curBox - {name} && v.dlq == w.dlq
    ensures Somewhere(v, i)
  {
    if n :| n in w.newBox && w.newBox[n] == i {
      assert n in v.newBox;
    } else if n :| n in w.curBox && w.curBox[n] == i {
      if n != name { assert n in v.curBox; }
    }
  }

  lemma SameBoxesKeep(w: World, v: World, i: nat)
    requires Somewhere(w, i) && v.newBox == w.newBox && v.curBox == w.curBox && w.dlq <= v.dlq
    ensures Somewhere(v, i)
  {
    if n :| n in w.newBox && w.newBox[n] == i {
      assert n in v.newBox;
    } else if n :| n in w.curBox && w.curBox[n] == i {
      assert n in v.curBox;
    }
  }

  lemma DeliverKeeps(w: World, name: string, i: nat)
    requires name !in w.newBox && w.present && (i < w.next ==> Somewhere(w, i)) && i <= w.next
    ensures Somewhere(Step(w, Deliver(name)), i)
  {
    var v := Step(w, Deliver(name));
    if i == w.next {
      assert v.newBox[name] == i;
    } else if n :| n in w.newBox && w.newBox[n] == i {
      assert n in v.newBox && v.newBox[n] == i;
    } else if n :| n in w.curBox && w.curBox[n] == i {
      assert n in v.curBox && v.curBox[n] == i;
    }
  }

  /** No event but the removal of the mailbox touches the boxes in any other way. */
  ghost predicate BoxesChange(w: World, e: Event, v: World) {
    || (e.Deliver? && e.name !in w.newBox && w.present)
    || (&& v.next == w.next && v.newBox == w.newBox && v.curBox == w.curBox && w.dlq <= v.dlq)
    || (exists n :: && n in w.newBox && n !in w.curBox && v.next == w.next
                    && v.newBox == w.newBox - {n} && v.curBox == w.curBox[n := w.newBox[n]] && v.dlq == w.dlq)
    || (exists n :: && n in w.curBox && w.curBox[n] in w.dlq && v.next == w.next
                    && v.newBox == w.newBox && v.curBox == w.curBox - {n} && v.dlq == w.dlq)
  }

  lemma StepChangesBoxes(w: World, e: Event)
    requires Inv(w) && w.present && !e.RemoveMailbox?
    ensures BoxesChange(w, e, Step(w, e)) && Step(w, e).present
  {
    if (e.Bury? || e.Unlink? || e.Emit?) && e.pid in w.procs && w.procs[e.pid].Holding? {
      assert HolderOk(w, e.pid, w.procs[e.pid]);
    }
  }

  lemma StepKeepsAll(w: World, e: Event)
    requires Kept(w) && w.present && !e.RemoveMailbox?
    ensures Kept(Step(w, e)) && Step(w, e).present
  {
    StepKeeps(w, e);
    StepChangesBoxes(w, e);
    var v := Step(w, e);
    forall i: nat | i < v.next ensures Somewhere(v, i) {
      if e.Deliver? && e.name !in w.newBox {
        DeliverKeeps(w, e.name, i);
      } else {
        BoxesKeep(w, e, v, i);
      }
    }
  }

  lemma BoxesKeep(w: World, e: Event, v: World, i: nat)
    requires BoxesChange(w, e, v) && !(e.Deliver? && e.name !in w.newBox && w.present) && Somewhere(w, i)
    ensures Somewhere(v, i)
  {
    hide Somewhere;
    if n :| && n in w.newBox && n !in w.curBox && v.next == w.next
            && v.newBox == w.newBox - {n} && v.curBox == w.curBox[n := w.newBox[n]] && v.dlq == w.dlq {
      MovedToCur(w, n, v, i);
    } else if n :| && n in w.curBox && w.curBox[n] in w.dlq && v.next == w.next
                   && v.newBox == w.newBox && v.curBox == w.curBox - {n} && v.dlq == w.dlq {
      UnlinkKeeps(w, n, v, i);
    } else {
      SameBoxesKeep(w, v, i);
    }
  }

  const MAILBOX_STAYS := (w: World, e: Event) => !e.RemoveMailbox?

  /** Crash where they may, no delivered message is ever gone from new, cur and the DLQ together. */
  lemma NothingVanishes(events: seq<Event>, i: nat)
    requires Runs.Allowed(STEPPER, MAILBOX_STAYS, Init(), events)
    requires i < Runs.Run(STEPPER, Init(), events).next
    ensures Somewhere(Runs.Run(STEPPER, Init(), events), i)
  {
    var inv := (w: World) => Kept(w) && w.present;
    assert inv(Init());
    forall w, e | inv(w) && MAILBOX_STAYS(w, e) ensures inv(STEPPER(w, e)) {
      hide Kept, Step;
      StepKeepsAll(w, e);
    }
    Runs.Preserved(STEPPER, MAILBOX_STAYS, inv, Init(), events);
  }

  // ---- losing a race ----

  /** The mailbox stays and every delivery has a name of its own, as message ids do. */
  predicate Orderly(w: World, e: Event) {
    !e.RemoveMailbox? && (e.Deliver? ==> e.name !in w.used)
  }

  const ORDERLY := (w: World, e: Event) => Orderly(w, e)

  ghost predicate TakenByOther(w: World, inst: nat, pid: nat) {
    exists c :: c in w.claims && c.inst == inst && c.pid != pid
  }

  /** An entry still to do is where it was seen, or somebody else has claimed it. */
  ghost predicate EntryOk(w: World, pid: nat, x: Entry) {
    && x.name in w.used && Claim(x.inst, pid) !in w.claims
    && (if x.name in w.newBox then w.newBox[x.name] == x.inst else TakenByOther(w, x.inst, pid))
  }

  function Todo(p: Proc): seq<Entry> {
    match p
    case Draining(todo) => todo
    case Reading(want) => [want]
    case Holding(_, _, rest) => rest
    case _ => []
  }

  ghost predicate TodoOk(w: World, pid: nat, todo: seq<Entry>) {
    && (forall i :: 0 <= i < |todo| ==> EntryOk(w, pid, todo[i]))
    && (forall i, j :: 0 <= i < j < |todo| ==> todo[i].name != todo[j].name)
  }

  /** A process fails only on an I/O fault or, if it is a reader, by losing the race. */
  predicate ProcOk(w: World, pid: nat, p: Proc) {
    && (p.Failed? ==> p.why.IoFault? || (p.why.LostRace? && pid in w.readers))
    && (p.Reading? ==> pid in w.readers)
  }

  ghost predicate ProcsOk(w: World) {
    forall pid :: pid in w.procs ==> TodoOk(w, pid, Todo(w.procs[pid])) && ProcOk(w, pid, w.procs[pid])
  }

  ghost predicate LostOk(w: World) {
    forall c :: c in w.lost ==> TakenByOther(w, c.inst, c.pid)
  }

  ghost predicate RaceInv(w: World) {
    && Inv(w) && w.present && ProcsOk(w) && LostOk(w)
    && (forall n :: n in w.newBox ==> n !in w.curBox)
  }

  lemma TakenStays(w: World, v: World, inst: nat, pid: nat)
    requires TakenByOther(w, inst, pid) && w.claims <= v.claims
    ensures TakenByOther(v, inst, pid)
  {
    var c :| c in w.claims && c.inst == inst && c.pid != pid;
    assert c in v.claims;
  }

  /** After `pid` wins `x`, other processes find it taken and `pid` keeps the rest of its list. */
  lemma EntryAfterWin(w: World, v: World, pid: nat, x: Entry, q: nat, y: Entry)
    requires ClaimsOk(w) && EntryOk(w, pid, x) && x.name in w.newBox && EntryOk(w, q, y)
    requires v.newBox == w.newBox - {x.name} && v.used == w.used && v.claims == w.claims + {Claim(x.inst, pid)}
    requires q == pid ==> y.name != x.name
    ensures EntryOk(v, q, y)
  {
    if y.name in w.newBox {
      if y.name == x.name {
        assert Claim(x.inst, pid) in v.claims;
      }
    } else {
      TakenStays(w, v, y.inst, q);
      var c :| c in w.claims && c.inst == y.inst && c.pid != q;
    }
  }

  lemma WinKeepsTodo(w: World, pid: nat, x: Entry, isDrain: bool, rest: seq<Entry>, q: nat)
    requires RaceInv(w) && pid in w.procs && TodoOk(w, pid, [x] + rest) && x.name in w.newBox && q in w.procs
    ensures var v := ClaimStep(w, pid, x, isDrain, rest); TodoOk(v, q, Todo(v.procs[q]))
  {
    assert ([x] + rest)[0] == x;
    assert EntryOk(w, pid, x);
    var v := ClaimStep(w, pid, x, isDrain, rest);
    var todo := Todo(v.procs[q]);
    assert x.inst == w.newBox[x.name];
    assert v.claims == w.claims + {Claim(x.inst, pid)};
    hide Inv, EntryOk, TakenByOther, ClaimStep, LostOk, ProcOk, ClaimsOk;
    if q == pid {
      assert todo == rest == ([x] + rest)[1..];
      forall i | 0 <= i < |rest| ensures EntryOk(v, q, rest[i]) {
        assert rest[i] == ([x] + rest)[i + 1];
        EntryAfterWin(w, v, pid, x, q, rest[i]);
      }
    } else {
      assert TodoOk(w, q, Todo(w.procs[q]));
      forall i | 0 <= i < |todo| ensures EntryOk(v, q, todo[i]) {
        EntryAfterWin(w, v, pid, x, q, todo[i]);
      }
    }
  }

  lemma WinKeepsRace(w: World, pid: nat, x: Entry, isDrain: bool, rest: seq<Entry>)
    requires RaceInv(w) && pid in w.procs && TodoOk(w, pid, [x] + rest) && x.name in w.newBox
    requires !w.procs[pid].Holding?
    ensures RaceInv(ClaimStep(w, pid, x, isDrain, rest))
  {
    ClaimStepKeeps(w, pid, x, isDrain, rest);
    var v := ClaimStep(w, pid, x, isDrain, rest);
    hide Inv, TodoOk, TakenByOther;
    forall q | q in v.procs ensures TodoOk(v, q, Todo(v.procs[q])) { WinKeepsTodo(w, pid, x, isDrain, rest, q); }
    forall c | c in v.lost ensures TakenByOther(v, c.inst, c.pid) { TakenStays(w, v, c.inst, c.pid); }
  }

  /** What leaves claims and new alone leaves every list as good as it was. */
  lemma EntryUnchanged(w: World, v: World, pid: nat, x: Entry)
    requires EntryOk(w, pid, x) && v.newBox == w.newBox && v.used == w.used && v.claims == w.claims
    ensures EntryOk(v, pid, x)
  {
    if x.name !in w.newBox { TakenStays(w, v, x.inst, pid); }
  }

  lemma LoseKeepsTodo(w: World, pid: nat, x: Entry, isDrain: bool, rest: seq<Entry>, q: nat)
    requires RaceInv(w) && pid in w.procs && TodoOk(w, pid, [x] + rest) && x.name !in w.newBox && q in w.procs
    ensures var v := ClaimStep(w, pid, x, isDrain, rest); TodoOk(v, q, Todo(v.procs[q]))
  {
    var v := ClaimStep(w, pid, x, isDrain, rest);
    var todo := Todo(v.procs[q]);
    assert q != pid ==> TodoOk(w, q, todo);
    hide Inv, EntryOk, TakenByOther, ClaimStep, LostOk, ProcOk;
    if q == pid && todo != [] { assert todo == rest == ([x] + rest)[1..]; }
    forall i | 0 <= i < |todo| ensures EntryOk(v, q, todo[i]) {
      EntryUnchanged(w, v, q, todo[i]);
    }
  }

  lemma LoseKeepsRace(w: World, pid: nat, x: Entry, isDrain: bool, rest: seq<Entry>)
    requires RaceInv(w) && pid in w.procs && !w.procs[pid].Holding? && TodoOk(w, pid, [x] + rest) && x.name !in w.newBox
    requires !isDrain ==> pid in w.readers
    ensures RaceInv(ClaimStep(w, pid, x, isDrain, rest))
  {
    ClaimStepKeeps(w, pid, x, isDrain, rest);
    assert ([x] + rest)[0] == x;
    assert TakenByOther(w, x.inst, pid);
    var v := ClaimStep(w, pid, x, isDrain, rest);
    hide Inv, TodoOk, TakenByOther;
    forall q | q in v.procs ensures TodoOk(v, q, Todo(v.procs[q])) { LoseKeepsTodo(w, pid, x, isDrain, rest, q); }
    forall c | c in v.lost ensures TakenByOther(v, c.inst, c.pid) { TakenStays(w, v, c.inst, c.pid); }
  }

  lemma HoldKeepsTodo(w: World, pid: nat, e: Event, q: nat)
    requires ProcsOk(w) && pid in w.procs && w.procs[pid].Holding? && q in w.procs
    ensures var v := HoldStep(w, pid, w.procs[pid], e);
            q in v.procs && TodoOk(v, q, Todo(v.procs[q])) && ProcOk(v, q, v.procs[q])
  {
    var v := HoldStep(w, pid, w.procs[pid], e);
    assert Todo(v.procs[q]) == Todo(w.procs[q]);
    assert v.newBox == w.newBox && v.used == w.used && v.claims == w.claims && v.readers == w.readers;
    hide HoldStep, EntryOk;
    forall i | 0 <= i < |Todo(v.procs[q])| ensures EntryOk(v, q, Todo(v.procs[q])[i]) {
      EntryUnchanged(w, v, q, Todo(w.procs[q])[i]);
    }
  }

  lemma HoldKeepsRace(w: World, pid: nat, e: Event)
    requires RaceInv(w) && pid in w.procs && w.procs[pid].Holding?
    ensures RaceInv(HoldStep(w, pid, w.procs[pid], e))
  {
    HoldStepKeeps(w, pid, e);
    var v := HoldStep(w, pid, w.procs[pid], e);
    hide Inv, TodoOk, ProcOk, TakenByOther, Todo;
    forall q | q in v.procs ensures TodoOk(v, q, Todo(v.procs[q])) && ProcOk(v, q, v.procs[q]) {
      HoldKeepsTodo(w, pid, e, q);
    }
    forall c | c in v.lost ensures TakenByOther(v, c.inst, c.pid) { TakenStays(w, v, c.inst, c.pid); }
  }

  lemma EntryAfterPlain(w: World, v: World, pid: nat, x: Entry)
    requires EntryOk(w, pid, x) && v.claims == w.claims && w.used <= v.used
    requires forall n :: n in w.used ==>
               (n in v.newBox <==> n in w.newBox) && (n in w.newBox ==> v.newBox[n] == w.newBox[n])
    ensures EntryOk(v, pid, x)
  {
    if x.name !in w.newBox { TakenStays(w, v, x.inst, pid); }
  }

  lemma SnapshotIsOk(w: World, pid: nat, listing: seq<Entry>)
    requires ClaimsOk(w) && IsSnapshot(w, listing)
    ensures TodoOk(w, pid, listing)
  {
  }

  predicate Plain(e: Event) {
    !e.TryClaim? && !e.Bury? && !e.Unlink? && !e.Emit?
  }

  /** What the other events leave alone. */
  lemma PlainFrame(w: World, e: Event)
    requires Orderly(w, e) && Plain(e) && (forall n :: n in w.newBox || n in w.curBox ==> n in w.used)
    ensures var v := Step(w, e);
            && v.claims == w.claims && v.lost == w.lost && w.used <= v.used && w.readers <= v.readers
            && v.present == w.present && v.curBox == w.curBox
            && (forall n :: n in w.used ==>
                  (n in v.newBox <==> n in w.newBox) && (n in w.newBox ==> v.newBox[n] == w.newBox[n]))
            && (forall n :: n in v.newBox && n !in w.newBox ==> n !in w.curBox)
  {
    hide ClaimStep, HoldStep, IsSnapshot;
  }

  /** A process runs on with what it had, has ended, or has just started from what is in new. */
  lemma PlainProcs(w: World, e: Event, q: nat)
    requires Orderly(w, e) && Plain(e) && q in Step(w, e).procs
    ensures var v := Step(w, e); var todo := Todo(v.procs[q]);
            if q in w.procs then v.procs[q] == w.procs[q] || v.procs[q] == Failed(IoFault) || v.procs[q] == Crashed
            else IsSnapshot(w, todo) && !v.procs[q].Failed? && (v.procs[q].Reading? ==> q in v.readers)
  {
    hide ClaimStep, HoldStep, InNew;
  }

  lemma PlainKeepsProc(w: World, e: Event, q: nat)
    requires RaceInv(w) && Orderly(w, e) && Plain(e) && q in Step(w, e).procs
    ensures var v := Step(w, e); TodoOk(v, q, Todo(v.procs[q])) && ProcOk(v, q, v.procs[q])
  {
    PlainProcs(w, e, q);
    PlainFrame(w, e);
    var v := Step(w, e);
    var todo := Todo(v.procs[q]);
    assert TodoOk(w, q, todo) by {
      hide Step, EntryOk;
      if q !in w.procs { SnapshotIsOk(w, q, todo); } else { assert TodoOk(w, q, Todo(w.procs[q])); }
    }
    hide Step, EntryOk;
    assert ProcOk(v, q, v.procs[q]);
    hide RaceInv;
    forall i | 0 <= i < |todo| ensures EntryOk(v, q, todo[i]) {
      EntryAfterPlain(w, v, q, todo[i]);
    }
  }

  lemma PlainKeepsRace(w: World, e: Event)
    requires RaceInv(w) && Orderly(w, e) && Plain(e)
    ensures RaceInv(Step(w, e))
  {
    PlainStepKeeps(w, e);
    PlainFrame(w, e);
    hide Step, TodoOk, TakenByOther, HoldersOk, ReceiptsOk, ProcOk;
    var v := Step(w, e);
    forall q | q in v.procs ensures TodoOk(v, q, Todo(v.procs[q])) && ProcOk(v, q, v.procs[q]) {
      PlainKeepsProc(w, e, q);
    }
    forall c | c in v.lost ensures TakenByOther(v, c.inst, c.pid) { TakenStays(w, v, c.inst, c.pid); }
  }

  lemma ClaimKeepsRace(w: World, pid: nat, x: Entry, isDrain: bool, rest: seq<Entry>)
    requires RaceInv(w) && pid in w.procs && !w.procs[pid].Holding? && TodoOk(w, pid, [x] + rest)
    requires !isDrain ==> pid in w.readers
    ensures RaceInv(ClaimStep(w, pid, x, isDrain, rest))
  {
    hide RaceInv, TodoOk, ClaimStep;
    if x.name in w.newBox {
      WinKeepsRace(w, pid, x, isDrain, rest);
    } else {
      LoseKeepsRace(w, pid, x, isDrain, rest);
    }
  }

  lemma StepKeepsRace(w: World, e: Event)
    requires RaceInv(w) && Orderly(w, e)
    ensures RaceInv(Step(w, e))
  {
    assert ProcsOk(w);
    hide ClaimStep, HoldStep, RaceInv, TodoOk;
    match e
    case TryClaim(pid) =>
      if pid in w.procs && w.procs[pid].Reading? {
        assert [w.procs[pid].want] + [] == Todo(w.procs[pid]);
        ClaimKeepsRace(w, pid, w.procs[pid].want, false, []);
      } else if pid in w.procs && w.procs[pid].Draining? && w.procs[pid].todo != [] {
        assert [w.procs[pid].todo[0]] + w.procs[pid].todo[1..] == w.procs[pid].todo;
        ClaimKeepsRace(w, pid, w.procs[pid].todo[0], true, w.procs[pid].todo[1..]);
      }
    case Bury(pid) => if pid in w.procs && w.procs[pid].Holding? { HoldKeepsRace(w, pid, e); }
    case Unlink(pid) => if pid in w.procs && w.procs[pid].Holding? { HoldKeepsRace(w, pid, e); }
    case Emit(pid) => if pid in w.procs && w.procs[pid].Holding? { HoldKeepsRace(w, pid, e); }
    case _ => PlainKeepsRace(w, e);
  }

  lemma RaceInvReached(events: seq<Event>)
    requires Runs.Allowed(STEPPER, ORDERLY, Init(), events)
    ensures RaceInv(Runs.Run(STEPPER, Init(), events))
  {
    assert RaceInv(Init());
    hide Step, RaceInv, Init, Orderly;
    forall w, e | RaceInv(w) && ORDERLY(w, e) ensures RaceInv(STEPPER(w, e)) { StepKeepsRace(w, e); }
    Runs.Preserved(STEPPER, ORDERLY, (w: World) => RaceInv(w), Init(), events);
  }

  /**
   Losing a race never makes a drain fail: while the mailbox exists and names are not reused, a process fails
   only on an I/O fault, or because it is a reader that lost.
   */
  lemma OnlyReadersLose(events: seq<Event>, pid: nat)
    requires Runs.Allowed(STEPPER, ORDERLY, Init(), events)
    requires var w := Runs.Run(STEPPER, Init(), events);
             pid in w.procs && w.procs[pid].Failed? && !w.procs[pid].why.IoFault?
    ensures var w := Runs.Run(STEPPER, Init(), events); pid in w.readers && w.procs[pid].why.LostRace?
  {
    RaceInvReached(events);
    assert ProcOk(Runs.Run(STEPPER, Init(), events), pid, Runs.Run(STEPPER, Init(), events).procs[pid]);
  }

  /** What a process found gone has been claimed by another one. */
  lemma LostMeansTaken(events: seq<Event>, c: Claim)
    requires Runs.Allowed(STEPPER, ORDERLY, Init(), events)
    requires c in Runs.Run(STEPPER, Init(), events).lost
    ensures TakenByOther(Runs.Run(STEPPER, Init(), events), c.inst, c.pid)
  {
    RaceInvReached(events);
  }

  /** Two processes after one file, and the second one first. */
  function Race(drainLoses: bool): seq<Event> {
    var x := Entry("a", 0);
    [Deliver("a"), if drainLoses then StartDrain(1, [x]) else StartRead(1, x),
     StartDrain(2, [x]), TryClaim(2), TryClaim(1)]
  }

  function AfterStart(drainLoses: bool): World {
    var x := Entry("a", 0);
    Init().(newBox := map["a" := 0], next := 1, used := {"a"}, readers := if drainLoses then {} else {1},
            procs := map[1 := if drainLoses then Draining([x]) else Reading(x), 2 := Draining([x])])
  }

  function AfterWin(drainLoses: bool): World {
    AfterStart(drainLoses).(newBox := map[], curBox := map["a" := 0], claims := {Claim(0, 2)},
                            procs := AfterStart(drainLoses).procs[2 := Holding(Entry("a", 0), Fetched, [])])
  }

  lemma RaceSteps(drainLoses: bool)
    ensures var r := Race(drainLoses);
            && Step(Step(Step(Init(), r[0]), r[1]), r[2]) == AfterStart(drainLoses)
            && Step(AfterStart(drainLoses), r[3]) == AfterWin(drainLoses)
            && Step(AfterWin(drainLoses), r[4]) ==
                 AfterWin(drainLoses).(lost := {Claim(0, 1)},
                   procs := AfterWin(drainLoses).procs[1 := if drainLoses then Ended else Failed(LostRace)])
  {
    var x := Entry("a", 0);
    assert AfterStart(drainLoses).newBox - {"a"} == map[];
    assert [x][1..] == [];
  }

  /** The same race, lost by a drain and by a read: the drain ends well, the read fails. */
  lemma ReaderFailsWhereDrainSkips(drainLoses: bool)
    ensures var w := Runs.Run(STEPPER, Init(), Race(drainLoses));
            && Runs.Allowed(STEPPER, ORDERLY, Init(), Race(drainLoses))
            && 1 in w.procs && w.lost == {Claim(0, 1)}
            && w.procs[1] == (if drainLoses then Ended else Failed(LostRace))
  {
    RaceSteps(drainLoses);
    hide Step, AfterStart, AfterWin;
    var r := Race(drainLoses);
    assert r[..0] == [];
    RaceSnoc(r, 0);
    RaceSnoc(r, 1);
    RaceSnoc(r, 2);
    RaceSnoc(r, 3);
    RaceSnoc(r, 4);
    assert r[..5] == r;
  }

  lemma RaceSnoc(r: seq<Event>, k: nat)
    requires k < |r| && Runs.Allowed(STEPPER, ORDERLY, Init(), r[..k])
    requires Orderly(Runs.Run(STEPPER, Init(), r[..k]), r[k])
    ensures Runs.Run(STEPPER, Init(), r[..k + 1]) == Step(Runs.Run(STEPPER, Init(), r[..k]), r[k])
    ensures Runs.Allowed(STEPPER, ORDERLY, Init(), r[..k + 1])
  {
    hide Step;
    assert r[..k + 1] == r[..k] + [r[k]];
    Runs.RunSnoc(STEPPER, Init(), r[..k], r[k]);
    Runs.AllowedSnoc(STEPPER, ORDERLY, Init(), r[..k], r[k]);
  }
}
