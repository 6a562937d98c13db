/**
 `PollOnce` over the destination's inbox and receipt directory.  As with `PushOnce`
 every operation is an event of the two-host system.
 */
module BridgePoll {
  import opened Text
  import opened BridgeEnvelope
  import opened BridgeSource
  import opened BridgeSystem
  import Runs

  datatype PollOp = InboxOp | ReceiptOp | AckOp

  /** Which operations fail on one transfer, and whether the file is then visible all the same, or torn. */
  datatype PollFaults = PollFaults(fails: PollOp -> bool, visible: PollOp -> bool, torn: bool)

  predicate Faultless(io: PollFaults) {
    forall op :: !io.fails(op)
  }

  /** Nothing stored under the transfer's names contradicts it. */
  predicate InboxAllows(inbox: map<string, string>, env: Envelope) {
    FileOf(env) in inbox ==> inbox[FileOf(env)] == env.payload
  }

  predicate ReceiptAllows(receipts: map<string, ReceiptFile>, env: Envelope) {
    DestReceiptName(env) in receipts ==> HasDestReceipt(receipts, env)
  }

  /** Whether one transfer can be committed and recorded in this state. */
  ghost predicate Passable(w: Setting, s: System, env: Envelope) {
    Authentic(w, s, env) && InboxAllows(s.dst.inbox.live, env) && ReceiptAllows(s.dst.receipts.live, env)
  }

  /** No two transfers of a poll claim one file, or one receipt, for different contents. */
  predicate Compatible(envs: seq<Envelope>) {
    forall i, j :: 0 <= i < j < |envs| ==>
      && (FileOf(envs[i]) == FileOf(envs[j]) ==> envs[i].payload == envs[j].payload)
      && (DestReceiptName(envs[i]) == DestReceiptName(envs[j]) ==> EqualFold(envs[i].payloadSha, envs[j].payloadSha))
  }

  ghost predicate AllPassable(w: Setting, s: System, envs: seq<Envelope>) {
    Compatible(envs) && forall j :: 0 <= j < |envs| ==> Passable(w, s, envs[j])
  }

  /** The events lead from one state to the other. */
  ghost predicate Leads(w: Setting, s: System, events: seq<SysEvent>, t: System) {
    t == Runs.Run(SysStepper(w), s, events)
  }

  lemma LeadsNowhere(w: Setting, s: System)
    ensures Leads(w, s, [], s)
  {
    hide SysStepper;
  }

  lemma LeadsOn(w: Setting, s: System, a: seq<SysEvent>, t: System, b: seq<SysEvent>, u: System)
    requires Leads(w, s, a, t) && Leads(w, t, b, u)
    ensures Leads(w, s, a + b, u)
  {
    hide SysStepper;
    Runs.RunAppend(SysStepper(w), s, a, b);
  }

  /** An enabled step of the destination. */
  lemma Stepped(w: Setting, s: System, d: DestStep)
    requires DestEnabled(w, s, d)
    ensures Leads(w, s, [AtDest(d)], s.(dst := DestApply(s.dst, d)))
  {
    hide DestEnabled, DestApply;
    Runs.RunSnoc(SysStepper(w), s, [], AtDest(d));
    assert [] + [AtDest(d)] == [AtDest(d)];
  }

  lemma SameSignatures(w: Setting, s: System, t: System, env: Envelope)
    requires t.src == s.src && t.foreign == s.foreign
    ensures SignedBy(w, t, env.sourceHost, CanonicalBytes(env)) == SignedBy(w, s, env.sourceHost, CanonicalBytes(env))
  {
    hide CanonicalBytes;
  }

  /** The receipts of other transfers stay as they are. */
  ghost predicate KeepsReceipts(before: map<string, ReceiptFile>, after: map<string, ReceiptFile>, env: Envelope) {
    forall f :: f != DestReceiptName(env) ==> Lookup(before, f) == Lookup(after, f)
  }

  /** Committing and recording one transfer leaves a compatible one as passable as it was. */
  lemma StillPassable(w: Setting, s: System, t: System, a: Envelope, b: Envelope)
    requires Passable(w, s, b) && Authentic(w, t, b)
    requires FileOf(a) == FileOf(b) ==> a.payload == b.payload
    requires DestReceiptName(a) == DestReceiptName(b) ==> EqualFold(a.payloadSha, b.payloadSha)
    requires t.dst.inbox.live == s.dst.inbox.live[FileOf(a) := a.payload] && HasDestReceipt(t.dst.receipts.live, a)
    requires KeepsReceipts(s.dst.receipts.live, t.dst.receipts.live, a)
    ensures Passable(w, t, b)
  {
    hide FileOf, ReceiptFilename, SignedBy;
    if DestReceiptName(a) == DestReceiptName(b) {
      ReceiptFilenameInjective(a.transferId, DestinationCommitted, b.transferId, DestinationCommitted);
    } else {
      assert Lookup(s.dst.receipts.live, DestReceiptName(b)) == Lookup(t.dst.receipts.live, DestReceiptName(b));
    }
  }

  class Receiver {
    ghost var src: Source
    ghost var foreign: set<(string, string)>
    var inbox: map<string, string>
    var receipts: map<string, ReceiptFile>
    ghost var inboxSynced: map<string, string>
    ghost var receiptsSynced: map<string, ReceiptFile>
    ghost var phase: PollPhase
    ghost var published: set<(string, string)>
    ghost var consumed: set<string>
    ghost var committed: set<Envelope>
    ghost var acked: set<Envelope>

    ghost function Sys(): System
      reads this
    {
      System(src, Dest(Dir(inbox, inboxSynced), Dir(receipts, receiptsSynced), phase, published, consumed, committed,
                       acked), foreign)
    }

    /** Publish the payload of a verified envelope and sync the inbox, also when it was there already. */
    method Publish(w: Setting, env: Envelope, io: PollFaults) returns (ok: bool, ghost events: seq<SysEvent>)
      requires phase == Verified(env)
      modifies this`phase, this`inbox, this`inboxSynced, this`published, this`committed
      ensures Leads(w, old(Sys()), events, Sys())
      ensures ok == (InboxAllows(old(inbox), env) && !io.fails(InboxOp))
      ensures phase == if ok then Applied(env) else Waiting
      ensures ok ==> inbox == old(inbox)[FileOf(env) := env.payload] && inboxSynced == inbox
      ensures !ok ==> inboxSynced == old(inboxSynced)
      ensures !ok ==> inbox == if io.fails(InboxOp) && io.visible(InboxOp) && FileOf(env) !in old(inbox)
                               then old(inbox)[FileOf(env) := env.payload] else old(inbox)
    {
      hide Leads, TransferFilename, SignedBy, HasDestReceipt, Survives, ReceiptsSurvive, FileOf;
      ghost var s := Sys();
      ok := InboxAllows(inbox, env) && !io.fails(InboxOp);
      var visible := io.fails(InboxOp) && io.visible(InboxOp) && FileOf(env) !in inbox;
      ghost var d := if ok then ApplyEnvelope else if visible then ApplyUnsynced else PollStops;
      Stepped(w, s, d);
      events := [AtDest(d)];
      if ok || visible {
        inbox := inbox[FileOf(env) := env.payload];
        published := published + {(FileOf(env), env.payload)};
      }
      if ok { inboxSynced, committed := inbox, committed + {env}; }
      phase := if ok then Applied(env) else Waiting;
    }

    /** Authenticate one envelope and publish its payload. */
    method Commit(w: Setting, env: Envelope, verified: bool, io: PollFaults)
      returns (ok: bool, ghost events: seq<SysEvent>)
      requires phase == Waiting
      requires verified <==> SignedBy(w, Sys(), env.sourceHost, CanonicalBytes(env))
      modifies this`phase, this`inbox, this`inboxSynced, this`published, this`committed
      ensures Leads(w, old(Sys()), events, Sys())
      ensures phase == if ok then Applied(env) else Waiting
      ensures ok <==> Authentic(w, old(Sys()), env) && InboxAllows(old(inbox), env) && !io.fails(InboxOp)
      ensures ok ==> inbox == old(inbox)[FileOf(env) := env.payload] && inboxSynced == inbox
      ensures !ok && !(io.fails(InboxOp) && io.visible(InboxOp)) ==> inbox == old(inbox)
      ensures !ok ==> inbox == old(inbox) || (Authentic(w, old(Sys()), env) && FileOf(env) !in old(inbox)
                                              && inbox == old(inbox)[FileOf(env) := env.payload])
    {
      hide Leads, CanonicalBytes, SignedBy, FileOf, InboxAllows, DestApply;
      ghost var s := Sys();
      if !w.policy(env) || !verified {
        LeadsNowhere(w, s);
        ok, events := false, [];
      } else {
        Authenticated(w, s, env);
        phase := Verified(env);
        ghost var t, more := Sys(), [];
        ok, more := Publish(w, env, io);
        LeadsOn(w, s, [AtDest(Poll(env))], t, more, Sys());
        events := [AtDest(Poll(env))] + more;
      }
    }

    /** Write the receipt unless it is there; one that is there must agree and is not synced again. */
    method WriteReceipt(w: Setting, env: Envelope, io: PollFaults) returns (ok: bool, ghost events: seq<SysEvent>)
      requires phase == Applied(env)
      modifies this`phase, this`receipts, this`receiptsSynced
      ensures Leads(w, old(Sys()), events, Sys())
      ensures ok == (ReceiptAllows(old(receipts), env) && !io.fails(ReceiptOp))
      ensures phase == if ok then Recorded(env) else Waiting
      ensures ok ==> HasDestReceipt(receipts, env)
      ensures ok && DestReceiptName(env) !in old(receipts) ==> receiptsSynced == receipts
      ensures ok && DestReceiptName(env) in old(receipts) ==> receipts == old(receipts)
      ensures ok ==> KeepsReceipts(old(receipts), receipts, env)
      ensures !ok && !io.fails(ReceiptOp) ==> receipts == old(receipts)
    {
      hide Leads, ReceiptFilename, SignedBy, FileOf, Survives, ReceiptsSurvive;
      ghost var s := Sys();
      var f := DestReceiptName(env);
      ok := ReceiptAllows(receipts, env) && !io.fails(ReceiptOp);
      var left := io.fails(ReceiptOp) && f !in receipts && (io.visible(ReceiptOp) || io.torn);
      ghost var d := if ok then WriteDestReceipt else if !left then PollStops
                     else if io.torn then TearDestReceipt else WriteDestUnsynced;
      Stepped(w, s, d);
      events := [AtDest(d)];
      if (ok && f !in receipts) || left {
        receipts := receipts[f := if left && io.torn then Torn else NewDestReceipt(env)];
      }
      if ok && f !in old(receipts) { receiptsSynced := receipts; }
      phase := if ok then Recorded(env) else Waiting;
    }

    /** Record the commit and acknowledge it; the acknowledgement may get through although its reply is lost. */
    method Record(w: Setting, env: Envelope, io: PollFaults) returns (ok: bool, ghost events: seq<SysEvent>)
      requires phase == Applied(env)
      modifies this`phase, this`receipts, this`receiptsSynced, this`acked
      ensures Leads(w, old(Sys()), events, Sys()) && phase == Waiting
      ensures ok <==> ReceiptAllows(old(receipts), env) && !io.fails(ReceiptOp) && !io.fails(AckOp)
      ensures ok ==> env in acked
      ensures env in acked && env !in old(acked) ==> HasDestReceipt(receipts, env)
      ensures acked == old(acked) || acked == old(acked) + {env}
      ensures !ok && Faultless(io) ==> receipts == old(receipts)
      ensures ok ==> HasDestReceipt(receipts, env) && KeepsReceipts(old(receipts), receipts, env)
      ensures env in acked && env !in old(acked) ==> ReceiptAllows(old(receipts), env)
    {
      hide Leads, ReceiptAllows, HasDestReceipt, DestReceiptName, SignedBy, FileOf;
      ghost var s := Sys();
      ok, events := WriteReceipt(w, env, io);
      if ok {
        ghost var t := Sys();
        Stepped(w, t, Ack);
        acked, phase := acked + {env}, Waiting;
        LeadsOn(w, s, events, t, [AtDest(Ack)], Sys());
        events := events + [AtDest(Ack)];
        ok := !io.fails(AckOp);
      }
    }

    /** One transfer: authenticate, commit, record, acknowledge; the first failure ends it. */
    method PollItem(w: Setting, env: Envelope, verified: bool, io: PollFaults)
      returns (ok: bool, ghost events: seq<SysEvent>)
      requires phase == Waiting
      requires verified <==> SignedBy(w, Sys(), env.sourceHost, CanonicalBytes(env))
      modifies this
      ensures Leads(w, old(Sys()), events, Sys()) && phase == Waiting
      ensures ok ==> Passable(w, old(Sys()), env) && env in acked
      ensures ok ==> inbox == old(inbox)[FileOf(env) := env.payload] && HasDestReceipt(receipts, env)
      ensures Faultless(io) ==> (ok <==> Passable(w, old(Sys()), env))
      ensures acked == old(acked) || acked == old(acked) + {env}
      ensures env in acked && env !in old(acked) ==> Passable(w, old(Sys()), env)
      ensures ok ==> KeepsReceipts(old(receipts), receipts, env)
      ensures src == old(src) && foreign == old(foreign)
      ensures Faultless(io) && !ok ==> !Passable(w, Sys(), env)
    {
      hide Leads, ReceiptAllows, HasDestReceipt, DestReceiptName, SignedBy, FileOf, CanonicalBytes, InboxAllows;
      ghost var s := Sys();
      ok, events := Commit(w, env, verified, io);
      if ok {
        ghost var t, more := Sys(), [];
        ok, more := Record(w, env, io);
        LeadsOn(w, s, events, t, more, Sys());
        events := events + more;
      }
      SameSignatures(w, s, Sys(), env);
    }

    /** `PollOnce`: in order, stopping at the first transfer that fails; all before it are acknowledged. */
    method PollOnce(w: Setting, envs: seq<Envelope>, verified: Envelope -> bool, io: Envelope -> PollFaults)
      returns (done: nat, ghost events: seq<SysEvent>)
      requires phase == Waiting
      requires forall env :: verified(env) <==> SignedBy(w, Sys(), env.sourceHost, CanonicalBytes(env))
      modifies this
      ensures Leads(w, old(Sys()), events, Sys())
      ensures done <= |envs| && forall j :: 0 <= j < done ==> envs[j] in acked
      ensures forall env :: env in acked && env !in old(acked) ==>
                exists j :: 0 <= j < |envs| && j <= done && envs[j] == env
      ensures (forall env :: Faultless(io(env))) && done < |envs| ==> !Passable(w, Sys(), envs[done])
      ensures forall env :: env in acked && env !in old(acked) ==> Authentic(w, old(Sys()), env)
      ensures (forall env :: Faultless(io(env))) && AllPassable(w, old(Sys()), envs) ==> done == |envs|
    {
      hide Leads, Passable, HasDestReceipt, CanonicalBytes, FileOf, SignedBy, KeepsReceipts, Faultless, EqualFold,
           DestReceiptName;
      ghost var all := AllPassable(w, Sys(), envs);
      ghost var s0 := Sys();
      events := [];
      LeadsNowhere(w, s0);
      done := 0;
      while done < |envs|
        invariant done <= |envs| && phase == Waiting && src == old(src) && foreign == old(foreign)
        invariant Leads(w, s0, events, Sys())
        invariant forall j :: 0 <= j < done ==> envs[j] in acked
        invariant old(acked) <= acked
        invariant forall env :: env in acked && env !in old(acked) ==> exists j :: 0 <= j < done && envs[j] == env
        invariant forall env :: env in acked && env !in old(acked) ==> Authentic(w, old(Sys()), env)
        invariant all ==> forall j :: done <= j < |envs| ==> Passable(w, Sys(), envs[j])
      {
        var env := envs[done];
        SameSignatures(w, old(Sys()), Sys(), env);
        ghost var s, more := Sys(), [];
        var ok;
        ok, more := PollItem(w, env, verified(env), io(env));
        LeadsOn(w, s0, events, s, more, Sys());
        events := events + more;
        if env in acked && env !in s.dst.acked { PassableIsAuthentic(w, s, env); }
        SameSignatures(w, old(Sys()), s, env);
        if !ok {
          return;
        }
        if all {
          forall j | done < j < |envs| ensures Passable(w, Sys(), envs[j]) {
            PassableIsAuthentic(w, s, envs[j]);
            SameSignatures(w, s, Sys(), envs[j]);
            StillPassable(w, s, Sys(), env, envs[j]);
          }
        }
        done := done + 1;
      }
    }
  }

  lemma PassableIsAuthentic(w: Setting, s: System, env: Envelope)
    requires Passable(w, s, env)
    ensures Authentic(w, s, env)
  {
  }

  lemma Authenticated(w: Setting, s: System, env: Envelope)
    requires s.dst.phase.Waiting? && Authentic(w, s, env)
    ensures Leads(w, s, [AtDest(Poll(env))], s.(dst := s.dst.(phase := Verified(env))))
  {
    hide Leads, SignedBy;
    Stepped(w, s, Poll(env));
  }
}
