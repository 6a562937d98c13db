/**
 `ApplyEnvelope` and `writeBridgeReceipt`: two write-once stores on the destination,
 shown to be the maps their documentation speaks of.
 */
module BridgeApply {
  import opened Text
  import opened BridgeEnvelope
  import opened BridgeSource

  datatype ApplyOutcome = Rejected | IoFailed | Conflict | Committed(file: string, replayed: bool)

  datatype WriteOutcome = Stored | Refused | WriteFailed

  /**
   How creating a file goes wrong, by what it leaves; a whole file is left when only its directory could not be
   synced.
   */
  datatype Fault = NoFault | LeavesNothing | LeavesTorn | LeavesWhole

  /** Write-once: an existing entry stays. */
  function Put<V>(m: map<string, V>, k: string, v: V): map<string, V> {
    if k in m then m else m[k := v]
  }

  class Store {
    var inbox: map<string, string>
    var receipts: map<string, ReceiptFile>

    /** Commit a payload under its transfer file name without ever replacing another one. */
    method ApplyEnvelope(sha: Sha, localHost: string, localAgent: string, env: Envelope, io: Fault)
      returns (r: ApplyOutcome)
      modifies this`inbox
      ensures var here := ValidEnvelope(sha, env) && ParseAlias(env.destAlias) == Some(Alias(localHost, localAgent));
              var prior := Lookup(old(inbox), TransferFilename(env.sourceHost, env.transferId));
              && (r.Rejected? <==> !here)
              && (r.IoFailed? <==> here && !io.NoFault?)
              && (r.Conflict? <==> here && io.NoFault? && prior.Some? && prior != Some(env.payload))
              && (r.Committed? ==> r.replayed == prior.Some?
                                   && r.file == TransferFilename(env.sourceHost, env.transferId))
              && inbox == if r.Committed? || (here && io.LeavesWhole?)
                          then Put(old(inbox), TransferFilename(env.sourceHost, env.transferId), env.payload)
                          else old(inbox)
    {
      var alias := ParseAlias(env.destAlias);
      if !ValidEnvelope(sha, env) || alias.None? {
        return Rejected;
      }
      if alias.value.host != localHost || alias.value.agent != localAgent {
        return Rejected;
      }
      var file := TransferFilename(env.sourceHost, env.transferId);
      var existed := file in inbox;
      if !io.NoFault? {
        // the payload is complete before it is renamed into place, so it is never torn
        if io.LeavesWhole? && !existed { inbox := inbox[file := env.payload]; }
        return IoFailed;
      }
      if file in inbox {
        if inbox[file] != env.payload {
          return Conflict;
        }
      } else {
        inbox := inbox[file := env.payload];
      }
      r := Committed(file, existed);
    }

    /** `writeBridgeReceipt`: exclusive creation, then agreement with whatever is there. */
    method WriteReceipt(stage: Stage, transferId: string, digest: string, io: Fault) returns (r: WriteOutcome)
      modifies this`receipts
      ensures var prior := Lookup(old(receipts), ReceiptFilename(transferId, stage));
              && (r.Stored? <==> if prior.None? then io.NoFault? else Agrees(prior.value, stage, transferId, digest))
              && (r.WriteFailed? <==> prior.None? && !io.NoFault?)
              && receipts == if io.LeavesNothing? then old(receipts)
                             else Put(old(receipts), ReceiptFilename(transferId, stage),
                                      if io.LeavesTorn? then Torn else Written(stage, transferId, digest))
    {
      var f := ReceiptFilename(transferId, stage);
      if f !in receipts {
        if !io.LeavesNothing? {
          receipts := receipts[f := if io.LeavesTorn? then Torn else Written(stage, transferId, digest)];
        }
        return if io.NoFault? then Stored else WriteFailed;
      }
      var prior := receipts[f];
      if prior.Torn? || prior.stage != stage || prior.transferId != transferId || !EqualFold(prior.digest, digest) {
        return Refused;
      }
      r := Stored;
    }

    /** Any sequence of calls has the effect `PerformAll` gives it. */
    method Carry(sha: Sha, localHost: string, localAgent: string, ops: seq<StoreOp>)
      modifies this
      ensures Stores(inbox, receipts)
              == PerformAll(AcceptedAt(sha, localHost, localAgent), Stores(old(inbox), old(receipts)), ops)
    {
      hide Perform, ValidEnvelope, ParseAlias, TransferFilename, ReceiptFilename;
      ghost var accepted, s0 := AcceptedAt(sha, localHost, localAgent), Stores(inbox, receipts);
      assert ops[..0] == [];
      for k := 0 to |ops|
        invariant Stores(inbox, receipts) == PerformAll(accepted, s0, ops[..k])
      {
        ghost var s := Stores(inbox, receipts);
        match ops[k] {
          case ApplyOp(env, io) =>
            var r := ApplyEnvelope(sha, localHost, localAgent, env, io);
            AppliesAs(sha, localHost, localAgent, s, env, io, inbox, r);
          case ReceiptOp(stage, id, digest, io) =>
            var r := WriteReceipt(stage, id, digest, io);
            RecordsAs(accepted, s, stage, id, digest, io, receipts);
        }
        PerformMore(accepted, s0, ops, k);
      }
      assert ops[..|ops|] == ops;
    }
  }

  predicate Here(sha: Sha, localHost: string, localAgent: string, env: Envelope) {
    ValidEnvelope(sha, env) && ParseAlias(env.destAlias) == Some(Alias(localHost, localAgent))
  }

  function AcceptedAt(sha: Sha, localHost: string, localAgent: string): Envelope -> bool {
    env => Here(sha, localHost, localAgent, env)
  }

  predicate Agrees(r: ReceiptFile, stage: Stage, transferId: string, digest: string) {
    r.Written? && r.stage == stage && r.transferId == transferId && EqualFold(r.digest, digest)
  }

  // ---- sequences of operations ----

  datatype StoreOp =
    | ApplyOp(env: Envelope, io: Fault)
    | ReceiptOp(stage: Stage, transferId: string, digest: string, io: Fault)

  datatype Stores = Stores(inbox: map<string, string>, receipts: map<string, ReceiptFile>)

  /** What an operation leaves where nothing was. */
  function Payload(accepted: Envelope -> bool, op: StoreOp): Option<string> {
    if op.ApplyOp? && accepted(op.env) && (op.io.NoFault? || op.io.LeavesWhole?) then Some(op.env.payload) else None
  }

  function Record(op: StoreOp): Option<ReceiptFile> {
    if op.ApplyOp? || op.io.LeavesNothing? then None
    else if op.io.LeavesTorn? then Some(Torn)
    else Some(Written(op.stage, op.transferId, op.digest))
  }

  /** The effect of one operation, as the two methods state it. */
  function Perform(accepted: Envelope -> bool, s: Stores, op: StoreOp): Stores {
    match op
    case ApplyOp(env, _) =>
      if Payload(accepted, op).Some?
      then s.(inbox := Put(s.inbox, TransferFilename(env.sourceHost, env.transferId), env.payload)) else s
    case ReceiptOp(stage, id, _, _) =>
      if Record(op).Some? then s.(receipts := Put(s.receipts, ReceiptFilename(id, stage), Record(op).value)) else s
  }

  lemma AppliesAs(sha: Sha, localHost: string, localAgent: string, s: Stores, env: Envelope, io: Fault,
                  inbox: map<string, string>, r: ApplyOutcome)
    requires var here := Here(sha, localHost, localAgent, env);
             var name := TransferFilename(env.sourceHost, env.transferId);
             && (r.Rejected? <==> !here) && (r.IoFailed? <==> here && !io.NoFault?)
             && (r.Conflict? <==> here && io.NoFault? && name in s.inbox && s.inbox[name] != env.payload)
             && inbox == if r.Committed? || (here && io.LeavesWhole?) then Put(s.inbox, name, env.payload) else s.inbox
    ensures s.(inbox := inbox) == Perform(AcceptedAt(sha, localHost, localAgent), s, ApplyOp(env, io))
  {
    hide Here, TransferFilename;
  }

  lemma RecordsAs(accepted: Envelope -> bool, s: Stores, stage: Stage, id: string, digest: string, io: Fault,
                  receipts: map<string, ReceiptFile>)
    requires receipts == if io.LeavesNothing? then s.receipts
                         else Put(s.receipts, ReceiptFilename(id, stage),
                                  if io.LeavesTorn? then Torn else Written(stage, id, digest))
    ensures s.(receipts := receipts) == Perform(accepted, s, ReceiptOp(stage, id, digest, io))
  {
    hide ReceiptFilename;
  }

  lemma PerformMore(accepted: Envelope -> bool, s: Stores, ops: seq<StoreOp>, k: nat)
    requires k < |ops|
    ensures PerformAll(accepted, s, ops[..k + 1]) == Perform(accepted, PerformAll(accepted, s, ops[..k]), ops[k])
  {
    hide Perform;
    assert ops[..k + 1][..k] == ops[..k];
  }

  function PerformAll(accepted: Envelope -> bool, s: Stores, ops: seq<StoreOp>): Stores {
    if ops == [] then s else Perform(accepted, PerformAll(accepted, s, ops[..|ops| - 1]), ops[|ops| - 1])
  }

  /** Reference: the payload first left for this source host and transfer id. */
  function FirstPayload(accepted: Envelope -> bool, ops: seq<StoreOp>, host: string, id: string): Option<string> {
    if ops == [] then None
    else
      var prior := FirstPayload(accepted, ops[..|ops| - 1], host, id);
      var op := ops[|ops| - 1];
      if prior.Some? then prior
      else if op.ApplyOp? && op.env.sourceHost == host && op.env.transferId == id then Payload(accepted, op)
      else None
  }

  /** Reference: what was first left for this transfer and stage. */
  function FirstRecord(ops: seq<StoreOp>, id: string, stage: Stage): Option<ReceiptFile> {
    if ops == [] then None
    else
      var prior := FirstRecord(ops[..|ops| - 1], id, stage);
      var op := ops[|ops| - 1];
      if prior.Some? then prior
      else if op.ReceiptOp? && op.transferId == id && op.stage == stage then Record(op)
      else None
  }

  const NONE := Stores(map[], map[])

  /**
   The inbox is the map from (source host, courier-made transfer id) to the first accepted payload: later
   operations never change an entry, replays repeat it and conflicts leave it.
   */
  lemma {:induction false} InboxIsFirstPayload(accepted: Envelope -> bool, ops: seq<StoreOp>, host: string, id: string)
    requires IsCourierId(id)
    requires forall op :: op in ops && op.ApplyOp? ==> IsCourierId(op.env.transferId)
    ensures Lookup(PerformAll(accepted, NONE, ops).inbox, TransferFilename(host, id))
            == FirstPayload(accepted, ops, host, id)
  {
    if ops != [] {
      var k := |ops| - 1;
      InboxIsFirstPayload(accepted, ops[..k], host, id);
      if ops[k].ApplyOp? {
        var env := ops[k].env;
        assert ops[k] in ops;
        if TransferFilename(env.sourceHost, env.transferId) == TransferFilename(host, id) {
          CourierFilenamesInjective(env.sourceHost, env.transferId, host, id);
        }
      }
    }
  }

  /** The receipt directory is the map from (transfer id, stage) to what was first left there, for any ids. */
  lemma {:induction false} ReceiptsAreFirstRecord(accepted: Envelope -> bool, ops: seq<StoreOp>, id: string,
      stage: Stage)
    ensures Lookup(PerformAll(accepted, NONE, ops).receipts, ReceiptFilename(id, stage))
            == FirstRecord(ops, id, stage)
  {
    if ops != [] {
      var k := |ops| - 1;
      ReceiptsAreFirstRecord(accepted, ops[..k], id, stage);
      if ops[k].ReceiptOp? && ReceiptFilename(ops[k].transferId, ops[k].stage) == ReceiptFilename(id, stage) {
        ReceiptFilenameInjective(ops[k].transferId, ops[k].stage, id, stage);
      }
    }
  }

  /** Both stores only grow along any continuation of any sequence of operations. */
  lemma {:induction false} StoresOnlyGrow(accepted: Envelope -> bool, s: Stores, ops: seq<StoreOp>)
    ensures var t := PerformAll(accepted, s, ops);
            && (forall f :: f in s.inbox ==> f in t.inbox && t.inbox[f] == s.inbox[f])
            && (forall f :: f in s.receipts ==> f in t.receipts && t.receipts[f] == s.receipts[f])
  {
    if ops != [] {
      StoresOnlyGrow(accepted, s, ops[..|ops| - 1]);
    }
  }
}
