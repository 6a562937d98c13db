/**
 What the receiving host lets in: the checks of `PollOnce` and `ValidateEnvelope`, stated
 over the fields of a transfer, for every run and in both directions.
 */
module BridgeChecks {
  import opened Text
  import opened BridgeEnvelope
  import opened BridgeSource
  import opened BridgeRead
  import opened BridgeSystem
  import opened BridgePoll
  import opened BridgeEndToEnd
  import Runs

  // ---- what the receiving side lets in ----

  /** Where the transfer comes from and goes to, as this host is configured. */
  predicate Admitted(d: DestConfig, env: Envelope) {
    && env.sourceHost in d.allowedSource && Lookup(d.trusted, env.sourceHost) == Some(env.keyGeneration)
    && env.destAlias == d.receiveAlias && env.destAlias in d.allowedDest
  }

  predicate Tidy(x: string) {
    x != "" && Trim(x) == x
  }

  predicate TwoHandles(alias: string) {
    exists i :: 0 < i < |alias| && alias[i] == '/' && ValidHandle(alias[..i]) && ValidHandle(alias[i + 1..])
  }

  /** The envelope in itself: who it names, what it carries, how it is signed. */
  predicate WellMade(sha: Sha, env: Envelope) {
    && env.version == 1
    && Tidy(env.messageId) && Tidy(env.threadId) && Tidy(env.keyGeneration)
    && ValidHandle(env.sourceHost) && ValidHandle(env.sourceHandle) && ValidHandle(env.transferId)
    && TwoHandles(env.destAlias)
    && ToLower(env.payloadSha) == sha(env.payload) && env.payload != ""
    && |env.signature| == 128 && forall c :: c in env.signature ==> LowerHex(Lower(c))
  }

  lemma AliasInParts(alias: string)
    ensures ParseAlias(alias).Some? <==> TwoHandles(alias)
  {
    hide ValidHandle, ParseAlias, IndexOf;
    if ParseAlias(alias).Some? {
      var a := ParseAlias(alias).value;
      AliasRoundTrip(alias, a);
      var i := |a.host|;
      assert i > 0 by { HandleIsSome(a.host); }
      assert alias[i] == '/' && alias[..i] == a.host && alias[i + 1..] == a.agent;
    }
    if i :| 0 < i < |alias| && alias[i] == '/' && ValidHandle(alias[..i]) && ValidHandle(alias[i + 1..]) {
      assert alias == alias[..i] + "/" + alias[i + 1..];
      AliasRoundTrip(alias, Alias(alias[..i], alias[i + 1..]));
    }
  }

  lemma HandleIsSome(h: string)
    requires ValidHandle(h)
    ensures h != ""
  {
  }

  lemma DigestFolds(sha: Sha, payload: string, digest: string)
    ensures EqualFold(digest, sha(payload)) <==> ToLower(digest) == sha(payload)
    ensures EqualFold(digest, sha(payload)) ==> Trimmed(digest)
  {
    assert IsDigest(sha(payload));
    DigestIsLowerCase(sha(payload));
    if ToLower(digest) == sha(payload) {
      assert |digest| == 64 && Lower(digest[0]) == sha(payload)[0] && Lower(digest[63]) == sha(payload)[63];
      assert sha(payload)[0] in sha(payload) && sha(payload)[63] in sha(payload);
    }
  }

  lemma TidyIsTrimmed(x: string)
    ensures Tidy(x) <==> Trimmed(x)
  {
    TrimmedIsTrimSpaceTest(x);
    hide Trimmed;
  }

  lemma PlainHandle(h: string)
    ensures ValidHandle(h) ==> Trimmed(h) && ValidTransferId(h)
    ensures ValidTransferId(h) ==> ValidHandle(h)
  {
    if ValidHandle(h) { HandleIsPlain(h); }
  }

  /** The validation of an envelope is exactly this. */
  lemma ValidExactly(sha: Sha, env: Envelope)
    ensures ValidEnvelope(sha, env) <==> WellMade(sha, env)
  {
    hide ValidHandle, ToLower, ParseAlias, IsSpace, Trimmed, Tidy, TwoHandles, LowerHex, EqualFold, ValidTransferId;
    TidyIsTrimmed(env.messageId);
    TidyIsTrimmed(env.threadId);
    TidyIsTrimmed(env.keyGeneration);
    AliasInParts(env.destAlias);
    DigestFolds(sha, env.payload, env.payloadSha);
    if ParseAlias(env.destAlias).Some? { AliasIsTrimmed(env.destAlias); }
    if IsSignatureText(env.signature) { SignatureIsTrimmed(env.signature); }
    PlainHandle(env.sourceHost);
    PlainHandle(env.sourceHandle);
    PlainHandle(env.transferId);
  }

  lemma PolicyExactly(d: DestConfig, env: Envelope)
    ensures Policy(d, env) <==> Admitted(d, env) && WellMade(d.sha, env)
  {
    hide ValidEnvelope, WellMade, ParseAlias;
    ValidExactly(d.sha, env);
  }

  predicate MeetsChecks(d: DestConfig, env: Envelope) {
    Admitted(d, env) && WellMade(d.sha, env)
  }

  /** What the setting asks of an envelope, besides its signature, is what this host is configured to ask. */
  ghost predicate Configured(w: Setting, d: DestConfig) {
    w.policy == PolicyOf(d)
  }

  lemma PolicyAsks(d: DestConfig, env: Envelope)
    ensures PolicyOf(d)(env) <==> MeetsChecks(d, env)
  {
    hide Policy, Admitted, WellMade;
    PolicyExactly(d, env);
  }

  lemma SettingIsConfigured(cfg: Config, d: DestConfig)
    ensures Configured(SettingOf(cfg, d), d)
  {
    hide PolicyOf, ParamsOf;
  }

  /** What is stored under the names of the transfer is the transfer. */
  predicate Unopposed(dst: Dest, env: Envelope) {
    && (FileOf(env) in dst.inbox.live ==> dst.inbox.live[FileOf(env)] == env.payload)
    && (DestReceiptName(env) in dst.receipts.live ==>
          Matches(dst.receipts.live[DestReceiptName(env)], DestinationCommitted, env))
  }

  /** A transfer this host can commit and acknowledge. */
  ghost predicate Acceptable(w: Setting, d: DestConfig, s: System, env: Envelope) {
    && MeetsChecks(d, env) && SignedBy(w, s, env.sourceHost, CanonicalBytes(env)) && Unopposed(s.dst, env)
  }

  /** Exactly which transfers a poll can commit. */
  lemma PassableExactly(w: Setting, d: DestConfig, s: System, env: Envelope)
    requires Configured(w, d)
    ensures Passable(w, s, env) <==> Acceptable(w, d, s, env)
  {
    hide MeetsChecks, SignedBy, FileOf, ReceiptFilename, Matches, CanonicalBytes, PolicyOf;
    PolicyAsks(d, env);
  }

  /** In every run, what was acknowledged met every check of this host. */
  lemma AckedMeetsChecks(cfg: Config, d: DestConfig, events: seq<SysEvent>, env: Envelope)
    requires env in RunOf(cfg, d, events).dst.acked
    ensures MeetsChecks(d, env)
    ensures SignedBy(SettingOf(cfg, d), RunOf(cfg, d, events), env.sourceHost, CanonicalBytes(env))
  {
    hide MeetsChecks, SignedBy, Delivered, CanonicalBytes, SettingOf, Runs.Run, SysStepper, PolicyOf;
    AckedIsCommitted(SettingOf(cfg, d), events, env);
    SettingIsConfigured(cfg, d);
    PolicyAsks(d, env);
  }

  ghost predicate AllAcceptable(w: Setting, d: DestConfig, s: System, envs: seq<Envelope>) {
    Compatible(envs) && forall j :: 0 <= j < |envs| ==> Acceptable(w, d, s, envs[j])
  }

  /** The transfer came with a signature of its host and meets every check. */
  ghost predicate LetIn(w: Setting, d: DestConfig, s: System, env: Envelope) {
    MeetsChecks(d, env) && SignedBy(w, s, env.sourceHost, CanonicalBytes(env))
  }

  lemma AuthenticIsLetIn(w: Setting, d: DestConfig, s: System, env: Envelope)
    requires Configured(w, d)
    ensures Authentic(w, s, env) <==> LetIn(w, d, s, env)
  {
    hide MeetsChecks, SignedBy, CanonicalBytes, PolicyOf;
    PolicyAsks(d, env);
  }

  lemma AllPassableExactly(w: Setting, d: DestConfig, s: System, envs: seq<Envelope>)
    requires Configured(w, d)
    ensures AllPassable(w, s, envs) <==> AllAcceptable(w, d, s, envs)
  {
    hide Passable, Acceptable, Configured, Compatible;
    forall j | 0 <= j < |envs| ensures Passable(w, s, envs[j]) <==> Acceptable(w, d, s, envs[j]) {
      PassableExactly(w, d, s, envs[j]);
    }
  }

  /**
   `PollOnce` on a configured host: without faults it acknowledges every transfer of a poll whose transfers are
   acceptable and do not contradict each other, and whatever fails it acknowledges no other transfer.
   */
  method Poll(r: Receiver, w: Setting, ghost d: DestConfig, envs: seq<Envelope>, verified: Envelope -> bool,
              io: Envelope -> PollFaults)
    returns (done: nat, ghost events: seq<SysEvent>)
    requires Configured(w, d) && r.phase == Waiting
    requires forall env :: verified(env) <==> SignedBy(w, r.Sys(), env.sourceHost, CanonicalBytes(env))
    modifies r
    ensures Leads(w, old(r.Sys()), events, r.Sys())
    ensures done <= |envs| && forall j :: 0 <= j < done ==> envs[j] in r.acked
    ensures (forall env :: Faultless(io(env))) && AllAcceptable(w, d, old(r.Sys()), envs) ==> done == |envs|
    ensures forall env :: env in r.acked && env !in old(r.acked) ==> env in envs && LetIn(w, d, old(r.Sys()), env)
    ensures (forall env :: Faultless(io(env))) && done < |envs| ==> !Acceptable(w, d, r.Sys(), envs[done])
  {
    hide SignedBy, CanonicalBytes, Passable, Acceptable, Compatible, Faultless, Leads, Configured, LetIn, Authentic,
         AllAcceptable, AllPassable, PolicyOf;
    ghost var s := r.Sys();
    AllPassableExactly(w, d, s, envs);
    done, events := r.PollOnce(w, envs, verified, io);
    forall env | env in r.acked && env !in old(r.acked) ensures env in envs && LetIn(w, d, s, env) {
      AuthenticIsLetIn(w, d, s, env);
    }
    if done < |envs| { PassableExactly(w, d, r.Sys(), envs[done]); }
  }
}
