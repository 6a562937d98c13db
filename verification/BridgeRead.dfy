/**
 How the courier reads one spool file: `readSpool`, `destAliasForSpool`,
 `envelopeForMessage` and `SignEnvelope`, and what `Enqueue` accepts.
 */
module BridgeRead {
  import opened Text
  import opened BridgeEnvelope
  import opened BridgeSource
  import opened BridgeRetry

  datatype Header = Header(id: string, thread: string, from: string)

  datatype Config = Config(
    sourceHost: string,
    sourceHandle: string,
    destAlias: string,
    allowedDest: set<string>,
    keyGeneration: string,
    batch: nat,
    maxSize: nat,
    sha: Sha,
    parse: string -> Option<Header>,
    sign: string -> string)

  /** `fsq.ValidateMessageFilename`. */
  predicate ValidFilename(n: string) {
    IsMessageName(n) && '/' !in n && '\\' !in n && '\0' !in n
  }

  function EnvelopeFor(cfg: Config, alias: string, h: Header, payload: string): Envelope {
    var e := Envelope(1, TransferId(cfg.sha, cfg.sourceHost, h.id, alias), cfg.sourceHost, cfg.sourceHandle,
                      alias, h.id, h.thread, cfg.sha(payload), cfg.keyGeneration, "", payload);
    e.(signature := cfg.sign(CanonicalBytes(e)))
  }

  /** The sidecar decides the destination; a missing one means the configured default. */
  function AliasFor(cfg: Config, sidecar: Option<string>): Option<string> {
    if sidecar.None? then Some(cfg.destAlias)
    else
      var a := Trim(sidecar.value);
      if ParseAlias(a).Some? && a in cfg.allowedDest then Some(a) else None
  }

  predicate GoodMessage(cfg: Config, data: string) {
    && |data| <= cfg.maxSize
    && cfg.parse(data).Some?
    && Trimmed(cfg.parse(data).value.id)
    && Trimmed(cfg.parse(data).value.thread)
    && cfg.parse(data).value.from == cfg.sourceHandle
  }

  function Read(cfg: Config, name: string, data: string, sidecar: Option<string>): Option<Envelope> {
    var alias := AliasFor(cfg, sidecar);
    if !ValidFilename(name) || !GoodMessage(cfg, data) || alias.None? then None
    else
      var e := EnvelopeFor(cfg, alias.value, cfg.parse(data).value, data);
      if ValidEnvelope(cfg.sha, e) then Some(e) else None
  }

  predicate Accepts(cfg: Config, name: string, data: string, alias: string) {
    && Trimmed(alias) && ParseAlias(alias).Some? && alias in cfg.allowedDest
    && data != "" && GoodMessage(cfg, data)
    && name == cfg.parse(data).value.id + ".md" && ValidFilename(name)
  }

  function ParamsOf(cfg: Config): Params {
    Params((n, d, s) => Read(cfg, n, d, s), (n, d, a) => Accepts(cfg, n, d, a), cfg.batch)
  }

  /** What the courier reads back from a sidecar is what `Enqueue` wrote into it. */
  lemma SidecarRoundTrip(alias: string)
    requires Trimmed(alias)
    ensures Trim(LabelLine(alias)) == alias
  {
    var s := LabelLine(alias);
    assert s[0] == alias[0] && TrimLeft(s) == s;
    assert s[|s| - 1] == '\n' && s[..|s| - 1] == alias;
    assert TrimRight(alias) == alias;
  }

  lemma OwnAlias(cfg: Config, alias: string)
    requires Trimmed(alias) && ParseAlias(alias).Some? && alias in cfg.allowedDest
    ensures AliasFor(cfg, Some(LabelLine(alias))) == Some(alias)
  {
    SidecarRoundTrip(alias);
  }

  // ---- exactly what the courier makes of a file ----

  /** The destination that a sidecar, or its absence, stands for. */
  predicate Destined(cfg: Config, sidecar: Option<string>, alias: string) {
    && ParseAlias(alias).Some?
    && match sidecar
       case None => alias == cfg.destAlias
       case Some(line) => alias == Trim(line) && alias in cfg.allowedDest
  }

  /** The message the file holds can be sent at all. */
  predicate SoundFile(cfg: Config, name: string, data: string) {
    && IsMessageName(name) && '/' !in name && '\\' !in name && '\0' !in name
    && 0 < |data| <= cfg.maxSize && cfg.parse(data).Some?
    && var h := cfg.parse(data).value;
       Trimmed(h.id) && Trimmed(h.thread) && h.from == cfg.sourceHandle
  }

  /** The identity under which the courier sends is in order. */
  predicate GoodIdentity(cfg: Config) {
    ValidHandle(cfg.sourceHost) && ValidHandle(cfg.sourceHandle) && Trimmed(cfg.keyGeneration)
  }

  /** Every field of the envelope, in terms of the configuration and the message. */
  predicate HasFields(cfg: Config, data: string, e: Envelope)
    requires cfg.parse(data).Some?
  {
    && e.version == 1
    && e.sourceHost == cfg.sourceHost && e.sourceHandle == cfg.sourceHandle && e.keyGeneration == cfg.keyGeneration
    && e.messageId == cfg.parse(data).value.id && e.threadId == cfg.parse(data).value.thread
    && e.payload == data && e.payloadSha == cfg.sha(data)
    && e.transferId == "xfer-" + cfg.sha(e.sourceHost + "\0" + e.messageId + "\0" + e.destAlias)[..32]
    && e.signature == cfg.sign(CanonicalBytes(e)) && IsSignatureText(e.signature)
  }

  lemma CourierIdIsValid(t: string)
    requires IsCourierId(t)
    ensures ValidTransferId(t) && Trimmed(t)
  {
    assert t == ID_PREFIX + t[5..];
    forall c | c in t ensures HandleChar(c) {
      assert c in ID_PREFIX || c in t[5..];
    }
    assert t[0] == 'x' && t[36] == t[5..][31] && t[36] in t[5..];
  }

  lemma AliasIsTrimmed(alias: string)
    requires ParseAlias(alias).Some?
    ensures Trimmed(alias)
  {
    var a := ParseAlias(alias).value;
    AliasRoundTrip(alias, a);
    HandleIsPlain(a.host);
    HandleIsPlain(a.agent);
    assert alias[0] == a.host[0] && alias[|alias| - 1] == a.agent[|a.agent| - 1];
  }

  lemma SignatureIsTrimmed(s: string)
    requires IsSignatureText(s)
    ensures Trimmed(s)
  {
    assert s[0] in s && s[127] in s;
    assert LowerHex(Lower(s[0])) && LowerHex(Lower(s[127]));
  }

  /** An envelope with these fields is valid exactly when the identity, the destination and the payload are. */
  lemma FieldsAreValid(cfg: Config, data: string, e: Envelope)
    requires cfg.parse(data).Some? && HasFields(cfg, data, e)
    requires Trimmed(e.messageId) && Trimmed(e.threadId)
    ensures ValidEnvelope(cfg.sha, e) <==> GoodIdentity(cfg) && ParseAlias(e.destAlias).Some? && data != ""
  {
    hide CanonicalBytes, IsSignatureText, ParseAlias, ValidTransferId, ToLower, IsCourierId, IsDigest, Trimmed,
         ValidHandle;
    TransferIdIsCourierId(cfg.sha, e.sourceHost, e.messageId, e.destAlias);
    CourierIdIsValid(e.transferId);
    SignatureIsTrimmed(e.signature);
    DigestOf(cfg.sha, data);
    if ParseAlias(e.destAlias).Some? { AliasIsTrimmed(e.destAlias); }
    if ValidHandle(cfg.sourceHost) { HandleIsPlain(cfg.sourceHost); }
    if ValidHandle(cfg.sourceHandle) { HandleIsPlain(cfg.sourceHandle); }
  }

  lemma DigestOf(sha: Sha, data: string)
    ensures Trimmed(sha(data))
  {
    assert IsDigest(sha(data));
    DigestIsTrimmed(sha(data));
  }

  /** The signature is not part of what is signed. */
  lemma UnsignedBytes(e: Envelope, signature: string)
    ensures CanonicalBytes(e.(signature := signature)) == CanonicalBytes(e)
  {
  }

  lemma IdIsSpelled(sha: Sha, host: string, id: string, alias: string)
    ensures TransferId(sha, host, id, alias) == "xfer-" + sha(host + "\0" + id + "\0" + alias)[..32]
  {
  }

  /** The envelope made has these fields. */
  lemma MadeHasFields(cfg: Config, alias: string, data: string)
    requires cfg.parse(data).Some?
    requires IsSignatureText(EnvelopeFor(cfg, alias, cfg.parse(data).value, data).signature)
    ensures var made := EnvelopeFor(cfg, alias, cfg.parse(data).value, data);
            HasFields(cfg, data, made) && made.destAlias == alias
  {
    hide CanonicalBytes, IsSignatureText, TransferId;
    var made := EnvelopeFor(cfg, alias, cfg.parse(data).value, data);
    UnsignedBytes(made, "");
    IdIsSpelled(cfg.sha, cfg.sourceHost, cfg.parse(data).value.id, alias);
  }

  /** And no other envelope has. */
  lemma FieldsMakeIt(cfg: Config, data: string, e: Envelope)
    requires cfg.parse(data).Some? && HasFields(cfg, data, e)
    ensures e == EnvelopeFor(cfg, e.destAlias, cfg.parse(data).value, data) && IsSignatureText(e.signature)
  {
    hide CanonicalBytes, IsSignatureText, TransferId;
    UnsignedBytes(e, "");
    IdIsSpelled(cfg.sha, cfg.sourceHost, cfg.parse(data).value.id, e.destAlias);
  }

  lemma MadeFields(cfg: Config, alias: string, data: string, e: Envelope)
    requires cfg.parse(data).Some?
    ensures var made := EnvelopeFor(cfg, alias, cfg.parse(data).value, data);
            HasFields(cfg, data, e) && e.destAlias == alias <==> e == made && IsSignatureText(made.signature)
  {
    hide EnvelopeFor, HasFields, IsSignatureText;
    var made := EnvelopeFor(cfg, alias, cfg.parse(data).value, data);
    if HasFields(cfg, data, e) { FieldsMakeIt(cfg, data, e); }
    if IsSignatureText(made.signature) { MadeHasFields(cfg, alias, data); }
  }

  lemma DestinedIsAlias(cfg: Config, sidecar: Option<string>, alias: string)
    ensures Destined(cfg, sidecar, alias) <==> AliasFor(cfg, sidecar) == Some(alias) && ParseAlias(alias).Some?
  {
    hide ParseAlias, Trim;
  }

  lemma ReadGives(cfg: Config, name: string, data: string, sidecar: Option<string>, e: Envelope)
    requires Read(cfg, name, data, sidecar) == Some(e)
    ensures SoundFile(cfg, name, data) && GoodIdentity(cfg) && Destined(cfg, sidecar, e.destAlias)
    ensures HasFields(cfg, data, e)
  {
    hide CanonicalBytes, IsSignatureText, ParseAlias, ValidHandle, Trimmed, AliasFor, EnvelopeFor, ValidEnvelope,
         HasFields, Destined, IsMessageName;
    MadeFields(cfg, AliasFor(cfg, sidecar).value, data, e);
    ValidSignature(cfg.sha, e);
    SameHeader(cfg, data, e);
    FieldsAreValid(cfg, data, e);
    DestinedIsAlias(cfg, sidecar, e.destAlias);
  }

  lemma FileGives(cfg: Config, name: string, data: string, sidecar: Option<string>, e: Envelope)
    requires SoundFile(cfg, name, data) && GoodIdentity(cfg) && Destined(cfg, sidecar, e.destAlias)
    requires HasFields(cfg, data, e)
    ensures Read(cfg, name, data, sidecar) == Some(e)
  {
    hide CanonicalBytes, IsSignatureText, ParseAlias, ValidHandle, Trimmed, AliasFor, EnvelopeFor, ValidEnvelope,
         HasFields, Destined, IsMessageName;
    DestinedIsAlias(cfg, sidecar, e.destAlias);
    MadeFields(cfg, e.destAlias, data, e);
    SameHeader(cfg, data, e);
    FieldsAreValid(cfg, data, e);
  }

  /**
   The courier makes an envelope of a spool file exactly when the message, the destination its sidecar stands for
   and the courier's own identity are in order, and then every field is the one asked for.
   */
  lemma ReadExactly(cfg: Config, name: string, data: string, sidecar: Option<string>, e: Envelope)
    ensures Read(cfg, name, data, sidecar) == Some(e) <==>
            && SoundFile(cfg, name, data) && GoodIdentity(cfg) && Destined(cfg, sidecar, e.destAlias)
            && HasFields(cfg, data, e)
  {
    hide Read, SoundFile, GoodIdentity, Destined, HasFields;
    if Read(cfg, name, data, sidecar) == Some(e) { ReadGives(cfg, name, data, sidecar, e); }
    if SoundFile(cfg, name, data) && GoodIdentity(cfg) && Destined(cfg, sidecar, e.destAlias) {
      SoundParses(cfg, name, data);
      if HasFields(cfg, data, e) { FileGives(cfg, name, data, sidecar, e); }
    }
  }

  lemma SoundParses(cfg: Config, name: string, data: string)
    requires SoundFile(cfg, name, data)
    ensures cfg.parse(data).Some?
  {
  }

  lemma ValidSignature(sha: Sha, e: Envelope)
    requires ValidEnvelope(sha, e)
    ensures IsSignatureText(e.signature)
  {
  }

  lemma SameHeader(cfg: Config, data: string, e: Envelope)
    requires cfg.parse(data).Some? && HasFields(cfg, data, e)
    ensures e.messageId == cfg.parse(data).value.id && e.threadId == cfg.parse(data).value.thread
  {
  }

  /** The transfer of an enqueued message: addressed as its sender asked, with every field its own. */
  lemma OwnEnvelope(cfg: Config, name: string, data: string, alias: string, e: Envelope)
    requires Accepts(cfg, name, data, alias)
    requires Read(cfg, name, data, Some(LabelLine(alias))) == Some(e)
    ensures e.destAlias == alias && cfg.parse(data).Some? && HasFields(cfg, data, e) && ValidEnvelope(cfg.sha, e)
  {
    hide HasFields, ParseAlias, Trimmed, IsMessageName, LabelLine, ValidEnvelope, Trim;
    SidecarRoundTrip(alias);
    ReadExactly(cfg, name, data, Some(LabelLine(alias)), e);
    ReadIsValid(cfg, name, data, Some(LabelLine(alias)), e);
  }

  lemma ReadIsValid(cfg: Config, name: string, data: string, sidecar: Option<string>, e: Envelope)
    requires Read(cfg, name, data, sidecar) == Some(e)
    ensures ValidEnvelope(cfg.sha, e)
  {
    hide ValidFilename, GoodMessage, ValidEnvelope, EnvelopeFor, AliasFor;
  }

  /** Signatures come out well formed, as those of Ed25519 do. */
  ghost predicate SignsWell(cfg: Config) {
    forall x :: IsSignatureText(cfg.sign(x))
  }

  /** `Enqueue` accepts exactly the messages that the courier can then send where their sender asked. */
  lemma AcceptsExactly(cfg: Config, name: string, data: string, alias: string)
    requires GoodIdentity(cfg) && SignsWell(cfg)
    ensures Accepts(cfg, name, data, alias) <==>
            && Trimmed(alias) && Read(cfg, name, data, Some(LabelLine(alias))).Some?
            && cfg.parse(data).Some? && name == cfg.parse(data).value.id + ".md"
  {
    var line := Some(LabelLine(alias));
    if Trimmed(alias) { SidecarRoundTrip(alias); }
    hide HasFields, ParseAlias, Trimmed, IsMessageName, LabelLine, Trim, CanonicalBytes, IsSignatureText, ValidHandle,
         EnvelopeFor, Read, AliasFor;
    if Read(cfg, name, data, line).Some? { ReadExactly(cfg, name, data, line, Read(cfg, name, data, line).value); }
    if Accepts(cfg, name, data, alias) {
      var made := EnvelopeFor(cfg, alias, cfg.parse(data).value, data);
      assert IsSignatureText(made.signature) && made.destAlias == alias by { MadeSignature(cfg, alias, data); }
      MadeFields(cfg, alias, data, made);
      ReadExactly(cfg, name, data, line, made);
    }
  }

  lemma MadeSignature(cfg: Config, alias: string, data: string)
    requires cfg.parse(data).Some? && SignsWell(cfg)
    ensures var made := EnvelopeFor(cfg, alias, cfg.parse(data).value, data);
            IsSignatureText(made.signature) && made.destAlias == alias
  {
    hide CanonicalBytes, TransferId, IsSignatureText;
  }

  /** The courier read the whole message, and a sidecar, or none, that names the destination its sender asked for. */
  predicate WholeRead(cfg: Config, c: Call, i: Item) {
    i.data == c.data && AliasFor(cfg, i.sidecar) == Some(c.alias)
  }

  lemma ReadFields(cfg: Config, name: string, data: string, sidecar: Option<string>, e: Envelope)
    requires Read(cfg, name, data, sidecar) == Some(e)
    ensures e.payload == data && AliasFor(cfg, sidecar) == Some(e.destAlias)
  {
    hide ValidFilename, GoodMessage, ValidEnvelope, TransferId, CanonicalBytes;
  }

  /** A sidecar counts only by the destination it names. */
  lemma ReadByAlias(cfg: Config, name: string, data: string, a: Option<string>, b: Option<string>)
    requires AliasFor(cfg, a) == AliasFor(cfg, b)
    ensures Read(cfg, name, data, a) == Read(cfg, name, data, b)
  {
    hide ValidFilename, GoodMessage, ValidEnvelope, EnvelopeFor, AliasFor;
  }

  /** What the courier made of a file is the sender's own transfer if and only if it read it whole. */
  lemma OwnExactly(cfg: Config, c: Call, i: Item)
    requires Accepts(cfg, c.name, c.data, c.alias) && i.name == c.name
    requires Read(cfg, i.name, i.data, i.sidecar) == Some(i.env)
    ensures Own(ParamsOf(cfg), c) == Some(i.env) <==> WholeRead(cfg, c, i)
  {
    OwnAlias(cfg, c.alias);
    var line := Some(LabelLine(c.alias));
    ReadFields(cfg, i.name, i.data, i.sidecar, i.env);
    if WholeRead(cfg, c, i) { ReadByAlias(cfg, i.name, i.data, i.sidecar, line); }
    if Read(cfg, c.name, c.data, line) == Some(i.env) { ReadFields(cfg, c.name, c.data, line, i.env); }
    hide Read, AliasFor, Accepts, LabelLine;
  }
}
