/**
 The amq-bridge wire unit: handles, aliases, file names, validation and the
 canonical bytes that are signed.  SHA-256 is an arbitrary function with the
 right output shape.
 */
module BridgeEnvelope {
  import opened Text

  // ---- handles and aliases ----

  predicate HandleChar(c: char) {
    'a' <= c <= 'z' || '0' <= c <= '9' || c == '_' || c == '-'
  }

  /** `fsq.ValidateHandle`: one path component of `[a-z0-9_-]+` without a leading dash. */
  predicate ValidHandle(h: string) {
    h != "" && h[0] != '-' && forall c :: c in h ==> HandleChar(c)
  }

  datatype Alias = Alias(host: string, agent: string)

  /** `ParseAlias`: a destination is exactly `host/agent`. */
  function ParseAlias(alias: string): Option<Alias> {
    var i := IndexOf(alias, '/');
    if i == |alias| || '/' in alias[i + 1..] then None
    else if !ValidHandle(alias[..i]) || !ValidHandle(alias[i + 1..]) then None
    else Some(Alias(alias[..i], alias[i + 1..]))
  }

  /** The accepted aliases are precisely the renderings of two valid handles, each read back as such. */
  lemma AliasRoundTrip(alias: string, a: Alias)
    ensures ParseAlias(alias) == Some(a) <==>
            ValidHandle(a.host) && ValidHandle(a.agent) && alias == a.host + "/" + a.agent
  {
    var i := IndexOf(alias, '/');
    if ValidHandle(a.host) && ValidHandle(a.agent) && alias == a.host + "/" + a.agent {
      assert '/' !in a.host && '/' !in a.agent;
      assert alias[|a.host|] == '/';
      assert i < |alias|;
      assert alias == alias[..i] + "/" + alias[i + 1..];
      CutUnique(alias[..i], a.host, alias[i + 1..], a.agent, '/');
    }
    if ParseAlias(alias) == Some(a) {
      assert alias == alias[..i] + "/" + alias[i + 1..];
    }
  }

  // ---- hexadecimal digests ----

  predicate LowerHex(c: char) {
    '0' <= c <= '9' || 'a' <= c <= 'f'
  }

  predicate IsDigest(s: string) {
    |s| == 64 && forall c :: c in s ==> LowerHex(c)
  }

  const ZERO_DIGEST := seq(64, i => '0')

  /** SHA-256 rendered in lower-case hexadecimal, otherwise unspecified. */
  type Sha = f: string -> string | (forall x: string :: IsDigest(f(x))) witness (x: string) => ZERO_DIGEST

  lemma DigestIsLowerCase(d: string)
    requires IsDigest(d)
    ensures ToLower(d) == d
  {
    forall i | 0 <= i < |d| ensures Lower(d[i]) == d[i] {
      assert d[i] in d;
    }
  }

  // ---- transfer ids and file names ----

  const ID_PREFIX := "xfer-"

  /** The id the courier derives: a truncated digest of host, message id and destination. */
  function TransferId(sha: Sha, sourceHost: string, messageId: string, alias: string): string {
    ID_PREFIX + sha(sourceHost + "\0" + messageId + "\0" + alias)[..32]
  }

  predicate IsCourierId(t: string) {
    && |t| == 37 && t[..5] == ID_PREFIX
    && forall c :: c in t[5..] ==> LowerHex(c)
  }

  function TransferFilename(sourceHost: string, transferId: string): string {
    "xfer-" + sourceHost + "-" + transferId + ".md"
  }

  /** `t1` starts with what `h2` has beyond `h1-`, so that the two names spell the same text. */
  predicate Shifted(h1: string, t1: string, h2: string, t2: string) {
    |h1| < |h2| && h2[..|h1|] == h1 && h2[|h1|] == '-' && t1 == h2[|h1| + 1..] + "-" + t2
  }

  lemma TransferIdIsCourierId(sha: Sha, sourceHost: string, messageId: string, alias: string)
    ensures IsCourierId(TransferId(sha, sourceHost, messageId, alias))
  {
    var x := sourceHost + "\0" + messageId + "\0" + alias;
    assert IsDigest(sha(x));
    var t := TransferId(sha, sourceHost, messageId, alias);
    assert t[5..] == sha(x)[..32];
    forall c | c in t[5..] ensures LowerHex(c) {
      assert c in sha(x);
    }
  }

  /** Exactly when two (host, id) pairs share one inbox file name. */
  lemma TransferFilenameCollision(h1: string, t1: string, h2: string, t2: string)
    ensures TransferFilename(h1, t1) == TransferFilename(h2, t2) <==>
            (h1 == h2 && t1 == t2) || Shifted(h1, t1, h2, t2) || Shifted(h2, t2, h1, t1)
  {
    var a, b := h1 + "-" + t1, h2 + "-" + t2;
    assert TransferFilename(h1, t1) == "xfer-" + a + ".md";
    assert TransferFilename(h2, t2) == "xfer-" + b + ".md";
    assert a == TransferFilename(h1, t1)[5..|a| + 5];
    assert b == TransferFilename(h2, t2)[5..|b| + 5];
    if TransferFilename(h1, t1) == TransferFilename(h2, t2) {
      assert a == b;
      if |h1| <= |h2| {
        SameSpelling(h1, t1, h2, t2);
      } else {
        SameSpelling(h2, t2, h1, t1);
      }
    } else {
      if Shifted(h1, t1, h2, t2) {
        ShiftSpells(h1, t1, h2, t2);
      } else if Shifted(h2, t2, h1, t1) {
        ShiftSpells(h2, t2, h1, t1);
      }
    }
  }

  lemma ShiftSpells(h1: string, t1: string, h2: string, t2: string)
    requires Shifted(h1, t1, h2, t2)
    ensures h1 + "-" + t1 == h2 + "-" + t2
  {
    assert h2 == h1 + "-" + h2[|h1| + 1..];
  }

  lemma SameSpelling(h1: string, t1: string, h2: string, t2: string)
    requires h1 + "-" + t1 == h2 + "-" + t2
    requires |h1| <= |h2|
    ensures (h1 == h2 && t1 == t2) || Shifted(h1, t1, h2, t2)
  {
    var a := h1 + "-" + t1;
    assert h1 == a[..|h1|] && t1 == a[|h1| + 1..] && a[|h1|] == '-';
    assert h2 == a[..|h2|] && t2 == a[|h2| + 1..] && a[|h2|] == '-';
    if |h1| < |h2| {
      assert t1 == a[|h1| + 1..|h2|] + "-" + a[|h2| + 1..];
      assert h2[|h1| + 1..] == a[|h1| + 1..|h2|];
    }
  }

  /** The documented key (source_host, transfer_id) is not injective: two valid pairs share one file. */
  lemma TransferKeyIsAmbiguous()
    ensures ValidHandle("a") && ValidHandle("b-c") && ValidHandle("a-b") && ValidHandle("c")
    ensures TransferFilename("a", "b-c") == TransferFilename("a-b", "c")
  {
    assert Shifted("a", "b-c", "a-b", "c");
    TransferFilenameCollision("a", "b-c", "a-b", "c");
  }

  /** On ids made by couriers the file name determines both host and id. */
  lemma CourierFilenamesInjective(h1: string, t1: string, h2: string, t2: string)
    requires IsCourierId(t1) && IsCourierId(t2)
    requires TransferFilename(h1, t1) == TransferFilename(h2, t2)
    ensures h1 == h2 && t1 == t2
  {
    TransferFilenameCollision(h1, t1, h2, t2);
  }

  datatype Stage = TransportAccepted | DestinationCommitted

  function StageName(s: Stage): string {
    match s
    case TransportAccepted => "transport_accepted"
    case DestinationCommitted => "destination_maildir_committed"
  }

  function ReceiptFilename(transferId: string, stage: Stage): string {
    transferId + "__" + StageName(stage) + ".json"
  }

  /** A receipt file name determines the transfer and the stage, whatever the id contains. */
  lemma ReceiptFilenameInjective(t1: string, s1: Stage, t2: string, s2: Stage)
    requires ReceiptFilename(t1, s1) == ReceiptFilename(t2, s2)
    ensures t1 == t2 && s1 == s2
  {
    var r := ReceiptFilename(t1, s1);
    assert s1.TransportAccepted? ==> r[|r| - 9] == 'p';
    assert s1.DestinationCommitted? ==> r[|r| - 9] == 't';
    assert s2.TransportAccepted? ==> r[|r| - 9] == 'p';
    assert s2.DestinationCommitted? ==> r[|r| - 9] == 't';
    assert t1 == r[..|t1|] && t2 == r[..|t2|];
  }

  // ---- envelopes ----

  datatype Envelope = Envelope(
    version: int,
    transferId: string,
    sourceHost: string,
    sourceHandle: string,
    destAlias: string,
    messageId: string,
    threadId: string,
    payloadSha: string,
    keyGeneration: string,
    signature: string,
    payload: string)

  /** `hex.DecodeString` succeeds with 64 bytes. */
  predicate IsSignatureText(s: string) {
    |s| == 128 && forall c :: c in s ==> LowerHex(Lower(c))
  }

  /** `validateTransferID`. */
  predicate ValidTransferId(t: string) {
    '/' !in t && '\\' !in t && '.' !in t && ValidHandle(t)
  }

  predicate ValidEnvelope(sha: Sha, e: Envelope) {
    && e.version == 1
    && Trimmed(e.transferId) && Trimmed(e.sourceHost) && Trimmed(e.sourceHandle) && Trimmed(e.destAlias)
    && Trimmed(e.messageId) && Trimmed(e.threadId) && Trimmed(e.payloadSha) && Trimmed(e.keyGeneration)
    && Trimmed(e.signature)
    && ValidHandle(e.sourceHost) && ValidHandle(e.sourceHandle)
    && ParseAlias(e.destAlias).Some?
    && ValidTransferId(e.transferId)
    && EqualFold(e.payloadSha, sha(e.payload))
    && e.payload != ""
    && IsSignatureText(e.signature)
  }

  function Itoa(n: int): string
    decreases if n < 0 then 1 - n else n
  {
    if n < 0 then "-" + Itoa(-n)
    else if n < 10 then [n as char + '0']
    else Itoa(n / 10) + [(n % 10) as char + '0']
  }

  function CanonicalLines(e: Envelope): seq<string> {
    ["amq-bridge-envelope-v1",
     "version=" + Itoa(e.version),
     "transfer_id=" + e.transferId,
     "source_host=" + e.sourceHost,
     "source_handle=" + e.sourceHandle,
     "dest_alias=" + e.destAlias,
     "source_message_id=" + e.messageId,
     "thread_id=" + e.threadId,
     "payload_sha256=" + ToLower(e.payloadSha),
     "key_generation=" + e.keyGeneration]
  }

  /** The signed text. */
  function CanonicalBytes(e: Envelope): string {
    Join(CanonicalLines(e), '\n')
  }

  /** The three free-text fields that `ValidateEnvelope` only trims. */
  predicate LineSafe(e: Envelope) {
    NewlineFree(e.messageId) && NewlineFree(e.threadId) && NewlineFree(e.keyGeneration)
  }

  /** The fields a signature covers; the digest only up to letter case. */
  predicate SameSigned(a: Envelope, b: Envelope) {
    && a.version == b.version && a.transferId == b.transferId
    && a.sourceHost == b.sourceHost && a.sourceHandle == b.sourceHandle && a.destAlias == b.destAlias
    && a.messageId == b.messageId && a.threadId == b.threadId
    && EqualFold(a.payloadSha, b.payloadSha) && a.keyGeneration == b.keyGeneration
  }

  lemma HandleHasNoNewline(h: string)
    requires ValidHandle(h)
    ensures NewlineFree(h)
  {
  }

  /** Every line of a validated envelope with one-line fields is one line. */
  lemma ValidatedLinesAreLines(sha: Sha, e: Envelope)
    requires ValidEnvelope(sha, e) && LineSafe(e)
    ensures forall l :: l in CanonicalLines(e) ==> '\n' !in l
  {
    AliasHasNoNewline(e.destAlias);
    DigestHasNoNewline(sha, e.payload, e.payloadSha);
    HandleHasNoNewline(e.transferId);
    HandleHasNoNewline(e.sourceHost);
    HandleHasNoNewline(e.sourceHandle);
    OneLineFieldsMakeLines(e);
  }

  lemma OneLineFieldsMakeLines(e: Envelope)
    requires e.version == 1 && LineSafe(e)
    requires NewlineFree(e.transferId) && NewlineFree(e.sourceHost) && NewlineFree(e.sourceHandle)
    requires NewlineFree(e.destAlias) && NewlineFree(ToLower(e.payloadSha))
    ensures forall l :: l in CanonicalLines(e) ==> '\n' !in l
  {
    hide ToLower;
    var lines := CanonicalLines(e);
    forall i | 0 <= i < |lines| ensures NewlineFree(lines[i]) {
      match i
      case 0 =>
      case 1 => KeyedLine("version=", Itoa(1));
      case 2 => KeyedLine("transfer_id=", e.transferId);
      case 3 => KeyedLine("source_host=", e.sourceHost);
      case 4 => KeyedLine("source_handle=", e.sourceHandle);
      case 5 => KeyedLine("dest_alias=", e.destAlias);
      case 6 => KeyedLine("source_message_id=", e.messageId);
      case 7 => KeyedLine("thread_id=", e.threadId);
      case 8 => KeyedLine("payload_sha256=", ToLower(e.payloadSha));
      case _ => KeyedLine("key_generation=", e.keyGeneration);
    }
  }

  lemma KeyedLine(key: string, value: string)
    requires NewlineFree(key) && NewlineFree(value)
    ensures NewlineFree(key + value)
  {
  }

  lemma AliasHasNoNewline(alias: string)
    requires ParseAlias(alias).Some?
    ensures NewlineFree(alias)
  {
    var a := ParseAlias(alias).value;
    AliasRoundTrip(alias, a);
    HandleHasNoNewline(a.host);
    HandleHasNoNewline(a.agent);
  }

  lemma DigestHasNoNewline(sha: Sha, payload: string, digest: string)
    requires EqualFold(digest, sha(payload))
    ensures ToLower(digest) == sha(payload) && NewlineFree(ToLower(digest))
  {
    assert IsDigest(sha(payload));
    DigestIsLowerCase(sha(payload));
  }

  /** The lines of two envelopes determine their signed fields. */
  lemma LinesDetermineFields(a: Envelope, b: Envelope)
    requires a.version == b.version && CanonicalLines(a) == CanonicalLines(b)
    ensures SameSigned(a, b)
  {
    hide Itoa, ToLower;
    var x, y := CanonicalLines(a), CanonicalLines(b);
    assert x[2] == y[2] && x[3] == y[3] && x[4] == y[4] && x[5] == y[5];
    assert x[6] == y[6] && x[7] == y[7] && x[8] == y[8] && x[9] == y[9];
    PrefixCancels("transfer_id=", a.transferId, b.transferId);
    PrefixCancels("source_host=", a.sourceHost, b.sourceHost);
    PrefixCancels("source_handle=", a.sourceHandle, b.sourceHandle);
    PrefixCancels("dest_alias=", a.destAlias, b.destAlias);
    PrefixCancels("source_message_id=", a.messageId, b.messageId);
    PrefixCancels("thread_id=", a.threadId, b.threadId);
    PrefixCancels("payload_sha256=", ToLower(a.payloadSha), ToLower(b.payloadSha));
    PrefixCancels("key_generation=", a.keyGeneration, b.keyGeneration);
  }

  /** Equal signed bytes mean equal signed fields, for validated envelopes with one-line fields. */
  lemma CanonicalBytesInjective(sha: Sha, a: Envelope, b: Envelope)
    requires ValidEnvelope(sha, a) && LineSafe(a)
    requires ValidEnvelope(sha, b) && LineSafe(b)
    requires CanonicalBytes(a) == CanonicalBytes(b)
    ensures SameSigned(a, b)
    ensures sha(a.payload) == sha(b.payload)
  {
    ValidatedLinesAreLines(sha, a);
    ValidatedLinesAreLines(sha, b);
    assert a.version == b.version == 1;
    DigestHasNoNewline(sha, a.payload, a.payloadSha);
    DigestHasNoNewline(sha, b.payload, b.payloadSha);
    hide ValidEnvelope, Join, ToLower;
    assert |CanonicalLines(a)| == |CanonicalLines(b)| == 10;
    hide CanonicalLines;
    JoinInjective(CanonicalLines(a), CanonicalLines(b), '\n');
    LinesDetermineFields(a, b);
  }

  /** What a valid handle is not made of. */
  lemma HandleIsPlain(h: string)
    requires ValidHandle(h)
    ensures Trimmed(h) && NewlineFree(h) && '/' !in h && '\\' !in h && '.' !in h
  {
    assert h[0] in h && h[|h| - 1] in h;
    assert HandleChar(h[0]) && HandleChar(h[|h| - 1]);
  }

  lemma DigestIsTrimmed(d: string)
    requires IsDigest(d)
    ensures Trimmed(d)
  {
    assert d[0] in d && d[63] in d;
    assert LowerHex(d[0]) && LowerHex(d[63]);
  }

  /** Envelopes that meet every check exist, for every handle, payload and digest function. */
  lemma SomeEnvelopeIsValid(sha: Sha, h: string, payload: string) returns (e: Envelope)
    requires ValidHandle(h) && payload != ""
    ensures ValidEnvelope(sha, e) && LineSafe(e) && e.payload == payload && e.sourceHost == h
  {
    var zeros := seq(128, i => '0');
    e := Envelope(1, h, h, h, h + "/" + h, h, h, sha(payload), h, zeros, payload);
    HandleIsPlain(h);
    assert forall c :: c in zeros ==> c == '0';
    assert IsSignatureText(zeros) && Trimmed(zeros);
    AliasRoundTrip(e.destAlias, Alias(h, h));
    assert e.destAlias[0] == h[0] && e.destAlias[|e.destAlias| - 1] == h[|h| - 1];
    assert IsDigest(sha(payload));
    DigestIsTrimmed(sha(payload));
    hide ValidHandle, IsDigest, ToLower, IsSignatureText, ParseAlias, IsSpace;
    assert Trimmed(e.destAlias);
  }

  const THREAD_MARK := "\nthread_id="

  /** The envelope whose message id is cut at a thread marker inside it. */
  function Recut(e: Envelope, left: string, right: string): Envelope {
    e.(messageId := left, threadId := right + THREAD_MARK + e.threadId)
  }

  /**
   One-line fields are needed: every validated envelope whose message id holds a thread marker between
   non-blank trimmed texts shares its signed bytes with a different validated envelope.
   */
  lemma MarkedMessageIdIsAmbiguous(sha: Sha, e: Envelope, left: string, right: string)
    requires ValidEnvelope(sha, e)
    requires e.messageId == left + THREAD_MARK + right
    requires Trimmed(left) && Trimmed(right)
    ensures ValidEnvelope(sha, Recut(e, left, right))
    ensures CanonicalBytes(Recut(e, left, right)) == CanonicalBytes(e)
    ensures !SameSigned(Recut(e, left, right), e) && !LineSafe(e)
  {
    assert e.messageId[|left|] == '\n';
    assert |left| < |e.messageId|;
    RecutIsValid(sha, e, left, right);
    RecutSpellsTheSame(e, left, right);
  }

  lemma RecutIsValid(sha: Sha, e: Envelope, left: string, right: string)
    requires ValidEnvelope(sha, e) && Trimmed(left) && Trimmed(right)
    ensures ValidEnvelope(sha, Recut(e, left, right))
  {
    var t := right + THREAD_MARK + e.threadId;
    assert t[0] == right[0] && t[|t| - 1] == e.threadId[|e.threadId| - 1];
  }

  lemma RecutSpellsTheSame(e: Envelope, left: string, right: string)
    requires e.messageId == left + THREAD_MARK + right
    ensures CanonicalBytes(Recut(e, left, right)) == CanonicalBytes(e)
  {
    var x, y := CanonicalLines(Recut(e, left, right)), CanonicalLines(e);
    assert x[6] + "\n" + x[7] == y[6] + "\n" + y[7] by {
      MarkerMoves("source_message_id=" + left, right, e.threadId);
      assert x[6] == "source_message_id=" + left && x[7] == "thread_id=" + (right + THREAD_MARK + e.threadId);
      assert y[6] == ("source_message_id=" + left) + THREAD_MARK + right && y[7] == "thread_id=" + e.threadId;
    }
    assert x[..6] == y[..6] && x[8..] == y[8..];
    JoinSplit(x, 6);
    JoinSplit(y, 6);
    JoinTwo(x[6..]);
    JoinTwo(y[6..]);
    assert x[6..][2..] == x[8..] && y[6..][2..] == y[8..];
    assert x[6..][0] == x[6] && x[6..][1] == x[7] && y[6..][0] == y[6] && y[6..][1] == y[7];
  }

  lemma MarkerMoves(left: string, right: string, thread: string)
    ensures left + "\n" + ("thread_id=" + (right + THREAD_MARK + thread))
            == (left + THREAD_MARK + right) + "\n" + ("thread_id=" + thread)
  {
    assert THREAD_MARK == "\n" + "thread_id=";
    var m := THREAD_MARK;
    assert left + "\n" + ("thread_id=" + (right + m + thread)) == left + m + right + m + thread;
  }

  /** Joining in two stages. */
  lemma {:induction false} JoinSplit(parts: seq<string>, k: nat)
    requires 0 < k < |parts|
    ensures Join(parts, '\n') == Join(parts[..k], '\n') + "\n" + Join(parts[k..], '\n')
  {
    if k == 1 {
      assert parts[..1] == [parts[0]];
    } else {
      JoinSplit(parts[1..], k - 1);
      assert parts[1..][..k - 1] == parts[..k][1..] && parts[1..][k - 1..] == parts[k..];
      assert Join(parts[..k], '\n') == parts[0] + "\n" + Join(parts[..k][1..], '\n');
    }
  }

  lemma JoinFirst(parts: seq<string>)
    requires |parts| > 1
    ensures Join(parts, '\n') == parts[0] + "\n" + Join(parts[1..], '\n')
  {
  }

  lemma JoinTwo(parts: seq<string>)
    requires |parts| > 2
    ensures Join(parts, '\n') == (parts[0] + "\n" + parts[1]) + "\n" + Join(parts[2..], '\n')
  {
    hide Join;
    JoinFirst(parts);
    JoinFirst(parts[1..]);
    assert parts[1..][1..] == parts[2..];
    assert parts[1..][0] == parts[1];
  }
}
