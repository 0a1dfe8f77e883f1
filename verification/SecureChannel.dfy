/** The secure channel: directional keys, the binary envelope
    [version(1)][sequence(8)][ciphertext and tag], and the receiver's replay check. */
module SecureChannels {
  import opened Json
  import opened ReplayWindows

  type byte = x: int | 0 <= x < 256
  type Bytes = seq<byte>

  const ENVELOPE_VERSION: byte := 1
  const ENVELOPE_HEADER: nat := 9
  const GCM_TAG_SIZE: nat := 16
  const NONCE_SIZE: nat := 12

  type Nonce = n: Bytes | |n| == NONCE_SIZE witness seq(NONCE_SIZE, _ => 0)

  /** An authenticated cipher: `seal(key, nonce, plaintext)` and its partial inverse. */
  datatype Aead = Aead(seal: (Bytes, Nonce, Bytes) -> Bytes, open: (Bytes, Nonce, Bytes) -> Option<Bytes>)

  ghost predicate Lawful(aead: Aead)
  {
    forall k: Bytes, n: Nonce, p: Bytes ::
      && |aead.seal(k, n, p)| == |p| + GCM_TAG_SIZE
      && aead.open(k, n, aead.seal(k, n, p)) == Some(p)
  }

  // ----- sequence numbers as bytes -----

  /** The big-endian representation of `v` in `n` bytes (high bytes dropped). */
  function BigEndian(v: nat, n: nat): (r: Bytes)
    ensures |r| == n
  {
    if n == 0 then [] else BigEndian(v / 256, n - 1) + [v % 256]
  }

  function FromBigEndian(b: Bytes): nat
  {
    if b == [] then 0 else 256 * FromBigEndian(b[..|b| - 1]) + b[|b| - 1]
  }

  function Pow256(n: nat): (p: nat)
    ensures p > 0
  {
    if n == 0 then 1 else 256 * Pow256(n - 1)
  }

  lemma ByteSplit(v: nat, p: nat)
    requires v < 256 * p
    ensures v / 256 < p && 256 * (v / 256) + v % 256 == v
  {
  }

  lemma {:induction false} BigEndianRoundTrip(v: nat, n: nat)
    requires v < Pow256(n)
    ensures FromBigEndian(BigEndian(v, n)) == v
  {
    if n > 0 {
      var high := BigEndian(v / 256, n - 1);
      var b := high + [v % 256];
      ByteSplit(v, Pow256(n - 1));
      BigEndianRoundTrip(v / 256, n - 1);
      assert BigEndian(v, n) == b && b[..|b| - 1] == high;
    }
  }

  lemma {:induction false} FromBigEndianBound(b: Bytes)
    ensures FromBigEndian(b) < Pow256(|b|)
  {
    if b != [] {
      FromBigEndianBound(b[..|b| - 1]);
    }
  }

  lemma Pow256Of8()
    ensures Pow256(8) == TWO64
  {
    assert Pow256(4) == 0x1_0000_0000;
  }

  // ----- nonces -----

  /** Exclusive or of the low `n` bits, bit by bit. */
  function Xor(a: nat, b: nat, n: nat): (r: nat)
    ensures r < Pow2(n)
  {
    if n == 0 then 0
    else 2 * Xor(a / 2, b / 2, n - 1) + if a % 2 != b % 2 then 1 else 0
  }

  function XorByte(a: byte, b: byte): byte
  {
    assert Pow2(8) == 256 by { assert Pow2(4) == 16; }
    Xor(a, b, 8)
  }

  lemma {:induction false} XorInjective(a: nat, b: nat, c: nat, n: nat)
    requires b < Pow2(n) && c < Pow2(n)
    requires Xor(a, b, n) == Xor(a, c, n)
    ensures b == c
  {
    if n > 0 {
      XorInjective(a / 2, b / 2, c / 2, n - 1);
    }
  }

  function SequenceBytes(s: uint64): Nonce
  {
    [0, 0, 0, 0] + BigEndian(s, 8)
  }

  /** The nonce of message `s`: the base nonce XORed with the padded sequence number. */
  function NonceOf(base: Nonce, s: uint64): Nonce
  {
    seq(NONCE_SIZE, i requires 0 <= i < NONCE_SIZE => XorByte(base[i], SequenceBytes(s)[i]))
  }

  method MakeNonce(base: Nonce, s: uint64) returns (nonce: array<byte>)
    ensures fresh(nonce) && nonce.Length == NONCE_SIZE
    ensures nonce[..] == NonceOf(base, s)
  {
    nonce := new byte[NONCE_SIZE](i requires 0 <= i < NONCE_SIZE => base[i]);
    var sequenceBytes := SequenceBytes(s);
    for i := 0 to NONCE_SIZE
      invariant forall k :: 0 <= k < i ==> nonce[k] == XorByte(base[k], sequenceBytes[k])
      invariant forall k :: i <= k < NONCE_SIZE ==> nonce[k] == base[k]
    {
      nonce[i] := XorByte(nonce[i], sequenceBytes[i]);
    }
  }

  /** Byte `i` of the big-endian representation. */
  lemma {:induction false} BigEndianByte(v: nat, n: nat, i: nat)
    requires i < n
    ensures BigEndian(v, n)[i] == v / Pow256(n - 1 - i) % 256
  {
    if i < n - 1 {
      BigEndianByte(v / 256, n - 1, i);
      DivideTwice(v, Pow256(n - 2 - i));
    }
  }

  lemma DivideTwice(v: nat, p: nat)
    requires p > 0
    ensures v / 256 / p == v / (256 * p)
  {
    var q, r := v / 256 / p, v / 256 % p;
    assert v == 256 * (p * q + r) + v % 256;
    assert v == (256 * p) * q + (256 * r + v % 256) by {
      assert 256 * (p * q) == (256 * p) * q;
    }
    assert 256 * r + v % 256 < 256 * p;
    QuotientIs(v, 256 * p, q, 256 * r + v % 256);
  }

  lemma QuotientIs(v: nat, d: nat, q: nat, r: nat)
    requires v == d * q + r && r < d
    ensures v / d == q
  {
    if v / d < q {
      MultiplesApart(d, v / d, q);
    } else if q < v / d {
      MultiplesApart(d, q, v / d);
    }
  }

  lemma {:induction false} MultiplesApart(d: nat, x: nat, y: nat)
    requires x < y
    ensures d * x + d <= d * y
    decreases y
  {
    assert d * y == d * (y - 1) + d;
    if x < y - 1 {
      MultiplesApart(d, x, y - 1);
    }
  }

  lemma {:induction false} XorBit(a: nat, b: nat, n: nat, k: nat)
    requires k < n
    ensures Bit(Xor(a, b, n), k) <==> Bit(a, k) != Bit(b, k)
  {
    var low := if a % 2 != b % 2 then 1 else 0;
    assert Xor(a, b, n) / 2 == Xor(a / 2, b / 2, n - 1) && Xor(a, b, n) % 2 == low;
    if k > 0 {
      XorBit(a / 2, b / 2, n - 1, k - 1);
    }
  }

  lemma {:induction false} XorZero(a: nat, n: nat)
    requires a < Pow2(n)
    ensures Xor(a, 0, n) == a
  {
    if n > 0 {
      XorZero(a / 2, n - 1);
    }
  }

  /** The nonce keeps the first four bytes of the base nonce. In each of the other eight a bit is that
      of the base nonce, turned over where the same byte of the big-endian sequence number has a one. */
  lemma NonceLayout(base: Nonce, s: uint64, i: nat)
    requires i < NONCE_SIZE
    ensures i < 4 ==> NonceOf(base, s)[i] == base[i]
    ensures i >= 4 ==> forall k: nat :: k < 8 ==>
              (Bit(NonceOf(base, s)[i], k) <==> Bit(base[i], k) != Bit(s / Pow256(11 - i) % 256, k))
  {
    assert Pow2(8) == 256 by { assert Pow2(4) == 16; }
    if i < 4 {
      XorZero(base[i], 8);
    } else {
      BigEndianByte(s, 8, i - 4);
      forall k: nat | k < 8 ensures Bit(NonceOf(base, s)[i], k) <==> Bit(base[i], k) != Bit(s / Pow256(11 - i) % 256, k) {
        XorBit(base[i], s / Pow256(11 - i) % 256, 8, k);
      }
    }
  }

  /** No two messages of a direction share a nonce. */
  lemma NonceUnique(base: Nonce, s: uint64, t: uint64)
    requires NonceOf(base, s) == NonceOf(base, t)
    ensures s == t
  {
    forall i: nat | i < 8
      ensures BigEndian(s, 8)[i] == BigEndian(t, 8)[i]
    {
      assert NonceOf(base, s)[i + 4] == NonceOf(base, t)[i + 4];
      assert Pow2(8) == 256 by { assert Pow2(4) == 16; }
      XorInjective(base[i + 4], SequenceBytes(s)[i + 4], SequenceBytes(t)[i + 4], 8);
    }
    assert BigEndian(s, 8) == BigEndian(t, 8);
    Pow256Of8();
    BigEndianRoundTrip(s, 8);
    BigEndianRoundTrip(t, 8);
  }

  // ----- the envelope -----

  function Envelope(aead: Aead, key: Bytes, base: Nonce, s: uint64, plaintext: Bytes): Bytes
  {
    [ENVELOPE_VERSION] + BigEndian(s, 8) + aead.seal(key, NonceOf(base, s), plaintext)
  }

  /** An envelope is the version byte 1, the sequence number in eight bytes, highest first, and what
      was sealed under the nonce of that number. */
  lemma EnvelopeLayout(aead: Aead, key: Bytes, base: Nonce, s: uint64, plaintext: Bytes)
    ensures var envelope := Envelope(aead, key, base, s, plaintext);
            && |envelope| >= 9 && envelope[0] == 1
            && (forall i :: 1 <= i <= 8 ==> envelope[i] == s / Pow256(8 - i) % 256)
            && envelope[9..] == aead.seal(key, NonceOf(base, s), plaintext)
  {
    var envelope := Envelope(aead, key, base, s, plaintext);
    forall i | 1 <= i <= 8 ensures envelope[i] == s / Pow256(8 - i) % 256 {
      BigEndianByte(s, 8, i - 1);
    }
  }

  datatype Parsed = TooShort | UnknownVersion(version: byte) | Header(sequence: uint64, body: Bytes)

  function Parse(envelope: Bytes): Parsed
  {
    if |envelope| < ENVELOPE_HEADER + GCM_TAG_SIZE then TooShort
    else if envelope[0] != ENVELOPE_VERSION then UnknownVersion(envelope[0])
    else
      FromBigEndianBound(envelope[1..9]);
      Pow256Of8();
      Header(FromBigEndian(envelope[1..9]), envelope[ENVELOPE_HEADER..])
  }

  /** An envelope has at least the header and the tag of the cipher, and version 1; the number is read
      from the next eight bytes, highest first. */
  lemma ParseMeans(envelope: Bytes)
    ensures Parse(envelope) == TooShort <==> |envelope| < 25
    ensures |envelope| >= 25 && envelope[0] != 1 ==> Parse(envelope) == UnknownVersion(envelope[0])
    ensures |envelope| >= 25 && envelope[0] == 1 ==>
              && Parse(envelope).Header? && Parse(envelope).body == envelope[9..]
              && BigEndian(Parse(envelope).sequence, 8) == envelope[1..9]
  {
    if |envelope| >= 25 {
      FromBigEndianBound(envelope[1..9]);
      Pow256Of8();
      BytesBack(envelope[1..9]);
    }
  }

  lemma {:induction false} BytesBack(b: Bytes)
    ensures BigEndian(FromBigEndian(b), |b|) == b
  {
    if b != [] {
      BytesBack(b[..|b| - 1]);
    }
  }

  lemma ParseEnvelope(aead: Aead, key: Bytes, base: Nonce, s: uint64, plaintext: Bytes)
    requires Lawful(aead)
    ensures Parse(Envelope(aead, key, base, s, plaintext))
         == Header(s, aead.seal(key, NonceOf(base, s), plaintext))
  {
    var envelope := Envelope(aead, key, base, s, plaintext);
    assert envelope[1..9] == BigEndian(s, 8);
    assert envelope[9..] == aead.seal(key, NonceOf(base, s), plaintext);
    Pow256Of8();
    BigEndianRoundTrip(s, 8);
  }

  datatype Outcome = Delivered(plaintext: Bytes) | Rejected

  /** The receiver's answer to one envelope, given the numbers it has accepted. The
      window is consulted, and updated, before the ciphertext is opened. */
  ghost function Received(aead: Aead, key: Bytes, base: Nonce, accepted: set<uint64>, envelope: Bytes)
    : (r: (Outcome, set<uint64>))
  {
    match Parse(envelope)
    case TooShort => (Rejected, accepted)
    case UnknownVersion(_) => (Rejected, accepted)
    case Header(s, body) =>
      if !Admissible(accepted, s) then (Rejected, accepted)
      else
        match aead.open(key, NonceOf(base, s), body)
        case None => (Rejected, accepted + {s})
        case Some(p) => (Delivered(p), accepted + {s})
  }

  /** Whatever is admitted counts as accepted before it is opened, and stays so when it does not open. */
  lemma ReceivedMeans(aead: Aead, key: Bytes, base: Nonce, accepted: set<uint64>, envelope: Bytes)
    requires Parse(envelope).Header?
    ensures var s, r := Parse(envelope).sequence, Received(aead, key, base, accepted, envelope);
            if Admissible(accepted, s)
            then r.1 == accepted + {s}
                 && r.0 == match aead.open(key, NonceOf(base, s), Parse(envelope).body) case None => Rejected case Some(p) => Delivered(p)
            else r == (Rejected, accepted)
  {
  }

  // ----- sessions -----

  /** Four outputs of the key derivation, in the order they are read from it. */
  datatype KeyMaterial = KeyMaterial(m2aKey: Bytes, a2mKey: Bytes, m2aNonce: Nonce, a2mNonce: Nonce)

  class Session {
    const aead: Aead
    const sendKey: Bytes
    const recvKey: Bytes
    const sendNonce: Nonce
    const recvNonce: Nonce
    var sendSeq: uint64
    const recvWindow: ReplayWindow

    /** Derives one end of a channel; `hkdf` maps the shared secret and the salt to keys. */
    constructor Derive(aead: Aead, hkdf: (Bytes, Bytes) -> KeyMaterial,
                       sharedSecret: Bytes, agentEphPub: Bytes, masterEphPub: Bytes, isMaster: bool)
      ensures Valid() && fresh(recvWindow)
      ensures this.aead == aead && sendSeq == 0 && recvWindow.accepted == {}
      ensures var keys := hkdf(sharedSecret, agentEphPub + masterEphPub);
              if isMaster
              then sendKey == keys.m2aKey && sendNonce == keys.m2aNonce && recvKey == keys.a2mKey && recvNonce == keys.a2mNonce
              else sendKey == keys.a2mKey && sendNonce == keys.a2mNonce && recvKey == keys.m2aKey && recvNonce == keys.m2aNonce
    {
      var salt := agentEphPub + masterEphPub;
      var keys := hkdf(sharedSecret, salt);
      this.aead := aead;
      if isMaster {
        sendKey, recvKey := keys.m2aKey, keys.a2mKey;
        sendNonce, recvNonce := keys.m2aNonce, keys.a2mNonce;
      } else {
        sendKey, recvKey := keys.a2mKey, keys.m2aKey;
        sendNonce, recvNonce := keys.a2mNonce, keys.m2aNonce;
      }
      sendSeq := 0;
      recvWindow := new ReplayWindow();
    }

    ghost predicate Valid()
      reads this, recvWindow
    {
      recvWindow.Valid()
    }

    /** The counter is atomic and wraps at 2^64, as Go's does. */
    method Encrypt(plaintext: Bytes) returns (envelope: Bytes)
      requires Valid()
      modifies this`sendSeq
      ensures Valid()
      ensures sendSeq == (old(sendSeq) + 1) % TWO64
      ensures envelope == Envelope(aead, sendKey, sendNonce, sendSeq, plaintext)
    {
      sendSeq := (sendSeq + 1) % TWO64;
      var s := sendSeq;
      var nonce := MakeNonce(sendNonce, s);
      var ciphertext := aead.seal(sendKey, nonce[..], plaintext);
      envelope := [ENVELOPE_VERSION] + BigEndian(s, 8) + ciphertext;
    }

    method Decrypt(envelope: Bytes) returns (outcome: Outcome)
      requires Valid()
      modifies recvWindow
      ensures Valid()
      ensures (outcome, recvWindow.accepted) == Received(aead, recvKey, recvNonce, old(recvWindow.accepted), envelope)
      ensures |envelope| < 25 || envelope[0] != 1 ==> outcome == Rejected && recvWindow.accepted == old(recvWindow.accepted)
    {
      if |envelope| < ENVELOPE_HEADER + GCM_TAG_SIZE {
        return Rejected;
      }
      if envelope[0] != ENVELOPE_VERSION {
        return Rejected;
      }
      FromBigEndianBound(envelope[1..9]);
      Pow256Of8();
      var s := FromBigEndian(envelope[1..9]);
      var ok := recvWindow.Check(s);
      if !ok {
        return Rejected;
      }
      var nonce := MakeNonce(recvNonce, s);
      match aead.open(recvKey, nonce[..], envelope[ENVELOPE_HEADER..])
      case None => outcome := Rejected;
      case Some(plaintext) => outcome := Delivered(plaintext);
    }
  }

  /** The two ends of a channel, derived from the same secret, use matching keys: what
      one end sends under, the other receives under, in both directions. */
  method PairedSessions(aead: Aead, hkdf: (Bytes, Bytes) -> KeyMaterial, secret: Bytes, agentPub: Bytes, masterPub: Bytes)
    returns (master: Session, agent: Session)
    ensures fresh(master) && fresh(agent) && fresh(master.recvWindow) && fresh(agent.recvWindow)
    ensures master.Valid() && agent.Valid()
    ensures master.sendKey == agent.recvKey && master.sendNonce == agent.recvNonce
    ensures agent.sendKey == master.recvKey && agent.sendNonce == master.recvNonce
  {
    master := new Session.Derive(aead, hkdf, secret, agentPub, masterPub, true);
    agent := new Session.Derive(aead, hkdf, secret, agentPub, masterPub, false);
  }

  // ----- whole runs -----

  /** The set of accepted numbers after the envelopes `arrivals`, in order. */
  ghost function AcceptedBy(aead: Aead, key: Bytes, base: Nonce, arrivals: seq<Bytes>): set<uint64>
  {
    if arrivals == [] then {}
    else
      var before := AcceptedBy(aead, key, base, arrivals[..|arrivals| - 1]);
      Received(aead, key, base, before, arrivals[|arrivals| - 1]).1
  }

  /** The answer to arrival `k`. */
  ghost function AnswerAt(aead: Aead, key: Bytes, base: Nonce, arrivals: seq<Bytes>, k: nat): Outcome
    requires k < |arrivals|
  {
    Received(aead, key, base, AcceptedBy(aead, key, base, arrivals[..k]), arrivals[k]).0
  }

  /** The number an envelope claims; zero, which no window accepts, when it is none. */
  function NumberOf(envelope: Bytes): uint64
  {
    match Parse(envelope)
    case Header(s, _) => s
    case _ => 0
  }

  function NumbersOf(arrivals: seq<Bytes>): seq<uint64>
  {
    seq(|arrivals|, k requires 0 <= k < |arrivals| => NumberOf(arrivals[k]))
  }

  lemma ReceivedNumber(aead: Aead, key: Bytes, base: Nonce, accepted: set<uint64>, envelope: Bytes)
    ensures Received(aead, key, base, accepted, envelope).1
         == if Admissible(accepted, NumberOf(envelope)) then accepted + {NumberOf(envelope)} else accepted
  {
  }

  /** Genuine or not, the window counts the numbers that the envelopes claim. */
  lemma {:induction false} AcceptedByNumbers(aead: Aead, key: Bytes, base: Nonce, arrivals: seq<Bytes>, k: nat)
    requires k <= |arrivals|
    ensures AcceptedBy(aead, key, base, arrivals[..k]) == AcceptedAfter(NumbersOf(arrivals)[..k])
  {
    if k > 0 {
      AcceptedByNumbers(aead, key, base, arrivals, k - 1);
      var numbers := NumbersOf(arrivals);
      assert arrivals[..k][..k - 1] == arrivals[..k - 1] && numbers[..k][..k - 1] == numbers[..k - 1];
      ReceivedNumber(aead, key, base, AcceptedBy(aead, key, base, arrivals[..k - 1]), arrivals[k - 1]);
    }
  }

  /** Some text opens under the nonce of the number it claims. */
  predicate Opens(aead: Aead, key: Bytes, base: Nonce, envelope: Bytes, plaintext: Bytes)
  {
    match Parse(envelope)
    case Header(s, body) => aead.open(key, NonceOf(base, s), body) == Some(plaintext)
    case _ => false
  }

  lemma AnswerIs(aead: Aead, key: Bytes, base: Nonce, arrivals: seq<Bytes>, k: nat)
    requires k < |arrivals|
    ensures var r := AnswerAt(aead, key, base, arrivals, k);
            forall plaintext :: r == Delivered(plaintext)
                           <==> AcceptedAt(NumbersOf(arrivals), k) && Opens(aead, key, base, arrivals[k], plaintext)
  {
    AcceptedByNumbers(aead, key, base, arrivals, k);
    assert NumbersOf(arrivals)[k] == NumberOf(arrivals[k]);
  }

  predicate GenuineAt(aead: Aead, key: Bytes, base: Nonce, sent: seq<Bytes>, envelope: Bytes, m: nat)
    requires |sent| < TWO64
  {
    m < |sent| && envelope == Envelope(aead, key, base, m + 1, sent[m])
  }

  lemma AnswerGenuine(aead: Aead, key: Bytes, base: Nonce, sent: seq<Bytes>, arrivals: seq<Bytes>, k: nat, m: nat)
    requires Lawful(aead) && |sent| < TWO64 && k < |arrivals| && GenuineAt(aead, key, base, sent, arrivals[k], m)
    ensures AnswerAt(aead, key, base, arrivals, k)
         == if AcceptedAt(NumbersOf(arrivals), k) then Delivered(sent[m]) else Rejected
    ensures NumberOf(arrivals[k]) == m + 1
  {
    AnswerIs(aead, key, base, arrivals, k);
    ParseEnvelope(aead, key, base, m + 1, sent[m]);
    assert Opens(aead, key, base, arrivals[k], sent[m]);
    AcceptedByNumbers(aead, key, base, arrivals, k);
  }

  /** The window moves before a text is opened. Among any arrivals, forged ones with them, a genuine
      envelope is delivered exactly when no number that the window accepted before it is its own or
      lies 64 or more above, whoever sent that. */
  lemma DeliveryAmongForgeries(aead: Aead, key: Bytes, base: Nonce, sent: seq<Bytes>, arrivals: seq<Bytes>, k: nat, m: nat)
    requires Lawful(aead) && |sent| < TWO64 && k < |arrivals| && GenuineAt(aead, key, base, sent, arrivals[k], m)
    ensures AnswerAt(aead, key, base, arrivals, k)
         == if (forall j: nat :: j < k && AcceptedAt(NumbersOf(arrivals), j) ==>
                  NumberOf(arrivals[j]) != m + 1 && NumberOf(arrivals[j]) < m + 1 + WINDOW_SIZE)
            then Delivered(sent[m]) else Rejected
  {
    AnswerGenuine(aead, key, base, sent, arrivals, k, m);
    ReplayExactly(NumbersOf(arrivals), k);
    assert forall j: nat :: j <= k ==> NumbersOf(arrivals)[j] == NumberOf(arrivals[j]);
  }

  /** Of what arrives, nothing opens but the envelopes of messages that were sent. */
  ghost predicate Unforged(aead: Aead, key: Bytes, base: Nonce, sent: seq<Bytes>, arrivals: seq<Bytes>)
    requires |sent| < TWO64
  {
    forall k, plaintext :: 0 <= k < |arrivals| && Opens(aead, key, base, arrivals[k], plaintext) ==>
      exists m: nat :: GenuineAt(aead, key, base, sent, arrivals[k], m)
  }

  /** Among any arrivals whatever is delivered is what was sent under the number of its envelope, and
      nothing is delivered twice. */
  lemma DeliveredAtMostOnce(aead: Aead, key: Bytes, base: Nonce, sent: seq<Bytes>, arrivals: seq<Bytes>, j: nat, k: nat)
    requires Lawful(aead) && |sent| < TWO64 && Unforged(aead, key, base, sent, arrivals) && j < k < |arrivals|
    requires AnswerAt(aead, key, base, arrivals, k).Delivered?
    ensures 1 <= NumberOf(arrivals[k]) <= |sent|
    ensures AnswerAt(aead, key, base, arrivals, k).plaintext == sent[NumberOf(arrivals[k]) - 1]
    ensures AnswerAt(aead, key, base, arrivals, j).Delivered? ==> NumberOf(arrivals[j]) != NumberOf(arrivals[k])
  {
    AnswerIs(aead, key, base, arrivals, j);
    AnswerIs(aead, key, base, arrivals, k);
    ReplayExactly(NumbersOf(arrivals), k);
    assert NumbersOf(arrivals)[j] == NumberOf(arrivals[j]) && NumbersOf(arrivals)[k] == NumberOf(arrivals[k]);
    assert Opens(aead, key, base, arrivals[k], AnswerAt(aead, key, base, arrivals, k).plaintext);
    var m: nat :| GenuineAt(aead, key, base, sent, arrivals[k], m);
    AnswerGenuine(aead, key, base, sent, arrivals, k, m);
    if AnswerAt(aead, key, base, arrivals, j).Delivered? {
      assert AnswerAt(aead, key, base, arrivals, j) == Delivered(AnswerAt(aead, key, base, arrivals, j).plaintext);
      assert AcceptedAt(NumbersOf(arrivals), j);
    }
  }

  /** Arrivals that carry the genuine envelopes of `sent`, message `i` having number i + 1,
      in the order `order`: any order, any repetition, any loss. */
  ghost predicate Genuine(aead: Aead, key: Bytes, base: Nonce, sent: seq<Bytes>, order: seq<nat>, arrivals: seq<Bytes>)
    requires |sent| < TWO64
  {
    |order| == |arrivals| && forall k :: 0 <= k < |order| ==> GenuineAt(aead, key, base, sent, arrivals[k], order[k])
  }

  /** Genuine envelopes, in any order and with any duplicates and losses: whatever is
      delivered is the plaintext that was sent, no message is delivered twice, and a
      message is delivered on its first arrival unless one numbered at least 64 above
      it was delivered before. */
  lemma DeliveryExactlyOnce(
      aead: Aead, key: Bytes, base: Nonce, sent: seq<Bytes>, order: seq<nat>, arrivals: seq<Bytes>, k: nat)
    requires Lawful(aead) && |sent| < TWO64
    requires Genuine(aead, key, base, sent, order, arrivals)
    requires k < |arrivals|
    ensures AnswerAt(aead, key, base, arrivals, k).Delivered? ==>
              AnswerAt(aead, key, base, arrivals, k).plaintext == sent[order[k]]
    ensures AnswerAt(aead, key, base, arrivals, k).Delivered? <==>
              forall j: nat :: j < k && AnswerAt(aead, key, base, arrivals, j).Delivered? ==>
                                 order[j] != order[k] && order[j] < order[k] + WINDOW_SIZE
    ensures (forall j: nat :: j < k ==> order[j] != order[k] && order[j] < order[k] + WINDOW_SIZE) ==>
              AnswerAt(aead, key, base, arrivals, k) == Delivered(sent[order[k]])
  {
    forall j: nat | j <= k
      ensures AnswerAt(aead, key, base, arrivals, j).Delivered? <==> AcceptedAt(NumbersOf(arrivals), j)
      ensures NumberOf(arrivals[j]) == order[j] + 1
    {
      AnswerGenuine(aead, key, base, sent, arrivals, j, order[j]);
    }
    DeliveryAmongForgeries(aead, key, base, sent, arrivals, k, order[k]);
  }
}
