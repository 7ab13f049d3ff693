/** How proposals are identified on chain and in the voter. */
module Identifiers {
  import opened Bytes
  import opened Messages

  /** `big.NewInt(int64(nonce)).Bytes()`: the conversion wraps and `Bytes` drops the sign. */
  function NonceMagnitude(nonce: uint64): nat {
    var n := Int64(nonce);
    if n < 0 then -n else n
  }

  function Id(source: uint8, nonce: uint64): nat {
    256 * NonceMagnitude(nonce) + source
  }

  method IdAndNonce(srcId: uint8, nonce: uint64) returns (id: nat)
    ensures id == Id(srcId, nonce)
  {
    var data: seq<byte> := [];
    data := data + FromNat(NonceMagnitude(nonce));
    data := data + [srcId];
    assert data[..|data| - 1] == FromNat(NonceMagnitude(nonce));
    ToNatFromNat(NonceMagnitude(nonce));
    id := ToNat(data);
  }

  /** The identifier fits the contract's 72 bits, and is nonce and source side by side exactly for
      nonces below 2^63 (and for 2^63 itself, whose magnitude survives the wrap). */
  lemma IdIsNonceAndSource(source: uint8, nonce: uint64)
    ensures Id(source, nonce) < 0x100_0000_0000_0000_0000
    ensures Id(source, nonce) == 256 * nonce + source <==> nonce <= TWO_63
  {
  }

  /** Two proposals share an identifier exactly when they have the same source and either the same
      nonce or nonces that wrap to opposite numbers. */
  lemma IdInjective(s: uint8, n: uint64, t: uint8, m: uint64)
    ensures Id(s, n) == Id(t, m) <==> s == t && (n == m || n + m == TWO_64)
  {
    MagnitudeIs(n);
    MagnitudeIs(m);
    IdParts(NonceMagnitude(n), s);
    IdParts(NonceMagnitude(m), t);
  }

  lemma MagnitudeIs(nonce: uint64)
    ensures NonceMagnitude(nonce) == if nonce <= TWO_63 then nonce else TWO_64 - nonce
  {
  }

  lemma IdParts(magnitude: nat, source: uint8)
    ensures (256 * magnitude + source) % 256 == source && (256 * magnitude + source) / 256 == magnitude
  {
  }

  /** It happens: every nonce above 2^63 shares its identifier with a smaller one. */
  lemma OppositeNoncesCollide(source: uint8, nonce: uint64)
    requires nonce > TWO_63
    ensures TWO_64 - nonce < nonce && Id(source, TWO_64 - nonce) == Id(source, nonce)
  {
    IdInjective(source, TWO_64 - nonce, source, nonce);
  }

  /** What `Proposal.GetID` hashes: the source and the low byte of the nonce. */
  function IdHashInput(p: Proposal): seq<byte> {
    [p.source] + [p.depositNonce % 256]
  }

  /** What `Proposal.GetDataHash` hashes. */
  function DataHashInput(p: Proposal): seq<byte> {
    p.resourceId + p.data
  }

  /** What is hashed, byte for byte. */
  lemma HashInputs(p: Proposal)
    ensures |IdHashInput(p)| == 2 && IdHashInput(p)[0] == p.source && IdHashInput(p)[1] == p.depositNonce % 256
    ensures |DataHashInput(p)| == 32 + |p.data|
    ensures DataHashInput(p)[..32] == p.resourceId && DataHashInput(p)[32..] == p.data
  {
  }

  /** Proposals whose nonces agree in the low byte share the voter's key. */
  lemma IdHashInputShared(p: Proposal, q: Proposal)
    ensures IdHashInput(p) == IdHashInput(q)
            <==> p.source == q.source && p.depositNonce % 256 == q.depositNonce % 256
  {
    assert IdHashInput(p)[0] == p.source && IdHashInput(p)[1] == p.depositNonce % 256;
    assert IdHashInput(q)[0] == q.source && IdHashInput(q)[1] == q.depositNonce % 256;
  }

  lemma DataHashInputInjective(p: Proposal, q: Proposal)
    ensures DataHashInput(p) == DataHashInput(q) <==> p.resourceId == q.resourceId && p.data == q.data
  {
    assert DataHashInput(p)[..32] == p.resourceId && DataHashInput(q)[..32] == q.resourceId;
    assert DataHashInput(p)[32..] == p.data && DataHashInput(q)[32..] == q.data;
  }

  /** The voter's key of a proposal collides with that of another exactly when the on-chain
      identifiers agree in their low two bytes, for nonces the identifier does not wrap. */
  lemma SharedKeyIsLowBytesOfId(p: Proposal, q: Proposal)
    requires p.depositNonce < TWO_63 && q.depositNonce < TWO_63
    ensures IdHashInput(p) == IdHashInput(q)
            <==> Id(p.source, p.depositNonce) % 0x1_0000 == Id(q.source, q.depositNonce) % 0x1_0000
  {
    IdHashInputShared(p, q);
    LowBytesOfId(p.source, p.depositNonce);
    LowBytesOfId(q.source, q.depositNonce);
  }

  lemma LowBytesOfId(source: uint8, nonce: uint64)
    requires nonce < TWO_63
    ensures Id(source, nonce) % 0x1_0000 == 256 * (nonce % 256) + source
  {
    var low := 256 * (nonce % 256) + source;
    assert nonce == 256 * (nonce / 256) + nonce % 256;
    RemainderIs(nonce / 256, low);
  }

  lemma RemainderIs(q: nat, low: nat)
    requires low < 0x1_0000
    ensures (0x1_0000 * q + low) % 0x1_0000 == low
  {
  }
}
