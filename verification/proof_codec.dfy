/** The compact binary form in which a transaction's Merkle inclusion proof is stored: the leaf
    position and the branch length as Bitcoin variable-length integers, then every branch hash
    prefixed by its own length. */
module ProofCodec {
  import opened Results
  import opened Constants

  datatype TxProof = TxProof(position: int, branch: seq<seq<byte>>)

  /** Variable-length integers carry at most 64 bits. */
  const VarIntLimit: int := 0x1_0000_0000_0000_0000

  function Pow256(k: nat): (r: nat)
    ensures r > 0
  {
    if k == 0 then 1 else 256 * Pow256(k - 1)
  }

  /** `n` as `k` little-endian bytes (the high part of `n` is dropped when it does not fit). */
  function PackLe(n: nat, k: nat): (r: seq<byte>)
    ensures |r| == k
  {
    if k == 0 then [] else [n % 256] + PackLe(n / 256, k - 1)
  }

  function UnpackLe(b: seq<byte>): (n: nat)
    ensures n < Pow256(|b|)
  {
    if |b| == 0 then 0 else b[0] + 256 * UnpackLe(b[1..])
  }

  lemma {:induction false} LeRoundTrip(n: nat, k: nat)
    requires n < Pow256(k)
    ensures UnpackLe(PackLe(n, k)) == n
  {
    if k > 0 {
      assert n / 256 < Pow256(k - 1);
      LeRoundTrip(n / 256, k - 1);
      assert PackLe(n, k)[1..] == PackLe(n / 256, k - 1);
    }
  }

  lemma Pow256Widths()
    ensures Pow256(2) == 0x1_0000
    ensures Pow256(4) == 0x1_0000_0000
    ensures Pow256(8) == VarIntLimit
  {
  }

  /** The payload width that a varint's first byte announces. */
  function VarIntWidth(first: byte): nat {
    if first < 0xfd then 0 else if first == 0xfd then 2 else if first == 0xfe then 4 else 8
  }

  /** A Bitcoin variable-length integer: one byte below 0xfd, otherwise a marker byte and a
      2-, 4- or 8-byte little-endian payload. */
  function PackVarInt(n: nat): (r: seq<byte>)
    requires n < VarIntLimit
    ensures 1 <= |r| <= 9
    ensures |r| == 1 + VarIntWidth(r[0])
  {
    if n < 0xfd then [n]
    else if n < 0x1_0000 then [0xfd] + PackLe(n, 2)
    else if n < 0x1_0000_0000 then [0xfe] + PackLe(n, 4)
    else [0xff] + PackLe(n, 8)
  }

  /** Reads one varint from the front of `b`, returning it with the bytes after it; `None` when
      `b` ends before the varint does. */
  function ReadVarInt(b: seq<byte>): (r: Option<(nat, seq<byte>)>)
    ensures r.Some? <==> |b| >= 1 && |b| >= 1 + VarIntWidth(b[0])
    ensures r.Some? ==> r.value.0 < VarIntLimit && r.value.1 == b[1 + VarIntWidth(b[0])..]
  {
    if |b| == 0 then None
    else if b[0] < 0xfd then Some((b[0], b[1..]))
    else
      var width := VarIntWidth(b[0]);
      if |b| < 1 + width then None
      else
        Pow256Widths();
        Some((UnpackLe(b[1..1 + width]), b[1 + width..]))
  }

  lemma VarIntRoundTrip(n: nat, rest: seq<byte>)
    requires n < VarIntLimit
    ensures ReadVarInt(PackVarInt(n) + rest) == Some((n, rest))
  {
    var b := PackVarInt(n) + rest;
    Pow256Widths();
    if n >= 0xfd {
      var width := VarIntWidth(b[0]);
      assert b[1..1 + width] == PackVarInt(n)[1..];
      LeRoundTrip(n, width);
      assert b[1 + width..] == rest;
    } else {
      assert b[1..] == rest;
    }
  }

  /** Every branch hash, each prefixed by its length. */
  function PackHashes(hashes: seq<seq<byte>>): (r: seq<byte>)
    requires forall i | 0 <= i < |hashes| :: |hashes[i]| < VarIntLimit
    ensures |r| >= |hashes|
  {
    if |hashes| == 0 then []
    else PackVarInt(|hashes[0]|) + hashes[0] + PackHashes(hashes[1..])
  }

  /** Reads `count` length-prefixed hashes from the front of `b`. */
  function ReadHashes(b: seq<byte>, count: nat): (r: Option<(seq<seq<byte>>, seq<byte>)>)
    ensures r.Some? ==> |r.value.0| == count && |r.value.1| <= |b|
    decreases count
  {
    if count == 0 then Some(([], b))
    else match ReadVarInt(b)
      case None => None
      case Some((len, rest)) =>
        if |rest| < len then None
        else match ReadHashes(rest[len..], count - 1)
          case None => None
          case Some((tail, after)) => Some(([rest[..len]] + tail, after))
  }

  /** Reading one length-prefixed hash in front of `count` readable ones reads `count + 1`. */
  lemma ReadOneHash(h: seq<byte>, tailBytes: seq<byte>, count: nat, tail: seq<seq<byte>>, after: seq<byte>)
    requires |h| < VarIntLimit
    requires ReadHashes(tailBytes, count) == Some((tail, after))
    ensures ReadHashes(PackVarInt(|h|) + (h + tailBytes), count + 1) == Some(([h] + tail, after))
  {
    var afterLen := h + tailBytes;
    VarIntRoundTrip(|h|, afterLen);
    assert afterLen[..|h|] == h;
    assert afterLen[|h|..] == tailBytes;
  }

  lemma TailFits(hashes: seq<seq<byte>>)
    requires |hashes| > 0
    requires forall i | 0 <= i < |hashes| :: |hashes[i]| < VarIntLimit
    ensures forall i | 0 <= i < |hashes[1..]| :: |hashes[1..][i]| < VarIntLimit
  {
    forall i | 0 <= i < |hashes[1..]| ensures |hashes[1..][i]| < VarIntLimit {
      assert hashes[1..][i] == hashes[i + 1];
    }
  }

  lemma PackHashesCons(hashes: seq<seq<byte>>, rest: seq<byte>)
    requires |hashes| > 0
    requires forall i | 0 <= i < |hashes| :: |hashes[i]| < VarIntLimit
    requires forall i | 0 <= i < |hashes[1..]| :: |hashes[1..][i]| < VarIntLimit
    ensures PackHashes(hashes) + rest == PackVarInt(|hashes[0]|) + (hashes[0] + (PackHashes(hashes[1..]) + rest))
  {
    var a := PackVarInt(|hashes[0]|);
    var c := PackHashes(hashes[1..]);
    assert PackHashes(hashes) == a + hashes[0] + c;
    SeqAssoc(a, hashes[0], c, rest);
  }

  lemma SeqAssoc(a: seq<byte>, b: seq<byte>, c: seq<byte>, d: seq<byte>)
    ensures a + b + c + d == a + (b + (c + d))
  {
  }

  /** The inductive step: if the tail of a hash list reads back, so does the whole list. */
  lemma HashesConsStep(hashes: seq<seq<byte>>, rest: seq<byte>)
    requires |hashes| > 0
    requires forall i | 0 <= i < |hashes| :: |hashes[i]| < VarIntLimit
    requires forall i | 0 <= i < |hashes[1..]| :: |hashes[1..][i]| < VarIntLimit
    requires ReadHashes(PackHashes(hashes[1..]) + rest, |hashes| - 1) == Some((hashes[1..], rest))
    ensures ReadHashes(PackHashes(hashes) + rest, |hashes|) == Some((hashes, rest))
  {
    PackHashesCons(hashes, rest);
    ReadOneHash(hashes[0], PackHashes(hashes[1..]) + rest, |hashes| - 1, hashes[1..], rest);
    assert [hashes[0]] + hashes[1..] == hashes;
  }

  lemma {:induction false} HashesRoundTrip(hashes: seq<seq<byte>>, rest: seq<byte>)
    requires forall i | 0 <= i < |hashes| :: |hashes[i]| < VarIntLimit
    ensures ReadHashes(PackHashes(hashes) + rest, |hashes|) == Some((hashes, rest))
  {
    if |hashes| > 0 {
      TailFits(hashes);
      HashesRoundTrip(hashes[1..], rest);
      HashesConsStep(hashes, rest);
    } else {
      assert PackHashes(hashes) + rest == rest;
    }
  }

  /** Whether a proof fits the layout: a non-negative position and every count and length
      representable as a 64-bit varint. */
  predicate Encodable(p: TxProof) {
    && 0 <= p.position < VarIntLimit
    && |p.branch| < VarIntLimit
    && forall i | 0 <= i < |p.branch| :: |p.branch[i]| < VarIntLimit
  }

  /** Packs a proof; a proof outside the layout is refused rather than truncated. */
  function PackProof(p: TxProof): (r: Option<seq<byte>>)
    ensures r.Some? <==> Encodable(p)
    ensures r.Some? ==> |r.value| >= 2 + |p.branch|
  {
    if !Encodable(p) then None
    else Some(PackVarInt(p.position) + PackVarInt(|p.branch|) + PackHashes(p.branch))
  }

  /** Unpacks a proof; `None` when the bytes end early. Bytes after the last hash are ignored. */
  function UnpackProof(raw: seq<byte>): (r: Option<TxProof>)
    ensures r.Some? ==> 0 <= r.value.position < VarIntLimit
    ensures r.Some? ==> |r.value.branch| < VarIntLimit
  {
    var (position, afterPosition) :- ReadVarInt(raw);
    var (count, afterCount) :- ReadVarInt(afterPosition);
    var (branch, _) :- ReadHashes(afterCount, count);
    Some(TxProof(position, branch))
  }

  /** Unpacking what was packed gives back the same position and branch. */
  lemma ProofRoundTrip(p: TxProof)
    requires Encodable(p)
    ensures PackProof(p).Some?
    ensures UnpackProof(PackProof(p).value) == Some(p)
  {
    var hashes := PackHashes(p.branch);
    var raw := PackVarInt(p.position) + PackVarInt(|p.branch|) + hashes;
    assert raw == PackVarInt(p.position) + (PackVarInt(|p.branch|) + hashes);
    VarIntRoundTrip(p.position, PackVarInt(|p.branch|) + hashes);
    VarIntRoundTrip(|p.branch|, hashes);
    HashesRoundTrip(p.branch, []);
    assert hashes + [] == hashes;
  }

  /** Empty input is rejected. */
  lemma EmptyRejected()
    ensures UnpackProof([]) == None
  {
  }
}
