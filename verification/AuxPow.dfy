/**
 * The Dogecoin proof parser: a header, an optional merged-mining section of variable length that is read
 * and thrown away, then the payload. It is checked against the printer of that format.
 */
module AuxPow {
  import opened Wrappers
  import opened Bytes
  import opened Chain
  import opened Codecs

  /** The decoders of the bitcoin crate for transactions and for partial trees, as given self-delimiting ones. */
  datatype Wire<!T> = Wire(put: T -> seq<byte>, read: seq<byte> -> Option<(T, seq<byte>)>)
  {
    ghost predicate ReadsBack(v: T, rest: seq<byte>) {
      read(put(v) + rest) == Some((v, rest))
    }

    ghost predicate Exact(b: seq<byte>) {
      read(b).Some? ==> b == put(read(b).value.0) + read(b).value.1
    }
  }

  /** Reads what it prints, whatever follows, and accepts only what it prints. */
  ghost predicate Lawful<T(!new)>(w: Wire<T>) {
    (forall v, rest :: w.ReadsBack(v, rest)) && forall b :: w.Exact(b)
  }

  datatype Branch = Branch(hashes: seq<Hash>, mask: i32)

  datatype MergedWork<Tx> = MergedWork(coinbase: Tx, parentHash: Hash, coinbaseBranch: Branch,
                                       chainBranch: Branch, parent: Header)

  /** A proof on the wire; `body` is the partial Merkle tree. */
  datatype Proof<Tx, Body> = Proof(header: Header, work: Option<MergedWork<Tx>>, body: Body)

  datatype MerkleBlock<Body> = MerkleBlock(header: Header, body: Body)

  /** `version & (1 << 8) != 0`, on the two's complement form. */
  predicate HasWork(version: i32) {
    version % 0x1_0000_0000 / 256 % 2 == 1
  }

  /** The flag is the lowest bit of a header's second byte. */
  lemma {:induction false} WorkFlag(s: seq<byte>)
    requires |s| == 80
    ensures HasWork(ParseHeader(s).version) <==> s[1] % 2 == 1
  {
    HeaderLayout(s);
    var v := ParseHeader(s).version;
    assert (v as int) % 0x1_0000_0000 == U32At(s, 0);
    assert U32At(s, 0) / 256 == s[1] as nat + 2 * (128 * (s[2] as nat) + 32768 * (s[3] as nat));
  }

  predicate FitsU64(n: nat) {
    n < 0x1_0000_0000_0000_0000
  }

  /** The flag announces the merged-mining section, and branch lengths fit the length field. */
  predicate WellFormed<Tx, Body>(p: Proof<Tx, Body>) {
    && (p.work.Some? <==> HasWork(p.header.version))
    && (p.work.Some? ==>
          FitsU64(|p.work.value.coinbaseBranch.hashes|) && FitsU64(|p.work.value.chainBranch.hashes|))
  }

  // ---- The printer: each function prints its value in front of `rest` ----

  function PutVarInt(n: nat, rest: seq<byte>): seq<byte> {
    if n < 0xFD then [n] + rest
    else if n < 0x1_0000 then [0xFD] + (Le(n, 2) + rest)
    else if n < 0x1_0000_0000 then [0xFE] + (Le(n, 4) + rest)
    else [0xFF] + (Le(n, 8) + rest)
  }

  function PutHashes(hashes: seq<Hash>, rest: seq<byte>): seq<byte> {
    if hashes == [] then rest else HashBytes(hashes[0]) + PutHashes(hashes[1..], rest)
  }

  function PutMask(mask: i32, rest: seq<byte>): seq<byte> {
    Le(mask % 0x1_0000_0000, 4) + rest
  }

  function PutBranch(b: Branch, rest: seq<byte>): seq<byte> {
    PutVarInt(|b.hashes|, PutHashes(b.hashes, PutMask(b.mask, rest)))
  }

  function PutWork<Tx>(tx: Wire<Tx>, w: MergedWork<Tx>, rest: seq<byte>): seq<byte> {
    tx.put(w.coinbase)
    + (HashBytes(w.parentHash) + PutBranch(w.coinbaseBranch, PutBranch(w.chainBranch, HeaderBytes(w.parent) + rest)))
  }

  function PutProof<Tx, Body>(tx: Wire<Tx>, body: Wire<Body>, p: Proof<Tx, Body>, rest: seq<byte>): seq<byte> {
    var tail := body.put(p.body) + rest;
    HeaderBytes(p.header) + if p.work.Some? then PutWork(tx, p.work.value, tail) else tail
  }

  // ---- Where everything is in what was printed ----

  function VarIntSize(n: nat): nat {
    if n < 253 then 1 else if n < 65536 then 3 else if n < 4294967296 then 5 else 9
  }

  function BranchSize(b: Branch): nat {
    VarIntSize(|b.hashes|) + 32 * |b.hashes| + 4
  }

  lemma {:induction false} VarIntLayout(n: nat, rest: seq<byte>)
    requires FitsU64(n)
    ensures
      var s, size := PutVarInt(n, rest), VarIntSize(n);
      && |s| == size + |rest| && s[size..] == rest
      && (size == 1 ==> s[0] as nat == n)
      && (size == 3 ==> s[0] == 253 && s[1] as nat + 256 * (s[2] as nat) == n)
      && (size == 5 ==> s[0] == 254 && U32At(s, 1) == n)
      && (size == 9 ==> s[0] == 255 && U32At(s, 1) + 4294967296 * U32At(s, 5) == n)
  {
    var s := PutVarInt(n, rest);
    if 253 <= n < 65536 {
      assert Le(n, 2)[1..] == Le(n / 256, 1);
    } else if 65536 <= n < 4294967296 {
      Pow256Values();
      LeRoundTrip(n, 4);
      FromLeFour(Le(n, 4));
    } else if 4294967296 <= n {
      EightBytes(n);
    }
  }

  lemma {:induction false} EightBytes(n: nat)
    requires FitsU64(n)
    ensures U32At(Le(n, 8), 0) + 4294967296 * U32At(Le(n, 8), 4) == n
  {
    var s := Le(n, 8);
    Pow256Values();
    LeRoundTrip(n, 8);
    FromLeFour(s[..4]);
    FromLeFour(s[4..]);
    FromLeSplit(s, 4);
  }

  /** A branch on the wire: its length, its hashes of 32 bytes each, its mask. */
  ghost predicate BranchAt(s: seq<byte>, b: Branch) {
    var hashes := VarIntSize(|b.hashes|);
    && BranchSize(b) <= |s|
    && IsAt(s, 0, PutVarInt(|b.hashes|, []))
    && AreHashesAt(s, hashes, b.hashes)
    && U32At(s, hashes + 32 * |b.hashes|) == if b.mask < 0 then b.mask + 4294967296 else b.mask
  }

  predicate HashAt(s: seq<byte>, at: nat, h: Hash) {
    IsAt(s, at, HashBytes(h))
  }

  predicate IsAt(s: seq<byte>, at: nat, piece: seq<byte>) {
    at + |piece| <= |s| && s[at..at + |piece|] == piece
  }

  lemma {:induction false} MaskLayout(mask: i32, rest: seq<byte>)
    ensures |PutMask(mask, rest)| == 4 + |rest| && PutMask(mask, rest)[4..] == rest
    ensures U32At(PutMask(mask, rest), 0) == if mask < 0 then mask + 4294967296 else mask
  {
    var n := (mask as int) % 4294967296;
    Pow256Values();
    LeRoundTrip(n, 4);
    FromLeFour(Le(n, 4));
  }

  ghost predicate AreHashesAt(s: seq<byte>, at: nat, hashes: seq<Hash>) {
    forall i :: 0 <= i < |hashes| ==> HashAt(s, at + 32 * i, hashes[i])
  }

  lemma {:induction false} HashesLayout(s: seq<byte>, at: nat, hashes: seq<Hash>, rest: seq<byte>)
    requires at <= |s| && s[at..] == PutHashes(hashes, rest)
    ensures AreHashesAt(s, at, hashes)
    ensures |s| == at + 32 * |hashes| + |rest| && s[at + 32 * |hashes|..] == rest
    decreases hashes
  {
    if hashes == [] {
    } else {
      var tail := PutHashes(hashes[1..], rest);
      assert s[at + 32..] == s[at..][32..] == tail;
      assert s[at..at + 32] == s[at..][..32] == HashBytes(hashes[0]);
      HashesLayout(s, at + 32, hashes[1..], rest);
      forall i | 0 <= i < |hashes| ensures HashAt(s, at + 32 * i, hashes[i]) {
        if i > 0 {
          assert HashAt(s, at + 32 + 32 * (i - 1), hashes[1..][i - 1]);
        }
      }
    }
  }

  function BranchBytes(b: Branch): seq<byte> {
    PutBranch(b, [])
  }

  lemma {:induction false} BranchLayout(b: Branch)
    requires FitsU64(|b.hashes|)
    ensures BranchAt(BranchBytes(b), b) && |BranchBytes(b)| == BranchSize(b)
  {
    var s, n, size, mask := BranchBytes(b), |b.hashes|, VarIntSize(|b.hashes|), PutMask(b.mask, []);
    LengthLayout(s, 0, n, PutHashes(b.hashes, mask));
    HashesLayout(s, size, b.hashes, mask);
    MaskLayout(b.mask, []);
    MaskShift(s, size + 32 * n, mask);
  }

  lemma {:induction false} HashesSplit(hashes: seq<Hash>, first: seq<byte>, rest: seq<byte>)
    ensures PutHashes(hashes, first + rest) == PutHashes(hashes, first) + rest
  {
    if hashes == [] {
    } else {
      HashesSplit(hashes[1..], first, rest);
    }
  }

  lemma {:induction false} BranchSplits(b: Branch, rest: seq<byte>)
    ensures PutBranch(b, rest) == BranchBytes(b) + rest
  {
    var n, hashes := |b.hashes|, PutHashes(b.hashes, PutMask(b.mask, []));
    assert PutMask(b.mask, rest) == PutMask(b.mask, []) + rest;
    HashesSplit(b.hashes, PutMask(b.mask, []), rest);
    VarIntSplits(n, hashes + rest);
    VarIntSplits(n, hashes);
    assert PutVarInt(n, []) + (hashes + rest) == PutVarInt(n, []) + hashes + rest;
  }

  lemma {:induction false} VarIntSplits(n: nat, rest: seq<byte>)
    ensures PutVarInt(n, rest) == PutVarInt(n, []) + rest
  {
    if 0xFD <= n < 0x1_0000 {
      assert [0xFD] + (Le(n, 2) + rest) == [0xFD] + (Le(n, 2) + []) + rest;
    } else if 0x1_0000 <= n < 0x1_0000_0000 {
      assert [0xFE] + (Le(n, 4) + rest) == [0xFE] + (Le(n, 4) + []) + rest;
    } else if 0x1_0000_0000 <= n {
      assert [0xFF] + (Le(n, 8) + rest) == [0xFF] + (Le(n, 8) + []) + rest;
    }
  }

  lemma {:induction false} MaskShift(s: seq<byte>, at: nat, mask: seq<byte>)
    requires at <= |s| && s[at..] == mask && |mask| >= 4
    ensures U32At(s, at) == U32At(mask, 0) && s[at + 4..] == mask[4..]
  {
  }

  lemma {:induction false} LengthLayout(s: seq<byte>, at: nat, n: nat, rest: seq<byte>)
    requires FitsU64(n) && at <= |s| && s[at..] == PutVarInt(n, rest)
    ensures IsAt(s, at, PutVarInt(n, [])) && at + VarIntSize(n) <= |s| && s[at + VarIntSize(n)..] == rest
  {
    VarIntLayout(n, rest);
    VarIntSplits(n, rest);
  }

  /** The pieces lie one behind the other. */
  ghost predicate ArePiecesAt(s: seq<byte>, at: nat, a: seq<byte>, b: seq<byte>, c: seq<byte>, d: seq<byte>, e: seq<byte>) {
    && IsAt(s, at, a) && IsAt(s, at + |a|, b) && IsAt(s, at + |a| + |b|, c)
    && IsAt(s, at + |a| + |b| + |c|, d) && IsAt(s, at + |a| + |b| + |c| + |d|, e)
  }

  /** The merged-mining section on the wire: coinbase, parent hash, coinbase branch, chain branch, parent header. */
  ghost predicate WorkAt<Tx>(tx: Wire<Tx>, s: seq<byte>, at: nat, w: MergedWork<Tx>) {
    ArePiecesAt(s, at, tx.put(w.coinbase), HashBytes(w.parentHash), BranchBytes(w.coinbaseBranch),
                BranchBytes(w.chainBranch), HeaderBytes(w.parent))
  }

  function WorkSize<Tx>(tx: Wire<Tx>, w: MergedWork<Tx>): nat {
    |tx.put(w.coinbase)| + 32 + BranchSize(w.coinbaseBranch) + BranchSize(w.chainBranch) + 80
  }

  lemma {:induction false} WorkSplits<Tx>(tx: Wire<Tx>, w: MergedWork<Tx>, rest: seq<byte>)
    ensures PutWork(tx, w, rest) == tx.put(w.coinbase) + (HashBytes(w.parentHash) + (BranchBytes(w.coinbaseBranch)
                                    + (BranchBytes(w.chainBranch) + (HeaderBytes(w.parent) + rest))))
  {
    var last := HeaderBytes(w.parent) + rest;
    BranchSplits(w.coinbaseBranch, PutBranch(w.chainBranch, last));
    BranchSplits(w.chainBranch, last);
  }

  lemma {:induction false} WorkLayout<Tx>(tx: Wire<Tx>, s: seq<byte>, at: nat, w: MergedWork<Tx>, rest: seq<byte>)
    requires at <= |s| && s[at..] == PutWork(tx, w, rest)
    ensures WorkAt(tx, s, at, w)
  {
    WorkSplits(tx, w, rest);
    PiecesLayout(s, at, tx.put(w.coinbase), HashBytes(w.parentHash), BranchBytes(w.coinbaseBranch),
                 BranchBytes(w.chainBranch), HeaderBytes(w.parent), rest);
  }

  lemma {:induction false} WorkEnds<Tx>(tx: Wire<Tx>, w: MergedWork<Tx>, rest: seq<byte>)
    requires FitsU64(|w.coinbaseBranch.hashes|) && FitsU64(|w.chainBranch.hashes|)
    ensures |PutWork(tx, w, rest)| == WorkSize(tx, w) + |rest| && PutWork(tx, w, rest)[WorkSize(tx, w)..] == rest
  {
    WorkSplits(tx, w, rest);
    BranchLayout(w.coinbaseBranch);
    BranchLayout(w.chainBranch);
  }

  lemma {:induction false} PiecesLayout(s: seq<byte>, at: nat, a: seq<byte>, b: seq<byte>, c: seq<byte>, d: seq<byte>,
                                        e: seq<byte>, rest: seq<byte>)
    requires at <= |s| && s[at..] == a + (b + (c + (d + (e + rest))))
    ensures ArePiecesAt(s, at, a, b, c, d, e)
  {
    SplitAt(s, at, a, b + (c + (d + (e + rest))));
    SplitAt(s, at + |a|, b, c + (d + (e + rest)));
    SplitAt(s, at + |a| + |b|, c, d + (e + rest));
    SplitAt(s, at + |a| + |b| + |c|, d, e + rest);
    SplitAt(s, at + |a| + |b| + |c| + |d|, e, rest);
  }

  lemma {:induction false} SplitAt(s: seq<byte>, at: nat, first: seq<byte>, rest: seq<byte>)
    requires at <= |s| && s[at..] == first + rest
    ensures IsAt(s, at, first) && s[at + |first|..] == rest
  {
    assert s[at..at + |first|] == s[at..][..|first|];
    assert s[at + |first|..] == s[at..][|first|..];
  }

  /**
   Where everything is in a printed proof: the header in the first 80 bytes, then the merged-mining section
   exactly if the second byte is odd, then the tree.
   */
  lemma {:induction false} ProofLayout<Tx, Body>(tx: Wire<Tx>, body: Wire<Body>, p: Proof<Tx, Body>, rest: seq<byte>)
    requires WellFormed(p)
    ensures
      var s := PutProof(tx, body, p, rest);
      && |s| >= 80 && s[..80] == HeaderBytes(p.header)
      && (p.work.Some? <==> s[1] % 2 == 1)
      && (p.work.Some? ==> WorkAt(tx, s, 80, p.work.value))
      && var tree := 80 + if p.work.Some? then WorkSize(tx, p.work.value) else 0;
         tree <= |s| && s[tree..] == body.put(p.body) + rest
  {
    var s, tail := PutProof(tx, body, p, rest), body.put(p.body) + rest;
    HeaderRoundTrip(p.header);
    WorkFlag(HeaderBytes(p.header));
    assert s[..80][1] == s[1];
    if p.work.Some? {
      WorkLayout(tx, s, 80, p.work.value, tail);
      WorkEnds(tx, p.work.value, tail);
    }
  }

  // ---- The reader: a value and what follows it ----

  type Read<+T> = Option<(T, seq<byte>)>

  function ReadHeader(b: seq<byte>): Read<Header> {
    if |b| < 80 then None else Some((ParseHeader(b[..80]), b[80..]))
  }

  function ReadHash(b: seq<byte>): Read<Hash> {
    if |b| < 32 then None else Some((ParseHash(b[..32]), b[32..]))
  }

  function ReadMask(b: seq<byte>): Read<i32> {
    if |b| < 4 then None else Some((ParseI32(b[..4]), b[4..]))
  }

  function ReadUint(width: nat, least: nat, b: seq<byte>): Read<nat> {
    if |b| < width || FromLe(b[..width]) < least then None
    else Some((FromLe(b[..width]), b[width..]))
  }

  /** `VarInt`: a longer form than needed is an error. */
  function ReadVarInt(b: seq<byte>): Read<nat> {
    if b == [] then None
    else if b[0] == 0xFF then ReadUint(8, 0x1_0000_0000, b[1..])
    else if b[0] == 0xFE then ReadUint(4, 0x1_0000, b[1..])
    else if b[0] == 0xFD then ReadUint(2, 0xFD, b[1..])
    else Some((b[0], b[1..]))
  }

  function ReadHashes(n: nat, b: seq<byte>): Read<seq<Hash>> {
    if n == 0 then Some(([], b))
    else match ReadHash(b)
      case None => None
      case Some((h, after)) =>
        match ReadHashes(n - 1, after)
        case None => None
        case Some((hs, rest)) => Some(([h] + hs, rest))
  }

  function ReadBranch(b: seq<byte>): Read<Branch> {
    match ReadVarInt(b)
    case None => None
    case Some((n, b0)) =>
      match ReadHashes(n, b0)
      case None => None
      case Some((hashes, b1)) =>
        match ReadMask(b1)
        case None => None
        case Some((mask, rest)) => Some((Branch(hashes, mask), rest))
  }

  function ReadWork<Tx>(tx: Wire<Tx>, b: seq<byte>): Read<MergedWork<Tx>> {
    match tx.read(b)
    case None => None
    case Some((coinbase, b0)) =>
      match ReadHash(b0)
      case None => None
      case Some((parentHash, b1)) =>
        match ReadBranch(b1)
        case None => None
        case Some((coinbaseBranch, b2)) =>
          match ReadBranch(b2)
          case None => None
          case Some((chainBranch, b3)) =>
            match ReadHeader(b3)
            case None => None
            case Some((parent, rest)) =>
              Some((MergedWork(coinbase, parentHash, coinbaseBranch, chainBranch, parent), rest))
  }

  function ReadOptionalWork<Tx>(tx: Wire<Tx>, version: i32, b: seq<byte>): Read<Option<MergedWork<Tx>>> {
    if !HasWork(version) then Some((None, b))
    else match ReadWork(tx, b)
      case None => None
      case Some((work, rest)) => Some((Some(work), rest))
  }

  function ReadProof<Tx, Body>(tx: Wire<Tx>, body: Wire<Body>, b: seq<byte>): Read<Proof<Tx, Body>> {
    match ReadHeader(b)
    case None => None
    case Some((header, b0)) =>
      match ReadOptionalWork(tx, header.version, b0)
      case None => None
      case Some((work, b1)) =>
        match body.read(b1)
        case None => None
        case Some((v, rest)) => Some((Proof(header, work, v), rest))
  }

  // ---- Reading back what was printed ----

  lemma {:induction false} HeaderReads(h: Header, rest: seq<byte>)
    ensures ReadHeader(HeaderBytes(h) + rest) == Some((h, rest))
  {
    HeaderRoundTrip(h);
    assert (HeaderBytes(h) + rest)[..80] == HeaderBytes(h);
    assert (HeaderBytes(h) + rest)[80..] == rest;
  }

  lemma {:induction false} HashReads(h: Hash, rest: seq<byte>)
    ensures ReadHash(HashBytes(h) + rest) == Some((h, rest))
  {
    HashRoundTrip(h, HashBytes(h));
    assert (HashBytes(h) + rest)[..32] == HashBytes(h);
    assert (HashBytes(h) + rest)[32..] == rest;
  }

  lemma {:induction false} MaskReads(mask: i32, rest: seq<byte>)
    ensures ReadMask(PutMask(mask, rest)) == Some((mask, rest))
  {
    var s := Le(mask % 0x1_0000_0000, 4);
    I32RoundTrip(mask, s);
    assert (s + rest)[..4] == s && (s + rest)[4..] == rest;
  }

  lemma {:induction false} UintReads(width: nat, least: nat, n: nat, rest: seq<byte>)
    requires least <= n < Pow256(width)
    ensures ReadUint(width, least, Le(n, width) + rest) == Some((n, rest))
  {
    LeRoundTrip(n, width);
    var s := Le(n, width);
    assert (s + rest)[..width] == s && (s + rest)[width..] == rest;
  }

  lemma {:induction false} VarIntReads(n: nat, rest: seq<byte>)
    requires FitsU64(n)
    ensures ReadVarInt(PutVarInt(n, rest)) == Some((n, rest))
  {
    Pow256Values();
    var s := PutVarInt(n, rest);
    if n < 0xFD {
      assert s[1..] == rest;
    } else if n < 0x1_0000 {
      UintReads(2, 0xFD, n, rest);
      assert s[1..] == Le(n, 2) + rest;
    } else if n < 0x1_0000_0000 {
      UintReads(4, 0x1_0000, n, rest);
      assert s[1..] == Le(n, 4) + rest;
    } else {
      UintReads(8, 0x1_0000_0000, n, rest);
      assert s[1..] == Le(n, 8) + rest;
    }
  }

  lemma {:induction false} HashesRead(hashes: seq<Hash>, rest: seq<byte>)
    ensures ReadHashes(|hashes|, PutHashes(hashes, rest)) == Some((hashes, rest))
  {
    if hashes == [] {
    } else {
      HashesRead(hashes[1..], rest);
      HashReads(hashes[0], PutHashes(hashes[1..], rest));
      assert hashes == [hashes[0]] + hashes[1..];
    }
  }

  lemma {:induction false} BranchReads(b: Branch, rest: seq<byte>)
    requires FitsU64(|b.hashes|)
    ensures ReadBranch(PutBranch(b, rest)) == Some((b, rest))
  {
    VarIntReads(|b.hashes|, PutHashes(b.hashes, PutMask(b.mask, rest)));
    HashesRead(b.hashes, PutMask(b.mask, rest));
    MaskReads(b.mask, rest);
  }

  lemma {:induction false} WorkReads<Tx(!new)>(tx: Wire<Tx>, w: MergedWork<Tx>, rest: seq<byte>)
    requires Lawful(tx) && FitsU64(|w.coinbaseBranch.hashes|) && FitsU64(|w.chainBranch.hashes|)
    ensures ReadWork(tx, PutWork(tx, w, rest)) == Some((w, rest))
  {
    var b3 := HeaderBytes(w.parent) + rest;
    var b2 := PutBranch(w.chainBranch, b3);
    var b1 := PutBranch(w.coinbaseBranch, b2);
    assert tx.ReadsBack(w.coinbase, HashBytes(w.parentHash) + b1);
    HashReads(w.parentHash, b1);
    BranchReads(w.coinbaseBranch, b2);
    BranchReads(w.chainBranch, b3);
    HeaderReads(w.parent, rest);
  }

  /** Every printed proof reads back, whatever follows it: header, merged-mining section and tree. */
  lemma {:induction false} ProofReads<Tx(!new), Body(!new)>(tx: Wire<Tx>, body: Wire<Body>, p: Proof<Tx, Body>, rest: seq<byte>)
    requires Lawful(tx) && Lawful(body) && WellFormed(p)
    ensures ReadProof(tx, body, PutProof(tx, body, p, rest)) == Some((p, rest))
  {
    var tail := body.put(p.body) + rest;
    assert body.ReadsBack(p.body, rest);
    HeaderReads(p.header, if p.work.Some? then PutWork(tx, p.work.value, tail) else tail);
    if p.work.Some? {
      WorkReads(tx, p.work.value, tail);
    }
  }

  // ---- Accepting nothing else ----

  lemma {:induction false} HeaderExact(b: seq<byte>)
    requires |b| >= 80
    ensures b == HeaderBytes(ParseHeader(b[..80])) + b[80..]
  {
    HeaderBytesOnto(b[..80]);
  }

  lemma {:induction false} HashExact(b: seq<byte>)
    requires |b| >= 32
    ensures b == HashBytes(ParseHash(b[..32])) + b[32..]
  {
    HashRoundTrip(NULL, b[..32]);
  }

  lemma {:induction false} MaskExact(b: seq<byte>)
    requires |b| >= 4
    ensures b == PutMask(ParseI32(b[..4]), b[4..])
  {
    I32RoundTrip(0, b[..4]);
  }

  lemma {:induction false} UintExact(width: nat, least: nat, b: seq<byte>)
    requires ReadUint(width, least, b).Some?
    ensures
      var (n, rest) := ReadUint(width, least, b).value;
      b == Le(n, width) + rest && least <= n < Pow256(width)
  {
    FromLeRoundTrip(b[..width]);
    assert b == b[..width] + b[width..];
  }

  lemma {:induction false} VarIntExact(b: seq<byte>)
    requires ReadVarInt(b).Some?
    ensures
      var (n, rest) := ReadVarInt(b).value;
      FitsU64(n) && b == PutVarInt(n, rest)
  {
    Pow256Values();
    assert b == [b[0]] + b[1..];
    if b[0] == 0xFF {
      UintExact(8, 0x1_0000_0000, b[1..]);
    } else if b[0] == 0xFE {
      UintExact(4, 0x1_0000, b[1..]);
    } else if b[0] == 0xFD {
      UintExact(2, 0xFD, b[1..]);
    }
  }

  lemma {:induction false} HashesExact(n: nat, b: seq<byte>)
    requires ReadHashes(n, b).Some?
    ensures
      var (hashes, rest) := ReadHashes(n, b).value;
      |hashes| == n && b == PutHashes(hashes, rest)
  {
    if n == 0 {
    } else {
      HashExact(b);
      HashesExact(n - 1, b[32..]);
      var (hs, rest) := ReadHashes(n - 1, b[32..]).value;
      var h := ParseHash(b[..32]);
      assert ([h] + hs)[1..] == hs;
    }
  }

  lemma {:induction false} BranchExact(b: seq<byte>)
    requires ReadBranch(b).Some?
    ensures
      var (branch, rest) := ReadBranch(b).value;
      FitsU64(|branch.hashes|) && b == PutBranch(branch, rest)
  {
    VarIntExact(b);
    var (n, b0) := ReadVarInt(b).value;
    HashesExact(n, b0);
    MaskExact(ReadHashes(n, b0).value.1);
  }

  lemma {:induction false} WorkExact<Tx(!new)>(tx: Wire<Tx>, b: seq<byte>)
    requires Lawful(tx) && ReadWork(tx, b).Some?
    ensures
      var (w, rest) := ReadWork(tx, b).value;
      && FitsU64(|w.coinbaseBranch.hashes|) && FitsU64(|w.chainBranch.hashes|)
      && b == PutWork(tx, w, rest)
  {
    assert tx.Exact(b);
    var b0 := tx.read(b).value.1;
    HashExact(b0);
    BranchExact(b0[32..]);
    var b2 := ReadBranch(b0[32..]).value.1;
    BranchExact(b2);
    HeaderExact(ReadBranch(b2).value.1);
  }

  /** Only printed proofs are accepted, followed by any bytes at all: trailing bytes go unnoticed. */
  lemma {:induction false} ProofExact<Tx(!new), Body(!new)>(tx: Wire<Tx>, body: Wire<Body>, b: seq<byte>)
    requires Lawful(tx) && Lawful(body) && ReadProof(tx, body, b).Some?
    ensures
      var (p, rest) := ReadProof(tx, body, b).value;
      WellFormed(p) && b == PutProof(tx, body, p, rest)
  {
    HeaderExact(b);
    var header := ParseHeader(b[..80]);
    if HasWork(header.version) {
      WorkExact(tx, b[80..]);
    }
    assert body.Exact(ReadOptionalWork(tx, header.version, b[80..]).value.1);
  }

  // ---- The parser with a cursor ----

  /** A reading step gave what the specification reads, or failed where it fails. */
  ghost predicate Follows<T>(r: Option<T>, spec: Read<T>, rest: seq<byte>) {
    && (r.Some? <==> spec.Some?)
    && (r.Some? ==> spec.value == (r.value, rest))
  }

  /** `std::io::Cursor` over the decoded bytes. */
  class Cursor {
    const bytes: seq<byte>
    var at: nat

    ghost predicate Valid()
      reads this
    {
      at <= |bytes|
    }

    function Rest(): seq<byte>
      requires Valid()
      reads this
    {
      bytes[at..]
    }

    constructor (bytes: seq<byte>)
      ensures Valid() && Rest() == bytes
    {
      this.bytes := bytes;
      at := 0;
    }

    method Take(n: nat) returns (r: Option<seq<byte>>)
      requires Valid()
      modifies this
      ensures Valid()
      ensures r.None? <==> |old(Rest())| < n
      ensures r.Some? ==> r.value == old(Rest())[..n] && Rest() == old(Rest())[n..]
    {
      if |bytes| - at < n {
        return None;
      }
      r := Some(bytes[at..at + n]);
      assert bytes[at..][..n] == bytes[at..at + n];
      assert bytes[at..][n..] == bytes[at + n..];
      at := at + n;
    }

    method Header() returns (r: Option<Header>)
      requires Valid()
      modifies this
      ensures Valid() && Follows(r, ReadHeader(old(Rest())), Rest())
    {
      var b := Take(80);
      r := if b.Some? then Some(ParseHeader(b.value)) else None;
    }

    method BlockHash() returns (r: Option<Hash>)
      requires Valid()
      modifies this
      ensures Valid() && Follows(r, ReadHash(old(Rest())), Rest())
      ensures r.Some? ==> |Rest()| + 32 == |old(Rest())|
    {
      var b := Take(32);
      r := if b.Some? then Some(ParseHash(b.value)) else None;
    }

    method Mask() returns (r: Option<i32>)
      requires Valid()
      modifies this
      ensures Valid() && Follows(r, ReadMask(old(Rest())), Rest())
    {
      var b := Take(4);
      r := if b.Some? then Some(ParseI32(b.value)) else None;
    }

    method Uint(width: nat, least: nat) returns (r: Option<nat>)
      requires Valid()
      modifies this
      ensures Valid() && Follows(r, ReadUint(width, least, old(Rest())), Rest())
    {
      var b := Take(width);
      r := if b.Some? && FromLe(b.value) >= least then Some(FromLe(b.value)) else None;
    }

    method VarInt() returns (r: Option<nat>)
      requires Valid()
      modifies this
      ensures Valid() && Follows(r, ReadVarInt(old(Rest())), Rest())
    {
      var first := Take(1);
      if first.None? {
        return None;
      }
      match first.value[0]
      case 0xFF => r := Uint(8, 0x1_0000_0000);
      case 0xFE => r := Uint(4, 0x1_0000);
      case 0xFD => r := Uint(2, 0xFD);
      case n => r := Some(n);
    }

    method Decode<T(!new)>(w: Wire<T>) returns (r: Option<T>)
      requires Valid() && Lawful(w)
      modifies this
      ensures Valid() && Follows(r, w.read(old(Rest())), Rest())
    {
      ghost var b := Rest();
      var read := w.read(bytes[at..]);
      if read.None? {
        return None;
      }
      assert w.Exact(b);
      ghost var n := |w.put(read.value.0)|;
      assert b[n..] == read.value.1;
      assert bytes[at..][n..] == bytes[at + n..];
      at := |bytes| - |read.value.1|;
      r := Some(read.value.0);
    }

    /**
     * The loop over a branch, whose hashes are read and dropped. However large `n` is, each turn but the
     * last consumes 32 bytes.
     */
    method SkipHashes(n: nat) returns (ok: bool, turns: nat)
      requires Valid()
      modifies this
      ensures Valid()
      ensures ok <==> ReadHashes(n, old(Rest())).Some?
      ensures ok ==> turns == n && Rest() == ReadHashes(n, old(Rest())).value.1
      ensures 32 * turns <= |old(Rest())| + if ok then 0 else 32
    {
      turns := 0;
      ghost var all := Rest();
      while turns < n
        invariant Valid() && turns <= n
        invariant ReadHashes(n, all).Some? <==> ReadHashes(n - turns, Rest()).Some?
        invariant ReadHashes(n, all).Some? ==> ReadHashes(n, all).value.1 == ReadHashes(n - turns, Rest()).value.1
        invariant 32 * turns + |Rest()| == |all|
      {
        var h := BlockHash();
        turns := turns + 1;
        if h.None? {
          return false, turns;
        }
      }
      ok := true;
    }

    /** A branch: its length, its hashes, its mask. */
    method SkipBranch() returns (ok: bool)
      requires Valid()
      modifies this
      ensures Valid()
      ensures ok <==> ReadBranch(old(Rest())).Some?
      ensures ok ==> Rest() == ReadBranch(old(Rest())).value.1
    {
      var n := VarInt();
      if n.None? {
        return false;
      }
      var read, _ := SkipHashes(n.value);
      if !read {
        return false;
      }
      var mask := Mask();
      return mask.Some?;
    }

    method SkipWork<Tx(!new)>(tx: Wire<Tx>) returns (ok: bool)
      requires Valid() && Lawful(tx)
      modifies this
      ensures Valid()
      ensures ok <==> ReadWork(tx, old(Rest())).Some?
      ensures ok ==> Rest() == ReadWork(tx, old(Rest())).value.1
    {
      var coinbase := Decode(tx);
      if coinbase.None? {
        return false;
      }
      var parentHash := BlockHash();
      if parentHash.None? {
        return false;
      }
      ok := SkipBranch();
      if !ok {
        return false;
      }
      ok := SkipBranch();
      if !ok {
        return false;
      }
      var parent := Header();
      return parent.Some?;
    }
  }

  // ---- Hexadecimal text in JSON ----

  datatype Json = Text(text: string) | NotText

  function HexDigit(c: char): (d: Option<nat>)
    ensures d.Some? ==> d.value < 16
  {
    if '0' <= c <= '9' then Some(c as nat - '0' as nat)
    else if 'a' <= c <= 'f' then Some(c as nat - 'a' as nat + 10)
    else if 'A' <= c <= 'F' then Some(c as nat - 'A' as nat + 10)
    else None
  }

  /** `hex::decode`: an odd length or any other character is an error. */
  function HexDecode(text: string): Option<seq<byte>> {
    if text == [] then Some([])
    else if |text| == 1 then None
    else
      match (HexDigit(text[0]), HexDigit(text[1]), HexDecode(text[2..]))
      case (Some(hi), Some(lo), Some(rest)) => Some([16 * hi + lo] + rest)
      case _ => None
  }

  function HexChar(n: nat): char
    requires n < 16
  {
    if n < 10 then '0' + n as char else 'a' + (n - 10) as char
  }

  function HexEncode(b: seq<byte>): string {
    if b == [] then [] else [HexChar(b[0] / 16), HexChar(b[0] % 16)] + HexEncode(b[1..])
  }

  lemma {:induction false} HexReads(b: seq<byte>)
    ensures HexDecode(HexEncode(b)) == Some(b)
  {
    if b == [] {
    } else {
      HexReads(b[1..]);
      assert HexEncode(b)[2..] == HexEncode(b[1..]);
      assert b == [b[0]] + b[1..];
    }
  }

  /** The value of each digit, and nothing else is one. */
  lemma {:induction false} HexDigits(c: char, n: nat)
    ensures HexDigit(c) == Some(n) <==> n < 16 && (c == "0123456789abcdef"[n] || c == "0123456789ABCDEF"[n])
  {
  }

  /** Two digits make a byte, the high one first. */
  predicate PairIs(text: string, at: nat, b: byte) {
    && at + 1 < |text| && HexDigit(text[at]).Some? && HexDigit(text[at + 1]).Some?
    && b as nat == 16 * HexDigit(text[at]).value + HexDigit(text[at + 1]).value
  }

  predicate ArePairs(text: string, b: seq<byte>) {
    |text| == 2 * |b| && forall i :: 0 <= i < |b| ==> PairIs(text, 2 * i, b[i])
  }

  lemma {:induction false} PairsShift(text: string, b: seq<byte>)
    requires |text| == 2 * |b| && b != []
    ensures ArePairs(text, b) <==> PairIs(text, 0, b[0]) && ArePairs(text[2..], b[1..])
  {
    if ArePairs(text, b) {
      assert PairIs(text, 2 * 0, b[0]);
      forall i | 0 <= i < |b| - 1 ensures PairIs(text[2..], 2 * i, b[1..][i]) {
        assert PairIs(text, 2 * (i + 1), b[i + 1]);
      }
    }
    if PairIs(text, 0, b[0]) && ArePairs(text[2..], b[1..]) {
      forall i | 0 <= i < |b| ensures PairIs(text, 2 * i, b[i]) {
        if i > 0 {
          assert PairIs(text[2..], 2 * (i - 1), b[1..][i - 1]);
        }
      }
    }
  }

  /** A text decodes to exactly the bytes its pairs of digits make, and to nothing if some pair is not one. */
  lemma {:induction false} HexDecodesPairs(text: string, b: seq<byte>)
    ensures HexDecode(text) == Some(b) <==> ArePairs(text, b)
  {
    if |text| < 2 {
    } else if b == [] {
    } else if |text| != 2 * |b| {
      HexDecodesPairs(text[2..], b[1..]);
    } else {
      HexDecodesPairs(text[2..], b[1..]);
      PairsShift(text, b);
      assert b == [b[0]] + b[1..];
    }
  }

  /** The JSON value is the hexadecimal text of these bytes. */
  predicate Spells(value: Json, b: seq<byte>) {
    value.Text? && HexDecode(value.text) == Some(b)
  }

  /** The JSON value spells the proof `p` followed by `rest`. */
  ghost predicate Carries<Tx, Body>(value: Json, tx: Wire<Tx>, body: Wire<Body>, p: Proof<Tx, Body>,
                                    rest: seq<byte>)
  {
    WellFormed(p) && Spells(value, PutProof(tx, body, p, rest))
  }

  /**
   * `doge_merkleblock_from_value` succeeds exactly on the text of a printed proof, followed by anything,
   * and returns its header and tree whatever its merged-mining section holds.
   */
  method DogeMerkleBlock<Tx(!new), Body(!new)>(value: Json, tx: Wire<Tx>, body: Wire<Body>)
    returns (r: Outcome<MerkleBlock<Body>>)
    requires Lawful(tx) && Lawful(body)
    ensures r.Ok? || r.Err?
    ensures r.Ok? ==> exists p, rest :: Carries(value, tx, body, p, rest)
    ensures forall p, rest :: Carries(value, tx, body, p, rest) ==> r == Ok(MerkleBlock(p.header, p.body))
  {
    if value.NotText? {
      return Err;
    }
    var decoded := HexDecode(value.text);
    if decoded.None? {
      return Err;
    }
    var b := decoded.value;
    ProofReadsOrNot(value, tx, body, b);
    var cursor := new Cursor(b);
    var header := cursor.Header();
    if header.None? {
      return Err;
    }
    if HasWork(header.value.version) {
      var ok := cursor.SkipWork(tx);
      if !ok {
        return Err;
      }
    }
    var tree := cursor.Decode(body);
    if tree.None? {
      return Err;
    }
    return Ok(MerkleBlock(header.value, tree.value));
  }

  /** The hexadecimal text of any printed proof carries it, so `DogeMerkleBlock` gives back header and tree. */
  lemma {:induction false} TextCarries<Tx(!new), Body(!new)>(tx: Wire<Tx>, body: Wire<Body>, p: Proof<Tx, Body>, rest: seq<byte>)
    requires WellFormed(p)
    ensures Carries(Text(HexEncode(PutProof(tx, body, p, rest))), tx, body, p, rest)
  {
    HexReads(PutProof(tx, body, p, rest));
  }

  /** The reader succeeds on `b` exactly when `b` is a printed proof and more, and then reads that proof. */
  lemma {:induction false} ProofReadsOrNot<Tx(!new), Body(!new)>(value: Json, tx: Wire<Tx>, body: Wire<Body>, b: seq<byte>)
    requires Lawful(tx) && Lawful(body) && Spells(value, b)
    ensures ReadProof(tx, body, b).Some? ==>
      Carries(value, tx, body, ReadProof(tx, body, b).value.0, ReadProof(tx, body, b).value.1)
    ensures forall p, rest :: Carries(value, tx, body, p, rest) ==> ReadProof(tx, body, b) == Some((p, rest))
  {
    if ReadProof(tx, body, b).Some? {
      ProofExact(tx, body, b);
    }
    forall p, rest | Carries(value, tx, body, p, rest) ensures ReadProof(tx, body, b) == Some((p, rest)) {
      ProofReads(tx, body, p, rest);
    }
  }

  // ---- The other two parsers ----

  /** `merkleblock_from_value`: no merged-mining section, and no trailing bytes. */
  function PlainMerkleBlock<Body>(b: seq<byte>, body: Wire<Body>): Outcome<MerkleBlock<Body>> {
    match ReadHeader(b)
    case None => Err
    case Some((header, b0)) =>
      match body.read(b0)
      case None => Err
      case Some((tree, rest)) => if rest == [] then Ok(MerkleBlock(header, tree)) else Err
  }

  /** `header_from_value_fractal_or_doge`: the header in the first 80 bytes. */
  function LeadingHeader(b: seq<byte>): Outcome<Header> {
    if |b| < 80 then Err else Ok(ParseHeader(b[..80]))
  }

  /** Without the flag the two parsers agree, except that only the plain one refuses trailing bytes. */
  lemma {:induction false} FlagClearAgrees<Tx(!new), Body(!new)>(tx: Wire<Tx>, body: Wire<Body>, p: Proof<Tx, Body>, rest: seq<byte>)
    requires Lawful(tx) && Lawful(body) && WellFormed(p) && !HasWork(p.header.version)
    ensures
      PlainMerkleBlock(PutProof(tx, body, p, rest), body)
      == if rest == [] then Ok(MerkleBlock(p.header, p.body)) else Err
  {
    HeaderReads(p.header, body.put(p.body) + rest);
    assert body.ReadsBack(p.body, rest);
  }

  /** Whatever the plain parser accepts with the flag clear is a printed proof without trailing bytes. */
  lemma {:induction false} PlainIsProof<Tx(!new), Body(!new)>(tx: Wire<Tx>, body: Wire<Body>, b: seq<byte>)
    requires Lawful(tx) && Lawful(body) && PlainMerkleBlock(b, body).Ok?
    requires !HasWork(PlainMerkleBlock(b, body).value.header.version)
    ensures
      var m := PlainMerkleBlock(b, body).value;
      var p: Proof<Tx, Body> := Proof(m.header, None, m.body);
      WellFormed(p) && b == PutProof(tx, body, p, [])
  {
    HeaderExact(b);
    assert body.Exact(b[80..]);
  }

  /** The header read on its own is the header of the proof that the bytes begin. */
  lemma {:induction false} LeadingHeaderOfProof<Tx(!new), Body(!new)>(tx: Wire<Tx>, body: Wire<Body>, p: Proof<Tx, Body>, rest: seq<byte>)
    ensures LeadingHeader(PutProof(tx, body, p, rest)) == Ok(p.header)
  {
    var tail := body.put(p.body) + rest;
    HeaderReads(p.header, if p.work.Some? then PutWork(tx, p.work.value, tail) else tail);
  }
}
