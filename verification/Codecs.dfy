/** The little-endian wire forms of integers, hashes and 80-byte headers. */
module Codecs {
  import opened Bytes
  import opened Chain

  function HashBytes(h: Hash): (s: seq<byte>)
    ensures |s| == 32
  {
    Le(h, 32)
  }

  function ParseHash(s: seq<byte>): (h: Hash)
    requires |s| == 32
  {
    FromLeRoundTrip(s);
    HashWidth();
    FromLe(s)
  }

  lemma {:induction false} HashRoundTrip(h: Hash, s: seq<byte>)
    requires |s| == 32
    ensures ParseHash(HashBytes(h)) == h
    ensures HashBytes(ParseHash(s)) == s
  {
    HashWidth();
    LeRoundTrip(h, 32);
    FromLeRoundTrip(s);
  }

  /** The 80-byte wire form of a header. */
  function HeaderBytes(h: Header): (s: seq<byte>)
    ensures |s| == 80
  {
    Le(h.version % 0x1_0000_0000, 4) + (HashBytes(h.prev) + (HashBytes(h.merkleRoot)
    + (Le(h.time, 4) + (Le(h.bits, 4) + Le(h.nonce, 4)))))
  }

  function ParseU32(s: seq<byte>): (n: u32)
    requires |s| == 4
  {
    FromLeRoundTrip(s);
    Pow256Values();
    FromLe(s)
  }

  function ParseI32(s: seq<byte>): (n: i32)
    requires |s| == 4
  {
    var n := ParseU32(s);
    if n < 0x8000_0000 then n else n - 0x1_0000_0000
  }

  function ParseHeader(s: seq<byte>): Header
    requires |s| == 80
  {
    var a := s[4..];
    var b := a[32..];
    var c := b[32..];
    var d := c[4..];
    var e := d[4..];
    Header(ParseI32(s[..4]), ParseHash(a[..32]), ParseHash(b[..32]),
           ParseU32(c[..4]), ParseU32(d[..4]), ParseU32(e[..4]))
  }

  lemma {:induction false} U32RoundTrip(n: u32, s: seq<byte>)
    requires |s| == 4
    ensures ParseU32(Le(n, 4)) == n
    ensures Le(ParseU32(s), 4) == s
  {
    Pow256Values();
    LeRoundTrip(n, 4);
    FromLeRoundTrip(s);
  }

  lemma {:induction false} I32RoundTrip(n: i32, s: seq<byte>)
    requires |s| == 4
    ensures ParseI32(Le(n % 0x1_0000_0000, 4)) == n
    ensures Le(ParseI32(s) % 0x1_0000_0000, 4) == s
  {
    assert n % 0x1_0000_0000 == if n < 0 then n + 0x1_0000_0000 else n;
    assert ParseI32(s) % 0x1_0000_0000 == ParseU32(s);
    U32RoundTrip(n % 0x1_0000_0000, s);
  }

  lemma {:induction false} HeaderRoundTrip(h: Header)
    ensures ParseHeader(HeaderBytes(h)) == h
  {
    var s := HeaderBytes(h);
    var z: seq<byte> := Le(0, 4);
    var e := Le(h.nonce, 4);
    var d := Le(h.bits, 4) + e;
    var c := Le(h.time, 4) + d;
    var b := HashBytes(h.merkleRoot) + c;
    var a := HashBytes(h.prev) + b;
    assert s[..4] == Le(h.version % 0x1_0000_0000, 4) && s[4..] == a;
    assert a[..32] == HashBytes(h.prev) && a[32..] == b;
    assert b[..32] == HashBytes(h.merkleRoot) && b[32..] == c;
    assert c[..4] == Le(h.time, 4) && c[4..] == d;
    assert d[..4] == Le(h.bits, 4) && d[4..] == e && e[..4] == e;
    I32RoundTrip(h.version, z);
    HashRoundTrip(h.prev, HashBytes(h.prev));
    HashRoundTrip(h.merkleRoot, HashBytes(h.prev));
    U32RoundTrip(h.time, z);
    U32RoundTrip(h.bits, z);
    U32RoundTrip(h.nonce, z);
  }

  /** Every 80 bytes are the wire form of the header they parse to. */
  lemma {:induction false} HeaderBytesOnto(s: seq<byte>)
    requires |s| == 80
    ensures HeaderBytes(ParseHeader(s)) == s
  {
    var a := s[4..];
    var b := a[32..];
    var c := b[32..];
    var d := c[4..];
    var e := d[4..];
    I32RoundTrip(0, s[..4]);
    HashRoundTrip(0, a[..32]);
    HashRoundTrip(0, b[..32]);
    U32RoundTrip(0, c[..4]);
    U32RoundTrip(0, d[..4]);
    U32RoundTrip(0, e[..4]);
    assert e == e[..4] && d == d[..4] + e && c == c[..4] + d;
    assert b == b[..32] + c && a == a[..32] + b && s == s[..4] + a;
  }

  /** The unsigned integer in the four bytes from `i`, lowest byte first. */
  function U32At(s: seq<byte>, i: nat): nat
    requires i + 4 <= |s|
  {
    (s[i] as nat) + 256 * (s[i + 1] as nat) + 65536 * (s[i + 2] as nat) + 16777216 * (s[i + 3] as nat)
  }

  lemma {:induction false} FromLeFour(s: seq<byte>)
    requires |s| == 4
    ensures FromLe(s) == U32At(s, 0)
  {
    assert FromLe(s[3..]) == s[3];
    assert FromLe(s[2..]) == s[2] + 256 * FromLe(s[3..]);
    assert FromLe(s[1..]) == s[1] + 256 * FromLe(s[2..]);
  }

  /** Where each field of the wire form is: version, previous hash, Merkle root, time, bits, nonce. */
  lemma {:induction false} HeaderLayout(s: seq<byte>)
    requires |s| == 80
    ensures
      var h := ParseHeader(s);
      && h.version == (if s[3] < 128 then U32At(s, 0) else U32At(s, 0) - 4294967296)
      && h.prev == ParseHash(s[4..36]) && h.merkleRoot == ParseHash(s[36..68])
      && h.time == U32At(s, 68) && h.bits == U32At(s, 72) && h.nonce == U32At(s, 76)
  {
    FromLeFour(s[..4]);
    FromLeFour(s[68..72]);
    FromLeFour(s[72..76]);
    FromLeFour(s[76..]);
    assert s[4..][..32] == s[4..36] && s[4..][32..][..32] == s[36..68];
    assert s[4..][32..][32..] == s[68..];
    assert s[68..][..4] == s[68..72] && s[68..][4..] == s[72..];
    assert s[72..][..4] == s[72..76] && s[72..][4..] == s[76..] && s[76..][..4] == s[76..];
  }
}
