/** Bytes, block hashes and the byte order that RocksDB and `BTreeMap` compare keys with. */
module Bytes {

  type byte = b: int | 0 <= b < 256

  type u32 = n: int | 0 <= n < 0x1_0000_0000

  type i32 = n: int | -0x8000_0000 <= n < 0x8000_0000

  /** A block hash: 32 bytes, held as the integer they spell in little-endian order. */
  type Hash = n: int | 0 <= n < HASH_BOUND

  const HASH_BOUND: nat :=
    0x1_0000_0000_0000_0000_0000_0000_0000_0000_0000_0000_0000_0000_0000_0000_0000_0000

  /** `BlockHash::all_zeros()` */
  const NULL: Hash := 0

  predicate StartsWith(k: seq<byte>, prefix: seq<byte>) {
    prefix <= k
  }

  /** Lexicographic order on keys. */
  predicate Less(a: seq<byte>, b: seq<byte>) {
    b != [] && (a == [] || a[0] < b[0] || (a[0] == b[0] && Less(a[1..], b[1..])))
  }

  /** The first `i` bytes agree, and then `a` ends or has the smaller byte. */
  predicate BranchesAt(a: seq<byte>, b: seq<byte>, i: nat) {
    i <= |a| && i < |b| && a[..i] == b[..i] && (i == |a| || a[i] < b[i])
  }

  lemma {:induction false} SharedStart(a: seq<byte>, b: seq<byte>, i: nat)
    requires BranchesAt(a, b, i) && i > 0
    ensures a != [] && b != [] && a[0] == b[0]
  {
    assert a[..i][0] == a[0] && b[..i][0] == b[0];
  }

  /** The order on keys is the lexicographic one. */
  lemma {:induction false} LessIsLexicographic(a: seq<byte>, b: seq<byte>)
    ensures Less(a, b) <==> exists i :: BranchesAt(a, b, i)
  {
    if a == [] || b == [] || a[0] != b[0] {
      if Less(a, b) {
        assert BranchesAt(a, b, 0);
      }
      if i: nat :| BranchesAt(a, b, i) && i > 0 {
        SharedStart(a, b, i);
      }
    } else {
      LessIsLexicographic(a[1..], b[1..]);
      if Less(a, b) {
        var i: nat :| BranchesAt(a[1..], b[1..], i);
        assert a[..i + 1] == [a[0]] + a[1..][..i] && b[..i + 1] == [b[0]] + b[1..][..i];
        assert BranchesAt(a, b, i + 1);
      }
      if i: nat :| BranchesAt(a, b, i) {
        assert a[1..][..i - 1] == a[..i][1..] && b[1..][..i - 1] == b[..i][1..];
        assert BranchesAt(a[1..], b[1..], i - 1);
      }
    }
  }

  lemma {:induction false} LessTransitive(a: seq<byte>, b: seq<byte>, c: seq<byte>)
    requires Less(a, b) && Less(b, c)
    ensures Less(a, c)
  {
    if a != [] && a[0] == b[0] && b[0] == c[0] {
      LessTransitive(a[1..], b[1..], c[1..]);
    }
  }

  lemma {:induction false} LessTotal(a: seq<byte>, b: seq<byte>)
    ensures a == b || Less(a, b) || Less(b, a)
    ensures !(Less(a, b) && Less(b, a)) && !Less(a, a)
  {
    if a == [] {
    } else {
      LessTotal(a[1..], if b != [] then b[1..] else []);
      LessTotal(a[1..], a[1..]);
      if b != [] && a[0] == b[0] && a[1..] == b[1..] {
        assert a == [a[0]] + a[1..] && b == [b[0]] + b[1..];
      }
    }
  }

  /** A key that carries the prefix does not sort before the prefix itself. */
  lemma {:induction false} PrefixNotAfter(k: seq<byte>, prefix: seq<byte>)
    requires StartsWith(k, prefix)
    ensures !Less(k, prefix)
  {
    if prefix == [] {
    } else {
      PrefixNotAfter(k[1..], prefix[1..]);
    }
  }

  /** Past the first key that sorts after the prefix and does not carry it, no key carries it. */
  lemma {:induction false} PrefixEnds(k: seq<byte>, later: seq<byte>, prefix: seq<byte>)
    requires !Less(k, prefix) && !StartsWith(k, prefix) && Less(k, later)
    ensures !StartsWith(later, prefix)
  {
    if StartsWith(later, prefix) && k != [] && k[0] == prefix[0] {
      assert k == [k[0]] + k[1..] && prefix == [prefix[0]] + prefix[1..];
      PrefixEnds(k[1..], later[1..], prefix[1..]);
    }
  }

  /** Little-endian unsigned integers of a fixed width. */
  function Le(n: nat, width: nat): (s: seq<byte>)
    ensures |s| == width
  {
    if width == 0 then [] else [n % 256] + Le(n / 256, width - 1)
  }

  function FromLe(s: seq<byte>): nat {
    if s == [] then 0 else s[0] + 256 * FromLe(s[1..])
  }

  lemma {:induction false} Scaled(p: nat, n: nat)
    ensures 256 * (p * n) == 256 * p * n
  {
  }

  lemma {:induction false} FromLeSplit(s: seq<byte>, k: nat)
    requires k <= |s|
    ensures FromLe(s) == FromLe(s[..k]) + Pow256(k) * FromLe(s[k..])
  {
    if k == 0 {
    } else {
      FromLeSplit(s[1..], k - 1);
      assert s[..k][1..] == s[1..][..k - 1] && s[1..][k - 1..] == s[k..];
      Scaled(Pow256(k - 1), FromLe(s[k..]));
    }
  }

  function Pow256(width: nat): (p: nat)
    ensures p >= 1
  {
    if width == 0 then 1 else 256 * Pow256(width - 1)
  }

  lemma {:induction false} LeRoundTrip(n: nat, width: nat)
    requires n < Pow256(width)
    ensures FromLe(Le(n, width)) == n
  {
    if width == 0 {
    } else {
      LeRoundTrip(n / 256, width - 1);
      assert Le(n, width)[1..] == Le(n / 256, width - 1);
    }
  }

  lemma {:induction false} FromLeRoundTrip(s: seq<byte>)
    ensures FromLe(s) < Pow256(|s|)
    ensures Le(FromLe(s), |s|) == s
  {
    if s == [] {
    } else {
      FromLeRoundTrip(s[1..]);
      var n := FromLe(s);
      assert n % 256 == s[0] && n / 256 == FromLe(s[1..]);
      assert s == [s[0]] + s[1..];
    }
  }

  lemma {:induction false} Pow256Values()
    ensures Pow256(2) == 0x1_0000
    ensures Pow256(4) == 0x1_0000_0000
    ensures Pow256(8) == 0x1_0000_0000_0000_0000
  {
    assert Pow256(1) == 256;
    assert Pow256(3) == 256 * Pow256(2);
    assert Pow256(5) == 256 * Pow256(4);
    assert Pow256(7) == 256 * Pow256(6);
  }

  lemma {:induction false} Pow256Eight(width: nat)
    ensures Pow256(width + 8) == 0x1_0000_0000_0000_0000 * Pow256(width)
  {
    assert Pow256(width + 2) == 0x1_0000 * Pow256(width);
    assert Pow256(width + 4) == 0x1_0000 * Pow256(width + 2);
    assert Pow256(width + 6) == 0x1_0000 * Pow256(width + 4);
    assert Pow256(width + 8) == 0x1_0000 * Pow256(width + 6);
  }

  /** A hash is 32 bytes wide. */
  lemma {:induction false} HashWidth()
    ensures Pow256(32) == HASH_BOUND
  {
    Pow256Values();
    Pow256Eight(8);
    Pow256Eight(16);
    Pow256Eight(24);
  }
}
