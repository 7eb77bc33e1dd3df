/**
  What bucket a subject gets: the bytes that are hashed, the number that is read
  from the digest, and that no two subjects are tied to each other.
 */
module Buckets {
  import opened Results
  import opened Text
  import opened Domain

  /** The first byte is the most significant one. */
  lemma {:induction false} BigEndianIsPositional(first: byte, rest: seq<byte>)
    ensures BigEndian([first] + rest) == first * Power(256, |rest|) + BigEndian(rest)
  {
    var bytes := [first] + rest;
    if rest == [] {
      assert bytes[..0] == [];
    } else {
      var n := |rest| - 1;
      assert bytes[..|bytes| - 1] == [first] + rest[..n] && bytes[|bytes| - 1] == rest[n];
      BigEndianIsPositional(first, rest[..n]);
    }
  }

  /** The number in the first eight bytes. */
  function EightBytes(d: seq<byte>): int
    requires |d| >= 8
  {
    var byteAt := (i: int) requires 0 <= i < 8 => d[i] as int;
    byteAt(0) * 0x100_0000_0000_0000 + byteAt(1) * 0x1_0000_0000_0000 + byteAt(2) * 0x100_0000_0000
    + byteAt(3) * 0x1_0000_0000 + byteAt(4) * 0x100_0000 + byteAt(5) * 0x1_0000 + byteAt(6) * 0x100 + byteAt(7)
  }

  lemma BigEndianStep(d: seq<byte>, n: nat)
    requires n < |d|
    ensures BigEndian(d[..n + 1]) == 256 * BigEndian(d[..n]) + d[n]
  {
    assert d[..n + 1][..n] == d[..n];
  }

  lemma EightBytesAre(d: seq<byte>)
    requires |d| >= 8
    ensures BigEndian(d[..8]) == EightBytes(d)
  {
    assert d[..0] == [];
    BigEndianStep(d, 0);
    BigEndianStep(d, 1);
    BigEndianStep(d, 2);
    BigEndianStep(d, 3);
    BigEndianStep(d, 4);
    BigEndianStep(d, 5);
    BigEndianStep(d, 6);
    BigEndianStep(d, 7);
  }

  /** The hashed bytes: each of the four parts with a zero byte after it. */
  function Hashed(org: Text, environment: Text, flag: Text, targeting: Text): Text {
    org + [0] + environment + [0] + flag + [0] + targeting + [0]
  }

  lemma PreimageIs(org: Text, environment: Text, flag: Text, targeting: Text)
    ensures Preimage([org, environment, flag, targeting]) == Hashed(org, environment, flag, targeting)
  {
    assert Preimage([]) == [];
    assert [targeting][1..] == [];
    assert Preimage([targeting]) == targeting + [0];
    assert [flag, targeting][1..] == [targeting];
    assert [environment, flag, targeting][1..] == [flag, targeting];
    assert [org, environment, flag, targeting][1..] == [environment, flag, targeting];
    assert Preimage([flag, targeting]) == flag + [0] + (targeting + [0]);
  }

  /** The bucket is the number in the first eight bytes of the digest, modulo 10 000. */
  lemma BucketIs(sha: Sha256, org: Text, environment: Text, flag: Text, targeting: Text)
    ensures Bucket(sha, org, environment, flag, targeting)
            == EightBytes(sha(org + [0] + environment + [0] + flag + [0] + targeting + [0])) % 10000
  {
    PreimageIs(org, environment, flag, targeting);
    EightBytesAre(sha(Hashed(org, environment, flag, targeting)));
  }

  // -------------------------------------------------------------- independence

  /** What identifies a subject of a rollout. */
  datatype Subject = Subject(org: Text, environment: Text, flag: Text, targeting: Text)

  ghost predicate Admitted(s: Subject) {
    ValidOpaqueId(s.org) && ValidKey(s.environment, 128) && ValidKey(s.flag, 128) && ValidOpaqueId(s.targeting)
  }

  function BucketOf(sha: Sha256, s: Subject): nat {
    Bucket(sha, s.org, s.environment, s.flag, s.targeting)
  }

  function DigestFor(bucket: nat): Digest
    requires bucket < 10000
  {
    [0, 0, 0, 0, 0, 0, bucket / 256, bucket % 256] + seq(24, _ => 0)
  }

  lemma DigestGives(sha: Sha256, s: Subject, bucket: nat)
    requires bucket < 10000 && sha(Hashed(s.org, s.environment, s.flag, s.targeting)) == DigestFor(bucket)
    ensures BucketOf(sha, s) == bucket
  {
    BucketIs(sha, s.org, s.environment, s.flag, s.targeting);
  }

  /** Two different admitted subjects can have any two buckets. */
  lemma BucketsAreIndependent(s: Subject, t: Subject, b: nat, c: nat) returns (sha: Sha256)
    requires Admitted(s) && Admitted(t) && s != t && b < 10000 && c < 10000
    ensures BucketOf(sha, s) == b && BucketOf(sha, t) == c
  {
    var p, q := Hashed(s.org, s.environment, s.flag, s.targeting), Hashed(t.org, t.environment, t.flag, t.targeting);
    if p == q {
      PreimageIs(s.org, s.environment, s.flag, s.targeting);
      PreimageIs(t.org, t.environment, t.flag, t.targeting);
      BucketKeyInjective(s.org, s.environment, s.flag, s.targeting, t.org, t.environment, t.flag, t.targeting);
    }
    var forS, forT := DigestFor(b), DigestFor(c);
    sha := text => if text == p then forS else forT;
    DigestGives(sha, s, b);
    DigestGives(sha, t, c);
  }

  /** A subject is tied to its bucket by all four parts: no hash-independent coincidence. */
  lemma SameBucketMeansSameSubject(s: Subject, t: Subject)
    requires Admitted(s) && Admitted(t)
    ensures (forall sha: Sha256 :: BucketOf(sha, s) == BucketOf(sha, t)) <==> s == t
  {
    if s != t {
      var sha := BucketsAreIndependent(s, t, 0, 1);
      assert BucketOf(sha, s) != BucketOf(sha, t);
    }
  }
}
