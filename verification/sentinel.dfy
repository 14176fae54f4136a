/** The sentinel matcher: recognising the magic instruction
    `movabsq rax, 0xcafebabedeadbeef` by its exact 10-byte encoding. */
module Sentinel {
  import opened Words

  /** The encoding of `movabsq rax, 0xcafebabedeadbeef`. */
  const MAGIC_INST: seq<u8> := [0x48, 0xb8, 0xef, 0xbe, 0xad, 0xde, 0xbe, 0xba, 0xfe, 0xca]

  /** `memcmp(a, b, n) == 0`: the first `n` bytes of `a` and `b` agree,
      compared one byte at a time from the front. */
  function MemEq(a: seq<u8>, b: seq<u8>, n: nat): bool
    requires n <= |a| && n <= |b|
  {
    n == 0 || (a[0] == b[0] && MemEq(a[1..], b[1..], n - 1))
  }

  lemma {:induction false} MemEqIsPrefixEquality(a: seq<u8>, b: seq<u8>, n: nat)
    requires n <= |a| && n <= |b|
    ensures MemEq(a, b, n) <==> a[..n] == b[..n]
  {
    if n > 0 {
      MemEqIsPrefixEquality(a[1..], b[1..], n - 1);
      assert a[..n] == [a[0]] + a[1..][..n - 1];
      assert b[..n] == [b[0]] + b[1..][..n - 1];
      if a[..n] == b[..n] {
        assert a[0] == a[..n][0] && b[0] == b[..n][0];
        assert a[1..][..n - 1] == a[..n][1..] && b[1..][..n - 1] == b[..n][1..];
      }
    }
  }

  /** The plugin's `is_magic_inst(data, size)`, for an instruction whose
      `size` bytes are `data`: the size must be that of the magic encoding,
      and only then are the bytes compared. */
  predicate IsMagic(data: seq<u8>)
  {
    |data| == |MAGIC_INST| && MemEq(data, MAGIC_INST, |MAGIC_INST|)
  }

  /** Exact-length, exact-byte matching: nothing but the magic encoding itself matches. */
  lemma IsMagicExactly(data: seq<u8>)
    ensures IsMagic(data) <==> data == MAGIC_INST
  {
    if |data| == |MAGIC_INST| {
      MemEqIsPrefixEquality(data, MAGIC_INST, |MAGIC_INST|);
      assert data[..|MAGIC_INST|] == data;
      assert MAGIC_INST[..|MAGIC_INST|] == MAGIC_INST;
    }
  }

  /** No proper prefix of the magic encoding matches. */
  lemma PrefixRejected(k: nat)
    requires k < |MAGIC_INST|
    ensures !IsMagic(MAGIC_INST[..k])
  {
  }

  /** No extension of the magic encoding matches. */
  lemma ExtensionRejected(tail: seq<u8>)
    requires tail != []
    ensures !IsMagic(MAGIC_INST + tail)
  {
  }

  /** No single-byte mutation of the magic encoding matches. */
  lemma MutationRejected(k: nat, b: u8)
    requires k < |MAGIC_INST| && b != MAGIC_INST[k]
    ensures !IsMagic(MAGIC_INST[k := b])
  {
    IsMagicExactly(MAGIC_INST[k := b]);
    assert MAGIC_INST[k := b][k] != MAGIC_INST[k];
  }

  /** The examples of a truncated and a mutated encoding: the 9-byte prefix,
      and the full encoding with its last byte changed to 0xcb. */
  lemma SentinelExamples()
    ensures IsMagic([0x48, 0xb8, 0xef, 0xbe, 0xad, 0xde, 0xbe, 0xba, 0xfe, 0xca])
    ensures !IsMagic([0x48, 0xb8, 0xef, 0xbe, 0xad, 0xde, 0xbe, 0xba, 0xfe])
    ensures !IsMagic([0x48, 0xb8, 0xef, 0xbe, 0xad, 0xde, 0xbe, 0xba, 0xfe, 0xcb])
  {
    IsMagicExactly([0x48, 0xb8, 0xef, 0xbe, 0xad, 0xde, 0xbe, 0xba, 0xfe, 0xca]);
    IsMagicExactly([0x48, 0xb8, 0xef, 0xbe, 0xad, 0xde, 0xbe, 0xba, 0xfe, 0xcb]);
  }
}
