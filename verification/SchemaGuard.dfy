/** The schema guard: FNV-1a over a schema string, compared with the hash registered for the current version. */
module SchemaGuard {
  import opened Base

  type Bytes = seq<u8>

  // FNV-1a for 64 bits: offset basis and prime of draft-eastlake-fnv, section 2.
  const OFFSET_BASIS: u64 := 0xcbf29ce484222325
  const PRIME: int := 0x100000001b3
  /** The inverse of PRIME modulo 2^64. */
  const PRIME_INVERSE: int := 0xce965057aff6957b

  /** Bitwise exclusive or. */
  function Xor(x: nat, y: nat): nat
    decreases x + y
  {
    if x == 0 && y == 0 then 0 else 2 * Xor(x / 2, y / 2) + (x + y) % 2
  }

  function Pow2(n: nat): nat {
    if n == 0 then 1 else 2 * Pow2(n - 1)
  }

  lemma {:induction false} XorBound(x: nat, y: nat, n: nat)
    requires x < Pow2(n) && y < Pow2(n)
    ensures Xor(x, y) < Pow2(n)
  {
    if n == 0 {
    } else {
      XorBound(x / 2, y / 2, n - 1);
    }
  }

  function XorBytes(a: u8, b: u8): u8 {
    assert Pow2(4) == 16;
    XorBound(a, b, 8);
    Xor(a, b)
  }

  /** Exclusive or of a word with a byte, which changes the low byte only. */
  function XorWord(h: u64, b: u8): u64 {
    h - h % 256 + XorBytes(h % 256, b)
  }

  function WrappingMul(x: u64, factor: int): u64
    requires factor >= 0
  {
    (x * factor) % U64_SIZE
  }

  function Step(h: u64, b: u8): u64 {
    WrappingMul(XorWord(h, b), PRIME)
  }

  function Unstep(h: u64, b: u8): u64 {
    XorWord(WrappingMul(h, PRIME_INVERSE), b)
  }

  function Fold(h: u64, s: Bytes): u64 {
    if s == [] then h else Step(Fold(h, s[..|s| - 1]), s[|s| - 1])
  }

  method ConstHash(s: Bytes) returns (hash: u64)
    ensures hash == Fold(OFFSET_BASIS, s)
  {
    hash := OFFSET_BASIS;
    var i := 0;
    while i < |s|
      invariant 0 <= i <= |s|
      invariant hash == Fold(OFFSET_BASIS, s[..i])
    {
      SplitLast(s, i);
      hash := XorWord(hash, s[i]);
      hash := WrappingMul(hash, PRIME);
      i := i + 1;
    }
    assert s[..|s|] == s;
  }

  // ---------------------------------------------------------------- each step is a bijection

  lemma XorUnfolds(x: nat, y: nat, x': nat, y': nat)
    requires x' == x / 2 && y' == y / 2
    ensures Xor(x, y) == 2 * Xor(x', y') + (x + y) % 2
  {
  }

  lemma {:induction false} XorTwice(x: nat, y: nat)
    ensures Xor(Xor(x, y), y) == x
    decreases x + y
  {
    if x == 0 && y == 0 {
    } else {
      var rest, z := Xor(x / 2, y / 2), Xor(x, y);
      XorTwice(x / 2, y / 2);
      Parity(x, y, z, rest);
      XorUnfolds(z, y, rest, y / 2);
    }
  }

  lemma Parity(x: nat, y: nat, z: nat, rest: nat)
    requires z == 2 * rest + (x + y) % 2
    ensures z / 2 == rest && (z + y) % 2 == x % 2
  {
  }

  lemma {:induction false} XorCommutes(x: nat, y: nat)
    ensures Xor(x, y) == Xor(y, x)
    decreases x + y
  {
    if x == 0 && y == 0 {
    } else {
      XorCommutes(x / 2, y / 2);
    }
  }

  lemma XorBytesTwice(a: u8, b: u8)
    ensures XorBytes(XorBytes(a, b), b) == a && XorBytes(a, b) == XorBytes(b, a)
  {
    XorTwice(a, b);
    XorCommutes(a, b);
  }

  lemma LowByte(h: u64, c: u8)
    ensures (h - h % 256 + c) % 256 == c
  {
  }

  lemma XorWordTwice(h: u64, b: u8)
    ensures XorWord(XorWord(h, b), b) == h
  {
    XorBytesTwice(h % 256, b);
    LowByte(h, XorBytes(h % 256, b));
  }

  lemma XorWordInjective(h: u64, a: u8, b: u8)
    requires XorWord(h, a) == XorWord(h, b)
    ensures a == b
  {
    var low := h % 256;
    XorBytesTwice(low, a);
    XorBytesTwice(low, b);
    XorBytesTwice(a, low);
    XorBytesTwice(b, low);
  }

  lemma Unwind(x: int, p: int, i: int, k: int, q: int, r: int, n: int)
    requires p * i == 1 + n * k && x * p == q * n + r
    ensures r * i == x + n * (x * k - q * i)
  {
    assert r * i == x * (p * i) - n * (q * i) by {
      assert r == x * p - q * n;
    }
  }

  /** Multiplying by p and then by an inverse of p modulo n gives the number back. */
  lemma InverseUndoes(x: int, p: int, i: int, k: int, n: int)
    requires 0 <= x < n && p * i == 1 + n * k
    ensures ((x * p) % n * i) % n == x
  {
    var q, r := (x * p) / n, (x * p) % n;
    Unwind(x, p, i, k, q, r, n);
    Residue(r * i, x, x * k - q * i, n);
  }

  lemma MulThenUnmul(x: u64)
    ensures WrappingMul(WrappingMul(x, PRIME), PRIME_INVERSE) == x
    ensures WrappingMul(WrappingMul(x, PRIME_INVERSE), PRIME) == x
  {
    InverseUndoes(x, PRIME, PRIME_INVERSE, 0xce9650590f, U64_SIZE);
    InverseUndoes(x, PRIME_INVERSE, PRIME, 0xce9650590f, U64_SIZE);
  }

  /** For a fixed byte, a step permutes the 64-bit states. */
  lemma StepBijective(h: u64, b: u8)
    ensures Unstep(Step(h, b), b) == h && Step(Unstep(h, b), b) == h
  {
    MulThenUnmul(XorWord(h, b));
    XorWordTwice(h, b);
    XorWordTwice(WrappingMul(h, PRIME_INVERSE), b);
    MulThenUnmul(h);
  }

  /** For a fixed state, different bytes lead to different states. */
  lemma ByteMatters(h: u64, a: u8, b: u8)
    requires a != b
    ensures Step(h, a) != Step(h, b)
  {
    MulThenUnmul(XorWord(h, a));
    MulThenUnmul(XorWord(h, b));
    if XorWord(h, a) == XorWord(h, b) {
      XorWordInjective(h, a, b);
    }
  }

  /** Over any fixed suffix, different starting states never meet. */
  lemma {:induction false} FoldInjective(h: u64, k: u64, s: Bytes)
    requires h != k
    ensures Fold(h, s) != Fold(k, s)
  {
    if s == [] {
    } else {
      FoldInjective(h, k, s[..|s| - 1]);
      StepBijective(Fold(h, s[..|s| - 1]), s[|s| - 1]);
      StepBijective(Fold(k, s[..|s| - 1]), s[|s| - 1]);
    }
  }

  lemma {:induction false} FoldConcat(h: u64, a: Bytes, b: Bytes)
    ensures Fold(h, a + b) == Fold(Fold(h, a), b)
  {
    if b == [] {
      assert a + b == a;
    } else {
      FoldConcat(h, a, b[..|b| - 1]);
      assert (a + b)[..|a + b| - 1] == a + b[..|b| - 1];
    }
  }

  /** The strings have the same length and differ in exactly one byte. */
  ghost predicate DifferInOneByte(s: Bytes, t: Bytes) {
    |s| == |t| && exists i :: 0 <= i < |s| && s[i] != t[i] && s[..i] == t[..i] && s[i + 1..] == t[i + 1..]
  }

  /** Such strings always hash differently. */
  lemma OneByteChangesHash(s: Bytes, t: Bytes)
    requires DifferInOneByte(s, t)
    ensures Fold(OFFSET_BASIS, s) != Fold(OFFSET_BASIS, t)
  {
    var i :| 0 <= i < |s| && s[i] != t[i] && s[..i] == t[..i] && s[i + 1..] == t[i + 1..];
    var h := Fold(OFFSET_BASIS, s[..i]);
    FoldAround(s, i);
    FoldAround(t, i);
    ByteMatters(h, s[i], t[i]);
    FoldInjective(Step(h, s[i]), Step(h, t[i]), s[i + 1..]);
  }

  lemma FoldAround(s: Bytes, i: nat)
    requires i < |s|
    ensures Fold(OFFSET_BASIS, s) == Fold(Step(Fold(OFFSET_BASIS, s[..i]), s[i]), s[i + 1..])
  {
    assert s == s[..i + 1] + s[i + 1..];
    FoldConcat(OFFSET_BASIS, s[..i + 1], s[i + 1..]);
    SplitLast(s, i);
  }

  // ---------------------------------------------------------------- verification at start-up

  datatype SchemaRegistry = SchemaRegistry(validatorInfoHash: u64, chainStateHash: u64)

  datatype TypeName = ValidatorInfoType | ChainStateType

  datatype SchemaError =
    | MissingVersion(version: u32)
    | SchemaMismatch(typeName: TypeName, expected: u64, actual: u64)

  function VerifySchemaIntegrity(registry: map<u32, SchemaRegistry>, current: u32, validatorInfo: Bytes,
        chainState: Bytes)
    : Result<(), SchemaError>
  {
    if current !in registry then Err(MissingVersion(current))
    else
      var expected := registry[current];
      var v, c := Fold(OFFSET_BASIS, validatorInfo), Fold(OFFSET_BASIS, chainState);
      if v != expected.validatorInfoHash then Err(SchemaMismatch(ValidatorInfoType, expected.validatorInfoHash, v))
      else if c != expected.chainStateHash then Err(SchemaMismatch(ChainStateType, expected.chainStateHash, c))
      else Ok(())
  }

  /**
   * The strings registered for the current version pass; after an edit of exactly one byte in either
   * of them the check reports a mismatch, naming the type edited when only one was.
   */
  lemma EditIsReported(registry: map<u32, SchemaRegistry>, current: u32, v0: Bytes, c0: Bytes, v: Bytes, c: Bytes)
    requires current in registry
    requires registry[current] == SchemaRegistry(Fold(OFFSET_BASIS, v0), Fold(OFFSET_BASIS, c0))
    ensures VerifySchemaIntegrity(registry, current, v0, c0) == Ok(())
    ensures DifferInOneByte(v0, v) ==>
              var r := VerifySchemaIntegrity(registry, current, v, c);
              r.Err? && r.error.SchemaMismatch? && r.error.typeName == ValidatorInfoType
    ensures DifferInOneByte(c0, c) ==>
              var r := VerifySchemaIntegrity(registry, current, v0, c);
              r.Err? && r.error.SchemaMismatch? && r.error.typeName == ChainStateType
  {
    if DifferInOneByte(v0, v) {
      OneByteChangesHash(v0, v);
    }
    if DifferInOneByte(c0, c) {
      OneByteChangesHash(c0, c);
    }
  }

  // ---------------------------------------------------------------- published values

  lemma {:induction false} XorZero(y: nat)
    ensures Xor(0, y) == y
  {
    if y == 0 {
    } else {
      XorZero(y / 2);
    }
  }

  lemma LowByteOfA()
    ensures XorBytes(0x25, 0x61) == 0x44
  {
    XorZero(1);
    XorUnfolds(1, 3, 0, 1);
    XorUnfolds(2, 6, 1, 3);
    XorUnfolds(4, 12, 2, 6);
    XorUnfolds(9, 24, 4, 12);
    XorUnfolds(18, 48, 9, 24);
    XorUnfolds(37, 97, 18, 48);
  }

  lemma XorWordLow(h: u64, q: nat, a: u8, b: u8)
    requires h == 256 * q + a
    ensures XorWord(h, b) == 256 * q + XorBytes(a, b)
  {
  }

  /** One byte: it goes into the low byte, then the word is multiplied. */
  lemma FoldOne(h: u64, q: nat, a: u8, b: u8, c: u8)
    requires h == 256 * q + a && XorBytes(a, b) == c
    ensures Fold(h, [b]) == WrappingMul(256 * q + c, PRIME)
  {
    assert [b][..0] == [];
    assert Fold(h, [b]) == Step(h, b);
    XorWordLow(h, q, a, b);
  }

  /** The values of draft-eastlake-fnv for the empty string and for "a". */
  lemma PublishedValues()
    ensures Fold(OFFSET_BASIS, []) == 0xcbf29ce484222325
    ensures Fold(OFFSET_BASIS, [0x61]) == 0xaf63dc4c8601ec8c
  {
    LowByteOfA();
    FoldOne(OFFSET_BASIS, 0xcbf29ce4842223, 0x25, 0x61, 0x44);
  }

  /** The check passes if and only if the version is registered with the hashes of both strings. */
  lemma PassesExactly(registry: map<u32, SchemaRegistry>, current: u32, v: Bytes, c: Bytes)
    ensures VerifySchemaIntegrity(registry, current, v, c).Ok? <==>
            current in registry && registry[current] == SchemaRegistry(Fold(OFFSET_BASIS, v), Fold(OFFSET_BASIS, c))
    ensures current !in registry ==> VerifySchemaIntegrity(registry, current, v, c) == Err(MissingVersion(current))
  {
  }
}
