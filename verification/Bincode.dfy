/**
 * The part of the bincode 1.3 format the state files use: fixed-width little-endian integers, u64
 * length prefixes, one tag byte for an option, and trailing bytes ignored by the outermost reader.
 */
module Bincode {
  import opened Base

  type Bytes = seq<u8>

  /** Bytes whose length fits the prefix. */
  type Blob = b: Bytes | |b| < U64_SIZE witness []

  datatype Parsed<+T> = Fail | Done(value: T, rest: Bytes)
  {
    predicate IsFailure() {
      Fail?
    }
    function PropagateFailure<U>(): Parsed<U>
      requires Fail?
    {
      Fail
    }
    function Extract(): (T, Bytes)
      requires Done?
    {
      (value, rest)
    }
  }

  // ---------------------------------------------------------------- integers, low half first

  function EncU16(x: u16): (b: Bytes)
    ensures |b| == 2
  {
    [x % 256, x / 256]
  }

  function EncU32(x: u32): (b: Bytes)
    ensures |b| == 4
  {
    EncU16(x % 0x1_0000) + EncU16(x / 0x1_0000)
  }

  function EncU64(x: u64): (b: Bytes)
    ensures |b| == 8
  {
    EncU32(x % 0x1_0000_0000) + EncU32(x / 0x1_0000_0000)
  }

  function Value16(b: Bytes): u16
    requires |b| == 2
  {
    b[0] as int + 0x100 * b[1] as int
  }

  function Value32(b: Bytes): u32
    requires |b| == 4
  {
    Value16(b[..2]) as int + 0x1_0000 * Value16(b[2..]) as int
  }

  function Value64(b: Bytes): u64
    requires |b| == 8
  {
    Value32(b[..4]) as int + 0x1_0000_0000 * Value32(b[4..]) as int
  }

  lemma Value16Inverts(x: u16)
    ensures Value16(EncU16(x)) == x
  {
  }

  lemma Value32Inverts(x: u32)
    ensures Value32(EncU32(x)) == x
  {
    var lo, hi := EncU16(x % 0x1_0000), EncU16(x / 0x1_0000);
    assert (lo + hi)[..2] == lo && (lo + hi)[2..] == hi;
    Value16Inverts(x % 0x1_0000);
    Value16Inverts(x / 0x1_0000);
  }

  lemma Value64Inverts(x: u64)
    ensures Value64(EncU64(x)) == x
  {
    var lo, hi := EncU32(x % 0x1_0000_0000), EncU32(x / 0x1_0000_0000);
    assert (lo + hi)[..4] == lo && (lo + hi)[4..] == hi;
    Value32Inverts(x % 0x1_0000_0000);
    Value32Inverts(x / 0x1_0000_0000);
  }

  function DecU32(b: Bytes): Parsed<u32> {
    if |b| < 4 then Fail else Done(Value32(b[..4]), b[4..])
  }

  function DecU64(b: Bytes): Parsed<u64> {
    if |b| < 8 then Fail else Done(Value64(b[..8]), b[8..])
  }

  lemma Cut<T>(a: seq<T>, rest: seq<T>)
    ensures (a + rest)[..|a|] == a && (a + rest)[|a|..] == rest
  {
  }

  lemma U32RoundTrip(x: u32, rest: Bytes)
    ensures DecU32(EncU32(x) + rest) == Done(x, rest)
  {
    Cut(EncU32(x), rest);
    Value32Inverts(x);
  }

  lemma U64RoundTrip(x: u64, rest: Bytes)
    ensures DecU64(EncU64(x) + rest) == Done(x, rest)
  {
    Cut(EncU64(x), rest);
    Value64Inverts(x);
  }

  // ---------------------------------------------------------------- compound values

  datatype Codec<!T(!new)> = Codec(enc: T -> Bytes, dec: Bytes -> Parsed<T>)

  /** Reading what was written gives the value back and stops right after it. */
  ghost predicate Lawful<T(!new)>(c: Codec<T>) {
    forall t: T, rest: Bytes :: c.dec(c.enc(t) + rest) == Done(t, rest)
  }

  function EncLength(n: nat): Bytes {
    EncU64(n % U64_SIZE)
  }

  lemma LengthRoundTrip(n: nat, rest: Bytes)
    requires n < U64_SIZE
    ensures DecU64(EncLength(n) + rest) == Done(n, rest)
  {
    assert n % U64_SIZE == n;
    U64RoundTrip(n, rest);
  }

  function EncBlob(s: Blob): Bytes {
    EncLength(|s|) + s
  }

  function DecBlob(b: Bytes): Parsed<Blob> {
    var (n, rest) :- DecU64(b);
    if |rest| < n then Fail else Done(rest[..n], rest[n..])
  }

  lemma BlobRoundTrip(s: Blob, rest: Bytes)
    ensures DecBlob(EncBlob(s) + rest) == Done(s, rest)
  {
    LengthRoundTrip(|s|, s + rest);
    assert EncBlob(s) + rest == EncLength(|s|) + (s + rest);
    Cut(s, rest);
  }

  function EncBool(x: bool): Bytes {
    [if x then 1 else 0]
  }

  function DecBool(b: Bytes): Parsed<bool> {
    if b == [] || b[0] > 1 then Fail else Done(b[0] == 1, b[1..])
  }

  lemma BoolRoundTrip(x: bool, rest: Bytes)
    ensures DecBool(EncBool(x) + rest) == Done(x, rest)
  {
    Cut(EncBool(x), rest);
  }

  function EncOption(s: Option<Blob>): Bytes {
    match s case None => [0] case Some(v) => [1] + EncBlob(v)
  }

  function DecOption(b: Bytes): Parsed<Option<Blob>> {
    if b == [] || b[0] > 1 then Fail
    else if b[0] == 0 then Done(None, b[1..])
    else
      var (v, rest) :- DecBlob(b[1..]);
      Done(Some(v), rest)
  }

  lemma Tagged(tag: u8, body: Bytes, rest: Bytes)
    ensures ([tag] + body) + rest == [tag] + (body + rest)
    ensures ([tag] + (body + rest))[1..] == body + rest
  {
  }

  lemma OptionRoundTrip(s: Option<Blob>, rest: Bytes)
    ensures DecOption(EncOption(s) + rest) == Done(s, rest)
  {
    if s.Some? {
      BlobRoundTrip(s.value, rest);
      Tagged(1, EncBlob(s.value), rest);
    } else {
      Tagged(0, [], rest);
      assert [0] + [] == [0] && [] + rest == rest;
    }
  }

  lemma Words()
    ensures EncU32(0x04030201) == [1, 2, 3, 4] && EncU32(0x08070605) == [5, 6, 7, 8]
    ensures EncU32(0) == [0, 0, 0, 0] && EncU32(2) == [2, 0, 0, 0]
  {
  }

  /** The layout, on examples: low byte first, a length or a tag in front. */
  lemma Layout()
    ensures EncU64(0x0807060504030201) == [1, 2, 3, 4, 5, 6, 7, 8]
    ensures EncBlob([7, 9]) == [2, 0, 0, 0, 0, 0, 0, 0, 7, 9]
    ensures EncOption(Some([7, 9])) == [1, 2, 0, 0, 0, 0, 0, 0, 0, 7, 9] && EncOption(None) == [0]
    ensures EncBool(true) == [1] && EncBool(false) == [0]
  {
    Words();
    assert EncLength(2) == EncU32(2) + EncU32(0);
  }

  function EncEach<T(!new)>(c: Codec<T>, items: seq<T>): Bytes {
    if items == [] then [] else c.enc(items[0]) + EncEach(c, items[1..])
  }

  function DecEach<T(!new)>(c: Codec<T>, n: nat, b: Bytes): Parsed<seq<T>> {
    if n == 0 then Done([], b)
    else
      var (x, rest) :- c.dec(b);
      var (xs, rest') :- DecEach(c, n - 1, rest);
      Done([x] + xs, rest')
  }

  lemma {:induction false} EachRoundTrip<T(!new)>(c: Codec<T>, items: seq<T>, rest: Bytes)
    requires forall x, r :: x in items ==> c.dec(c.enc(x) + r) == Done(x, r)
    ensures DecEach(c, |items|, EncEach(c, items) + rest) == Done(items, rest)
  {
    if items != [] {
      var tail := EncEach(c, items[1..]) + rest;
      assert EncEach(c, items) + rest == c.enc(items[0]) + tail;
      assert items[0] in items;
      assert c.dec(c.enc(items[0]) + tail) == Done(items[0], tail);
      EachRoundTrip(c, items[1..], rest);
      assert items == [items[0]] + items[1..];
    } else {
      assert [] + rest == rest;
    }
  }

  /** A sequence, and likewise a set or map in whatever order its entries come. */
  function EncList<T(!new)>(c: Codec<T>, items: seq<T>): Bytes {
    EncLength(|items|) + EncEach(c, items)
  }

  function DecList<T(!new)>(c: Codec<T>, b: Bytes): Parsed<seq<T>> {
    var (n, rest) :- DecU64(b);
    DecEach(c, n, rest)
  }

  lemma ListRoundTrip<T(!new)>(c: Codec<T>, items: seq<T>, rest: Bytes)
    requires |items| < U64_SIZE
    requires forall x, r :: x in items ==> c.dec(c.enc(x) + r) == Done(x, r)
    ensures DecList(c, EncList(c, items) + rest) == Done(items, rest)
  {
    LengthRoundTrip(|items|, EncEach(c, items) + rest);
    assert EncList(c, items) + rest == EncLength(|items|) + (EncEach(c, items) + rest);
    EachRoundTrip(c, items, rest);
  }
}
