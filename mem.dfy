/**
 * Plain-old-data records as the backend receives them: `data.as_ptr()` hands
 * the graphics API the records' bytes, one record after the other, each
 * `size_of::<T>()` bytes long. A `Layout<T>` stands for a `Sized` type's size
 * and memory image; the target is little-endian.
 */
module Mem {
  import opened Ints

  datatype Layout<!T(!new)> = Layout(size: usize, image: T -> seq<u8>) {
    /** Every record's image is exactly `size` bytes. */
    ghost predicate Valid() {
      forall x :: |image(x)| == size
    }
  }

  /** The bytes of a slice of records laid out back to back. */
  function Flatten<T>(xs: seq<T>, image: T -> seq<u8>): seq<u8>
  {
    if xs == [] then [] else image(xs[0]) + Flatten(xs[1..], image)
  }

  /** The byte image of a slice is `len × size_of` long. */
  lemma {:induction false} FlattenLength<T(!new)>(xs: seq<T>, l: Layout<T>)
    requires l.Valid()
    ensures |Flatten(xs, l.image)| == |xs| * l.size
  {
    if xs != [] {
      FlattenLength(xs[1..], l);
      assert |Flatten(xs, l.image)| == l.size + (|xs| - 1) * l.size;
    }
  }

  /** Records `xs` laid out back to back in `bytes`: record `k` is exactly bytes `[k × size, (k + 1) × size)`. */
  predicate RecordsAt<T(!new)>(bytes: seq<u8>, xs: seq<T>, l: Layout<T>) {
    |bytes| == |xs| * l.size
    && forall k :: 0 <= k < |xs| ==> RecordAt(bytes, k, l.size) == l.image(xs[k])
  }

  /**
   * Bytes `[k × size, (k + 1) × size)` of `bytes`, where record `k` of
   * records `size` bytes long lies (empty if that range is not inside `bytes`).
   */
  function RecordAt(bytes: seq<u8>, k: nat, size: nat): seq<u8> {
    if (k + 1) * size <= |bytes| && k * size <= (k + 1) * size then bytes[k * size..(k + 1) * size] else []
  }

  /** Record `k` occupies bytes `[k × size, (k + 1) × size)` of the image, unchanged and in order. */
  lemma {:induction false} FlattenRecord<T(!new)>(xs: seq<T>, l: Layout<T>, k: nat)
    requires l.Valid() && k < |xs|
    ensures k * l.size <= (k + 1) * l.size <= |Flatten(xs, l.image)|
    ensures Flatten(xs, l.image)[k * l.size..(k + 1) * l.size] == l.image(xs[k])
  {
    FlattenLength(xs, l);
    RecordBounds(k, |xs|, l.size);
    var s := l.size;
    var head, rest := l.image(xs[0]), Flatten(xs[1..], l.image);
    assert Flatten(xs, l.image) == head + rest;
    if k > 0 {
      FlattenRecord(xs[1..], l, k - 1);
      MulStep(k, s);
      SliceAfter(head, rest, (k - 1) * s, k * s);
    }
  }

  /** The whole image of a slice holds every record at its place. */
  lemma {:induction false} FlattenRecords<T(!new)>(xs: seq<T>, l: Layout<T>)
    requires l.Valid()
    ensures RecordsAt(Flatten(xs, l.image), xs, l)
  {
    FlattenLength(xs, l);
    forall k | 0 <= k < |xs|
      ensures RecordAt(Flatten(xs, l.image), k, l.size) == l.image(xs[k])
    {
      FlattenRecord(xs, l, k);
    }
  }

  lemma {:induction false} RecordBounds(k: nat, n: nat, s: nat)
    requires k < n
    ensures k * s <= (k + 1) * s <= n * s
    decreases n - k
  {
    assert (k + 1) * s == k * s + s;
    if k + 1 < n {
      RecordBounds(k + 1, n, s);
    }
  }

  lemma SliceAfter(a: seq<u8>, b: seq<u8>, lo: nat, hi: nat)
    requires lo <= hi <= |b|
    ensures (a + b)[|a| + lo..|a| + hi] == b[lo..hi]
  {
  }

  lemma MulStep(k: nat, s: nat)
    requires k > 0
    ensures k * s == (k - 1) * s + s && (k + 1) * s == (k - 1) * s + s + s
  {
  }

  /** The number a little-endian byte string denotes. */
  function LittleEndian(bs: seq<u8>): nat
  {
    if bs == [] then 0 else bs[0] + 0x100 * LittleEndian(bs[1..])
  }

  /** A u16 in memory: low byte first. */
  function U16Bytes(x: u16): (r: seq<u8>)
    ensures |r| == 2 && LittleEndian(r) == x
  {
    var r := [x % 0x100, x / 0x100];
    assert LittleEndian(r[1..]) == r[1] + 0x100 * LittleEndian([]);
    r
  }

  /** A 32-bit word (an f32's bit pattern) in memory: low byte first. */
  function U32Bytes(x: u32): (r: seq<u8>)
    ensures |r| == 4 && LittleEndian(r) == x
  {
    var q1 := x / 0x100;
    var q2 := q1 / 0x100;
    var r := [x % 0x100, q1 % 0x100, q2 % 0x100, q2 / 0x100];
    LittleEndianOfFour(r);
    r
  }

  lemma LittleEndianOfFour(r: seq<u8>)
    requires |r| == 4
    ensures LittleEndian(r) == r[0] as int + 0x100 * (r[1] as int + 0x100 * (r[2] as int + 0x100 * (r[3] as int)))
  {
    assert r[3..][1..] == [];
    assert LittleEndian(r[3..]) == r[3];
    assert r[2..][1..] == r[3..];
    assert LittleEndian(r[2..]) == r[2] as int + 0x100 * LittleEndian(r[3..]);
    assert r[1..][1..] == r[2..];
    assert LittleEndian(r[1..]) == r[1] as int + 0x100 * LittleEndian(r[2..]);
  }

  /** `u16` as a `Sized` record type, two bytes long. */
  const U16Layout: Layout<u16> := Layout(2, U16Bytes)

  lemma U16LayoutValid()
    ensures U16Layout.Valid()
  {
  }
}
