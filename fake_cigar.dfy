/**
 * The "fake cigar": the sparse breakpoint trace of an overlap region.
 * Each entry packs a (position, signed gap shift) pair into one 64-bit word:
 * the position in the high 32 bits, the shift in the low 32 bits as
 * magnitude * 2 plus a sign bit.
 *
 * A Fake_Cigar is a struct that lives by value inside an overlap_region;
 * the C functions that update it through a pointer are modelled as
 * functions from the old struct to the new one.
 */
module FakeCigars {

  const TWO31: int := 0x8000_0000
  const TWO32: int := 0x1_0000_0000

  type u32 = x: int | 0 <= x < 0x1_0000_0000
  type u64 = x: int | 0 <= x < 0x1_0000_0000_0000_0000

  /** A gap shift that add_fake_cigar can take: an int32 other than INT32_MIN,
      whose negation would overflow. */
  predicate ShiftOk(shift: int) {
    -TWO31 < shift < TWO31
  }

  /** A position that survives the round trip through the int returned by
      get_fake_gap_pos. */
  predicate SiteOk(site: int) {
    0 <= site < TWO31
  }

  /** The conversion of a 32-bit unsigned value to a C int. */
  function ToInt32(v: u32): (r: int)
    ensures -TWO31 <= r < TWO31
    ensures r % TWO32 == v
  {
    if v < TWO31 then v else v - TWO32
  }

  /** Position part of a packed word (buffer[index] >> 32 returned as an int). */
  function DecodePos(word: u64): (r: int)
    ensures -TWO31 <= r < TWO31
    ensures word / TWO32 < TWO31 ==> r == word / TWO32
  {
    ToInt32(word / TWO32)
  }

  /** Shift part of a packed word: the low 32 bits, halved, negated when the
      sign bit is set. */
  function DecodeShift(word: u64): (r: int)
    ensures ShiftOk(r)
    ensures (r < 0) ==> word % 2 == 1
  {
    var low := word % TWO32;
    if low % 2 == 1 then -(low / 2) else low / 2
  }

  /** The word add_fake_cigar stores for (site, shift). */
  function Pack(site: u32, shift: int): (word: u64)
    requires ShiftOk(shift)
    ensures word / TWO32 == site
    ensures DecodeShift(word) == shift
    ensures SiteOk(site) ==> DecodePos(word) == site
  {
    var low: int := if shift < 0 then -shift * 2 + 1 else shift * 2;
    site * TWO32 + low
  }

  datatype FakeCigar = FakeCigar(buffer: seq<u64>, length: nat, size: nat) {
    /** The allocated buffer has `size` words, of which the first `length` are in use. */
    predicate Valid() {
      |buffer| == size && length <= size
    }

    /** The words in use. */
    function Entries(): seq<u64>
      requires Valid()
    {
      buffer[..length]
    }
  }

  /** Newly allocated words; realloc leaves them unspecified, the model fills them with 0. */
  function Zeros(n: nat): (z: seq<u64>)
    ensures |z| == n
  {
    seq(n, _ => 0)
  }

  /** Decoded (position, shift) pairs of a sequence of words. */
  function Decode(words: seq<u64>): (t: seq<(int, int)>)
    ensures |t| == |words|
    ensures forall i :: 0 <= i < |words| ==> t[i] == (DecodePos(words[i]), DecodeShift(words[i]))
  {
    seq(|words|, i requires 0 <= i < |words| => (DecodePos(words[i]), DecodeShift(words[i])))
  }

  /** The decoded trace of a fake cigar. */
  function Trace(x: FakeCigar): seq<(int, int)>
    requires x.Valid()
  {
    Decode(x.Entries())
  }

  /** init_fake_cigar: empty, nothing allocated. */
  function InitFakeCigar(): (x: FakeCigar)
    ensures x.Valid() && x.length == 0 && x.size == 0 && Trace(x) == []
  {
    FakeCigar([], 0, 0)
  }

  /** get_fake_gap_pos */
  function GetFakeGapPos(x: FakeCigar, index: int): int
    requires x.Valid() && 0 <= index < x.size
  {
    DecodePos(x.buffer[index])
  }

  /** get_fake_gap_shift */
  function GetFakeGapShift(x: FakeCigar, index: int): int
    requires x.Valid() && 0 <= index < x.size
  {
    DecodeShift(x.buffer[index])
  }

  /** clear_fake_cigar: forget the entries, keep the buffer. */
  function ClearFakeCigar(x: FakeCigar): (r: FakeCigar)
    requires x.Valid()
    ensures r.Valid() && r.Entries() == [] && Trace(r) == []
    ensures r.buffer == x.buffer && r.size == x.size
  {
    x.(length := 0)
  }

  /** add_fake_cigar: grow to twice (length + 1) words when full, then append
      the packed word. */
  function AddFakeCigar(x: FakeCigar, site: u32, shift: int): (r: FakeCigar)
    requires x.Valid() && ShiftOk(shift)
    ensures r.Valid()
    ensures r.length == x.length + 1
    ensures r.Entries() == x.Entries() + [Pack(site, shift)]
    ensures r.size == if x.length + 1 > x.size then 2 * (x.length + 1) else x.size
    ensures SiteOk(site) ==> GetFakeGapPos(r, x.length) == site
    ensures GetFakeGapShift(r, x.length) == shift
  {
    var grown :=
      if x.length + 1 > x.size
      then x.(size := 2 * (x.length + 1), buffer := x.buffer + Zeros(2 * (x.length + 1) - x.size))
      else x;
    var r := grown.(buffer := grown.buffer[x.length := Pack(site, shift)], length := x.length + 1);
    assert r.Entries() == x.Entries() + [Pack(site, shift)] by {
      assert r.buffer[..x.length] == x.buffer[..x.length];
    }
    r
  }

  /** resize_fake_cigar: make room for at least `size` words and empty the cigar. */
  function ResizeFakeCigar(x: FakeCigar, size: nat): (r: FakeCigar)
    requires x.Valid()
    ensures r.Valid() && r.length == 0 && Trace(r) == []
    ensures r.size == if size > x.size then size else x.size
    ensures r.buffer[..x.size] == x.buffer
  {
    if size > x.size then FakeCigar(x.buffer + Zeros(size - x.size), 0, size)
    else x.(length := 0)
  }

  /** Round trip at trace level: adding (site, shift) appends exactly that pair
      to the decoded trace and leaves every earlier pair as it was. */
  lemma {:induction false} AddFakeCigarTrace(x: FakeCigar, site: u32, shift: int)
    requires x.Valid() && ShiftOk(shift) && SiteOk(site)
    ensures Trace(AddFakeCigar(x, site, shift)) == Trace(x) + [(site, shift)]
  {
    var r := AddFakeCigar(x, site, shift);
    var t, t0 := Trace(r), Trace(x);
    assert |t| == |t0| + 1;
    forall i | 0 <= i < |t| ensures t[i] == (t0 + [(site, shift)])[i] {
      if i < |t0| {
        assert r.Entries()[i] == x.Entries()[i];
      } else {
        assert r.Entries()[i] == Pack(site, shift);
      }
    }
  }
}
