/**
 * Overlap regions and their alignment-window slots.
 * An overlap_region records the outcome of chaining one (query, target, strand)
 * bucket: the two ids, start/end coordinates on both sequences, strands,
 * the shared_seed score, overlapLen, and the breakpoint trace (a fake cigar).
 * The window lists are only allocated here; a later stage fills them.
 */
module Regions {
  import opened FakeCigars

  /** One alignment window (window_list). */
  datatype Window = Window(
    x_start: int, x_end: int, y_start: int, y_end: int,
    error: int, cigar_length: int,
    extra_begin: int, extra_end: int, error_threshold: int)

  /** The all-zero window, as freshly zeroed memory holds it. */
  const ZeroWindow: Window := Window(0, 0, 0, 0, 0, 0, 0, 0, 0)

  /** A growable buffer of windows (window_list_alloc). */
  datatype WindowListAlloc = WindowListAlloc(buffer: seq<Window>, length: nat, size: nat) {
    predicate Valid() {
      |buffer| == size && length <= size
    }
  }

  datatype OverlapRegion = OverlapRegion(
    x_id: int, y_id: int,
    x_pos_s: int, x_pos_e: int, x_pos_strand: int,
    y_pos_s: int, y_pos_e: int, y_pos_strand: int,
    shared_seed: int, overlapLen: int,
    align_length: int, is_match: int, non_homopolymer_errors: int, strong: int,
    f_cigar: FakeCigar,
    w_list: seq<Window>, w_list_length: nat, w_list_size: nat,
    boundary_cigars: WindowListAlloc)
  {
    /** The buffers embedded in the region are consistent with their sizes. */
    predicate Valid() {
      f_cigar.Valid() && |w_list| == w_list_size && w_list_length <= w_list_size
      && boundary_cigars.Valid()
    }
  }

  /** An overlap_region slot as zeroed memory holds it (calloc, or the memset
      after the list doubles). */
  const ZeroRegion: OverlapRegion :=
    OverlapRegion(0, 0, 0, 0, 0, 0, 0, 0, 0, 0, 0, 0, 0, 0,
                  FakeCigar([], 0, 0), [], 0, 0, WindowListAlloc([], 0, 0))

  lemma ZeroRegionValid()
    ensures ZeroRegion.Valid()
  {
  }

  /** Windows a region of `length` columns may need: length / window + 4,
      with C's division (the length is never negative here). */
  function NumWindows(length: int, window: int): (n: int)
    requires length >= 0 && window > 0
    ensures n >= 4 && (n - 4) * window <= length < (n - 3) * window
  {
    length / window + 4
  }

  /** append_window_list: grow the window slots to NumWindows when they are
      too few, then store one window with an empty cigar (length -1). */
  function AppendWindowList(region: OverlapRegion, x_start: int, x_end: int,
                            y_start: int, y_end: int, error: int,
                            extra_begin: int, extra_end: int, error_threshold: int,
                            window: int): (r: OverlapRegion)
    requires region.Valid() && window > 0
    requires region.x_pos_s <= region.x_pos_e + 1
    requires region.w_list_length <
             if NumWindows(region.x_pos_e - region.x_pos_s + 1, window) > region.w_list_size
             then NumWindows(region.x_pos_e - region.x_pos_s + 1, window) else region.w_list_size
    ensures r.Valid()
    ensures r.w_list_length == region.w_list_length + 1
    ensures r.w_list[..r.w_list_length] == region.w_list[..region.w_list_length] +
            [Window(x_start, x_end, y_start, y_end, error, -1, extra_begin, extra_end, error_threshold)]
    ensures r.w_list_size >= region.w_list_size
    ensures r.w_list_size >= NumWindows(region.x_pos_e - region.x_pos_s + 1, window)
    ensures r == region.(w_list := r.w_list, w_list_length := r.w_list_length, w_list_size := r.w_list_size)
  {
    var n := NumWindows(region.x_pos_e - region.x_pos_s + 1, window);
    var grown :=
      if n > region.w_list_size
      then region.(w_list_size := n, w_list := region.w_list + seq(n - region.w_list_size, _ => ZeroWindow))
      else region;
    var w := Window(x_start, x_end, y_start, y_end, error, -1, extra_begin, extra_end, error_threshold);
    var r := grown.(w_list := grown.w_list[region.w_list_length := w],
                    w_list_length := region.w_list_length + 1);
    assert r.w_list[..region.w_list_length] == region.w_list[..region.w_list_length];
    r
  }

  /** init_window_list_alloc / clear_window_list_alloc: no windows in use. */
  function ClearWindowListAlloc(x: WindowListAlloc): (r: WindowListAlloc)
    requires x.Valid()
    ensures r.Valid() && r.length == 0 && r.buffer == x.buffer && r.size == x.size
  {
    x.(length := 0)
  }

  /** resize_window_list_alloc: make room for `size` windows, mark every slot's
      error as -1 (not yet computed) and empty the list. */
  method ResizeWindowListAlloc(x: WindowListAlloc, size: int) returns (r: WindowListAlloc)
    requires x.Valid()
    ensures r.Valid() && r.length == 0
    ensures r.size == if size > x.size then size else x.size
    ensures forall i :: 0 <= i < x.size ==> r.buffer[i] == x.buffer[i].(error := -1)
    ensures forall i :: x.size <= i < r.size ==> r.buffer[i] == ZeroWindow.(error := -1)
  {
    var buffer := x.buffer;
    var cap := x.size;
    if size > x.size {
      cap := size;
      buffer := buffer + seq(size - x.size, _ => ZeroWindow);
    }
    var i := 0;
    while i < cap
      invariant 0 <= i <= cap == |buffer|
      invariant forall k :: 0 <= k < i && k < x.size ==> buffer[k] == x.buffer[k].(error := -1)
      invariant forall k :: i <= k < x.size ==> buffer[k] == x.buffer[k]
      invariant forall k :: x.size <= k < i ==> buffer[k] == ZeroWindow.(error := -1)
      invariant forall k :: i <= k < cap && x.size <= k ==> buffer[k] == ZeroWindow
    {
      buffer := buffer[i := buffer[i].(error := -1)];
      i := i + 1;
    }
    r := WindowListAlloc(buffer, 0, cap);
  }
}
