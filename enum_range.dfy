/**
 * Enum reflection by range scan: the number of enumerators of an ID enum is
 * found by probing every integer of [Min, Max] with a validity test, from
 * below for the first enumerator and from above for the last one.
 * The validity test (compiler-specific in the library) is a parameter here.
 */
module EnumRange {
  import opened Wrappers

  /** CSP_IMPL_ENUM_RANGE_MIN and CSP_IMPL_ENUM_RANGE_MAX */
  const DefaultMin: int := -64
  const DefaultMax: int := 128

  /** `std::size_t` is 64 bits wide; `static_cast<size_t>` of a difference wraps modulo this. */
  const SizeModulus: int := 0x1_0000_0000_0000_0000

  /**
   * `enumRangeBound<E, I, End, Inc>`: step from `i` towards `end` by `inc` and stop at
   * the first valid value, or at `end` (which is returned without being tested).
   */
  function Bound(valid: int -> bool, i: int, end: int, inc: int): (r: int)
    requires inc == 1 || inc == -1
    requires if inc == 1 then i <= end else end <= i
    decreases if inc == 1 then end - i else i - end
    ensures r == end || valid(r)
    ensures inc == 1 ==> i <= r <= end && forall k :: i <= k < r ==> !valid(k)
    ensures inc == -1 ==> end <= r <= i && forall k :: r < k <= i ==> !valid(k)
  {
    if i == end || valid(i) then i else Bound(valid, i + inc, end, inc)
  }

  /** `enumRangeFirst<E, Min, Max>` */
  function First(valid: int -> bool, min: int, max: int): (r: int)
    requires min <= max
    ensures min <= r <= max
    ensures r == max || valid(r)
    ensures forall k :: min <= k < r ==> !valid(k)
  {
    Bound(valid, min, max, 1)
  }

  /** `enumRangeLast<E, Min, Max>`: one past the last valid value found scanning down. */
  function Last(valid: int -> bool, min: int, max: int): (r: int)
    requires min <= max
    ensures min + 1 <= r <= max + 1
    ensures r == min + 1 || valid(r - 1)
    ensures forall k :: r <= k <= max ==> !valid(k)
  {
    Bound(valid, max, min, -1) + 1
  }

  /** `enumCount<E>`: `last - first`, converted to `size_t`. */
  function Count(valid: int -> bool, min: int, max: int): (r: nat)
    requires min <= max
    requires max - min < SizeModulus - 1
    ensures r < SizeModulus
    ensures First(valid, min, max) <= Last(valid, min, max) ==> r == Last(valid, min, max) - First(valid, min, max)
    ensures Last(valid, min, max) < First(valid, min, max) ==> r == SizeModulus + Last(valid, min, max) - First(valid, min, max)
  {
    (Last(valid, min, max) - First(valid, min, max)) % SizeModulus
  }

  /** What `IDTraits<IDType>` computes for an ID enum. */
  datatype Traits = Traits(count: nat, first: int, last: int)

  /** The `static_assert` of `IDTraits`: "Type ID enum must start at zero". */
  datatype TraitsError = MustStartAtZero

  function IdTraits(valid: int -> bool, min: int, max: int): (r: Result<Traits, TraitsError>)
    requires min <= max
    requires max - min < SizeModulus - 1
    ensures r.Success? <==> First(valid, min, max) == 0
    ensures r.Success? ==> r.value.first == 0 && r.value.last == Last(valid, min, max)
    ensures r.Success? ==> valid(0) || max == 0
    ensures r.Success? && valid(0) ==> 1 <= r.value.count == r.value.last
  {
    var first := First(valid, min, max);
    if first != 0 then Failure(MustStartAtZero)
    else Success(Traits(Count(valid, min, max), first, Last(valid, min, max)))
  }

  /**
   * For an enum whose valid values are exactly the contiguous range [lo, hi) inside
   * [min, max], the scan finds first == lo, last == hi and count == hi - lo.
   */
  lemma {:induction false} ContiguousScan(valid: int -> bool, min: int, max: int, lo: int, hi: int)
    requires min <= lo < hi <= max + 1
    requires max - min < SizeModulus - 1
    requires forall k :: valid(k) <==> lo <= k < hi
    ensures First(valid, min, max) == lo
    ensures Last(valid, min, max) == hi
    ensures Count(valid, min, max) == hi - lo
  {
    assert valid(lo) && valid(hi - 1);
  }

  /** An enum without a valid value in [min, max] makes the count wrap around. */
  lemma {:induction false} EmptyScanWraps(valid: int -> bool, min: int, max: int)
    requires min + 1 < max
    requires max - min < SizeModulus - 1
    requires forall k :: !valid(k)
    ensures First(valid, min, max) == max
    ensures Last(valid, min, max) == min + 1
    ensures Count(valid, min, max) == SizeModulus + min + 1 - max
  {
    assert First(valid, min, max) == max;
    assert Last(valid, min, max) == min + 1;
  }

  /** `TestEnum { A, B, C }` scanned over the default range. */
  lemma TestEnumScan()
    ensures First(k => 0 <= k < 3, DefaultMin, DefaultMax) == 0
    ensures Last(k => 0 <= k < 3, DefaultMin, DefaultMax) == 3
    ensures Count(k => 0 <= k < 3, DefaultMin, DefaultMax) == 3
    ensures IdTraits(k => 0 <= k < 3, DefaultMin, DefaultMax) == Success(Traits(3, 0, 3))
  {
    ContiguousScan(k => 0 <= k < 3, DefaultMin, DefaultMax, 0, 3);
  }

  /** `TestEnumNegative { A = -3, B, C }` scanned with Min = -128; it is no valid ID enum. */
  lemma TestEnumNegativeScan()
    ensures First(k => -3 <= k < 0, -128, DefaultMax) == -3
    ensures Last(k => -3 <= k < 0, -128, DefaultMax) == 0
    ensures Count(k => -3 <= k < 0, -128, DefaultMax) == 3
    ensures IdTraits(k => -3 <= k < 0, -128, DefaultMax) == Failure(MustStartAtZero)
  {
    ContiguousScan(k => -3 <= k < 0, -128, DefaultMax, -3, 0);
  }
}
