/**
 * The effective number of simulation threads: the hardware hint
 * (`std::thread::hardware_concurrency()`, an `unsigned int`), lowered to
 * the requested count when one is given and it is strictly smaller.
 */
module ThreadCount {
  import opened Common

  /** Values of `unsigned int` are 0 .. UintRange - 1. */
  const UintRange: int := 0x1_0000_0000

  /** Values of `int` are -IntHalfRange .. IntHalfRange - 1. */
  const IntHalfRange: int := 0x8000_0000

  /** The conversion of an `int` to `unsigned int`: reduction modulo 2^32. */
  function ToUnsigned(x: int): (u: nat)
    ensures u < UintRange
    ensures 0 <= x < UintRange ==> u == x
    ensures -UintRange <= x < 0 ==> u == x + UintRange
  {
    x % UintRange
  }

  /**
   * The thread count: the minimum of the hint and the converted request.
   * It never exceeds the hint, a missing request keeps the hint, and a
   * negative `int` request (which wraps to at least 2^31) is ignored when
   * the hint is below that.
   */
  function ThreadsUsed(hardware: nat, requested: Option<int>): (n: nat)
    ensures n <= hardware
    ensures requested.None? ==> n == hardware
    ensures requested.Some? ==> n <= ToUnsigned(requested.value)
    ensures n == hardware || (requested.Some? && n == ToUnsigned(requested.value))
    ensures requested.Some? && -IntHalfRange <= requested.value < 0 && hardware < IntHalfRange ==> n == hardware
  {
    var req := if requested.Some? then ToUnsigned(requested.value) else hardware;
    if req < hardware then req else hardware
  }

  /**
   * `num_threads` starts at the hint; an enabled `threads` parameter,
   * converted to `unsigned int`, replaces it only when strictly smaller.
   */
  method EffectiveThreads(hardware: nat, requested: Option<int>) returns (numThreads: nat)
    requires hardware < UintRange
    requires requested.Some? ==> -IntHalfRange <= requested.value < IntHalfRange
    ensures numThreads == ThreadsUsed(hardware, requested)
  {
    numThreads := hardware;
    var numRequestedThreads := numThreads;
    if requested.Some? {
      numRequestedThreads := ToUnsigned(requested.value);
    }
    if numRequestedThreads < numThreads {
      numThreads := numRequestedThreads;
    }
  }
}
