/** `run_with_retry` (scraping.py:90-100). The operation is given as the
    sequence of outcomes its successive calls would have: `calls(k)` is what
    the (k+1)-th call returns or raises. The page refresh and the sleep are
    observed only as a count of refreshes. */
module Retry {

  /** What one call of the retried operation does. */
  datatype Outcome<T> = Returned(value: T) | Raised

  /** What `run_with_retry` does: return a value, return `None` without
      calling the operation, or let the operation's exception propagate. */
  datatype RetryResult<T> = Value(v: T) | NoneReturned | Propagated

  function ResultOf<T>(o: Outcome<T>): RetryResult<T>
  {
    match o
    case Returned(v) => Value(v)
    case Raised => Propagated
  }

  /** The source as written: the final `return func()` is indented inside the
      `for` body, so the first failure is followed by exactly one unguarded
      call, and a `times` of 1 or less calls nothing. */
  method RunWithRetry<T>(calls: nat -> Outcome<T>, times: int, refreshDriver: bool)
    returns (r: RetryResult<T>, made: nat, refreshes: nat)
    ensures times <= 1 ==> r == NoneReturned && made == 0 && refreshes == 0
    ensures times >= 2 && calls(0).Returned? ==>
      r == Value(calls(0).value) && made == 1 && refreshes == 0
    ensures times >= 2 && calls(0).Raised? ==>
      r == ResultOf(calls(1)) && made == 2 && refreshes == (if refreshDriver then 1 else 0)
  {
    made, refreshes := 0, 0;
    // Every path through the `for` body returns, so the loop over
    // range(times - 1) runs its body at most once, with i == 0.
    if 0 < times - 1 {
      // try: return func()
      var o := calls(made);
      made := made + 1;
      if o.Returned? {
        return Value(o.value), made, refreshes;
      }
      // except: refresh when a driver is given, then sleep
      if refreshDriver {
        refreshes := refreshes + 1;
      }
      // return func(), still inside the loop body
      var o2 := calls(made);
      made := made + 1;
      return ResultOf(o2), made, refreshes;
    }
    return NoneReturned, made, refreshes;
  }

  /** The evident intent: `times - 1` guarded attempts, then one last attempt
      after the loop whose exception propagates. The callers in
      `choose_vid_from_suggested` and `_scrape_loop` use this definition. */
  method RunWithRetryIntended<T>(calls: nat -> Outcome<T>, times: int, refreshDriver: bool)
    returns (r: RetryResult<T>, made: nat, refreshes: nat)
    ensures 1 <= made <= (if times < 1 then 1 else times)
    ensures forall k :: 0 <= k < made - 1 ==> calls(k).Raised?
    ensures r == ResultOf(calls(made - 1))
    ensures calls(made - 1).Raised? ==> made == (if times < 1 then 1 else times)
    ensures refreshes == (if refreshDriver then made - 1 else 0)
  {
    made, refreshes := 0, 0;
    var i := 0;
    while i < times - 1
      invariant 0 <= i && (i <= times - 1 || i == 0)
      invariant made == i
      invariant forall k :: 0 <= k < made ==> calls(k).Raised?
      invariant refreshes == (if refreshDriver then made else 0)
    {
      var o := calls(made);
      made := made + 1;
      if o.Returned? {
        return Value(o.value), made, refreshes;
      }
      if refreshDriver {
        refreshes := refreshes + 1;
      }
      i := i + 1;
    }
    var o := calls(made);
    made := made + 1;
    r := ResultOf(o);
  }

  /** Under the intended definition with three tries, the failure
      propagates exactly when all three calls raise. */
  lemma ThreeTriesPropagate<T>(calls: nat -> Outcome<T>, made: nat, r: RetryResult<T>)
    requires 1 <= made <= 3
    requires forall k :: 0 <= k < made - 1 ==> calls(k).Raised?
    requires r == ResultOf(calls(made - 1))
    requires calls(made - 1).Raised? ==> made == 3
    ensures r.Propagated? <==> calls(0).Raised? && calls(1).Raised? && calls(2).Raised?
  {
    assert made == 1 || made == 2 || made == 3;
  }

  /** An operation that always fails, retried with the default `times=3`:
      the code as written makes two calls, not three. */
  method AlwaysFailingAsWritten() returns (made: nat, r: RetryResult<int>)
    ensures made == 2 && r == Propagated
  {
    var refreshes;
    r, made, refreshes := RunWithRetry((k: nat) => Raised, 3, true);
  }

  /** The same operation under the intended definition: three calls. */
  method AlwaysFailingIntended() returns (made: nat, r: RetryResult<int>)
    ensures made == 3 && r == Propagated
  {
    var refreshes;
    r, made, refreshes := RunWithRetryIntended((k: nat) => Raised, 3, true);
  }
}
