/**
 The retry loop around calls to the room service. What each call returns and when the context is
 cancelled are inputs; the calls made and the delays waited are the result.
 */
module Retry {
  import opened Wrappers

  datatype Code = Unavailable | DeadlineExceeded | OtherCode | NoStatus

  datatype Failure = Cancelled | Failed(code: Code)

  /** The outcome of the k-th call to fn, and whether the context is done by its k-th check. */
  datatype World<T> = World(call: nat -> Result<T, Code>, doneBeforeCall: nat -> bool, doneWhileWaiting: nat -> bool)

  predicate Retryable(code: Code) {
    code == Unavailable || code == DeadlineExceeded
  }

  predicate Repeats<T>(r: Result<T, Code>) {
    r.Err? && Retryable(r.error)
  }

  /** Call k is made, fails in a retryable way, is not the last one and the wait after it is not cut short. */
  predicate Continues<T>(w: World<T>, delays: seq<nat>, k: nat) {
    !w.doneBeforeCall(k) && Repeats(w.call(k)) && k + 1 < |delays| && !w.doneWhileWaiting(k)
  }

  function Outcome<T>(r: Result<T, Code>): Result<T, Failure> {
    match r
    case Ok(v) => Ok(v)
    case Err(code) => Err(Failed(code))
  }

  /** What the loop's end says about its last round k: it was the first that did not continue. */
  ghost predicate Stopped<T>(w: World<T>, delays: seq<nat>, k: nat, result: Result<T, Failure>, calls: nat,
                             waited: seq<nat>)
  {
    && k < |delays|
    && (forall j: nat :: j < k ==> Continues(w, delays, j))
    && !Continues(w, delays, k)
    && waited == delays[..k]
    && (if w.doneBeforeCall(k) then calls == k && result == Err(Cancelled)
        else
          && calls == k + 1
          && result == if Repeats(w.call(k)) && k + 1 < |delays| then Err(Cancelled) else Outcome(w.call(k)))
  }

  /** `waited` lists the delays that were waited out. */
  method WithRetry<T>(delays: seq<nat>, w: World<T>) returns (result: Result<T, Failure>, calls: nat, waited: seq<nat>)
    ensures delays == [] ==> calls == 1 && waited == [] && result == Outcome(w.call(0))
    ensures delays != [] ==> exists k: nat :: Stopped(w, delays, k, result, calls, waited)
  {
    calls, waited := 0, [];
    if |delays| == 0 {
      result := Outcome(w.call(0));
      calls := 1;
      return;
    }
    result := Err(Cancelled);
    for i := 0 to |delays|
      invariant calls == i
      invariant forall j: nat :: j < i ==> Repeats(w.call(j)) && !w.doneBeforeCall(j)
      invariant forall j: nat :: j < i && j + 1 < |delays| ==> !w.doneWhileWaiting(j)
      invariant waited == delays[..if i < |delays| then i else |delays| - 1]
      invariant i == |delays| ==> result == Outcome(w.call(i - 1))
    {
      if w.doneBeforeCall(i) {
        assert Stopped(w, delays, i, Err(Cancelled), calls, waited);
        return Err(Cancelled), calls, waited;
      }
      var r := w.call(i);
      calls := calls + 1;
      result := Outcome(r);
      if !Repeats(r) {
        assert Stopped(w, delays, i, result, calls, waited);
        return;
      }
      if i < |delays| - 1 {
        if w.doneWhileWaiting(i) {
          assert Stopped(w, delays, i, Err(Cancelled), calls, waited);
          return Err(Cancelled), calls, waited;
        }
        waited := waited + [delays[i]];
        assert waited == delays[..i + 1];
      }
    }
    assert Stopped(w, delays, |delays| - 1, result, calls, waited);
  }

  /** The promise in the caller's terms, for every way a run can stop. */
  lemma StoppedMeans<T>(w: World<T>, delays: seq<nat>, k: nat, result: Result<T, Failure>, calls: nat, waited: seq<nat>)
    requires Stopped(w, delays, k, result, calls, waited)
    ensures calls <= |delays|
    ensures forall j: nat :: j + 1 < calls ==> Repeats(w.call(j))
    ensures result != Err(Cancelled) ==>
      calls >= 1 && result == Outcome(w.call(calls - 1)) && waited == delays[..calls - 1]
    ensures calls == |delays| ==> waited == delays[..|delays| - 1]
    ensures result.Ok? ==> w.call(calls - 1).Ok?
    ensures result == Err(Cancelled) <==>
      w.doneBeforeCall(k) || (Repeats(w.call(k)) && k + 1 < |delays| && w.doneWhileWaiting(k))
  {
    forall j: nat | j + 1 < calls ensures Repeats(w.call(j)) {
      assert Continues(w, delays, j);
    }
  }

  /** The loop stops in one way only: its result, its calls and its waits are determined. */
  lemma StoppedOnce<T>(w: World<T>, delays: seq<nat>, k: nat, result: Result<T, Failure>, calls: nat, waited: seq<nat>,
                       k': nat, result': Result<T, Failure>, calls': nat, waited': seq<nat>)
    requires Stopped(w, delays, k, result, calls, waited)
    requires Stopped(w, delays, k', result', calls', waited')
    ensures k == k' && result == result' && calls == calls' && waited == waited'
  {
    assert k < k' ==> Continues(w, delays, k);
    assert k' < k ==> Continues(w, delays, k');
  }
}
