/** The robust PxLGetNextFrame wrapper of the getNextFrame sample. */
module NextFrameSample {
  import opened Sdk
  import opened Retries

  /** Answers after which retrying makes no sense: a success, a stopped stream or a
      camera that is gone. */
  predicate EndsRetries(rc: ReturnCode) {
    Succeeded(rc) || rc == ApiStreamStopped || rc == ApiNoCameraAvailableError
  }

  /** GetNextFrame. `answer(k)` is the k-th camera call's code and `sizeWritten(k)` the
      `uSize` the camera leaves in the descriptor. Returns the code and the `uSize` each
      call was given: always the one the descriptor had on entry, which is restored
      after every failed attempt. */
  method GetNextFrame(desc: FrameDesc, maximumNumberOfTries: nat, answer: nat -> ReturnCode, sizeWritten: nat -> nat)
    returns (rc: ReturnCode, presented: seq<nat>)
    modifies desc
    ensures var o := RetryOutcome(answer, EndsRetries, maximumNumberOfTries);
            rc == o.rc && |presented| == o.calls
    ensures forall k :: 0 <= k < |presented| ==> presented[k] == old(desc.size)
    ensures desc.size == if |presented| > 0 && EndsRetries(rc) then sizeWritten(|presented| - 1) else old(desc.size)
  {
    var frameDescSize := desc.size;
    rc := ApiUnknownError;
    presented := [];
    var i := 0;
    while i < maximumNumberOfTries
      invariant 0 <= i <= maximumNumberOfTries
      invariant RetryFrom(answer, EndsRetries, i, maximumNumberOfTries, rc) == RetryOutcome(answer, EndsRetries, maximumNumberOfTries)
      invariant |presented| == i && !EndsRetries(rc)
      invariant forall k :: 0 <= k < i ==> presented[k] == frameDescSize
      invariant desc.size == frameDescSize
    {
      presented := presented + [desc.size];
      rc := answer(i);
      desc.size := sizeWritten(i);
      if Succeeded(rc) {
        return;
      } else {
        if rc == ApiStreamStopped || rc == ApiNoCameraAvailableError {
          return;
        }
      }
      desc.size := frameDescSize;
      i := i + 1;
    }
  }

  /** The wrapper's promises: the camera is called at most `maximumNumberOfTries` times
      and never with zero tries, when ApiUnknownError is returned; a success, a stopped
      stream or a missing camera is returned at once; only other failures are retried,
      and when the tries run out the last failure is returned. */
  lemma WrapperPromises(answer: nat -> ReturnCode, maximumNumberOfTries: nat)
    ensures var o := RetryOutcome(answer, EndsRetries, maximumNumberOfTries);
            && o.calls <= maximumNumberOfTries
            && (maximumNumberOfTries == 0 ==> o.calls == 0 && o.rc == ApiUnknownError)
            && (maximumNumberOfTries > 0 && EndsRetries(answer(0)) ==> o.calls == 1 && o.rc == answer(0))
            && (forall j :: 0 <= j < o.calls - 1 ==> !EndsRetries(answer(j)))
            && (o.calls > 0 ==> o.rc == answer(o.calls - 1))
            && (!EndsRetries(o.rc) ==> o.calls == maximumNumberOfTries)
  {
    RetryOutcomeMeans(answer, EndsRetries, maximumNumberOfTries);
  }
}
