/** The bounded retry pattern of the samples' wrappers around PxLGetNextFrame: call the
    camera up to a number of times, stop at the first answer that ends the retries,
    and otherwise return the last answer. The camera's k-th answer is `answer(k)`. */
module Retries {
  import opened Sdk

  /** FRAME_DESC, reduced to the `uSize` field the wrappers manage. */
  class FrameDesc {
    var size: nat

    constructor (size: nat)
      ensures this.size == size
    {
      this.size := size;
    }
  }

  /** The result of a retry loop and the number of camera calls it made. */
  datatype Attempts = Attempts(rc: ReturnCode, calls: nat)

  /** The retries from attempt `i` on, when `last` is the code held so far. */
  function RetryFrom(answer: nat -> ReturnCode, stops: ReturnCode -> bool, i: nat, tries: nat,
                     last: ReturnCode): Attempts
    decreases tries - i
  {
    if i >= tries then Attempts(last, i)
    else if stops(answer(i)) then Attempts(answer(i), i + 1)
    else RetryFrom(answer, stops, i + 1, tries, answer(i))
  }

  /** A retry loop that starts holding ApiUnknownError. */
  function RetryOutcome(answer: nat -> ReturnCode, stops: ReturnCode -> bool, tries: nat): Attempts {
    RetryFrom(answer, stops, 0, tries, ApiUnknownError)
  }

  lemma {:induction false} RetryFromMeans(answer: nat -> ReturnCode, stops: ReturnCode -> bool, i: nat,
                                          tries: nat, last: ReturnCode)
    requires i <= tries
    ensures var o := RetryFrom(answer, stops, i, tries, last);
            && i <= o.calls <= tries
            && (forall j :: i <= j < o.calls - 1 ==> !stops(answer(j)))
            && (o.calls < tries ==> o.calls > i && stops(answer(o.calls - 1)))
            && o.rc == (if o.calls == i then last else answer(o.calls - 1))
            && (o.calls == i <==> i == tries)
    decreases tries - i
  {
    if i < tries && !stops(answer(i)) {
      RetryFromMeans(answer, stops, i + 1, tries, answer(i));
    }
  }

  /** What a retry loop does, for every sequence of answers: it makes at most `tries`
      calls, none when `tries` is 0; every call before the last one got an answer that
      does not end the retries; it stops early only on an answer that does; and it
      returns the last answer, or ApiUnknownError when it made no call. */
  lemma RetryOutcomeMeans(answer: nat -> ReturnCode, stops: ReturnCode -> bool, tries: nat)
    ensures var o := RetryOutcome(answer, stops, tries);
            && o.calls <= tries
            && (o.calls == 0 <==> tries == 0)
            && (forall j :: 0 <= j < o.calls - 1 ==> !stops(answer(j)))
            && (o.calls < tries ==> stops(answer(o.calls - 1)))
            && o.rc == (if o.calls == 0 then ApiUnknownError else answer(o.calls - 1))
  {
    RetryFromMeans(answer, stops, 0, tries, ApiUnknownError);
  }

  /** A retry loop that stops on success returns a success code exactly when one of the
      answers it could ask for is a success. */
  lemma SucceedsIffSomeAnswerSucceeds(answer: nat -> ReturnCode, stops: ReturnCode -> bool, tries: nat)
    requires forall rc :: Succeeded(rc) ==> stops(rc)
    ensures Succeeded(RetryOutcome(answer, stops, tries).rc) ==> exists k :: 0 <= k < tries && Succeeded(answer(k))
    ensures stops == Succeeded ==>
              ((exists k :: 0 <= k < tries && Succeeded(answer(k))) ==> Succeeded(RetryOutcome(answer, stops, tries).rc))
  {
    RetryOutcomeMeans(answer, stops, tries);

  }
}
