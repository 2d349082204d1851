/** The bounded FIFO for critical frames (app/lib/core/realtime/outbound_frame_queue.dart). */
module OutboundFrameQueue {

  /** The newest `n` elements, oldest first. */
  function KeepLast<T>(s: seq<T>, n: nat): (kept: seq<T>)
    ensures |kept| == if |s| <= n then |s| else n
    ensures |s| <= n ==> kept == s
  {
    if |s| <= n then s else s[|s| - n..]
  }

  /** What is dropped comes before what is kept. */
  lemma KeptIsNewest<T>(s: seq<T>, n: nat)
    ensures s == s[..|s| - |KeepLast(s, n)|] + KeepLast(s, n)
  {
  }

  /** Dropping as one goes keeps the same frames as dropping at the end. */
  lemma KeepLastStep<T>(s: seq<T>, x: T, n: nat)
    requires 0 < n
    ensures KeepLast(KeepLast(s, n) + [x], n) == KeepLast(s + [x], n)
  {
  }

  class OutboundFrameQueue<T> {
    const maxLength: nat
    var frames: seq<T>

    ghost predicate Valid() reads this {
      0 < maxLength && |frames| <= maxLength
    }

    constructor (maxLength: nat)
      requires maxLength > 0
      ensures Valid() && frames == [] && this.maxLength == maxLength
    {
      this.maxLength := maxLength;
      frames := [];
    }

    /** Appends; a full buffer loses its oldest frame. */
    method Enqueue(frame: T)
      requires Valid()
      modifies this
      ensures Valid() && frames == KeepLast(old(frames) + [frame], maxLength)
      ensures frames == (if |old(frames)| < maxLength then old(frames) else old(frames)[1..]) + [frame]
    {
      if |frames| >= maxLength {
        frames := frames[1..];
      }
      frames := frames + [frame];
    }

    method Drain() returns (drained: seq<T>)
      requires Valid()
      modifies this
      ensures Valid() && frames == [] && drained == old(frames)
    {
      drained := frames;
      frames := [];
    }
  }
}
