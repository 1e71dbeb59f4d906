/** The observable behaviour of a Python generator that is pulled to its end:
    the items it yields, then either a normal end or the exception it raises. */
module Generators {
  import opened Wrappers
  import opened Values

  datatype Run<T> = Run(items: seq<T>, raised: Option<Exc>)

  /** What a single `next(...)` on a fresh generator observes. */
  datatype Probe = Produced | Failed(exc: Exc)

  /** The outcome of pulling one element: the first item if there is one,
      otherwise the exception the generator ends with (`StopIteration` when it
      ends normally without yielding). */
  function ProbeOf<T>(run: Run<T>): (p: Probe)
    ensures p == Produced <==> |run.items| > 0
    ensures p == Failed(StopIteration) <== |run.items| == 0 && run.raised == None
    ensures p.Failed? && p.exc != StopIteration ==> run.raised == Some(p.exc)
  {
    if |run.items| > 0 then Produced
    else match run.raised
      case Some(e) => Failed(e)
      case None => Failed(StopIteration)
  }

  /** The first index at which `p` holds, or `|s|` when it never does. */
  function FirstIndex<T>(s: seq<T>, p: T -> bool): (k: nat)
    ensures k <= |s|
    ensures forall j :: 0 <= j < k ==> !p(s[j])
    ensures k < |s| ==> p(s[k])
  {
    if |s| == 0 then 0
    else if p(s[0]) then 0
    else 1 + FirstIndex(s[1..], p)
  }

  /** `n` copies of `s`, one after another. */
  function Repeat<T>(s: seq<T>, n: nat): (r: seq<T>)
    ensures |r| == n * |s|
  {
    if n == 0 then [] else s + Repeat(s, n - 1)
  }
}
