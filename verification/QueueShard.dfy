/**
 The shard of basket::queue.
 */
module QueueShard {
  import opened QueueService

  class Shard<A> {
    const noValue: A
    var my_queue: seq<A>

    constructor (noValue: A)
      ensures this.noValue == noValue && my_queue == []
    {
      this.noValue := noValue;
      my_queue := [];
    }

    method LocalPush(data: A) returns (ok: bool)
      modifies this
      ensures forall server :: Body(noValue, Push(data, server), old(my_queue), my_queue, Flag(ok))
    {
      my_queue := my_queue + [data];
      ok := true;
    }

    method LocalPop() returns (found: bool, value: A)
      modifies this
      ensures forall server :: Body(noValue, Pop(server), old(my_queue), my_queue, Popped(found, value))
    {
      if |my_queue| > 0 {
        found, value := true, my_queue[0];
        my_queue := my_queue[1..];
      } else {
        found, value := false, noValue;
      }
    }

    method LocalSize() returns (value: nat)
      ensures forall server :: Body(noValue, Size(server), my_queue, my_queue, Count(value))
    {
      value := |my_queue|;
    }
  }

  /** The polling loop of LocalWaitForElement: `polls` are the contents of the queue at the successive polls, which
      other clients determine.  It goes on while the WaitForElement step of the machine is not possible, and then
      takes that step. */
  method LocalWaitForElement<A(!new)>(noValue: A, server: nat, polls: seq<seq<A>>) returns (ok: bool, count: nat)
    requires exists i :: 0 <= i < |polls| && polls[i] != []
    ensures count < |polls| && Body(noValue, WaitForElement(server), polls[count], polls[count], Flag(ok))
    ensures forall i, r :: 0 <= i < count ==> !Body(noValue, WaitForElement(server), polls[i], polls[i], r)
  {
    count := 0;
    while |polls[count]| == 0
      invariant count < |polls| && forall i :: 0 <= i < count ==> polls[i] == []
      decreases |polls| - count
    {
      count := count + 1;
    }
    ok := true;
  }
}
