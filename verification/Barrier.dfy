/** The barrier's fields and methods, each executed without interruption. Module
    ScopeProtocol treats their interleaving; `JoinAlone` and `LastTaskWakes` of
    module ScopeResults say the same of its uninterrupted runs. */
module Barriers {
  import opened Lists

  class Barrier {
    var count: nat
    var continuation: Option<nat>

    /** Nobody waits on a barrier whose count is zero. */
    ghost predicate Valid()
      reads this
    {
      count == 0 ==> continuation == None
    }

    constructor (initialCount: nat)
      ensures Valid() && count == initialCount && continuation == None
    {
      count, continuation := initialCount, None;
    }

    method Add(amount: nat) returns (now: nat)
      requires Valid()
      modifies this`count
      ensures Valid() && now == count == old(count) + amount
    {
      count := count + amount;
      now := count;
    }

    /** The decrement that reaches zero, and no other, hands over the coroutine
        that waits. */
    method Decrement() returns (now: nat, resumed: Option<nat>)
      requires count > 0
      modifies this
      ensures Valid() && now == count == old(count) - 1
      ensures resumed == if count == 0 then old(continuation) else None
      ensures continuation == if count == 0 then None else old(continuation)
    {
      var oldCount := count;
      count := count - 1;
      resumed := None;
      if oldCount == 1 && continuation != None {
        resumed, continuation := continuation, None;
      }
      now := oldCount - 1;
    }

    /** `await_suspend`: with nothing to wait for the coroutine goes on, otherwise
        it is left to the last decrement; the count is the same as before. */
    method AwaitSuspend(handle: nat) returns (next: Option<nat>)
      requires Valid() && continuation == None
      modifies this
      ensures Valid() && count == old(count)
      ensures if count == 0 then next == Some(handle) && continuation == None
              else next == None && continuation == Some(handle)
    {
      next := Some(handle);
      var now := Add(1);
      if now > 1 { next, continuation := None, Some(handle); }
      var _, resumed := Decrement();
    }
  }
}
