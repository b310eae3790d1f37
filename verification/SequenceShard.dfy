/**
 The shard of basket::global_sequence: one uint64_t.
 */
module SequenceShard {
  import opened Routing
  import opened SequenceService

  newtype uint64 = x: int | 0 <= x < TWO64

  class Shard {
    var value: uint64

    constructor ()
      ensures value == 0
    {
      value := 0;
    }

    /** `++*value`, which wraps around. */
    method LocalGetNextSequence() returns (next: uint64)
      modifies this
      ensures Body(old(value) as nat, value as nat, next as nat)
    {
      value := if value as int == TWO64 - 1 then 0 else value + 1;
      next := value;
    }
  }
}
