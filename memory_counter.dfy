// The process-wide count of native bytes held by large arrays. The Java class
// keeps it in one static AtomicLong; here the single counter is an object.
module MemoryCounters {
  import opened JavaInts

  /** `COUNTER.addAndGet(x)`: 64-bit wrapping addition. */
  function Increased(counter: int, x: int): (r: int)
    requires IsLong(counter) && IsLong(x)
    ensures IsLong(r)
    ensures IsLong(counter + x) ==> r == counter + x
  {
    ToLong(counter + x)
  }

  /** `addAndGet(-x)` (both the negation and the sum wrap), then clamp a negative total to 0. */
  function Decreased(counter: int, x: int): (r: int)
    requires IsLong(counter) && IsLong(x)
    ensures 0 <= r && IsLong(r)
    ensures IsLong(counter - x) && 0 <= counter - x ==> r == counter - x
    ensures IsLong(counter - x) && counter - x < 0 ==> r == 0
  {
    var v := ToLong(counter + ToLong(-x));
    WrapSubtract(counter, x);
    if v < 0 then 0 else v
  }

  lemma WrapSubtract(counter: int, x: int)
    ensures ToLong(counter + ToLong(-x)) == ToLong(counter - x)
  {
    WrapAdd(-x, counter, LONG_MODULUS);
  }

  /** Releasing what was just reserved restores the count, as long as the sum does not overflow. */
  lemma {:induction false} IncreaseThenDecrease(counter: int, x: int)
    requires IsLong(counter) && 0 <= counter && 0 <= x && IsLong(counter + x)
    ensures Decreased(Increased(counter, x), x) == counter
  {
    assert Increased(counter, x) == counter + x;
  }

  class MemoryCounter {
    var counter: int

    ghost predicate Valid()
      reads this
    {
      IsLong(counter)
    }

    constructor ()
      ensures Valid() && counter == 0
    {
      counter := 0;
    }

    method GetCounter() returns (r: int)
      requires Valid()
      ensures r == counter
    {
      r := counter;
    }

    method IncreaseCounter(x: int)
      requires Valid() && IsLong(x)
      modifies this
      ensures Valid() && counter == Increased(old(counter), x)
    {
      counter := ToLong(counter + x);
    }

    method DecreaseCounter(x: int)
      requires Valid() && IsLong(x)
      modifies this
      ensures Valid() && counter == Decreased(old(counter), x)
      ensures 0 <= counter
    {
      counter := ToLong(counter + ToLong(-x));
      if counter < 0 {
        counter := 0;
      }
    }
  }
}
