/**
 * `Highway`: the shared distance counter the simulation's vehicle tasks add
 * to. Java keeps it in a static `int`; here it is the field of one object
 * that every task is handed.
 */
module Highways {
  import opened Int32

  class Highway {
    var distance: i32

    /** The static initialiser: the counter starts at 0. */
    constructor ()
      ensures distance == 0
    {
      distance := 0;
    }

    /** `reset()`. */
    method Reset()
      modifies this
      ensures distance == 0
    {
      distance := 0;
    }

    /** `getDistance()`. */
    method GetDistance() returns (d: i32)
      ensures d == distance
    {
      d := distance;
    }

    /** `addDistanceSafe(amount)`: one indivisible `+=` on the 32-bit counter. */
    method AddDistanceSafe(amount: i32)
      modifies this
      ensures distance == Add(old(distance), amount)
    {
      distance := Add(distance, amount);
    }

    /** The second half of `addDistanceUnsafe`: after the pause, `temp + amount` overwrites the counter. */
    method WriteBack(temp: i32, amount: i32)
      modifies this
      ensures distance == Add(temp, amount)
    {
      distance := Add(temp, amount);
    }

    /** `addDistanceUnsafe(amount)` with no other write in between: the same effect as the safe add. */
    method AddDistanceUnsafe(amount: i32)
      modifies this
      ensures distance == Add(old(distance), amount)
    {
      var temp := GetDistance();
      WriteBack(temp, amount);
    }
  }

  /** The counter after the safe adds of `amounts`, one after the other, starting from `start`. */
  function SafeAdds(start: i32, amounts: seq<i32>): i32
    decreases amounts
  {
    if amounts == [] then start else SafeAdds(Add(start, amounts[0]), amounts[1..])
  }

  function Sum(amounts: seq<i32>): int
  {
    if amounts == [] then 0 else amounts[0] as int + Sum(amounts[1..])
  }

  /** With non-negative amounts and no overflow, serialised adds lose nothing: the counter grows by their sum. */
  lemma {:induction false} SafeAddsSum(start: i32, amounts: seq<i32>)
    requires forall i | 0 <= i < |amounts| :: amounts[i] >= 0
    requires start as int + Sum(amounts) <= MAX
    ensures SafeAdds(start, amounts) as int == start as int + Sum(amounts)
    decreases amounts
  {
    if amounts != [] {
      SumNonNegative(amounts[1..]);
      SafeAddsSum(Add(start, amounts[0]), amounts[1..]);
    }
  }

  lemma {:induction false} SumNonNegative(amounts: seq<i32>)
    requires forall i | 0 <= i < |amounts| :: amounts[i] >= 0
    ensures Sum(amounts) >= 0
  {
    if amounts != [] {
      SumNonNegative(amounts[1..]);
    }
  }

  /** `n` one-kilometre steps. */
  function Ones(n: nat): (s: seq<i32>)
    ensures |s| == n && forall i | 0 <= i < n :: s[i] == 1
  {
    if n == 0 then [] else [1] + Ones(n - 1)
  }

  /** From `reset()`, `n` safe adds of 1 leave exactly `n` on the counter. */
  lemma SafeOnesFromZero(n: nat)
    requires n <= MAX
    ensures SafeAdds(0, Ones(n)) as int == n
  {
    SumOnes(n);
    SafeAddsSum(0, Ones(n));
  }

  lemma {:induction false} SumOnes(n: nat)
    ensures Sum(Ones(n)) == n
  {
    if n > 0 {
      SumOnes(n - 1);
      assert Ones(n)[1..] == Ones(n - 1);
    }
  }

  /**
   * Two tasks adding unsafely, scheduled read, read, write, write: the
   * second write overwrites the first, whose amount is lost.
   */
  method TwoUnsafeAddsInterleaved(h: Highway, a: i32, b: i32)
    modifies h
    ensures h.distance == Add(old(h.distance), b)
  {
    var tempA := h.GetDistance();
    var tempB := h.GetDistance();
    h.WriteBack(tempA, a);
    h.WriteBack(tempB, b);
  }

  /** The same two adds done safely: both amounts arrive. */
  method TwoSafeAdds(h: Highway, a: i32, b: i32)
    modifies h
    ensures h.distance == SafeAdds(old(h.distance), [a, b])
  {
    ghost var start := h.distance;
    h.AddDistanceSafe(a);
    h.AddDistanceSafe(b);
    assert [a, b][1..] == [b] && [b][1..] == [];
    assert SafeAdds(start, [a, b]) == SafeAdds(Add(start, a), [b]) == Add(Add(start, a), b);
  }

  /**
   * The lost update: from any counter value that leaves room, two
   * interleaved unsafe adds of 1 end one below two safe adds of 1.
   */
  lemma LostUpdate(start: i32)
    requires start as int + 2 <= MAX
    ensures Add(start, 1) as int == SafeAdds(start, [1, 1]) as int - 1
  {
    var ones: seq<i32> := [1, 1];
    assert ones[1..] == [1] && ones[1..][1..] == [];
  }
}
