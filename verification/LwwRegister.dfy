/** The last-writer-wins register of `crates/mercury-crdt/src/lww_register.rs`. */
module LwwRegister {
  import opened Clock
  import Joins

  datatype Register<T> = Register(value: T, timestamp: Stamp)

  /** `merge`, as a function; `set` is a merge with a register of its own. */
  function Later<T>(mine: Register<T>, other: Register<T>): Register<T> {
    if Less(mine.timestamp, other.timestamp) then other else mine
  }

  /** Merging commutes exactly when one timestamp never carries two values. */
  lemma LaterCommutesIff<T>(a: Register<T>, b: Register<T>)
    ensures Later(a, b) == Later(b, a) <==> (a.timestamp == b.timestamp ==> a.value == b.value)
  {
    LessIsStrictTotalOrder(a.timestamp, b.timestamp, a.timestamp);
  }

  /** The other register takes over exactly when it is strictly newer. */
  lemma OtherWinsIff<T>(mine: Register<T>, other: Register<T>)
    requires mine != other
    ensures Later(mine, other) == other <==> Less(mine.timestamp, other.timestamp)
    ensures Later(mine, other) == mine <==> !Less(mine.timestamp, other.timestamp)
  {
  }

  /** Two registers with one timestamp and two values: each keeps its own. */
  lemma LaterNotCommutative()
    ensures
      var t := Stamp(0, 0, 0);
      Later(Register(1, t), Register(2, t)) != Later(Register(2, t), Register(1, t))
  {
    LaterCommutesIff(Register(1, Stamp(0, 0, 0)), Register(2, Stamp(0, 0, 0)));
  }

  /** The registers whose timestamp names their value in `writes`. */
  ghost function From<T>(writes: map<Stamp, T>): Register<T> -> bool {
    (r: Register<T>) => r.timestamp in writes && writes[r.timestamp] == r.value
  }

  lemma LwwLaws<T(!new)>(writes: map<Stamp, T>)
    ensures Joins.MergeLaws(From(writes), (a, b) => Later<T>(a, b))
  {
  }

  /** A write timestamped once has one value, so registers merge in any order. */
  lemma LwwOrderFree<T(!new)>(writes: map<Stamp, T>, xs: seq<Register<T>>, ys: seq<Register<T>>)
    requires Joins.AllIn(From(writes), xs) && xs != []
    requires forall x :: x in xs <==> x in ys
    ensures ys != []
    ensures Joins.MergeAll((a, b) => Later<T>(a, b), xs) == Joins.MergeAll((a, b) => Later<T>(a, b), ys)
  {
    LwwLaws(writes);
    Joins.OrderFree(From(writes), (a, b) => Later<T>(a, b), xs, ys);
  }

  /** What wins is one of the registers merged, and none is later. */
  lemma {:induction false} LwwGreatest<T>(xs: seq<Register<T>>)
    requires xs != []
    ensures
      var r := Joins.MergeAll((a, b) => Later<T>(a, b), xs);
      r in xs && forall x | x in xs :: AtMost(x.timestamp, r.timestamp)
  {
    var n := |xs| - 1;
    if n > 0 {
      LwwGreatest(xs[..n]);
      var rest := Joins.MergeAll((a, b) => Later<T>(a, b), xs[..n]);
      var r := Later(rest, xs[n]);
      forall x | x in xs ensures AtMost(x.timestamp, r.timestamp) {
        if x != xs[n] {
          assert x in xs[..n];
        }
      }
    }
  }

  class LwwCell<T> {
    var value: T
    var timestamp: Stamp

    function Value(): Register<T>
      reads this
    {
      Register(value, timestamp)
    }

    constructor (value: T, timestamp: Stamp)
      ensures Value() == Register(value, timestamp)
    {
      this.value := value;
      this.timestamp := timestamp;
    }

    method Set(value: T, timestamp: Stamp)
      modifies this
      ensures Value() == Later(old(Value()), Register(value, timestamp))
    {
      if Less(this.timestamp, timestamp) {
        this.value := value;
        this.timestamp := timestamp;
      }
    }

    method Merge(other: LwwCell<T>)
      modifies this
      ensures Value() == Later(old(Value()), old(other.Value()))
    {
      if Less(timestamp, other.timestamp) {
        value := other.value;
        timestamp := other.timestamp;
      }
    }
  }
}
