/**
 * The histories a tester records (battery/metric.py): append-only (x, y) sample histories, and
 * the charge snapshot that is replaced rather than appended to.
 */
module Metrics {

  /** An (x, y) history: timesteps and the values recorded at them. */
  class Metric {
    var xs: seq<int>
    var ys: seq<real>

    /** The two histories have one entry per sample, and there is at least one sample. */
    ghost predicate Valid()
      reads this
    {
      |xs| == |ys| >= 1
    }

    /** A history that starts with exactly one sample. */
    constructor (x: int, y: real)
      ensures Valid() && xs == [x] && ys == [y]
    {
      xs := [x];
      ys := [y];
    }

    /**
     * Records one more sample: both histories grow by exactly one entry and keep all earlier
     * ones; the new value becomes the latest, and the change reported is from the previous one.
     */
    method Update(x: int, y: real)
      requires Valid()
      modifies this
      ensures Valid()
      ensures xs == old(xs) + [x] && ys == old(ys) + [y]
      ensures GetVal() == y && Delta() == y - old(GetVal())
    {
      xs := xs + [x];
      ys := ys + [y];
    }

    /** The latest recorded value: the history is the earlier values followed by it. */
    function GetVal(): (r: real)
      requires Valid()
      reads this
      ensures ys == ys[..|ys| - 1] + [r]
    {
      ys[|ys| - 1]
    }

    /** The change from the second-to-last value to the last one: added to the former, it gives the latter. */
    function Delta(): (r: real)
      requires Valid() && |ys| >= 2
      reads this
      ensures ys[|ys| - 2] + r == GetVal()
    {
      ys[|ys| - 1] - ys[|ys| - 2]
    }

    /** Both histories, as values that later updates do not affect. */
    method GetXyCopy() returns (x: seq<int>, y: seq<real>)
      ensures x == xs && y == ys
    {
      x, y := xs, ys;
    }
  }

  /** `Charge.get_init_vals`: positions 0 .. n - 1 and no charge at any of them. */
  function InitVals(n: nat): (r: (seq<int>, seq<real>))
    ensures |r.0| == n && |r.1| == n
    ensures forall i :: 0 <= i < n ==> r.0[i] == i
    ensures forall i :: 0 <= i < n ==> r.1[i] == 0.0
  {
    (seq(n, i => i), seq(n, _ => 0.0))
  }

  /** The charge curve across the cathode: a snapshot, not a history. */
  class Charge {
    var xs: seq<int>
    var ys: seq<real>

    constructor (x: seq<int>, y: seq<real>)
      ensures xs == x && ys == y
    {
      xs := x;
      ys := y;
    }

    /** Replaces the snapshot; nothing of the previous one is kept. */
    method Update(x: seq<int>, y: seq<real>)
      modifies this
      ensures xs == x && ys == y
    {
      xs := x;
      ys := y;
    }

    method GetXyCopy() returns (x: seq<int>, y: seq<real>)
      ensures x == xs && y == ys
    {
      x, y := xs, ys;
    }
  }
}
