/** The sequence of water levels at which the rising-water passes run.

    The level starts at 0, is raised by the increment once before the first
    pass and once after every pass, and a pass runs only while the level is
    below the ceiling.
 */
module Schedule {

  /** The levels of the passes that run when the rising-water step is
      entered with the water at `level`. */
  function PassLevelsFrom(level: int, inc: int, ceiling: int): (levels: seq<int>)
    requires inc > 0
    ensures level < ceiling <==> levels != []
    ensures levels != [] ==> levels[0] == level
    decreases ceiling - level
  {
    if level >= ceiling then [] else [level] + PassLevelsFrom(level + inc, inc, ceiling)
  }

  /** Entered at `level`, the passes run at level, level + inc, ... in that
      order, every one below the ceiling, and the first level left out is at
      or above the ceiling. */
  lemma {:induction false} PassLevelsShape(level: int, inc: int, ceiling: int)
    requires inc > 0
    ensures forall k :: 0 <= k < |PassLevelsFrom(level, inc, ceiling)| ==>
      PassLevelsFrom(level, inc, ceiling)[k] == level + k * inc &&
      PassLevelsFrom(level, inc, ceiling)[k] < ceiling
    ensures level + |PassLevelsFrom(level, inc, ceiling)| * inc >= ceiling
    decreases ceiling - level
  {
    if level < ceiling {
      var rest := PassLevelsFrom(level + inc, inc, ceiling);
      PassLevelsShape(level + inc, inc, ceiling);
      var s := PassLevelsFrom(level, inc, ceiling);
      assert s == [level] + rest;
      forall k | 0 <= k < |s|
        ensures s[k] == level + k * inc && s[k] < ceiling
      {
        if k > 0 {
          assert s[k] == rest[k - 1];
          assert level + inc + (k - 1) * inc == level + k * inc;
        }
      }
      assert level + inc + |rest| * inc == level + |s| * inc;
    }
  }

  /** The run itself: starting from the first raised level `inc`, the passes
      are exactly the multiples k*inc (k >= 1) below the ceiling, in
      increasing order; so no pass runs at or above the ceiling. */
  lemma RunLevels(inc: int, ceiling: int)
    requires inc > 0
    ensures forall k :: 0 <= k < |PassLevelsFrom(inc, inc, ceiling)| ==>
      PassLevelsFrom(inc, inc, ceiling)[k] == (k + 1) * inc &&
      0 < PassLevelsFrom(inc, inc, ceiling)[k] < ceiling
    ensures (|PassLevelsFrom(inc, inc, ceiling)| + 1) * inc >= ceiling
  {
    PassLevelsShape(inc, inc, ceiling);
    var s := PassLevelsFrom(inc, inc, ceiling);
    forall k | 0 <= k < |s|
      ensures s[k] == (k + 1) * inc && 0 < s[k]
    {
      assert inc + k * inc == (k + 1) * inc;
      assert k * inc >= 0;
    }
    assert inc + |s| * inc == (|s| + 1) * inc;
  }

  /** Appending the pass just run to the levels already run leaves the
      whole schedule unchanged: the levels still to come are the rest of it. */
  lemma {:induction false} PassLevelsStep(plan: seq<int>, done: seq<int>, level: int, inc: int, ceiling: int)
    requires inc > 0 && level < ceiling
    requires done + PassLevelsFrom(level, inc, ceiling) == plan
    ensures (done + [level]) + PassLevelsFrom(level + inc, inc, ceiling) == plan
  {
    assert PassLevelsFrom(level, inc, ceiling) == [level] + PassLevelsFrom(level + inc, inc, ceiling);
  }
}
