/** `UniversalCompaction` of src/paimon/core/mergetree/compact: which sorted runs are compacted next, and
    into which level. Sizes are exact numbers here. */
module UniversalCompactions {
  import opened Records
  import opened IntervalPartitions

  /** A sorted run and its level. `size` is the total size of its files. */
  datatype LevelRun = LevelRun(level: int, files: seq<File>, size: nat)

  /** The runs as `LevelSortedRuns` lists them: one run for every file of level 0, then one run for every
      other level in use, in order. */
  ghost predicate LevelsOk(runs: seq<LevelRun>, maxLevel: int) {
    && (forall i :: 0 <= i < |runs| ==> 0 <= runs[i].level <= maxLevel)
    && (forall i :: 0 <= i < |runs| ==> runs[i].files != [] && (runs[i].level == 0 ==> |runs[i].files| == 1))
    && (forall i, j :: 0 <= i < j < |runs| ==>
          runs[i].level <= runs[j].level && (runs[j].level > 0 ==> runs[i].level < runs[j].level))
  }

  /** The first `count` runs are compacted into level `output`. */
  datatype Unit = Unit(count: nat, output: int)

  /** A sound choice: the newest runs, and an output level that holds nothing but compacted runs. */
  ghost predicate UnitOk(runs: seq<LevelRun>, maxLevel: int, u: Unit) {
    && 1 <= u.count <= |runs| && 0 < u.output <= maxLevel
    && (forall i :: 0 <= i < u.count ==> runs[i].level <= u.output)
    && (forall i :: u.count <= i < |runs| ==> runs[i].level > u.output)
    && (u.count == |runs| ==> u.output == maxLevel)
  }

  /** The first run above level 0 from run `i` on. */
  function FirstAbove(runs: seq<LevelRun>, i: int): (r: int)
    requires 0 <= i <= |runs|
    ensures i <= r <= |runs| && forall j :: i <= j < r ==> runs[j].level == 0
    ensures r < |runs| ==> runs[r].level != 0
    decreases |runs| - i
  {
    if i == |runs| || runs[i].level != 0 then i else FirstAbove(runs, i + 1)
  }

  /** What `n` picked runs become: they go below the next run. Where there is no level for them, the runs of
      level 0 and the first level above it go along. */
  function UnitFor(runs: seq<LevelRun>, maxLevel: int, n: nat): (u: Unit)
    requires 1 <= n <= |runs|
  {
    if n == |runs| then Unit(n, maxLevel)
    else if runs[n].level > 1 then Unit(n, runs[n].level - 1)
    else
      var k := FirstAbove(runs, n) + 1;
      if k >= |runs| then Unit(|runs|, maxLevel) else Unit(k, runs[k-1].level)
  }

  method CreateUnit(runs: seq<LevelRun>, maxLevel: int, runCount: int) returns (u: Unit)
    requires LevelsOk(runs, maxLevel) && maxLevel >= 1 && 1 <= runCount <= |runs|
    ensures u == UnitFor(runs, maxLevel, runCount)
    ensures UnitOk(runs, maxLevel, u) && u.count >= runCount
    ensures runCount < |runs| && runs[runCount].level > 1 ==> u == Unit(runCount, runs[runCount].level - 1)
    ensures runCount < |runs| && runs[runCount].level <= 1 ==>
      u.count > runCount && forall j :: runCount <= j < u.count - 1 ==> runs[j].level == 0
    ensures runCount < u.count < |runs| ==> u.output == runs[u.count - 1].level
    ensures u.count == |runs| ==> u.output == maxLevel
  {
    var count := runCount;
    var output := if count == |runs| then maxLevel else if runs[count].level > 1 then runs[count].level - 1 else 0;
    if output == 0 {
      // Level 0 is never an output.
      var i := count;
      while i < |runs|
        invariant runCount <= count <= |runs| && i == count && output == 0
        invariant forall j :: runCount <= j < i ==> runs[j].level == 0
        invariant FirstAbove(runs, i) == FirstAbove(runs, runCount)
      {
        var next := runs[i];
        count := count + 1;
        if next.level != 0 {
          output := next.level;
          break;
        }
        i := i + 1;
      }
    }
    if count == |runs| {
      output := maxLevel;
    }
    u := Unit(count, output);
  }

  function TotalSize(runs: seq<LevelRun>): nat {
    if runs == [] then 0 else TotalSize(runs[..|runs|-1]) + runs[|runs|-1].size
  }

  /** Sizes add up. */
  lemma {:induction false} SizesAdd(a: seq<LevelRun>, b: seq<LevelRun>)
    ensures TotalSize(a + b) == TotalSize(a) + TotalSize(b)
    ensures forall r: LevelRun :: TotalSize([r]) == r.size
  {
    assert forall r: LevelRun :: [r][..0] == [];
    if b == [] {
      assert a + b == a;
    } else {
      var c := b[..|b|-1];
      assert (a + b)[..|a + b|-1] == a + c;
      SizesAdd(a, c);
    }
  }

  /** How many runs the size ratio picks, when `count` are picked already: the next run joins while it is not
      larger than all picked ones together, give or take the ratio. */
  function RatioCount(runs: seq<LevelRun>, count: nat, ratio: int): (r: nat)
    requires count <= |runs|
    ensures count <= r <= |runs|
    decreases |runs| - count
  {
    if count < |runs| && TotalSize(runs[..count]) * (100 + ratio) >= 100 * runs[count].size
    then RatioCount(runs, count + 1, ratio) else count
  }

  /** Run `first`, and every later one up to run `m`, is not larger than all runs before it, give or take the
      ratio. Run `m` is. */
  ghost predicate JoinUpTo(runs: seq<LevelRun>, ratio: int, first: nat, m: nat) {
    && first <= m <= |runs|
    && (forall k :: first <= k < m ==> TotalSize(runs[..k]) * (100 + ratio) >= 100 * runs[k].size)
    && (m < |runs| ==> TotalSize(runs[..m]) * (100 + ratio) < 100 * runs[m].size)
  }

  lemma {:induction false} RatioStops(runs: seq<LevelRun>, count: nat, ratio: int)
    requires count <= |runs|
    ensures JoinUpTo(runs, ratio, count, RatioCount(runs, count, ratio))
    decreases |runs| - count
  {
    if count < |runs| && TotalSize(runs[..count]) * (100 + ratio) >= 100 * runs[count].size {
      RatioStops(runs, count + 1, ratio);
    }
  }

  lemma SecondJoins(runs: seq<LevelRun>, ratio: int)
    requires |runs| > 1
    ensures RatioCount(runs, 1, ratio) > 1 <==> runs[0].size * (100 + ratio) >= 100 * runs[1].size
  {
    SizesAdd([], [runs[0]]);
    assert runs[..1] == [runs[0]];
  }

  method PickForSizeRatio(runs: seq<LevelRun>, maxLevel: int, candidates: nat, ratio: int, force: bool)
    returns (u: Option<Unit>)
    requires LevelsOk(runs, maxLevel) && maxLevel >= 1 && 1 <= candidates <= |runs|
    ensures var n := RatioCount(runs, candidates, ratio);
      u == if force || n > 1 then Some(UnitFor(runs, maxLevel, n)) else None
    ensures u.Some? ==> UnitOk(runs, maxLevel, u.value) && u.value.count >= RatioCount(runs, candidates, ratio)
  {
    var size := CandidateSize(runs, candidates);
    var count := candidates;
    while count < |runs|
      invariant candidates <= count <= |runs| && size == TotalSize(runs[..count])
      invariant RatioCount(runs, count, ratio) == RatioCount(runs, candidates, ratio)
    {
      if size * (100 + ratio) < 100 * runs[count].size {
        break;
      }
      size := size + runs[count].size;
      assert runs[..count+1][..count] == runs[..count];
      count := count + 1;
    }
    if force || count > 1 {
      var unit := CreateUnit(runs, maxLevel, count);
      return Some(unit);
    }
    return None;
  }

  method CandidateSize(runs: seq<LevelRun>, candidates: nat) returns (size: nat)
    requires candidates <= |runs|
    ensures size == TotalSize(runs[..candidates])
  {
    size := 0;
    var i := 0;
    while i < candidates
      invariant 0 <= i <= candidates && size == TotalSize(runs[..i])
    {
      size := size + runs[i].size;
      assert runs[..i+1][..i] == runs[..i];
      i := i + 1;
    }
  }

  /** All runs into the highest level. */
  lemma FullUnit(runs: seq<LevelRun>, maxLevel: int)
    requires LevelsOk(runs, maxLevel) && maxLevel >= 1 && runs != []
    ensures UnitOk(runs, maxLevel, Unit(|runs|, maxLevel))
  {
  }

  /** What the strategy chooses: everything when asked to or when the newer runs are too large, else what the
      size ratio picks, else enough runs to come back to the trigger. */
  function Chosen(runs: seq<LevelRun>, maxLevel: int, trigger: nat, maxAmp: int, ratio: int,
                  early: bool): (u: Option<Unit>)
    requires trigger >= 1
  {
    if early && |runs| > 1 then Some(Unit(|runs|, maxLevel))
    else if |runs| < trigger then None
    else if TotalSize(runs[..|runs|-1]) * 100 > maxAmp * runs[|runs|-1].size then Some(Unit(|runs|, maxLevel))
    else if RatioCount(runs, 1, ratio) > 1 then Some(UnitFor(runs, maxLevel, RatioCount(runs, 1, ratio)))
    else if |runs| == trigger then None
    else Some(UnitFor(runs, maxLevel, RatioCount(runs, |runs| - trigger + 1, ratio)))
  }

  /** `Pick`. `early` stands for the decision of the early full compaction. */
  method Pick(runs: seq<LevelRun>, maxLevel: int, trigger: nat, maxAmp: int, ratio: int, early: bool)
    returns (u: Option<Unit>)
    requires LevelsOk(runs, maxLevel) && maxLevel >= 1 && trigger >= 1
    ensures u == Chosen(runs, maxLevel, trigger, maxAmp, ratio, early)
    ensures u.Some? ==> UnitOk(runs, maxLevel, u.value)
    ensures |runs| > trigger ==> u.Some?
    ensures u.Some? && |runs| > 1 ==> u.value.count > 1
    ensures u.None? && |runs| >= trigger ==>
      TotalSize(runs[..|runs|-1]) * 100 <= maxAmp * runs[|runs|-1].size && RatioCount(runs, 1, ratio) == 1
  {
    if early && |runs| > 1 {
      FullUnit(runs, maxLevel);
      return Some(Unit(|runs|, maxLevel));
    }
    if |runs| < trigger {
      return None;
    }
    var candidate := CandidateSize(runs, |runs| - 1);
    if candidate * 100 > maxAmp * runs[|runs|-1].size {
      FullUnit(runs, maxLevel);
      return Some(Unit(|runs|, maxLevel));
    }
    u := PickForSizeRatio(runs, maxLevel, 1, ratio, false);
    if u.Some? {
      return;
    }
    if |runs| > trigger {
      u := PickForSizeRatio(runs, maxLevel, |runs| - trigger + 1, ratio, false);
    }
  }

  /** `ForcePickL0`: all of level 0, at least. */
  method ForcePickL0(runs: seq<LevelRun>, maxLevel: int, ratio: int) returns (u: Option<Unit>)
    requires LevelsOk(runs, maxLevel) && maxLevel >= 1
    ensures u.Some? <==> runs != [] && runs[0].level == 0
    ensures u.Some? ==> u.value == UnitFor(runs, maxLevel, RatioCount(runs, FirstAbove(runs, 0), ratio))
    ensures u.Some? ==> UnitOk(runs, maxLevel, u.value) && forall i :: u.value.count <= i < |runs| ==> runs[i].level > 0
  {
    var count := 0;
    while count < |runs| && runs[count].level <= 0
      invariant 0 <= count <= |runs| && forall i :: 0 <= i < count ==> runs[i].level <= 0
      invariant FirstAbove(runs, count) == FirstAbove(runs, 0)
    {
      count := count + 1;
    }
    if count == 0 {
      return None;
    }
    u := PickForSizeRatio(runs, maxLevel, count, ratio, true);
  }

  /** `NonEmptyHighestLevel`. */
  function HighestLevel(runs: seq<LevelRun>): int {
    if runs == [] then -1 else runs[|runs|-1].level
  }

  /** The compaction's output is at or above the highest level in use exactly when every run takes part:
      then there is no older data, and deletions may go. */
  lemma NoOlderData(runs: seq<LevelRun>, maxLevel: int, u: Unit)
    requires LevelsOk(runs, maxLevel) && UnitOk(runs, maxLevel, u)
    ensures u.output >= HighestLevel(runs) <==> u.count == |runs|
  {
  }

  /** What stays of the levels when the output is put in its place. */
  function Replaced(runs: seq<LevelRun>, u: Unit, out: seq<File>, size: nat): (r: seq<LevelRun>)
    requires u.count <= |runs|
  {
    (if out == [] then [] else [LevelRun(u.output, out, size)]) + runs[u.count..]
  }

  /** The levels stay in order: no level gets a second run. */
  lemma ReplacedOk(runs: seq<LevelRun>, maxLevel: int, u: Unit, out: seq<File>, size: nat)
    requires LevelsOk(runs, maxLevel) && UnitOk(runs, maxLevel, u)
    ensures LevelsOk(Replaced(runs, u, out, size), maxLevel)
  {
  }
}
