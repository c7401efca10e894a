/** A merge tree: flushed files, background compactions and reads. */
module MergeTrees {
  import opened Records
  import opened IntervalPartitions
  import opened Latest
  import opened SplitReads
  import opened Compaction
  import opened UniversalCompactions
  import opened Views

  function FilesOf(runs: seq<LevelRun>): seq<File> {
    if runs == [] then [] else runs[0].files + FilesOf(runs[1..])
  }

  lemma {:induction false} FilesConcat(a: seq<LevelRun>, b: seq<LevelRun>)
    ensures FilesOf(a + b) == FilesOf(a) + FilesOf(b)
  {
    if a == [] {
      assert a + b == b;
    } else {
      assert (a + b)[1..] == a[1..] + b;
      FilesConcat(a[1..], b);
    }
  }

  /** The records in some runs. */
  ghost function Recs(runs: seq<LevelRun>): multiset<KeyValue> {
    multiset(RowsOf(FilesOf(runs)))
  }

  lemma RecsConcat(a: seq<LevelRun>, b: seq<LevelRun>)
    ensures Recs(a + b) == Recs(a) + Recs(b)
  {
    FilesConcat(a, b);
    RowsConcat(FilesOf(a), FilesOf(b));
  }

  lemma RecsOne(run: LevelRun)
    ensures FilesOf([run]) == run.files && Recs([run]) == multiset(RowsOf(run.files))
  {
    assert [run][1..] == [];
    assert FilesOf([]) == [];
  }

  ghost predicate RunsSound(runs: seq<LevelRun>) {
    FilesOk(FilesOf(runs)) && forall i :: 0 <= i < |runs| ==> ValidRun(runs[i].files)
  }

  /** A compaction under way: it was chosen among the runs behind the first `flushed`, which came later. */
  datatype Pending = Pending(unit: Unit, drop: bool, flushed: nat)

  ghost predicate PendingOk(runs: seq<LevelRun>, maxLevel: int, p: Pending) {
    && p.flushed <= |runs| && UnitOk(runs[p.flushed..], maxLevel, p.unit)
    && (forall i :: 0 <= i < p.flushed ==> runs[i].level == 0)
    && (p.drop ==> p.unit.count == |runs| - p.flushed)
  }

  /** The runs in the order flushed, compacted, others. */
  lemma ThreeParts(runs: seq<LevelRun>, f: nat, k: nat)
    requires f + k <= |runs|
    ensures Recs(runs) == Recs(runs[..f]) + Recs(runs[f..f+k]) + Recs(runs[f+k..])
    ensures Recs(runs[f..]) == Recs(runs[f..f+k]) + Recs(runs[f+k..])
  {
    assert runs == runs[..f] + (runs[f..f+k] + runs[f+k..]);
    assert runs[f..] == runs[f..f+k] + runs[f+k..];
    RecsConcat(runs[f..f+k], runs[f+k..]);
    RecsConcat(runs[..f], runs[f..f+k] + runs[f+k..]);
  }

  /** The tree after the output was put in place of the compacted runs. */
  function Installed(runs: seq<LevelRun>, p: Pending, out: seq<File>, size: nat): seq<LevelRun>
    requires p.flushed + p.unit.count <= |runs|
  {
    runs[..p.flushed] + UniversalCompactions.Replaced(runs[p.flushed..], p.unit, out, size)
  }

  lemma MiddleRecs(run: LevelRun)
    ensures Recs(if run.files == [] then [] else [run]) == multiset(RowsOf(run.files))
  {
    RecsOne(run);
    NoRecs();
    assert RowsOf([]) == [];
  }

  lemma RecsThree(a: seq<LevelRun>, m: seq<LevelRun>, c: seq<LevelRun>)
    ensures Recs(a + (m + c)) == Recs(m) + (Recs(a) + Recs(c))
  {
    RecsConcat(m, c);
    RecsConcat(a, m + c);
  }

  lemma InstalledRecs(runs: seq<LevelRun>, p: Pending, out: seq<File>, size: nat, next: seq<LevelRun>)
    requires p.flushed + p.unit.count <= |runs| && next == Installed(runs, p, out, size)
    ensures Recs(next) == multiset(RowsOf(out)) + Others(runs, p)
  {
    var f, k := p.flushed, p.unit.count;
    var run := LevelRun(p.unit.output, out, size);
    MiddleRecs(run);
    assert runs[f..][k..] == runs[f+k..];
    RecsThree(runs[..f], if run.files == [] then [] else [run], runs[f+k..]);
  }

  lemma NoRecs()
    ensures Recs([]) == multiset{}
  {
    assert FilesOf([]) == [];
    assert RowsOf([]) == [];
  }

  lemma AllCompacted(runs: seq<LevelRun>, p: Pending)
    requires p.flushed + p.unit.count == |runs|
    ensures Others(runs, p) == Recs(runs[..p.flushed]) && Compacted(runs, p) == Recs(runs[p.flushed..])
  {
    NoRecs();
    assert runs[|runs|..] == [] && runs[p.flushed..|runs|] == runs[p.flushed..];
  }

  ghost function Compacted(runs: seq<LevelRun>, p: Pending): multiset<KeyValue>
    requires p.flushed + p.unit.count <= |runs|
  {
    Recs(runs[p.flushed..p.flushed + p.unit.count])
  }

  ghost function Others(runs: seq<LevelRun>, p: Pending): multiset<KeyValue>
    requires p.flushed + p.unit.count <= |runs|
  {
    Recs(runs[..p.flushed]) + Recs(runs[p.flushed + p.unit.count..])
  }

  lemma TwoParts(runs: seq<LevelRun>, p: Pending)
    requires p.flushed + p.unit.count <= |runs|
    ensures Recs(runs) == Compacted(runs, p) + Others(runs, p)
  {
    ThreeParts(runs, p.flushed, p.unit.count);
  }

  lemma {:induction false} FileInRuns(runs: seq<LevelRun>, f: File)
    ensures f in FilesOf(runs) <==> exists i :: 0 <= i < |runs| && f in runs[i].files
  {
    if runs != [] {
      FileInRuns(runs[1..], f);
      if i :| 0 <= i < |runs[1..]| && f in runs[1..][i].files { assert f in runs[i+1].files; }
      if i :| 0 <= i < |runs| && f in runs[i].files {
        if i > 0 { assert f in runs[1..][i-1].files; }
      }
    }
  }

  lemma SubRunsSound(runs: seq<LevelRun>, lo: int, hi: int)
    requires RunsSound(runs) && 0 <= lo <= hi <= |runs|
    ensures RunsSound(runs[lo..hi])
  {
    forall f | f in FilesOf(runs[lo..hi]) ensures FileOk(f) {
      FileInRuns(runs[lo..hi], f);
      var i :| 0 <= i < hi - lo && f in runs[lo..hi][i].files;
      assert f in runs[lo + i].files;
      FileInRuns(runs, f);
    }
  }

  lemma JoinedSound(a: seq<LevelRun>, b: seq<LevelRun>)
    requires RunsSound(a) && RunsSound(b)
    ensures RunsSound(a + b)
  {
    FilesConcat(a, b);
  }

  lemma OneSound(run: LevelRun)
    requires ValidRun(run.files) && FilesOk(run.files)
    ensures RunsSound([run])
  {
    RecsOne(run);
  }

  lemma InstalledSound(runs: seq<LevelRun>, p: Pending, out: seq<File>, size: nat)
    requires RunsSound(runs) && p.flushed + p.unit.count <= |runs| && ValidRun(out) && FilesOk(out)
    ensures RunsSound(Installed(runs, p, out, size))
  {
    var f, k := p.flushed, p.unit.count;
    var run := LevelRun(p.unit.output, out, size);
    SubRunsSound(runs, 0, f);
    SubRunsSound(runs, f + k, |runs|);
    assert runs[0..f] == runs[..f] && runs[f+k..|runs|] == runs[f..][k..];
    OneSound(run);
    assert RunsSound([]) by { assert FilesOf([]) == []; }
    JoinedSound(if out == [] then [] else [run], runs[f..][k..]);
    JoinedSound(runs[..f], (if out == [] then [] else [run]) + runs[f..][k..]);
  }

  lemma InstalledLevels(runs: seq<LevelRun>, maxLevel: int, p: Pending, out: seq<File>, size: nat)
    requires LevelsOk(runs, maxLevel) && PendingOk(runs, maxLevel, p)
    ensures LevelsOk(Installed(runs, p, out, size), maxLevel)
  {
    TailLevels(runs, maxLevel, p.flushed);
    ReplacedOk(runs[p.flushed..], maxLevel, p.unit, out, size);
    var tail := UniversalCompactions.Replaced(runs[p.flushed..], p.unit, out, size);
    forall i | 0 <= i < |tail| ensures tail[i].level > 0 {
      if !(out != [] && i == 0) {
        var j := i + p.unit.count - if out == [] then 0 else 1;
        assert tail[i] == runs[p.flushed..][j];
      }
    }
    ZerosThenLevels(runs[..p.flushed], tail, maxLevel);
  }

  lemma TailLevels(runs: seq<LevelRun>, maxLevel: int, f: nat)
    requires LevelsOk(runs, maxLevel) && f <= |runs|
    ensures LevelsOk(runs[f..], maxLevel)
  {
  }

  lemma ZerosThenLevels(zeros: seq<LevelRun>, tail: seq<LevelRun>, maxLevel: int)
    requires maxLevel >= 0 && LevelsOk(tail, maxLevel)
    requires (forall i :: 0 <= i < |zeros| ==> zeros[i].level == 0 && |zeros[i].files| == 1)
    ensures LevelsOk(zeros + tail, maxLevel)
  {
  }

  lemma FlushedPending(runs: seq<LevelRun>, maxLevel: int, p: Pending, run: LevelRun)
    requires PendingOk(runs, maxLevel, p) && run.level == 0
    ensures PendingOk([run] + runs, maxLevel, p.(flushed := p.flushed + 1))
  {
    var all := [run] + runs;
    assert all[p.flushed+1..] == runs[p.flushed..] && all[..p.flushed+1] == [run] + runs[..p.flushed];
  }

  lemma TailRecs(runs: seq<LevelRun>, f: nat, written: multiset<KeyValue>)
    requires f <= |runs| && forall e :: e in Recs(runs) ==> e in written
    ensures forall e :: e in Recs(runs[f..]) ==> e in written
  {
    assert runs == runs[..f] + runs[f..];
    RecsConcat(runs[..f], runs[f..]);
  }

  /** The levels are in order, the files are sound, nothing is held that was not written, and the compaction
      under way is sound. */
  ghost predicate TreeIs(runs: seq<LevelRun>, maxLevel: int, pending: Option<Pending>, written: multiset<KeyValue>) {
    && LevelsOk(runs, maxLevel) && RunsSound(runs) && NoTies(written) && (forall e :: e in Recs(runs) ==> e in written)
    && (pending.Some? ==> PendingOk(runs, maxLevel, pending.value))
  }

  ghost predicate Glimpse(runs: seq<LevelRun>, i: int) { true }

  /** `TreeIs`, kept out of the way of proofs that do not call `OpenTree`. */
  ghost predicate TreeOk(runs: seq<LevelRun>, maxLevel: int, pending: Option<Pending>, written: multiset<KeyValue>) {
    && maxLevel >= 1 && (pending.Some? ==> pending.value.flushed + pending.value.unit.count <= |runs|)
    && forall i {:trigger Glimpse(runs, i)} :: Glimpse(runs, i) ==> TreeIs(runs, maxLevel, pending, written)
  }

  lemma OpenTree(runs: seq<LevelRun>, maxLevel: int, pending: Option<Pending>, written: multiset<KeyValue>)
    requires TreeOk(runs, maxLevel, pending, written)
    ensures TreeIs(runs, maxLevel, pending, written)
  {
    assert Glimpse(runs, 0);
  }

  /** What was flushed since the compaction was chosen shows nothing older than a retraction that the
      compaction drops. */
  ghost predicate DropsClear(runs: seq<LevelRun>, pending: Option<Pending>, more: multiset<KeyValue>)
    requires pending.Some? ==> pending.value.flushed <= |runs|
  {
    pending.Some? && pending.value.drop ==>
      Clear(Recs(runs[..pending.value.flushed]) + more, Retracted(Recs(runs[pending.value.flushed..])))
  }

  /** The tree accounts for what was written, and will when the compaction under way is finished. */
  ghost predicate FaithIs(runs: seq<LevelRun>, pending: Option<Pending>, gone: multiset<KeyValue>,
                          written: multiset<KeyValue>)
    requires pending.Some? ==> pending.value.flushed <= |runs|
  {
    Accounts(Recs(runs), gone, written) && DropsClear(runs, pending, multiset{})
  }

  ghost predicate Trusted(runs: seq<LevelRun>, i: int) { true }

  /** `FaithIs`, kept out of the way of proofs that do not call `OpenFaith`. */
  ghost predicate Faith(runs: seq<LevelRun>, pending: Option<Pending>, gone: multiset<KeyValue>,
                        written: multiset<KeyValue>)
    requires pending.Some? ==> pending.value.flushed <= |runs|
  {
    forall i {:trigger Trusted(runs, i)} :: Trusted(runs, i) ==> FaithIs(runs, pending, gone, written)
  }

  lemma OpenFaith(runs: seq<LevelRun>, pending: Option<Pending>, gone: multiset<KeyValue>, written: multiset<KeyValue>)
    requires (pending.Some? ==> pending.value.flushed <= |runs|) && Faith(runs, pending, gone, written)
    ensures FaithIs(runs, pending, gone, written)
  {
    assert Trusted(runs, 0);
  }

  /** Which files a writer flushes: one record a key, each with a sequence of its own. */
  ghost predicate Flushable(rows: seq<KeyValue>, written: multiset<KeyValue>) {
    rows != [] && StrictKeys(rows) && NoTies(written + multiset(rows))
  }

  lemma FlushedRecs(runs: seq<LevelRun>, written: multiset<KeyValue>, rows: seq<KeyValue>, size: nat)
    requires rows != [] && StrictKeys(rows) && forall e :: e in Recs(runs) ==> e in written
    ensures forall e :: e in Recs([LevelRun(0, [FileOf(rows)], size)] + runs) ==> e in written + multiset(rows)
  {
    FlushedRows(rows, size);
    RecsConcat([LevelRun(0, [FileOf(rows)], size)], runs);
  }

  lemma FlushedRuns(runs: seq<LevelRun>, maxLevel: int, rows: seq<KeyValue>, size: nat)
    requires rows != [] && StrictKeys(rows) && maxLevel >= 0 && LevelsOk(runs, maxLevel) && RunsSound(runs)
    ensures var all := [LevelRun(0, [FileOf(rows)], size)] + runs; LevelsOk(all, maxLevel) && RunsSound(all)
  {
    var run := LevelRun(0, [FileOf(rows)], size);
    FileOfOk(rows);
    FlushedRows(rows, size);
    OneSound(run);
    JoinedSound([run], runs);
    ZerosThenLevels([run], runs, maxLevel);
  }

  lemma FlushedTree(runs: seq<LevelRun>, maxLevel: int, pending: Option<Pending>, written: multiset<KeyValue>,
                    rows: seq<KeyValue>, size: nat)
    requires TreeOk(runs, maxLevel, pending, written) && Flushable(rows, written)
    ensures var run := LevelRun(0, [FileOf(rows)], size);
      TreeOk([run] + runs, maxLevel, Later(pending), written + multiset(rows))
  {
    var run := LevelRun(0, [FileOf(rows)], size);
    OpenTree(runs, maxLevel, pending, written);
    FlushedRecs(runs, written, rows, size);
    FlushedRuns(runs, maxLevel, rows, size);
    if pending.Some? { FlushedPending(runs, maxLevel, pending.value, run); }
  }

  /** After a flush the tree still shows what was written, exactly if what it shows of the new records is
      newer than the retractions dropped so far. */
  lemma FlushedFaith(runs: seq<LevelRun>, pending: Option<Pending>, gone: multiset<KeyValue>,
                     written: multiset<KeyValue>,
                     rows: seq<KeyValue>, size: nat)
    requires (pending.Some? ==> pending.value.flushed <= |runs|) && Flushable(rows, written)
    requires Faith(runs, pending, gone, written)
    ensures var all, w := [LevelRun(0, [FileOf(rows)], size)] + runs, written + multiset(rows);
      && (SameView(Recs(all), w) <==> Clear(Recs(runs) + multiset(rows), gone))
      && (Clear(Recs(runs) + multiset(rows), gone) && DropsClear(runs, pending, multiset(rows)) ==>
            Faith(all, Later(pending), gone, w))
  {
    var run, c := LevelRun(0, [FileOf(rows)], size), multiset(rows);
    OpenFaith(runs, pending, gone, written);
    FlushedRows(rows, size);
    RecsConcat([run], runs);
    assert Recs([run] + runs) == Recs(runs) + c;
    AddedIff(Recs(runs), gone, written, c);
    if Clear(Recs(runs) + c, gone) { AddedAccounts(Recs(runs), gone, written, c); }
    if pending.Some? { LaterRecs(runs, run, pending.value.flushed, c); }
  }

  lemma LaterRecs(runs: seq<LevelRun>, run: LevelRun, f: nat, c: multiset<KeyValue>)
    requires f <= |runs| && Recs([run]) == c
    ensures var all := [run] + runs; Recs(all[..f+1]) + multiset{} == Recs(runs[..f]) + c && all[f+1..] == runs[f..]
  {
    var all := [run] + runs;
    assert all[..f+1] == [run] + runs[..f];
    RecsConcat([run], runs[..f]);
  }

  /** One more file was flushed since the compaction was chosen. */
  function Later(pending: Option<Pending>): Option<Pending> {
    if pending.Some? then Some(pending.value.(flushed := pending.value.flushed + 1)) else None
  }

  lemma FinishedTree(runs: seq<LevelRun>, maxLevel: int, p: Pending, written: multiset<KeyValue>, out: seq<File>,
                     size: nat)
    requires TreeOk(runs, maxLevel, Some(p), written)
    requires ValidRun(out) && FilesOk(out) && Compacts(RowsOf(out), Compacted(runs, p), p.drop)
    ensures TreeOk(Installed(runs, p, out, size), maxLevel, None, written)
  {
    var next := Installed(runs, p, out, size);
    OpenTree(runs, maxLevel, Some(p), written);
    InstalledLevels(runs, maxLevel, p, out, size);
    InstalledRecs(runs, p, out, size, next);
    InstalledSound(runs, p, out, size);
    TwoParts(runs, p);
    CompactedWithin(RowsOf(out), Compacted(runs, p), p.drop, Others(runs, p));
  }

  /** A finished compaction leaves the tree faithful. */
  lemma FinishedFaith(runs: seq<LevelRun>, maxLevel: int, p: Pending, gone: multiset<KeyValue>,
                      written: multiset<KeyValue>,
                      out: seq<File>, size: nat)
    requires TreeOk(runs, maxLevel, Some(p), written) && Faith(runs, Some(p), gone, written)
    requires Compacts(RowsOf(out), Compacted(runs, p), p.drop)
    ensures Faith(Installed(runs, p, out, size), None, gone + Dropped(Compacted(runs, p), p.drop), written)
  {
    var next := Installed(runs, p, out, size);
    OpenFaith(runs, Some(p), gone, written);
    InstalledRecs(runs, p, out, size, next);
    TwoParts(runs, p);
    OthersClear(runs, maxLevel, p, written);
    CompactedIff(RowsOf(out), Compacted(runs, p), p.drop, Others(runs, p), gone, written);
  }

  lemma Finished(runs: seq<LevelRun>, maxLevel: int, p: Pending, gone: multiset<KeyValue>, written: multiset<KeyValue>,
                 out: seq<File>, size: nat)
    requires TreeOk(runs, maxLevel, Some(p), written)
    requires ValidRun(out) && FilesOk(out) && Compacts(RowsOf(out), Compacted(runs, p), p.drop)
    ensures var next := Installed(runs, p, out, size);
      && TreeOk(next, maxLevel, None, written)
      && (Faith(runs, Some(p), gone, written) ==>
            Faith(next, None, gone + Dropped(Compacted(runs, p), p.drop), written))
  {
    FinishedTree(runs, maxLevel, p, written, out, size);
    if Faith(runs, Some(p), gone, written) { FinishedFaith(runs, maxLevel, p, gone, written, out, size); }
  }

  lemma OthersClear(runs: seq<LevelRun>, maxLevel: int, p: Pending, written: multiset<KeyValue>)
    requires TreeOk(runs, maxLevel, Some(p), written) && DropsClear(runs, Some(p), multiset{})
    ensures Clear(Others(runs, p), Dropped(Compacted(runs, p), p.drop))
  {
    if p.drop {
      OpenTree(runs, maxLevel, Some(p), written);
      AllCompacted(runs, p);
      assert Recs(runs[..p.flushed]) + multiset{} == Recs(runs[..p.flushed]);
    }
  }

  lemma EmptyTree(maxLevel: int)
    requires maxLevel >= 1
    ensures TreeOk([], maxLevel, None, multiset{}) && Faith([], None, multiset{}, multiset{})
  {
    NoRecs();
    assert FilesOf([]) == [];
  }

  lemma TreeLevels(runs: seq<LevelRun>, maxLevel: int, pending: Option<Pending>, written: multiset<KeyValue>)
    requires TreeOk(runs, maxLevel, pending, written)
    ensures LevelsOk(runs, maxLevel)
  {
    OpenTree(runs, maxLevel, pending, written);
  }

  /** A sound choice may be carried out. Retractions go exactly if every run takes part, unless they are kept. */
  lemma ChosenTree(runs: seq<LevelRun>, maxLevel: int, written: multiset<KeyValue>, unit: Unit, drop: bool, keep: bool)
    requires TreeOk(runs, maxLevel, None, written) && UnitOk(runs, maxLevel, unit)
    requires drop == (!keep && unit.output != 0 && unit.output >= HighestLevel(runs))
    ensures drop == (!keep && unit.count == |runs|)
    ensures TreeOk(runs, maxLevel, Some(Pending(unit, drop, 0)), written)
  {
    OpenTree(runs, maxLevel, None, written);
    NoOlderData(runs, maxLevel, unit);
    assert runs[0..] == runs && runs[..0] == [];
  }

  lemma ChosenFaith(runs: seq<LevelRun>, gone: multiset<KeyValue>, written: multiset<KeyValue>, p: Pending)
    requires Faith(runs, None, gone, written) && p.flushed == 0
    ensures Faith(runs, Some(p), gone, written)
  {
    OpenFaith(runs, None, gone, written);
    assert runs[..0] == [];
    NoRecs();
  }

  /** How `TriggerCompaction` decides: the size limits, and whether everything is to be compacted. */
  datatype Policy = Policy(trigger: nat, maxAmp: int, ratio: int, early: bool, full: bool, keepDeletes: bool)

  /** A single file that is already where it belongs is left alone. */
  predicate Worthwhile(runs: seq<LevelRun>, u: Unit) {
    1 <= u.count <= |runs| && (|FilesOf(runs[..u.count])| > 1 || runs[0].level != u.output)
  }

  /** The first `m` runs are compacted, where run `first` and those behind it join one after the other. */
  ghost predicate TakenUpTo(runs: seq<LevelRun>, maxLevel: int, ratio: int, first: nat, m: nat, u: Unit) {
    1 <= m <= |runs| && JoinUpTo(runs, ratio, first, m) && u == UnitFor(runs, maxLevel, m)
  }

  ghost predicate TakenByRatio(runs: seq<LevelRun>, maxLevel: int, ratio: int, first: nat, u: Unit) {
    exists m :: TakenUpTo(runs, maxLevel, ratio, first, m, u)
  }

  /** What the sizes of the runs ask for, once there are as many as the trigger says. When the newer runs together
      are too large beside the oldest one, everything is compacted. Else runs are taken from the first on, if the
      second may join it, or else from as many as are needed to come back to the trigger. */
  ghost predicate SizesAsk(runs: seq<LevelRun>, maxLevel: int, policy: Policy, u: Option<Unit>)
    requires |runs| >= policy.trigger >= 1
  {
    var n := |runs|;
    if TotalSize(runs[..n-1]) * 100 > policy.maxAmp * runs[n-1].size then
      u == if n > 1 || |runs[0].files| > 1 || runs[0].level != maxLevel then Some(Unit(n, maxLevel)) else None
    else if n > 1 && runs[0].size * (100 + policy.ratio) >= 100 * runs[1].size then
      u.Some? && TakenByRatio(runs, maxLevel, policy.ratio, 1, u.value)
    else if n == policy.trigger then u.None?
    else u.Some? && TakenByRatio(runs, maxLevel, policy.ratio, n - policy.trigger + 1, u.value)
  }

  ghost predicate Weighed(runs: seq<LevelRun>, i: int) { true }

  /** `SizesAsk`, kept out of the way of proofs that do not call `OpenSizes`. */
  ghost predicate BySizes(runs: seq<LevelRun>, maxLevel: int, policy: Policy, u: Option<Unit>)
    requires |runs| >= policy.trigger >= 1
  {
    forall i {:trigger Weighed(runs, i)} :: Weighed(runs, i) ==> SizesAsk(runs, maxLevel, policy, u)
  }

  lemma OpenSizes(runs: seq<LevelRun>, maxLevel: int, policy: Policy, u: Option<Unit>)
    requires |runs| >= policy.trigger >= 1 && BySizes(runs, maxLevel, policy, u)
    ensures SizesAsk(runs, maxLevel, policy, u)
  {
    assert Weighed(runs, 0);
  }

  lemma RatioTakes(runs: seq<LevelRun>, maxLevel: int, ratio: int, first: nat)
    requires 1 <= first <= |runs|
    ensures TakenByRatio(runs, maxLevel, ratio, first, UnitFor(runs, maxLevel, RatioCount(runs, first, ratio)))
  {
    RatioStops(runs, first, ratio);
    var m := RatioCount(runs, first, ratio);
    assert TakenUpTo(runs, maxLevel, ratio, first, m, UnitFor(runs, maxLevel, m));
  }

  lemma OneBySizes(runs: seq<LevelRun>, maxLevel: int, policy: Policy, u: Option<Unit>)
    requires |runs| == 1 == policy.trigger && u == Chosen(runs, maxLevel, 1, policy.maxAmp, policy.ratio, policy.early)
    ensures SizesAsk(runs, maxLevel, policy, if u.Some? && Worthwhile(runs, u.value) then u else None)
  {
    assert runs == [runs[0]] == runs[..1];
    RecsOne(runs[0]);
  }

  lemma ManyBySizes(runs: seq<LevelRun>, maxLevel: int, policy: Policy, u: Option<Unit>)
    requires |runs| > 1 && |runs| >= policy.trigger >= 1 && !policy.early
    requires u == Chosen(runs, maxLevel, policy.trigger, policy.maxAmp, policy.ratio, false)
    ensures SizesAsk(runs, maxLevel, policy, u)
  {
    SecondJoins(runs, policy.ratio);
    if RatioCount(runs, 1, policy.ratio) > 1 {
      RatioTakes(runs, maxLevel, policy.ratio, 1);
    } else {
      RatioTakes(runs, maxLevel, policy.ratio, |runs| - policy.trigger + 1);
    }
  }

  /** What the strategy chooses, unless it is not worth the work, is what the sizes ask for. */
  lemma ChosenBySizes(runs: seq<LevelRun>, maxLevel: int, policy: Policy, u: Option<Unit>)
    requires LevelsOk(runs, maxLevel) && |runs| >= policy.trigger >= 1 && !(policy.early && |runs| > 1)
    requires u == Chosen(runs, maxLevel, policy.trigger, policy.maxAmp, policy.ratio, policy.early)
    requires |runs| > 1 && u.Some? ==> |runs| >= u.value.count > 1
    ensures SizesAsk(runs, maxLevel, policy, if u.Some? && Worthwhile(runs, u.value) then u else None)
    ensures |runs| > 1 && u.Some? ==> Worthwhile(runs, u.value)
  {
    if |runs| == 1 {
      OneBySizes(runs, maxLevel, policy, u);
    } else {
      ManyBySizes(runs, maxLevel, policy, u);
      if u.Some? { ManyFiles(runs, maxLevel, u.value.count); }
    }
  }

  /** What is compacted next: everything, unless it is one run on the highest level already, or what the
      strategy chooses and is worth the work. */
  method Select(runs: seq<LevelRun>, maxLevel: int, policy: Policy) returns (u: Option<Unit>)
    requires LevelsOk(runs, maxLevel) && maxLevel >= 1 && policy.trigger >= 1
    ensures u.Some? ==> UnitOk(runs, maxLevel, u.value)
    ensures !policy.full && |runs| > policy.trigger ==> u.Some?
    ensures policy.full ==>
      && (u.Some? <==> runs != [] && !(|runs| == 1 && runs[0].level == maxLevel))
      && (u.Some? ==> u.value == Unit(|runs|, maxLevel))
    ensures !policy.full && policy.early && |runs| > 1 ==> u == Some(Unit(|runs|, maxLevel))
    ensures !policy.full && |runs| < policy.trigger && !(policy.early && |runs| > 1) ==> u.None?
    ensures !policy.full && |runs| >= policy.trigger && !(policy.early && |runs| > 1) ==>
      SizesAsk(runs, maxLevel, policy, u)
  {
    if policy.full {
      if runs == [] || (|runs| == 1 && runs[0].level == maxLevel) {
        return None;
      }
      FullUnit(runs, maxLevel);
      return Some(Unit(|runs|, maxLevel));
    }
    u := Pick(runs, maxLevel, policy.trigger, policy.maxAmp, policy.ratio, policy.early);
    if |runs| >= policy.trigger && !(policy.early && |runs| > 1) { ChosenBySizes(runs, maxLevel, policy, u); }
    if u.Some? && !Worthwhile(runs, u.value) {
      u := None;
    }
  }

  function UnitOf(p: Option<Pending>): Option<Unit> {
    if p.None? then None else Some(p.value.unit)
  }

  /** The compaction to start now, if any. */
  method Decide(runs: seq<LevelRun>, maxLevel: int, policy: Policy, ghost written: multiset<KeyValue>)
    returns (next: Option<Pending>)
    requires TreeOk(runs, maxLevel, None, written) && policy.trigger >= 1
    ensures TreeOk(runs, maxLevel, next, written)
    ensures !policy.full && |runs| > policy.trigger ==> next.Some?
    ensures policy.full ==>
      && (next.Some? <==> runs != [] && !(|runs| == 1 && runs[0].level == maxLevel))
      && (next.Some? ==> next.value.unit == Unit(|runs|, maxLevel))
    ensures !policy.full && policy.early && |runs| > 1 ==> next.Some? && next.value.unit == Unit(|runs|, maxLevel)
    ensures !policy.full && |runs| < policy.trigger && !(policy.early && |runs| > 1) ==> next.None?
    ensures !policy.full && |runs| >= policy.trigger && !(policy.early && |runs| > 1) ==>
      BySizes(runs, maxLevel, policy, UnitOf(next))
    ensures next.Some? ==>
      next.value.flushed == 0 && next.value.drop == (!policy.keepDeletes && next.value.unit.count == |runs|)
  {
    TreeLevels(runs, maxLevel, None, written);
    var picked := Select(runs, maxLevel, policy);
    if picked.None? {
      return None;
    }
    var unit := picked.value;
    var drop := !policy.keepDeletes && unit.output != 0 && unit.output >= HighestLevel(runs);
    ChosenTree(runs, maxLevel, written, unit, drop, policy.keepDeletes);
    return Some(Pending(unit, drop, 0));
  }

  class MergeTree {
    const maxLevel: int
    var runs: seq<LevelRun>
    var pending: Option<Pending>
    ghost var written: multiset<KeyValue>
    // The retractions that compactions dropped.
    ghost var gone: multiset<KeyValue>

    ghost predicate Valid() reads this {
      TreeOk(runs, maxLevel, pending, written)
    }

    /** The tree shows what was written, and will when the compaction under way is finished. */
    ghost predicate Faithful()
      requires Valid()
      reads this
    {
      Faith(runs, pending, gone, written)
    }

    constructor (levels: int)
      requires levels >= 2
      ensures Valid() && Faithful() && maxLevel == levels - 1 && runs == []
      ensures written == multiset{} && gone == multiset{} && pending == None
    {
      maxLevel := levels - 1;
      runs, pending, written, gone := [], None, multiset{}, multiset{};
      EmptyTree(levels - 1);
    }

    /** Nothing that the tree would show of these records is older than a retraction that was dropped, or that
        the compaction under way drops. */
    ghost predicate InTime(rows: seq<KeyValue>)
      requires Valid()
      reads this
    {
      Clear(Recs(runs) + multiset(rows), gone) && DropsClear(runs, pending, multiset(rows))
    }

    /** Records that are newer than everything written of their keys always come in time. */
    lemma NewerInTime(rows: seq<KeyValue>)
      requires Valid() && Faithful() && rows != [] && StrictKeys(rows) && Newer(multiset(rows), written)
      ensures Flushable(rows, written) && InTime(rows)
    {
      var c := multiset(rows);
      OpenTree(runs, maxLevel, pending, written);
      OpenFaith(runs, pending, gone, written);
      StrictNoTies(rows);
      NoTiesJoin(written, c);
      NewerIsClear(c, Recs(runs), gone, written);
      if pending.Some? && pending.value.drop {
        var f := pending.value.flushed;
        TailRecs(runs, f, written);
        assert Recs(runs[..f]) + multiset{} == Recs(runs[..f]);
        NewerIsClear(c, Recs(runs[..f]), Retracted(Recs(runs[f..])), written);
      }
    }

    /** Adds a flushed file of level 0. Whatever its records, the tree then shows what was written exactly if
        they are newer than the retractions dropped so far. */
    method Flush(rows: seq<KeyValue>, size: nat)
      requires Valid() && Flushable(rows, written)
      modifies this
      ensures Valid() && written == old(written) + multiset(rows) && gone == old(gone)
      ensures runs == [LevelRun(0, [FileOf(rows)], size)] + old(runs) && pending == Later(old(pending))
      ensures old(Faithful()) ==> (SameView(Recs(runs), written) <==> old(Clear(Recs(runs) + multiset(rows), gone)))
      ensures old(Faithful() && InTime(rows)) ==> Faithful()
    {
      var run := LevelRun(0, [FileOf(rows)], size);
      FlushedTree(runs, maxLevel, pending, written, rows, size);
      if Faith(runs, pending, gone, written) { FlushedFaith(runs, pending, gone, written, rows, size); }
      pending := Later(pending);
      runs, written := [run] + runs, written + multiset(rows);
    }

    /** Chooses a compaction, unless one is under way: a full compaction takes every run, and too many runs
        always lead to a compaction. A full compaction beside a running one is refused. */
    method TriggerCompaction(policy: Policy) returns (ok: bool)
      requires Valid() && policy.trigger >= 1
      modifies this`pending
      ensures Valid() && (old(Faithful()) ==> Faithful())
      ensures ok <==> !(policy.full && old(pending.Some?))
      ensures old(pending.Some?) ==> pending == old(pending)
      // Retractions are dropped exactly when every run takes part, unless they are to be kept.
      ensures old(pending.None?) && pending.Some? ==>
        var p := pending.value; p.flushed == 0 && p.drop == (!policy.keepDeletes && p.unit.count == |runs|)
      // A full compaction takes every run into the highest level, unless there is nothing to do.
      ensures old(pending.None?) && policy.full ==>
        && (pending.Some? <==> runs != [] && !(|runs| == 1 && runs[0].level == maxLevel))
        && (pending.Some? ==> pending.value.unit == Unit(|runs|, maxLevel))
      ensures !policy.full && |runs| > policy.trigger ==> pending.Some?
      // Below the trigger nothing happens, unless a full compaction is due early.
      ensures old(pending.None?) && !policy.full && |runs| < policy.trigger && !(policy.early && |runs| > 1) ==>
        pending.None?
      ensures old(pending.None?) && !policy.full && policy.early && |runs| > 1 ==>
        pending.Some? && pending.value.unit == Unit(|runs|, maxLevel)
      // Else the sizes of the runs decide.
      ensures old(pending.None?) && !policy.full && |runs| >= policy.trigger && !(policy.early && |runs| > 1) ==>
        BySizes(runs, maxLevel, policy, UnitOf(pending))
    {
      ok := !(policy.full && pending.Some?);
      if pending.Some? {
        return;
      }
      var next := Decide(runs, maxLevel, policy, written);
      if next.Some? && Faith(runs, None, gone, written) { ChosenFaith(runs, gone, written, next.value); }
      pending := next;
    }

    /** Runs the compaction on the chosen runs and puts the result in their place. Files flushed in the
        meantime stay where they are. */
    method FinishCompaction(task: Task, size: nat) returns (out: seq<File>)
      requires Valid() && pending.Some? && task.target > 0
      requires task.drop == pending.value.drop && task.toMax == (pending.value.unit.output == maxLevel)
      modifies this
      ensures Valid() && (old(Faithful()) ==> Faithful()) && written == old(written) && pending == None
      ensures gone == old(gone + Dropped(Compacted(runs, pending.value), task.drop))
      ensures ValidRun(out) && Compacts(RowsOf(out), old(Compacted(runs, pending.value)), task.drop)
      ensures runs == old(Installed(runs, pending.value, out, size))
    {
      var p := pending.value;
      ghost var all;
      var next;
      out, next, all := RunTask(runs, maxLevel, p, task, size, written, gone);
      runs, pending, gone := next, None, all;
    }

    /** Reads the tree: the latest record of every key in it, by key, without the retracted keys. In a faithful
        tree these are the latest records of everything ever written. */
    method Read() returns (out: seq<KeyValue>)
      requires Valid()
      ensures StrictKeys(out) && forall r :: r in out <==> Visible(r, Recs(runs))
      ensures Faithful() ==> forall r :: r in out <==> Visible(r, written)
      ensures forall r :: r in out ==> r in Recs(runs) && !r.retract
      ensures forall r, e :: r in out && e in Recs(runs) && e.key == r.key ==>
        e.userSeq < r.userSeq || (e.userSeq == r.userSeq && e.seqNo <= r.seqNo)
      ensures Faithful() ==> forall r, e :: r in out && e in written && e.key == r.key ==>
        e.userSeq < r.userSeq || (e.userSeq == r.userSeq && e.seqNo <= r.seqNo)
    {
      TreeReads(runs, maxLevel, pending, written);
      var rows := ReadFiles(FilesOf(runs));
      out := DropDeletes(rows);
      ReadShows(rows, Recs(runs));
      if Faith(runs, pending, gone, written) {
        OpenFaith(runs, pending, gone, written);
        AccountsView(Recs(runs), gone, written);
      }
    }
  }

  /** What a reader sees after new rows are written: of their keys the rows themselves, except retractions,
      and of all other keys what was seen before. */
  lemma NewestShown(written: multiset<KeyValue>, rows: seq<KeyValue>, r: KeyValue)
    requires StrictKeys(rows)
    requires forall x, y :: x in rows && y in written && x.key == y.key ==> x.userSeq == y.userSeq && x.seqNo > y.seqNo
    ensures Visible(r, written + multiset(rows)) <==>
      if Mentions(rows, r.key) then r in rows && !r.retract else Visible(r, written)
  {
    var all := written + multiset(rows);
    if i :| 0 <= i < |rows| && rows[i].key == r.key {
      assert rows[i] in rows && rows[i] in all;
      if r in rows {
        SameKey(rows, r, rows[i]);
        forall e | e in all && e.key == r.key ensures SeqLe(e, r) {
          if e in rows { SameKey(rows, e, r); }
        }
      }
    } else {
      assert forall e :: e in rows ==> Mentions(rows, e.key);
      assert forall e :: e in all <==> e in written || e in rows;
    }
  }

  lemma ReadBack(out: seq<KeyValue>, written: multiset<KeyValue>, rows: seq<KeyValue>)
    requires StrictKeys(rows) && forall r :: r in out <==> Visible(r, written + multiset(rows))
    requires forall x, y :: x in rows && y in written && x.key == y.key ==> x.userSeq == y.userSeq && x.seqNo > y.seqNo
    ensures forall r: KeyValue :: Mentions(rows, r.key) ==> (r in out <==> r in rows && !r.retract)
    ensures forall r: KeyValue :: !Mentions(rows, r.key) ==> (r in out <==> Visible(r, written))
  {
    forall r: KeyValue { NewestShown(written, rows, r); }
  }

  /** A faithful tree stays faithful when rows with larger sequence numbers are written. */
  method WriteNewer(tree: MergeTree, rows: seq<KeyValue>, size: nat)
    requires tree.Valid() && tree.Faithful() && rows != [] && StrictKeys(rows) && Newer(multiset(rows), tree.written)
    modifies tree
    ensures tree.Valid() && tree.Faithful() && tree.written == old(tree.written) + multiset(rows)
  {
    tree.NewerInTime(rows);
    tree.Flush(rows, size);
  }

  /** A writer that numbers its rows upwards reads them back: of their keys a read shows the new rows,
      except retractions, and of every other key what it showed before. */
  method WriteThenRead(tree: MergeTree, rows: seq<KeyValue>, size: nat) returns (out: seq<KeyValue>)
    requires tree.Valid() && tree.Faithful() && rows != [] && StrictKeys(rows)
    requires forall x, y :: x in rows && y in tree.written && x.key == y.key ==>
      x.userSeq == y.userSeq && x.seqNo > y.seqNo
    modifies tree
    ensures tree.Valid() && tree.Faithful() && StrictKeys(out)
    ensures forall r: KeyValue :: Mentions(rows, r.key) ==> (r in out <==> r in rows && !r.retract)
    ensures forall r: KeyValue :: !Mentions(rows, r.key) ==> (r in out <==> old(Visible(r, tree.written)))
  {
    ghost var before := tree.written;
    WriteNewer(tree, rows, size);
    out := tree.Read();
    ReadBack(out, before, rows);
  }

  lemma ManyFiles(runs: seq<LevelRun>, maxLevel: int, count: nat)
    requires LevelsOk(runs, maxLevel) && count <= |runs|
    ensures count > 1 ==> |FilesOf(runs[..count])| > 1
  {
    if count > 1 {
      FilesConcat(runs[..1], runs[1..count]);
      FilesConcat(runs[1..2], runs[2..count]);
      RecsOne(runs[0]);
      RecsOne(runs[1]);
      assert runs[..count] == runs[..1] + runs[1..count] && runs[1..count] == runs[1..2] + runs[2..count];
      assert runs[..1] == [runs[0]] && runs[1..2] == [runs[1]];
    }
  }

  lemma TreeReads(runs: seq<LevelRun>, maxLevel: int, pending: Option<Pending>, written: multiset<KeyValue>)
    requires TreeOk(runs, maxLevel, pending, written)
    ensures FilesOk(FilesOf(runs)) && NoTies(Recs(runs))
  {
    OpenTree(runs, maxLevel, pending, written);
    SubNoTies(Recs(runs), written);
  }

  lemma ChosenSound(runs: seq<LevelRun>, maxLevel: int, p: Pending, written: multiset<KeyValue>)
    requires TreeOk(runs, maxLevel, Some(p), written)
    ensures FilesOk(FilesOf(runs[p.flushed..p.flushed + p.unit.count])) && (p.drop ==> p.unit.output == maxLevel)
  {
    OpenTree(runs, maxLevel, Some(p), written);
    SubRunsSound(runs, p.flushed, p.flushed + p.unit.count);
  }

  /** Runs the task on the chosen runs. `all` holds the retractions dropped so far. */
  method RunTask(runs: seq<LevelRun>, maxLevel: int, p: Pending, task: Task, size: nat,
                 ghost written: multiset<KeyValue>, ghost gone: multiset<KeyValue>)
    returns (out: seq<File>, next: seq<LevelRun>, ghost all: multiset<KeyValue>)
    requires TreeOk(runs, maxLevel, Some(p), written) && task.target > 0
    requires task.drop == p.drop && task.toMax == (p.unit.output == maxLevel)
    ensures ValidRun(out) && FilesOk(out) && Compacts(RowsOf(out), Compacted(runs, p), p.drop)
    ensures next == Installed(runs, p, out, size) && TreeOk(next, maxLevel, None, written)
    ensures all == gone + Dropped(Compacted(runs, p), p.drop)
    ensures Faith(runs, Some(p), gone, written) ==> Faith(next, None, all, written)
  {
    var files := FilesOf(runs[p.flushed..p.flushed + p.unit.count]);
    ChosenSound(runs, maxLevel, p, written);
    out := DoCompact(files, task);
    TaskDone(runs, p, out);
    next, all := Installed(runs, p, out, size), gone + Dropped(Compacted(runs, p), p.drop);
    Finished(runs, maxLevel, p, gone, written, out, size);
  }

  lemma TaskDone(runs: seq<LevelRun>, p: Pending, out: seq<File>)
    requires p.flushed + p.unit.count <= |runs|
    requires Rewritten(out, FilesOf(runs[p.flushed..p.flushed + p.unit.count]), p.drop)
    ensures ValidRun(out) && FilesOk(out) && Compacts(RowsOf(out), Compacted(runs, p), p.drop)
  {
    var files := FilesOf(runs[p.flushed..p.flushed + p.unit.count]);
    SeeRun(out, files, p.drop);
    SeeRecords(out, files, p.drop, Compacted(runs, p));
  }

  lemma FlushedRows(rows: seq<KeyValue>, size: nat)
    requires rows != [] && StrictKeys(rows)
    ensures Recs([LevelRun(0, [FileOf(rows)], size)]) == multiset(rows)
    ensures FilesOk([FileOf(rows)])
  {
    var run := LevelRun(0, [FileOf(rows)], size);
    RecsOne(run);
    RowsFirst(run.files);
    assert run.files[1..] == [] && RowsOf([]) == [];
    FileOfOk(rows);
  }

  lemma ReadShows(rows: seq<KeyValue>, recs: multiset<KeyValue>)
    requires LatestPerKey(rows, recs) && NoTies(recs)
    ensures StrictKeys(Adds(rows)) && forall r :: r in Adds(rows) <==> Visible(r, recs)
  {
    AddsAre(rows);
    forall r ensures r in Adds(rows) <==> Visible(r, recs) {
      if r in rows { LatestIs(rows, recs, r); }
      if IsLatest(r, recs) { LatestHas(rows, recs, r); }
    }
  }

  lemma HasFirst(s: seq<KeyValue>)
    ensures s == [] || s[0] in s
  {
  }

  lemma OneGone(out: seq<KeyValue>, deletion: KeyValue)
    requires deletion.retract && Compacts(out, multiset{deletion}, true)
    ensures multiset(out) == multiset{}
  {
    var full :| LatestPerKey(full, multiset{deletion}) && Pruned(out, full, true);
    HasFirst(out);
    assert forall e :: e in full ==> e == deletion;
  }

  /** A deletion is flushed, and a full compaction drops it. */
  method DropDeletion(deletion: KeyValue, task: Task) returns (tree: MergeTree)
    requires deletion.retract && task.drop && task.toMax && task.target > 0
    ensures fresh(tree) && tree.Valid() && Recs(tree.runs) == multiset{} && tree.written == multiset{deletion}
  {
    tree := new MergeTree(2);
    tree.Flush([deletion], 1);
    FlushedRows([deletion], 1);
    var ok := tree.TriggerCompaction(Policy(1, 0, 0, false, true, false));
    ghost var before, p := tree.runs, tree.pending.value;
    assert before[0..1] == before && before[..0] == [] == before[1..];
    var files := tree.FinishCompaction(task, 1);
    OneGone(RowsOf(files), deletion);
    InstalledRecs(before, p, files, 1, tree.runs);
    NoRecs();
  }

  /** A run that ends with a wrong read: a deletion is flushed and dropped by a full compaction, and then an
      older record of its key is flushed, as a user-defined sequence allows. The record is shown, although the
      deletion that was written hides it. */
  method LateRecordReappears(key: int, task: Task) returns (out: seq<KeyValue>)
    requires task.drop && task.toMax && task.target > 0
    ensures var deletion, late := KeyValue(key, 1, 1, true, 0), KeyValue(key, 0, 2, false, 0);
      out == [late] && !Visible(late, multiset{deletion, late})
  {
    var deletion, late := KeyValue(key, 1, 1, true, 0), KeyValue(key, 0, 2, false, 0);
    var tree := DropDeletion(deletion, task);
    ghost var before := tree.runs;
    tree.Flush([late], 1);
    FlushedRows([late], 1);
    RecsConcat([LevelRun(0, [FileOf([late])], 1)], before);
    assert Recs(tree.runs) == multiset{late};
    out := tree.Read();
    OnlyOne(out, late);
    Hidden(deletion, late);
  }

  lemma OnlyOne(out: seq<KeyValue>, r: KeyValue)
    requires StrictKeys(out) && !r.retract && forall e :: e in out <==> Visible(e, multiset{r})
    ensures out == [r]
  {
    assert Visible(r, multiset{r});
    SortedSame(out, [r]);
  }

  lemma Hidden(deletion: KeyValue, late: KeyValue)
    requires deletion.key == late.key && SeqLt(late, deletion)
    ensures !Visible(late, multiset{deletion, late})
  {
    assert deletion in multiset{deletion, late};
  }
}
