/** `IntervalPartition` of src/paimon/core/mergetree/compact: cuts data files into sections whose key
    ranges do not touch, and every section into the least number of sorted runs. */
module IntervalPartitions {
  import opened Records

  /** A data file: the least and the largest key of its meta data, and its records. */
  datatype File = File(min: int, max: int, rows: seq<KeyValue>)

  /** The order of the stable sort in the constructor. */
  predicate FileLe(a: File, b: File) {
    a.min < b.min || (a.min == b.min && a.max <= b.max)
  }

  predicate Ordered(s: seq<File>) {
    forall i, j :: 0 <= i < j < |s| ==> FileLe(s[i], s[j])
  }

  ghost predicate Intervals(s: seq<File>) {
    forall f :: f in s ==> f.min <= f.max
  }

  function InsertFile(f: File, s: seq<File>): (r: seq<File>) {
    if s == [] || FileLe(f, s[0]) then [f] + s else [s[0]] + InsertFile(f, s[1..])
  }

  function SortFiles(s: seq<File>): (r: seq<File>) {
    if s == [] then [] else InsertFile(s[0], SortFiles(s[1..]))
  }

  lemma {:induction false} InsertKeeps(f: File, s: seq<File>)
    ensures multiset(InsertFile(f, s)) == multiset(s) + multiset{f}
  {
    if s != [] && !FileLe(f, s[0]) {
      assert s == [s[0]] + s[1..];
      InsertKeeps(f, s[1..]);
    }
  }

  lemma PrependOrdered(f: File, s: seq<File>)
    requires Ordered(s) && forall e :: e in s ==> FileLe(f, e)
    ensures Ordered([f] + s)
  {
  }

  lemma {:induction false} InsertOrdered(f: File, s: seq<File>)
    requires Ordered(s)
    ensures Ordered(InsertFile(f, s))
  {
    if s == [] || FileLe(f, s[0]) {
      forall e | e in s ensures FileLe(f, e) {
        var i :| 0 <= i < |s| && s[i] == e;
        if i > 0 { assert FileLe(s[0], s[i]); }
      }
      PrependOrdered(f, s);
    } else {
      var t := InsertFile(f, s[1..]);
      InsertOrdered(f, s[1..]);
      InsertKeeps(f, s[1..]);
      forall e | e in t ensures FileLe(s[0], e) {
        assert e in multiset(s[1..]) + multiset{f};
      }
      PrependOrdered(s[0], t);
    }
  }

  lemma {:induction false} SortSorts(s: seq<File>)
    ensures Ordered(SortFiles(s)) && multiset(SortFiles(s)) == multiset(s)
  {
    if s != [] {
      assert s == [s[0]] + s[1..];
      SortSorts(s[1..]);
      InsertOrdered(s[0], SortFiles(s[1..]));
      InsertKeeps(s[0], SortFiles(s[1..]));
    }
  }

  /** The files of one key range, in list order. */
  function WithRange(s: seq<File>, lo: int, hi: int): (r: seq<File>) {
    if s == [] then []
    else (if s[0].min == lo && s[0].max == hi then [s[0]] else []) + WithRange(s[1..], lo, hi)
  }

  lemma {:induction false} InsertStable(f: File, s: seq<File>, lo: int, hi: int)
    ensures WithRange(InsertFile(f, s), lo, hi) == WithRange([f] + s, lo, hi)
  {
    if s != [] && !FileLe(f, s[0]) {
      InsertStable(f, s[1..], lo, hi);
      assert ([f] + s)[1..] == s && ([f] + s[1..])[1..] == s[1..];
      assert InsertFile(f, s)[1..] == InsertFile(f, s[1..]);
    }
  }

  /** Files of equal ranges stay in the order they came in. */
  lemma {:induction false} SortStable(s: seq<File>, lo: int, hi: int)
    ensures WithRange(SortFiles(s), lo, hi) == WithRange(s, lo, hi)
  {
    if s != [] {
      var t := SortFiles(s[1..]);
      InsertStable(s[0], t, lo, hi);
      SortStable(s[1..], lo, hi);
      assert ([s[0]] + t)[1..] == t;
    }
  }

  /** `SortedRun::IsValid`: neighbours do not overlap. */
  predicate ValidRun(run: seq<File>) {
    forall i :: 0 < i < |run| ==> run[i].min > run[i-1].max
  }

  /** In a valid run the files are apart from each other. */
  lemma {:induction false} RunApart(run: seq<File>, i: int, j: int)
    requires ValidRun(run) && Intervals(run) && 0 <= i < j < |run|
    ensures run[i].max < run[j].min
    decreases j
  {
    if i < j - 1 {
      RunApart(run, i, j - 1);
      assert run[j-1] in run;
    }
  }

  /** `rs` lays the files `fs` out in sorted runs. */
  ghost predicate RunsOf(rs: seq<seq<File>>, fs: seq<File>) {
    && (forall i :: 0 <= i < |rs| ==> rs[i] != [] && ValidRun(rs[i]))
    && multiset(Flatten(rs)) == multiset(fs)
  }

  function Last(run: seq<File>): File
    requires run != []
  {
    run[|run|-1]
  }

  /** The order in which the priority queue hands out its runs. */
  predicate TopLe(a: seq<File>, b: seq<File>) {
    a != [] && b != [] &&
    (Last(a).max < Last(b).max || (Last(a).max == Last(b).max && Last(a).min <= Last(b).min))
  }

  predicate NonEmpty(queue: seq<seq<File>>) {
    forall i :: 0 <= i < |queue| ==> queue[i] != []
  }

  predicate IsTop(queue: seq<seq<File>>, k: int)
    requires 0 <= k < |queue|
  {
    forall i :: 0 <= i < |queue| ==> TopLe(queue[k], queue[i])
  }

  lemma {:induction false} TopExists(queue: seq<seq<File>>) returns (k: int)
    requires queue != [] && NonEmpty(queue)
    ensures 0 <= k < |queue| && IsTop(queue, k)
  {
    if |queue| == 1 {
      k := 0;
    } else {
      var last := |queue| - 1;
      k := TopExists(queue[..last]);
      assert forall i :: 0 <= i < last ==> TopLe(queue[k], queue[..last][i]);
      if !TopLe(queue[k], queue[last]) { k := last; }
    }
  }

  /** `top` and `pop`. Among equal runs the queue may hand out any. */
  method PopTop(queue: seq<seq<File>>) returns (top: seq<File>, rest: seq<seq<File>>, ghost k: int)
    requires queue != [] && NonEmpty(queue)
    ensures 0 <= k < |queue| && IsTop(queue, k)
    ensures top == queue[k] && rest == Without(queue, k)
  {
    ghost var w := TopExists(queue);
    var at :| 0 <= at < |queue| && IsTop(queue, at);
    top, rest, k := queue[at], Without(queue, at), at;
  }

  /** Files that pairwise share the key `p`. */
  ghost predicate Clique(clique: seq<File>, p: int, fs: seq<File>) {
    && multiset(clique) <= multiset(fs)
    && (forall f :: f in clique ==> f.min <= p <= f.max)
  }

  function Covering(s: seq<File>, p: int): nat {
    if s == [] then 0 else (if s[0].min <= p <= s[0].max then 1 else 0) + Covering(s[1..], p)
  }

  lemma {:induction false} CoveringConcat(a: seq<File>, b: seq<File>, p: int)
    ensures Covering(a + b, p) == Covering(a, p) + Covering(b, p)
  {
    if a == [] {
      assert a + b == b;
    } else {
      assert (a + b)[1..] == a[1..] + b;
      CoveringConcat(a[1..], b, p);
    }
  }

  lemma {:induction false} NoneCovering(s: seq<File>, p: int)
    requires forall f :: f in s ==> f.min > p
    ensures Covering(s, p) == 0
  {
    if s != [] {
      NoneCovering(s[1..], p);
    }
  }

  /** A sorted run holds at most one file of a clique. */
  lemma {:induction false} RunCovering(run: seq<File>, p: int)
    requires ValidRun(run) && Intervals(run)
    ensures Covering(run, p) <= 1
  {
    if run != [] {
      var rest := run[1..];
      if run[0].min <= p <= run[0].max {
        forall f | f in rest ensures f.min > p {
          var j :| 0 <= j < |rest| && rest[j] == f;
          RunApart(run, 0, j + 1);
        }
        NoneCovering(rest, p);
      } else {
        RunCovering(rest, p);
      }
    }
  }

  lemma {:induction false} RunsCovering(rs: seq<seq<File>>, p: int)
    requires forall i :: 0 <= i < |rs| ==> ValidRun(rs[i]) && Intervals(rs[i])
    ensures Covering(Flatten(rs), p) <= |rs|
  {
    if rs != [] {
      RunCovering(rs[0], p);
      RunsCovering(rs[1..], p);
      CoveringConcat(rs[0], Flatten(rs[1..]), p);
    }
  }

  lemma FewerWithin(a: multiset<File>, b: multiset<File>, f: File)
    requires a + multiset{f} <= b + multiset{f}
    ensures a <= b
  {
    forall e ensures a[e] <= b[e] {
      assert (a + multiset{f})[e] <= (b + multiset{f})[e];
    }
  }

  lemma WithoutWithin(a: multiset<File>, b: multiset<File>, f: File)
    requires a <= b + multiset{f} && f !in a
    ensures a <= b
  {
    forall e ensures a[e] <= b[e] {
      assert a[e] <= (b + multiset{f})[e];
    }
  }

  lemma {:induction false} CliqueCovering(clique: seq<File>, p: int, s: seq<File>)
    requires Clique(clique, p, s)
    ensures |clique| <= Covering(s, p)
  {
    if s == [] {
      assert forall f :: f in clique ==> f in multiset(s);
    } else {
      assert s == [s[0]] + s[1..];
      if s[0] in clique {
        var k :| 0 <= k < |clique| && clique[k] == s[0];
        var rest := clique[..k] + clique[k+1..];
        assert clique == clique[..k] + [s[0]] + clique[k+1..];
        assert multiset(clique) == multiset(rest) + multiset{s[0]};
        assert multiset(s) == multiset(s[1..]) + multiset{s[0]};
        FewerWithin(multiset(rest), multiset(s[1..]), s[0]);
        CliqueCovering(rest, p, s[1..]);
      } else {
        WithoutWithin(multiset(clique), multiset(s[1..]), s[0]);
        CliqueCovering(clique, p, s[1..]);
      }
    }
  }

  /** No layout in sorted runs has fewer runs than a clique has files. */
  lemma FewestRuns(clique: seq<File>, p: int, fs: seq<File>, rs: seq<seq<File>>)
    requires Clique(clique, p, fs) && Intervals(fs)
    requires (forall i :: 0 <= i < |rs| ==> ValidRun(rs[i])) && multiset(fs) <= multiset(Flatten(rs))
    requires Intervals(Flatten(rs))
    ensures |clique| <= |rs|
  {
    var all: seq<File> := Flatten(rs);
    forall i | 0 <= i < |rs| ensures Intervals(rs[i]) {
      forall f: File | f in rs[i] ensures f.min <= f.max { InFlatten(rs, f); }
    }
    assert Clique(clique, p, all);
    CliqueCovering(clique, p, all);
    RunsCovering(rs, p);
  }

  function Lasts(rs: seq<seq<File>>): (r: seq<File>)
    requires forall i :: 0 <= i < |rs| ==> rs[i] != []
    ensures |r| == |rs|
  {
    if rs == [] then [] else [Last(rs[0])] + Lasts(rs[1..])
  }

  lemma {:induction false} LastsWithin(rs: seq<seq<File>>)
    requires forall i :: 0 <= i < |rs| ==> rs[i] != []
    ensures multiset(Lasts(rs)) <= multiset(Flatten(rs))
    ensures forall f :: f in Lasts(rs) ==> exists i :: 0 <= i < |rs| && f == Last(rs[i])
  {
    if rs != [] {
      LastsWithin(rs[1..]);
      var a := rs[0];
      assert a == a[..|a|-1] + [Last(a)];
      forall f | f in Lasts(rs) ensures exists i :: 0 <= i < |rs| && f == Last(rs[i]) {
        if f != Last(a) {
          assert f in Lasts(rs[1..]);
          var i :| 0 <= i < |rs[1..]| && f == Last(rs[1..][i]);
          assert f == Last(rs[i+1]);
        }
      }
    }
  }

  /** When no run can take `meta`, the last files of the runs and `meta` share the key `meta.min`. */
  lemma StuckClique(queue: seq<seq<File>>, meta: File, done: seq<File>)
    requires NonEmpty(queue) && forall i :: 0 <= i < |queue| ==> Last(queue[i]).max >= meta.min
    requires multiset(Flatten(queue)) == multiset(done)
    requires forall f :: f in done ==> FileLe(f, meta)
    requires meta.min <= meta.max
    ensures Clique(Lasts(queue) + [meta], meta.min, done + [meta])
  {
    LastsWithin(queue);
    var lasts := Lasts(queue);
    forall f | f in lasts + [meta] ensures f.min <= meta.min <= f.max {
      if f in lasts {
        assert f in multiset(done);
        assert FileLe(f, meta);
      }
    }
    assert multiset(lasts + [meta]) <= multiset(done + [meta]);
  }

  ghost predicate QueueOk(queue: seq<seq<File>>, done: seq<File>) {
    && queue != [] && RunsOf(queue, done)
  }

  /** The run that ends first takes `meta`. */
  lemma Extended(queue: seq<seq<File>>, k: int, meta: File, done: seq<File>)
    requires QueueOk(queue, done) && 0 <= k < |queue| && meta.min > Last(queue[k]).max
    ensures QueueOk(Without(queue, k) + [queue[k] + [meta]], done + [meta])
  {
    var rest, top := Without(queue, k), queue[k] + [meta];
    FlattenWithout(queue, k);
    FlattenSnoc(rest, top);
    Grown(Flatten(rest), queue[k], meta, done);
    forall i | 0 <= i < |rest + [top]| ensures (rest + [top])[i] != [] && ValidRun((rest + [top])[i]) {
      if i < |rest| { assert rest[i] == if i < k then queue[i] else queue[i+1]; }
    }
  }

  lemma Grown(rest: seq<File>, run: seq<File>, meta: File, done: seq<File>)
    requires multiset(rest) + multiset(run) == multiset(done)
    ensures multiset(rest + (run + [meta])) == multiset(done + [meta])
    ensures multiset(rest + [meta] + run) == multiset(done + [meta])
  {
    assert multiset(rest + (run + [meta])) == multiset(rest) + multiset(run) + multiset{meta};
    assert multiset(rest + [meta] + run) == multiset(rest) + multiset{meta} + multiset(run);
  }

  lemma OpenedRuns(queue: seq<seq<File>>, k: int, meta: File)
    requires 0 <= k < |queue| && forall i :: 0 <= i < |queue| ==> queue[i] != [] && ValidRun(queue[i])
    ensures var q := Without(queue, k) + [[meta]] + [queue[k]];
      forall i :: 0 <= i < |q| ==> q[i] != [] && ValidRun(q[i])
  {
    var rest := Without(queue, k);
    var q := rest + [[meta]] + [queue[k]];
    forall i | 0 <= i < |q| ensures q[i] != [] && ValidRun(q[i]) {
      if i < |rest| { assert rest[i] == if i < k then queue[i] else queue[i+1]; }
    }
  }

  /** `meta` gets a run of its own. */
  lemma Opened(queue: seq<seq<File>>, k: int, meta: File, done: seq<File>)
    requires QueueOk(queue, done) && 0 <= k < |queue|
    ensures QueueOk(Without(queue, k) + [[meta]] + [queue[k]], done + [meta])
  {
    var rest := Without(queue, k);
    FlattenWithout(queue, k);
    FlattenSnoc(rest, [meta]);
    FlattenSnoc(rest + [[meta]], queue[k]);
    Grown(Flatten(rest), queue[k], meta, done);
    OpenedRuns(queue, k, meta);
  }

  /** Places one file: on the run that ends first, or on a run of its own. */
  method Place(queue: seq<seq<File>>, meta: File, ghost done: seq<File>)
    returns (queue': seq<seq<File>>, ghost grown: bool)
    requires QueueOk(queue, done) && meta.min <= meta.max && forall f :: f in done ==> FileLe(f, meta)
    ensures QueueOk(queue', done + [meta]) && |queue'| == if grown then |queue| + 1 else |queue|
    ensures grown ==> Clique(Lasts(queue) + [meta], meta.min, done + [meta])
  {
    ghost var k;
    var top;
    top, queue', k := PopTop(queue);
    if meta.min > Last(top).max {
      grown := false;
      top := top + [meta];
      Extended(queue, k, meta, done);
    } else {
      grown := true;
      queue' := queue' + [[meta]];
      Opened(queue, k, meta, done);
      assert forall i :: 0 <= i < |queue| ==> TopLe(top, queue[i]);
      StuckClique(queue, meta, done);
    }
    queue' := queue' + [top];
  }

  /** `runs` were handed out in order before everything that is `left`. */
  ghost predicate InOrder(runs: seq<seq<File>>, left: seq<seq<File>>) {
    && NonEmpty(left)
    && (forall i, j :: 0 <= i < j < |runs| ==> TopLe(runs[i], runs[j]))
    && (forall i, j :: 0 <= i < |runs| && 0 <= j < |left| ==> TopLe(runs[i], left[j]))
  }

  ghost predicate HandedOut(queue: seq<seq<File>>, runs: seq<seq<File>>, left: seq<seq<File>>) {
    && multiset(queue) == multiset(runs) + multiset(left)
    && multiset(Flatten(queue)) == multiset(Flatten(runs)) + multiset(Flatten(left))
  }

  lemma HandOutOrder(runs: seq<seq<File>>, left: seq<seq<File>>, k: int)
    requires InOrder(runs, left) && 0 <= k < |left| && IsTop(left, k)
    ensures InOrder(runs + [left[k]], Without(left, k))
  {
    var rest := Without(left, k);
    forall j | 0 <= j < |rest| ensures rest[j] != [] && TopLe(left[k], rest[j]) {
      assert rest[j] == if j < k then left[j] else left[j+1];
    }
    forall i, j | 0 <= i < |runs| && 0 <= j < |rest| ensures TopLe(runs[i], rest[j]) {
      assert rest[j] == if j < k then left[j] else left[j+1];
    }
  }

  lemma HandOut(queue: seq<seq<File>>, runs: seq<seq<File>>, left: seq<seq<File>>, k: int)
    requires HandedOut(queue, runs, left) && 0 <= k < |left|
    ensures HandedOut(queue, runs + [left[k]], Without(left, k))
  {
    WithoutCount(left, k);
    FlattenWithout(left, k);
    FlattenSnoc(runs, left[k]);
  }

  /** Empties the queue. */
  method Drain(queue: seq<seq<File>>) returns (runs: seq<seq<File>>)
    requires NonEmpty(queue)
    ensures multiset(runs) == multiset(queue) && multiset(Flatten(runs)) == multiset(Flatten(queue))
    ensures forall i, j :: 0 <= i < j < |runs| ==> TopLe(runs[i], runs[j])
  {
    runs := [];
    var left := queue;
    while left != []
      invariant InOrder(runs, left) && HandedOut(queue, runs, left)
      decreases |left|
    {
      var top, rest;
      ghost var k;
      top, rest, k := PopTop(left);
      HandOutOrder(runs, left, k);
      HandOut(queue, runs, left, k);
      left, runs := rest, runs + [top];
    }
  }

  /** The queue holds `done` in sorted runs, and a clique shows that it takes that many. */
  ghost predicate Filled(queue: seq<seq<File>>, clique: seq<File>, p: int, done: seq<File>) {
    QueueOk(queue, done) && Clique(clique, p, done) && |clique| == |queue|
  }

  lemma FirstFile(meta: File)
    requires meta.min <= meta.max
    ensures Filled([[meta]], [meta], meta.min, [meta])
  {
    FlattenSnoc([], [meta]);
    assert [] + [[meta]] == [[meta]];
  }

  lemma CliqueGrows(clique: seq<File>, p: int, done: seq<File>, meta: File)
    requires Clique(clique, p, done)
    ensures Clique(clique, p, done + [meta])
  {
    assert multiset(done) <= multiset(done + [meta]);
  }

  lemma PrefixOf(sorted: seq<File>, i: int)
    requires 0 <= i < |sorted| && Ordered(sorted) && Intervals(sorted)
    ensures sorted[i].min <= sorted[i].max && forall f :: f in sorted[..i] ==> FileLe(f, sorted[i])
    ensures Ordered(sorted[..i] + [sorted[i]]) && sorted[..i+1] == sorted[..i] + [sorted[i]]
  {
    assert sorted[i] in sorted;
    assert sorted[..i+1] == sorted[..i] + [sorted[i]];
  }

  lemma FirstOf(metas: seq<File>)
    requires metas != [] && Intervals(metas)
    ensures Filled([[metas[0]]], [metas[0]], metas[0].min, metas[..1])
  {
    assert metas[0] in metas;
    FirstFile(metas[0]);
    assert metas[..1] == [metas[0]];
  }

  /** The runs before they are handed out. */
  method FillQueue(metas: seq<File>) returns (queue: seq<seq<File>>, ghost clique: seq<File>, ghost p: int)
    requires metas != [] && Ordered(metas) && Intervals(metas)
    ensures Filled(queue, clique, p, metas)
  {
    FirstOf(metas);
    queue := [[metas[0]]];
    clique, p := [metas[0]], metas[0].min;
    var i := 1;
    while i < |metas|
      invariant 1 <= i <= |metas|
      invariant Filled(queue, clique, p, metas[..i])
    {
      queue, clique, p := PlaceNext(queue, clique, p, metas, i);
      i := i + 1;
    }
    assert metas[..i] == metas;
  }

  method PlaceNext(queue: seq<seq<File>>, ghost clique: seq<File>, ghost p: int, metas: seq<File>, i: int)
    returns (queue': seq<seq<File>>, ghost clique': seq<File>, ghost p': int)
    requires Ordered(metas) && Intervals(metas) && 0 <= i < |metas| && Filled(queue, clique, p, metas[..i])
    ensures Filled(queue', clique', p', metas[..i+1])
  {
    PrefixOf(metas, i);
    ghost var done := metas[..i];
    ghost var grown;
    var meta := metas[i];
    queue', grown := Place(queue, meta, done);
    CliqueGrows(clique, p, done, meta);
    clique', p' := if grown then Lasts(queue) + [meta] else clique, if grown then meta.min else p;
  }

  /** The inner `Partition`: one section's files in the least number of sorted runs. */
  method PartitionSection(metas: seq<File>)
    returns (runs: seq<seq<File>>, ghost clique: seq<File>, ghost p: int)
    requires metas != [] && Ordered(metas) && Intervals(metas)
    ensures RunsOf(runs, metas)
    ensures Clique(clique, p, metas) && |clique| == |runs|
    ensures forall i, j :: 0 <= i < j < |runs| ==> TopLe(runs[i], runs[j])
  {
    var queue;
    queue, clique, p := FillQueue(metas);
    runs := Drain(queue);
    assert |runs| == |multiset(runs)| == |multiset(queue)|;
    forall j | 0 <= j < |runs| ensures runs[j] != [] && ValidRun(runs[j]) {
      assert runs[j] in multiset(queue);
    }
  }

  /** Some key separates the files: every file lies on one side of it, and both sides are used. */
  ghost predicate SplitAt(fs: seq<File>, k: int) {
    && (forall f :: f in fs ==> f.max <= k || f.min > k)
    && (exists f :: f in fs && f.max <= k)
    && (exists f :: f in fs && f.min > k)
  }

  /** Every file but the first overlaps the files before it. */
  ghost predicate Chained(fs: seq<File>) {
    forall j :: 0 < j < |fs| ==> Reached(fs, j)
  }

  ghost predicate Reached(fs: seq<File>, j: int)
    requires 0 < j < |fs|
  {
    exists i :: 0 <= i < j && fs[i].max >= fs[j].min
  }

  lemma {:induction false} FirstBeyond(fs: seq<File>, k: int, j: int) returns (i: int)
    requires 0 <= j < |fs| && fs[j].min > k && Ordered(fs)
    ensures 0 <= i <= j && forall l :: 0 <= l < |fs| ==> (fs[l].min > k <==> l >= i)
  {
    if h :| 0 <= h < j && fs[h].min > k {
      i := FirstBeyond(fs, k, h);
    } else {
      i := j;
    }
  }

  /** A section cannot be cut further. */
  lemma ChainedNotSplit(fs: seq<File>, k: int)
    requires Ordered(fs) && Chained(fs) && Intervals(fs)
    ensures !SplitAt(fs, k)
  {
    if (exists f :: f in fs && f.max <= k) && (exists f :: f in fs && f.min > k) {
      var g :| g in fs && g.min > k;
      var j :| 0 <= j < |fs| && fs[j] == g;
      var i := FirstBeyond(fs, k, j);
      var f :| f in fs && f.max <= k;
      var h :| 0 <= h < |fs| && fs[h] == f;
      assert h < i && Reached(fs, i);
      var l :| 0 <= l < i && fs[l].max >= fs[i].min;
      assert fs[l] in fs && fs[l].max > k && fs[l].min <= k;
    }
  }

  ghost predicate Below(a: seq<File>, b: seq<File>) {
    forall f, g :: f in a && g in b ==> f.max < g.min
  }

  /** The sections: whole, apart, in key order, and none can be cut further. */
  ghost predicate SectionsOk(groups: seq<seq<File>>) {
    && (forall i :: 0 <= i < |groups| ==> groups[i] != [] && Ordered(groups[i]) && Chained(groups[i]))
    && (forall i, j :: 0 <= i < j < |groups| ==> Below(groups[i], groups[j]))
  }

  /** `bound` is the largest key of `section`. */
  ghost predicate BoundOf(section: seq<File>, bound: Option<int>) {
    && (bound.None? <==> section == [])
    && (bound.Some? ==> (forall f :: f in section ==> f.max <= bound.value)
                        && exists i :: 0 <= i < |section| && section[i].max == bound.value)
  }

  /** The files of `section` follow those of `groups`. */
  ghost predicate After(groups: seq<seq<File>>, section: seq<File>) {
    forall i :: 0 <= i < |groups| ==> Below(groups[i], section)
  }

  function NextBound(bound: Option<int>, meta: File): Option<int> {
    if bound.None? || meta.max > bound.value then Some(meta.max) else bound
  }

  lemma AddBound(section: seq<File>, meta: File, bound: Option<int>)
    requires BoundOf(section, bound)
    ensures BoundOf(section + [meta], NextBound(bound, meta))
  {
    var t := section + [meta];
    assert t[|section|] == meta;
    if bound.Some? {
      var i :| 0 <= i < |section| && section[i].max == bound.value;
      assert t[i].max == bound.value;
    }
  }

  lemma AddChained(section: seq<File>, meta: File, bound: Option<int>)
    requires Chained(section) && BoundOf(section, bound)
    requires bound.Some? ==> meta.min <= bound.value
    ensures Chained(section + [meta])
  {
    var t := section + [meta];
    forall j | 0 < j < |t| ensures Reached(t, j) {
      if j < |section| {
        assert Reached(section, j);
        var i :| 0 <= i < j && section[i].max >= section[j].min;
        assert t[i] == section[i];
      } else {
        var i :| 0 <= i < |section| && section[i].max == bound.value;
        assert t[i] == section[i];
      }
    }
  }

  lemma CloseSection(groups: seq<seq<File>>, section: seq<File>)
    requires SectionsOk(groups) && After(groups, section)
    requires section != [] && Ordered(section) && Chained(section)
    ensures SectionsOk(groups + [section])
  {
  }

  /** The key bound of the current section lies below the next file. */
  lemma NextSection(groups: seq<seq<File>>, section: seq<File>, meta: File, bound: int)
    requires After(groups, section) && section != [] && BoundOf(section, Some(bound)) && meta.min > bound
    requires Intervals(section)
    ensures After(groups + [section], [meta])
  {
    forall i | 0 <= i < |groups + [section]| ensures Below((groups + [section])[i], [meta]) {
      if i < |groups| {
        assert Below(groups[i], section);
        assert section[0] in section;
      }
    }
  }

  lemma GrowAfter(groups: seq<seq<File>>, section: seq<File>, meta: File)
    requires After(groups, section) && section != [] && Ordered(section + [meta])
    ensures After(groups, section + [meta])
  {
    var t := section + [meta];
    assert FileLe(t[0], t[|section|]);
    forall i | 0 <= i < |groups| ensures Below(groups[i], t) {
      assert Below(groups[i], section) && section[0] in section;
    }
  }

  /** Where the cutting into sections stands after the files `done`. */
  ghost predicate Cutting(groups: seq<seq<File>>, section: seq<File>, bound: Option<int>, done: seq<File>) {
    && SectionsOk(groups) && After(groups, section) && Ordered(section) && Chained(section)
    && BoundOf(section, bound) && Flatten(groups) + section == done
  }

  /** `section` is closed before `meta` is taken. */
  lemma CutBefore(groups: seq<seq<File>>, section: seq<File>, bound: int, done: seq<File>, meta: File)
    requires Cutting(groups, section, Some(bound), done) && Intervals(done) && meta.min > bound
    ensures Cutting(groups + [section], [], None, done) && After(groups + [section], [meta])
  {
    assert forall f :: f in section ==> f in done;
    CloseSection(groups, section);
    NextSection(groups, section, meta, bound);
    FlattenSnoc(groups, section);
    Restart(groups + [section], done);
  }

  lemma Restart(groups: seq<seq<File>>, done: seq<File>)
    requires SectionsOk(groups) && Flatten(groups) == done
    ensures Cutting(groups, [], None, done)
  {
    assert Flatten(groups) + [] == done;
  }

  lemma SectionOrdered(done: seq<File>, section: seq<File>, flat: seq<File>, meta: File)
    requires flat + section == done && Ordered(done + [meta])
    ensures Ordered(section + [meta])
  {
    var t := section + [meta];
    var all := done + [meta];
    forall i, j | 0 <= i < j < |t| ensures FileLe(t[i], t[j]) {
      assert t[i] == all[|flat| + i] && t[j] == all[|flat| + j];
    }
  }

  /** Adding `meta` to the open section. */
  lemma CutAdd(groups: seq<seq<File>>, section: seq<File>, bound: Option<int>, done: seq<File>, meta: File)
    requires Cutting(groups, section, bound, done) && Ordered(done + [meta])
    requires bound.Some? ==> meta.min <= bound.value
    requires After(groups, [meta]) || section != []
    ensures Cutting(groups, section + [meta], NextBound(bound, meta), done + [meta])
  {
    SectionOrdered(done, section, Flatten(groups), meta);
    AddBound(section, meta, bound);
    AddChained(section, meta, bound);
    AddAfter(groups, section, meta);
    assert Flatten(groups) + (section + [meta]) == done + [meta];
  }

  lemma AddAfter(groups: seq<seq<File>>, section: seq<File>, meta: File)
    requires After(groups, section) && Ordered(section + [meta])
    requires After(groups, [meta]) || section != []
    ensures After(groups, section + [meta])
  {
    if section != [] { GrowAfter(groups, section, meta); } else { assert [] + [meta] == [meta]; }
  }

  /** What is known of one section: its runs, and a clique as large as their number. */
  ghost predicate SectionRuns(runs: seq<seq<File>>, group: seq<File>) {
    RunsOf(runs, group) && exists clique, p :: Clique(clique, p, group) && |clique| == |runs|
  }

  ghost predicate AllSectionRuns(sections: seq<seq<seq<File>>>, groups: seq<seq<File>>) {
    |sections| == |groups| && forall i :: 0 <= i < |groups| ==> SectionRuns(sections[i], groups[i])
  }

  /** One file of the loop over the sorted files. */
  method CutOne(sections: seq<seq<seq<File>>>, section: seq<File>, bound: Option<int>, meta: File,
                ghost groups: seq<seq<File>>, ghost done: seq<File>)
    returns (sections': seq<seq<seq<File>>>, section': seq<File>, bound': Option<int>, ghost groups': seq<seq<File>>)
    requires Cutting(groups, section, bound, done) && AllSectionRuns(sections, groups)
    requires Intervals(done) && Ordered(done + [meta]) && (section == [] ==> groups == [])
    ensures Cutting(groups', section', bound', done + [meta]) && AllSectionRuns(sections', groups')
    ensures section' != []
  {
    sections', section', bound', groups' := sections, section, bound, groups;
    if section != [] && meta.min > bound.value {
      SectionWithin(groups, section, bound, done);
      CutBefore(groups, section, bound.value, done, meta);
      sections', groups' := AddSection(sections, groups, section);
      section', bound' := [], None;
    }
    CutAdd(groups', section', bound', done, meta);
    section' := section' + [meta];
    if bound'.None? || meta.max > bound'.value {
      bound' := Some(meta.max);
    }
  }

  /** The loop over the sorted files. */
  method Cut(sorted: seq<File>)
    returns (sections: seq<seq<seq<File>>>, section: seq<File>, ghost groups: seq<seq<File>>, ghost last: Option<int>)
    requires Ordered(sorted) && Intervals(sorted)
    ensures Cutting(groups, section, last, sorted) && AllSectionRuns(sections, groups)
    ensures section == [] ==> groups == []
  {
    sections, groups, section := [], [], [];
    var bound: Option<int> := None;
    var i := 0;
    while i < |sorted|
      invariant 0 <= i <= |sorted| && (section == [] ==> groups == [])
      invariant Cutting(groups, section, bound, sorted[..i])
      invariant AllSectionRuns(sections, groups)
    {
      PrefixOf(sorted, i);
      assert forall f :: f in sorted[..i] ==> f in sorted;
      sections, section, bound, groups := CutOne(sections, section, bound, sorted[i], groups, sorted[..i]);
      i := i + 1;
    }
    assert sorted[..|sorted|] == sorted;
    last := bound;
  }

  lemma SectionWithin(groups: seq<seq<File>>, section: seq<File>, bound: Option<int>, done: seq<File>)
    requires Cutting(groups, section, bound, done) && Intervals(done)
    ensures Intervals(section)
  {
    forall f | f in section ensures f in done {}
  }

  /** Partitions `files`. `groups[i]` lists the files of section `i` in their sorted order. */
  method Partition(files: seq<File>)
    returns (sections: seq<seq<seq<File>>>, ghost groups: seq<seq<File>>)
    requires Intervals(files)
    ensures SectionsOk(groups) && multiset(Flatten(groups)) == multiset(files)
    ensures AllSectionRuns(sections, groups)
  {
    var sorted := SortFiles(files);
    SortSorts(files);
    forall f | f in sorted ensures f.min <= f.max { assert f in multiset(files); }
    var section: seq<File>;
    ghost var bound;
    sections, section, groups, bound := Cut(sorted);
    if section != [] {
      SectionWithin(groups, section, bound, sorted);
      CloseSection(groups, section);
      FlattenSnoc(groups, section);
      sections, groups := AddSection(sections, groups, section);
    }
  }

  /** Partitions a closed section and appends it. */
  method AddSection(sections: seq<seq<seq<File>>>, ghost groups: seq<seq<File>>, section: seq<File>)
    returns (sections': seq<seq<seq<File>>>, ghost groups': seq<seq<File>>)
    requires AllSectionRuns(sections, groups) && section != [] && Ordered(section) && Intervals(section)
    ensures groups' == groups + [section] && AllSectionRuns(sections', groups')
  {
    ghost var clique, p;
    var runs;
    runs, clique, p := PartitionSection(section);
    assert SectionRuns(runs, section);
    sections', groups' := sections + [runs], groups + [section];
  }

  /** The number of runs in a section is the least for the whole input: whoever lays all files out in
      sorted runs needs at least as many. */
  lemma MinimumRuns(files: seq<File>, groups: seq<seq<File>>, i: int, runs: seq<seq<File>>, rs: seq<seq<File>>)
    requires Intervals(files) && multiset(Flatten(groups)) == multiset(files)
    requires 0 <= i < |groups| && SectionRuns(runs, groups[i])
    requires RunsOf(rs, files)
    ensures |runs| <= |rs|
  {
    var clique, p :| Clique(clique, p, groups[i]) && |clique| == |runs|;
    FlattenSplit(groups, i);
    forall f: File | f in Flatten(rs) ensures f.min <= f.max { assert f in multiset(files); }
    forall f: File | f in groups[i] ensures f.min <= f.max { assert f in multiset(files); }
    FewestRuns(clique, p, groups[i], rs);
  }

  /** No section can be cut further. */
  lemma SectionsWhole(groups: seq<seq<File>>, i: int, k: int)
    requires SectionsOk(groups) && 0 <= i < |groups| && Intervals(Flatten(groups))
    ensures !SplitAt(groups[i], k)
  {
    forall f: File | f in groups[i] ensures f.min <= f.max { InFlatten(groups, f); }
    ChainedNotSplit(groups[i], k);
  }
}
