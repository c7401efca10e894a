/** The merge read of a split: `IntervalPartition` cuts the data files into sections, every section is
    merged by a loser tree, and the results are concatenated. */
module SplitReads {
  import opened Records
  import opened IntervalPartitions
  import opened Latest
  import LoserTrees
  import MergeRead

  /** The records of a file have increasing keys between its least and its largest key. */
  ghost predicate FileOk(f: File) {
    f.min <= f.max && StrictKeys(f.rows) && forall r :: r in f.rows ==> f.min <= r.key <= f.max
  }

  ghost predicate FilesOk(fs: seq<File>) {
    forall f :: f in fs ==> FileOk(f)
  }

  /** A sorted run as the batches its reader delivers. */
  function Batches(run: seq<File>): (r: seq<seq<KeyValue>>)
    ensures |r| == |run| && forall i :: 0 <= i < |run| ==> r[i] == run[i].rows
  {
    seq(|run|, i requires 0 <= i < |run| => run[i].rows)
  }

  function RowsOf(fs: seq<File>): (r: seq<KeyValue>) {
    Flatten(Batches(fs))
  }

  function Readers(runs: seq<seq<File>>): (r: seq<seq<seq<KeyValue>>>)
    ensures |r| == |runs| && forall i :: 0 <= i < |runs| ==> r[i] == Batches(runs[i])
  {
    seq(|runs|, i requires 0 <= i < |runs| => Batches(runs[i]))
  }

  lemma RowsConcat(a: seq<File>, b: seq<File>)
    ensures RowsOf(a + b) == RowsOf(a) + RowsOf(b)
  {
    assert Batches(a + b) == Batches(a) + Batches(b);
    FlattenConcat(Batches(a), Batches(b));
  }

  lemma RowsFirst(fs: seq<File>)
    requires fs != []
    ensures RowsOf(fs) == fs[0].rows + RowsOf(fs[1..])
  {
    assert Batches(fs)[1..] == Batches(fs[1..]);
  }

  lemma RowsWithout(fs: seq<File>, k: int)
    requires 0 <= k < |fs|
    ensures multiset(RowsOf(fs)) == multiset(RowsOf(Without(fs, k))) + multiset(fs[k].rows)
  {
    FlattenWithout(Batches(fs), k);
    assert Without(Batches(fs), k) == Batches(Without(fs, k));
  }

  lemma DropSame(a: seq<File>, b: seq<File>) returns (k: int)
    requires a != [] && multiset(a) == multiset(b)
    ensures 0 <= k < |b| && b[k] == a[0] && multiset(Without(a, 0)) == multiset(Without(b, k))
  {
    assert a[0] in multiset(b);
    k :| 0 <= k < |b| && b[k] == a[0];
    WithoutCount(a, 0);
    WithoutCount(b, k);
    assert multiset(Without(a, 0)) == multiset(a) - multiset{a[0]};
  }

  /** Which records there are does not depend on the order of the files. */
  lemma {:induction false} RowsPermuted(a: seq<File>, b: seq<File>)
    requires multiset(a) == multiset(b)
    ensures multiset(RowsOf(a)) == multiset(RowsOf(b))
    decreases |a|
  {
    if a == [] {
      assert |multiset(b)| == 0;
    } else {
      var k := DropSame(a, b);
      RowsPermuted(Without(a, 0), Without(b, k));
      RowsWithout(a, 0);
      RowsWithout(b, k);
    }
  }

  lemma RowOf(fs: seq<File>, r: KeyValue) returns (f: File)
    requires r in RowsOf(fs)
    ensures f in fs && r in f.rows
  {
    InFlatten(Batches(fs), r);
    var i :| 0 <= i < |fs| && r in Batches(fs)[i];
    f := fs[i];
  }

  lemma StrictConcat(a: seq<KeyValue>, b: seq<KeyValue>)
    requires StrictKeys(a) && StrictKeys(b) && forall r, s :: r in a && s in b ==> r.key < s.key
    ensures StrictKeys(a + b)
  {
  }

  /** The files of a sorted run make one list of increasing keys. */
  lemma {:induction false} RunStrict(run: seq<File>)
    requires ValidRun(run) && FilesOk(run)
    ensures StrictKeys(RowsOf(run))
  {
    if run != [] {
      var rest := run[1..];
      RunStrict(rest);
      RowsFirst(run);
      assert FileOk(run[0]);
      forall r, s | r in run[0].rows && s in RowsOf(rest) ensures r.key < s.key {
        var f := RowOf(rest, s);
        var j :| 0 <= j < |rest| && rest[j] == f;
        RunApart(run, 0, j + 1);
      }
      StrictConcat(run[0].rows, RowsOf(rest));
    }
  }

  lemma {:induction false} ReadersRows(runs: seq<seq<File>>)
    ensures Flatten(LoserTrees.FlatAll(Readers(runs))) == RowsOf(Flatten(runs))
  {
    if runs != [] {
      var rest := runs[1..];
      ReadersRows(rest);
      assert LoserTrees.FlatAll(Readers(runs))[1..] == LoserTrees.FlatAll(Readers(rest));
      RowsConcat(runs[0], Flatten(rest));
    }
  }

  /** Reading two ranges one after the other reads both. */
  lemma LatestConcat(o: seq<KeyValue>, p: seq<KeyValue>, a: multiset<KeyValue>, b: multiset<KeyValue>)
    requires LatestPerKey(o, a) && LatestPerKey(p, b)
    requires forall r, s :: r in a && s in b ==> r.key < s.key
    ensures LatestPerKey(o + p, a + b)
  {
    StrictConcat(o, p);
    var t := o + p;
    forall r | r in a + b ensures Covered(r, t) {
      if r in a {
        assert Covered(r, o);
        var i :| 0 <= i < |o| && o[i].key == r.key && SeqLe(r, o[i]);
        assert t[i] == o[i];
      } else {
        assert Covered(r, p);
        var i :| 0 <= i < |p| && p[i].key == r.key && SeqLe(r, p[i]);
        assert t[|o| + i] == p[i];
      }
    }
  }

  /** The records of different sections do not share a key. */
  lemma SectionsApart(groups: seq<seq<File>>, i: int, r: KeyValue, s: KeyValue)
    requires SectionsOk(groups) && FilesOk(Flatten(groups)) && 0 <= i < |groups|
    requires r in RowsOf(Flatten(groups[..i])) && s in RowsOf(groups[i])
    ensures r.key < s.key
  {
    var f := RowOf(Flatten(groups[..i]), r);
    InFlatten(groups[..i], f);
    var j :| 0 <= j < i && f in groups[..i][j];
    var g := RowOf(groups[i], s);
    InFlatten(groups, f);
    InFlatten(groups, g);
    assert f in groups[j] && Below(groups[j], groups[i]);
    assert FileOk(f) && FileOk(g);
  }

  /** One section: its runs go to the loser tree. */
  method ReadSection(runs: seq<seq<File>>, ghost group: seq<File>) returns (out: seq<KeyValue>)
    requires RunsOf(runs, group) && group != [] && FilesOk(group)
    ensures LatestPerKey(out, multiset(RowsOf(group)))
  {
    SectionInputs(runs, group);
    ghost var groups;
    out, groups := MergeRead.MergeRuns(Readers(runs), false);
    ReadersRows(runs);
    RowsPermuted(Flatten(runs), group);
  }

  lemma SectionInputs(runs: seq<seq<File>>, group: seq<File>)
    requires RunsOf(runs, group) && group != [] && FilesOk(group)
    ensures |Readers(runs)| > 0
    ensures forall i :: 0 <= i < |runs| ==> StrictKeys(Flatten(Readers(runs)[i]))
  {
    assert group[0] in multiset(Flatten(runs));
    forall i | 0 <= i < |runs| ensures StrictKeys(Flatten(Readers(runs)[i])) {
      forall f: File | f in runs[i] ensures FileOk(f) {
        InFlatten(runs, f);
        assert f in multiset(group);
      }
      RunStrict(runs[i]);
    }
  }

  lemma ReadNext(groups: seq<seq<File>>, i: int, out: seq<KeyValue>, more: seq<KeyValue>)
    requires SectionsOk(groups) && FilesOk(Flatten(groups)) && 0 <= i < |groups|
    requires LatestPerKey(out, multiset(RowsOf(Flatten(groups[..i]))))
    requires LatestPerKey(more, multiset(RowsOf(groups[i])))
    ensures LatestPerKey(out + more, multiset(RowsOf(Flatten(groups[..i+1]))))
  {
    var a, b := RowsOf(Flatten(groups[..i])), RowsOf(groups[i]);
    forall r: KeyValue, s: KeyValue | r in multiset(a) && s in multiset(b)
      ensures r.key < s.key
    {
      SectionsApart(groups, i, r, s);
    }
    LatestConcat(out, more, multiset(a), multiset(b));
    NextRows(groups, i);
  }

  lemma NextRows(groups: seq<seq<File>>, i: int)
    requires 0 <= i < |groups|
    ensures multiset(RowsOf(Flatten(groups[..i+1]))) ==
      multiset(RowsOf(Flatten(groups[..i]))) + multiset(RowsOf(groups[i]))
  {
    assert groups[..i+1] == groups[..i] + [groups[i]];
    FlattenSnoc(groups[..i], groups[i]);
    RowsConcat(Flatten(groups[..i]), groups[i]);
  }

  /** Reads the files section by section: the result is the latest record of every key. */
  method ReadFiles(files: seq<File>) returns (out: seq<KeyValue>)
    requires FilesOk(files)
    ensures LatestPerKey(out, multiset(RowsOf(files)))
  {
    var sections;
    ghost var groups;
    sections, groups := Partition(files);
    forall f | f in Flatten(groups) ensures FileOk(f) { assert f in multiset(files); }
    out := [];
    assert RowsOf(Flatten(groups[..0])) == [];
    var i := 0;
    while i < |sections|
      invariant 0 <= i <= |sections|
      invariant LatestPerKey(out, multiset(RowsOf(Flatten(groups[..i]))))
    {
      forall f | f in groups[i] ensures FileOk(f) { InFlatten(groups, f); }
      var more := ReadSection(sections[i], groups[i]);
      ReadNext(groups, i, out, more);
      out := out + more;
      i := i + 1;
    }
    assert groups[..i] == groups;
    RowsPermuted(Flatten(groups), files);
  }

  /** A reader sees the same result whatever sections and runs the files fall into. */
  lemma ReadIsUnique(files: seq<File>, out: seq<KeyValue>, other: seq<File>, p: seq<KeyValue>)
    requires LatestPerKey(out, multiset(RowsOf(files))) && LatestPerKey(p, multiset(RowsOf(other)))
    requires multiset(RowsOf(files)) == multiset(RowsOf(other)) && NoTies(multiset(RowsOf(files)))
    ensures out == p
  {
    LatestUnique(out, p, multiset(RowsOf(files)));
  }
}
