/** `MergeTreeCompactTask` of src/paimon/core/mergetree/compact: rewrites or upgrades the files of a
    compaction, section by section. */
module Compaction {
  import opened Records
  import opened IntervalPartitions
  import opened Latest
  import opened SplitReads

  /** `out` is `full`, without its retractions when they are dropped. */
  ghost predicate Pruned(out: seq<KeyValue>, full: seq<KeyValue>, drop: bool) {
    StrictKeys(out) && forall e :: e in out <==> e in full && !(drop && e.retract)
  }

  /** `out` holds the latest record of every key of `recs`, by increasing key, and with `drop` no
      retraction. */
  ghost predicate Compacts(out: seq<KeyValue>, recs: multiset<KeyValue>, drop: bool) {
    exists full :: LatestPerKey(full, recs) && Pruned(out, full, drop)
  }

  predicate HasRetraction(rows: seq<KeyValue>) { exists i :: 0 <= i < |rows| && rows[i].retract }

  /** A merge of sorted runs compacts them. */
  lemma LatestCompacts(out: seq<KeyValue>, recs: multiset<KeyValue>, drop: bool)
    requires LatestPerKey(out, recs) && (drop ==> !HasRetraction(out))
    ensures Compacts(out, recs, drop)
  {
    assert Pruned(out, out, drop);
  }

  function Adds(rows: seq<KeyValue>): (r: seq<KeyValue>) {
    if rows == [] then []
    else Adds(rows[..|rows|-1]) + if rows[|rows|-1].retract then [] else [rows[|rows|-1]]
  }

  lemma {:induction false} AddsAre(rows: seq<KeyValue>)
    requires StrictKeys(rows)
    ensures StrictKeys(Adds(rows)) && forall e :: e in Adds(rows) <==> e in rows && !e.retract
  {
    if rows != [] {
      var front, last := rows[..|rows|-1], rows[|rows|-1];
      assert rows == front + [last];
      AddsAre(front);
      var a := Adds(front);
      forall i | 0 <= i < |a| ensures a[i].key < last.key {
        assert a[i] in front;
      }
    }
  }

  /** `DropDeleteReader`. */
  method DropDeletes(rows: seq<KeyValue>) returns (kept: seq<KeyValue>)
    ensures kept == Adds(rows)
  {
    kept := [];
    var i := 0;
    while i < |rows|
      invariant 0 <= i <= |rows| && kept == Adds(rows[..i])
    {
      assert rows[..i+1][..i] == rows[..i];
      if !rows[i].retract {
        kept := kept + [rows[i]];
      }
      i := i + 1;
    }
    assert rows[..i] == rows;
  }

  lemma DropCompacts(out: seq<KeyValue>, recs: multiset<KeyValue>)
    requires LatestPerKey(out, recs)
    ensures Compacts(Adds(out), recs, true)
  {
    AddsAre(out);
    assert Pruned(Adds(out), out, true);
  }

  /** A file that stays as it is. */
  lemma FileCompacts(rows: seq<KeyValue>, drop: bool)
    requires StrictKeys(rows) && (drop ==> !HasRetraction(rows))
    ensures Compacts(rows, multiset(rows), drop)
  {
    forall r | r in multiset(rows) ensures Covered(r, rows) {
      var i :| 0 <= i < |rows| && rows[i] == r;
      assert rows[i].key == r.key && SeqLe(r, rows[i]);
    }
    LatestCompacts(rows, multiset(rows), drop);
  }

  ghost predicate KeysBelow(a: multiset<KeyValue>, b: multiset<KeyValue>) {
    forall r, s :: r in a && s in b ==> r.key < s.key
  }

  /** Ranges of keys are compacted independently. */
  lemma CompactsConcat(o: seq<KeyValue>, a: multiset<KeyValue>, p: seq<KeyValue>, b: multiset<KeyValue>, drop: bool)
    requires Compacts(o, a, drop) && Compacts(p, b, drop) && KeysBelow(a, b)
    ensures Compacts(o + p, a + b, drop)
  {
    var f :| LatestPerKey(f, a) && Pruned(o, f, drop);
    var g :| LatestPerKey(g, b) && Pruned(p, g, drop);
    JoinedCompacts(o, a, f, p, b, g, drop);
  }

  lemma JoinedCompacts(o: seq<KeyValue>, a: multiset<KeyValue>, f: seq<KeyValue>,
                       p: seq<KeyValue>, b: multiset<KeyValue>, g: seq<KeyValue>, drop: bool)
    requires LatestPerKey(f, a) && LatestPerKey(g, b) && Pruned(o, f, drop) && Pruned(p, g, drop) && KeysBelow(a, b)
    ensures Compacts(o + p, a + b, drop)
  {
    LatestConcat(f, g, a, b);
    PrunedConcat(o, f, p, g, drop);
  }

  lemma PrunedConcat(o: seq<KeyValue>, f: seq<KeyValue>, p: seq<KeyValue>, g: seq<KeyValue>, drop: bool)
    requires Pruned(o, f, drop) && Pruned(p, g, drop) && StrictKeys(f + g)
    ensures Pruned(o + p, f + g, drop)
  {
    forall r, s | r in f && s in g ensures r.key < s.key {
      var i :| 0 <= i < |f| && f[i] == r;
      var j :| 0 <= j < |g| && g[j] == s;
      assert (f + g)[i] == r && (f + g)[|f| + j] == s;
    }
    StrictConcat(o, p);
  }

  lemma CompactedIn(out: seq<KeyValue>, recs: multiset<KeyValue>, drop: bool)
    requires Compacts(out, recs, drop)
    ensures StrictKeys(out) && forall r :: r in out ==> r in recs
  {
    var f :| LatestPerKey(f, recs) && Pruned(out, f, drop);
  }

  /** Files whose keys lie within those of `fs`. */
  ghost predicate WithinFiles(out: seq<File>, fs: seq<File>) {
    forall f :: f in out ==> exists lo, hi :: lo in fs && hi in fs && lo.min <= f.min && f.max <= hi.max
  }

  /** What a compaction of `fs` must deliver. */
  ghost predicate Delivers(out: seq<File>, fs: seq<File>, drop: bool) {
    && ValidRun(out) && FilesOk(out) && WithinFiles(out, fs)
    && Compacts(RowsOf(out), multiset(RowsOf(fs)), drop)
  }

  ghost predicate Seen(out: seq<File>) { true }

  /** `Delivers`, kept out of the way of proofs that do not call `See`. */
  ghost predicate Rewritten(out: seq<File>, fs: seq<File>, drop: bool) {
    forall o {:trigger Seen(o)} :: Seen(o) && o == out ==> Delivers(o, fs, drop)
  }

  lemma See(out: seq<File>, fs: seq<File>, drop: bool)
    requires Rewritten(out, fs, drop)
    ensures Delivers(out, fs, drop)
  {
    assert Seen(out);
  }

  lemma SeeRun(out: seq<File>, fs: seq<File>, drop: bool)
    requires Rewritten(out, fs, drop)
    ensures ValidRun(out) && FilesOk(out)
  {
    See(out, fs, drop);
  }

  lemma SeeRecords(out: seq<File>, fs: seq<File>, drop: bool, recs: multiset<KeyValue>)
    requires Rewritten(out, fs, drop) && recs == multiset(RowsOf(fs))
    ensures Compacts(RowsOf(out), recs, drop)
  {
    See(out, fs, drop);
  }

  lemma RowsBelow(a: seq<File>, b: seq<File>)
    requires FilesOk(a) && FilesOk(b) && Below(a, b)
    ensures KeysBelow(multiset(RowsOf(a)), multiset(RowsOf(b)))
  {
    forall r, s | r in multiset(RowsOf(a)) && s in multiset(RowsOf(b)) ensures r.key < s.key {
      var f := RowOf(a, r);
      var g := RowOf(b, s);
      assert FileOk(f) && FileOk(g);
    }
  }

  lemma WithinBelow(out: seq<File>, fs: seq<File>, out': seq<File>, fs': seq<File>)
    requires WithinFiles(out, fs) && WithinFiles(out', fs') && Below(fs, fs')
    ensures Below(out, out')
  {
    forall f, g | f in out && g in out' ensures f.max < g.min {
      var lo, hi :| lo in fs && hi in fs && lo.min <= f.min && f.max <= hi.max;
      var lo', hi' :| lo' in fs' && hi' in fs' && lo'.min <= g.min && g.max <= hi'.max;
    }
  }

  lemma RunConcat(a: seq<File>, b: seq<File>)
    requires ValidRun(a) && ValidRun(b) && Below(a, b)
    ensures ValidRun(a + b)
  {
    var t := a + b;
    forall i | 0 < i < |t| ensures t[i].min > t[i-1].max {
      if i == |a| { assert t[i] in b && t[i-1] in a; }
    }
  }

  lemma WithinConcat(out: seq<File>, fs: seq<File>, out': seq<File>, fs': seq<File>)
    requires WithinFiles(out, fs) && WithinFiles(out', fs')
    ensures WithinFiles(out + out', fs + fs')
  {
    forall f | f in out + out'
      ensures exists lo, hi :: lo in fs + fs' && hi in fs + fs' && lo.min <= f.min && f.max <= hi.max
    {
      if f in out {
        var lo, hi :| lo in fs && hi in fs && lo.min <= f.min && f.max <= hi.max;
        assert lo in fs + fs' && hi in fs + fs';
      } else {
        var lo, hi :| lo in fs' && hi in fs' && lo.min <= f.min && f.max <= hi.max;
        assert lo in fs + fs' && hi in fs + fs';
      }
    }
  }

  /** Rewriting one key range after the other keeps the files in order. */
  lemma RewrittenConcat(out: seq<File>, fs: seq<File>, out': seq<File>, fs': seq<File>, drop: bool)
    requires Rewritten(out, fs, drop) && Rewritten(out', fs', drop) && FilesOk(fs) && FilesOk(fs') && Below(fs, fs')
    ensures Rewritten(out + out', fs + fs', drop)
  {
    See(out, fs, drop);
    See(out', fs', drop);
    WithinBelow(out, fs, out', fs');
    RunConcat(out, out');
    WithinConcat(out, fs, out', fs');
    RowsBelow(fs, fs');
    RowsConcat(out, out');
    RowsConcat(fs, fs');
    CompactsConcat(RowsOf(out), multiset(RowsOf(fs)), RowsOf(out'), multiset(RowsOf(fs')), drop);
    assert Delivers(out + out', fs + fs', drop);
  }

  lemma NothingRewritten(drop: bool)
    ensures Rewritten([], [], drop)
  {
    assert RowsOf([]) == [];
    FileCompacts([], drop);
    assert Delivers([], [], drop);
  }

  /** A file that holds a stretch of rewritten records. */
  function FileOf(rows: seq<KeyValue>): File
    requires rows != []
  {
    File(rows[0].key, rows[|rows|-1].key, rows)
  }

  ghost predicate Rolled(files: seq<File>, rows: seq<KeyValue>) {
    && RowsOf(files) == rows && ValidRun(files) && FilesOk(files)
    && forall f :: f in files ==> f.rows != [] && f == FileOf(f.rows)
  }

  lemma FileOfOk(rows: seq<KeyValue>)
    requires rows != [] && StrictKeys(rows)
    ensures FileOk(FileOf(rows))
  {
    forall r | r in rows ensures rows[0].key <= r.key <= rows[|rows|-1].key {
      var i :| 0 <= i < |rows| && rows[i] == r;
    }
  }

  lemma RollNext(files: seq<File>, rows: seq<KeyValue>, i: int, n: int)
    requires StrictKeys(rows) && 0 <= i < i + n <= |rows| && Rolled(files, rows[..i])
    ensures Rolled(files + [FileOf(rows[i..i+n])], rows[..i+n])
  {
    var chunk := rows[i..i+n];
    var f := FileOf(chunk);
    FileOfOk(chunk);
    RowsConcat(files, [f]);
    assert RowsOf([f]) == chunk by { RowsFirst([f]); assert [f][1..] == [] && RowsOf([]) == []; }
    assert rows[..i+n] == rows[..i] + chunk;
    forall g | g in files ensures g.max < f.min {
      var k :| 0 <= k < |files| && files[k] == g;
      RowIsIn(files, k);
      assert g.rows[|g.rows|-1] in rows[..i];
    }
    RunConcat(files, [f]);
  }

  lemma RowIsIn(files: seq<File>, k: int)
    requires 0 <= k < |files|
    ensures forall r :: r in files[k].rows ==> r in RowsOf(files)
  {
    forall r | r in files[k].rows ensures r in RowsOf(files) {
      assert r in Batches(files)[k];
      InFlatten(Batches(files), r);
    }
  }

  /** The rolling writer: starts a new file after `target` records. */
  method RollFiles(rows: seq<KeyValue>, target: nat) returns (files: seq<File>)
    requires StrictKeys(rows) && target > 0
    ensures Rolled(files, rows)
  {
    files := [];
    var i := 0;
    assert rows[..0] == [] == RowsOf([]);
    while i < |rows|
      invariant 0 <= i <= |rows| && Rolled(files, rows[..i])
    {
      var n := if target < |rows| - i then target else |rows| - i;
      RollNext(files, rows, i, n);
      files := files + [FileOf(rows[i..i+n])];
      i := i + n;
    }
    assert rows[..i] == rows;
  }

  lemma RolledWithin(files: seq<File>, rows: seq<KeyValue>, fs: seq<File>)
    requires Rolled(files, rows) && FilesOk(fs) && forall r :: r in rows ==> r in RowsOf(fs)
    ensures WithinFiles(files, fs)
  {
    forall f | f in files ensures exists lo, hi :: lo in fs && hi in fs && lo.min <= f.min && f.max <= hi.max {
      var k :| 0 <= k < |files| && files[k] == f;
      RowIsIn(files, k);
      var first, last := f.rows[0], f.rows[|f.rows|-1];
      assert first in rows && last in rows;
      var lo := RowOf(fs, first);
      var hi := RowOf(fs, last);
      assert FileOk(lo) && FileOk(hi);
    }
  }

  /** A unit of rewriting: sorted runs over the files `group`. */
  ghost predicate CellOk(runs: seq<seq<File>>, group: seq<File>) {
    RunsOf(runs, group) && group != [] && FilesOk(group)
  }

  /** The units of a compaction, in key order. */
  ghost predicate CellsOk(cells: seq<seq<seq<File>>>, groups: seq<seq<File>>) {
    && |cells| == |groups|
    && (forall i :: 0 <= i < |cells| ==> CellOk(cells[i], groups[i]))
    && (forall i, j :: 0 <= i < j < |groups| ==> Below(groups[i], groups[j]))
  }

  lemma GroupsBelow(groups: seq<seq<File>>, lo: int, mid: int, hi: int)
    requires 0 <= lo <= mid <= hi <= |groups| && forall i, j :: 0 <= i < j < |groups| ==> Below(groups[i], groups[j])
    ensures Below(Flatten(groups[lo..mid]), Flatten(groups[mid..hi]))
  {
    forall f, g | f in Flatten(groups[lo..mid]) && g in Flatten(groups[mid..hi]) ensures f.max < g.min {
      InFlatten(groups[lo..mid], f);
      InFlatten(groups[mid..hi], g);
      var i :| 0 <= i < mid - lo && f in groups[lo..mid][i];
      var j :| 0 <= j < hi - mid && g in groups[mid..hi][j];
      assert Below(groups[lo + i], groups[mid + j]);
    }
  }

  lemma GroupsOk(cells: seq<seq<seq<File>>>, groups: seq<seq<File>>, lo: int, hi: int)
    requires CellsOk(cells, groups) && 0 <= lo <= hi <= |groups|
    ensures FilesOk(Flatten(groups[lo..hi]))
  {
    forall f | f in Flatten(groups[lo..hi]) ensures FileOk(f) {
      InFlatten(groups[lo..hi], f);
      var i :| 0 <= i < hi - lo && f in groups[lo..hi][i];
      assert CellOk(cells[lo + i], groups[lo + i]);
    }
  }

  lemma GroupsJoin(groups: seq<seq<File>>, lo: int, mid: int, hi: int)
    requires 0 <= lo <= mid <= hi <= |groups|
    ensures Flatten(groups[lo..hi]) == Flatten(groups[lo..mid]) + Flatten(groups[mid..hi])
  {
    assert groups[lo..hi] == groups[lo..mid] + groups[mid..hi];
    FlattenConcat(groups[lo..mid], groups[mid..hi]);
  }

  lemma OneGroup(groups: seq<seq<File>>, i: int)
    requires 0 <= i < |groups|
    ensures Flatten(groups[i..i+1]) == groups[i]
  {
    assert groups[i..i+1] == [groups[i]];
    FlattenSnoc([], groups[i]);
    assert [] + [groups[i]] == [groups[i]];
  }

  /** Merges the runs of one unit. */
  method MergeCell(runs: seq<seq<File>>, drop: bool, ghost group: seq<File>) returns (rows: seq<KeyValue>)
    requires CellOk(runs, group)
    ensures Compacts(rows, multiset(RowsOf(group)), drop)
  {
    rows := ReadSection(runs, group);
    if drop {
      DropCompacts(rows, multiset(RowsOf(group)));
      rows := DropDeletes(rows);
    } else {
      LatestCompacts(rows, multiset(RowsOf(group)), drop);
    }
  }

  /** `RewriteImpl`: merges the units one after the other into new files. */
  method RewriteCells(cells: seq<seq<seq<File>>>, drop: bool, target: nat, ghost groups: seq<seq<File>>)
    returns (out: seq<File>)
    requires CellsOk(cells, groups) && target > 0
    ensures Rewritten(out, Flatten(groups), drop)
  {
    var rows: seq<KeyValue> := [];
    NothingRewritten(drop);
    See([], [], drop);
    assert Flatten(groups[0..0]) == [];
    var i := 0;
    while i < |cells|
      invariant 0 <= i <= |cells|
      invariant Compacts(rows, multiset(RowsOf(Flatten(groups[0..i]))), drop)
    {
      var more := MergeCell(cells[i], drop, groups[i]);
      RowsGrow(cells, groups, i);
      CompactsConcat(rows, multiset(RowsOf(Flatten(groups[0..i]))), more, multiset(RowsOf(groups[i])), drop);
      rows := rows + more;
      i := i + 1;
    }
    assert groups[0..i] == groups;
    GroupsOk(cells, groups, 0, |groups|);
    CompactedIn(rows, multiset(RowsOf(Flatten(groups))), drop);
    out := RollFiles(rows, target);
    RolledWithin(out, rows, Flatten(groups));
    assert Delivers(out, Flatten(groups), drop);
  }

  lemma RowsGrow(cells: seq<seq<seq<File>>>, groups: seq<seq<File>>, i: int)
    requires CellsOk(cells, groups) && 0 <= i < |groups|
    ensures var a, b := multiset(RowsOf(Flatten(groups[0..i]))), multiset(RowsOf(groups[i]));
      KeysBelow(a, b) && multiset(RowsOf(Flatten(groups[0..i+1]))) == a + b
  {
    GroupsJoin(groups, 0, i, i + 1);
    GroupsBelow(groups, 0, i, i + 1);
    GroupsOk(cells, groups, 0, i);
    OneGroup(groups, i);
    RowsConcat(Flatten(groups[0..i]), groups[i]);
    assert CellOk(cells[i], groups[i]);
    RowsBelow(Flatten(groups[0..i]), groups[i]);
  }

  /** What the task knows: whether deletions are dropped, the size of a file in records, which files are
      small and are rewritten with their neighbours, whether the output level is the highest, whether
      everything is rewritten, and for which files the number of deletions is recorded. */
  datatype Task = Task(drop: bool, target: nat, isSmall: File -> bool, toMax: bool, force: bool, counted: File -> bool)

  /** Deletions are dropped only on the highest level. */
  ghost predicate TaskOk(t: Task) { t.target > 0 && (t.drop ==> t.toMax) }

  /** `ContainsDeleteRecords`: a file without a count may hold deletions. */
  predicate ContainsDeletes(f: File, t: Task) { !t.counted(f) || HasRetraction(f.rows) }

  lemma KeptFile(f: File, drop: bool)
    requires FileOk(f) && (drop ==> !HasRetraction(f.rows))
    ensures Rewritten([f], [f], drop)
  {
    RowsFirst([f]);
    assert [f][1..] == [] && RowsOf([]) == [];
    assert RowsOf([f]) == f.rows;
    FileCompacts(f.rows, drop);
    assert Delivers([f], [f], drop);
  }

  lemma SingleCell(f: File)
    requires FileOk(f)
    ensures CellOk([[f]], [f]) && CellsOk([[[f]]], [[f]]) && Flatten([[f]]) == [f] && RowsOf([f]) == f.rows
  {
    OneGroup([[f]], 0);
    assert [[f]][0..1] == [[f]];
    RowsFirst([f]);
    assert [f][1..] == [] && RowsOf([]) == [];
  }

  /** A file that is not rewritten for its own sake: it is large, and if it goes to the highest level it is known to
      hold no deletion. */
  ghost predicate Stays(f: File, t: Task) {
    && !t.isSmall(f) && !t.force
    && (t.toMax ==> t.counted(f) && forall i :: 0 <= i < |f.rows| ==> !f.rows[i].retract)
  }

  /** `Upgrade`: the file moves to the output level as it is, or is rewritten alone. */
  method Upgrade(f: File, t: Task) returns (out: seq<File>)
    requires FileOk(f) && TaskOk(t)
    ensures Rewritten(out, [f], t.drop)
    ensures !t.force && (t.toMax ==> t.counted(f) && forall i :: 0 <= i < |f.rows| ==> !f.rows[i].retract) ==>
      out == [f]
  {
    if (t.toMax && ContainsDeletes(f, t)) || t.force {
      SingleCell(f);
      out := RewriteCells([[[f]]], t.drop, t.target, [[f]]);
    } else {
      KeptFile(f, t.drop);
      out := [f];
    }
  }

  /** `Rewrite`: a single run is upgraded file by file, everything else is rewritten. */
  method RewriteCandidate(cells: seq<seq<seq<File>>>, t: Task, ghost groups: seq<seq<File>>) returns (out: seq<File>)
    requires CellsOk(cells, groups) && TaskOk(t)
    ensures Rewritten(out, Flatten(groups), t.drop)
  {
    if cells == [] {
      NothingRewritten(t.drop);
      return [];
    }
    if |cells| == 1 && |cells[0]| == 1 {
      OnlyCell(cells, groups);
      out := UpgradeRun(cells[0][0], t);
      RewrittenPermuted(out, cells[0][0], Flatten(groups), t.drop);
      return;
    }
    out := RewriteCells(cells, t.drop, t.target, groups);
  }

  lemma OnlyCell(cells: seq<seq<seq<File>>>, groups: seq<seq<File>>)
    requires CellsOk(cells, groups) && |cells| == 1 && |cells[0]| == 1
    ensures var run := cells[0][0]; ValidRun(run) && FilesOk(run) && multiset(run) == multiset(Flatten(groups))
  {
    var runs, group := cells[0], groups[0];
    assert CellOk(runs, group);
    OneGroup(groups, 0);
    assert groups[0..1] == groups;
    assert runs == [] + [runs[0]];
    FlattenSnoc([], runs[0]);
    forall f | f in runs[0] ensures f in multiset(group) {}
  }

  lemma WithinPermuted(out: seq<File>, a: seq<File>, b: seq<File>)
    requires WithinFiles(out, a) && multiset(a) == multiset(b)
    ensures WithinFiles(out, b)
  {
    forall f | f in out ensures exists lo, hi :: lo in b && hi in b && lo.min <= f.min && f.max <= hi.max {
      var lo, hi :| lo in a && hi in a && lo.min <= f.min && f.max <= hi.max;
      assert lo in multiset(b) && hi in multiset(b);
    }
  }

  lemma RewrittenPermuted(out: seq<File>, a: seq<File>, b: seq<File>, drop: bool)
    requires Rewritten(out, a, drop) && multiset(a) == multiset(b)
    ensures Rewritten(out, b, drop)
  {
    See(out, a, drop);
    WithinPermuted(out, a, b);
    RowsPermuted(a, b);
    assert Delivers(out, b, drop);
  }

  method UpgradeRun(run: seq<File>, t: Task) returns (out: seq<File>)
    requires TaskOk(t)
    requires ValidRun(run) && FilesOk(run)
    ensures Rewritten(out, run, t.drop)
  {
    out := [];
    NothingRewritten(t.drop);
    var i := 0;
    assert run[..0] == [];
    while i < |run|
      invariant 0 <= i <= |run| && Rewritten(out, run[..i], t.drop)
    {
      assert run[i] in run;
      var more := Upgrade(run[i], t);
      UpgradeNext(run, i, out, more, t.drop);
      out := out + more;
      i := i + 1;
    }
    assert run[..i] == run;
  }

  lemma UpgradeNext(run: seq<File>, i: int, out: seq<File>, more: seq<File>, drop: bool)
    requires ValidRun(run) && FilesOk(run) && 0 <= i < |run|
    requires Rewritten(out, run[..i], drop) && Rewritten(more, [run[i]], drop)
    ensures Rewritten(out + more, run[..i+1], drop)
  {
    PrefixBelow(run, i);
    RewrittenConcat(out, run[..i], more, [run[i]], drop);
    assert run[..i+1] == run[..i] + [run[i]];
  }

  lemma PrefixBelow(run: seq<File>, i: int)
    requires ValidRun(run) && FilesOk(run) && 0 <= i < |run|
    ensures Below(run[..i], [run[i]]) && FilesOk(run[..i]) && FilesOk([run[i]])
  {
    forall f | f in run[..i] ensures f.max < run[i].min {
      var k :| 0 <= k < i && run[k] == f;
      RunApart(run, k, i);
    }
  }

  function FileCells(run: seq<File>): (r: seq<seq<seq<File>>>)
    ensures |r| == |run| && forall i :: 0 <= i < |run| ==> r[i] == [[run[i]]]
  {
    seq(|run|, i requires 0 <= i < |run| => [[run[i]]])
  }

  function FileGroups(run: seq<File>): (r: seq<seq<File>>)
    ensures |r| == |run| && forall i :: 0 <= i < |run| ==> r[i] == [run[i]]
  {
    seq(|run|, i requires 0 <= i < |run| => [run[i]])
  }

  lemma {:induction false} FileGroupsFlat(run: seq<File>)
    ensures Flatten(FileGroups(run)) == run
  {
    if run != [] {
      FileGroupsFlat(run[1..]);
      assert FileGroups(run)[1..] == FileGroups(run[1..]);
      assert run == [run[0]] + run[1..];
    }
  }

  lemma FileCellsOk(run: seq<File>)
    requires ValidRun(run) && FilesOk(run)
    ensures CellsOk(FileCells(run), FileGroups(run))
  {
    forall i | 0 <= i < |run| ensures CellOk(FileCells(run)[i], FileGroups(run)[i]) {
      assert run[i] in run;
      SingleCell(run[i]);
    }
    forall i, j | 0 <= i < j < |run| ensures Below(FileGroups(run)[i], FileGroups(run)[j]) { RunApart(run, i, j); }
  }

  /** The units of one section: overlapping runs together, otherwise file by file. */
  method SectionCells(runs: seq<seq<File>>, ghost group: seq<File>)
    returns (cells: seq<seq<seq<File>>>, ghost groups: seq<seq<File>>)
    requires CellOk(runs, group)
    ensures CellsOk(cells, groups) && multiset(Flatten(groups)) == multiset(group)
    ensures |runs| == 1 && |runs[0]| == 1 ==> runs in cells
  {
    if |runs| == 1 {
      OnlyRun(runs, group);
      cells, groups := FileCells(runs[0]), FileGroups(runs[0]);
      FileCellsOk(runs[0]);
      FileGroupsFlat(runs[0]);
      if |runs[0]| == 1 { assert runs[0] == [runs[0][0]] && runs == [runs[0]] && cells[0] == runs; }
    } else {
      cells, groups := [runs], [group];
      OneGroup([group], 0);
      assert [group][0..1] == [group];
    }
  }

  lemma OnlyRun(runs: seq<seq<File>>, group: seq<File>)
    requires CellOk(runs, group) && |runs| == 1
    ensures ValidRun(runs[0]) && FilesOk(runs[0]) && multiset(runs[0]) == multiset(group)
  {
    assert runs == [] + [runs[0]];
    FlattenSnoc([], runs[0]);
    forall f | f in runs[0] ensures f in multiset(group) {}
  }

  lemma AcrossBelow(ga: seq<seq<File>>, gb: seq<seq<File>>, i: int, j: int)
    requires Below(Flatten(ga), Flatten(gb)) && 0 <= i < |ga| && 0 <= j < |gb|
    ensures Below(ga[i], gb[j])
  {
    forall x, y | x in ga[i] && y in gb[j] ensures x.max < y.min {
      InFlatten(ga, x);
      InFlatten(gb, y);
    }
  }

  lemma BelowAppend(ga: seq<seq<File>>, gb: seq<seq<File>>)
    requires forall i, j :: 0 <= i < j < |ga| ==> Below(ga[i], ga[j])
    requires forall i, j :: 0 <= i < j < |gb| ==> Below(gb[i], gb[j])
    requires Below(Flatten(ga), Flatten(gb))
    ensures forall i, j :: 0 <= i < j < |ga + gb| ==> Below((ga + gb)[i], (ga + gb)[j])
  {
    var g := ga + gb;
    forall i, j | 0 <= i < j < |g| ensures Below(g[i], g[j]) {
      if j < |ga| {
        assert Below(ga[i], ga[j]);
      } else if i < |ga| {
        AcrossBelow(ga, gb, i, j - |ga|);
      } else {
        assert Below(gb[i - |ga|], gb[j - |ga|]);
      }
    }
  }

  lemma CellsAppend(a: seq<seq<seq<File>>>, ga: seq<seq<File>>, b: seq<seq<seq<File>>>, gb: seq<seq<File>>)
    requires CellsOk(a, ga) && CellsOk(b, gb) && Below(Flatten(ga), Flatten(gb))
    ensures CellsOk(a + b, ga + gb)
  {
    BelowAppend(ga, gb);
    var c, g := a + b, ga + gb;
    forall i | 0 <= i < |c| ensures CellOk(c[i], g[i]) { CellAt(a, ga, b, gb, i); }
  }

  lemma CellAt(a: seq<seq<seq<File>>>, ga: seq<seq<File>>, b: seq<seq<seq<File>>>, gb: seq<seq<File>>, i: int)
    requires CellsOk(a, ga) && CellsOk(b, gb) && 0 <= i < |a + b|
    ensures CellOk((a + b)[i], (ga + gb)[i])
  {
    if i < |a| {
      assert (a + b)[i] == a[i] && (ga + gb)[i] == ga[i];
    } else {
      assert (a + b)[i] == b[i - |a|] && (ga + gb)[i] == gb[i - |a|];
    }
  }

  lemma SectionBelow(groups: seq<seq<File>>, i: int, done: seq<File>, next: seq<File>)
    requires SectionsOk(groups) && 0 <= i < |groups|
    requires multiset(done) == multiset(Flatten(groups[..i])) && multiset(next) == multiset(groups[i])
    ensures Below(done, next)
  {
    forall x, y | x in done && y in next ensures x.max < y.min {
      assert x in multiset(Flatten(groups[..i])) && y in multiset(groups[i]);
      InFlatten(groups[..i], x);
      var j :| 0 <= j < i && x in groups[..i][j];
      assert Below(groups[j], groups[i]);
    }
  }

  /** The units of all sections, in key order. */
  method AllCells(sections: seq<seq<seq<File>>>, ghost sectionGroups: seq<seq<File>>)
    returns (cells: seq<seq<seq<File>>>, ghost groups: seq<seq<File>>)
    requires SectionsOk(sectionGroups) && AllSectionRuns(sections, sectionGroups) && FilesOk(Flatten(sectionGroups))
    ensures CellsOk(cells, groups) && multiset(Flatten(groups)) == multiset(Flatten(sectionGroups))
    ensures SolesIn(sections, cells)
  {
    cells, groups := [], [];
    var i := 0;
    assert sectionGroups[..0] == [];
    while i < |sections|
      invariant 0 <= i <= |sections|
      invariant SolesIn(sections[..i], cells)
      invariant CellsOk(cells, groups) && multiset(Flatten(groups)) == multiset(Flatten(sectionGroups[..i]))
    {
      SectionIsCell(sections, sectionGroups, i);
      var more;
      ghost var moreGroups;
      more, moreGroups := SectionCells(sections[i], sectionGroups[i]);
      SectionBelow(sectionGroups, i, Flatten(groups), Flatten(moreGroups));
      CellsAppend(cells, groups, more, moreGroups);
      CellsCount(groups, moreGroups, sectionGroups, i);
      SolesNext(sections, i, cells, more);
      cells, groups := cells + more, groups + moreGroups;
      i := i + 1;
    }
    assert sectionGroups[..i] == sectionGroups && sections[..i] == sections;
  }

  /** A section of one file is a unit. */
  ghost predicate SolesIn(sections: seq<seq<seq<File>>>, cells: seq<seq<seq<File>>>) {
    forall f :: [[f]] in sections ==> [[f]] in cells
  }

  lemma SolesNext(sections: seq<seq<seq<File>>>, i: int, cells: seq<seq<seq<File>>>, more: seq<seq<seq<File>>>)
    requires 0 <= i < |sections| && SolesIn(sections[..i], cells)
    requires |sections[i]| == 1 && |sections[i][0]| == 1 ==> sections[i] in more
    ensures SolesIn(sections[..i+1], cells + more)
  {
    assert sections[..i+1] == sections[..i] + [sections[i]];
  }

  lemma SectionIsCell(sections: seq<seq<seq<File>>>, groups: seq<seq<File>>, i: int)
    requires SectionsOk(groups) && AllSectionRuns(sections, groups) && FilesOk(Flatten(groups)) && 0 <= i < |groups|
    ensures CellOk(sections[i], groups[i])
  {
    assert SectionRuns(sections[i], groups[i]);
    forall f | f in groups[i] ensures FileOk(f) { InFlatten(groups, f); }
  }

  lemma CellsCount(groups: seq<seq<File>>, more: seq<seq<File>>, sectionGroups: seq<seq<File>>, i: int)
    requires 0 <= i < |sectionGroups| && multiset(Flatten(groups)) == multiset(Flatten(sectionGroups[..i]))
    requires multiset(Flatten(more)) == multiset(sectionGroups[i])
    ensures multiset(Flatten(groups + more)) == multiset(Flatten(sectionGroups[..i+1]))
  {
    FlattenConcat(groups, more);
    FlattenNext(sectionGroups, i);
    SameSum(Flatten(groups), Flatten(more), Flatten(sectionGroups[..i]), sectionGroups[i]);
  }

  lemma FlattenNext(groups: seq<seq<File>>, i: int)
    requires 0 <= i < |groups|
    ensures Flatten(groups[..i+1]) == Flatten(groups[..i]) + groups[i]
  {
    assert groups[..i+1] == groups[..i] + [groups[i]];
    FlattenSnoc(groups[..i], groups[i]);
  }

  lemma SameSum(a: seq<File>, b: seq<File>, c: seq<File>, d: seq<File>)
    requires multiset(a) == multiset(c) && multiset(b) == multiset(d)
    ensures multiset(a + b) == multiset(c + d)
  {
  }

  /** A single large file, which ends the stretch of units before it. */
  predicate IsLarge(cell: seq<seq<File>>, t: Task) {
    |cell| == 1 && |cell[0]| == 1 && !t.isSmall(cell[0][0])
  }

  lemma SliceOk(cells: seq<seq<seq<File>>>, groups: seq<seq<File>>, lo: int, hi: int)
    requires CellsOk(cells, groups) && 0 <= lo <= hi <= |cells|
    ensures CellsOk(cells[lo..hi], groups[lo..hi])
  {
    forall i, j | 0 <= i < j < hi - lo ensures Below(groups[lo..hi][i], groups[lo..hi][j]) {
      assert Below(groups[lo + i], groups[lo + j]);
    }
    forall i | 0 <= i < hi - lo ensures CellOk(cells[lo..hi][i], groups[lo..hi][i]) {
      assert CellOk(cells[lo + i], groups[lo + i]);
    }
  }

  lemma StretchDone(out: seq<File>, more: seq<File>, cells: seq<seq<seq<File>>>, groups: seq<seq<File>>, c: int,
                    i: int, drop: bool)
    requires CellsOk(cells, groups) && 0 <= c <= i <= |groups|
    requires Rewritten(out, Flatten(groups[0..c]), drop) && Rewritten(more, Flatten(groups[c..i]), drop)
    ensures Rewritten(out + more, Flatten(groups[0..i]), drop)
  {
    GroupsOk(cells, groups, 0, c);
    GroupsOk(cells, groups, c, i);
    GroupsBelow(groups, 0, c, i);
    GroupsJoin(groups, 0, c, i);
    RewrittenConcat(out, Flatten(groups[0..c]), more, Flatten(groups[c..i]), drop);
  }

  lemma LargeCell(cells: seq<seq<seq<File>>>, groups: seq<seq<File>>, i: int, t: Task)
    requires CellsOk(cells, groups) && 0 <= i < |cells| && IsLarge(cells[i], t)
    ensures var f := cells[i][0][0]; FileOk(f) && multiset([f]) == multiset(Flatten(groups[i..i+1]))
  {
    assert CellOk(cells[i], groups[i]);
    OnlyRun(cells[i], groups[i]);
    OneGroup(groups, i);
    var f := cells[i][0][0];
    assert cells[i][0] == [f];
    assert f in cells[i][0];
  }

  /** Files that stay and are units of their own are in the output. */
  ghost predicate StaysIn(cells: seq<seq<seq<File>>>, t: Task, out: seq<File>) {
    forall f :: [[f]] in cells && Stays(f, t) ==> f in out
  }

  lemma StaysOn(cells: seq<seq<seq<File>>>, t: Task, out: seq<File>, more: seq<File>)
    requires StaysIn(cells, t, out) && out <= more
    ensures StaysIn(cells, t, more)
  {
    assert forall f :: f in out ==> f in more;
  }

  lemma StaysNext(cells: seq<seq<seq<File>>>, i: int, t: Task, out: seq<File>, more: seq<File>)
    requires 0 <= i < |cells| && StaysIn(cells[..i], t, out) && out <= more
    requires IsLarge(cells[i], t) && Stays(cells[i][0][0], t) ==> cells[i][0][0] in more
    ensures StaysIn(cells[..i+1], t, more)
  {
    StaysOn(cells[..i], t, out, more);
    assert cells[..i+1] == cells[..i] + [cells[i]];
  }

  /** Works through the units: large files end a stretch, everything else is collected for rewriting. */
  method CompactCells(cells: seq<seq<seq<File>>>, t: Task, ghost groups: seq<seq<File>>) returns (out: seq<File>)
    requires CellsOk(cells, groups) && TaskOk(t)
    ensures Rewritten(out, Flatten(groups), t.drop)
    ensures StaysIn(cells, t, out)
  {
    out := [];
    NothingRewritten(t.drop);
    assert Flatten(groups[0..0]) == [];
    var c, i := 0, 0;
    while i < |cells|
      invariant 0 <= c <= i <= |cells|
      invariant StaysIn(cells[..i], t, out)
      invariant Rewritten(out, Flatten(groups[0..c]), t.drop)
    {
      ghost var before := out;
      if IsLarge(cells[i], t) {
        out := EndStretch(out, cells, t, c, i, groups);
        out := UpgradeLarge(out, cells, t, i, groups);
        c := i + 1;
      }
      StaysNext(cells, i, t, before, out);
      i := i + 1;
    }
    ghost var before := out;
    out := EndStretch(out, cells, t, c, |cells|, groups);
    assert groups[0..|cells|] == groups && cells[..i] == cells;
    StaysOn(cells, t, before, out);
  }

  /** Rewrites the units collected since unit `c`. */
  method EndStretch(out: seq<File>, cells: seq<seq<seq<File>>>, t: Task, c: int, i: int, ghost groups: seq<seq<File>>)
    returns (out': seq<File>)
    requires CellsOk(cells, groups) && TaskOk(t) && 0 <= c <= i <= |cells|
    requires Rewritten(out, Flatten(groups[0..c]), t.drop)
    ensures Rewritten(out', Flatten(groups[0..i]), t.drop) && out <= out'
  {
    SliceOk(cells, groups, c, i);
    var more := RewriteCandidate(cells[c..i], t, groups[c..i]);
    StretchDone(out, more, cells, groups, c, i, t.drop);
    out' := out + more;
  }

  method UpgradeLarge(out: seq<File>, cells: seq<seq<seq<File>>>, t: Task, i: int, ghost groups: seq<seq<File>>)
    returns (out': seq<File>)
    requires CellsOk(cells, groups) && TaskOk(t) && 0 <= i < |cells| && IsLarge(cells[i], t)
    requires Rewritten(out, Flatten(groups[0..i]), t.drop)
    ensures Rewritten(out', Flatten(groups[0..i+1]), t.drop) && out <= out'
    ensures Stays(cells[i][0][0], t) ==> cells[i][0][0] in out'
  {
    LargeCell(cells, groups, i, t);
    var kept := Upgrade(cells[i][0][0], t);
    RewrittenPermuted(kept, [cells[i][0][0]], Flatten(groups[i..i+1]), t.drop);
    StretchDone(out, kept, cells, groups, i, i + 1, t.drop);
    out' := out + kept;
  }

  /** No other file touches the key range of file `k`. */
  predicate Alone(files: seq<File>, k: int)
    requires 0 <= k < |files|
  {
    forall j :: 0 <= j < |files| && j != k ==> files[j].max < files[k].min || files[k].max < files[j].min
  }

  lemma OnceAlone(files: seq<File>, k: int)
    requires FilesOk(files) && 0 <= k < |files| && Alone(files, k)
    ensures multiset(files)[files[k]] == 1
    ensures forall g :: g in files && g != files[k] ==> g.max < files[k].min || files[k].max < g.min
  {
    var a, b := files[..k], files[k+1..];
    assert files == a + [files[k]] + b && files[k] in files;
    forall g | g in a || g in b ensures g != files[k] {
      if g in a { var j :| 0 <= j < |a| && a[j] == g; assert files[j] == g; }
      if g in b { var j :| 0 <= j < |b| && b[j] == g; assert files[k + 1 + j] == g; }
    }
  }

  lemma Touches(group: seq<File>, p: int)
    requires Ordered(group) && Chained(group) && Intervals(group) && 0 <= p < |group| && |group| > 1
    ensures exists q :: 0 <= q < |group| && q != p && group[q].max >= group[p].min && group[p].max >= group[q].min
  {
    if p > 0 {
      assert Reached(group, p);
      var i :| 0 <= i < p && group[i].max >= group[p].min;
      assert FileLe(group[i], group[p]) && group[p] in group;
    } else {
      assert Reached(group, 1);
      assert FileLe(group[0], group[1]) && group[1] in group;
    }
  }

  lemma CliqueOfOne(clique: seq<File>, f: File)
    requires multiset(clique) <= multiset([f])
    ensures |clique| <= 1
  {
    assert multiset([f]) == multiset(clique) + (multiset([f]) - multiset(clique));
    assert |multiset(clique)| == |clique|;
  }

  lemma SoleSection(runs: seq<seq<File>>, f: File)
    requires SectionRuns(runs, [f])
    ensures runs == [[f]]
  {
    var clique, p :| Clique(clique, p, [f]) && |clique| == |runs|;
    CliqueOfOne(clique, f);
    assert f in multiset(Flatten(runs));
    assert runs == [] + [runs[0]];
    FlattenSnoc([], runs[0]);
    assert |multiset(runs[0])| == |multiset([f])| == 1;
    assert runs[0] == [runs[0][0]] && runs[0][0] in multiset([f]);
  }

  lemma OthersInGroup(group: seq<File>, p: int, f: File)
    requires 0 <= p < |group| && group[p] == f && multiset(group)[f] <= 1
    ensures forall q :: 0 <= q < |group| && q != p ==> group[q] != f
  {
    var a, b := group[..p], group[p+1..];
    assert group == a + [f] + b;
    forall q | 0 <= q < |group| && q != p ensures group[q] != f {
      assert group[q] == if q < p then a[q] else b[q - p - 1];
    }
  }

  lemma GroupWithin(groups: seq<seq<File>>, i: int, f: File)
    requires 0 <= i < |groups|
    ensures multiset(groups[i])[f] <= multiset(Flatten(groups))[f]
  {
    FlattenSplit(groups, i);
  }

  /** A file whose range no other file touches is a section of its own. */
  lemma AloneIsSection(files: seq<File>, groups: seq<seq<File>>, k: int) returns (i: int)
    requires FilesOk(files) && SectionsOk(groups) && multiset(Flatten(groups)) == multiset(files)
    requires 0 <= k < |files| && Alone(files, k)
    ensures 0 <= i < |groups| && groups[i] == [files[k]]
  {
    var f := files[k];
    OnceAlone(files, k);
    assert f in multiset(files) && f in Flatten(groups);
    InFlatten(groups, f);
    i :| 0 <= i < |groups| && f in groups[i];
    AloneInGroup(files, k, groups, i);
  }

  lemma SoleInGroup(group: seq<File>, f: File)
    requires Ordered(group) && Chained(group) && Intervals(group) && f in group && multiset(group)[f] <= 1
    requires forall h :: h in group && h != f ==> h.max < f.min || f.max < h.min
    ensures group == [f]
  {
    var p :| 0 <= p < |group| && group[p] == f;
    OthersInGroup(group, p, f);
    if |group| > 1 {
      Touches(group, p);
    }
  }

  lemma AloneInGroup(files: seq<File>, k: int, groups: seq<seq<File>>, i: int)
    requires FilesOk(files) && SectionsOk(groups) && multiset(Flatten(groups)) == multiset(files)
    requires 0 <= k < |files| && Alone(files, k) && 0 <= i < |groups| && files[k] in groups[i]
    ensures groups[i] == [files[k]]
  {
    OnceAlone(files, k);
    GroupWithin(groups, i, files[k]);
    forall h | h in groups[i] ensures h in files {
      InFlatten(groups, h);
      assert h in multiset(files);
    }
    SoleInGroup(groups[i], files[k]);
  }

  /** The compaction task: the output is one sorted run that holds the latest record of every key. */
  method DoCompact(files: seq<File>, t: Task) returns (out: seq<File>)
    requires FilesOk(files) && TaskOk(t)
    ensures Rewritten(out, files, t.drop)
    ensures forall k :: 0 <= k < |files| && Alone(files, k) && Stays(files[k], t) ==> files[k] in out
  {
    var sections;
    ghost var sectionGroups;
    sections, sectionGroups := Partition(files);
    forall f | f in Flatten(sectionGroups) ensures FileOk(f) { assert f in multiset(files); }
    var cells;
    ghost var groups;
    cells, groups := AllCells(sections, sectionGroups);
    out := CompactCells(cells, t, groups);
    RewrittenPermuted(out, Flatten(groups), files, t.drop);
    forall k | 0 <= k < |files| && Alone(files, k) && Stays(files[k], t) ensures files[k] in out {
      var i := AloneIsSection(files, sectionGroups, k);
      assert SectionRuns(sections[i], sectionGroups[i]);
      SoleSection(sections[i], files[k]);
    }
  }
}
