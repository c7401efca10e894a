/** What a merge read means, independently of how it is computed. */
module Latest {
  import opened Records

  /** `out` lists, by increasing key, the latest record of every key of `recs`. */
  ghost predicate LatestPerKey(out: seq<KeyValue>, recs: multiset<KeyValue>) {
    && StrictKeys(out)
    && (forall e :: e in out ==> e in recs)
    && (forall r :: r in recs ==> Covered(r, out))
  }

  /** `out` holds a record of `r`'s key that is no older than `r`. */
  ghost predicate Covered(r: KeyValue, out: seq<KeyValue>) {
    exists i :: 0 <= i < |out| && out[i].key == r.key && SeqLe(r, out[i])
  }

  /** No two records of one key carry the same sequence. */
  ghost predicate NoTies(recs: multiset<KeyValue>) {
    forall a, b :: a in recs && b in recs && a.key == b.key && a.userSeq == b.userSeq && a.seqNo == b.seqNo ==> a == b
  }

  /** The record of a key in one list is no older than the record of that key in the other. */
  lemma NoOlder(o: seq<KeyValue>, p: seq<KeyValue>, recs: multiset<KeyValue>, k: int) returns (j: int)
    requires LatestPerKey(o, recs) && LatestPerKey(p, recs) && 0 <= k < |o|
    ensures 0 <= j < |p| && p[j].key == o[k].key && SeqLe(o[k], p[j])
  {
    assert o[k] in recs && Covered(o[k], p);
    j :| 0 <= j < |p| && p[j].key == o[k].key && SeqLe(o[k], p[j]);
  }

  lemma SameElement(o: seq<KeyValue>, p: seq<KeyValue>, recs: multiset<KeyValue>, k: int)
    requires LatestPerKey(o, recs) && LatestPerKey(p, recs) && NoTies(recs) && 0 <= k < |o|
    ensures o[k] in p
  {
    var j := NoOlder(o, p, recs, k);
    var i := NoOlder(p, o, recs, j);
    assert i == k;
    assert o[k] in recs && p[j] in recs;
  }

  lemma SameElements(o: seq<KeyValue>, p: seq<KeyValue>, recs: multiset<KeyValue>)
    requires LatestPerKey(o, recs) && LatestPerKey(p, recs) && NoTies(recs)
    ensures forall e :: e in o ==> e in p
  {
    forall k | 0 <= k < |o| ensures o[k] in p { SameElement(o, p, recs, k); }
  }

  /** Lists with strictly increasing keys and the same elements are equal. */
  lemma {:induction false} SortedSame(o: seq<KeyValue>, p: seq<KeyValue>)
    requires StrictKeys(o) && StrictKeys(p)
    requires forall e :: e in o <==> e in p
    ensures o == p
  {
    assert p != [] ==> p[0] in p;
    assert o != [] ==> o[0] in o;
    if o != [] {
      assert o[0] in p && p[0] in o;
      assert o[0] == p[0];
      var a, b := o[1..], p[1..];
      forall e ensures e in a <==> e in b {
        if e in a { assert e in p; }
        if e in b { assert e in o; }
      }
      SortedSame(a, b);
    }
  }

  /** A merge read depends only on the records, not on the runs that hold them. */
  lemma LatestUnique(o: seq<KeyValue>, p: seq<KeyValue>, recs: multiset<KeyValue>)
    requires LatestPerKey(o, recs) && LatestPerKey(p, recs) && NoTies(recs)
    ensures o == p
  {
    SameElements(o, p, recs);
    SameElements(p, o, recs);
    SortedSame(o, p);
  }

  lemma SeqLeTrans(a: KeyValue, b: KeyValue, c: KeyValue)
    requires SeqLe(a, b) && SeqLe(b, c)
    ensures SeqLe(a, c)
  {
  }
}

/** The merge read of a set of sorted runs. */
module MergeRead {
  import opened Records
  import opened Tournament
  import opened LoserTrees
  import opened SortMergeReaders
  import opened Latest

  lemma {:induction false} ResultsIn(gs: seq<seq<KeyValue>>)
    requires KeyGroups(gs)
    ensures |Results(false, gs)| == |gs|
    ensures forall i :: 0 <= i < |gs| ==> gs[i] != [] && Results(false, gs)[i] == gs[i][|gs[i]|-1]
  {
    if gs != [] {
      var hs := gs[..|gs|-1];
      ResultsIn(hs);
      assert KeyGroup(gs[|gs|-1]);
    }
  }

  lemma ResultBelongs(gs: seq<seq<KeyValue>>, i: int)
    requires KeyGroups(gs) && 0 <= i < |gs|
    ensures |Results(false, gs)| == |gs| && gs[i] != []
    ensures Results(false, gs)[i] in gs[i] && Results(false, gs)[i].key == gs[i][0].key
    ensures Results(false, gs)[i] in Flatten(gs)
  {
    ResultsIn(gs);
    assert KeyGroup(gs[i]);
    InFlatten(gs, gs[i][|gs[i]|-1]);
  }

  lemma ResultCovers(gs: seq<seq<KeyValue>>, r: KeyValue)
    requires KeyGroups(gs) && r in Flatten(gs)
    ensures Covered(r, Results(false, gs))
  {
    InFlatten(gs, r);
    var i :| 0 <= i < |gs| && r in gs[i];
    ResultsIn(gs);
    assert KeyGroup(gs[i]);
    LastCovers(gs[i], r);
    assert Results(false, gs)[i].key == r.key && SeqLe(r, Results(false, gs)[i]);
  }

  lemma GroupsGiveLatest(gs: seq<seq<KeyValue>>)
    requires KeyGroups(gs)
    ensures LatestPerKey(Results(false, gs), multiset(Flatten(gs)))
  {
    ResultsIn(gs);
    var out := Results(false, gs);
    assert StrictKeys(out) by {
      forall i, j | 0 <= i < j < |out| ensures out[i].key < out[j].key {
        ResultBelongs(gs, i);
        ResultBelongs(gs, j);
      }
    }
    forall i | 0 <= i < |out| ensures out[i] in Flatten(gs) { ResultBelongs(gs, i); }
    forall r | r in Flatten(gs) ensures Covered(r, out) { ResultCovers(gs, r); }
  }

  lemma LastCovers(g: seq<KeyValue>, r: KeyValue)
    requires KeyGroup(g) && r in g
    ensures r.key == g[0].key && g[|g|-1].key == r.key && SeqLe(r, g[|g|-1])
  {
    var j :| 0 <= j < |g| && g[j] == r;
    assert g[|g|-1] in g;
    if j < |g| - 1 { assert RecLe(g[j], g[|g|-1]); }
  }

  /** With `ignoreDelete` a retraction survives exactly when it is the only record of its key. */
  lemma {:induction false} IgnoredDeletes(g: seq<KeyValue>)
    requires g != []
    ensures var m := Reduce(true, g); m.Some? && m.value.retract <==> |g| == 1 && g[0].retract
  {
    if |g| > 1 { DedupKeepsAdds(g); }
  }

  lemma {:induction false} DedupKeepsAdds(g: seq<KeyValue>)
    ensures Dedup(true, g).Some? ==> !Dedup(true, g).value.retract && Dedup(true, g).value in g
    ensures Dedup(true, g).None? <==> forall e :: e in g ==> e.retract
  {
    if g != [] && g[|g|-1].retract {
      var h := g[..|g|-1];
      DedupKeepsAdds(h);
      assert g == h + [g[|g|-1]];
    }
  }

  /** Of the records that are not retractions the last one survives. */
  lemma {:induction false} DedupCovers(g: seq<KeyValue>, e: KeyValue)
    requires SortedRecs(g) && (forall d :: d in g ==> d.key == e.key) && e in g && !e.retract
    ensures var m := Dedup(true, g);
      m.Some? && (e.userSeq < m.value.userSeq || (e.userSeq == m.value.userSeq && e.seqNo <= m.value.seqNo))
  {
    var front, last := g[..|g|-1], g[|g|-1];
    assert g == front + [last];
    if last.retract {
      DedupCovers(front, e);
    } else {
      var j :| 0 <= j < |g| && g[j] == e;
      if j < |g| - 1 { assert RecLe(g[j], last); }
    }
  }

  lemma ReduceIgnores(g: seq<KeyValue>)
    requires KeyGroup(g)
    ensures var m := Reduce(true, g);
      && (m.Some? ==> m.value in g)
      && (forall e :: e in g && !e.retract ==> m.Some? && !m.value.retract && NoLater(e, m.value))
  {
    DedupKeepsAdds(g);
    forall e | e in g && !e.retract
      ensures var m := Reduce(true, g); m.Some? && !m.value.retract && NoLater(e, m.value)
    {
      DedupCovers(g, e);
    }
  }

  predicate NoLater(a: KeyValue, b: KeyValue) {
    a.userSeq < b.userSeq || (a.userSeq == b.userSeq && a.seqNo <= b.seqNo)
  }

  lemma {:induction false} ResultOf(gs: seq<seq<KeyValue>>, r: KeyValue) returns (i: int)
    requires r in Results(true, gs)
    ensures 0 <= i < |gs| && Reduce(true, gs[i]) == Some(r)
  {
    var front := gs[..|gs|-1];
    if r in Results(true, front) {
      i := ResultOf(front, r);
    } else {
      i := |gs| - 1;
    }
  }

  lemma {:induction false} HasResult(gs: seq<seq<KeyValue>>, i: int)
    requires 0 <= i < |gs| && Reduce(true, gs[i]).Some?
    ensures Reduce(true, gs[i]).value in Results(true, gs)
  {
    if i < |gs| - 1 { HasResult(gs[..|gs|-1], i); }
  }

  lemma {:induction false} ResultsStrict(gs: seq<seq<KeyValue>>)
    requires KeyGroups(gs)
    ensures StrictKeys(Results(true, gs))
    ensures forall r :: r in Results(true, gs) ==> gs != [] && r.key <= gs[|gs|-1][0].key
  {
    if gs != [] {
      var front, g := gs[..|gs|-1], gs[|gs|-1];
      ResultsStrict(front);
      assert KeyGroup(g);
      ReduceIgnores(g);
      var a := Results(true, front);
      forall i | 0 <= i < |a| ensures a[i].key < g[0].key { assert a[i] in a; }
    }
  }

  /** No addition of `recs` comes behind `r`. */
  ghost predicate Beats(r: KeyValue, recs: multiset<KeyValue>) {
    forall e :: e in recs && e.key == r.key && !e.retract ==>
      !r.retract && (e.userSeq < r.userSeq || (e.userSeq == r.userSeq && e.seqNo <= r.seqNo))
  }

  /** `out` holds, by increasing key, records of `recs` that no addition of their key comes behind, and one for every
      key that has an addition. */
  ghost predicate LatestAdds(out: seq<KeyValue>, recs: multiset<KeyValue>) {
    && StrictKeys(out)
    && (forall r :: r in out ==> r in recs && Beats(r, recs))
    && (forall e :: e in recs && !e.retract ==> Mentions(out, e.key))
  }

  lemma GroupOfRecord(gs: seq<seq<KeyValue>>, e: KeyValue) returns (i: int)
    requires KeyGroups(gs) && e in Flatten(gs)
    ensures 0 <= i < |gs| && e in gs[i] && KeyGroup(gs[i])
  {
    InFlatten(gs, e);
    i :| 0 <= i < |gs| && e in gs[i];
  }

  lemma SameGroup(gs: seq<seq<KeyValue>>, i: int, j: int, a: KeyValue, b: KeyValue)
    requires KeyGroups(gs) && 0 <= i < |gs| && 0 <= j < |gs| && a in gs[i] && b in gs[j] && a.key == b.key
    ensures i == j
  {
    assert KeyGroup(gs[i]) && KeyGroup(gs[j]);
  }

  lemma ResultBeats(gs: seq<seq<KeyValue>>, r: KeyValue, e: KeyValue)
    requires KeyGroups(gs) && r in Results(true, gs) && e in Flatten(gs) && e.key == r.key && !e.retract
    ensures !r.retract && NoLater(e, r)
  {
    var i := ResultOf(gs, r);
    assert KeyGroup(gs[i]);
    ReduceIgnores(gs[i]);
    var j := GroupOfRecord(gs, e);
    SameGroup(gs, i, j, r, e);
  }

  lemma ResultFound(gs: seq<seq<KeyValue>>, e: KeyValue)
    requires KeyGroups(gs) && e in Flatten(gs) && !e.retract
    ensures Mentions(Results(true, gs), e.key)
  {
    var j := GroupOfRecord(gs, e);
    ReduceIgnores(gs[j]);
    HasResult(gs, j);
    var r := Reduce(true, gs[j]).value;
    assert r.key == e.key && r in Results(true, gs);
  }

  lemma ResultWithin(gs: seq<seq<KeyValue>>, r: KeyValue)
    requires KeyGroups(gs) && r in Results(true, gs)
    ensures r in Flatten(gs)
  {
    var i := ResultOf(gs, r);
    assert KeyGroup(gs[i]);
    ReduceIgnores(gs[i]);
    InFlatten(gs, r);
  }

  lemma ResultBeatsAll(gs: seq<seq<KeyValue>>, r: KeyValue)
    requires KeyGroups(gs) && r in Results(true, gs)
    ensures r in Flatten(gs) && Beats(r, multiset(Flatten(gs)))
  {
    ResultWithin(gs, r);
    forall e | e in Flatten(gs) && e.key == r.key && !e.retract ensures !r.retract && NoLater(e, r) {
      ResultBeats(gs, r, e);
    }
  }

  lemma GroupsGiveAdds(gs: seq<seq<KeyValue>>)
    requires KeyGroups(gs)
    ensures LatestAdds(Results(true, gs), multiset(Flatten(gs)))
  {
    ResultsStrict(gs);
    forall r | r in Results(true, gs) ensures r in Flatten(gs) && Beats(r, multiset(Flatten(gs))) {
      ResultBeatsAll(gs, r);
    }
    forall e | e in Flatten(gs) && !e.retract ensures Mentions(Results(true, gs), e.key) { ResultFound(gs, e); }
  }

  /** Merges sorted inputs: each input is a list of batches whose records have increasing keys. */
  method MergeRuns(readers: seq<seq<seq<KeyValue>>>, ignoreDelete: bool)
    returns (out: seq<KeyValue>, ghost groups: seq<seq<KeyValue>>)
    requires |readers| > 0
    requires forall i :: 0 <= i < |readers| ==> StrictKeys(Flatten(readers[i]))
    ensures KeyGroups(groups) && multiset(Flatten(groups)) == multiset(Flatten(FlatAll(readers)))
    ensures out == Results(ignoreDelete, groups)
    ensures !ignoreDelete ==> LatestPerKey(out, multiset(Flatten(FlatAll(readers))))
    ensures ignoreDelete ==> LatestAdds(out, multiset(Flatten(FlatAll(readers))))
  {
    var tree := new LoserTree(readers);
    tree.InitializeIfNeeded();
    var merge := new Reducer(ignoreDelete);
    var reader := new SortMergeReader(tree, merge);
    out, groups := reader.ReadAll();
    GroupsGiveLatest(groups);
    GroupsGiveAdds(groups);
  }
}
