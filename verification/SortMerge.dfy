/** `SortMergeReaderWithLoserTree` with the deduplicating merge function. */
module SortMergeReaders {
  import opened Records
  import opened Tournament
  import opened LoserTrees

  /** The record that survives a merge of `g`: the last one, retractions aside when they are ignored. */
  function Dedup(ignoreDelete: bool, g: seq<KeyValue>): (r: Option<KeyValue>) {
    if g == [] then None
    else if ignoreDelete && g[|g|-1].retract then Dedup(ignoreDelete, g[..|g|-1])
    else Some(g[|g|-1])
  }

  lemma DedupSnoc(ignoreDelete: bool, g: seq<KeyValue>, kv: KeyValue)
    ensures Dedup(ignoreDelete, g + [kv]) == if ignoreDelete && kv.retract then Dedup(ignoreDelete, g) else Some(kv)
  {
    assert (g + [kv])[..|g|] == g;
  }

  /** A single record is its own merge. */
  function Reduce(ignoreDelete: bool, g: seq<KeyValue>): (r: Option<KeyValue>) {
    if |g| == 1 then Some(g[0]) else Dedup(ignoreDelete, g)
  }

  /** `ReducerMergeFunctionWrapper` around `DeduplicateMergeFunction`. */
  class Reducer {
    const ignoreDelete: bool
    var initialKv: Option<KeyValue>
    var isInitialized: bool
    var latestKv: Option<KeyValue>
    ghost var added: seq<KeyValue>

    ghost predicate Valid() reads this {
      && (isInitialized <==> |added| >= 2)
      && (|added| == 0 ==> initialKv.None?)
      && (|added| >= 1 ==> initialKv.Some?)
      && (|added| == 1 ==> initialKv == Some(added[0]))
      && latestKv == if isInitialized then Dedup(ignoreDelete, added) else None
    }

    constructor (ignoreDelete: bool)
      ensures Valid() && added == [] && this.ignoreDelete == ignoreDelete
    {
      this.ignoreDelete := ignoreDelete;
      initialKv, isInitialized, latestKv, added := None, false, None, [];
    }

    method Reset()
      modifies this
      ensures Valid() && added == []
    {
      initialKv, latestKv, isInitialized, added := None, None, false, [];
    }

    /** `DeduplicateMergeFunction::Add`. */
    method Merge(kv: KeyValue, ghost g: seq<KeyValue>)
      requires latestKv == Dedup(ignoreDelete, g)
      modifies this`latestKv
      ensures latestKv == Dedup(ignoreDelete, g + [kv])
    {
      DedupSnoc(ignoreDelete, g, kv);
      if ignoreDelete && kv.retract { return; }
      latestKv := Some(kv);
    }

    method Add(kv: KeyValue)
      requires Valid()
      modifies this
      ensures Valid() && added == old(added) + [kv]
    {
      if initialKv.None? {
        initialKv := Some(kv);
      } else {
        if !isInitialized {
          Merge(initialKv.value, []);
          isInitialized := true;
          assert [] + [initialKv.value] == added;
        }
        Merge(kv, added);
      }
      added := added + [kv];
    }

    method GetResult() returns (r: Option<KeyValue>)
      requires Valid()
      modifies this
      ensures Valid() && added == []
      ensures r == Reduce(ignoreDelete, old(added))
    {
      if isInitialized { r := latestKv; } else { r := initialKv; }
      Reset();
    }
  }

  /** All records of one key, in the order the merge function sees them. */
  ghost predicate KeyGroup(g: seq<KeyValue>) {
    g != [] && SortedRecs(g) && forall e :: e in g ==> e.key == g[0].key
  }

  lemma ExtendGroup(g: seq<KeyValue>, e: KeyValue)
    requires g == [] || (KeyGroup(g) && RecLe(g[|g|-1], e) && e.key == g[0].key)
    ensures KeyGroup(g + [e])
  {
    var h := g + [e];
    forall i, j | 0 <= i < j < |h| ensures RecLe(h[i], h[j]) {
      if j == |g| && i < |g| - 1 { assert RecLe(g[i], g[|g|-1]); }
    }
  }

  /** The groups of a whole run: keys strictly increase. */
  ghost predicate KeyGroups(gs: seq<seq<KeyValue>>) {
    && (forall i :: 0 <= i < |gs| ==> KeyGroup(gs[i]))
    && (forall i, j :: 0 <= i < j < |gs| ==> gs[i][0].key < gs[j][0].key)
  }

  /** What the merge function makes of the groups. */
  function Results(ignoreDelete: bool, gs: seq<seq<KeyValue>>): (r: seq<KeyValue>) {
    if gs == [] then []
    else
      var m := Reduce(ignoreDelete, gs[|gs|-1]);
      Results(ignoreDelete, gs[..|gs|-1]) + if m.Some? then [m.value] else []
  }

  class SortMergeReader {
    const tree: LoserTree
    const merge: Reducer

    constructor (tree: LoserTree, merge: Reducer)
      ensures this.tree == tree && this.merge == merge
    {
      this.tree := tree;
      this.merge := merge;
    }

    /** Between two keys. */
    ghost predicate Valid() reads this, tree, merge {
      tree.Valid() && tree.initialized && merge.Valid() && !tree.phase.Open?
    }

    /** `group` holds the records taken in this round, and nothing smaller is left. */
    ghost predicate InRound(group: seq<KeyValue>) reads this, tree, merge {
      && tree.Valid() && tree.initialized && merge.Valid() && merge.added == group
      && KeyGroup(group) && LeastOf(group[|group|-1], tree.held)
      && (tree.phase == Open(group[0].key)
          || (tree.phase == Closed(Some(group[0].key)) && AllAbove(tree.held, group[0].key)))
    }

    /** One record of the current round goes to the merge function. */
    method TakeOne(ghost group: seq<KeyValue>) returns (winner: Option<KeyValue>, ghost bigger: seq<KeyValue>)
      requires tree.Valid() && tree.initialized && merge.Valid() && merge.added == group
      requires if group == [] then tree.phase.Fresh? else InRound(group) && tree.phase.Open?
      modifies tree, merge
      ensures winner.None? ==> tree.Valid() && tree.initialized && merge.Valid() && group == []
      ensures winner.None? ==> old(tree.held) == tree.held == multiset{} && tree.phase.Closed?
      ensures winner.Some? ==> bigger == group + [winner.value] && InRound(bigger)
      ensures winner.Some? ==> old(tree.held) == tree.held + multiset{winner.value}
    {
      winner := tree.PopWinner();
      bigger := group;
      if winner.Some? {
        merge.Add(winner.value);
        bigger := group + [winner.value];
        if group != [] { assert winner.value in old(tree.held); }
        ExtendGroup(group, winner.value);
      }
    }

    /** Takes every record of the least key. */
    method NextGroup() returns (found: bool, result: Option<KeyValue>, ghost group: seq<KeyValue>)
      requires Valid()
      modifies tree, merge
      ensures Valid()
      ensures !found ==> tree.held == old(tree.held) == multiset{}
      ensures found ==> KeyGroup(group) && AllAbove(tree.held, group[0].key)
      ensures found ==> old(tree.held) == multiset(group) + tree.held
      ensures found ==> result == Reduce(merge.ignoreDelete, group)
    {
      tree.AdjustForNextLoop();
      merge.Reset();
      found, result, group := false, None, [];
      ghost var start := tree.held;
      var winner: Option<KeyValue>;
      winner, group := TakeOne([]);
      if winner.None? {
        return;
      }
      found := true;
      group := TakeRest(group);
      result := merge.GetResult();
    }

    /** Takes the records of the round's key that are left. */
    method TakeRest(ghost first: seq<KeyValue>) returns (ghost group: seq<KeyValue>)
      requires InRound(first)
      modifies tree, merge
      ensures InRound(group) && tree.phase.Closed? && multiset(first) + old(tree.held) == multiset(group) + tree.held
    {
      group := first;
      var peek := tree.PeekWinner();
      while peek.Some?
        invariant InRound(group) && multiset(first) + old(tree.held) == multiset(group) + tree.held
        invariant peek.Some? <==> tree.phase.Open?
        decreases |tree.held|
      {
        ghost var before := group;
        var winner;
        winner, group := TakeOne(group);
        assert multiset(group) == multiset(before) + multiset{winner.value};
        peek := tree.PeekWinner();
      }
    }

    /** `HasNext` and `Next`: the next merged record. Keys whose merge yields nothing are skipped. */
    method HasNext() returns (result: Option<KeyValue>, ghost groups: seq<seq<KeyValue>>)
      requires Valid()
      modifies tree, merge
      ensures Valid() && Taken(groups, old(tree.held), tree.held)
      ensures result.None? ==> tree.held == multiset{} && Results(merge.ignoreDelete, groups) == []
      ensures result.Some? ==> Results(merge.ignoreDelete, groups) == [result.value] && |tree.held| < |old(tree.held)|
    {
      result, groups := None, [];
      while true
        invariant Valid() && Taken(groups, old(tree.held), tree.held) && result == None
        invariant Results(merge.ignoreDelete, groups) == [] && |tree.held| <= |old(tree.held)|
        decreases |tree.held|
      {
        ghost var before := tree.held;
        var found: bool;
        ghost var group;
        found, result, group := NextGroup();
        if !found {
          return None, groups;
        }
        AppendGroup(merge.ignoreDelete, groups, group, old(tree.held), before, tree.held);
        groups := groups + [group];
        if result.Some? {
          return;
        }
      }
    }

    /** Drains the reader. */
    method ReadAll() returns (out: seq<KeyValue>, ghost groups: seq<seq<KeyValue>>)
      requires Valid()
      modifies tree, merge
      ensures KeyGroups(groups) && multiset(Flatten(groups)) == old(tree.held)
      ensures out == Results(merge.ignoreDelete, groups)
    {
      out, groups := [], [];
      var done := false;
      while !done
        invariant Valid() && Taken(groups, old(tree.held), tree.held)
        invariant out == Results(merge.ignoreDelete, groups)
        invariant done ==> tree.held == multiset{}
        decreases |tree.held|, !done
      {
        ghost var before := tree.held;
        var next: Option<KeyValue>;
        ghost var more;
        next, more := HasNext();
        AppendGroups(merge.ignoreDelete, groups, more, old(tree.held), before, tree.held);
        groups := groups + more;
        if next.Some? {
          out := out + [next.value];
        } else {
          done := true;
        }
      }
    }
  }

  /** `groups` were taken from `start`, in order of their keys, and `left` is what is left. */
  ghost predicate Taken(groups: seq<seq<KeyValue>>, start: multiset<KeyValue>, left: multiset<KeyValue>) {
    && KeyGroups(groups) && start == multiset(Flatten(groups)) + left
    && (groups != [] ==> AllAbove(left, groups[|groups|-1][0].key))
  }

  lemma {:induction false} ResultsConcat(ignoreDelete: bool, a: seq<seq<KeyValue>>, b: seq<seq<KeyValue>>)
    ensures Results(ignoreDelete, a + b) == Results(ignoreDelete, a) + Results(ignoreDelete, b)
  {
    if b == [] {
      assert a + b == a;
    } else {
      assert (a + b)[..|a+b|-1] == a + b[..|b|-1];
      ResultsConcat(ignoreDelete, a, b[..|b|-1]);
    }
  }

  lemma GroupsInOrder(gs: seq<seq<KeyValue>>, hs: seq<seq<KeyValue>>)
    requires KeyGroups(gs) && KeyGroups(hs)
    requires gs != [] ==> forall j :: 0 <= j < |hs| ==> hs[j] != [] && gs[|gs|-1][0].key < hs[j][0].key
    ensures KeyGroups(gs + hs)
  {
    var ks: seq<seq<KeyValue>> := gs + hs;
    forall i | 0 <= i < |ks| ensures KeyGroup(ks[i]) {
      if i < |gs| { assert ks[i] == gs[i]; } else { assert ks[i] == hs[i - |gs|]; }
    }
    forall i, j | 0 <= i < j < |ks| ensures ks[i][0].key < ks[j][0].key {
      if i < |gs| {
        assert ks[i] == gs[i];
        if j >= |gs| {
          assert ks[j] == hs[j - |gs|];
          assert i < |gs| - 1 ==> gs[i][0].key < gs[|gs|-1][0].key;
        }
      }
    }
  }

  lemma LaterGroups(hs: seq<seq<KeyValue>>, before: multiset<KeyValue>, left: multiset<KeyValue>, k: int)
    requires Taken(hs, before, left) && AllAbove(before, k)
    ensures forall j :: 0 <= j < |hs| ==> hs[j] != [] && k < hs[j][0].key
    ensures AllAbove(left, k)
  {
    forall j | 0 <= j < |hs| ensures hs[j] != [] && k < hs[j][0].key {
      assert KeyGroup(hs[j]);
      assert hs[j][0] in hs[j];
      InFlatten(hs, hs[j][0]);
      assert hs[j][0] in before;
    }
  }

  lemma AppendTaken(gs: seq<seq<KeyValue>>, hs: seq<seq<KeyValue>>,
                    start: multiset<KeyValue>, before: multiset<KeyValue>, left: multiset<KeyValue>)
    requires Taken(gs, start, before) && Taken(hs, before, left)
    ensures Taken(gs + hs, start, left)
  {
    if gs != [] { LaterGroups(hs, before, left, gs[|gs|-1][0].key); }
    GroupsInOrder(gs, hs);
    FlattenConcat(gs, hs);
    if hs == [] { assert gs + hs == gs; } else { assert (gs + hs)[|gs + hs|-1] == hs[|hs|-1]; }
  }

  lemma AppendGroups(ignoreDelete: bool, gs: seq<seq<KeyValue>>, hs: seq<seq<KeyValue>>,
                     start: multiset<KeyValue>, before: multiset<KeyValue>, left: multiset<KeyValue>)
    requires Taken(gs, start, before) && Taken(hs, before, left)
    ensures Taken(gs + hs, start, left)
    ensures Results(ignoreDelete, gs + hs) == Results(ignoreDelete, gs) + Results(ignoreDelete, hs)
  {
    ResultsConcat(ignoreDelete, gs, hs);
    AppendTaken(gs, hs, start, before, left);
  }

  lemma AppendGroup(ignoreDelete: bool, gs: seq<seq<KeyValue>>, g: seq<KeyValue>,
                    start: multiset<KeyValue>, before: multiset<KeyValue>, left: multiset<KeyValue>)
    requires Taken(gs, start, before) && KeyGroup(g) && before == multiset(g) + left && AllAbove(left, g[0].key)
    ensures Taken(gs + [g], start, left)
    ensures var m := Reduce(ignoreDelete, g);
      Results(ignoreDelete, gs + [g]) == Results(ignoreDelete, gs) + if m.Some? then [m.value] else []
  {
    FlattenSnoc([], g);
    assert [] + [g] == [g];
    assert KeyGroups([g]) && Taken([g], before, left);
    AppendTaken(gs, [g], start, before, left);
    assert (gs + [g])[..|gs|] == gs;
  }
}
