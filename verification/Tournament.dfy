/** The tournament ("loser") tree that merges sorted runs: the ghost view of a partly built
    tournament, and what one settled match does to it. */
module Tournament {
  import opened Records

  datatype State = LoserNew | LoserSame | LoserPopped | WinnerNew | WinnerSame | WinnerPopped

  /** One input of the merge: the record it offers and what its reader still holds. */
  datatype Leaf = Leaf(kv: Option<KeyValue>, state: State, firstSame: int,
                       batch: seq<KeyValue>, batches: seq<seq<KeyValue>>, ended: bool)

  /** The key being popped in the current round. `Round(None)` is the round after the last record. */
  datatype Cur = NoRound | Round(key: Option<int>)

  /** A tournament over `|leaves|` inputs. Node `m` has the children `2m` and `2m + 1`, leaf `j` is
      node `|leaves| + j`, and `tree[m]` is the input that lost at `m`.
      Beside the source's two vectors: `win[d]` is the winner of the subtree at `d`, `full[d]` says
      that subtree is settled, and `home[j]` is the node input `j` lost at, or 0. */
  datatype View = View(tree: seq<int>, leaves: seq<Leaf>, win: seq<int>, full: seq<bool>,
                       home: seq<int>, cur: Cur)

  predicate IsPopped(l: Leaf) {
    l.state.LoserPopped? || l.state.WinnerPopped?
  }

  predicate IsWinner(s: State) {
    s.WinnerNew? || s.WinnerSame? || s.WinnerPopped?
  }

  ghost predicate Shape(v: View) {
    var n := |v.leaves|;
    && n > 0 && |v.tree| == n && |v.win| == 2 * n && |v.full| == 2 * n && |v.home| == n
    && (forall d :: 1 <= d < 2 * n ==> 0 <= v.win[d] < n)
    && (forall d :: n <= d < 2 * n ==> v.win[d] == d - n)
    && (forall m :: 0 <= m < n ==> -1 <= v.tree[m] < n)
    && (forall j :: 0 <= j < n ==> 0 <= v.home[j] < n)
  }

  /** Input `a` may stay ahead of input `b`. An input already popped in this round comes after
      every unpopped input of the round's key and before every larger key. */
  ghost predicate Ahead(a: Leaf, b: Leaf, cur: Cur) {
    if IsPopped(a) then
      IsPopped(b) || b.kv.None?
      || (cur.Round? && cur.key.Some? && cur.key.value < b.kv.value.key)
    else if IsPopped(b) then
      a.kv.Some? && cur.Round? && (cur.key.None? || a.kv.value.key <= cur.key.value)
    else
      b.kv.None? || (a.kv.Some? && RecLe(a.kv.value, b.kv.value))
  }

  lemma AheadTrans(a: Leaf, b: Leaf, c: Leaf, cur: Cur)
    requires Ahead(a, b, cur) && Ahead(b, c, cur)
    ensures Ahead(a, c, cur)
  {
  }

  predicate SameKey(a: Leaf, b: Leaf) {
    && !IsPopped(a) && !IsPopped(b)
    && a.kv.Some? && b.kv.Some? && a.kv.value.key == b.kv.value.key
  }

  function LoserLabel(loser: Leaf, winner: Leaf): State {
    if IsPopped(loser) then LoserPopped else if SameKey(loser, winner) then LoserSame else LoserNew
  }

  /** The label of an input that waits for its opponent. */
  function WaitLabel(l: Leaf, cur: Cur): State {
    if IsPopped(l) then LoserPopped
    else if l.kv.Some? && cur == Round(Some(l.kv.value.key)) then LoserSame
    else LoserNew
  }

  ghost predicate SameAt(v: View, m: int)
    requires Shape(v) && 1 <= m < |v.leaves|
  {
    && 0 <= v.tree[m] && SameKey(v.leaves[v.tree[m]], v.leaves[v.win[m]])
  }

  /** Node `m` is a settled match. */
  ghost predicate Settled(v: View, m: int)
    requires Shape(v) && 1 <= m < |v.leaves|
  {
    && 0 <= v.tree[m]
    && ((v.win[m] == v.win[2*m] && v.tree[m] == v.win[2*m+1])
        || (v.win[m] == v.win[2*m+1] && v.tree[m] == v.win[2*m]))
    && Ahead(v.leaves[v.win[m]], v.leaves[v.tree[m]], v.cur)
    && v.leaves[v.tree[m]].state == LoserLabel(v.leaves[v.tree[m]], v.leaves[v.win[m]])
    && v.home[v.tree[m]] == m
  }

  /** The winner of subtree `d` waits at node `m`. */
  ghost predicate Waits(v: View, m: int, d: int)
    requires Shape(v) && 1 <= m < |v.leaves| && 1 <= d < 2 * |v.leaves|
  {
    && v.tree[m] == v.win[d]
    && v.leaves[v.tree[m]].state == WaitLabel(v.leaves[v.tree[m]], v.cur)
    && v.home[v.tree[m]] == m
  }

  ghost predicate NodeInv(v: View, m: int)
    requires Shape(v) && 1 <= m < |v.leaves|
  {
    && (v.full[m] <==> v.full[2*m] && v.full[2*m+1])
    && (v.full[m] ==> Settled(v, m))
    && (!v.full[2*m] && !v.full[2*m+1] ==> v.tree[m] == -1)
    && (v.full[2*m] && !v.full[2*m+1] ==> Waits(v, m, 2*m))
    && (!v.full[2*m] && v.full[2*m+1] ==> Waits(v, m, 2*m+1))
  }

  function Sibling(d: int): int { if d % 2 == 0 then d + 1 else d - 1 }

  lemma SiblingOf(m: int)
    ensures Sibling(2 * m) == 2 * m + 1 && Sibling(2 * m + 1) == 2 * m
    ensures (2 * m) / 2 == m && (2 * m + 1) / 2 == m
  {
  }

  /** Every node is in order but the parent of `child`, where the winner of `child` has arrived and
      has not played yet. `child <= 1` says that every node is in order. */
  ghost predicate Nodes(v: View, child: int) {
    && Shape(v)
    && 0 <= child < 2 * |v.leaves|
    && (forall m :: 1 <= m < |v.leaves| && m != child / 2 ==> NodeInv(v, m))
    && (forall d :: 1 <= d < 2 * |v.leaves| && v.full[d] ==> v.home[v.win[d]] < d)
    && (child >= 1 ==>
          var w := v.win[child];
          && v.full[child] && v.home[w] == 0
          && (forall d :: 1 <= d < 2 * |v.leaves| && v.full[d] && v.win[d] == w ==> d >= child))
    && (child >= 2 ==>
          var m, s := child / 2, Sibling(child);
          && !v.full[m]
          && (v.full[s] ==> Waits(v, m, s))
          && (!v.full[s] ==> v.tree[m] == -1))
  }

  ghost predicate Look(v: View, child: int) { true }

  /** `Nodes`, kept out of the way of proofs that do not call `Unfold`. */
  ghost predicate Partial(v: View, child: int) {
    && Shape(v)
    && 0 <= child < 2 * |v.leaves|
    && (forall u, c {:trigger Look(u, c)} :: Look(u, c) && u == v && c == child ==> Nodes(u, c))
  }

  lemma Unfold(v: View, child: int)
    requires Partial(v, child)
    ensures Nodes(v, child)
  {
    assert Look(v, child);
  }

  lemma Fold(v: View, child: int)
    requires Nodes(v, child)
    ensures Partial(v, child)
  {
  }

  /** `firstSame` of an unpopped input is the deepest node where it beat its own key. */
  ghost predicate FirstSameOk(v: View, i: int)
    requires Shape(v) && 0 <= i < |v.leaves|
  {
    var f := v.leaves[i].firstSame;
    && (f == -1 || (1 <= f < |v.leaves| && v.full[f] && v.win[f] == i && SameAt(v, f)))
    && (forall m :: 1 <= m < |v.leaves| && v.full[m] && v.win[m] == i && m > f ==> !SameAt(v, m))
  }

  ghost predicate MarkOk(v: View, i: int)
    requires Shape(v) && 0 <= i < |v.leaves|
  {
    v.full[|v.leaves| + i] && !IsPopped(v.leaves[i]) ==> FirstSameOk(v, i)
  }

  ghost predicate FirstSamesOk(v: View)
    requires Shape(v)
  {
    forall i :: 0 <= i < |v.leaves| ==> MarkOk(v, i)
  }

  /** `b` offers what `a` offers: only the labels may differ. */
  predicate SameOffer(a: Leaf, b: Leaf) {
    && a.kv == b.kv && (IsPopped(a) <==> IsPopped(b))
    && a.batch == b.batch && a.batches == b.batches && a.ended == b.ended
  }

  /** Every input has arrived. */
  ghost predicate AllIn(v: View)
    requires Shape(v)
  {
    forall d :: |v.leaves| <= d < 2 * |v.leaves| ==> v.full[d]
  }

  /** Once every input has arrived, everything above the frontier is settled. */
  lemma {:induction false} FullAbove(v: View, child: int, d: int)
    requires Partial(v, child)
    requires AllIn(v)
    requires child / 2 < d < 2 * |v.leaves|
    ensures v.full[d]
    decreases 2 * |v.leaves| - d
  {
    Unfold(v, child);
    var n := |v.leaves|;
    if d < n {
      FullAbove(v, child, 2 * d);
      FullAbove(v, child, 2 * d + 1);
      assert NodeInv(v, d);
    }
  }

  /** In a settled tournament the champion is ahead of every input. */
  lemma ChampionAhead(v: View, j: int)
    requires Partial(v, 1) && 0 <= j < |v.leaves|
    requires AllIn(v)
    ensures Ahead(v.leaves[v.win[1]], v.leaves[j], v.cur)
  {
    Unfold(v, 1);
    ClimbAhead(v, |v.leaves| + j, j);
  }

  lemma {:induction false} ClimbAhead(v: View, d: int, j: int)
    requires Partial(v, 1) && 0 <= j < |v.leaves|
    requires AllIn(v)
    requires 1 <= d < 2 * |v.leaves|
    requires Ahead(v.leaves[v.win[d]], v.leaves[j], v.cur)
    ensures Ahead(v.leaves[v.win[1]], v.leaves[j], v.cur)
  {
    Unfold(v, 1);
    if d > 1 {
      var p := d / 2;
      FullAbove(v, 1, p);
      assert NodeInv(v, p) && Settled(v, p);
      if v.win[p] != v.win[d] {
        assert d == 2 * p || d == 2 * p + 1;
        AheadTrans(v.leaves[v.win[p]], v.leaves[v.win[d]], v.leaves[j], v.cur);
      }
      ClimbAhead(v, p, j);
    }
  }

  /** What a match at the frontier may do: `top` wins and `bot` loses at the parent of `child`. */
  ghost predicate MatchPlayed(v: View, child: int, u: View, top: int, bot: int)
    requires Partial(v, child) && child >= 2 && v.full[Sibling(child)]
  {
    var n, m := |v.leaves|, child / 2;
    var w, l := v.win[child], v.tree[m];
    && 0 <= l && ((top == w && bot == l) || (top == l && bot == w))
    && u.tree == v.tree[m := bot] && u.win == v.win[m := top] && u.full == v.full[m := true]
    && u.home == v.home[bot := m][top := 0] && u.cur == v.cur
    && |u.leaves| == n
    && (forall i :: 0 <= i < n && i != w && i != l ==> u.leaves[i] == v.leaves[i])
    && (forall i :: 0 <= i < n ==> SameOffer(v.leaves[i], u.leaves[i]))
    && Ahead(u.leaves[top], u.leaves[bot], v.cur)
    && u.leaves[bot].state == LoserLabel(u.leaves[bot], u.leaves[top])
    && (!IsPopped(v.leaves[bot]) ==> u.leaves[bot].firstSame == v.leaves[bot].firstSame)
    && (!IsPopped(v.leaves[top]) ==>
          u.leaves[top].firstSame ==
            if v.leaves[top].firstSame == -1 && SameKey(v.leaves[bot], v.leaves[top]) then m
            else v.leaves[top].firstSame)
  }

  lemma WaiterIsNotMover(v: View, child: int)
    requires Partial(v, child) && child >= 2 && v.full[Sibling(child)]
    ensures 1 <= child / 2 < |v.leaves| && 1 <= Sibling(child) < 2 * |v.leaves|
    ensures 0 <= v.tree[child / 2] && v.tree[child / 2] != v.win[child]
  {
    Unfold(v, child);
    assert Waits(v, child / 2, Sibling(child));
  }

  /** A node that is in order, and where its loser lost. */
  lemma NodeAt(v: View, child: int, k: int)
    requires Partial(v, child) && 1 <= k < |v.leaves| && k != child / 2
    ensures NodeInv(v, k) && (0 <= v.tree[k] ==> v.home[v.tree[k]] == k)
  {
    Unfold(v, child);
    if 0 <= v.tree[k] { LoserHome(v, k); }
  }

  /** The winner of `child` has lost nowhere and won nothing above `child`. */
  lemma MoverAt(v: View, child: int, k: int)
    requires Partial(v, child) && child >= 1 && 1 <= k < 2 * |v.leaves|
    ensures v.home[v.win[child]] == 0 && (v.full[k] && v.win[k] == v.win[child] ==> k >= child)
  {
    Unfold(v, child);
  }

  /** The input that waits for the winner of `child`. */
  lemma WaiterAt(v: View, child: int)
    requires Partial(v, child) && child >= 2 && v.full[Sibling(child)]
    ensures 1 <= child / 2 < |v.leaves| && 0 <= v.tree[child / 2] && v.home[v.tree[child / 2]] == child / 2
  {
    Unfold(v, child);
    assert Waits(v, child / 2, Sibling(child));
  }

  /** `u` shows at node `k` what `v` shows there. */
  ghost predicate SameAround(v: View, u: View, k: int)
    requires Shape(v) && Shape(u) && |u.leaves| == |v.leaves| && 1 <= k < |v.leaves|
  {
    && u.cur == v.cur && u.tree[k] == v.tree[k]
    && u.full[k] == v.full[k] && u.full[2*k] == v.full[2*k] && u.full[2*k+1] == v.full[2*k+1]
    && u.win[k] == v.win[k] && u.win[2*k] == v.win[2*k] && u.win[2*k+1] == v.win[2*k+1]
    && (0 <= v.tree[k] ==> u.leaves[v.tree[k]] == v.leaves[v.tree[k]] && u.home[v.tree[k]] == v.home[v.tree[k]])
    && (v.full[k] ==> SameOffer(v.leaves[v.win[k]], u.leaves[v.win[k]]))
  }

  lemma NodeFrame(v: View, u: View, k: int)
    requires Shape(v) && Shape(u) && |u.leaves| == |v.leaves| && 1 <= k < |v.leaves|
    requires SameAround(v, u, k) && NodeInv(v, k)
    ensures NodeInv(u, k)
  {
  }

  lemma LoserHome(v: View, k: int)
    requires Shape(v) && 1 <= k < |v.leaves| && NodeInv(v, k) && 0 <= v.tree[k]
    ensures v.home[v.tree[k]] == k
  {
  }

  /** The match leaves every other node in order. */
  lemma OtherNodeKept(v: View, child: int, u: View, top: int, bot: int, k: int)
    requires Partial(v, child) && child >= 2 && v.full[Sibling(child)]
    requires MatchPlayed(v, child, u, top, bot) && Shape(u)
    requires 1 <= k < |v.leaves| && k != child / 2 && k != child / 4
    ensures NodeInv(u, k)
  {
    var m := child / 2;
    WaiterAt(v, child);
    MoverAt(v, child, k);
    NodeAt(v, child, k);
    assert 2 * k != m && 2 * k + 1 != m;
    assert SameOffer(v.leaves[v.win[k]], u.leaves[v.win[k]]);
    NodeFrame(v, u, k);
  }

  lemma MatchShape(v: View, child: int, u: View, top: int, bot: int)
    requires Partial(v, child) && child >= 2 && v.full[Sibling(child)]
    requires MatchPlayed(v, child, u, top, bot)
    ensures Shape(u) && 1 <= child / 2 < |v.leaves|
  {
  }

  lemma MatchSettled(v: View, child: int, u: View, top: int, bot: int)
    requires Partial(v, child) && child >= 2 && v.full[Sibling(child)]
    requires MatchPlayed(v, child, u, top, bot)
    ensures Shape(u) && NodeInv(u, child / 2)
  {
    Unfold(v, child);
    var m, s := child / 2, Sibling(child);
    MatchShape(v, child, u, top, bot);
    assert Waits(v, m, s);
    assert (child == 2 * m && s == 2 * m + 1) || (child == 2 * m + 1 && s == 2 * m);
    assert Settled(u, m);
  }

  lemma MatchHomes(v: View, child: int, u: View, top: int, bot: int)
    requires Partial(v, child) && child >= 2 && v.full[Sibling(child)]
    requires MatchPlayed(v, child, u, top, bot) && Shape(u)
    ensures forall d :: 1 <= d < 2 * |v.leaves| && u.full[d] ==> u.home[u.win[d]] < d
    ensures forall d :: 1 <= d < 2 * |v.leaves| && u.full[d] && u.win[d] == top ==> d >= child / 2
  {
    Unfold(v, child);
    var n, m := |v.leaves|, child / 2;
    var w, l := v.win[child], v.tree[m];
    WaiterIsNotMover(v, child);
    assert v.home[w] == 0 && v.home[l] == m;
    forall d | 1 <= d < 2 * n && u.full[d] && d != m
      ensures u.win[d] == v.win[d] && v.full[d] && v.home[v.win[d]] < d
    {
    }
  }

  /** A match at the frontier moves the frontier up by one node. */
  lemma PlayMatch(v: View, child: int, u: View, top: int, bot: int)
    requires Partial(v, child) && child >= 2 && v.full[Sibling(child)]
    requires MatchPlayed(v, child, u, top, bot)
    ensures Partial(u, child / 2)
  {
    Unfold(v, child);
    var n, m := |v.leaves|, child / 2;
    WaiterIsNotMover(v, child);
    MatchSettled(v, child, u, top, bot);
    MatchHomes(v, child, u, top, bot);
    forall k | 1 <= k < n && k != m / 2
      ensures NodeInv(u, k)
    {
      if k != m { OtherNodeKept(v, child, u, top, bot, k); }
    }
    if m >= 2 { MatchFrontier(v, child, u, top, bot); }
    Fold(u, m);
  }

  lemma MatchFrontier(v: View, child: int, u: View, top: int, bot: int)
    requires Partial(v, child) && child >= 4 && v.full[Sibling(child)]
    requires MatchPlayed(v, child, u, top, bot) && Shape(u)
    ensures var m := child / 2; var p, s := m / 2, Sibling(m);
      !u.full[p] && (u.full[s] ==> Waits(u, p, s)) && (!u.full[s] ==> u.tree[p] == -1)
  {
    Unfold(v, child);
    var m := child / 2;
    var p, s := m / 2, Sibling(m);
    WaiterIsNotMover(v, child);
    assert NodeInv(v, p);
    assert (m == 2 * p && s == 2 * p + 1) || (m == 2 * p + 1 && s == 2 * p);
    assert !v.full[m];
    if v.full[s] { LoserHome(v, p); }
  }

  lemma SameAtKept(v: View, child: int, u: View, top: int, bot: int, k: int)
    requires Partial(v, child) && child >= 2 && v.full[Sibling(child)]
    requires MatchPlayed(v, child, u, top, bot) && Shape(u)
    requires 1 <= k < |v.leaves| && k != child / 2
    ensures u.full[k] == v.full[k] && u.win[k] == v.win[k] && (SameAt(u, k) <==> SameAt(v, k))
  {
    Unfold(v, child);
    WaiterIsNotMover(v, child);
    assert SameOffer(v.leaves[v.win[k]], u.leaves[v.win[k]]);
    if 0 <= v.tree[k] {
      assert SameOffer(v.leaves[v.tree[k]], u.leaves[v.tree[k]]);
    }
  }

  lemma OneFirstSameKept(v: View, child: int, u: View, top: int, bot: int, i: int)
    requires Partial(v, child) && child >= 2 && v.full[Sibling(child)]
    requires MatchPlayed(v, child, u, top, bot) && Shape(u)
    requires 0 <= i < |v.leaves| && !IsPopped(v.leaves[i]) && FirstSameOk(v, i)
    ensures FirstSameOk(u, i)
  {
    Unfold(v, child);
    var n, m := |v.leaves|, child / 2;
    WaiterIsNotMover(v, child);
    forall k | 1 <= k < n && k != m
      ensures u.full[k] == v.full[k] && u.win[k] == v.win[k] && (SameAt(u, k) <==> SameAt(v, k))
    {
      SameAtKept(v, child, u, top, bot, k);
    }
    if i == top {
      assert SameOffer(v.leaves[top], u.leaves[top]) && SameOffer(v.leaves[bot], u.leaves[bot]);
      assert SameAt(u, m) <==> SameKey(v.leaves[bot], v.leaves[top]);
      var f := v.leaves[i].firstSame;
      if f != -1 {
        assert f > m by {
          assert v.full[f] && v.win[f] == i;
        }
      }
    }
  }

  lemma MatchKeepsFirstSame(v: View, child: int, u: View, top: int, bot: int)
    requires Partial(v, child) && child >= 2 && v.full[Sibling(child)] && FirstSamesOk(v)
    requires MatchPlayed(v, child, u, top, bot)
    ensures Shape(u) && FirstSamesOk(u)
  {
    var n := |v.leaves|;
    WaiterIsNotMover(v, child);
    MatchSettled(v, child, u, top, bot);
    forall i | 0 <= i < n ensures MarkOk(u, i) {
      assert MarkOk(v, i);
      if u.full[n + i] && !IsPopped(u.leaves[i]) {
        assert SameOffer(v.leaves[i], u.leaves[i]);
        OneFirstSameKept(v, child, u, top, bot, i);
      }
    }
  }

  /** The champion of subtree `m` may take its own arrival back: the frontier moves down to the
      child it came from. */
  ghost predicate TakenBack(v: View, m: int, u: View, d: int)
    requires Partial(v, m) && 1 <= m < |v.leaves|
  {
    && u == v.(full := v.full[m := false])
    && (d == 2 * m || d == 2 * m + 1) && v.win[d] == v.win[m]
  }

  lemma Untouched(v: View, m: int, c: int)
    requires Partial(v, m) && 1 <= m < |v.leaves|
    requires m < c < 2 * |v.leaves| && v.full[c] && v.win[c] == v.win[m]
    ensures c / 2 >= m
  {
    Unfold(v, m);
    var p := c / 2;
    if p == m / 2 {
      assert false;
    } else if p >= 1 {
      assert NodeInv(v, p);
      assert c == 2 * p || c == 2 * p + 1;
      assert v.home[v.win[m]] == 0;
      if v.full[p] {
        assert Settled(v, p);
        assert v.win[p] == v.win[m];
      }
    }
  }

  lemma TakeBackMover(v: View, m: int, u: View, d: int, c: int)
    requires Partial(v, m) && 1 <= m < |v.leaves| && TakenBack(v, m, u, d)
    requires 1 <= c < 2 * |v.leaves| && u.full[c] && u.win[c] == u.win[d]
    ensures c >= d
  {
    Unfold(v, m);
    assert c >= m && c != m;
    Untouched(v, m, c);
    if c / 2 == m {
      FullWinner(v, m);
      assert Settled(v, m) && v.home[v.tree[m]] == m;
    }
  }

  lemma FullWinner(v: View, m: int)
    requires Partial(v, m) && 1 <= m < |v.leaves|
    ensures Settled(v, m) && v.full[2*m] && v.full[2*m+1] && v.home[v.win[m]] == 0
    ensures v.tree[m] != v.win[m]
  {
    Unfold(v, m);
    assert NodeInv(v, m);
  }

  lemma TakeBackNode(v: View, m: int, u: View, d: int, k: int)
    requires Partial(v, m) && 1 <= m < |v.leaves| && TakenBack(v, m, u, d) && Shape(u)
    requires 1 <= k < |v.leaves| && k != m
    ensures NodeInv(u, k)
  {
    Unfold(v, m);
    if k == m / 2 {
      assert (m == 2 * k && Sibling(m) == 2 * k + 1) || (m == 2 * k + 1 && Sibling(m) == 2 * k);
      if v.full[Sibling(m)] { assert Waits(v, k, Sibling(m)); assert Waits(u, k, Sibling(m)); }
    } else {
      assert NodeInv(v, k);
      assert 2 * k != m && 2 * k + 1 != m;
      NodeFrame(v, u, k);
    }
  }

  /** Every input that lost to `x` carries the label of a waiting input. */
  ghost predicate LosersCanWait(v: View, x: int)
    requires Shape(v)
  {
    forall k :: 1 <= k < |v.leaves| && v.full[k] && v.win[k] == x ==>
      0 <= v.tree[k] && v.leaves[v.tree[k]].state == WaitLabel(v.leaves[v.tree[k]], v.cur)
  }

  lemma TakeBackFrontier(v: View, m: int, u: View, d: int)
    requires Partial(v, m) && 1 <= m < |v.leaves| && TakenBack(v, m, u, d) && Shape(u)
    requires LosersCanWait(v, v.win[m])
    ensures d / 2 == m && !u.full[m] && u.full[d] && u.full[Sibling(d)] && Waits(u, m, Sibling(d))
  {
    Unfold(v, m);
    FullWinner(v, m);
    SiblingOf(m);
    var l := v.tree[m];
    assert v.full[m] && v.win[d] == v.win[m];
    assert v.leaves[l].state == WaitLabel(v.leaves[l], v.cur);
    assert v.win[Sibling(d)] == l && v.home[l] == m;
  }

  lemma TakeBack(v: View, m: int, u: View, d: int)
    requires Partial(v, m) && 1 <= m < |v.leaves| && TakenBack(v, m, u, d)
    requires LosersCanWait(v, v.win[m])
    ensures Partial(u, d)
  {
    Unfold(v, m);
    var n := |v.leaves|;
    assert Shape(u);
    TakeBackFrontier(v, m, u, d);
    forall k | 1 <= k < n && k != d / 2
      ensures NodeInv(u, k)
    {
      TakeBackNode(v, m, u, d, k);
    }
    forall c | 1 <= c < 2 * n && u.full[c] && u.win[c] == u.win[d]
      ensures c >= d
    {
      TakeBackMover(v, m, u, d, c);
    }
  }

  lemma NotALeaf(v: View, m: int, s: int)
    requires Shape(v) && 1 <= m < s < 2 * |v.leaves| && v.win[s] == v.win[m]
    ensures m < |v.leaves|
  {
  }

  /** `u` is `v` with only matches won by `x` above node `s` taken back. */
  ghost predicate TakenBackTo(v: View, x: int, s: int, u: View)
    requires Shape(v)
  {
    && u == v.(full := u.full) && |u.full| == |v.full|
    && (forall d :: 1 <= d < 2 * |v.leaves| ==>
          u.full[d] == v.full[d] || (v.win[d] == x && d < s && v.full[d] && !u.full[d]))
  }

  lemma TakenBackTwice(v: View, x: int, s: int, t: View, u: View)
    requires Shape(v) && TakenBackTo(v, x, s, t) && Shape(t) && TakenBackTo(t, x, s, u)
    ensures TakenBackTo(v, x, s, u)
  {
  }

  /** Takes the champion back down to node `s`, which it also won. */
  lemma {:induction false} TakeBackTo(v: View, m: int, s: int) returns (u: View)
    requires Partial(v, m) && LosersCanWait(v, v.win[m])
    requires 1 <= m <= s < 2 * |v.leaves| && v.full[s] && v.win[s] == v.win[m]
    ensures TakenBackTo(v, v.win[m], s, u) && Partial(u, s)
    decreases s - m
  {
    Unfold(v, m);
    if m == s {
      u := v;
    } else {
      NotALeaf(v, m, s);
      FullWinner(v, m);
      var d := if v.win[2*m] == v.win[m] then 2 * m else 2 * m + 1;
      var t := v.(full := v.full[m := false]);
      TakeBack(v, m, t, d);
      TakeBackMover(v, m, t, d, s);
      assert LosersCanWait(t, t.win[d]);
      assert TakenBackTo(v, v.win[m], s, t);
      u := TakeBackTo(t, d, s);
      TakenBackTwice(v, v.win[m], s, t, u);
    }
  }

  /** Taking back settled matches of one champion does not disturb the other inputs' marks. */
  lemma TakeBackKeepsFirstSame(v: View, x: int, s: int, u: View, i: int)
    requires Shape(v) && TakenBackTo(v, x, s, u) && 0 <= i < |v.leaves| && i != x && FirstSameOk(v, i)
    ensures Shape(u) && FirstSameOk(u, i)
  {
    assert Shape(u);
    forall m | 1 <= m < |v.leaves| ensures SameAt(u, m) <==> SameAt(v, m) {}
  }

  /** Only settled inputs win anything. */
  lemma {:induction false} WinnerArrived(v: View, child: int, d: int)
    requires Partial(v, child) && 1 <= d < 2 * |v.leaves| && v.full[d]
    ensures v.full[|v.leaves| + v.win[d]]
    decreases 2 * |v.leaves| - d
  {
    Unfold(v, child);
    if d < |v.leaves| {
      assert d != child / 2;
      assert NodeInv(v, d) && Settled(v, d);
      WinnerArrived(v, child, if v.win[d] == v.win[2*d] then 2 * d else 2 * d + 1);
    }
  }

  /** The root slot is outside the tournament. */
  lemma SetRoot(v: View, child: int, r: int)
    requires Partial(v, child) && FirstSamesOk(v) && -1 <= r < |v.leaves|
    ensures var u := v.(tree := v.tree[0 := r]); Partial(u, child) && FirstSamesOk(u)
  {
    var u := v.(tree := v.tree[0 := r]);
    RootNodes(v, child, u);
    RootMarks(v, u);
  }

  lemma RootNodes(v: View, child: int, u: View)
    requires Partial(v, child) && Shape(u) && u == v.(tree := u.tree) && u.tree[1..] == v.tree[1..]
    ensures Partial(u, child)
  {
    forall k | 1 <= k < |v.leaves| ensures u.tree[k] == v.tree[k] { assert u.tree[1..][k-1] == v.tree[1..][k-1]; }
    forall k | 1 <= k < |v.leaves| && k != child / 2 ensures NodeInv(u, k) {
      NodeAt(v, child, k);
      NodeFrame(v, u, k);
    }
    Unfold(v, child);
    Fold(u, child);
  }

  lemma RootMarks(v: View, u: View)
    requires Shape(v) && Shape(u) && FirstSamesOk(v) && u == v.(tree := u.tree) && u.tree[1..] == v.tree[1..]
    ensures FirstSamesOk(u)
  {
    forall k | 1 <= k < |v.leaves|
      ensures SameAt(u, k) <==> SameAt(v, k)
    {
      assert u.tree[1..][k-1] == v.tree[1..][k-1];
    }
    forall i | 0 <= i < |v.leaves| ensures MarkOk(u, i) {
      assert MarkOk(v, i);
    }
  }

  /** `u` is `v` with another offer of input `x`, which stands at its leaf. */
  ghost predicate Reoffered(v: View, x: int, u: View) {
    && 0 <= x < |v.leaves| && Partial(v, |v.leaves| + x)
    && |u.leaves| == |v.leaves| && u == v.(leaves := v.leaves[x := u.leaves[x]])
  }

  lemma NewOfferNode(v: View, x: int, u: View, k: int)
    requires Reoffered(v, x, u) && 1 <= k < |v.leaves| && k != (|v.leaves| + x) / 2
    ensures Shape(u) && NodeInv(u, k) && (v.full[k] ==> (SameAt(u, k) <==> SameAt(v, k)))
  {
    NodeAt(v, |v.leaves| + x, k);
    MoverAt(v, |v.leaves| + x, k);
    assert v.full[k] ==> v.win[k] != x;
    assert Shape(u);
    NodeFrame(v, u, k);
  }

  lemma NewOfferMark(v: View, x: int, u: View, i: int)
    requires Reoffered(v, x, u) && 0 <= i < |v.leaves| && i != x && FirstSameOk(v, i)
    ensures Shape(u) && FirstSameOk(u, i)
  {
    Unfold(v, |v.leaves| + x);
    forall k | 1 <= k < |v.leaves| && v.full[k] ensures SameAt(u, k) <==> SameAt(v, k) {
      NewOfferNode(v, x, u, k);
    }
  }

  lemma NewOfferFrontier(v: View, x: int, u: View)
    requires Reoffered(v, x, u)
    ensures Shape(u)
    ensures var c := |v.leaves| + x; c >= 2 ==> v.full[Sibling(c)] ==> Waits(u, c / 2, Sibling(c))
  {
    var c := |v.leaves| + x;
    assert Shape(u);
    if c >= 2 && v.full[Sibling(c)] {
      Unfold(v, c);
      assert v.home[x] == 0 && Waits(v, c / 2, Sibling(c));
    }
  }

  /** An input that has won no match may offer anything new when it is taken back to its leaf. */
  lemma NewOffer(v: View, x: int, u: View)
    requires Reoffered(v, x, u)
    ensures Partial(u, |v.leaves| + x)
  {
    var n, c := |v.leaves|, |v.leaves| + x;
    NewOfferFrontier(v, x, u);
    forall k | 1 <= k < n && k != c / 2 ensures NodeInv(u, k) {
      NewOfferNode(v, x, u, k);
    }
    Unfold(v, c);
    Fold(u, c);
  }

  lemma NewOfferMarks(v: View, x: int, u: View)
    requires Reoffered(v, x, u) && !IsPopped(u.leaves[x]) && u.leaves[x].firstSame == -1
    requires forall i :: 0 <= i < |v.leaves| && i != x ==> MarkOk(v, i)
    ensures Shape(u) && FirstSamesOk(u)
  {
    Unfold(v, |v.leaves| + x);
    var n := |v.leaves|;
    assert Shape(u);
    forall i | 0 <= i < n ensures MarkOk(u, i) {
      if i == x {
        forall k | 1 <= k < n && u.full[k] ensures u.win[k] != x {}
      } else {
        assert MarkOk(v, i);
        if v.full[n + i] && !IsPopped(v.leaves[i]) { NewOfferMark(v, x, u, i); }
      }
    }
  }

  /** The champion `x` is about to be popped: the round's key is its key. */
  ghost predicate PoppingKey(v: View, x: int)
    requires Shape(v) && 0 <= x < |v.leaves|
  {
    var l := v.leaves[x];
    !IsPopped(l) && v.cur == Round(if l.kv.Some? then Some(l.kv.value.key) else None)
  }

  predicate PoppedFrom(a: Leaf, b: Leaf) {
    && IsPopped(b) && b.kv.None?
    && a.batch == b.batch && a.batches == b.batches && a.ended == b.ended
  }

  /** A settled match that `x` won against another key stays settled when `x` is popped. */
  lemma PoppedStaysAhead(v: View, x: int, u: View, k: int)
    requires Shape(v) && Shape(u) && |u.leaves| == |v.leaves|
    requires 0 <= x < |v.leaves| && PoppingKey(v, x) && PoppedFrom(v.leaves[x], u.leaves[x])
    requires 1 <= k < |v.leaves| && v.full[k] && v.win[k] == x && NodeInv(v, k) && !SameAt(v, k)
    requires u.cur == v.cur && u.tree[k] == v.tree[k]
    requires u.full[k] == v.full[k] && u.full[2*k] == v.full[2*k] && u.full[2*k+1] == v.full[2*k+1]
    requires u.win[k] == v.win[k] && u.win[2*k] == v.win[2*k] && u.win[2*k+1] == v.win[2*k+1]
    requires u.leaves[v.tree[k]] == v.leaves[v.tree[k]] && u.home[v.tree[k]] == v.home[v.tree[k]]
    ensures NodeInv(u, k)
  {
    assert Settled(v, k);
    assert Settled(u, k);
  }

  lemma PopAloneNode(v: View, x: int, l: Leaf, k: int)
    requires Partial(v, 1) && 0 <= x < |v.leaves| && v.win[1] == x && PoppingKey(v, x)
    requires FirstSameOk(v, x) && v.leaves[x].firstSame < 0 && PoppedFrom(v.leaves[x], l)
    requires 1 <= k < |v.leaves|
    ensures var u := v.(leaves := v.leaves[x := l]);
      Shape(u) && NodeInv(u, k) && (v.full[k] && v.win[k] != x ==> (SameAt(u, k) <==> SameAt(v, k)))
  {
    Unfold(v, 1);
    var u := v.(leaves := v.leaves[x := l]);
    assert Shape(u);
    NodeAt(v, 1, k);
    MoverAt(v, 1, k);
    if v.full[k] && v.win[k] == x {
      assert !SameAt(v, k);
      PoppedStaysAhead(v, x, u, k);
    } else {
      NodeFrame(v, u, k);
    }
  }

  /** Popping a champion that beat none of its own key leaves the tournament settled. */
  lemma PopAlone(v: View, x: int, l: Leaf)
    requires Partial(v, 1) && 0 <= x < |v.leaves| && v.win[1] == x && PoppingKey(v, x)
    requires FirstSamesOk(v) && v.full[|v.leaves| + x] && v.leaves[x].firstSame < 0
    requires PoppedFrom(v.leaves[x], l)
    ensures var u := v.(leaves := v.leaves[x := l]); Partial(u, 1) && FirstSamesOk(u)
  {
    var n, u := |v.leaves|, v.(leaves := v.leaves[x := l]);
    assert Shape(u);
    assert MarkOk(v, x);
    forall k | 1 <= k < n ensures NodeInv(u, k) { PopAloneNode(v, x, l, k); }
    assert Partial(u, 1) by { Unfold(v, 1); Fold(u, 1); }
    forall i | 0 <= i < n ensures MarkOk(u, i) {
      assert MarkOk(v, i);
      if i != x && v.full[n + i] && !IsPopped(v.leaves[i]) { PopAloneMark(v, x, l, i); }
    }
  }

  lemma PopAloneMark(v: View, x: int, l: Leaf, i: int)
    requires Partial(v, 1) && 0 <= x < |v.leaves| && v.win[1] == x && PoppingKey(v, x)
    requires FirstSameOk(v, x) && v.leaves[x].firstSame < 0 && PoppedFrom(v.leaves[x], l)
    requires 0 <= i < |v.leaves| && i != x && FirstSameOk(v, i)
    ensures var u := v.(leaves := v.leaves[x := l]); Shape(u) && FirstSameOk(u, i)
  {
    var u := v.(leaves := v.leaves[x := l]);
    assert Shape(u);
    forall k | 1 <= k < |v.leaves| && v.full[k] && v.win[k] == i ensures SameAt(u, k) <==> SameAt(v, k) {
      PopAloneNode(v, x, l, k);
    }
  }

  /** The jump: `x` is popped and its deepest loser `l` of the same key, found at node `f`, takes
      over from there. */
  ghost predicate Jumped(v: View, x: int, f: int, u: View)
    requires Shape(v) && 0 <= x < |v.leaves| && 1 <= f < |v.leaves| && 0 <= v.tree[f]
  {
    var l := v.tree[f];
    && l != x
    && u.tree == v.tree[f := x] && u.win == v.win[f := l] && u.full == v.full
    && u.home == v.home[x := f][l := 0] && u.cur == v.cur
    && |u.leaves| == |v.leaves|
    && (forall i :: 0 <= i < |v.leaves| && i != x && i != l ==> u.leaves[i] == v.leaves[i])
    && PoppedFrom(v.leaves[x], u.leaves[x]) && u.leaves[x].state == LoserPopped
    && SameOffer(v.leaves[l], u.leaves[l]) && u.leaves[l].firstSame == v.leaves[l].firstSame
  }

  ghost predicate CanJump(v: View, x: int, f: int) {
    && Shape(v) && 0 <= x < |v.leaves| && 1 <= f < |v.leaves|
    && Partial(v, f) && v.win[f] == x && PoppingKey(v, x)
    && SameAt(v, f)
    && (forall k :: 1 <= k < |v.leaves| && v.full[k] && v.win[k] == x && k > f ==> !SameAt(v, k))
  }

  lemma JumpHere(v: View, x: int, f: int, u: View)
    requires CanJump(v, x, f) && Jumped(v, x, f, u)
    ensures Shape(u) && NodeInv(u, f) && v.home[v.tree[f]] == f && v.home[x] == 0
  {
    Unfold(v, f);
    FullWinner(v, f);
    assert Shape(u);
    assert NodeInv(v, f);
    assert Settled(u, f);
  }

  lemma JumpNode(v: View, x: int, f: int, u: View, k: int)
    requires CanJump(v, x, f) && Jumped(v, x, f, u) && Shape(u)
    requires 1 <= k < |v.leaves| && k != f && k != f / 2
    ensures NodeInv(u, k)
    ensures v.full[k] && v.win[k] != x ==> (SameAt(u, k) <==> SameAt(v, k))
  {
    Unfold(v, f);
    var l := v.tree[f];
    JumpHere(v, x, f, u);
    assert NodeInv(v, k);
    if 0 <= v.tree[k] { LoserHome(v, k); }
    assert 2 * k != f && 2 * k + 1 != f;
    if v.full[k] && v.win[k] == x {
      assert k > f;
      PoppedStaysAhead(v, x, u, k);
    } else {
      NodeFrame(v, u, k);
    }
  }

  lemma JumpHomes(v: View, x: int, f: int, u: View)
    requires CanJump(v, x, f) && Jumped(v, x, f, u) && Shape(u)
    ensures forall d :: 1 <= d < 2 * |v.leaves| && u.full[d] ==> u.home[u.win[d]] < d
    ensures forall d :: 1 <= d < 2 * |v.leaves| && u.full[d] && u.win[d] == v.tree[f] ==> d >= f
  {
    Unfold(v, f);
    JumpHere(v, x, f, u);
    forall d | 1 <= d < 2 * |v.leaves| && u.full[d] && d != f
      ensures u.win[d] == v.win[d] && v.full[d] && v.home[v.win[d]] < d
    {
    }
  }

  lemma JumpFrontier(v: View, x: int, f: int, u: View)
    requires CanJump(v, x, f) && Jumped(v, x, f, u) && Shape(u) && f >= 2
    ensures var p, s := f / 2, Sibling(f);
      !u.full[p] && (u.full[s] ==> Waits(u, p, s)) && (!u.full[s] ==> u.tree[p] == -1)
  {
    Unfold(v, f);
    JumpHere(v, x, f, u);
    var p, s := f / 2, Sibling(f);
    if v.full[s] {
      assert Waits(v, p, s);
      assert v.home[v.tree[p]] == p;
    }
  }

  lemma JumpPartial(v: View, x: int, f: int, u: View)
    requires CanJump(v, x, f) && Jumped(v, x, f, u)
    ensures Partial(u, f)
  {
    Unfold(v, f);
    JumpHere(v, x, f, u);
    JumpHomes(v, x, f, u);
    forall k | 1 <= k < |v.leaves| && k != f / 2 ensures NodeInv(u, k) {
      if k != f { JumpNode(v, x, f, u, k); }
    }
    if f >= 2 { JumpFrontier(v, x, f, u); }
    Fold(u, f);
  }

  lemma JumpMarks(v: View, x: int, f: int, u: View)
    requires CanJump(v, x, f) && Jumped(v, x, f, u)
    requires forall i :: 0 <= i < |v.leaves| && i != x ==> MarkOk(v, i)
    ensures Shape(u) && FirstSamesOk(u)
  {
    Unfold(v, f);
    var n := |v.leaves|;
    JumpHere(v, x, f, u);
    forall i | 0 <= i < n ensures MarkOk(u, i) {
      if i != x {
        assert MarkOk(v, i);
        if v.full[n + i] && !IsPopped(v.leaves[i]) { JumpMark(v, x, f, u, i); }
      }
    }
  }

  lemma JumpMark(v: View, x: int, f: int, u: View, i: int)
    requires CanJump(v, x, f) && Jumped(v, x, f, u) && Shape(u)
    requires 0 <= i < |v.leaves| && i != x && FirstSameOk(v, i)
    ensures FirstSameOk(u, i)
  {
    Unfold(v, f);
    var n := |v.leaves|;
    JumpHere(v, x, f, u);
    assert !SameAt(u, f);
    forall k | 1 <= k < n && k != f && v.full[k] && v.win[k] == i
      ensures u.full[k] && u.win[k] == i && (SameAt(u, k) <==> SameAt(v, k))
    {
      assert k != f / 2;
      JumpNode(v, x, f, u, k);
    }
    if v.leaves[i].firstSame >= 0 { assert v.leaves[i].firstSame != f; }
  }

  /** A popped winner meets nobody of its own key, so it walks to the root unopposed. */
  lemma {:induction false} ClimbPopped(v: View, child: int) returns (u: View)
    requires Partial(v, child) && child >= 1 && AllIn(v) && FirstSamesOk(v)
    requires IsPopped(v.leaves[v.win[child]]) && v.cur.Round?
    requires forall i :: 0 <= i < |v.leaves| ==> PastCur(v.leaves[i], v.cur)
    ensures u.tree == v.tree && u.leaves == v.leaves && u.cur == v.cur && |u.full| == |v.full|
    ensures Partial(u, 1) && AllIn(u) && FirstSamesOk(u) && u.win[1] == v.win[child]
    decreases child
  {
    Unfold(v, child);
    if child == 1 {
      u := v;
    } else {
      FullAbove(v, child, Sibling(child));
      WaiterIsNotMover(v, child);
      var m := child / 2;
      var w, l := v.win[child], v.tree[m];
      assert Waits(v, m, Sibling(child));
      var t := v.(win := v.win[m := w], full := v.full[m := true], home := v.home[l := m][w := 0]);
      assert t.tree == v.tree[m := l];
      assert PastCur(v.leaves[l], v.cur);
      assert MatchPlayed(v, child, t, w, l);
      PlayMatch(v, child, t, w, l);
      MatchKeepsFirstSame(v, child, t, w, l);
      u := ClimbPopped(t, m);
    }
  }

  /** Every unpopped record is larger than the round's key. */
  ghost predicate PastCur(l: Leaf, cur: Cur) {
    !IsPopped(l) && l.kv.Some? && cur.Round? ==> cur.key.Some? && l.kv.value.key > cur.key.value
  }

  /** Nobody waits at the parent of `child`, so the arriving winner does. */
  ghost predicate Parked(v: View, child: int, u: View)
    requires Partial(v, child) && child >= 2
  {
    var m, w := child / 2, v.win[child];
    && u.tree == v.tree[m := w] && u.home == v.home[w := m]
    && u.win == v.win && u.full == v.full && u.cur == v.cur
    && u.leaves == v.leaves[w := v.leaves[w].(state := LoserNew)]
  }

  lemma ParkNode(v: View, child: int, u: View, k: int)
    requires Partial(v, child) && child >= 2 && !v.full[Sibling(child)] && Parked(v, child, u)
    requires !IsPopped(v.leaves[v.win[child]]) && PastCur(v.leaves[v.win[child]], v.cur)
    requires 1 <= k < |v.leaves|
    ensures Shape(u) && NodeInv(u, k)
  {
    Unfold(v, child);
    var m, w := child / 2, v.win[child];
    assert Shape(u);
    if k == m {
      assert (child == 2 * m && Sibling(child) == 2 * m + 1) || (child == 2 * m + 1 && Sibling(child) == 2 * m);
      assert Waits(u, m, child);
    } else {
      assert NodeInv(v, k);
      assert v.home[w] == 0;
      if 0 <= v.tree[k] { LoserHome(v, k); }
      NodeFrame(v, u, k);
    }
  }

  lemma Park(v: View, child: int, u: View)
    requires Partial(v, child) && child >= 2 && !v.full[Sibling(child)] && Parked(v, child, u)
    requires !IsPopped(v.leaves[v.win[child]]) && PastCur(v.leaves[v.win[child]], v.cur)
    requires FirstSamesOk(v)
    ensures Partial(u, 0) && FirstSamesOk(u)
  {
    Unfold(v, child);
    var n := |v.leaves|;
    assert Shape(u) by { ParkNode(v, child, u, child / 2); }
    forall k | 1 <= k < n && k != 0 ensures NodeInv(u, k) { ParkNode(v, child, u, k); }
    Fold(u, 0);
    forall k | 1 <= k < n && v.full[k] ensures SameAt(u, k) <==> SameAt(v, k) {}
    forall i | 0 <= i < n ensures MarkOk(u, i) { assert MarkOk(v, i); }
  }

  /** An absent input takes its place at its leaf. */
  ghost predicate Arrived(v: View, x: int, u: View) {
    && Partial(v, 0) && 0 <= x < |v.leaves| && !v.full[|v.leaves| + x] && v.home[x] == 0
    && |u.leaves| == |v.leaves|
    && u == v.(leaves := v.leaves[x := u.leaves[x]], full := v.full[|v.leaves| + x := true])
  }

  lemma Arrive(v: View, x: int, u: View)
    requires Arrived(v, x, u)
    ensures Partial(u, |v.leaves| + x)
  {
    var n, c := |v.leaves|, |v.leaves| + x;
    ArriveShape(v, x, u);
    forall k | 1 <= k < n && k != c / 2 ensures NodeInv(u, k) { ArriveNode(v, x, u, k); }
    ArriveHomes(v, x, u);
    if c >= 2 { ArriveFrontier(v, x, u); }
    Fold(u, c);
  }

  lemma ArriveShape(v: View, x: int, u: View)
    requires Arrived(v, x, u)
    ensures Shape(u) && u.full[|v.leaves| + x] && u.home[x] == 0 && u.win[|v.leaves| + x] == x
    ensures forall d :: 1 <= d < 2 * |v.leaves| && v.full[d] ==> v.win[d] != x
  {
    Unfold(v, 0);
    forall d | 1 <= d < 2 * |v.leaves| && v.full[d] ensures v.win[d] != x { WinnerArrived(v, 0, d); }
  }

  lemma ArriveHomes(v: View, x: int, u: View)
    requires Arrived(v, x, u)
    ensures Shape(u)
    ensures forall d :: 1 <= d < 2 * |v.leaves| && u.full[d] ==> u.home[u.win[d]] < d
    ensures forall d :: 1 <= d < 2 * |v.leaves| && u.full[d] && u.win[d] == x ==> d >= |v.leaves| + x
  {
    Unfold(v, 0);
    ArriveShape(v, x, u);
  }

  lemma ArriveMarks(v: View, x: int, u: View)
    requires Arrived(v, x, u) && FirstSamesOk(v) && u.leaves[x].firstSame == -1
    ensures Shape(u) && FirstSamesOk(u)
  {
    var n := |v.leaves|;
    ArriveShape(v, x, u);
    forall k | 1 <= k < n && v.full[k] ensures SameAt(u, k) <==> SameAt(v, k) { ArriveSame(v, x, u, k); }
    forall i | 0 <= i < n ensures MarkOk(u, i) {
      assert MarkOk(v, i);
    }
  }

  lemma ArriveSame(v: View, x: int, u: View, k: int)
    requires Arrived(v, x, u) && Shape(u) && 1 <= k < |v.leaves| && v.full[k]
    ensures SameAt(u, k) <==> SameAt(v, k)
  {
    Unfold(v, 0);
    ArriveShape(v, x, u);
    assert NodeInv(v, k);
    LoserHome(v, k);
  }

  lemma ArriveNode(v: View, x: int, u: View, k: int)
    requires Arrived(v, x, u) && Shape(u) && 1 <= k < |v.leaves| && k != (|v.leaves| + x) / 2
    ensures NodeInv(u, k)
  {
    Unfold(v, 0);
    var c := |v.leaves| + x;
    assert NodeInv(v, k);
    if 0 <= v.tree[k] { LoserHome(v, k); }
    assert v.full[k] ==> v.win[k] != x by { ArriveShape(v, x, u); }
    assert 2 * k != c && 2 * k + 1 != c;
    NodeFrame(v, u, k);
  }

  lemma ArriveFrontier(v: View, x: int, u: View)
    requires Arrived(v, x, u) && Shape(u) && |v.leaves| + x >= 2
    ensures var c := |v.leaves| + x; var m, s := c / 2, Sibling(c);
      1 <= m < |v.leaves| && 1 <= s < 2 * |v.leaves|
      && !u.full[m] && (u.full[s] ==> Waits(u, m, s)) && (!u.full[s] ==> u.tree[m] == -1)
  {
    Unfold(v, 0);
    var c := |v.leaves| + x;
    var m, s := c / 2, Sibling(c);
    assert NodeInv(v, m);
    assert (c == 2 * m && s == 2 * m + 1) || (c == 2 * m + 1 && s == 2 * m);
    if v.full[s] { LoserHome(v, m); }
  }
}
