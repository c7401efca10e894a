/** `LoserTree` of src/paimon/core/mergetree/compact: merges sorted inputs and hands out all records
    of the least key, then all of the next key. */
module LoserTrees {
  import opened Records
  import opened Tournament

  /** Positive when `a` is the winner. An exhausted input loses. */
  function FirstCompare(a: Option<KeyValue>, b: Option<KeyValue>): int {
    if a.None? then -1
    else if b.None? then 1
    else if b.value.key < a.value.key then -1
    else if b.value.key == a.value.key then 0
    else 1
  }

  function SecondCompare(a: Option<KeyValue>, b: Option<KeyValue>): int {
    if a.None? then -1
    else if b.None? then 1
    else if b.value.userSeq < a.value.userSeq then -1
    else if b.value.userSeq > a.value.userSeq then 1
    else if b.value.seqNo < a.value.seqNo then -1
    else 1
  }

  /** What the reader of an input still holds. */
  function Rest(l: Leaf): (r: seq<KeyValue>) {
    l.batch + Flatten(l.batches)
  }

  /** What an input still has to deliver. */
  function Remaining(l: Leaf): (r: seq<KeyValue>) {
    if !IsPopped(l) && l.kv.Some? then [l.kv.value] + Rest(l) else Rest(l)
  }

  /** The records of one input have strictly increasing keys. */
  ghost predicate OfferOk(l: Leaf, cur: Cur) {
    && StrictKeys(Rest(l))
    && (l.ended ==> l.batch == [] && l.batches == [] && l.kv.None?)
    && (if IsPopped(l) then
          && cur.Round?
          && (cur.key.Some? ==> forall r :: r in Rest(l) ==> r.key > cur.key.value)
          && (cur.key.None? ==> Rest(l) == [])
        else if l.kv.Some? then forall r :: r in Rest(l) ==> r.key > l.kv.value.key
        else Rest(l) == [])
  }

  ghost predicate OffersOk(v: View) {
    forall i :: 0 <= i < |v.leaves| ==> OfferOk(v.leaves[i], v.cur)
  }

  /** No unpopped record is smaller than the round's key. */
  ghost predicate AtLeastCur(l: Leaf, cur: Cur) {
    !IsPopped(l) && l.kv.Some? && cur.Round? ==> cur.key.Some? && l.kv.value.key >= cur.key.value
  }

  /** A settled tournament between two calls. */
  ghost predicate Ready(v: View) {
    && Partial(v, 1) && AllIn(v) && v.tree[0] == v.win[1]
    && FirstSamesOk(v) && OffersOk(v)
    && (forall i :: 0 <= i < |v.leaves| ==> AtLeastCur(v.leaves[i], v.cur))
    && IsWinner(v.leaves[v.tree[0]].state)
  }

  ghost predicate Mention(v: View) { true }

  /** `Ready`, kept out of the way of proofs that do not call `Unseal`. */
  ghost predicate Sealed(v: View) {
    forall u {:trigger Mention(u)} :: Mention(u) && u == v ==> Ready(u)
  }

  lemma Unseal(v: View)
    requires Sealed(v)
    ensures Ready(v)
  {
    assert Mention(v);
  }

  ghost predicate SameOffers(a: seq<Leaf>, b: seq<Leaf>) {
    |a| == |b| && forall i :: 0 <= i < |a| ==> SameOffer(a[i], b[i])
  }

  ghost predicate Champion(v: View) {
    && Partial(v, 1) && AllIn(v) && FirstSamesOk(v)
    && v.tree[0] == v.win[1] && IsWinner(v.leaves[v.tree[0]].state)
  }

  /** An input that has not arrived has lost nowhere. */
  ghost predicate AbsentAtHome(v: View)
    requires Shape(v)
  {
    forall d :: |v.leaves| <= d < 2 * |v.leaves| && !v.full[d] ==> v.home[d - |v.leaves|] == 0
  }

  /** Every record is of a later round than the popped ones. */
  ghost predicate AllPast(v: View) {
    && (forall i :: 0 <= i < |v.leaves| ==> PastCur(v.leaves[i], v.cur))
    && (forall i :: 0 <= i < |v.leaves| && IsPopped(v.leaves[i]) ==> v.cur.Round?)
  }

  /** Input `w` arrives at its leaf with a record of a later round. */
  ghost predicate Arriving(v: View, w: int) {
    && 0 <= w < |v.leaves| && Partial(v, |v.leaves| + w) && FirstSamesOk(v)
    && v.leaves[w].state == WinnerNew && AllPast(v) && AbsentAtHome(v)
    && (v.cur.Round? ==> AllIn(v))
  }

  /** `v` is the settled tournament `before` with its champion `x` just popped. */
  ghost predicate Popping(before: View, v: View, x: int) {
    && Partial(before, 1) && AllIn(before) && FirstSamesOk(before)
    && 0 <= x < |before.leaves| && before.win[1] == x && PoppingKey(before, x)
    && LosersCanWait(before, x)
    && (forall i :: 0 <= i < |before.leaves| ==> AtLeastCur(before.leaves[i], before.cur))
    && |v.leaves| == |before.leaves| && v == before.(leaves := before.leaves[x := v.leaves[x]])
    && PoppedFrom(before.leaves[x], v.leaves[x])
    && v.leaves[x].state == WinnerPopped && v.leaves[x].firstSame == before.leaves[x].firstSame
  }

  /** The winner of `child` is on its way up. */
  ghost predicate Walking(v: View, child: int, popping: bool) {
    && 1 <= child && Partial(v, child) && FirstSamesOk(v)
    && var w := v.leaves[v.win[child]];
       if popping then
         && w.state == WinnerSame && w.kv.Some? && v.cur == Round(Some(w.kv.value.key)) && AllIn(v)
         && (forall i :: 0 <= i < |v.leaves| ==> AtLeastCur(v.leaves[i], v.cur))
       else
         && (w.state == WinnerNew || (w.state == WinnerPopped && w.firstSame == -1))
         && AllPast(v) && AbsentAtHome(v) && (v.cur.Round? ==> AllIn(v))
  }

  function FlatAll(readers: seq<seq<seq<KeyValue>>>): (r: seq<seq<KeyValue>>) {
    seq(|readers|, i requires 0 <= i < |readers| => Flatten(readers[i]))
  }

  class LoserTree {
    const n: nat
    var tree: seq<int>
    var leaves: seq<Leaf>
    var initialized: bool
    ghost var win: seq<int>
    ghost var full: seq<bool>
    ghost var home: seq<int>
    ghost var cur: Cur

    ghost function V(): View reads this {
      View(tree, leaves, win, full, home, cur)
    }

    constructor (readers: seq<seq<seq<KeyValue>>>)
      requires |readers| > 0
      requires forall i :: 0 <= i < |readers| ==> StrictKeys(Flatten(readers[i]))
      ensures Valid() && !initialized && phase == Fresh
      ensures held == multiset(Flatten(FlatAll(readers)))
    {
      n := |readers|;
      tree := seq(|readers|, i => 0);
      leaves := seq(|readers|, i requires 0 <= i < |readers| => Leaf(None, WinnerNew, -1, [], readers[i], false));
      initialized := false;
      win, full, home, cur, phase := [], [], [], NoRound, Fresh;
      held := multiset(Flatten(FlatAll(readers)));
      new;
      assert forall i :: 0 <= i < n ==> Remaining(leaves[i]) == Flatten(readers[i]);
      assert AllRemaining(leaves) == FlatAll(readers);
    }

    /** Reads the next record of an input, skipping empty batches. */
    method AdvanceIfAvailable(i: int)
      requires 0 <= i < |leaves|
      requires leaves[i].ended ==> leaves[i].batch == [] && leaves[i].batches == [] && leaves[i].kv.None?
      modifies this`leaves
      ensures |leaves| == old(|leaves|)
      ensures leaves == old(leaves)[i := leaves[i]] && Advanced(old(leaves[i]), leaves[i])
    {
      var l := leaves[i].(firstSame := -1, state := WinnerNew);
      ghost var r := Rest(l);
      if l.batch == [] {
        while !l.ended
          invariant l.batch == [] && l.state == WinnerNew && l.firstSame == -1
          invariant Rest(l) == r
          invariant l.ended ==> l.batches == [] && l.kv.None?
          decreases |l.batches|, !l.ended
        {
          if l.batches == [] {
            l := l.(ended := true, kv := None);
          } else {
            var batch := l.batches[0];
            l := l.(batches := l.batches[1..]);
            if batch != [] {
              l := l.(kv := Some(batch[0]), batch := batch[1..]);
              break;
            }
          }
        }
      } else {
        l := l.(kv := Some(l.batch[0]), batch := l.batch[1..]);
      }
      leaves := leaves[i := l];
    }

    method SetFirstSameKeyIndex(i: int, index: int)
      requires 0 <= i < |leaves|
      modifies this`leaves
      ensures leaves == old(leaves)[i := MarkFirst(old(leaves)[i], index)]
    {
      if leaves[i].firstSame == -1 {
        leaves := leaves[i := leaves[i].(firstSame := index)];
      }
    }

    /** The arriving winner has the round's key. */
    method AdjustWithSameWinnerKey(index: int, p: int, w: int)
      requires 0 <= p < |leaves| && 0 <= w < |leaves| && p != w
      requires MayMeet(leaves[w], leaves[p], cur) && leaves[w].state == WinnerSame
      modifies this`leaves
      ensures |leaves| == old(|leaves|) && leaves == old(leaves)[p := leaves[p]][w := leaves[w]]
      ensures Matched(index, old(leaves[p]), old(leaves[w]), leaves[p], leaves[w], cur)
    {
      match leaves[p].state
      case LoserSame =>
        if SecondCompare(leaves[p].kv, leaves[w].kv) > 0 {
          leaves := leaves[p := leaves[p].(state := WinnerSame)][w := leaves[w].(state := LoserSame)];
          SetFirstSameKeyIndex(p, index);
        } else {
          SetFirstSameKeyIndex(w, index);
        }
      case LoserNew =>
      case LoserPopped =>
    }

    /** The arriving winner has a key of a later round. */
    method AdjustWithNewWinnerKey(index: int, p: int, w: int)
      requires 0 <= p < |leaves| && 0 <= w < |leaves| && p != w
      requires MayMeet(leaves[w], leaves[p], cur) && leaves[w].state == WinnerNew
      modifies this`leaves
      ensures |leaves| == old(|leaves|) && leaves == old(leaves)[p := leaves[p]][w := leaves[w]]
      ensures Matched(index, old(leaves[p]), old(leaves[w]), leaves[p], leaves[w], cur)
    {
      match leaves[p].state
      case LoserNew =>
        var first := FirstCompare(leaves[p].kv, leaves[w].kv);
        if first == 0 {
          if SecondCompare(leaves[p].kv, leaves[w].kv) < 0 {
            leaves := leaves[p := leaves[p].(state := LoserSame)];
            SetFirstSameKeyIndex(w, index);
          } else {
            leaves := leaves[w := leaves[w].(state := LoserSame)][p := leaves[p].(state := WinnerNew)];
            SetFirstSameKeyIndex(p, index);
          }
        } else if first > 0 {
          leaves := leaves[p := leaves[p].(state := WinnerNew)][w := leaves[w].(state := LoserNew)];
        }
      case LoserPopped =>
        leaves := leaves[p := leaves[p].(state := WinnerPopped, firstSame := -1)]
                        [w := leaves[w].(state := LoserNew)];
    }

    /** Plays the match at `parent` and leaves the loser there. */
    method Meet(parent: int, winner: int) returns (up: int)
      requires 0 <= parent < |tree| && 0 <= tree[parent] < |leaves| && 0 <= winner < |leaves|
      requires tree[parent] != winner
      requires MayMeet(leaves[winner], leaves[tree[parent]], cur)
      modifies this`tree, this`leaves
      ensures var p := old(tree[parent]);
        && |leaves| == old(|leaves|) && leaves == old(leaves)[p := leaves[p]][winner := leaves[winner]]
        && Matched(parent, old(leaves[tree[parent]]), old(leaves[winner]), leaves[p], leaves[winner], cur)
      ensures up == if IsWinner(leaves[winner].state) then winner else old(tree[parent])
      ensures tree == old(tree)[parent := if up == winner then old(tree[parent]) else winner]
    {
      up := winner;
      var p := tree[parent];
      match leaves[winner].state {
        case WinnerNew =>
          AdjustWithNewWinnerKey(parent, p, winner);
        case WinnerSame =>
          AdjustWithSameWinnerKey(parent, p, winner);
      }
      if !IsWinner(leaves[winner].state) {
        up, tree := tree[parent], tree[parent := winner];
      }
    }

    /** Leaves the arriving winner at `parent`, where nobody waits yet. */
    method ParkAt(parent: int, winner: int, ghost child: int)
      requires |leaves| == n && child >= 2 && Walking(V(), child, false)
      requires parent == child / 2 && winner == win[child] && 0 <= parent < |tree| && tree[parent] == -1
      modifies this`tree, this`leaves, this`home
      ensures Kept(old(V()), V()) && Finished(V(), -1, false)
    {
      ghost var v := V();
      leaves := leaves[winner := leaves[winner].(state := LoserNew)];
      tree := tree[parent := winner];
      home := home[winner := parent];
      ParkWalk(v, child, V());
    }

    method MeetAt(parent: int, winner: int, ghost child: int, ghost popping: bool) returns (up: int)
      requires |leaves| == n && child >= 2 && Walking(V(), child, popping) && full[Sibling(child)]
      requires parent == child / 2 && winner == win[child] && leaves[winner].state != WinnerPopped
      modifies this`tree, this`leaves, this`win, this`full, this`home
      ensures Kept(old(V()), V()) && Walking(V(), parent, popping) && up == win[parent]
    {
      ghost var v := V();
      WalkerMayMeet(v, child, popping);
      up := Meet(parent, winner);
      ghost var bot := if up == winner then v.tree[parent] else winner;
      win, full, home := win[parent := up], full[parent := true], home[bot := parent][up := 0];
      assert SameOffers(v.leaves, leaves);
      WalkOn(v, child, V(), up, bot, popping);
    }

    /** Exchanges the popped winner with the deepest unpopped record of its key. */
    method JumpFrom(winner: int, ghost before: View) returns (parent: int, up: int)
      requires |leaves| == n && Popping(before, V(), winner) && leaves[winner].firstSame >= 0
      modifies this`tree, this`leaves, this`win, this`full, this`home
      ensures Kept(old(V()), V()) && Walking(V(), parent, true) && up == win[parent] && parent >= 1
    {
      ghost var v := V();
      EntryFacts(before, v, winner);
      ghost var u := JumpWalk(before, v, winner);
      parent := leaves[winner].firstSame;
      up := tree[parent];
      leaves := leaves[winner := leaves[winner].(state := LoserPopped)]
                      [up := leaves[up].(state := WinnerSame)];
      tree := tree[parent := winner];
      win, full, home := u.win, u.full, u.home;
      assert SameOffers(v.leaves, leaves);
    }

    /** One step of the climb. */
    method Climb(parent: int, winner: int, ghost child: int, ghost popping: bool, ghost before: View)
      returns (parent': int, winner': int, ghost child': int)
      requires |leaves| == n && parent > 0 && winner >= 0
      requires Stage(V(), child, parent, winner, popping, before)
      modifies this`tree, this`leaves, this`win, this`full, this`home
      ensures Kept(old(V()), V())
      ensures Stage(V(), child', parent', winner', popping, before)
      ensures child' != -1 && (child == -1 || parent' < parent)
    {
      ghost var v := V();
      parent', winner', child' := parent, winner, child;
      if child == -1 { EntryFacts(before, v, winner); } else { FrontierFacts(v, child, popping); }
      if tree[parent] == -1 {
        ParkAt(parent, winner, child);
        winner', child' := -1, 0;
      } else if leaves[winner].state == WinnerPopped {
        if leaves[winner].firstSame < 0 {
          // Every record of the key has been popped.
          parent' := -1;
          ghost var u := PoppedFinish(before, v, child, popping, winner);
          win, full, home := u.win, u.full, u.home;
          child' := 0;
        } else {
          parent', winner' := JumpFrom(winner, before);
          child' := parent';
        }
      } else {
        winner' := MeetAt(parent, winner, child, popping);
        child' := parent;
      }
      parent' := parent' / 2;
    }

    /** The climb, up to the root or to a node where nobody waits. */
    method ClimbAll(w: int, ghost popping: bool, ghost before: View)
      returns (winner: int, ghost parent': int, ghost child: int)
      requires if popping then Popping(before, V(), w) else Arriving(V(), w)
      requires |leaves| == n
      modifies this`tree, this`leaves, this`win, this`full, this`home
      ensures Kept(old(V()), V())
      ensures Stage(V(), child, parent', winner, popping, before) && (parent' <= 0 || winner < 0)
    {
      winner := w;
      var parent := (winner + n) / 2;
      child := if popping then -1 else n + w;
      ghost var v0 := V();
      while parent > 0 && winner >= 0
        invariant Kept(v0, V())
        invariant Stage(V(), child, parent, winner, popping, before)
        decreases child == -1, parent
      {
        ghost var v := V();
        parent, winner, child := Climb(parent, winner, child, popping, before);
        KeptTrans(v0, v, V());
      }
      parent' := parent;
    }

    /** Sends the winner `w` up the tree: after it arrived with a new record, or after it was popped. */
    method Adjust(w: int, ghost popping: bool, ghost before: View)
      requires if popping then Popping(before, V(), w) else Arriving(V(), w)
      requires |leaves| == n
      modifies this`tree, this`leaves, this`win, this`full, this`home
      ensures Kept(old(V()), V()) && Adjusted(V(), popping)
    {
      ghost var v0 := V();
      var winner: int;
      ghost var parent, child;
      winner, parent, child := ClimbAll(w, popping, before);
      ghost var u := Crown(before, V(), child, parent, winner, popping);
      KeptTrans(v0, V(), u);
      tree := tree[0 := winner];
      win, full, home := u.win, u.full, u.home;
    }

    /** Where a round stands, as a caller sees it. */
    ghost var phase: Phase
    /** The records not handed out yet. */
    ghost var held: multiset<KeyValue>

    ghost predicate Valid() reads this {
      && n > 0 && |leaves| == n && |tree| == n
      && (initialized ==> 0 <= tree[0] < n && SealedState(V(), held, phase))
      && (!initialized ==> AllUnread(V()) && held == Held(leaves) && phase == Fresh)
    }

    /** Between the steps of a public method. */
    ghost predicate Running() reads this {
      n > 0 && |leaves| == n && |tree| == n && 0 <= tree[0] < n && Sealed(V())
    }

    /** The first read of an input, which then enters the tournament. */
    method Load(i: int, ghost start: seq<Leaf>)
      requires 0 <= i < n && |start| == n && Loading(V(), start, i + 1)
      modifies this`tree, this`leaves, this`win, this`full, this`home
      ensures Loading(V(), start, i)
    {
      ghost var v := V();
      assert leaves[i].batch == [] && !leaves[i].ended by { assert SameOffer(start[i], leaves[i]); }
      AdvanceIfAvailable(i);
      full := full[n + i := true];
      LoadOne(v, start, i, V());
      ghost var u := V();
      Adjust(i, false, u);
      LoadedLeaves(u.leaves, start, i, leaves);
      LoadedTree(u, i, V());
    }

    method StartTournament()
      requires n > 0 && |leaves| == n && cur == NoRound
      requires forall i :: 0 <= i < n ==> Unread(leaves[i])
      modifies this`tree, this`win, this`full, this`home
      ensures Loading(V(), leaves, n)
    {
      tree := seq(n, i => -1);
      win, full, home := seq(2 * n, d => if d >= n then d - n else 0), seq(2 * n, d => false), seq(n, j => 0);
      EmptyTournament(V());
    }

    method LoadAll()
      requires n > 0 && |leaves| == n && cur == NoRound
      requires forall i :: 0 <= i < n ==> Unread(leaves[i])
      modifies this`tree, this`leaves, this`win, this`full, this`home
      ensures Loading(V(), old(leaves), 0)
    {
      ghost var start := leaves;
      StartTournament();
      var i := n - 1;
      while i >= 0
        invariant -1 <= i < n
        invariant Loading(V(), start, i + 1)
      {
        Load(i, start);
        i := i - 1;
      }
    }

    method InitializeIfNeeded()
      requires Valid()
      modifies this
      ensures Valid() && initialized && held == old(held) && phase == old(phase)
    {
      if !initialized {
        ghost var start := leaves;
        LoadAll();
        LoadedReady(V(), start);
        initialized := true;
      }
    }

    /** The record the champion offers, or nothing when the round is over. */
    method PeekWinner() returns (r: Option<KeyValue>)
      requires Valid() && initialized
      ensures r.None? <==> phase.Closed? || (phase.Fresh? && held == multiset{})
      ensures r.Some? ==> r.value in held && LeastOf(r.value, held)
      ensures phase.Open? ==> r.Some? && r.value.key == phase.key
    {
      StateFacts(V(), held, phase);
      if leaves[tree[0]].state != WinnerPopped {
        r := leaves[tree[0]].kv;
        PeekFacts(V(), held, phase);
      } else {
        r := None;
      }
    }

    /** Takes the record of an unpopped champion. */
    method PopChampion(x: int) returns (r: Option<KeyValue>)
      requires Running() && x == tree[0] && !IsPopped(leaves[x])
      modifies this`tree, this`leaves, this`win, this`full, this`home, this`cur
      ensures Running() && r == old(leaves[x].kv) && Delivered(old(leaves), leaves, x)
      ensures cur == Round(if r.Some? then Some(r.value.key) else None)
    {
      r := leaves[x].kv;
      ghost var v := V();
      Unseal(v);
      cur := Round(if r.Some? then Some(r.value.key) else None);
      ghost var before := V();
      EnterRound(v, before);
      leaves := leaves[x := leaves[x].(state := WinnerPopped, kv := None)];
      ghost var popped := V();
      Adjust(x, true, before);
      PoppedReady(before, popped, V(), x);
    }

    method PopOpen(x: int, ghost h: multiset<KeyValue>, ghost p: Phase)
      returns (r: Option<KeyValue>, ghost h': multiset<KeyValue>, ghost p': Phase)
      requires Running() && x == tree[0] && !IsPopped(leaves[x]) && SealedState(V(), h, p)
      modifies this`tree, this`leaves, this`win, this`full, this`home, this`cur
      ensures |leaves| == n && |tree| == n && 0 <= tree[0] < n && SealedState(V(), h', p')
      ensures r == old(leaves[x].kv) && PopResult(r, h, h', p')
    {
      ghost var v := V();
      r := PopChampion(x);
      h', p' := Held(leaves), PhaseOf(V());
      PopFacts(v, V(), x, h, p);
    }

    /** Takes the champion's record. In one round every record taken has the round's key. */
    method PopWinner() returns (r: Option<KeyValue>)
      requires Valid() && initialized
      modifies this
      ensures Valid() && initialized
      ensures r.None? <==> old(phase.Closed? || (phase.Fresh? && held == multiset{}))
      ensures if old(phase.Closed?) then held == old(held) && phase == old(phase)
              else PopResult(r, old(held), held, phase)
      ensures old(phase.Open?) ==> r.Some? && r.value.key == old(phase.key)
    {
      var x := tree[0];
      StateFacts(V(), held, phase);
      if leaves[x].state == WinnerPopped {
        return None;
      }
      PeekFacts(V(), held, phase);
      r, held, phase := PopOpen(x, held, phase);
    }

    /** The popped champion goes back to its leaf and reads its next record. */
    method ReadNext(x: int)
      requires Running() && x == tree[0] && IsPopped(leaves[x])
      modifies this`leaves, this`full
      ensures |leaves| == n && Arriving(V(), x) && RefilledFrom(old(leaves), leaves, x)
      ensures FullFrom(full, n, 0)
    {
      ghost var v := V();
      ghost var b := StepBack(v, x);
      AdvanceIfAvailable(x);
      full := b.full;
      RefillArrives(v, b, x, V());
      AllArrived(V());
    }

    /** The popped champion reads its next record and enters the tournament again. */
    method Refill(x: int)
      requires Running() && x == tree[0] && IsPopped(leaves[x])
      modifies this`tree, this`leaves, this`win, this`full, this`home
      ensures Running() && AllPast(V()) && Refilled(old(leaves), leaves, x)
      ensures AllRemaining(leaves) == old(AllRemaining(leaves))
    {
      ghost var v := V();
      ReadNext(x);
      ghost var u := V();
      Adjust(x, false, u);
      RefillReady(v, u, x, V());
    }

    /** Moves every popped input on. */
    method RefillAll()
      requires Running() && IsPopped(leaves[tree[0]])
      modifies this`tree, this`leaves, this`win, this`full, this`home
      ensures Running() && NonePopped(V()) && AllRemaining(leaves) == old(AllRemaining(leaves))
    {
      assert AllPast(V()) by { Unseal(V()); PoppedChampion(V()); }
      while leaves[tree[0]].state == WinnerPopped
        invariant Running() && AllPast(V()) && AllRemaining(leaves) == old(AllRemaining(leaves))
        decreases PoppedSet(leaves)
      {
        var x := tree[0];
        ghost var was := leaves;
        Refill(x);
        FewerPopped(was, leaves, x);
      }
      Unseal(V());
      RoundOver(V());
    }

    /** Goes on to the next key. */
    method AdjustForNextLoop()
      requires Valid() && initialized
      modifies this
      ensures Valid() && initialized && held == old(held)
      ensures phase == if old(phase.Closed?) then Fresh else old(phase)
    {
      ghost var v := V();
      StateFacts(v, held, phase);
      if leaves[tree[0]].state == WinnerPopped {
        RefillAll();
        phase := Fresh;
        FreshState(v, held, old(phase), V());
      }
    }
  }

  /** A round as a caller sees it: not begun, begun with records of its key left, or complete. */
  datatype Phase = Fresh | Open(key: int) | Closed(last: Option<int>)

  ghost function Held(leaves: seq<Leaf>): multiset<KeyValue> {
    multiset(Flatten(AllRemaining(leaves)))
  }

  ghost function PhaseOf(v: View): Phase
    requires |v.tree| > 0 && 0 <= v.tree[0] < |v.leaves|
  {
    if NonePopped(v) then Fresh
    else if IsPopped(v.leaves[v.tree[0]]) then Closed(if v.cur.Round? then v.cur.key else None)
    else Open(if v.cur.Round? && v.cur.key.Some? then v.cur.key.value else 0)
  }

  ghost predicate StateOk(v: View, held: multiset<KeyValue>, phase: Phase) {
    Ready(v) && held == Held(v.leaves) && phase == PhaseOf(v)
  }

  /** `StateOk`, kept out of the way of proofs that do not call `OpenState`. */
  ghost predicate SealedState(v: View, held: multiset<KeyValue>, phase: Phase) {
    forall u {:trigger Mention(u)} :: Mention(u) && u == v ==> StateOk(u, held, phase)
  }

  lemma OpenState(v: View, held: multiset<KeyValue>, phase: Phase)
    requires SealedState(v, held, phase)
    ensures StateOk(v, held, phase) && Sealed(v)
  {
    assert Mention(v);
  }

  lemma StateFacts(v: View, held: multiset<KeyValue>, phase: Phase)
    requires SealedState(v, held, phase) && |v.tree| > 0 && 0 <= v.tree[0] < |v.leaves|
    ensures Sealed(v) && (v.leaves[v.tree[0]].state == WinnerPopped <==> phase.Closed?)
    ensures v.leaves[v.tree[0]].state == WinnerPopped <==> IsPopped(v.leaves[v.tree[0]])
  {
    OpenState(v, held, phase);
  }

  lemma FreshState(v: View, held: multiset<KeyValue>, phase: Phase, u: View)
    requires SealedState(v, held, phase) && Sealed(u) && NonePopped(u)
    requires AllRemaining(u.leaves) == AllRemaining(v.leaves)
    ensures SealedState(u, held, Fresh)
  {
    OpenState(v, held, phase);
    Unseal(u);
  }

  ghost predicate AllUnread(v: View) {
    v.cur == NoRound && forall i :: 0 <= i < |v.leaves| ==> Unread(v.leaves[i])
  }

  /** `r` comes before all of `m`. */
  ghost predicate LeastOf(r: KeyValue, m: multiset<KeyValue>) {
    forall e :: e in m ==> RecLe(r, e)
  }

  ghost predicate AllAbove(m: multiset<KeyValue>, k: int) {
    forall e :: e in m ==> e.key > k
  }

  lemma HeldIn(leaves: seq<Leaf>, e: KeyValue)
    ensures e in Held(leaves) <==> exists i :: 0 <= i < |leaves| && e in Remaining(leaves[i])
  {
    var c := AllRemaining(leaves);
    InFlatten(c, e);
    if i :| 0 <= i < |leaves| && e in Remaining(leaves[i]) { assert e in c[i]; }
    if i :| 0 <= i < |c| && e in c[i] { assert e in Remaining(leaves[i]); }
  }

  lemma PeekFacts(v: View, held: multiset<KeyValue>, phase: Phase)
    requires SealedState(v, held, phase) && |v.tree| > 0 && 0 <= v.tree[0] < |v.leaves|
    requires !IsPopped(v.leaves[v.tree[0]])
    ensures var r := v.leaves[v.tree[0]].kv;
      && (r.None? <==> phase.Fresh? && held == multiset{})
      && (r.Some? ==> r.value in held && LeastOf(r.value, held))
      && (phase.Open? ==> r.Some? && r.value.key == phase.key)
      && !phase.Closed?
  {
    var x := v.tree[0];
    var r := v.leaves[x].kv;
    OpenState(v, held, phase);
    if !NonePopped(v) {
      var i :| 0 <= i < |v.leaves| && IsPopped(v.leaves[i]);
      RoundIsFixed(v, i);
    }
    if r.Some? {
      LeastOffer(v);
      HeldIn(v.leaves, r.value);
      assert r.value in Remaining(v.leaves[x]);
      forall e | e in held ensures RecLe(r.value, e) { HeldIn(v.leaves, e); }
    } else {
      NothingLeft(v);
      forall e ensures e !in held { HeldIn(v.leaves, e); }
    }
  }

  lemma SealState(u: View)
    requires |u.tree| > 0 && 0 <= u.tree[0] < |u.leaves| && Sealed(u)
    ensures SealedState(u, Held(u.leaves), PhaseOf(u))
  {
    Unseal(u);
  }

  lemma PopHeld(a: seq<Leaf>, b: seq<Leaf>, x: int)
    requires Delivered(a, b, x)
    ensures a[x].kv.Some? ==> Held(a) == Held(b) + multiset{a[x].kv.value}
    ensures a[x].kv.None? ==> Held(a) == Held(b)
  {
    DeliveredContents(a, b, x);
    if a[x].kv.Some? { TakeHead(AllRemaining(a), AllRemaining(b), x, a[x].kv.value); }
  }

  lemma PopPhase(v: View, u: View, x: int, phase: Phase)
    requires Ready(v) && x == v.tree[0] && !IsPopped(v.leaves[x])
    requires Ready(u) && Delivered(v.leaves, u.leaves, x)
    requires var r := v.leaves[x].kv; u.cur == Round(if r.Some? then Some(r.value.key) else None)
    ensures var r := v.leaves[x].kv;
      && (r.None? ==> PhaseOf(u) == Closed(None))
      && (r.Some? ==> PhaseOf(u) == Open(r.value.key)
                      || (PhaseOf(u) == Closed(Some(r.value.key)) && AllAbove(Held(u.leaves), r.value.key)))
  {
    var r := v.leaves[x].kv;
    assert IsPopped(u.leaves[x]) && !NonePopped(u);
    if IsPopped(u.leaves[u.tree[0]]) {
      if r.Some? { ClosedAbove(u, r.value.key); }
    } else {
      RoundIsFixed(u, x);
    }
  }

  /** What the caller learns from a pop. */
  ghost predicate PopResult(r: Option<KeyValue>, held: multiset<KeyValue>, held': multiset<KeyValue>, phase': Phase) {
    && (r.None? ==> held' == held && phase' == Closed(None))
    && (r.Some? ==>
         && held == held' + multiset{r.value} && LeastOf(r.value, held')
         && (phase' == Open(r.value.key) || (phase' == Closed(Some(r.value.key)) && AllAbove(held', r.value.key))))
  }

  lemma PopFacts(v: View, u: View, x: int, held: multiset<KeyValue>, phase: Phase)
    requires SealedState(v, held, phase) && |v.tree| > 0 && x == v.tree[0] && 0 <= x < |v.leaves|
    requires !IsPopped(v.leaves[x])
    requires |u.tree| > 0 && 0 <= u.tree[0] < |u.leaves| && Sealed(u) && Delivered(v.leaves, u.leaves, x)
    requires var r := v.leaves[x].kv; u.cur == Round(if r.Some? then Some(r.value.key) else None)
    ensures SealedState(u, Held(u.leaves), PhaseOf(u))
    ensures PopResult(v.leaves[x].kv, held, Held(u.leaves), PhaseOf(u))
  {
    SealState(u);
    PopHeld(v.leaves, u.leaves, x);
    PeekFacts(v, held, phase);
    Unseal(u);
    OpenState(v, held, phase);
    PopPhase(v, u, x, phase);
  }

  lemma PastRemaining(l: Leaf, k: int, e: KeyValue)
    requires OfferOk(l, Round(Some(k))) && PastCur(l, Round(Some(k))) && e in Remaining(l)
    ensures e.key > k
  {
  }

  lemma ClosedAbove(v: View, k: int)
    requires Ready(v) && IsPopped(v.leaves[v.tree[0]]) && v.cur == Round(Some(k))
    ensures AllAbove(Held(v.leaves), k)
  {
    PoppedChampion(v);
    forall e | e in Held(v.leaves) ensures e.key > k {
      HeldIn(v.leaves, e);
      var i :| 0 <= i < |v.leaves| && e in Remaining(v.leaves[i]);
      PastRemaining(v.leaves[i], k, e);
    }
  }

  /** Input `x` handed out the record it offered; the other inputs are as they were. */
  ghost predicate Delivered(a: seq<Leaf>, b: seq<Leaf>, x: int) {
    && |a| == |b| && 0 <= x < |a|
    && !IsPopped(a[x]) && PoppedFrom(a[x], b[x])
    && (forall i :: 0 <= i < |a| && i != x ==> SameOffer(a[i], b[i]))
  }

  lemma DeliveredContents(a: seq<Leaf>, b: seq<Leaf>, x: int)
    requires Delivered(a, b, x)
    ensures a[x].kv.None? ==> AllRemaining(b) == AllRemaining(a)
    ensures a[x].kv.Some? ==> AllRemaining(a)[x] == [a[x].kv.value] + AllRemaining(b)[x]
    ensures AllRemaining(b) == AllRemaining(a)[x := AllRemaining(b)[x]]
    ensures Drained(a) ==> Drained(b)
    ensures a[x].kv.Some? && Least(a[x].kv.value, a) ==> Least(a[x].kv.value, b)
  {
    assert Rest(b[x]) == Rest(a[x]);
    forall i | 0 <= i < |a| && i != x ensures Remaining(b[i]) == Remaining(a[i]) {
      assert SameOffer(a[i], b[i]);
    }
    if a[x].kv.Some? && Least(a[x].kv.value, a) {
      forall i, e | 0 <= i < |b| && e in Remaining(b[i]) ensures RecLe(a[x].kv.value, e) {
        assert e in Remaining(a[i]);
      }
    }
  }

  /** `r` comes before everything the inputs still hold. */
  ghost predicate Least(r: KeyValue, leaves: seq<Leaf>) {
    forall i, e :: 0 <= i < |leaves| && e in Remaining(leaves[i]) ==> RecLe(r, e)
  }

  ghost predicate Drained(leaves: seq<Leaf>) {
    forall i :: 0 <= i < |leaves| ==> Remaining(leaves[i]) == []
  }

  lemma LeastOffer(v: View)
    requires Ready(v) && !IsPopped(v.leaves[v.tree[0]]) && v.leaves[v.tree[0]].kv.Some?
    ensures Least(v.leaves[v.tree[0]].kv.value, v.leaves)
  {
    var x := v.tree[0];
    var r := v.leaves[x].kv.value;
    forall i, e | 0 <= i < |v.leaves| && e in Remaining(v.leaves[i]) ensures RecLe(r, e) {
      ChampionAhead(v, i);
      assert OfferOk(v.leaves[i], v.cur) && AtLeastCur(v.leaves[x], v.cur);
    }
  }

  lemma NothingLeft(v: View)
    requires Ready(v) && !IsPopped(v.leaves[v.tree[0]]) && v.leaves[v.tree[0]].kv.None?
    ensures Drained(v.leaves) && NonePopped(v)
  {
    forall i | 0 <= i < |v.leaves| ensures Remaining(v.leaves[i]) == [] && !IsPopped(v.leaves[i]) {
      ChampionAhead(v, i);
      assert OfferOk(v.leaves[i], v.cur);
    }
  }

  function AllRemaining(leaves: seq<Leaf>): (r: seq<seq<KeyValue>>) {
    seq(|leaves|, i requires 0 <= i < |leaves| => Remaining(leaves[i]))
  }

  /** An input that has not been read yet. */
  ghost predicate Unread(l: Leaf) {
    l == Leaf(None, WinnerNew, -1, [], l.batches, false) && StrictKeys(Flatten(l.batches))
  }

  ghost predicate NonePopped(v: View) {
    forall i :: 0 <= i < |v.leaves| ==> !IsPopped(v.leaves[i])
  }

  /** The inputs from `lo` on have arrived, the others have not been read. */
  ghost predicate Loading(v: View, start: seq<Leaf>, lo: int) {
    |v.leaves| == |start| && 0 <= lo <= |start| && TreeLoading(v, lo) && LeavesLoading(v.leaves, start, lo)
  }

  ghost predicate TreeLoading(v: View, lo: int) {
    && (if lo == 0 then Champion(v) else Partial(v, 0))
    && FirstSamesOk(v) && AbsentAtHome(v) && v.cur == NoRound && FullFrom(v.full, |v.leaves|, lo)
  }

  ghost predicate FullFrom(full: seq<bool>, n: int, lo: int) {
    |full| == 2 * n && forall d :: n <= d < 2 * n ==> (full[d] <==> d - n >= lo)
  }

  ghost predicate LeavesLoading(leaves: seq<Leaf>, start: seq<Leaf>, lo: int) {
    && |leaves| == |start|
    && (forall j :: 0 <= j < |start| && j < lo ==> SameOffer(start[j], leaves[j]) && Unread(start[j]))
    && (forall j :: 0 <= j < |start| && lo <= j ==> LoadedLeaf(start[j], leaves[j]))
  }

  /** `l` is the input `a` after its first read. */
  ghost predicate LoadedLeaf(a: Leaf, l: Leaf) {
    !IsPopped(l) && OfferOk(l, NoRound) && Remaining(l) == Remaining(a)
  }

  lemma EmptyTournament(v: View)
    requires |v.leaves| > 0 && v.cur == NoRound
    requires forall i :: 0 <= i < |v.leaves| ==> Unread(v.leaves[i])
    requires v.tree == seq(|v.leaves|, i => -1) && v.full == seq(2 * |v.leaves|, d => false)
    requires v.home == seq(|v.leaves|, j => 0)
    requires v.win == seq(2 * |v.leaves|, d => if d >= |v.leaves| then d - |v.leaves| else 0)
    ensures Loading(v, v.leaves, |v.leaves|)
  {
  }

  lemma AdvancedLeaf(a: Leaf, l: Leaf)
    requires Unread(a) && Advanced(a, l)
    ensures LoadedLeaf(a, l)
  {
    if Rest(a) != [] {
      assert Rest(a) == [Rest(a)[0]] + Rest(a)[1..];
    }
  }

  lemma LoadOne(v: View, start: seq<Leaf>, i: int, u: View)
    requires 0 <= i < |start| && Loading(v, start, i + 1) && |u.leaves| == |start|
    requires u == v.(leaves := v.leaves[i := u.leaves[i]], full := v.full[|start| + i := true])
    requires Advanced(v.leaves[i], u.leaves[i])
    ensures Arriving(u, i) && LeavesLoading(u.leaves, start, i) && FullFrom(u.full, |start|, i)
  {
    LoadArrives(v, i, u);
    LoadFills(v.leaves, start, i, u.leaves);
    assert FullFrom(u.full, |start|, i);
    forall j | 0 <= j < |start| ensures !IsPopped(u.leaves[j]) {}
  }

  lemma LoadArrives(v: View, i: int, u: View)
    requires 0 <= i < |v.leaves| && TreeLoading(v, i + 1) && |u.leaves| == |v.leaves|
    requires u == v.(leaves := v.leaves[i := u.leaves[i]], full := v.full[|v.leaves| + i := true])
    requires u.leaves[i].firstSame == -1
    ensures Partial(u, |v.leaves| + i) && FirstSamesOk(u) && AbsentAtHome(u)
  {
    var d := |v.leaves| + i;
    assert !v.full[d] && v.home[d - |v.leaves|] == 0;
    Arrive(v, i, u);
    ArriveMarks(v, i, u);
  }

  lemma LoadFills(leaves: seq<Leaf>, start: seq<Leaf>, i: int, after: seq<Leaf>)
    requires 0 <= i < |start| && LeavesLoading(leaves, start, i + 1) && |after| == |start|
    requires after == leaves[i := after[i]] && Advanced(leaves[i], after[i])
    ensures LeavesLoading(after, start, i)
  {
    AdvancedLeaf(start[i], after[i]);
  }

  lemma LoadedLeaves(u: seq<Leaf>, start: seq<Leaf>, i: int, t: seq<Leaf>)
    requires LeavesLoading(u, start, i) && SameOffers(u, t)
    ensures LeavesLoading(t, start, i)
  {
    forall j | 0 <= j < |start|
      ensures j < i ==> SameOffer(start[j], t[j]) && Unread(start[j])
      ensures i <= j ==> LoadedLeaf(start[j], t[j])
    {
      assert SameOffer(u[j], t[j]);
    }
  }

  lemma LoadedTree(u: View, i: int, t: View)
    requires 0 <= i < |u.leaves| && u.cur == NoRound && FullFrom(u.full, |u.leaves|, i)
    requires Kept(u, t) && Adjusted(t, false)
    ensures TreeLoading(t, i)
  {
    assert FullFrom(t.full, |t.leaves|, i);
    if t.tree[0] >= 0 {
      FullBelow(t, |t.leaves|);
      assert i == 0;
    } else {
      assert i != 0;
    }
  }

  lemma LoadedReady(v: View, start: seq<Leaf>)
    requires Loading(v, start, 0)
    ensures Ready(v) && NonePopped(v) && Held(v.leaves) == Held(start)
  {
    forall i | 0 <= i < |start|
      ensures OfferOk(v.leaves[i], v.cur) && !IsPopped(v.leaves[i]) && Remaining(v.leaves[i]) == Remaining(start[i])
    {
      assert LoadedLeaf(start[i], v.leaves[i]);
    }
    assert AllRemaining(v.leaves) == AllRemaining(start);
  }

  /** A champion is crowned, or an input is still missing. */
  ghost predicate Adjusted(v: View, popping: bool) {
    && |v.tree| > 0
    && (v.tree[0] >= 0 ==> Champion(v))
    && (v.tree[0] < 0 ==> !popping && Partial(v, 0) && FirstSamesOk(v) && AbsentAtHome(v) && !AllIn(v))
  }

  lemma KeptTrans(a: View, b: View, c: View)
    requires Kept(a, b) && Kept(b, c)
    ensures Kept(a, c)
  {
    forall i | 0 <= i < |a.leaves| ensures SameOffer(a.leaves[i], c.leaves[i]) {
      assert SameOffer(a.leaves[i], b.leaves[i]) && SameOffer(b.leaves[i], c.leaves[i]);
    }
  }

  /** Writing the root slot ends the walk. */
  lemma Crown(before: View, v: View, child: int, parent: int, winner: int, popping: bool) returns (u: View)
    requires Stage(v, child, parent, winner, popping, before) && (parent <= 0 || winner < 0)
    ensures |v.tree| > 0 && u == v.(tree := v.tree[0 := winner], win := u.win, full := u.full, home := u.home)
    ensures Kept(v, u)
    ensures Adjusted(u, popping)
  {
    u := v;
    if child == -1 {
      EntryFacts(before, v, winner);
      u := PoppedFinish(before, v, child, popping, winner);
    } else if child >= 1 {
      CrownWalker(v, popping);
    }
    SetRoot(u, if winner < 0 then 0 else 1, winner);
    u := u.(tree := u.tree[0 := winner]);
  }

  lemma CrownWalker(v: View, popping: bool)
    requires Walking(v, 1, popping)
    ensures AllIn(v) && Finished(v, v.win[1], popping)
  {
    forall d | |v.leaves| <= d < 2 * |v.leaves| ensures v.full[d] { FullBelow(v, d); }
  }

  lemma {:induction false} FullBelow(v: View, d: int)
    requires Partial(v, 1) && 1 <= d < 2 * |v.leaves|
    ensures v.full[d]
  {
    Unfold(v, 1);
    if d > 1 {
      FullBelow(v, d / 2);
      assert NodeInv(v, d / 2);
    }
  }

  /** The walk changes labels and places, never what the inputs offer. */
  ghost predicate Kept(v: View, u: View) {
    SameOffers(v.leaves, u.leaves) && SameLeafFull(v, u) && u.cur == v.cur
  }

  /** Where the climb stands: before the first step of a popped champion (`child == -1`), on its
      way up, or finished (`child == 0`). */
  ghost predicate Stage(v: View, child: int, parent: int, winner: int, popping: bool, before: View) {
    if child == -1 then popping && Popping(before, v, winner) && parent == (winner + |v.leaves|) / 2
    else if child == 0 then Finished(v, winner, popping) && (parent <= 0 || winner < 0)
    else child >= 1 && Walking(v, child, popping) && parent == child / 2 && winner == v.win[child]
  }

  ghost predicate SameLeafFull(v: View, u: View) {
    && |u.leaves| == |v.leaves| && |u.full| == |v.full| == 2 * |v.leaves|
    && |u.tree| == |v.leaves| && |u.home| == |v.leaves|
    && forall d :: |v.leaves| <= d < 2 * |v.leaves| ==> u.full[d] == v.full[d]
  }

  /** The walk is over: `winner` is the champion, or it waits for an input that has not arrived. */
  ghost predicate Finished(v: View, winner: int, popping: bool) {
    if winner >= 0 then
      && Partial(v, 1) && AllIn(v) && FirstSamesOk(v) && v.win[1] == winner
      && IsWinner(v.leaves[winner].state)
    else winner == -1 && !popping && Partial(v, 0) && FirstSamesOk(v) && AbsentAtHome(v) && !AllIn(v)
  }

  function MarkFirst(l: Leaf, index: int): Leaf {
    if l.firstSame == -1 then l.(firstSame := index) else l
  }

  /** What a match at node `index` makes of the waiting input `p` and the arriving winner `w`. */
  ghost predicate Matched(index: int, p: Leaf, w: Leaf, p': Leaf, w': Leaf, cur: Cur) {
    && SameOffer(p, p') && SameOffer(w, w')
    && if IsWinner(w'.state) then Beat(index, w, p, w', p', w.state, cur) else Beat(index, p, w, p', w', w.state, cur)
  }

  ghost predicate Beat(index: int, top: Leaf, bot: Leaf, top': Leaf, bot': Leaf, won: State, cur: Cur) {
    && top'.state == (if IsPopped(top') then WinnerPopped else won)
    && bot'.state == LoserLabel(bot', top')
    && Ahead(top', bot', cur)
    && (IsPopped(top') ==> top'.firstSame == -1)
    && (!IsPopped(bot') ==> bot'.firstSame == bot.firstSame)
    && (!IsPopped(top') ==>
          top'.firstSame == if SameKey(bot', top') then MarkFirst(top, index).firstSame else top.firstSame)
  }

  /** A walking winner `w` may play the waiting input `p`. */
  ghost predicate MayMeet(w: Leaf, p: Leaf, cur: Cur) {
    && p.state == WaitLabel(p, cur)
    && ((w.state == WinnerNew && PastCur(w, cur) && PastCur(p, cur) && (IsPopped(p) ==> cur.Round?))
        || (w.state == WinnerSame && w.kv.Some? && cur == Round(Some(w.kv.value.key)) && AtLeastCur(p, cur)))
  }

  lemma WalkerMayMeet(v: View, child: int, popping: bool)
    requires Walking(v, child, popping) && child >= 2 && v.full[Sibling(child)]
    requires v.leaves[v.win[child]].state != WinnerPopped
    ensures 1 <= child / 2 < |v.leaves| && 0 <= v.tree[child / 2] && v.tree[child / 2] != v.win[child]
    ensures MayMeet(v.leaves[v.win[child]], v.leaves[v.tree[child / 2]], v.cur)
  {
    WaiterIsNotMover(v, child);
    Unfold(v, child);
    assert Waits(v, child / 2, Sibling(child));
  }

  lemma OffersKeep(v: View, u: View)
    requires SameOffers(v.leaves, u.leaves) && u.cur == v.cur
    ensures AllPast(v) ==> AllPast(u)
    ensures (forall i :: 0 <= i < |v.leaves| ==> AtLeastCur(v.leaves[i], v.cur)) ==>
      forall i :: 0 <= i < |u.leaves| ==> AtLeastCur(u.leaves[i], u.cur)
  {
    forall i | 0 <= i < |v.leaves| ensures SameOffer(v.leaves[i], u.leaves[i]) {}
  }

  lemma MatchPlayers(v: View, child: int)
    requires Partial(v, child) && child >= 2 && v.full[Sibling(child)]
    ensures 1 <= child / 2 < |v.leaves| && 0 <= v.tree[child / 2]
    ensures v.full[|v.leaves| + v.win[child]] && v.full[|v.leaves| + v.tree[child / 2]]
  {
    WaiterIsNotMover(v, child);
    assert v.full[child] && v.tree[child / 2] == v.win[Sibling(child)] by {
      Unfold(v, child);
      assert Waits(v, child / 2, Sibling(child));
    }
    WinnerArrived(v, child, child);
    WinnerArrived(v, child, Sibling(child));
  }

  lemma AbsentFrame(v: View, u: View, m: int, top: int, bot: int)
    requires Shape(v) && Shape(u) && |u.leaves| == |v.leaves| && AbsentAtHome(v)
    requires 1 <= m < |v.leaves| && 0 <= top < |v.leaves| && 0 <= bot < |v.leaves|
    requires v.full[|v.leaves| + top] && v.full[|v.leaves| + bot]
    requires u.full == v.full[m := true] && u.home == v.home[bot := m][top := 0]
    ensures AbsentAtHome(u)
  {
  }

  lemma AbsentKept(v: View, child: int, u: View, top: int, bot: int)
    requires Partial(v, child) && child >= 2 && v.full[Sibling(child)] && AbsentAtHome(v)
    requires MatchPlayed(v, child, u, top, bot) && Shape(u)
    ensures AbsentAtHome(u)
  {
    MatchPlayers(v, child);
    AbsentFrame(v, u, child / 2, top, bot);
  }

  lemma WalkOn(v: View, child: int, u: View, top: int, bot: int, popping: bool)
    requires Walking(v, child, popping) && child >= 2 && v.full[Sibling(child)]
    requires MatchPlayed(v, child, u, top, bot)
    requires u.leaves[top].state == (if IsPopped(u.leaves[top]) then WinnerPopped else v.leaves[v.win[child]].state)
    requires IsPopped(u.leaves[top]) ==> u.leaves[top].firstSame == -1 && !popping
    requires v.leaves[v.win[child]].state != WinnerPopped
    requires popping ==> u.leaves[top].kv.Some? && u.cur == Round(Some(u.leaves[top].kv.value.key))
    ensures Walking(u, child / 2, popping)
  {
    PlayMatch(v, child, u, top, bot);
    MatchKeepsFirstSame(v, child, u, top, bot);
    assert SameOffers(v.leaves, u.leaves);
    OffersKeep(v, u);
    if !popping { AbsentKept(v, child, u, top, bot); }
    assert u.win[child / 2] == top;
  }

  /** Where the arriving winner stands: nobody waits exactly when the sibling is not settled. */
  lemma FrontierFacts(v: View, child: int, popping: bool)
    requires Walking(v, child, popping) && child >= 2
    ensures 1 <= child / 2 < |v.leaves|
    ensures v.tree[child / 2] == -1 <==> !v.full[Sibling(child)]
    ensures v.tree[child / 2] == -1 ==> v.leaves[v.win[child]].state == WinnerNew && !popping && !AllIn(v)
    ensures IsWinner(v.leaves[v.win[child]].state)
    ensures v.leaves[v.win[child]].state == WinnerPopped ==>
      !popping && v.leaves[v.win[child]].firstSame == -1 && v.cur.Round? && AllIn(v)
  {
    Unfold(v, child);
    if v.full[Sibling(child)] { WaiterIsNotMover(v, child); }
    if AllIn(v) { FullAbove(v, child, Sibling(child)); }
  }

  lemma ParkWalk(v: View, child: int, u: View)
    requires Walking(v, child, false) && child >= 2 && v.tree[child / 2] == -1
    requires Parked(v, child, u)
    ensures Finished(u, -1, false) && SameOffers(v.leaves, u.leaves) && SameLeafFull(v, u)
  {
    FrontierFacts(v, child, false);
    Park(v, child, u);
    Unfold(v, child);
    WinnerArrived(v, child, child);
  }

  lemma EntryFacts(before: View, v: View, x: int)
    requires Popping(before, v, x)
    ensures |v.leaves| > 0 && Shape(v)
    ensures var m := (x + |v.leaves|) / 2; 0 <= m < |v.leaves| && (m > 0 ==> v.tree[m] >= 0)
    ensures var f := v.leaves[x].firstSame;
      f < 0 || (1 <= f < |v.leaves| && v.full[f] && v.win[f] == x && SameAt(before, f)
                && 0 <= v.tree[f] && v.tree[f] != x && !IsPopped(v.leaves[v.tree[f]]))
  {
    Unfold(before, 1);
    assert MarkOk(before, x);
    if v.leaves[x].firstSame >= 0 {
      FullAbove(before, 1, v.leaves[x].firstSame);
      assert NodeInv(before, v.leaves[x].firstSame);
      LoserHome(before, v.leaves[x].firstSame);
    }
    var m := (x + |v.leaves|) / 2;
    if m > 0 {
      FullAbove(before, 1, m);
      assert NodeInv(before, m);
    }
  }

  /** A popped winner with nobody of its key below it is the champion. */
  lemma PoppedFinish(before: View, v: View, child: int, popping: bool, winner: int) returns (u: View)
    requires child == -1 ==> popping && Popping(before, v, winner) && v.leaves[winner].firstSame < 0
    requires child != -1 ==> child >= 1 && !popping && Walking(v, child, popping) && winner == v.win[child]
    requires child != -1 ==> v.leaves[winner].state == WinnerPopped && v.cur.Round? && AllIn(v)
    ensures u == v.(win := u.win, full := u.full, home := u.home)
    ensures Finished(u, winner, popping) && SameLeafFull(v, u) && 0 <= winner
  {
    if child == -1 {
      u := v;
      PopAlone(before, winner, v.leaves[winner]);
    } else {
      u := ClimbPopped(v, child);
    }
  }

  /** The popped champion gives way to the deepest unpopped record of its key. */
  lemma JumpWalk(before: View, v: View, x: int) returns (u: View)
    requires Popping(before, v, x) && v.leaves[x].firstSame >= 0
    ensures var f := v.leaves[x].firstSame; 1 <= f < |v.leaves| && 0 <= v.tree[f] < |v.leaves| && v.tree[f] != x
    ensures var f := v.leaves[x].firstSame; var l := v.tree[f];
      && u.tree == v.tree[f := x]
      && u.leaves == v.leaves[x := v.leaves[x].(state := LoserPopped)][l := v.leaves[l].(state := WinnerSame)]
      && u.cur == v.cur && Walking(u, f, true) && u.win[f] == l
    ensures SameLeafFull(v, u)
  {
    var f := v.leaves[x].firstSame;
    EntryFacts(before, v, x);
    assert MarkOk(before, x) && FirstSameOk(before, x);
    var b := TakeBackTo(before, 1, f);
    var l := b.tree[f];
    JumpSetup(before, b, x, f);
    u := b.(tree := b.tree[f := x], win := b.win[f := l], home := b.home[x := f][l := 0],
            leaves := v.leaves[x := v.leaves[x].(state := LoserPopped)][l := v.leaves[l].(state := WinnerSame)]);
    JumpLands(before, b, x, f, u);
  }

  lemma JumpLands(before: View, b: View, x: int, f: int, u: View)
    requires Shape(before) && AllIn(before) && 0 <= x < |before.leaves| && TakenBackTo(before, x, f, b)
    requires CanJump(b, x, f) && AllIn(b) && 0 <= b.tree[f] && Jumped(b, x, f, u)
    requires u.leaves[b.tree[f]].state == WinnerSame && u.leaves[b.tree[f]].kv.Some?
    requires u.cur == Round(Some(u.leaves[b.tree[f]].kv.value.key))
    requires forall i :: 0 <= i < |b.leaves| && i != x ==> MarkOk(b, i)
    requires forall i :: 0 <= i < |before.leaves| ==> AtLeastCur(before.leaves[i], before.cur)
    ensures Walking(u, f, true)
  {
    JumpPartial(b, x, f, u);
    JumpMarks(b, x, f, u);
    JumpKeepsBound(before, x, b.tree[f], u);
    assert AllIn(u);
  }

  lemma JumpSetup(before: View, b: View, x: int, f: int)
    requires Partial(before, 1) && AllIn(before) && FirstSamesOk(before)
    requires 0 <= x < |before.leaves| && before.win[1] == x && PoppingKey(before, x)
    requires 1 <= f < |before.leaves| && before.leaves[x].firstSame == f && FirstSameOk(before, x)
    requires TakenBackTo(before, x, f, b) && Partial(b, f)
    ensures CanJump(b, x, f) && AllIn(b) && 0 <= b.tree[f] && b.tree[f] != x
    ensures SameKey(b.leaves[b.tree[f]], b.leaves[x])
    ensures forall i :: 0 <= i < |b.leaves| && i != x ==> MarkOk(b, i)
  {
    FullWinner(b, f);
    forall i | 0 <= i < |b.leaves| && i != x ensures MarkOk(b, i) {
      assert MarkOk(before, i);
      if !IsPopped(before.leaves[i]) {
        TakeBackKeepsFirstSame(before, x, f, b, i);
      }
    }
    forall k | 1 <= k < |b.leaves| ensures SameAt(b, k) <==> SameAt(before, k) {}
  }

  lemma JumpKeepsBound(before: View, x: int, l: int, u: View)
    requires 0 <= x < |before.leaves| && 0 <= l < |before.leaves| && |u.leaves| == |before.leaves|
    requires forall i :: 0 <= i < |before.leaves| ==> AtLeastCur(before.leaves[i], before.cur)
    requires u.cur == before.cur && IsPopped(u.leaves[x]) && SameOffer(before.leaves[l], u.leaves[l])
    requires forall i :: 0 <= i < |before.leaves| && i != x && i != l ==> u.leaves[i] == before.leaves[i]
    ensures forall i :: 0 <= i < |u.leaves| ==> AtLeastCur(u.leaves[i], u.cur)
  {
    forall i | 0 <= i < |u.leaves| ensures AtLeastCur(u.leaves[i], u.cur) {
      assert AtLeastCur(before.leaves[i], before.cur);
    }
  }

  /** A popped input fixes the key of the round. */
  lemma RoundIsFixed(v: View, i: int)
    requires Ready(v) && !IsPopped(v.leaves[v.tree[0]])
    requires 0 <= i < |v.leaves| && IsPopped(v.leaves[i])
    ensures v.leaves[v.tree[0]].kv.Some? && v.cur == Round(Some(v.leaves[v.tree[0]].kv.value.key))
  {
    ChampionAhead(v, i);
    assert AtLeastCur(v.leaves[v.tree[0]], v.cur);
  }

  /** Without popped inputs the round's key plays no part. */
  lemma FreshRound(v: View, b: View)
    requires Ready(v) && NonePopped(v) && b == v.(cur := b.cur)
    ensures Partial(b, 1) && AllIn(b) && FirstSamesOk(b)
  {
    var n := |v.leaves|;
    Unfold(v, 1);
    assert Shape(b);
    forall k | 1 <= k < n ensures NodeInv(b, k) {
      FullBelow(v, k); FullBelow(v, 2 * k); FullBelow(v, 2 * k + 1);
      assert NodeInv(v, k);
      assert Settled(v, k) && Settled(b, k);
    }
    forall k | 1 <= k < n ensures SameAt(b, k) <==> SameAt(v, k) {}
    forall i | 0 <= i < n ensures MarkOk(b, i) { assert MarkOk(v, i); }
  }

  lemma EnterRound(v: View, b: View)
    requires Ready(v) && !IsPopped(v.leaves[v.tree[0]])
    requires var l := v.leaves[v.tree[0]];
      b == v.(cur := Round(if l.kv.Some? then Some(l.kv.value.key) else None))
    ensures Partial(b, 1) && AllIn(b) && FirstSamesOk(b) && PoppingKey(b, v.tree[0])
    ensures LosersCanWait(b, v.tree[0])
    ensures forall i :: 0 <= i < |b.leaves| ==> AtLeastCur(b.leaves[i], b.cur)
    ensures !NonePopped(v) ==> b.cur == v.cur
  {
    var x, n := v.tree[0], |v.leaves|;
    if !NonePopped(v) {
      var i :| 0 <= i < n && IsPopped(v.leaves[i]);
      RoundIsFixed(v, i);
    } else {
      FreshRound(v, b);
    }
    Unfold(b, 1);
    forall k | 1 <= k < n && b.full[k] && b.win[k] == x
      ensures 0 <= b.tree[k] && b.leaves[b.tree[k]].state == WaitLabel(b.leaves[b.tree[k]], b.cur)
    {
      assert NodeInv(b, k) && Settled(b, k);
    }
    forall i | 0 <= i < n ensures AtLeastCur(b.leaves[i], b.cur) {
      ChampionAhead(v, i);
    }
  }

  lemma PoppedReady(before: View, v: View, u: View, x: int)
    requires Popping(before, v, x) && OffersOk(before) && Kept(v, u) && Adjusted(u, true)
    ensures Ready(u) && IsPopped(u.leaves[x])
  {
    forall i | 0 <= i < |u.leaves| ensures OfferOk(u.leaves[i], u.cur) && AtLeastCur(u.leaves[i], u.cur) {
      assert SameOffer(v.leaves[i], u.leaves[i]);
      assert AtLeastCur(before.leaves[i], before.cur);
    }
  }

  /** When the champion is popped, everything unpopped belongs to a later round. */
  lemma PoppedChampion(v: View)
    requires Ready(v) && IsPopped(v.leaves[v.tree[0]])
    ensures AllPast(v) && LosersCanWait(v, v.tree[0]) && v.cur.Round?
    ensures v.full[|v.leaves| + v.tree[0]] && v.win[|v.leaves| + v.tree[0]] == v.tree[0]
  {
    var x, n := v.tree[0], |v.leaves|;
    assert OfferOk(v.leaves[x], v.cur);
    forall i | 0 <= i < n ensures PastCur(v.leaves[i], v.cur) {
      ChampionAhead(v, i);
      assert AtLeastCur(v.leaves[i], v.cur);
    }
    Unfold(v, 1);
    forall k | 1 <= k < n && v.full[k] && v.win[k] == x
      ensures 0 <= v.tree[k] && v.leaves[v.tree[k]].state == WaitLabel(v.leaves[v.tree[k]], v.cur)
    {
      assert NodeInv(v, k) && Settled(v, k);
      assert PastCur(v.leaves[v.tree[k]], v.cur);
    }
  }

  /** An unpopped champion of a later round means that nobody is popped any more. */
  lemma RoundOver(v: View)
    requires Ready(v) && !IsPopped(v.leaves[v.tree[0]]) && AllPast(v)
    ensures NonePopped(v)
  {
    forall i | 0 <= i < |v.leaves| ensures !IsPopped(v.leaves[i]) {
      ChampionAhead(v, i);
      assert PastCur(v.leaves[v.tree[0]], v.cur);
    }
  }

  ghost function PoppedSet(leaves: seq<Leaf>): set<int> {
    set i | 0 <= i < |leaves| && IsPopped(leaves[i])
  }

  lemma FewerPopped(a: seq<Leaf>, b: seq<Leaf>, x: int)
    requires Refilled(a, b, x)
    ensures PoppedSet(b) < PoppedSet(a)
  {
    forall i | i in PoppedSet(b) ensures i in PoppedSet(a) { assert i != x; assert SameOffer(a[i], b[i]); }
    assert x in PoppedSet(a) && x !in PoppedSet(b);
  }

  /** `b` is `a` after the popped input `x` has read on. */
  ghost predicate Refilled(a: seq<Leaf>, b: seq<Leaf>, x: int) {
    && |a| == |b| && 0 <= x < |a|
    && !IsPopped(b[x]) && IsPopped(a[x])
    && (forall i :: 0 <= i < |a| && i != x ==> SameOffer(a[i], b[i]))
  }

  ghost predicate Advanced(a: Leaf, l: Leaf) {
    && l.state == WinnerNew && l.firstSame == -1
    && (l.ended ==> l.batch == [] && l.batches == [] && l.kv.None?)
    && (if Rest(a) == [] then l.kv == None && Rest(l) == []
        else l.kv == Some(Rest(a)[0]) && Rest(l) == Rest(a)[1..])
  }

  lemma AdvancedOffer(a: Leaf, l: Leaf, cur: Cur)
    requires OfferOk(a, cur) && IsPopped(a) && Advanced(a, l)
    ensures OfferOk(l, cur) && PastCur(l, cur) && Remaining(l) == Remaining(a)
  {
    if Rest(a) != [] {
      assert Rest(a) == [Rest(a)[0]] + Rest(a)[1..];
      assert Rest(a)[0] in Rest(a);
    }
  }

  lemma RefillMarks(v: View, x: int, b: View)
    requires Shape(v) && FirstSamesOk(v) && AllIn(v)
    requires TakenBackTo(v, x, |v.leaves| + x, b) && Shape(b)
    ensures forall i :: 0 <= i < |b.leaves| && i != x ==> MarkOk(b, i)
  {
    forall i | 0 <= i < |v.leaves| && i != x ensures MarkOk(b, i) {
      assert MarkOk(v, i);
      if v.full[|v.leaves| + i] && !IsPopped(v.leaves[i]) {
        TakeBackKeepsFirstSame(v, x, |v.leaves| + x, b, i);
      }
    }
  }

  /** What the inputs hold when `x` has read on and the others only changed labels. */
  ghost predicate RefilledFrom(a: seq<Leaf>, b: seq<Leaf>, x: int) {
    && |a| == |b| && 0 <= x < |a| && IsPopped(a[x]) && !IsPopped(b[x])
    && (exists l :: Advanced(a[x], l) && SameOffer(l, b[x]))
    && (forall i :: 0 <= i < |a| && i != x ==> SameOffer(a[i], b[i]))
  }

  lemma RefillOffer(a: seq<Leaf>, b: seq<Leaf>, x: int, cur: Cur, i: int)
    requires RefilledFrom(a, b, x) && 0 <= i < |a| && OfferOk(a[i], cur) && PastCur(a[i], cur)
    ensures OfferOk(b[i], cur) && PastCur(b[i], cur) && Remaining(b[i]) == Remaining(a[i])
  {
    if i == x {
      var l :| Advanced(a[x], l) && SameOffer(l, b[x]);
      AdvancedOffer(a[x], l, cur);
    } else {
      assert SameOffer(a[i], b[i]);
    }
  }

  lemma RefillOffers(a: seq<Leaf>, b: seq<Leaf>, x: int, cur: Cur)
    requires RefilledFrom(a, b, x)
    requires forall i :: 0 <= i < |a| ==> OfferOk(a[i], cur) && PastCur(a[i], cur)
    ensures forall i :: 0 <= i < |b| ==> OfferOk(b[i], cur)
    ensures forall i :: 0 <= i < |b| ==> PastCur(b[i], cur)
    ensures forall i :: 0 <= i < |b| ==> AtLeastCur(b[i], cur)
    ensures AllRemaining(b) == AllRemaining(a)
  {
    forall i | 0 <= i < |b|
      ensures OfferOk(b[i], cur) && PastCur(b[i], cur) && Remaining(b[i]) == Remaining(a[i])
    {
      RefillOffer(a, b, x, cur, i);
    }
  }

  lemma StepBack(v: View, x: int) returns (b: View)
    requires Sealed(v) && |v.tree| > 0 && x == v.tree[0] && 0 <= x < |v.leaves| && IsPopped(v.leaves[x])
    ensures Shape(v) && TakenBackTo(v, x, |v.leaves| + x, b) && Partial(b, |v.leaves| + x)
    ensures v.leaves[x].ended ==> v.leaves[x].batch == [] && v.leaves[x].batches == [] && v.leaves[x].kv.None?
  {
    Unseal(v);
    PoppedChampion(v);
    assert OfferOk(v.leaves[x], v.cur);
    b := TakeBackTo(v, 1, |v.leaves| + x);
  }

  lemma AllArrived(u: View)
    requires Shape(u) && FullFrom(u.full, |u.leaves|, 0)
    ensures AllIn(u) && AbsentAtHome(u)
  {
  }

  /** The tree when the popped input `x` has read on at its leaf. */
  lemma RefillTree(v: View, b: View, x: int, u: View)
    requires Sealed(v) && 0 <= x < |v.leaves| && Shape(v)
    requires TakenBackTo(v, x, |v.leaves| + x, b) && Reoffered(b, x, u)
    requires Advanced(v.leaves[x], u.leaves[x])
    ensures Partial(u, |u.leaves| + x) && FirstSamesOk(u) && FullFrom(u.full, |u.leaves|, 0)
  {
    RefillFull(v, b, x);
    NewOffer(b, x, u);
    NewOfferMarks(b, x, u);
  }

  lemma RefillArrives(v: View, b: View, x: int, u: View)
    requires Sealed(v) && |v.tree| > 0 && x == v.tree[0] && 0 <= x < |v.leaves| && IsPopped(v.leaves[x])
    requires Shape(v) && TakenBackTo(v, x, |v.leaves| + x, b) && Reoffered(b, x, u)
    requires Advanced(v.leaves[x], u.leaves[x])
    ensures RefilledFrom(v.leaves, u.leaves, x) && AllPast(u)
    ensures Partial(u, |u.leaves| + x) && FirstSamesOk(u) && FullFrom(u.full, |u.leaves|, 0)
  {
    RefillTree(v, b, x, u);
    RefillLeaves(v, x, u);
  }

  lemma RefillFull(v: View, b: View, x: int)
    requires Sealed(v) && 0 <= x < |v.leaves| && Shape(v)
    requires TakenBackTo(v, x, |v.leaves| + x, b) && Shape(b)
    ensures FullFrom(b.full, |v.leaves|, 0)
    ensures forall i :: 0 <= i < |b.leaves| && i != x ==> MarkOk(b, i)
  {
    Unseal(v);
    RefillMarks(v, x, b);
  }

  lemma RefillLeaves(v: View, x: int, u: View)
    requires Sealed(v) && |v.tree| > 0 && x == v.tree[0] && 0 <= x < |v.leaves| && IsPopped(v.leaves[x])
    requires |u.leaves| == |v.leaves| && u.leaves == v.leaves[x := u.leaves[x]] && u.cur == v.cur
    requires Advanced(v.leaves[x], u.leaves[x])
    ensures AllPast(u) && v.cur.Round? && RefilledFrom(v.leaves, u.leaves, x)
  {
    Unseal(v);
    PoppedChampion(v);
    assert SameOffer(u.leaves[x], u.leaves[x]);
    assert RefilledFrom(v.leaves, u.leaves, x);
    RefillOffers(v.leaves, u.leaves, x, v.cur);
  }

  lemma RefillReady(v: View, u: View, x: int, t: View)
    requires Sealed(v) && |v.tree| > 0 && x == v.tree[0] && RefilledFrom(v.leaves, u.leaves, x)
    requires u.cur == v.cur && |u.full| == 2 * |u.leaves| && FullFrom(u.full, |u.leaves|, 0)
    requires Kept(u, t) && Adjusted(t, false)
    ensures Ready(t) && AllPast(t) && AllRemaining(t.leaves) == AllRemaining(v.leaves)
    ensures Refilled(v.leaves, t.leaves, x)
  {
    Unseal(v);
    PoppedChampion(v);
    RefillKept(v.leaves, u.leaves, t.leaves, x);
    RefillOffers(v.leaves, t.leaves, x, v.cur);
  }

  lemma RefillKept(a: seq<Leaf>, b: seq<Leaf>, c: seq<Leaf>, x: int)
    requires RefilledFrom(a, b, x) && SameOffers(b, c)
    ensures RefilledFrom(a, c, x) && Refilled(a, c, x)
  {
    assert SameOffer(b[x], c[x]);
    var l :| Advanced(a[x], l) && SameOffer(l, b[x]);
    assert SameOffer(l, c[x]);
    forall i | 0 <= i < |a| && i != x ensures SameOffer(a[i], c[i]) {
      assert SameOffer(a[i], b[i]) && SameOffer(b[i], c[i]);
    }
  }
}
