/** `_CalculateReorderSpans` of build_support/fix_includes.py: which move spans may be reordered among
    each other. */
module ReorderSpans {
  import opened Records
  import opened FileLines
  import opened MoveSpans

  ghost predicate HasBarrier(lines: seq<LineInfo>, s: Span)
    requires Within(s, |lines|)
  {
    exists i :: In(i, s) && !lines[i].deleted && lines[i].barrier
  }

  ghost predicate AllBlank(lines: seq<LineInfo>, lo: int, hi: int) {
    forall i :: 0 <= i < |lines| && lo <= i < hi ==> lines[i].deleted || lines[i].kind == Blank
  }

  method ContainsBarrierInclude(f: SourceFile, s: Span) returns (r: bool)
    requires Within(s, |f.lines|)
    ensures r <==> HasBarrier(f.lines, s)
  {
    var i := s.lo;
    while i < s.hi
      invariant s.lo <= i <= s.hi
      invariant forall j :: s.lo <= j < i ==> f.lines[j].deleted || !f.lines[j].barrier
    {
      if !f.lines[i].deleted && f.lines[i].barrier {
        assert In(i, s);
        return true;
      }
      i := i + 1;
    }
    return false;
  }

  method LinesAreAllBlank(f: SourceFile, lo: int, hi: int) returns (r: bool)
    requires 0 <= lo && hi <= |f.lines|
    ensures r <==> AllBlank(f.lines, lo, hi)
  {
    var i := lo;
    while i < hi
      invariant lo <= i && forall j :: lo <= j < i && j < hi ==> f.lines[j].deleted || f.lines[j].kind == Blank
    {
      if !f.lines[i].deleted && f.lines[i].kind != Blank {
        return false;
      }
      i := i + 1;
    }
    return true;
  }

  /** Spans in file order, none touching another. */
  ghost predicate Sorted(spans: seq<Span>, n: int) {
    && (forall k :: 0 <= k < |spans| ==> Within(spans[k], n))
    && (forall j, k :: 0 <= j < k < |spans| ==> spans[j].hi <= spans[k].lo)
  }

  /** `spans` lists the move spans of the file. */
  ghost predicate ListsMoveSpans(lines: seq<LineInfo>, spans: seq<Span>) {
    && Sorted(spans, |lines|)
    && forall s :: s in spans <==> exists i :: 0 <= i < |lines| && lines[i].moveSpan == Some(s)
  }

  /** The move spans that begin before line `i`. */
  ghost predicate ListsUpTo(lines: seq<LineInfo>, spans: seq<Span>, i: int) {
    && Sorted(spans, |lines|)
    && (forall s :: s in spans ==> s.lo < i && lines[s.lo].moveSpan == Some(s))
    && (forall j :: 0 <= j < i && j < |lines| && lines[j].moveSpan.Some? ==> lines[j].moveSpan.value in spans)
  }

  /** A line of one move span is in no other. */
  lemma OtherSpan(lines: seq<LineInfo>, t: Span, i: int)
    requires 0 <= i < |lines| && lines[i].moveSpan != Some(t)
    requires forall j :: In(j, t) ==> 0 <= j < |lines| && lines[j].moveSpan == Some(t)
    ensures !In(i, t)
  {
  }

  lemma ListNext(lines: seq<LineInfo>, spans: seq<Span>, i: int)
    requires SpansWhole(lines) && 0 <= i < |lines| && ListsUpTo(lines, spans, i)
    ensures var spans' := if lines[i].moveSpan.Some? && lines[i].moveSpan.value.lo == i
                          then spans + [lines[i].moveSpan.value] else spans;
      ListsUpTo(lines, spans', i + 1)
  {
    if lines[i].moveSpan.Some? {
      assert WholeAt(lines, i);
      var s := lines[i].moveSpan.value;
      if s.lo == i {
        forall k | 0 <= k < |spans| ensures spans[k].hi <= i {
          var t := spans[k];
          assert t in spans && WholeAt(lines, t.lo);
          OtherSpan(lines, t, i);
        }
      } else {
        assert In(s.lo, s);
        assert lines[s.lo].moveSpan == Some(s);
      }
    }
  }

  lemma ListComplete(lines: seq<LineInfo>, spans: seq<Span>)
    requires SpansWhole(lines) && ListsUpTo(lines, spans, |lines|)
    ensures ListsMoveSpans(lines, spans)
  {
  }

  /** The distinct move spans in order. */
  method SortedMoveSpans(f: SourceFile) returns (spans: seq<Span>)
    requires SpansWhole(f.lines)
    ensures ListsMoveSpans(f.lines, spans)
  {
    spans := [];
    var i := 0;
    while i < |f.lines|
      invariant 0 <= i <= |f.lines| && ListsUpTo(f.lines, spans, i)
    {
      ListNext(f.lines, spans, i);
      if f.lines[i].moveSpan.Some? && f.lines[i].moveSpan.value.lo == i {
        spans := spans + [f.lines[i].moveSpan.value];
      }
      i := i + 1;
    }
    ListComplete(f.lines, spans);
  }

  /** Span `k` and its successor may be reordered among each other. */
  ghost predicate Linked(lines: seq<LineInfo>, spans: seq<Span>, k: int)
    requires Sorted(spans, |lines|)
  {
    && 0 <= k < |spans| - 1
    && !HasBarrier(lines, spans[k]) && !HasBarrier(lines, spans[k+1])
    && AllBlank(lines, spans[k].hi, spans[k+1].lo)
  }

  /** The first span of the group of span `p`. */
  ghost function First(lines: seq<LineInfo>, spans: seq<Span>, p: int): (r: int)
    requires Sorted(spans, |lines|) && 0 <= p < |spans|
    ensures 0 <= r <= p
    decreases p
  {
    if Linked(lines, spans, p - 1) then First(lines, spans, p - 1) else p
  }

  /** The last span of the group of span `p`. */
  ghost function Final(lines: seq<LineInfo>, spans: seq<Span>, p: int): (r: int)
    requires Sorted(spans, |lines|) && 0 <= p < |spans|
    ensures p <= r < |spans|
    decreases |spans| - p
  {
    if Linked(lines, spans, p) then Final(lines, spans, p + 1) else p
  }

  /** The reorder span of move span `p`. */
  ghost function Group(lines: seq<LineInfo>, spans: seq<Span>, p: int): (r: Span)
    requires Sorted(spans, |lines|) && 0 <= p < |spans|
  {
    Span(spans[First(lines, spans, p)].lo, spans[Final(lines, spans, p)].hi)
  }

  lemma {:induction false} FirstIs(lines: seq<LineInfo>, spans: seq<Span>, p: int)
    requires Sorted(spans, |lines|) && 0 <= p < |spans|
    ensures forall k :: First(lines, spans, p) <= k < p ==> Linked(lines, spans, k)
    ensures !Linked(lines, spans, First(lines, spans, p) - 1)
    decreases p
  {
    if Linked(lines, spans, p - 1) { FirstIs(lines, spans, p - 1); }
  }

  lemma {:induction false} FinalIs(lines: seq<LineInfo>, spans: seq<Span>, p: int)
    requires Sorted(spans, |lines|) && 0 <= p < |spans|
    ensures forall k :: p <= k < Final(lines, spans, p) ==> Linked(lines, spans, k)
    ensures !Linked(lines, spans, Final(lines, spans, p))
    decreases |spans| - p
  {
    if Linked(lines, spans, p) { FinalIs(lines, spans, p + 1); }
  }

  ghost predicate AllLinked(lines: seq<LineInfo>, spans: seq<Span>, p: int, q: int)
    requires Sorted(spans, |lines|)
  {
    forall k :: p <= k < q ==> Linked(lines, spans, k)
  }

  lemma {:induction false} LinkedSameGroup(lines: seq<LineInfo>, spans: seq<Span>, p: int, q: int)
    requires Sorted(spans, |lines|) && 0 <= p <= q < |spans| && AllLinked(lines, spans, p, q)
    ensures First(lines, spans, p) == First(lines, spans, q) && Final(lines, spans, p) == Final(lines, spans, q)
    decreases q - p
  {
    if p < q {
      LinkedSameGroup(lines, spans, p, q - 1);
      assert Linked(lines, spans, q - 1);
    }
  }

  /** Two move spans share a reorder span exactly when every step between them is linked. */
  lemma SameGroupIff(lines: seq<LineInfo>, spans: seq<Span>, p: int, q: int)
    requires Sorted(spans, |lines|) && 0 <= p <= q < |spans|
    ensures Group(lines, spans, p) == Group(lines, spans, q) <==> AllLinked(lines, spans, p, q)
    ensures Group(lines, spans, p) != Group(lines, spans, q) ==>
      Group(lines, spans, p).hi <= Group(lines, spans, q).lo
  {
    if AllLinked(lines, spans, p, q) {
      LinkedSameGroup(lines, spans, p, q);
    } else {
      FirstIs(lines, spans, q);
      FinalIs(lines, spans, p);
      var f, l := First(lines, spans, q), Final(lines, spans, p);
      assert l < f;
      assert spans[l].hi <= spans[f].lo;
    }
  }

  /** A reorder span holds nothing but move spans and blank or deleted lines. */
  lemma GroupContent(lines: seq<LineInfo>, spans: seq<Span>, p: int, i: int)
    requires Sorted(spans, |lines|) && 0 <= p < |spans| && In(i, Group(lines, spans, p))
    ensures 0 <= i < |lines|
    ensures lines[i].deleted || lines[i].kind == Blank || exists k :: 0 <= k < |spans| && In(i, spans[k])
  {
    FirstIs(lines, spans, p);
    FinalIs(lines, spans, p);
    var f, l := First(lines, spans, p), Final(lines, spans, p);
    assert AllLinked(lines, spans, f, l);
    CoveredBy(lines, spans, f, l, i);
  }

  lemma {:induction false} CoveredBy(lines: seq<LineInfo>, spans: seq<Span>, f: int, l: int, i: int)
    requires Sorted(spans, |lines|) && 0 <= f <= l < |spans| && AllLinked(lines, spans, f, l)
    requires spans[f].lo <= i < spans[l].hi
    ensures 0 <= i < |lines|
    ensures lines[i].deleted || lines[i].kind == Blank || exists k :: 0 <= k < |spans| && In(i, spans[k])
    decreases l - f
  {
    if i < spans[f].hi {
      assert In(i, spans[f]);
    } else {
      assert Linked(lines, spans, f);
      if i >= spans[f+1].lo { CoveredBy(lines, spans, f + 1, l, i); }
    }
  }

  /** A barrier is alone in its reorder span. */
  lemma BarrierAlone(lines: seq<LineInfo>, spans: seq<Span>, p: int)
    requires Sorted(spans, |lines|) && 0 <= p < |spans| && HasBarrier(lines, spans[p])
    ensures Group(lines, spans, p) == spans[p]
  {
    assert !Linked(lines, spans, p - 1) && !Linked(lines, spans, p);
  }

  lemma LinksStay(a: seq<LineInfo>, b: seq<LineInfo>, spans: seq<Span>, k: int)
    requires Sorted(spans, |a|) && MoreDeleted(a, b) && Linked(a, spans, k)
    ensures Linked(b, spans, k)
  {
    forall i, s | s == spans[k] || s == spans[k+1]
      ensures In(i, s) && !b[i].deleted && b[i].barrier ==> !a[i].deleted && a[i].barrier
    {
    }
  }

  /** Deleting more lines only coarsens: every old reorder span lies within a new one. */
  lemma Coarsens(a: seq<LineInfo>, b: seq<LineInfo>, spans: seq<Span>, p: int)
    requires Sorted(spans, |a|) && MoreDeleted(a, b) && 0 <= p < |spans|
    ensures Group(b, spans, p).lo <= Group(a, spans, p).lo && Group(a, spans, p).hi <= Group(b, spans, p).hi
    ensures forall q :: 0 <= q < |spans| && Group(a, spans, p) == Group(a, spans, q) ==>
      Group(b, spans, p) == Group(b, spans, q)
  {
    CoarsensPair(a, b, spans, First(a, spans, p), p);
    CoarsensPair(a, b, spans, p, Final(a, spans, p));
    FirstIs(a, spans, p);
    FinalIs(a, spans, p);
    forall q | 0 <= q < |spans| && Group(a, spans, p) == Group(a, spans, q)
      ensures Group(b, spans, p) == Group(b, spans, q)
    {
      if p <= q { SameGroupIff(a, spans, p, q); CoarsensPair(a, b, spans, p, q); }
      else { SameGroupIff(a, spans, q, p); CoarsensPair(a, b, spans, q, p); }
    }
  }

  lemma CoarsensPair(a: seq<LineInfo>, b: seq<LineInfo>, spans: seq<Span>, p: int, q: int)
    requires Sorted(spans, |a|) && MoreDeleted(a, b) && 0 <= p <= q < |spans|
    ensures AllLinked(a, spans, p, q) ==>
      First(b, spans, p) == First(b, spans, q) && Final(b, spans, p) == Final(b, spans, q)
  {
    if AllLinked(a, spans, p, q) {
      forall k | p <= k < q ensures Linked(b, spans, k) { assert Linked(a, spans, k); LinksStay(a, b, spans, k); }
      LinkedSameGroup(b, spans, p, q);
    }
  }

  /** `b` is `a` with `s` written over its own lines. */
  ghost predicate WrittenOver(a: seq<LineInfo>, s: Span, b: seq<LineInfo>) {
    && |b| == |a|
    && forall i :: 0 <= i < |a| ==> b[i] == if In(i, s) then a[i].(reorderSpan := Some(s)) else a[i]
  }

  method WriteReorderSpan(f: SourceFile, s: Span)
    requires 0 <= s.lo && s.hi <= |f.lines|
    modifies f
    ensures WrittenOver(old(f.lines), s, f.lines)
  {
    var i := s.lo;
    while i < s.hi
      invariant s.lo <= i && |f.lines| == |old(f.lines)|
      invariant forall j :: 0 <= j < |f.lines| ==>
        f.lines[j] == if s.lo <= j < i && j < s.hi then old(f.lines)[j].(reorderSpan := Some(s)) else old(f.lines)[j]
    {
      f.lines := f.lines[i := f.lines[i].(reorderSpan := Some(s))];
      i := i + 1;
    }
  }

  /** The end of the group that begins with span `p`. */
  method GroupEnd(f: SourceFile, spans: seq<Span>, p: int) returns (e: int)
    requires Sorted(spans, |f.lines|) && 0 <= p < |spans|
    ensures e == Final(f.lines, spans, p)
  {
    e := p;
    var barrier := ContainsBarrierInclude(f, spans[e]);
    if !barrier {
      while e < |spans| - 1
        invariant p <= e < |spans| && Final(f.lines, spans, e) == Final(f.lines, spans, p)
        invariant !HasBarrier(f.lines, spans[e])
      {
        var blank := LinesAreAllBlank(f, spans[e].hi, spans[e+1].lo);
        var next := ContainsBarrierInclude(f, spans[e+1]);
        if blank && !next {
          e := e + 1;
        } else {
          break;
        }
      }
    }
  }

  /** Only the reorder spans differ. */
  ghost predicate SameButReorder(a: seq<LineInfo>, b: seq<LineInfo>) {
    |a| == |b| && forall i :: 0 <= i < |a| ==> b[i] == a[i].(reorderSpan := b[i].reorderSpan)
  }

  lemma {:induction false} SameFinal(a: seq<LineInfo>, b: seq<LineInfo>, spans: seq<Span>, p: int)
    requires SameButReorder(a, b) && Sorted(spans, |a|) && 0 <= p < |spans|
    ensures Final(a, spans, p) == Final(b, spans, p)
    decreases |spans| - p
  {
    SameLinks(a, b, spans, p);
    if Linked(a, spans, p) { SameFinal(a, b, spans, p + 1); }
  }

  lemma SameBarrier(a: seq<LineInfo>, b: seq<LineInfo>, s: Span)
    requires SameButReorder(a, b) && Within(s, |a|)
    ensures HasBarrier(a, s) <==> HasBarrier(b, s)
  {
    if i :| In(i, s) && !a[i].deleted && a[i].barrier { assert b[i].barrier; }
    if i :| In(i, s) && !b[i].deleted && b[i].barrier { assert a[i].barrier; }
  }

  lemma SameLinks(a: seq<LineInfo>, b: seq<LineInfo>, spans: seq<Span>, k: int)
    requires SameButReorder(a, b) && Sorted(spans, |a|)
    ensures Linked(a, spans, k) <==> Linked(b, spans, k)
  {
    if 0 <= k < |spans| - 1 {
      SameBarrier(a, b, spans[k]);
      SameBarrier(a, b, spans[k+1]);
    }
  }

  /** The lines of the groups before span `p` carry their groups; other lines are as before. */
  ghost predicate Grouped(start: seq<LineInfo>, spans: seq<Span>, p: int, lines: seq<LineInfo>)
    requires Sorted(spans, |start|)
  {
    && SameButReorder(start, lines)
    && (forall k, i :: 0 <= k < p && k < |spans| && In(i, Group(start, spans, k)) && 0 <= i < |lines| ==>
          lines[i].reorderSpan == Some(Group(start, spans, k)))
    && (forall i :: 0 <= i < |lines| && lines[i].reorderSpan != start[i].reorderSpan ==>
          exists k :: 0 <= k < p && k < |spans| && In(i, Group(start, spans, k)))
  }

  /** A group begins at span `p`. */
  ghost predicate Begins(lines: seq<LineInfo>, spans: seq<Span>, p: int)
    requires Sorted(spans, |lines|)
  {
    0 <= p <= |spans| && (p < |spans| ==> First(lines, spans, p) == p)
  }

  lemma GroupOf(start: seq<LineInfo>, spans: seq<Span>, p: int, k: int)
    requires Sorted(spans, |start|) && 0 <= p < |spans| && Begins(start, spans, p)
    requires p <= k <= Final(start, spans, p)
    ensures Group(start, spans, k) == Span(spans[p].lo, spans[Final(start, spans, p)].hi)
  {
    FinalIs(start, spans, p);
    assert AllLinked(start, spans, p, k);
    LinkedSameGroup(start, spans, p, k);
  }

  lemma EarlierApart(start: seq<LineInfo>, spans: seq<Span>, p: int, k: int)
    requires Sorted(spans, |start|) && 0 <= p < |spans| && Begins(start, spans, p) && 0 <= k < p
    ensures Group(start, spans, k).hi <= spans[p].lo
  {
    FirstIs(start, spans, p);
    SameGroupIff(start, spans, k, p);
    assert !Linked(start, spans, p - 1);
    assert !AllLinked(start, spans, k, p);
  }

  lemma GroupNext(start: seq<LineInfo>, spans: seq<Span>, p: int, lines: seq<LineInfo>, e: int, lines': seq<LineInfo>)
    requires Sorted(spans, |start|) && 0 <= p < |spans| && Begins(start, spans, p)
    requires Grouped(start, spans, p, lines) && e == Final(start, spans, p)
    requires WrittenOver(lines, Span(spans[p].lo, spans[e].hi), lines')
    ensures Grouped(start, spans, e + 1, lines')
  {
    var g := Span(spans[p].lo, spans[e].hi);
    forall k, i | 0 <= k < e + 1 && k < |spans| && In(i, Group(start, spans, k)) && 0 <= i < |lines'|
      ensures lines'[i].reorderSpan == Some(Group(start, spans, k))
    {
      if k < p { EarlierApart(start, spans, p, k); } else { GroupOf(start, spans, p, k); }
    }
    forall i | 0 <= i < |lines'| && lines'[i].reorderSpan != start[i].reorderSpan
      ensures exists k :: 0 <= k < e + 1 && k < |spans| && In(i, Group(start, spans, k))
    {
      if In(i, g) {
        GroupOf(start, spans, p, p);
        assert In(i, Group(start, spans, p));
      } else {
        assert lines[i].reorderSpan != start[i].reorderSpan;
        var k :| 0 <= k < p && k < |spans| && In(i, Group(start, spans, k));
      }
    }
  }

  lemma NextBegins(start: seq<LineInfo>, spans: seq<Span>, p: int)
    requires Sorted(spans, |start|) && 0 <= p < |spans|
    ensures Begins(start, spans, Final(start, spans, p) + 1)
  {
    FinalIs(start, spans, p);
  }

  /** No line of either move span is a live barrier, and every line between them is deleted or blank. */
  ghost predicate Mixable(lines: seq<LineInfo>, s: Span, t: Span) {
    && (forall i :: 0 <= i < |lines| && (s.lo <= i < s.hi || t.lo <= i < t.hi) ==>
          lines[i].deleted || !lines[i].barrier)
    && (forall i :: 0 <= i < |lines| && s.hi <= i < t.lo ==> lines[i].deleted || lines[i].kind == Blank)
  }

  lemma MixableIsLinked(lines: seq<LineInfo>, spans: seq<Span>, k: int)
    requires Sorted(spans, |lines|) && 0 < k < |spans|
    ensures Mixable(lines, spans[k-1], spans[k]) <==> Linked(lines, spans, k - 1)
  {
    if Linked(lines, spans, k - 1) {
      forall i | 0 <= i < |lines| && (spans[k-1].lo <= i < spans[k-1].hi || spans[k].lo <= i < spans[k].hi)
        ensures lines[i].deleted || !lines[i].barrier
      {
        assert In(i, spans[k-1]) || In(i, spans[k]);
      }
    }
  }

  /** Neighbouring move spans share a reorder span exactly if they may be mixed. */
  lemma NeighboursShare(start: seq<LineInfo>, spans: seq<Span>, lines: seq<LineInfo>, k: int)
    requires Sorted(spans, |start|) && Grouped(start, spans, |spans|, lines) && 0 < k < |spans|
    ensures lines[spans[k-1].lo].reorderSpan == lines[spans[k].lo].reorderSpan <==>
      Mixable(lines, spans[k-1], spans[k])
  {
    MixableIsLinked(lines, spans, k);
    SameLinks(start, lines, spans, k - 1);
    SameGroupIff(start, spans, k - 1, k);
    assert AllLinked(start, spans, k - 1, k) <==> Linked(start, spans, k - 1);
    InOwnGroup(start, spans, k - 1);
    InOwnGroup(start, spans, k);
  }

  lemma InOwnGroup(lines: seq<LineInfo>, spans: seq<Span>, p: int)
    requires Sorted(spans, |lines|) && 0 <= p < |spans|
    ensures In(spans[p].lo, Group(lines, spans, p))
  {
    var f, l := First(lines, spans, p), Final(lines, spans, p);
    assert f < p ==> spans[f].hi <= spans[p].lo;
    assert p < l ==> spans[p].hi <= spans[l].lo;
  }

  /** Fills the reorder spans. Lines outside every reorder span keep the value they had. */
  method CalculateReorderSpans(f: SourceFile) returns (spans: seq<Span>)
    requires SpansWhole(f.lines)
    modifies f
    ensures ListsMoveSpans(old(f.lines), spans)
    ensures Grouped(old(f.lines), spans, |spans|, f.lines)
    ensures forall k :: 0 < k < |spans| ==>
      (f.lines[spans[k-1].lo].reorderSpan == f.lines[spans[k].lo].reorderSpan <==>
         Mixable(f.lines, spans[k-1], spans[k]))
  {
    ghost var start := f.lines;
    spans := SortedMoveSpans(f);
    var p := 0;
    while p < |spans|
      invariant Begins(start, spans, p) && |f.lines| == |start|
      invariant Grouped(start, spans, p, f.lines)
    {
      ghost var before := f.lines;
      var e := GroupEnd(f, spans, p);
      SameFinal(start, before, spans, p);
      WriteReorderSpan(f, Span(spans[p].lo, spans[e].hi));
      GroupNext(start, spans, p, before, e, f.lines);
      NextBegins(start, spans, p);
      p := e + 1;
    }
    forall k | 0 < k < |spans|
      ensures f.lines[spans[k-1].lo].reorderSpan == f.lines[spans[k].lo].reorderSpan <==>
        Mixable(f.lines, spans[k-1], spans[k])
    {
      NeighboursShare(start, spans, f.lines, k);
    }
  }

  /** Line `i` carries the reorder span of its group, and nothing when it is in none. */
  ghost predicate CarriesGroup(lines: seq<LineInfo>, spans: seq<Span>, i: int)
    requires Sorted(spans, |lines|) && 0 <= i < |lines|
  {
    && (lines[i].reorderSpan.Some? ==> InSomeGroup(lines, spans, i))
    && (forall k :: 0 <= k < |spans| && In(i, Group(lines, spans, k)) ==>
          lines[i].reorderSpan == Some(Group(lines, spans, k)))
  }

  ghost predicate InSomeGroup(lines: seq<LineInfo>, spans: seq<Span>, i: int)
    requires Sorted(spans, |lines|)
  {
    exists k :: 0 <= k < |spans| && In(i, Group(lines, spans, k))
  }

  /** No line carries a stale reorder span. */
  ghost predicate Current(lines: seq<LineInfo>, spans: seq<Span>)
    requires Sorted(spans, |lines|)
  {
    forall i :: 0 <= i < |lines| ==> CarriesGroup(lines, spans, i)
  }

  lemma {:induction false} SameFirst(a: seq<LineInfo>, b: seq<LineInfo>, spans: seq<Span>, p: int)
    requires SameButReorder(a, b) && Sorted(spans, |a|) && 0 <= p < |spans|
    ensures First(a, spans, p) == First(b, spans, p)
    decreases p
  {
    SameLinks(a, b, spans, p - 1);
    if Linked(a, spans, p - 1) { SameFirst(a, b, spans, p - 1); }
  }

  lemma SameGroups(a: seq<LineInfo>, b: seq<LineInfo>, spans: seq<Span>, p: int)
    requires SameButReorder(a, b) && Sorted(spans, |a|) && 0 <= p < |spans|
    ensures Group(a, spans, p) == Group(b, spans, p)
  {
    SameFirst(a, b, spans, p);
    SameFinal(a, b, spans, p);
  }

  lemma SameInGroup(a: seq<LineInfo>, b: seq<LineInfo>, spans: seq<Span>, i: int)
    requires SameButReorder(a, b) && Sorted(spans, |a|) && InSomeGroup(a, spans, i)
    ensures InSomeGroup(b, spans, i)
  {
    var k :| 0 <= k < |spans| && In(i, Group(a, spans, k));
    SameGroups(a, b, spans, k);
  }

  lemma StillInGroup(a: seq<LineInfo>, b: seq<LineInfo>, spans: seq<Span>, i: int)
    requires MoreDeleted(a, b) && Sorted(spans, |a|) && InSomeGroup(a, spans, i)
    ensures InSomeGroup(b, spans, i)
  {
    var k :| 0 <= k < |spans| && In(i, Group(a, spans, k));
    Coarsens(a, b, spans, k);
    assert In(i, Group(b, spans, k));
  }

  lemma RecomputedAt(a: seq<LineInfo>, b: seq<LineInfo>, spans: seq<Span>, c: seq<LineInfo>, i: int)
    requires Sorted(spans, |a|) && MoreDeleted(a, b) && Grouped(b, spans, |spans|, c) && 0 <= i < |c|
    requires a[i].reorderSpan.Some? ==> InSomeGroup(a, spans, i)
    ensures CarriesGroup(c, spans, i)
  {
    if c[i].reorderSpan.Some? {
      if c[i].reorderSpan == b[i].reorderSpan { StillInGroup(a, b, spans, i); }
      SameInGroup(b, c, spans, i);
    }
    forall k | 0 <= k < |spans| && In(i, Group(c, spans, k)) ensures c[i].reorderSpan == Some(Group(c, spans, k)) {
      SameGroups(b, c, spans, k);
    }
  }

  /** Recomputing after deletions leaves no stale reorder span behind. */
  lemma Recomputed(a: seq<LineInfo>, b: seq<LineInfo>, spans: seq<Span>, c: seq<LineInfo>)
    requires Sorted(spans, |a|) && MoreDeleted(a, b) && Grouped(b, spans, |spans|, c) && Current(a, spans)
    ensures Current(c, spans)
  {
    forall i | 0 <= i < |c| ensures CarriesGroup(c, spans, i) {
      assert CarriesGroup(a, spans, i);
      RecomputedAt(a, b, spans, c, i);
    }
  }

  /** So does computing on a file without reorder spans. */
  lemma Computed(start: seq<LineInfo>, spans: seq<Span>, c: seq<LineInfo>)
    requires Sorted(spans, |start|) && Grouped(start, spans, |spans|, c)
    requires forall i :: 0 <= i < |start| ==> start[i].reorderSpan == None
    ensures Current(c, spans)
  {
    forall i | 0 <= i < |c| ensures CarriesGroup(c, spans, i) {
      RecomputedAt(start, start, spans, c, i);
    }
  }
}
