/** `FixFileLines` of build_support/fix_includes.py from the reorder spans on: move spans and added
    lines are decorated with a reorder span, sorted and emitted. */
module FixFile {
  import opened Records
  import opened FileLines
  import opened MoveSpans
  import opened ReorderSpans
  import opened Emission
  import opened AddedLines
  import opened SplitSpans

  /** The decorated move spans of the file, as far as they were not deleted. */
  ghost function FileSpans(lines: seq<LineInfo>, spans: seq<Span>, k: nat): (r: seq<Decorated>)
    requires Sorted(spans, |lines|) && k <= |spans|
  {
    if k == 0 then []
    else FileSpans(lines, spans, k - 1)
         + if LiveIn(lines, spans[k-1])
           then [Decorated(Group(lines, spans, k - 1), Copy(lines, spans[k-1].lo, spans[k-1].hi))] else []
  }

  /** `_DecoratedMoveSpanLines` on a move span of the file. */
  method DecorateSpan(lines: seq<LineInfo>, s: Span, ghost spans: seq<Span>,
                      ghost p: int) returns (d: Option<Decorated>)
    requires Sorted(spans, |lines|) && 0 <= p < |spans| && spans[p] == s && Current(lines, spans)
    ensures d.Some? <==> LiveIn(lines, s)
    ensures d.Some? ==> d.value == Decorated(Group(lines, spans, p), Copy(lines, s.lo, s.hi))
  {
    var i := s.lo;
    while i < s.hi && !IsAnchor(lines[i])
      invariant s.lo <= i <= s.hi && forall j :: s.lo <= j < i ==> !IsAnchor(lines[j])
    {
      i := i + 1;
    }
    if i == s.hi {
      return None;
    }
    assert In(i, s);
    MemberCarries(lines, spans, p, i);
    var content := CopyLines(lines, s.lo, s.hi);
    return Some(Decorated(lines[i].reorderSpan.value, content));
  }

  lemma MemberCarries(lines: seq<LineInfo>, spans: seq<Span>, p: int, i: int)
    requires Sorted(spans, |lines|) && 0 <= p < |spans| && In(i, spans[p]) && Current(lines, spans)
    ensures lines[i].reorderSpan == Some(Group(lines, spans, p))
  {
    GroupHolds(lines, spans, p);
    assert CarriesGroup(lines, spans, i);
  }

  method DecorateFile(lines: seq<LineInfo>, spans: seq<Span>) returns (ds: seq<Decorated>)
    requires Sorted(spans, |lines|) && Current(lines, spans)
    ensures ds == FileSpans(lines, spans, |spans|)
  {
    ds := [];
    var k := 0;
    while k < |spans|
      invariant 0 <= k <= |spans| && ds == FileSpans(lines, spans, k)
    {
      var d := DecorateSpan(lines, spans[k], spans, k);
      if d.Some? {
        ds := ds + [d.value];
      }
      k := k + 1;
    }
  }

  /** Added line `k` with the reorder span chosen for it. */
  function AddSpans(adds: seq<Span>): (r: seq<Decorated>)
    ensures |r| == |adds| && forall k :: 0 <= k < |adds| ==> r[k] == Decorated(adds[k], [Added(k)])
  {
    seq(|adds|, k requires 0 <= k < |adds| => Decorated(adds[k], [Added(k)]))
  }

  /** An added line goes to a reorder span of the file or between the reorder spans. */
  ghost predicate AddOk(lines: seq<LineInfo>, spans: seq<Span>, s: Span)
    requires Sorted(spans, |lines|)
  {
    && 0 <= s.lo <= s.hi <= |lines|
    && (IsGroup(lines, spans, s)
        || (s.lo == s.hi && forall p :: 0 <= p < |spans| ==> Apart(Group(lines, spans, p), s)))
  }

  ghost predicate AddsOk(lines: seq<LineInfo>, spans: seq<Span>, adds: seq<Span>)
    requires Sorted(spans, |lines|)
  {
    forall k :: 0 <= k < |adds| ==> AddOk(lines, spans, adds[k])
  }

  /** What is sorted: everything decorated. */
  ghost function Decorations(lines: seq<LineInfo>, spans: seq<Span>, adds: seq<Span>): seq<Decorated>
    requires Sorted(spans, |lines|)
  {
    FileSpans(lines, spans, |spans|) + AddSpans(adds)
  }

  /** `ds` is what the sort makes of the decorated spans and the sentinel. */
  ghost predicate SortedFrom(lines: seq<LineInfo>, spans: seq<Span>, adds: seq<Span>, ds: seq<Decorated>)
    requires Sorted(spans, |lines|)
  {
    && EndsWithSentinel(ds, |lines|)
    && multiset(ds[..|ds|-1]) == multiset(Decorations(lines, spans, adds))
    && forall i, j :: 0 <= i < j < |ds| ==> SpanLe(ds[i].span, ds[j].span)
  }

  lemma {:induction false} FileSpanOf(lines: seq<LineInfo>, spans: seq<Span>, k: nat, d: Decorated) returns (p: int)
    requires Sorted(spans, |lines|) && k <= |spans| && d in FileSpans(lines, spans, k)
    ensures 0 <= p < k && d == Decorated(Group(lines, spans, p), Copy(lines, spans[p].lo, spans[p].hi))
  {
    if d in FileSpans(lines, spans, k - 1) {
      p := FileSpanOf(lines, spans, k - 1, d);
    } else {
      p := k - 1;
    }
  }

  /** Every decorated span is a group of the file or an empty span between the groups. */
  lemma SpanIsOk(lines: seq<LineInfo>, spans: seq<Span>, adds: seq<Span>, ds: seq<Decorated>, d: Decorated)
    requires Sorted(spans, |lines|) && AddsOk(lines, spans, adds) && SortedFrom(lines, spans, adds, ds) && d in ds
    ensures AddOk(lines, spans, d.span)
  {
    var front := ds[..|ds|-1];
    if d in front {
      assert d in multiset(Decorations(lines, spans, adds));
      if d in FileSpans(lines, spans, |spans|) {
        var p := FileSpanOf(lines, spans, |spans|, d);
        GroupHolds(lines, spans, p);
        assert Group(lines, spans, p) == d.span;
      } else {
        var k :| 0 <= k < |adds| && AddSpans(adds)[k] == d;
        assert AddOk(lines, spans, adds[k]);
      }
    } else {
      assert ds == front + [ds[|ds|-1]];
      forall p | 0 <= p < |spans| ensures Apart(Group(lines, spans, p), d.span) { GroupHolds(lines, spans, p); }
    }
  }

  lemma OkApart(lines: seq<LineInfo>, spans: seq<Span>, s: Span, t: Span)
    requires Sorted(spans, |lines|) && AddOk(lines, spans, s) && AddOk(lines, spans, t)
    ensures s == t || Apart(s, t)
  {
    if s.lo < s.hi && t.lo < t.hi {
      GroupsApart(lines, spans, s, t);
    }
  }

  /** The sorted list is ready for the emission loop. */
  lemma ReadyToEmit(lines: seq<LineInfo>, spans: seq<Span>, adds: seq<Span>, ds: seq<Decorated>)
    requires Sorted(spans, |lines|) && AddsOk(lines, spans, adds) && SortedFrom(lines, spans, adds, ds)
    ensures Ordered(ds, |lines|) && AtPos(ds, 0, |lines|)
  {
    forall i | 0 <= i < |ds| ensures AddOk(lines, spans, ds[i].span) { SpanIsOk(lines, spans, adds, ds, ds[i]); }
    forall i, j | 0 <= i < j < |ds| ensures ds[i].span == ds[j].span || Apart(ds[i].span, ds[j].span) {
      OkApart(lines, spans, ds[i].span, ds[j].span);
    }
    SortedIsOrdered(ds, |lines|);
  }

  lemma ContentWithout(ds: seq<Decorated>, k: int, x: Src)
    requires 0 <= k < |ds|
    ensures Count(AllContent(ds), x) == Count(AllContent(Without(ds, k)), x) + Count(ds[k].content, x)
  {
    var a, b := ds[..k], ds[k+1..];
    assert ds == a + ([ds[k]] + b);
    ContentConcat(a, [ds[k]] + b);
    ContentConcat([ds[k]], b);
    ContentConcat(a, b);
    assert AllContent([ds[k]]) == ds[k].content by { assert [ds[k]][1..] == []; }
    SumCount(AllContent(a), ds[k].content, AllContent(b), x);
    CountConcat(AllContent(a), AllContent(b), x);
    assert AllContent(a) + (ds[k].content + AllContent(b)) == AllContent(a) + ds[k].content + AllContent(b);
  }

  lemma DropSame(a: seq<Decorated>, b: seq<Decorated>) returns (k: int)
    requires a != [] && multiset(a) == multiset(b)
    ensures 0 <= k < |b| && b[k] == a[0] && multiset(Without(a, 0)) == multiset(Without(b, k))
  {
    assert a[0] in multiset(b);
    k :| 0 <= k < |b| && b[k] == a[0];
    WithoutCount(a, 0);
    WithoutCount(b, k);
    assert multiset(Without(a, 0)) == multiset(a) - multiset{a[0]};
  }

  /** Sorting does not change what there is to emit. */
  lemma {:induction false} ContentPermuted(a: seq<Decorated>, b: seq<Decorated>, x: Src)
    requires multiset(a) == multiset(b)
    ensures Count(AllContent(a), x) == Count(AllContent(b), x)
    decreases |a|
  {
    if a == [] {
      assert |multiset(b)| == 0;
    } else {
      var k := DropSame(a, b);
      ContentPermuted(Without(a, 0), Without(b, k), x);
      ContentWithout(a, 0, x);
      ContentWithout(b, k, x);
    }
  }

  /** Line `i` belongs to a move span that is emitted. */
  ghost predicate InLiveSpan(lines: seq<LineInfo>, spans: seq<Span>, k: int, i: int)
    requires Sorted(spans, |lines|) && k <= |spans|
  {
    exists p :: 0 <= p < k && In(i, spans[p]) && LiveIn(lines, spans[p])
  }

  lemma LiveSpanStep(lines: seq<LineInfo>, spans: seq<Span>, k: nat, i: int)
    requires Sorted(spans, |lines|) && 0 < k <= |spans|
    ensures InLiveSpan(lines, spans, k, i) <==>
      InLiveSpan(lines, spans, k - 1, i) || (In(i, spans[k-1]) && LiveIn(lines, spans[k-1]))
    ensures InLiveSpan(lines, spans, k - 1, i) ==> !In(i, spans[k-1])
  {
    if p :| 0 <= p < k - 1 && In(i, spans[p]) && LiveIn(lines, spans[p]) {
      assert spans[p].hi <= spans[k-1].lo;
    }
  }

  lemma {:induction false} FileSpansStep(lines: seq<LineInfo>, spans: seq<Span>, k: nat, x: Src)
    requires Sorted(spans, |lines|) && 0 < k <= |spans|
    ensures var s := spans[k-1];
      Count(AllContent(FileSpans(lines, spans, k)), x) == Count(AllContent(FileSpans(lines, spans, k - 1)), x)
        + if LiveIn(lines, s) then Count(Copy(lines, s.lo, s.hi), x) else 0
  {
    var s := spans[k-1];
    var last := Decorated(Group(lines, spans, k - 1), Copy(lines, s.lo, s.hi));
    var more := if LiveIn(lines, s) then [last] else [];
    ContentConcat(FileSpans(lines, spans, k - 1), more);
    assert AllContent([last]) == last.content by { assert [last][1..] == []; }
    CountConcat(AllContent(FileSpans(lines, spans, k - 1)), AllContent(more), x);
  }

  lemma {:induction false} FileSpansCount(lines: seq<LineInfo>, spans: seq<Span>, k: nat, x: Src)
    requires Sorted(spans, |lines|) && k <= |spans|
    ensures Count(AllContent(FileSpans(lines, spans, k)), x) ==
      if x.FileLine? && 0 <= x.i < |lines| && !lines[x.i].deleted && InLiveSpan(lines, spans, k, x.i) then 1 else 0
  {
    if k > 0 {
      FileSpansCount(lines, spans, k - 1, x);
      FileSpansStep(lines, spans, k, x);
      CopyCount(lines, spans[k-1].lo, spans[k-1].hi, x);
      if x.FileLine? { LiveSpanStep(lines, spans, k, x.i); }
    }
  }

  lemma {:induction false} AddContent(ds: seq<Decorated>, from: int, x: Src)
    requires forall k :: 0 <= k < |ds| ==> ds[k].content == [Added(from + k)]
    ensures Count(AllContent(ds), x) == if x.Added? && from <= x.k < from + |ds| then 1 else 0
  {
    if ds != [] {
      AddContent(ds[1..], from + 1, x);
      CountConcat(ds[0].content, AllContent(ds[1..]), x);
      CountOne(Added(from), x);
    }
  }

  lemma DecorationsCount(lines: seq<LineInfo>, spans: seq<Span>, adds: seq<Span>, x: Src)
    requires Sorted(spans, |lines|)
    ensures Count(AllContent(Decorations(lines, spans, adds)), x) ==
      if x.FileLine? && 0 <= x.i < |lines| && !lines[x.i].deleted && InLiveSpan(lines, spans, |spans|, x.i) then 1
      else if x.Added? && 0 <= x.k < |adds| then 1 else 0
  {
    ContentConcat(FileSpans(lines, spans, |spans|), AddSpans(adds));
    CountConcat(AllContent(FileSpans(lines, spans, |spans|)), AllContent(AddSpans(adds)), x);
    FileSpansCount(lines, spans, |spans|, x);
    AddContent(AddSpans(adds), 0, x);
  }

  /** The sentinel adds nothing. */
  lemma WithoutSentinel(ds: seq<Decorated>, n: int)
    requires EndsWithSentinel(ds, n)
    ensures AllContent(ds) == AllContent(ds[..|ds|-1])
  {
    var front, last := ds[..|ds|-1], ds[|ds|-1];
    assert ds == front + [last];
    ContentConcat(front, [last]);
    assert AllContent([last]) == [] by { assert [last][1..] == []; }
  }

  /** What there is to emit: every live line of a live move span once, and every added line once. */
  lemma AllContentCount(lines: seq<LineInfo>, spans: seq<Span>, adds: seq<Span>, ds: seq<Decorated>, x: Src)
    requires Sorted(spans, |lines|) && SortedFrom(lines, spans, adds, ds)
    ensures Count(AllContent(ds), x) ==
      if x.FileLine? && 0 <= x.i < |lines| && !lines[x.i].deleted && InLiveSpan(lines, spans, |spans|, x.i) then 1
      else if x.Added? && 0 <= x.k < |adds| then 1 else 0
  {
    WithoutSentinel(ds, |lines|);
    ContentPermuted(ds[..|ds|-1], Decorations(lines, spans, adds), x);
    DecorationsCount(lines, spans, adds, x);
  }

  lemma {:induction false} NoContent(ds: seq<Decorated>, x: Src)
    requires forall d :: d in ds ==> Count(d.content, x) == 0
    ensures Count(AllContent(ds), x) == 0
  {
    if ds != [] {
      var rest := ds[1..];
      assert forall d :: d in rest ==> d in ds;
      NoContent(rest, x);
      assert ds[0] in ds;
      CountConcat(ds[0].content, AllContent(rest), x);
    }
  }

  /** Which decorated span holds which line. */
  lemma ContentOf(lines: seq<LineInfo>, spans: seq<Span>, adds: seq<Span>, ds: seq<Decorated>, d: Decorated, x: Src)
    requires Sorted(spans, |lines|) && SortedFrom(lines, spans, adds, ds) && d in ds && Count(d.content, x) > 0
    ensures x.FileLine? ==> d.span.lo < d.span.hi
    ensures x.Added? ==> 0 <= x.k < |adds| && d.span == adds[x.k]
  {
    var front := ds[..|ds|-1];
    assert ds == front + [ds[|ds|-1]];
    assert d in front;
    assert d in multiset(Decorations(lines, spans, adds));
    if d in FileSpans(lines, spans, |spans|) {
      var p := FileSpanOf(lines, spans, |spans|, d);
      GroupHolds(lines, spans, p);
      CopyCount(lines, spans[p].lo, spans[p].hi, x);
    } else {
      var k :| 0 <= k < |adds| && AddSpans(adds)[k] == d;
      CountOne(Added(k), x);
    }
  }

  /** An added line is lost: it goes to the very end of a file where a reorder span ends. */
  ghost predicate Lost(lines: seq<LineInfo>, adds: seq<Span>, ds: seq<Decorated>, x: Src) {
    x.Added? && 0 <= x.k < |adds| && adds[x.k] == Span(|lines|, |lines|) && SpanAtEnd(ds, |lines|)
  }

  /** A decorated span that holds `x` is emitted exactly when `x` is not lost. */
  lemma KeptAt(lines: seq<LineInfo>, spans: seq<Span>, adds: seq<Span>, ds: seq<Decorated>, x: Src, i: int)
    requires Sorted(spans, |lines|) && lines != [] && SortedFrom(lines, spans, adds, ds) && AtPos(ds, 0, |lines|)
    requires x != Sep
    requires 0 <= i < |ds| && Count(ds[i].content, x) > 0
    ensures i < KeptLen(ds, 0, |lines|) <==> !Lost(lines, adds, ds, x)
  {
    LostExactly(ds, 0, |lines|, i);
    ContentOf(lines, spans, adds, ds, ds[i], x);
  }

  lemma NoneLeft(ds: seq<Decorated>, lo: int, hi: int, x: Src)
    requires 0 <= lo <= hi <= |ds| && forall i :: lo <= i < hi ==> Count(ds[i].content, x) == 0
    ensures Count(AllContent(ds[lo..hi]), x) == 0
  {
    forall d | d in ds[lo..hi] ensures Count(d.content, x) == 0 {
      var i :| 0 <= i < hi - lo && ds[lo..hi][i] == d;
      assert ds[lo + i] == d;
    }
    NoContent(ds[lo..hi], x);
  }

  lemma SplitCount(ds: seq<Decorated>, k: int, x: Src)
    requires 0 <= k <= |ds|
    ensures Count(AllContent(ds), x) == Count(AllContent(ds[..k]), x) + Count(AllContent(ds[k..]), x)
  {
    assert ds == ds[..k] + ds[k..];
    ContentConcat(ds[..k], ds[k..]);
    CountConcat(AllContent(ds[..k]), AllContent(ds[k..]), x);
  }

  lemma SplitAtKept(ds: seq<Decorated>, k: int, lost: bool, x: Src)
    requires 0 <= k <= |ds|
    requires forall i :: 0 <= i < |ds| && Count(ds[i].content, x) > 0 ==> (i < k <==> !lost)
    ensures Count(AllContent(ds[..k]), x) == if lost then 0 else Count(AllContent(ds), x)
  {
    SplitCount(ds, k, x);
    if lost {
      NoneLeft(ds, 0, k, x);
      assert ds[0..k] == ds[..k];
    } else {
      NoneLeft(ds, k, |ds|, x);
      assert ds[k..|ds|] == ds[k..];
    }
  }

  /** What the loop emits of it. */
  lemma EmittedContent(lines: seq<LineInfo>, spans: seq<Span>, adds: seq<Span>, ds: seq<Decorated>, x: Src)
    requires Sorted(spans, |lines|) && lines != [] && SortedFrom(lines, spans, adds, ds) && AtPos(ds, 0, |lines|)
    requires x != Sep
    ensures Count(AllContent(ds[..KeptLen(ds, 0, |lines|)]), x) ==
      if Lost(lines, adds, ds, x) then 0 else Count(AllContent(ds), x)
  {
    var k := KeptLen(ds, 0, |lines|);
    forall i | 0 <= i < |ds| && Count(ds[i].content, x) > 0 ensures i < k <==> !Lost(lines, adds, ds, x) {
      KeptAt(lines, spans, adds, ds, x, i);
    }
    SplitAtKept(ds, k, Lost(lines, adds, ds, x), x);
  }

  lemma LiveSpanIsInside(lines: seq<LineInfo>, spans: seq<Span>, adds: seq<Span>, ds: seq<Decorated>, i: int)
    requires Sorted(spans, |lines|) && SortedFrom(lines, spans, adds, ds) && InLiveSpan(lines, spans, |spans|, i)
    ensures !Outside(ds, i)
  {
    var p :| 0 <= p < |spans| && In(i, spans[p]) && LiveIn(lines, spans[p]);
    var d := Decorated(Group(lines, spans, p), Copy(lines, spans[p].lo, spans[p].hi));
    HasFileSpan(lines, spans, |spans|, p);
    assert d in multiset(ds[..|ds|-1]);
    assert d in ds;
    GroupHolds(lines, spans, p);
  }

  lemma {:induction false} HasFileSpan(lines: seq<LineInfo>, spans: seq<Span>, k: nat, p: int)
    requires Sorted(spans, |lines|) && 0 <= p < k <= |spans| && LiveIn(lines, spans[p])
    ensures Decorated(Group(lines, spans, p), Copy(lines, spans[p].lo, spans[p].hi)) in FileSpans(lines, spans, k)
  {
    var front := FileSpans(lines, spans, k - 1);
    if p < k - 1 {
      HasFileSpan(lines, spans, k - 1, p);
      assert front <= FileSpans(lines, spans, k);
    }
  }

  /** The rewriting loses nothing and duplicates nothing, with one exception: every live line outside
      the emitted reorder spans and every live line of a live move span appears once, every added line
      appears once unless it is `Lost`, and nothing else appears. */
  lemma EmittedOnce(lines: seq<LineInfo>, spans: seq<Span>, adds: seq<Span>, ds: seq<Decorated>,
                    sep: (Decorated, Decorated) -> bool, x: Src)
    requires Sorted(spans, |lines|) && lines != [] && AddsOk(lines, spans, adds) && SortedFrom(lines, spans, adds, ds)
    requires x != Sep
    ensures Ordered(ds, |lines|)
    ensures Count(EmitFrom(lines, ds, 0, sep), x) ==
      match x {
        case FileLine(i) =>
          if 0 <= i < |lines| && !lines[i].deleted && (InLiveSpan(lines, spans, |spans|, i) || Outside(ds, i))
          then 1 else 0
        case Added(k) => if 0 <= k < |adds| && !Lost(lines, adds, ds, x) then 1 else 0
        case Sep => 0
      }
  {
    ReadyToEmit(lines, spans, adds, ds);
    EmitCount(lines, ds, 0, sep, x);
    EmittedContent(lines, spans, adds, ds, x);
    AllContentCount(lines, spans, adds, ds, x);
    if x.FileLine? && InLiveSpan(lines, spans, |spans|, x.i) { LiveSpanIsInside(lines, spans, adds, ds, x.i); }
  }

  /** A move span with a live line still has its include or declaration. */
  ghost predicate NoOrphans(lines: seq<LineInfo>, spans: seq<Span>)
    requires Sorted(spans, |lines|)
  {
    forall p, i :: 0 <= p < |spans| && In(i, spans[p]) && !lines[i].deleted ==> LiveIn(lines, spans[p])
  }

  /** Every live line that is not blank appears exactly once. */
  lemma NoLineLost(lines: seq<LineInfo>, spans: seq<Span>, adds: seq<Span>, ds: seq<Decorated>,
                   sep: (Decorated, Decorated) -> bool, i: int)
    requires Sorted(spans, |lines|) && lines != [] && AddsOk(lines, spans, adds) && SortedFrom(lines, spans, adds, ds)
    requires NoOrphans(lines, spans) && 0 <= i < |lines| && !lines[i].deleted && lines[i].kind != Blank
    ensures Ordered(ds, |lines|) && Count(EmitFrom(lines, ds, 0, sep), FileLine(i)) == 1
  {
    EmittedOnce(lines, spans, adds, ds, sep, FileLine(i));
    if !Outside(ds, i) {
      var d :| d in ds && In(i, d.span);
      SpanIsOk(lines, spans, adds, ds, d);
      var p :| 0 <= p < |spans| && Group(lines, spans, p) == d.span;
      GroupContent(lines, spans, p, i);
      var q :| 0 <= q < |spans| && In(i, spans[q]);
      assert LiveIn(lines, spans[q]);
    }
  }

  /** The sort key: the reorder span, then `rank`, which stands for the kind and the text. */
  predicate KeyLe(a: Decorated, b: Decorated, rank: Decorated -> int) {
    SpanLe(a.span, b.span) && (a.span == b.span ==> rank(a) <= rank(b))
  }

  function InsertByKey(d: Decorated, ds: seq<Decorated>, rank: Decorated -> int): (r: seq<Decorated>) {
    if ds == [] || KeyLe(d, ds[0], rank) then [d] + ds else [ds[0]] + InsertByKey(d, ds[1..], rank)
  }

  function SortByKey(ds: seq<Decorated>, rank: Decorated -> int): (r: seq<Decorated>) {
    if ds == [] then [] else InsertByKey(ds[0], SortByKey(ds[1..], rank), rank)
  }

  ghost predicate KeySorted(ds: seq<Decorated>, rank: Decorated -> int) {
    forall i, j :: 0 <= i < j < |ds| ==> KeyLe(ds[i], ds[j], rank)
  }

  lemma KeyTotal(a: Decorated, b: Decorated, rank: Decorated -> int)
    ensures KeyLe(a, b, rank) || KeyLe(b, a, rank)
  {
  }

  lemma KeyTrans(a: Decorated, b: Decorated, c: Decorated, rank: Decorated -> int)
    requires KeyLe(a, b, rank) && KeyLe(b, c, rank)
    ensures KeyLe(a, c, rank)
  {
  }

  lemma {:induction false} InsertCounts(d: Decorated, ds: seq<Decorated>, rank: Decorated -> int)
    ensures multiset(InsertByKey(d, ds, rank)) == multiset(ds) + multiset{d}
  {
    if ds != [] && !KeyLe(d, ds[0], rank) {
      assert ds == [ds[0]] + ds[1..];
      InsertCounts(d, ds[1..], rank);
    }
  }

  lemma PrependSorted(d: Decorated, ds: seq<Decorated>, rank: Decorated -> int)
    requires KeySorted(ds, rank) && forall e :: e in ds ==> KeyLe(d, e, rank)
    ensures KeySorted([d] + ds, rank)
  {
  }

  lemma {:induction false} InsertSorted(d: Decorated, ds: seq<Decorated>, rank: Decorated -> int)
    requires KeySorted(ds, rank)
    ensures KeySorted(InsertByKey(d, ds, rank), rank)
  {
    if ds == [] || KeyLe(d, ds[0], rank) {
      forall e | e in ds ensures KeyLe(d, e, rank) {
        var i :| 0 <= i < |ds| && ds[i] == e;
        if i > 0 { KeyTrans(d, ds[0], e, rank); }
      }
      PrependSorted(d, ds, rank);
    } else {
      var rest := InsertByKey(d, ds[1..], rank);
      InsertSorted(d, ds[1..], rank);
      InsertCounts(d, ds[1..], rank);
      KeyTotal(d, ds[0], rank);
      forall e | e in rest ensures KeyLe(ds[0], e, rank) {
        assert e in multiset(ds[1..]) + multiset{d};
      }
      PrependSorted(ds[0], rest, rank);
    }
  }

  lemma {:induction false} SortSorts(ds: seq<Decorated>, rank: Decorated -> int)
    ensures KeySorted(SortByKey(ds, rank), rank) && multiset(SortByKey(ds, rank)) == multiset(ds)
  {
    if ds != [] {
      assert ds == [ds[0]] + ds[1..];
      SortSorts(ds[1..], rank);
      InsertSorted(ds[0], SortByKey(ds[1..], rank), rank);
      InsertCounts(ds[0], SortByKey(ds[1..], rank), rank);
    }
  }

  lemma SpanOrder(a: seq<Span>, b: seq<Span>, n: int)
    requires Sorted(a, n) && Sorted(b, n) && a != [] && b != [] && a[0] in b && b[0] in a
    ensures a[0] == b[0]
  {
    var i :| 0 <= i < |b| && b[i] == a[0];
    var j :| 0 <= j < |a| && a[j] == b[0];
    assert i > 0 ==> b[0].hi <= b[i].lo;
    assert j > 0 ==> a[0].hi <= a[j].lo;
  }

  /** The sorted list of the move spans is unique. */
  lemma {:induction false} SameList(a: seq<Span>, b: seq<Span>, n: int)
    requires Sorted(a, n) && Sorted(b, n) && forall s :: s in a <==> s in b
    ensures a == b
    decreases |a|
  {
    assert b != [] ==> b[0] in b;
    if a != [] {
      assert a[0] in a && a[0] in b;
      SpanOrder(a, b, n);
      forall s ensures s in a[1..] <==> s in b[1..] {
        TailSpan(a, s, n);
        TailSpan(b, s, n);
      }
      SameList(a[1..], b[1..], n);
      assert a == [a[0]] + a[1..] && b == [b[0]] + b[1..];
    }
  }

  lemma TailSpan(a: seq<Span>, s: Span, n: int)
    requires Sorted(a, n) && a != []
    ensures s in a[1..] <==> s in a && s != a[0]
  {
    if s in a[1..] {
      var i :| 0 <= i < |a[1..]| && a[1..][i] == s;
      assert a[0].hi <= a[i+1].lo;
    }
  }

  /** `s` is a place strictly inside a reorder span. */
  ghost predicate SplitAt(lines: seq<LineInfo>, spans: seq<Span>, s: Span)
    requires Sorted(spans, |lines|)
  {
    s.lo == s.hi && Splits(lines, spans, s.lo)
  }

  /** The file as the rewriting finds it: the move spans as `CalculateMoveSpans` made them, whole deletions
      only, and a header guard that encloses the file. */
  ghost predicate FileOk(lines: seq<LineInfo>, spans: seq<Span>) {
    lines != [] && Sorted(spans, |lines|) && AllFormed(lines, spans) && NoOrphans(lines, spans) && GuardOk(lines)
  }

  ghost predicate AdditionsOk(lines: seq<LineInfo>, spans: seq<Span>, adds: seq<Addition>)
    requires Sorted(spans, |lines|)
  {
    forall k :: 0 <= k < |adds| ==> AdditionOk(lines, spans, adds[k])
  }

  /** `places` are the reorder spans chosen for `adds`. */
  ghost predicate PlacesOf(lines: seq<LineInfo>, spans: seq<Span>, good: seq<Span>, adds: seq<Addition>,
                           places: seq<Span>)
    requires Sorted(spans, |lines|)
  {
    && ListsTop(lines, spans, good) && AdditionsOk(lines, spans, adds) && |places| == |adds|
    && forall k :: 0 <= k < |adds| ==> places[k] == PlaceOf(lines, good, adds[k])
  }

  /** No added line goes to a place strictly inside a reorder span. */
  ghost predicate NoSplit(lines: seq<LineInfo>, spans: seq<Span>, good: seq<Span>, adds: seq<Addition>)
    requires Sorted(spans, |lines|) && AdditionsOk(lines, spans, adds)
  {
    forall k :: 0 <= k < |adds| ==> !SplitAt(lines, spans, PlaceOf(lines, good, adds[k]))
  }

  /** Every live line that is not blank and each of `m` added lines is written exactly once. */
  ghost predicate AllOnce(lines: seq<LineInfo>, m: nat, out: seq<Src>) {
    && (forall i :: 0 <= i < |lines| && !lines[i].deleted && lines[i].kind != Blank ==> Count(out, FileLine(i)) == 1)
    && (forall k :: 0 <= k < m ==> Count(out, Added(k)) == 1)
  }

  lemma PlaceOk(lines: seq<LineInfo>, spans: seq<Span>, good: seq<Span>, a: Addition)
    requires Sorted(spans, |lines|) && ListsTop(lines, spans, good) && AdditionOk(lines, spans, a)
    ensures var s := PlaceOf(lines, good, a); AddOk(lines, spans, s) <==> !SplitAt(lines, spans, s)
  {
    var s := PlaceOf(lines, good, a);
    PlaceShape(lines, spans, good, a);
    if s.lo == s.hi && IsGroup(lines, spans, s) { GroupsApart(lines, spans, s, s); }
  }

  /** A reorder span that reaches the end of the file still holds something. */
  lemma EndLives(lines: seq<LineInfo>, spans: seq<Span>, good: seq<Span>, adds: seq<Addition>, places: seq<Span>,
                 ds: seq<Decorated>) returns (p: int, i: int)
    requires FileOk(lines, spans) && PlacesOf(lines, spans, good, adds, places) && SortedFrom(lines, spans, places, ds)
    requires SpanAtEnd(ds, |lines|)
    ensures 0 <= p < |spans| && Group(lines, spans, p).hi == |lines|
    ensures In(i, Group(lines, spans, p)) && 0 <= i < |lines| && IsAnchor(lines[i])
  {
    var d :| d in ds && d.span.lo < d.span.hi == |lines|;
    assert ds == ds[..|ds|-1] + [ds[|ds|-1]];
    assert d in multiset(Decorations(lines, spans, places));
    if d in FileSpans(lines, spans, |spans|) {
      p := FileSpanLives(lines, spans, |spans|, d);
      GroupHolds(lines, spans, p);
      i :| In(i, spans[p]) && 0 <= i < |lines| && IsAnchor(lines[i]);
    } else {
      var k :| 0 <= k < |places| && AddSpans(places)[k] == d;
      PlaceShape(lines, spans, good, adds[k]);
      p :| 0 <= p < |spans| && Group(lines, spans, p) == d.span;
      i :| In(i, d.span) && 0 <= i < |lines| && IsAnchor(lines[i]);
    }
  }

  lemma {:induction false} FileSpanLives(lines: seq<LineInfo>, spans: seq<Span>, k: nat, d: Decorated) returns (p: int)
    requires Sorted(spans, |lines|) && k <= |spans| && d in FileSpans(lines, spans, k)
    ensures 0 <= p < k && d.span == Group(lines, spans, p) && LiveIn(lines, spans[p])
  {
    if d in FileSpans(lines, spans, k - 1) {
      p := FileSpanLives(lines, spans, k - 1, d);
    } else {
      p := k - 1;
    }
  }

  /** The choice never loses an added line at the end of the file. */
  lemma NeverLost(lines: seq<LineInfo>, spans: seq<Span>, good: seq<Span>, adds: seq<Addition>, places: seq<Span>,
                  ds: seq<Decorated>, x: Src)
    requires FileOk(lines, spans) && PlacesOf(lines, spans, good, adds, places) && SortedFrom(lines, spans, places, ds)
    ensures !Lost(lines, places, ds, x)
  {
    if Lost(lines, places, ds, x) {
      var p, i := EndLives(lines, spans, good, adds, places, ds);
      NotAtEnd(lines, spans, good, adds[x.k], p, i);
    }
  }

  lemma SafePlaces(lines: seq<LineInfo>, spans: seq<Span>, good: seq<Span>, adds: seq<Addition>, places: seq<Span>)
    requires Sorted(spans, |lines|) && PlacesOf(lines, spans, good, adds, places)
    ensures NoSplit(lines, spans, good, adds) <==> AddsOk(lines, spans, places)
  {
    forall k | 0 <= k < |adds| ensures AddOk(lines, spans, places[k]) <==> !SplitAt(lines, spans, places[k]) {
      PlaceOk(lines, spans, good, adds[k]);
    }
  }

  /** Without a split nothing is lost and nothing doubled. */
  lemma SafeOnce(lines: seq<LineInfo>, spans: seq<Span>, good: seq<Span>, adds: seq<Addition>, places: seq<Span>,
                 ds: seq<Decorated>, sep: (Decorated, Decorated) -> bool)
    requires FileOk(lines, spans) && PlacesOf(lines, spans, good, adds, places) && SortedFrom(lines, spans, places, ds)
    requires NoSplit(lines, spans, good, adds) && InFile(ds, |lines|)
    ensures AllOnce(lines, |adds|, EmitFrom(lines, ds, 0, sep))
  {
    var out := EmitFrom(lines, ds, 0, sep);
    SafePlaces(lines, spans, good, adds, places);
    forall i | 0 <= i < |lines| && !lines[i].deleted && lines[i].kind != Blank ensures Count(out, FileLine(i)) == 1 {
      NoLineLost(lines, spans, places, ds, sep, i);
    }
    forall k | 0 <= k < |adds| ensures Count(out, Added(k)) == 1 {
      NeverLost(lines, spans, good, adds, places, ds, Added(k));
      EmittedOnce(lines, spans, places, ds, sep, Added(k));
    }
  }

  lemma InsideNeverSplits(lines: seq<LineInfo>, spans: seq<Span>, s: Span)
    requires Sorted(spans, |lines|) && AllFormed(lines, spans) && NamespacePlace(lines, spans, s)
    ensures !SplitAt(lines, spans, s)
  {
    if IsGroup(lines, spans, s) {
      GroupsApart(lines, spans, s, s);
    } else {
      var k :| Opens(lines, k) && s == Span(k + 1, k + 1);
      forall p | 0 <= p < |spans| ensures !In(k, Group(lines, spans, p)) { OpenedOutside(lines, spans, k, p); }
    }
  }

  /** All splits are at one line, which the scan stops at. */
  lemma SplitsAtStop(lines: seq<LineInfo>, spans: seq<Span>, good: seq<Span>, a: Addition)
    requires FileOk(lines, spans) && ListsTop(lines, spans, good) && AdditionOk(lines, spans, a)
    ensures var l, s := Stop(lines, 0, false), PlaceOf(lines, good, a); SplitAt(lines, spans, s) ==> s == Span(l, l)
  {
    if a.AtTop? {
      assert forall s :: s in good ==> TopGroup(lines, spans, s);
    } else {
      InsideNeverSplits(lines, spans, a.span);
    }
  }

  lemma PlaceBesides(lines: seq<LineInfo>, spans: seq<Span>, good: seq<Span>, a: Addition, p: int)
    requires FileOk(lines, spans) && ListsTop(lines, spans, good) && AdditionOk(lines, spans, a) && 0 <= p < |spans|
    ensures Besides(PlaceOf(lines, good, a), Group(lines, spans, p), Stop(lines, 0, false))
  {
    var s := PlaceOf(lines, good, a);
    PlaceShape(lines, spans, good, a);
    if SplitAt(lines, spans, s) {
      SplitsAtStop(lines, spans, good, a);
    } else if s.lo < s.hi {
      GroupsApart(lines, spans, s, Group(lines, spans, p));
    }
  }

  lemma SpanBesides(lines: seq<LineInfo>, spans: seq<Span>, good: seq<Span>, adds: seq<Addition>, places: seq<Span>,
                    ds: seq<Decorated>, p: int, d: Decorated)
    requires FileOk(lines, spans) && PlacesOf(lines, spans, good, adds, places) && SortedFrom(lines, spans, places, ds)
    requires 0 <= p < |spans| && d in ds
    ensures Besides(d.span, Group(lines, spans, p), Stop(lines, 0, false))
  {
    GroupHolds(lines, spans, p);
    assert ds == ds[..|ds|-1] + [ds[|ds|-1]];
    if d in ds[..|ds|-1] {
      assert d in multiset(Decorations(lines, spans, places));
      if d in FileSpans(lines, spans, |spans|) {
        var q := FileSpanOf(lines, spans, |spans|, d);
        GroupsApart(lines, spans, d.span, Group(lines, spans, p));
      } else {
        var k :| 0 <= k < |places| && AddSpans(places)[k] == d;
        PlaceBesides(lines, spans, good, adds[k], p);
      }
    }
  }

  /** The line at which the scan stops is live, so it is part of a live move span. */
  lemma StopInSpan(lines: seq<LineInfo>, spans: seq<Span>, p: int) returns (q: int)
    requires FileOk(lines, spans) && 0 <= p < |spans| && In(Stop(lines, 0, false), Group(lines, spans, p))
    ensures var l := Stop(lines, 0, false);
      && 0 <= l < |lines| && !lines[l].deleted && lines[l].kind != Blank
      && 0 <= q < |spans| && In(l, spans[q]) && LiveIn(lines, spans[q])
  {
    GroupHolds(lines, spans, p);
    StopIs(lines, 0, false);
    GroupContent(lines, spans, p, Stop(lines, 0, false));
    q :| 0 <= q < |spans| && In(Stop(lines, 0, false), spans[q]);
  }

  lemma SpanWritten(lines: seq<LineInfo>, spans: seq<Span>, places: seq<Span>, ds: seq<Decorated>, q: int, l: int)
    requires Sorted(spans, |lines|) && SortedFrom(lines, spans, places, ds) && 0 <= q < |spans|
    requires LiveIn(lines, spans[q]) && In(l, spans[q]) && !lines[l].deleted
    ensures Writes(ds, Group(lines, spans, q), FileLine(l))
  {
    var d := Decorated(Group(lines, spans, q), Copy(lines, spans[q].lo, spans[q].hi));
    HasFileSpan(lines, spans, |spans|, q);
    CopyCount(lines, spans[q].lo, spans[q].hi, FileLine(l));
    assert d in multiset(ds[..|ds|-1]);
    var i :| 0 <= i < |ds| - 1 && ds[i] == d;
  }

  lemma SharedGroup(lines: seq<LineInfo>, spans: seq<Span>, p: int, q: int, l: int)
    requires Sorted(spans, |lines|) && 0 <= p < |spans| && 0 <= q < |spans|
    requires In(l, Group(lines, spans, p)) && In(l, spans[q])
    ensures Group(lines, spans, p) == Group(lines, spans, q)
  {
    GroupHolds(lines, spans, q);
    GroupsApart(lines, spans, Group(lines, spans, p), Group(lines, spans, q));
  }

  /** Its reorder span is written with it. */
  lemma StopIsWritten(lines: seq<LineInfo>, spans: seq<Span>, places: seq<Span>, ds: seq<Decorated>, p: int)
    requires FileOk(lines, spans) && SortedFrom(lines, spans, places, ds) && 0 <= p < |spans|
    requires In(Stop(lines, 0, false), Group(lines, spans, p))
    ensures var l := Stop(lines, 0, false); 0 <= l < |lines| && !lines[l].deleted && lines[l].kind != Blank
                                            && Writes(ds, Group(lines, spans, p), FileLine(l))
  {
    var q := StopInSpan(lines, spans, p);
    SharedGroup(lines, spans, p, q, Stop(lines, 0, false));
    SpanWritten(lines, spans, places, ds, q, Stop(lines, 0, false));
  }

  lemma PlaceListed(lines: seq<LineInfo>, spans: seq<Span>, places: seq<Span>, ds: seq<Decorated>, k: int)
    requires Sorted(spans, |lines|) && SortedFrom(lines, spans, places, ds) && 0 <= k < |places|
    ensures Has(ds, places[k])
  {
    assert AddSpans(places)[k] in Decorations(lines, spans, places);
    assert AddSpans(places)[k] in multiset(ds[..|ds|-1]);
    var i :| 0 <= i < |ds| - 1 && ds[i] == AddSpans(places)[k];
  }

  lemma SplitIsAround(lines: seq<LineInfo>, spans: seq<Span>, good: seq<Span>, adds: seq<Addition>, places: seq<Span>,
                      ds: seq<Decorated>, p: int)
    requires FileOk(lines, spans) && PlacesOf(lines, spans, good, adds, places) && SortedFrom(lines, spans, places, ds)
    requires InFile(ds, |lines|) && 0 <= p < |spans|
    requires Group(lines, spans, p).lo < Stop(lines, 0, false) < Group(lines, spans, p).hi
    ensures Around(ds, Group(lines, spans, p), Stop(lines, 0, false), |lines|)
  {
    GroupHolds(lines, spans, p);
    forall i | 0 <= i < |ds| ensures Besides(ds[i].span, Group(lines, spans, p), Stop(lines, 0, false)) {
      SpanBesides(lines, spans, good, adds, places, ds, p, ds[i]);
    }
  }

  /** With a split, a line is written twice, or the added line is lost at the end of the file. */
  lemma SplitBreaks(lines: seq<LineInfo>, spans: seq<Span>, good: seq<Span>, adds: seq<Addition>, places: seq<Span>,
                    ds: seq<Decorated>, sep: (Decorated, Decorated) -> bool, k: int, p: int)
    requires FileOk(lines, spans) && PlacesOf(lines, spans, good, adds, places) && SortedFrom(lines, spans, places, ds)
    requires InFile(ds, |lines|) && 0 <= k < |adds| && places[k].lo == places[k].hi && 0 <= p < |spans|
    requires Group(lines, spans, p).lo < places[k].lo < Group(lines, spans, p).hi
    ensures var out, l := EmitFrom(lines, ds, 0, sep), places[k].lo;
      && 0 <= l < |lines| && !lines[l].deleted && lines[l].kind != Blank
      && if Group(lines, spans, p).hi < |lines| then Count(out, FileLine(l)) >= 2 else Count(out, Added(k)) == 0
  {
    var l, g := Stop(lines, 0, false), Group(lines, spans, p);
    assert Splits(lines, spans, places[k].lo);
    SplitsAtStop(lines, spans, good, adds[k]);
    StopIsWritten(lines, spans, places, ds, p);
    PlaceListed(lines, spans, places, ds, k);
    SplitIsAround(lines, spans, good, adds, places, ds, p);
    GroupHolds(lines, spans, p);
    if g.hi < |lines| {
      Doubled(lines, ds, 0, sep, g, l);
    } else {
      forall i | 0 <= i < |ds| && ds[i].span != Span(l, l) ensures Count(ds[i].content, Added(k)) == 0 {
        if Count(ds[i].content, Added(k)) > 0 { ContentOf(lines, spans, places, ds, ds[i], Added(k)); }
      }
      Dropped(lines, ds, 0, sep, g, l, k);
    }
  }

  /** Every live line and every added line is written exactly once, exactly if no added line goes to a place
      strictly inside a reorder span. */
  lemma OnceIff(lines: seq<LineInfo>, spans: seq<Span>, good: seq<Span>, adds: seq<Addition>, places: seq<Span>,
                ds: seq<Decorated>, sep: (Decorated, Decorated) -> bool)
    requires FileOk(lines, spans) && PlacesOf(lines, spans, good, adds, places) && SortedFrom(lines, spans, places, ds)
    requires InFile(ds, |lines|)
    ensures AllOnce(lines, |adds|, EmitFrom(lines, ds, 0, sep)) <==> NoSplit(lines, spans, good, adds)
  {
    if NoSplit(lines, spans, good, adds) {
      SafeOnce(lines, spans, good, adds, places, ds, sep);
    } else {
      var k :| 0 <= k < |adds| && SplitAt(lines, spans, PlaceOf(lines, good, adds[k]));
      var p :| 0 <= p < |spans| && Group(lines, spans, p).lo < places[k].lo < Group(lines, spans, p).hi;
      SplitBreaks(lines, spans, good, adds, places, ds, sep, k, p);
    }
  }

  lemma SameOrphans(a: seq<LineInfo>, b: seq<LineInfo>, spans: seq<Span>)
    requires SameButReorder(a, b) && Sorted(spans, |a|) && NoOrphans(a, spans)
    ensures NoOrphans(b, spans)
  {
    forall p, i | 0 <= p < |spans| && In(i, spans[p]) && !b[i].deleted ensures LiveIn(b, spans[p]) {
      assert LiveIn(a, spans[p]);
      var j :| In(j, spans[p]) && 0 <= j < |a| && IsAnchor(a[j]);
      assert IsAnchor(b[j]);
    }
  }

  /** The reorder span for an added line. */
  method Place(lines: seq<LineInfo>, a: Addition, ghost spans: seq<Span>, ghost top: seq<Span>) returns (s: Span)
    requires Sorted(spans, |lines|) && Current(lines, spans) && ListsTop(lines, spans, top)
    requires AdditionOk(lines, spans, a)
    ensures s == PlaceOf(lines, top, a)
  {
    if a.Inside? {
      return a.span;
    }
    var good := ToplevelSpans(lines, spans);
    SameTopList(lines, spans, good, top);
    TopWithin(lines, spans, good);
    s := FirstReorderSpanWith(lines, good, a.rank);
  }

  lemma TopWithin(lines: seq<LineInfo>, spans: seq<Span>, good: seq<Span>)
    requires Sorted(spans, |lines|) && ListsTop(lines, spans, good)
    ensures forall t :: t in good ==> Within(t, |lines|)
  {
    forall t | t in good ensures Within(t, |lines|) { assert TopGroup(lines, spans, t); }
  }

  method PlaceAll(lines: seq<LineInfo>, adds: seq<Addition>, ghost spans: seq<Span>, ghost top: seq<Span>)
    returns (places: seq<Span>)
    requires Sorted(spans, |lines|) && Current(lines, spans) && ListsTop(lines, spans, top)
    requires AdditionsOk(lines, spans, adds)
    ensures PlacesOf(lines, spans, top, adds, places)
  {
    places := [];
    var k := 0;
    while k < |adds|
      invariant 0 <= k <= |adds| && |places| == k
      invariant forall j :: 0 <= j < k ==> places[j] == PlaceOf(lines, top, adds[j])
    {
      var s := Place(lines, adds[k], spans, top);
      places := places + [s];
      k := k + 1;
    }
  }

  lemma SameTopList(lines: seq<LineInfo>, spans: seq<Span>, good: seq<Span>, top: seq<Span>)
    requires Sorted(spans, |lines|) && ListsTop(lines, spans, good) && ListsTop(lines, spans, top)
    ensures good == top
  {
    SameList(good, top, |lines|);
  }

  lemma SameFile(a: seq<LineInfo>, b: seq<LineInfo>, spans: seq<Span>)
    requires SameButReorder(a, b) && FileOk(a, spans)
    ensures FileOk(b, spans)
  {
    SameOrphans(a, b, spans);
    forall p | 0 <= p < |spans| ensures Formed(b, spans[p]) { assert Formed(a, spans[p]); }
    forall h | 0 <= h < |b| && b[h].kind == HeaderGuard ensures exists e :: ClosedBy(b, h, e) {
      var e :| ClosedBy(a, h, e);
      assert ClosedBy(b, h, e);
    }
  }

  lemma SameAddition(a: seq<LineInfo>, b: seq<LineInfo>, spans: seq<Span>, add: Addition)
    requires SameButReorder(a, b) && Sorted(spans, |a|) && AdditionOk(a, spans, add)
    ensures AdditionOk(b, spans, add)
  {
    if add.Inside? && IsGroup(a, spans, add.span) && LiveIn(a, add.span) {
      var p :| 0 <= p < |spans| && Group(a, spans, p) == add.span;
      SameGroups(a, b, spans, p);
      var i :| In(i, add.span) && 0 <= i < |a| && IsAnchor(a[i]);
      assert IsAnchor(b[i]);
    } else if add.Inside? {
      var k :| Opens(a, k) && add.span == Span(k + 1, k + 1);
      assert Opens(b, k);
    }
  }

  lemma SameSplit(a: seq<LineInfo>, b: seq<LineInfo>, spans: seq<Span>, good: seq<Span>, add: Addition)
    requires SameButReorder(a, b) && Sorted(spans, |a|) && (add.AtTop? ==> add.rank >= 1)
    ensures SplitAt(a, spans, PlaceOf(a, good, add)) <==> SplitAt(b, spans, PlaceOf(b, good, add))
  {
    SamePlace(a, b, good, add);
    forall p | 0 <= p < |spans| ensures Group(a, spans, p) == Group(b, spans, p) { SameGroups(a, b, spans, p); }
  }

  /** The same lines in the reorder spans computed anew. */
  lemma SameNoSplit(a: seq<LineInfo>, b: seq<LineInfo>, spans: seq<Span>, good: seq<Span>, adds: seq<Addition>)
    requires SameButReorder(a, b) && Sorted(spans, |a|) && AdditionsOk(a, spans, adds)
    ensures AdditionsOk(b, spans, adds) && (NoSplit(a, spans, good, adds) <==> NoSplit(b, spans, good, adds))
  {
    forall k | 0 <= k < |adds| ensures AdditionOk(b, spans, adds[k]) { SameAddition(a, b, spans, adds[k]); }
    forall k | 0 <= k < |adds|
      ensures SplitAt(a, spans, PlaceOf(a, good, adds[k])) <==> SplitAt(b, spans, PlaceOf(b, good, adds[k]))
    {
      assert AdditionOk(a, spans, adds[k]);
      SameSplit(a, b, spans, good, adds[k]);
    }
  }

  lemma SortedInFile(lines: seq<LineInfo>, spans: seq<Span>, good: seq<Span>, adds: seq<Addition>, places: seq<Span>,
                     d: Decorated)
    requires Sorted(spans, |lines|) && PlacesOf(lines, spans, good, adds, places)
    requires d in Decorations(lines, spans, places)
    ensures 0 <= d.span.lo <= d.span.hi <= |lines|
  {
    if d in FileSpans(lines, spans, |spans|) {
      var p := FileSpanOf(lines, spans, |spans|, d);
      GroupHolds(lines, spans, p);
    } else {
      var k :| 0 <= k < |places| && AddSpans(places)[k] == d;
      PlaceShape(lines, spans, good, adds[k]);
    }
  }

  /** The sorted list with its sentinel. */
  lemma SortedWithSentinel(lines: seq<LineInfo>, spans: seq<Span>, good: seq<Span>, adds: seq<Addition>,
                           places: seq<Span>, ds: seq<Decorated>, rank: Decorated -> int)
    requires Sorted(spans, |lines|) && PlacesOf(lines, spans, good, adds, places)
    requires KeySorted(ds, rank) && multiset(ds) == multiset(Decorations(lines, spans, places))
    ensures var all := ds + [Decorated(Span(|lines|, |lines|), [])];
      SortedFrom(lines, spans, places, all) && InFile(all, |lines|) && all[..|all|-1] == ds
  {
    var all := ds + [Decorated(Span(|lines|, |lines|), [])];
    assert all[..|all|-1] == ds;
    forall d | d in ds ensures 0 <= d.span.lo <= d.span.hi <= |lines| {
      assert d in multiset(Decorations(lines, spans, places));
      SortedInFile(lines, spans, good, adds, places, d);
    }
    forall i, j | 0 <= i < j < |all| ensures SpanLe(all[i].span, all[j].span) {
      if j < |ds| { assert KeyLe(ds[i], ds[j], rank); } else { assert all[i] in ds; }
    }
  }

  lemma {:induction false} CountIn(out: seq<Src>, x: Src)
    ensures x in out <==> Count(out, x) > 0
  {
    if out != [] { CountIn(out[1..], x); }
  }

  /** A line stands in the reorder span of its move span, or at its own place. */
  ghost predicate Home(lines: seq<LineInfo>, spans: seq<Span>, i: int, s: Span)
    requires Sorted(spans, |lines|)
  {
    && 0 <= i < |lines| && (forall k :: 0 <= k < |spans| && In(i, spans[k]) ==> s == Group(lines, spans, k))
    && ((forall k :: 0 <= k < |spans| ==> !In(i, spans[k])) ==> s == Span(i, i + 1))
  }

  /** Of two lines in one reorder span, `x` belongs to the move span or addition with the smaller rank. */
  ghost predicate Ranked(lines: seq<LineInfo>, spans: seq<Span>, places: seq<Span>, rank: Decorated -> int, x: Src,
                         y: Src)
    requires Sorted(spans, |lines|)
  {
    forall d, e :: d in Decorations(lines, spans, places) && e in Decorations(lines, spans, places) ==>
      (d.span == e.span && x in d.content && y in e.content ==> rank(d) <= rank(e))
  }

  /** Output line `p` stands at `where[p]`. The places are in file order, every line of the file and every added line
      is where it belongs, and within a reorder span the ranks decide. */
  ghost predicate Arranged(lines: seq<LineInfo>, spans: seq<Span>, places: seq<Span>, rank: Decorated -> int,
                           out: seq<Src>, where: seq<Span>)
    requires Sorted(spans, |lines|)
  {
    && |where| == |out|
    && (forall p, q :: 0 <= p < q < |out| ==> where[p] == where[q] || where[p].hi <= where[q].lo)
    && (forall p :: 0 <= p < |out| && out[p].FileLine? ==> Home(lines, spans, out[p].i, where[p]))
    && (forall p :: 0 <= p < |out| && out[p].Added? ==> 0 <= out[p].k < |places| && where[p] == places[out[p].k])
    && (forall p, q :: 0 <= p < q < |out| ==> Ranked(lines, spans, places, rank, out[p], out[q]))
  }

  lemma OneSpan(spans: seq<Span>, n: int, i: int, p: int, q: int)
    requires Sorted(spans, n) && 0 <= p < |spans| && 0 <= q < |spans| && In(i, spans[p]) && In(i, spans[q])
    ensures p == q
  {
  }

  /** Which decorated span holds a line of the file. */
  lemma HoldsLine(lines: seq<LineInfo>, spans: seq<Span>, places: seq<Span>, d: Decorated, i: int) returns (p: int)
    requires Sorted(spans, |lines|) && d in Decorations(lines, spans, places) && FileLine(i) in d.content
    ensures 0 <= p < |spans| && In(i, spans[p])
    ensures d == Decorated(Group(lines, spans, p), Copy(lines, spans[p].lo, spans[p].hi))
  {
    assert d in FileSpans(lines, spans, |spans|);
    p := FileSpanOf(lines, spans, |spans|, d);
    CopyCount(lines, spans[p].lo, spans[p].hi, FileLine(i));
    CountIn(d.content, FileLine(i));
  }

  lemma HoldsAdded(lines: seq<LineInfo>, spans: seq<Span>, places: seq<Span>, d: Decorated, k: int)
    requires Sorted(spans, |lines|) && d in Decorations(lines, spans, places) && Added(k) in d.content
    ensures 0 <= k < |places| && d == Decorated(places[k], [Added(k)])
  {
    if d in FileSpans(lines, spans, |spans|) {
      var p := FileSpanOf(lines, spans, |spans|, d);
      CopyCount(lines, spans[p].lo, spans[p].hi, Added(k));
      CountIn(d.content, Added(k));
    }
  }

  lemma HoldsNoSep(lines: seq<LineInfo>, spans: seq<Span>, places: seq<Span>, d: Decorated)
    requires Sorted(spans, |lines|) && d in Decorations(lines, spans, places)
    ensures Sep !in d.content
  {
    if d in FileSpans(lines, spans, |spans|) {
      var p := FileSpanOf(lines, spans, |spans|, d);
      CopyCount(lines, spans[p].lo, spans[p].hi, Sep);
      CountIn(d.content, Sep);
    }
  }

  /** No line is in two of them. */
  lemma OneHolds(lines: seq<LineInfo>, spans: seq<Span>, places: seq<Span>, d: Decorated, e: Decorated, x: Src)
    requires Sorted(spans, |lines|) && d in Decorations(lines, spans, places) && e in Decorations(lines, spans, places)
    requires x in d.content && x in e.content
    ensures d == e
  {
    match x {
      case FileLine(i) =>
        var p := HoldsLine(lines, spans, places, d, i);
        var q := HoldsLine(lines, spans, places, e, i);
        OneSpan(spans, |lines|, i, p, q);
      case Added(k) =>
        HoldsAdded(lines, spans, places, d, k);
        HoldsAdded(lines, spans, places, e, k);
      case Sep => HoldsNoSep(lines, spans, places, d);
    }
  }

  lemma SlotIsDecoration(lines: seq<LineInfo>, spans: seq<Span>, places: seq<Span>, ds: seq<Decorated>, x: Src, j: int)
    requires Sorted(spans, |lines|) && SortedFrom(lines, spans, places, ds) && 0 <= j < |ds| && x in ds[j].content
    ensures j < |ds| - 1 && ds[j] in Decorations(lines, spans, places)
  {
    var front := ds[..|ds|-1];
    assert j < |ds| - 1 ==> front[j] == ds[j] && ds[j] in multiset(front);
  }

  /** A written line is live. */
  lemma WrittenIsLive(lines: seq<LineInfo>, spans: seq<Span>, places: seq<Span>, ds: seq<Decorated>,
                      sep: (Decorated, Decorated) -> bool, i: int)
    requires Sorted(spans, |lines|) && lines != [] && AddsOk(lines, spans, places)
    requires SortedFrom(lines, spans, places, ds) && InFile(ds, |lines|)
    requires FileLine(i) in EmitFrom(lines, ds, 0, sep)
    ensures 0 <= i < |lines| && !lines[i].deleted
  {
    EmittedOnce(lines, spans, places, ds, sep, FileLine(i));
    CountIn(EmitFrom(lines, ds, 0, sep), FileLine(i));
  }

  lemma LineAtHome(lines: seq<LineInfo>, spans: seq<Span>, places: seq<Span>, ds: seq<Decorated>, i: int, j: int)
    requires Sorted(spans, |lines|) && NoOrphans(lines, spans) && SortedFrom(lines, spans, places, ds)
    requires 0 <= i < |lines| && !lines[i].deleted && Slot(ds, FileLine(i), j)
    ensures Home(lines, spans, i, PlaceAt(ds, FileLine(i), j))
  {
    if j == -1 {
      forall k | 0 <= k < |spans| ensures !In(i, spans[k]) {
        if In(i, spans[k]) {
          assert LiveIn(lines, spans[k]);
          LiveSpanIsInside(lines, spans, places, ds, i);
        }
      }
    } else {
      SlotIsDecoration(lines, spans, places, ds, FileLine(i), j);
      var p := HoldsLine(lines, spans, places, ds[j], i);
      forall k | 0 <= k < |spans| && In(i, spans[k]) ensures k == p { OneSpan(spans, |lines|, i, k, p); }
    }
  }

  lemma AddedAtHome(lines: seq<LineInfo>, spans: seq<Span>, places: seq<Span>, ds: seq<Decorated>, k: int, j: int)
    requires Sorted(spans, |lines|) && SortedFrom(lines, spans, places, ds) && Slot(ds, Added(k), j)
    ensures 0 <= k < |places| && PlaceAt(ds, Added(k), j) == places[k]
  {
    SlotIsDecoration(lines, spans, places, ds, Added(k), j);
    HoldsAdded(lines, spans, places, ds[j], k);
  }

  lemma SlotsRanked(lines: seq<LineInfo>, spans: seq<Span>, places: seq<Span>, ds: seq<Decorated>,
                    rank: Decorated -> int, x: Src, j: int, y: Src, k: int)
    requires Sorted(spans, |lines|) && SortedFrom(lines, spans, places, ds) && KeySorted(ds[..|ds|-1], rank)
    requires Slot(ds, x, j) && Slot(ds, y, k) && Follows(ds, x, j, y, k)
    ensures Ranked(lines, spans, places, rank, x, y)
  {
    forall d, e | d in Decorations(lines, spans, places) && e in Decorations(lines, spans, places)
      ensures d.span == e.span && x in d.content && y in e.content ==> rank(d) <= rank(e)
    {
      if d.span == e.span && x in d.content && y in e.content {
        HoldersInOrder(lines, spans, places, ds, rank, x, j, y, k, d, e);
      }
    }
  }

  /** A line of a decorated span has the slot of that span. */
  lemma SlotOfHolder(lines: seq<LineInfo>, spans: seq<Span>, places: seq<Span>, ds: seq<Decorated>, x: Src, j: int,
                     d: Decorated)
    requires Sorted(spans, |lines|) && SortedFrom(lines, spans, places, ds) && Slot(ds, x, j)
    requires d in Decorations(lines, spans, places) && x in d.content
    ensures 0 <= j < |ds| - 1 && ds[j] == d
  {
    HoldsNoSep(lines, spans, places, d);
    assert d in multiset(ds[..|ds|-1]);
    assert d in ds;
    if j == -1 {
      var p := HoldsLine(lines, spans, places, d, x.i);
      GroupHolds(lines, spans, p);
      assert In(x.i, d.span);
    } else {
      SlotIsDecoration(lines, spans, places, ds, x, j);
      OneHolds(lines, spans, places, ds[j], d, x);
    }
  }

  lemma HoldersInOrder(lines: seq<LineInfo>, spans: seq<Span>, places: seq<Span>, ds: seq<Decorated>,
                       rank: Decorated -> int, x: Src, j: int, y: Src, k: int, d: Decorated, e: Decorated)
    requires Sorted(spans, |lines|) && SortedFrom(lines, spans, places, ds) && KeySorted(ds[..|ds|-1], rank)
    requires Slot(ds, x, j) && Slot(ds, y, k) && Follows(ds, x, j, y, k)
    requires d in Decorations(lines, spans, places) && e in Decorations(lines, spans, places)
    requires d.span == e.span && x in d.content && y in e.content
    ensures rank(d) <= rank(e)
  {
    SlotOfHolder(lines, spans, places, ds, x, j, d);
    SlotOfHolder(lines, spans, places, ds, y, k, e);
    var front := ds[..|ds|-1];
    if j < k { assert KeyLe(front[j], front[k], rank); }
  }

  /** The places of the slots. */
  function PlacesAt(ds: seq<Decorated>, out: seq<Src>, slots: seq<int>): (r: seq<Span>)
    requires |slots| == |out|
    ensures |r| == |out| && forall p :: 0 <= p < |out| ==> r[p] == PlaceAt(ds, out[p], slots[p])
  {
    seq(|out|, p requires 0 <= p < |out| => PlaceAt(ds, out[p], slots[p]))
  }

  /** Without a split everything is written where it belongs. */
  lemma SafeOrder(lines: seq<LineInfo>, spans: seq<Span>, good: seq<Span>, adds: seq<Addition>, places: seq<Span>,
                  ds: seq<Decorated>, rank: Decorated -> int, sep: (Decorated, Decorated) -> bool)
    returns (where: seq<Span>)
    requires FileOk(lines, spans) && PlacesOf(lines, spans, good, adds, places) && SortedFrom(lines, spans, places, ds)
    requires KeySorted(ds[..|ds|-1], rank) && NoSplit(lines, spans, good, adds) && InFile(ds, |lines|)
    ensures Arranged(lines, spans, places, rank, EmitFrom(lines, ds, 0, sep), where)
  {
    var out := EmitFrom(lines, ds, 0, sep);
    SafePlaces(lines, spans, good, adds, places);
    ReadyToEmit(lines, spans, places, ds);
    var slots := EmitInOrder(lines, ds, 0, sep);
    where := PlacesAt(ds, out, slots);
    forall p | 0 <= p < |out| && out[p].FileLine? ensures Home(lines, spans, out[p].i, where[p]) {
      assert Slot(ds, out[p], slots[p]) && out[p] == FileLine(out[p].i);
      WrittenIsLive(lines, spans, places, ds, sep, out[p].i);
      LineAtHome(lines, spans, places, ds, out[p].i, slots[p]);
    }
    forall p | 0 <= p < |out| && out[p].Added? ensures 0 <= out[p].k < |places| && where[p] == places[out[p].k] {
      assert Slot(ds, out[p], slots[p]) && out[p] == Added(out[p].k);
      AddedAtHome(lines, spans, places, ds, out[p].k, slots[p]);
    }
    forall p, q | 0 <= p < q < |out|
      ensures Ranked(lines, spans, places, rank, out[p], out[q]) && (where[p] == where[q] || where[p].hi <= where[q].lo)
    {
      assert Follows(ds, out[p], slots[p], out[q], slots[q]);
      SlotsRanked(lines, spans, places, ds, rank, out[p], slots[p], out[q], slots[q]);
    }
  }

  lemma DeletedNowhere(lines: seq<LineInfo>, spans: seq<Span>, places: seq<Span>, ds: seq<Decorated>,
                       sep: (Decorated, Decorated) -> bool, i: int)
    requires Sorted(spans, |lines|) && SortedFrom(lines, spans, places, ds) && InFile(ds, |lines|)
    requires 0 <= i < |lines| && lines[i].deleted
    ensures Count(EmitFrom(lines, ds, 0, sep), FileLine(i)) == 0
  {
    forall j | 0 <= j < |ds| ensures Count(ds[j].content, FileLine(i)) == 0 {
      ContentLive(lines, spans, places, ds, ds[j], i);
    }
    NoDeleted(lines, ds, 0, sep, i);
  }

  lemma ContentLive(lines: seq<LineInfo>, spans: seq<Span>, places: seq<Span>, ds: seq<Decorated>, d: Decorated, i: int)
    requires Sorted(spans, |lines|) && SortedFrom(lines, spans, places, ds) && d in ds
    requires 0 <= i < |lines| && lines[i].deleted
    ensures Count(d.content, FileLine(i)) == 0
  {
    assert ds == ds[..|ds|-1] + [ds[|ds|-1]];
    if d in ds[..|ds|-1] {
      assert d in multiset(Decorations(lines, spans, places));
      if d in FileSpans(lines, spans, |spans|) {
        var p := FileSpanOf(lines, spans, |spans|, d);
        CopyCount(lines, spans[p].lo, spans[p].hi, FileLine(i));
      } else {
        var k :| 0 <= k < |places| && AddSpans(places)[k] == d;
        CountOne(Added(k), FileLine(i));
      }
    }
  }

  /** From the deletions to the output: `before` is the file whose reorder spans were computed, and the file
      now is `before` with lines deleted. `known` lists its move spans, and `top` its top-level reorder
      spans. Deleted lines are never written, and every other line that is not blank and every added line is
      written exactly once, exactly if no added line goes to a place strictly inside a reorder span. Then output line
      `p` stands at `where[p]`, in the order of the file and of the ranks. */
  method FixFileLines(f: SourceFile, adds: seq<Addition>, rank: Decorated -> int, sep: (Decorated, Decorated) -> bool,
                      ghost before: seq<LineInfo>, ghost known: seq<Span>)
    returns (out: seq<Src>, top: seq<Span>, ghost places: seq<Span>, ghost where: seq<Span>)
    requires SpansWhole(f.lines) && ListsMoveSpans(f.lines, known) && FileOk(f.lines, known)
    requires MoreDeleted(before, f.lines) && Current(before, known) && AdditionsOk(f.lines, known, adds)
    modifies f
    ensures SameButReorder(old(f.lines), f.lines) && ListsTop(old(f.lines), known, top)
    ensures forall i :: 0 <= i < |f.lines| && f.lines[i].deleted ==> Count(out, FileLine(i)) == 0
    ensures AllOnce(f.lines, |adds|, out) <==> NoSplit(old(f.lines), known, top, adds)
    ensures PlacesOf(f.lines, known, top, adds, places)
    ensures NoSplit(f.lines, known, top, adds) ==> Arranged(f.lines, known, places, rank, out, where)
  {
    ghost var start := f.lines;
    var spans := CalculateReorderSpans(f);
    SameList(spans, known, |start|);
    Recomputed(before, start, spans, f.lines);
    SameFile(start, f.lines, spans);
    top := ToplevelSpans(f.lines, spans);
    SameTop(f.lines, start, spans, top);
    SameNoSplit(start, f.lines, spans, top, adds);
    out, places, where := Rewrite(f.lines, spans, adds, rank, sep, top);
  }

  /** Decorates, sorts and writes. */
  method Rewrite(lines: seq<LineInfo>, spans: seq<Span>, adds: seq<Addition>, rank: Decorated -> int,
                 sep: (Decorated, Decorated) -> bool, ghost top: seq<Span>)
    returns (out: seq<Src>, ghost places: seq<Span>, ghost where: seq<Span>)
    requires FileOk(lines, spans) && Current(lines, spans) && ListsTop(lines, spans, top)
    requires AdditionsOk(lines, spans, adds)
    ensures forall i :: 0 <= i < |lines| && lines[i].deleted ==> Count(out, FileLine(i)) == 0
    ensures AllOnce(lines, |adds|, out) <==> NoSplit(lines, spans, top, adds)
    ensures PlacesOf(lines, spans, top, adds, places)
    ensures NoSplit(lines, spans, top, adds) ==> Arranged(lines, spans, places, rank, out, where)
  {
    var own := DecorateFile(lines, spans);
    var chosen := PlaceAll(lines, adds, spans, top);
    var sorted := SortByKey(own + AddSpans(chosen), rank);
    SortSorts(own + AddSpans(chosen), rank);
    SortedWithSentinel(lines, spans, top, adds, chosen, sorted, rank);
    var list := sorted + [Decorated(Span(|lines|, |lines|), [])];
    out := Emit(lines, list, sep);
    places := chosen;
    where := WrittenAsSorted(lines, spans, top, adds, chosen, list, rank, sep);
  }

  /** What the output of the sorted list is. */
  lemma WrittenAsSorted(lines: seq<LineInfo>, spans: seq<Span>, top: seq<Span>, adds: seq<Addition>, places: seq<Span>,
                        ds: seq<Decorated>, rank: Decorated -> int, sep: (Decorated, Decorated) -> bool)
    returns (where: seq<Span>)
    requires FileOk(lines, spans) && PlacesOf(lines, spans, top, adds, places) && SortedFrom(lines, spans, places, ds)
    requires KeySorted(ds[..|ds|-1], rank) && InFile(ds, |lines|)
    ensures var out := EmitFrom(lines, ds, 0, sep);
      && (forall i :: 0 <= i < |lines| && lines[i].deleted ==> Count(out, FileLine(i)) == 0)
      && (AllOnce(lines, |adds|, out) <==> NoSplit(lines, spans, top, adds))
      && (NoSplit(lines, spans, top, adds) ==> Arranged(lines, spans, places, rank, out, where))
  {
    OnceIff(lines, spans, top, adds, places, ds, sep);
    forall i | 0 <= i < |lines| && lines[i].deleted ensures Count(EmitFrom(lines, ds, 0, sep), FileLine(i)) == 0 {
      DeletedNowhere(lines, spans, places, ds, sep, i);
    }
    if NoSplit(lines, spans, top, adds) {
      where := SafeOrder(lines, spans, top, adds, places, ds, rank, sep);
    } else {
      where := [];
    }
  }

  /** When an added line splits a reorder span, in terms of the lines: no top-level reorder span holds an
      include, the first contentful line comes before every declaration that counts, and it is not the first
      line of its reorder span. */
  lemma SplitIff(lines: seq<LineInfo>, spans: seq<Span>, good: seq<Span>, k: int)
    requires Sorted(spans, |lines|) && ListsTop(lines, spans, good) && 1 <= k <= DECLARATION
    ensures var l := Stop(lines, 0, false);
      SplitAt(lines, spans, Choice(lines, good, k)) <==> FallsTo(lines, good, k, l) && Splits(lines, spans, l)
  {
    TopWithin(lines, spans, good);
    FallsIff(lines, good, k, Stop(lines, 0, false));
  }

  /** A file whose only top-level include was deleted, with a comment and then a commented declaration. The
      first line is the dummy that the source puts before every file. */
  const HEAD: seq<LineInfo> := [
    LineInfo(Code, true, false, 0, 1, false, None, None),
    LineInfo(Include, true, false, 0, 4, false, Some(Span(1, 2)), None),
    LineInfo(Comment, false, false, 0, 1, false, None, None),
    LineInfo(Blank, false, false, 0, 1, false, None, None),
    LineInfo(Comment, false, false, 0, 1, false, Some(Span(4, 6)), None),
    LineInfo(ForwardDeclare, false, false, 0, 1, false, Some(Span(4, 6)), None)]

  const HEAD_SPANS: seq<Span> := [Span(1, 2), Span(4, 6)]

  /** A file that begins like this and goes on with code. */
  ghost predicate BeginsSo(lines: seq<LineInfo>) {
    |lines| >= 6 && lines[..6] == HEAD && forall i :: 6 <= i < |lines| ==> lines[i].kind == Code
  }

  lemma {:induction false} NoDepth(lines: seq<LineInfo>, i: nat)
    requires BeginsSo(lines) && i <= |lines|
    ensures IfDepth(lines, i) == 0 && NamespaceDepth(lines, i) == 0
  {
    if i > 0 {
      NoDepth(lines, i - 1);
      assert i - 1 < 6 ==> lines[i-1] == lines[..6][i-1];
    }
  }

  lemma HeadLines(lines: seq<LineInfo>)
    requires BeginsSo(lines)
    ensures forall i :: 0 <= i < 6 ==> lines[i] == HEAD[i]
    ensures Sorted(HEAD_SPANS, |lines|)
  {
    forall i | 0 <= i < 6 ensures lines[i] == HEAD[i] { assert lines[i] == lines[..6][i]; }
  }

  lemma HeadGroups(lines: seq<LineInfo>)
    requires BeginsSo(lines)
    ensures Sorted(HEAD_SPANS, |lines|)
    ensures Group(lines, HEAD_SPANS, 0) == Span(1, 2) && Group(lines, HEAD_SPANS, 1) == Span(4, 6)
  {
    HeadLines(lines);
    assert !AllBlank(lines, 2, 4) by { assert lines[2] == HEAD[2]; }
    assert !Linked(lines, HEAD_SPANS, 0);
  }

  lemma HeadFile(lines: seq<LineInfo>)
    requires BeginsSo(lines)
    ensures FileOk(lines, HEAD_SPANS)
  {
    HeadLines(lines);
    assert IsAnchor(lines[5]);
    assert Formed(lines, HEAD_SPANS[0]) && Formed(lines, HEAD_SPANS[1]);
  }

  lemma HeadTop(lines: seq<LineInfo>)
    requires BeginsSo(lines)
    ensures Sorted(HEAD_SPANS, |lines|) && ListsTop(lines, HEAD_SPANS, HEAD_SPANS)
  {
    HeadLines(lines);
    HeadGroups(lines);
    forall i | 0 <= i < |lines| ensures !InIfdef(lines, i) && !InsideNamespace(lines, i) {
      forall j | 0 <= j < |lines| ensures !Swallows(lines, j) { NoDepth(lines, j + 1); }
      NoDepth(lines, i + 1);
    }
    forall s ensures s in HEAD_SPANS <==> TopGroup(lines, HEAD_SPANS, s) && s.lo < |lines| {
      if s in HEAD_SPANS {
        assert s == Group(lines, HEAD_SPANS, 0) || s == Group(lines, HEAD_SPANS, 1);
      }
    }
  }

  lemma HeadStop(lines: seq<LineInfo>)
    requires BeginsSo(lines)
    ensures Stop(lines, 0, false) == 5
  {
    HeadLines(lines);
    assert Stop(lines, 5, false) == 5;
    assert Stop(lines, 3, false) == 5;
    assert Stop(lines, 1, false) == 5;
  }

  lemma HeadChoice(lines: seq<LineInfo>)
    requires BeginsSo(lines)
    ensures Choice(lines, HEAD_SPANS, 4) == Span(5, 5)
  {
    HeadLines(lines);
    HeadStop(lines);
    assert Contentful(HEAD_SPANS) == 2;
    NoneWith(lines, HEAD_SPANS, DECLARATION, 2);
    FallsIff(lines, HEAD_SPANS, 4, 5);
  }

  /** An include added to such a file goes between the comment and its declaration: the declaration is
      written twice, and when the file ends with it the include is lost. */
  lemma AddedBetween(lines: seq<LineInfo>, ds: seq<Decorated>, sep: (Decorated, Decorated) -> bool)
    requires BeginsSo(lines) && Sorted(HEAD_SPANS, |lines|)
    requires SortedFrom(lines, HEAD_SPANS, [Choice(lines, HEAD_SPANS, 4)], ds) && InFile(ds, |lines|)
    ensures !NoSplit(lines, HEAD_SPANS, HEAD_SPANS, [AtTop(4)])
    ensures var out := EmitFrom(lines, ds, 0, sep);
      if |lines| > 6 then Count(out, FileLine(5)) >= 2 else Count(out, Added(0)) == 0
  {
    HeadFile(lines);
    HeadTop(lines);
    HeadGroups(lines);
    HeadChoice(lines);
    assert PlacesOf(lines, HEAD_SPANS, HEAD_SPANS, [AtTop(4)], [Span(5, 5)]);
    SplitBreaks(lines, HEAD_SPANS, HEAD_SPANS, [AtTop(4)], [Span(5, 5)], ds, sep, 0, 1);
    assert SplitAt(lines, HEAD_SPANS, PlaceOf(lines, HEAD_SPANS, [AtTop(4)][0]));
  }
}
