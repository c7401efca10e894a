/** The emission loop of `FixFileLines` in build_support/fix_includes.py: writes the file with the
    content of every reorder span replaced by its sorted move spans and additions. */
module Emission {
  import opened Records
  import opened FileLines

  /** Where an output line comes from: a line of the file, an added line, or a separating blank. */
  datatype Src = FileLine(i: int) | Added(k: int) | Sep

  /** A move span or an added line, with the reorder span it goes to. */
  datatype Decorated = Decorated(span: Span, content: seq<Src>)

  /** The order of the sort key's first component. */
  predicate SpanLe(s: Span, t: Span) { s.lo < t.lo || (s.lo == t.lo && s.hi <= t.hi) }

  /** `s` is emitted no later than `t`. */
  predicate NotAfter(s: Span, t: Span) { s == t || s.hi <= t.lo }

  /** Sorted, and the spans are equal or apart. */
  ghost predicate Ordered(ds: seq<Decorated>, n: int) {
    && (forall i :: 0 <= i < |ds| ==> 0 <= ds[i].span.lo <= ds[i].span.hi <= n)
    && (forall i, j :: 0 <= i < j < |ds| ==> NotAfter(ds[i].span, ds[j].span))
  }

  lemma EqualOrApart(s: Span, t: Span)
    requires s.lo <= s.hi && t.lo <= t.hi && SpanLe(s, t) && (s == t || Apart(s, t))
    ensures NotAfter(s, t)
  {
  }

  /** Sorting spans that are equal or apart puts them in emission order. */
  lemma SortedIsOrdered(ds: seq<Decorated>, n: int)
    requires forall i :: 0 <= i < |ds| ==> 0 <= ds[i].span.lo <= ds[i].span.hi <= n
    requires forall i, j :: 0 <= i < j < |ds| ==> SpanLe(ds[i].span, ds[j].span)
    requires forall i, j :: 0 <= i < j < |ds| ==> ds[i].span == ds[j].span || Apart(ds[i].span, ds[j].span)
    ensures Ordered(ds, n)
  {
    forall i, j | 0 <= i < j < |ds| ensures NotAfter(ds[i].span, ds[j].span) {
      EqualOrApart(ds[i].span, ds[j].span);
    }
  }

  ghost predicate EndsWithSentinel(ds: seq<Decorated>, n: int) {
    ds != [] && ds[|ds|-1] == Decorated(Span(n, n), [])
  }

  /** The live lines from `lo` on, before `hi`. */
  function Copy(lines: seq<LineInfo>, lo: int, hi: int): (r: seq<Src>)
    requires 0 <= lo && hi <= |lines|
    decreases hi - lo
  {
    if lo >= hi then [] else Copy(lines, lo, hi - 1) + if lines[hi-1].deleted then [] else [FileLine(hi - 1)]
  }

  /** The spans of `s` at the head, with separating blanks. */
  function GroupLines(ds: seq<Decorated>, s: Span, sep: (Decorated, Decorated) -> bool): (r: seq<Src>) {
    if ds == [] || ds[0].span != s then []
    else ds[0].content + (if |ds| > 1 && sep(ds[0], ds[1]) then [Sep] else []) + GroupLines(ds[1..], s, sep)
  }

  function Head(ds: seq<Decorated>, s: Span): (k: nat)
    ensures k <= |ds|
  {
    if ds == [] || ds[0].span != s then 0 else 1 + Head(ds[1..], s)
  }

  /** What the loop writes from line `pos` on. */
  function EmitFrom(lines: seq<LineInfo>, ds: seq<Decorated>, pos: int,
                    sep: (Decorated, Decorated) -> bool): (r: seq<Src>)
    requires 0 <= pos && InFile(ds, |lines|)
    decreases |ds|
  {
    if pos >= |lines| || ds == [] then []
    else
      var s := ds[0].span;
      assert ds[0] in ds;
      Copy(lines, pos, s.lo) + GroupLines(ds, s, sep) + EmitFrom(lines, ds[Head(ds, s)..], s.hi, sep)
  }

  lemma {:induction false} HeadIs(ds: seq<Decorated>, s: Span)
    ensures forall i :: 0 <= i < Head(ds, s) ==> ds[i].span == s
    ensures Head(ds, s) < |ds| ==> ds[Head(ds, s)].span != s
  {
    if ds != [] && ds[0].span == s { HeadIs(ds[1..], s); }
  }

  lemma TailOrdered(ds: seq<Decorated>, n: int)
    requires Ordered(ds, n) && ds != []
    ensures var k := Head(ds, ds[0].span);
      && 0 < k <= |ds| && Ordered(ds[k..], n)
      && (forall i :: k <= i < |ds| ==> ds[0].span.hi <= ds[i].span.lo)
  {
    var s := ds[0].span;
    var k := Head(ds, s);
    HeadIs(ds, s);
    forall i | k <= i < |ds| ensures s.hi <= ds[i].span.lo {
      if k < i { assert NotAfter(ds[k].span, ds[i].span); }
      assert NotAfter(ds[0].span, ds[k].span);
    }
  }

  /** Copies the live lines up to the next reorder span. */
  method CopyLines(lines: seq<LineInfo>, pos: int, hi: int) returns (out: seq<Src>)
    requires 0 <= pos && hi <= |lines|
    ensures out == Copy(lines, pos, hi)
  {
    out := [];
    var i := pos;
    while i < hi
      invariant pos <= i && (pos <= hi ==> i <= hi) && (i <= |lines| ==> out == Copy(lines, pos, i))
      invariant (hi < pos ==> out == [])
    {
      if !lines[i].deleted {
        out := out + [FileLine(i)];
      }
      i := i + 1;
    }
  }

  /** Pops the decorated spans of the current reorder span. */
  method PopGroup(ds0: seq<Decorated>, s: Span, sep: (Decorated, Decorated) -> bool)
    returns (content: seq<Src>, ds: seq<Decorated>)
    ensures content == GroupLines(ds0, s, sep) && ds == ds0[Head(ds0, s)..]
  {
    content, ds := [], ds0;
    while ds != [] && ds[0].span == s
      invariant |ds| <= |ds0| && ds == ds0[|ds0| - |ds|..]
      invariant content + GroupLines(ds, s, sep) == GroupLines(ds0, s, sep)
      invariant |ds0| - |ds| + Head(ds, s) == Head(ds0, s)
    {
      content := content + ds[0].content;
      if |ds| > 1 && sep(ds[0], ds[1]) {
        content := content + [Sep];
      }
      ds := ds[1..];
    }
  }

  lemma SentinelLast(ds: seq<Decorated>, n: int)
    requires Ordered(ds, n) && EndsWithSentinel(ds, n) && ds[0].span.hi < n
    ensures EndsWithSentinel(ds[Head(ds, ds[0].span)..], n)
  {
    HeadIs(ds, ds[0].span);
  }

  /** Where the loop may stand. */
  ghost predicate AtPos(ds: seq<Decorated>, pos: int, n: int) {
    && 0 <= pos <= n && Ordered(ds, n)
    && (pos < n ==> EndsWithSentinel(ds, n))
    && (forall i :: 0 <= i < |ds| ==> pos <= ds[i].span.lo)
  }

  lemma NextPos(ds: seq<Decorated>, pos: int, n: int)
    requires AtPos(ds, pos, n) && pos < n
    ensures var h := Head(ds, ds[0].span); h > 0 && AtPos(ds[h..], ds[0].span.hi, n)
  {
    TailOrdered(ds, n);
    if ds[0].span.hi < n { SentinelLast(ds, n); }
  }

  /** Every span lies in a file of `n` lines. */
  predicate InFile(ds: seq<Decorated>, n: int) {
    forall d :: d in ds ==> 0 <= d.span.lo <= d.span.hi <= n
  }

  lemma HeadParts(ds: seq<Decorated>, n: int)
    requires InFile(ds, n) && EndsWithSentinel(ds, n)
    ensures var s := ds[0].span; var rest := ds[Head(ds, s)..];
      && 0 <= s.lo <= s.hi <= n && Head(ds, s) > 0 && InFile(rest, n) && (s.hi < n ==> EndsWithSentinel(rest, n))
  {
    assert ds[0] in ds;
    HeadIs(ds, ds[0].span);
  }

  lemma EmitStep(lines: seq<LineInfo>, ds: seq<Decorated>, pos: int, sep: (Decorated, Decorated) -> bool, out: seq<Src>)
    requires InFile(ds, |lines|) && ds != [] && 0 <= pos < |lines|
    requires var s := ds[0].span; 0 <= s.lo <= s.hi <= |lines| && InFile(ds[Head(ds, s)..], |lines|)
    ensures var s := ds[0].span; var rest := ds[Head(ds, s)..];
      out + Copy(lines, pos, s.lo) + GroupLines(ds, s, sep) + EmitFrom(lines, rest, s.hi, sep)
        == out + EmitFrom(lines, ds, pos, sep)
  {
  }

  /** The loop. The sentinel guarantees that a reorder span is left whenever a line is. */
  method Emit(lines: seq<LineInfo>, ds0: seq<Decorated>, sep: (Decorated, Decorated) -> bool) returns (out: seq<Src>)
    requires InFile(ds0, |lines|) && EndsWithSentinel(ds0, |lines|)
    ensures out == EmitFrom(lines, ds0, 0, sep)
  {
    out := [];
    var ds, pos := ds0, 0;
    while pos < |lines|
      invariant 0 <= pos && InFile(ds, |lines|) && (pos < |lines| ==> EndsWithSentinel(ds, |lines|))
      invariant out + EmitFrom(lines, ds, pos, sep) == EmitFrom(lines, ds0, 0, sep)
      decreases |ds|
    {
      var s := ds[0].span;
      HeadParts(ds, |lines|);
      EmitStep(lines, ds, pos, sep, out);
      var copied := CopyLines(lines, pos, s.lo);
      var group, rest := PopGroup(ds, s, sep);
      out := out + copied + group;
      ds, pos := rest, s.hi;
    }
  }

  /** The lines that `ds` contribute. */
  function AllContent(ds: seq<Decorated>): (r: seq<Src>) {
    if ds == [] then [] else ds[0].content + AllContent(ds[1..])
  }

  lemma {:induction false} ContentConcat(a: seq<Decorated>, b: seq<Decorated>)
    ensures AllContent(a + b) == AllContent(a) + AllContent(b)
  {
    if a == [] {
      assert a + b == b;
    } else {
      assert (a + b)[1..] == a[1..] + b;
      ContentConcat(a[1..], b);
    }
  }

  function Count(out: seq<Src>, x: Src): nat {
    if out == [] then 0 else (if out[0] == x then 1 else 0) + Count(out[1..], x)
  }

  lemma {:induction false} CountConcat(a: seq<Src>, b: seq<Src>, x: Src)
    ensures Count(a + b, x) == Count(a, x) + Count(b, x)
  {
    if a == [] {
      assert a + b == b;
    } else {
      assert (a + b)[1..] == a[1..] + b;
      CountConcat(a[1..], b, x);
    }
  }

  lemma CountOne(y: Src, x: Src)
    ensures Count([y], x) == if y == x then 1 else 0
  {
    assert [y][1..] == [];
  }

  lemma {:induction false} CopyCount(lines: seq<LineInfo>, lo: int, hi: int, x: Src)
    requires 0 <= lo && hi <= |lines|
    ensures Count(Copy(lines, lo, hi), x) == if x.FileLine? && lo <= x.i < hi && !lines[x.i].deleted then 1 else 0
    decreases hi - lo
  {
    if lo < hi {
      CopyCount(lines, lo, hi - 1, x);
      CountConcat(Copy(lines, lo, hi - 1), if lines[hi-1].deleted then [] else [FileLine(hi - 1)], x);
      CountOne(FileLine(hi - 1), x);
    }
  }

  lemma {:induction false} GroupCount(ds: seq<Decorated>, s: Span, sep: (Decorated, Decorated) -> bool, x: Src)
    requires x != Sep
    ensures Count(GroupLines(ds, s, sep), x) == Count(AllContent(ds[..Head(ds, s)]), x)
  {
    if ds != [] && ds[0].span == s {
      GroupCount(ds[1..], s, sep, x);
      var blank := if |ds| > 1 && sep(ds[0], ds[1]) then [Sep] else [];
      CountOne(Sep, x);
      SumCount(ds[0].content, blank, GroupLines(ds[1..], s, sep), x);
      HeadContent(ds, s);
      CountConcat(ds[0].content, AllContent(ds[1..][..Head(ds[1..], s)]), x);
    }
  }

  lemma {:induction false} HeadContent(ds: seq<Decorated>, s: Span)
    requires ds != [] && ds[0].span == s
    ensures AllContent(ds[..Head(ds, s)]) == ds[0].content + AllContent(ds[1..][..Head(ds[1..], s)])
  {
    var h := Head(ds, s);
    assert ds[..h][1..] == ds[1..][..h-1];
  }

  lemma SumCount(a: seq<Src>, b: seq<Src>, c: seq<Src>, x: Src)
    ensures Count(a + b + c, x) == Count(a, x) + Count(b, x) + Count(c, x)
  {
    CountConcat(a, b, x);
    CountConcat(a + b, c, x);
  }

  /** How many decorated spans the loop emits from line `pos` on. */
  function KeptLen(ds: seq<Decorated>, pos: int, n: int): (k: nat)
    ensures k <= |ds|
    decreases |ds|
  {
    if pos >= n || ds == [] || Head(ds, ds[0].span) == 0 then 0
    else var h := Head(ds, ds[0].span); h + KeptLen(ds[h..], ds[0].span.hi, n)
  }

  /** No reorder span holds line `i`. */
  ghost predicate Outside(ds: seq<Decorated>, i: int) {
    forall d :: d in ds ==> !In(i, d.span)
  }

  ghost predicate CopiedOver(lines: seq<LineInfo>, ds: seq<Decorated>, pos: int, x: Src) {
    x.FileLine? && 0 <= pos <= x.i < |lines| && !lines[x.i].deleted && Outside(ds, x.i)
  }

  /** A line behind the first reorder span is outside exactly when it is outside the others. */
  lemma OutsideTail(ds: seq<Decorated>, n: int, i: int)
    requires Ordered(ds, n) && ds != [] && ds[0].span.hi <= i
    ensures Outside(ds, i) <==> Outside(ds[Head(ds, ds[0].span)..], i)
  {
    var h := Head(ds, ds[0].span);
    HeadIs(ds, ds[0].span);
    if Outside(ds[h..], i) {
      forall d | d in ds ensures !In(i, d.span) {
        var j :| 0 <= j < |ds| && ds[j] == d;
        if j >= h { assert ds[h..][j-h] == d; }
      }
    }
  }

  lemma OutsideFront(ds: seq<Decorated>, n: int, pos: int, i: int)
    requires AtPos(ds, pos, n) && pos < n && pos <= i
    ensures i < ds[0].span.lo ==> Outside(ds, i)
    ensures ds[0].span.lo <= i < ds[0].span.hi ==> !Outside(ds, i)
  {
    assert ds[0] in ds;
    if i < ds[0].span.lo {
      forall d | d in ds ensures !In(i, d.span) {
        var j :| 0 <= j < |ds| && ds[j] == d;
        if j > 0 { assert NotAfter(ds[0].span, ds[j].span); }
      }
    }
  }

  lemma CopiedSplit(lines: seq<LineInfo>, ds: seq<Decorated>, pos: int, x: Src)
    requires AtPos(ds, pos, |lines|) && pos < |lines|
    ensures var s := ds[0].span; var rest := ds[Head(ds, s)..];
      CopiedOver(lines, ds, pos, x) <==>
        (x.FileLine? && pos <= x.i < s.lo && !lines[x.i].deleted) || CopiedOver(lines, rest, s.hi, x)
  {
    if x.FileLine? && pos <= x.i {
      OutsideFront(ds, |lines|, pos, x.i);
      if ds[0].span.hi <= x.i { OutsideTail(ds, |lines|, x.i); }
    }
  }

  /** Nothing is lost and nothing is duplicated: an output line is a live line outside the reorder
      spans or belongs to an emitted decorated span, and appears as often as that. */
  lemma {:induction false} EmitCount(lines: seq<LineInfo>, ds: seq<Decorated>, pos: int,
                                     sep: (Decorated, Decorated) -> bool, x: Src)
    requires AtPos(ds, pos, |lines|) && x != Sep
    ensures Count(EmitFrom(lines, ds, pos, sep), x) ==
      Count(AllContent(ds[..KeptLen(ds, pos, |lines|)]), x) + if CopiedOver(lines, ds, pos, x) then 1 else 0
    decreases |ds|
  {
    if pos < |lines| {
      var s := ds[0].span;
      var h := Head(ds, s);
      var rest := ds[h..];
      NextPos(ds, pos, |lines|);
      EmitCount(lines, rest, s.hi, sep, x);
      CopyCount(lines, pos, s.lo, x);
      GroupCount(ds, s, sep, x);
      CopiedSplit(lines, ds, pos, x);
      KeptContent(ds, pos, |lines|);
      SumCount(Copy(lines, pos, s.lo), GroupLines(ds, s, sep), EmitFrom(lines, rest, s.hi, sep), x);
      CountConcat(AllContent(ds[..h]), AllContent(rest[..KeptLen(rest, s.hi, |lines|)]), x);
    }
  }

  lemma {:induction false} KeptContent(ds: seq<Decorated>, pos: int, n: int)
    requires AtPos(ds, pos, n) && pos < n
    ensures var h := Head(ds, ds[0].span); var rest := ds[h..];
      AllContent(ds[..KeptLen(ds, pos, n)]) == AllContent(ds[..h]) + AllContent(rest[..KeptLen(rest, ds[0].span.hi, n)])
  {
    NextPos(ds, pos, n);
    KeptLenIs(ds, pos, n);
    var h := Head(ds, ds[0].span);
    SplitContent(ds, h, KeptLen(ds[h..], ds[0].span.hi, n));
  }

  lemma {:induction false} KeptLenIs(ds: seq<Decorated>, pos: int, n: int)
    requires pos < n && ds != [] && Head(ds, ds[0].span) > 0
    ensures var h := Head(ds, ds[0].span); KeptLen(ds, pos, n) == h + KeptLen(ds[h..], ds[0].span.hi, n)
  {
  }

  lemma SplitContent(ds: seq<Decorated>, h: int, k: int)
    requires 0 <= h <= |ds| && 0 <= k <= |ds| - h
    ensures AllContent(ds[..h + k]) == AllContent(ds[..h]) + AllContent(ds[h..][..k])
  {
    assert ds[..h + k] == ds[..h] + ds[h..][..k];
    ContentConcat(ds[..h], ds[h..][..k]);
  }

  /** A reorder span that holds lines reaches the end of the file. */
  ghost predicate SpanAtEnd(ds: seq<Decorated>, n: int) {
    exists d :: d in ds && d.span.lo < d.span.hi == n
  }

  /** Exactly the spans at the end of the file are lost, and only when another span ends there. */
  lemma {:induction false} LostExactly(ds: seq<Decorated>, pos: int, n: int, i: int)
    requires AtPos(ds, pos, n) && 0 <= i < |ds|
    ensures i >= KeptLen(ds, pos, n) <==> ds[i].span == Span(n, n) && (pos < n ==> SpanAtEnd(ds, n))
    decreases |ds|
  {
    if pos < n {
      NextPos(ds, pos, n);
      var s := ds[0].span;
      var h := Head(ds, s);
      HeadIs(ds, s);
      if i < h {
        if s == Span(n, n) { NoneAtEnd(ds, n); }
      } else {
        LostExactly(ds[h..], s.hi, n, i - h);
        EndTail(ds, n);
      }
    }
  }

  lemma NoneAtEnd(ds: seq<Decorated>, n: int)
    requires Ordered(ds, n) && ds != [] && ds[0].span == Span(n, n)
    ensures !SpanAtEnd(ds, n)
  {
    forall d | d in ds ensures d.span.lo >= n {
      var j :| 0 <= j < |ds| && ds[j] == d;
      if j > 0 { assert NotAfter(ds[0].span, ds[j].span); }
    }
  }

  lemma EndTail(ds: seq<Decorated>, n: int)
    requires Ordered(ds, n) && ds != []
    ensures var s := ds[0].span; var rest := ds[Head(ds, s)..];
      SpanAtEnd(ds, n) <==> (s.lo < s.hi == n) || SpanAtEnd(rest, n)
  {
    var s := ds[0].span;
    var h := Head(ds, s);
    HeadIs(ds, s);
    assert ds[0] in ds;
    if d :| d in ds && d.span.lo < d.span.hi == n {
      var j :| 0 <= j < |ds| && ds[j] == d;
      if j >= h { assert ds[h..][j-h] == d; }
    }
  }

  /** Where an output line comes from: number `j` of the decorated spans, or -1 for a line that is copied. */
  ghost predicate Slot(ds: seq<Decorated>, x: Src, j: int) {
    || (j == -1 && x.FileLine? && Outside(ds, x.i))
    || (0 <= j < |ds| && (x in ds[j].content || x == Sep))
  }

  /** The place of such a line in the file. */
  function PlaceAt(ds: seq<Decorated>, x: Src, j: int): Span {
    if 0 <= j < |ds| then ds[j].span else if x.FileLine? then Span(x.i, x.i + 1) else Span(0, 0)
  }

  /** Line `y` may stand behind line `x`: its place is not before that of `x`, nor is its decorated span. */
  predicate Follows(ds: seq<Decorated>, x: Src, j: int, y: Src, k: int) {
    NotAfter(PlaceAt(ds, x, j), PlaceAt(ds, y, k)) && (j >= 0 && k >= 0 ==> j <= k)
  }

  /** Every output line has its slot, the places are in file order, and so are the decorated spans. */
  ghost predicate InPlace(ds: seq<Decorated>, out: seq<Src>, slots: seq<int>) {
    && |slots| == |out|
    && (forall p :: 0 <= p < |out| ==> Slot(ds, out[p], slots[p]))
    && (forall p, q :: 0 <= p < q < |out| ==> Follows(ds, out[p], slots[p], out[q], slots[q]))
  }

  /** All places lie between two lines. */
  ghost predicate PlacedIn(ds: seq<Decorated>, out: seq<Src>, slots: seq<int>, lo: int, hi: int) {
    |slots| == |out| && forall p :: 0 <= p < |out| ==>
      var s := PlaceAt(ds, out[p], slots[p]); lo <= s.lo <= s.hi <= hi
  }

  lemma SlotsConcat(ds: seq<Decorated>, a: seq<Src>, p: seq<int>, b: seq<Src>, q: seq<int>)
    requires InPlace(ds, a, p) && InPlace(ds, b, q)
    requires forall i, j :: 0 <= i < |a| && 0 <= j < |b| ==> Follows(ds, a[i], p[i], b[j], q[j])
    ensures InPlace(ds, a + b, p + q)
  {
    var out, slots := a + b, p + q;
    forall i, j | 0 <= i < j < |out| ensures Follows(ds, out[i], slots[i], out[j], slots[j]) {
      if j < |a| {
        assert Follows(ds, a[i], p[i], a[j], p[j]);
      } else if |a| <= i {
        assert Follows(ds, b[i - |a|], q[i - |a|], b[j - |a|], q[j - |a|]);
      } else {
        assert Follows(ds, a[i], p[i], b[j - |a|], q[j - |a|]);
      }
    }
  }

  /** Lines that are copied from between two lines. */
  ghost predicate CopiedIn(ds: seq<Decorated>, out: seq<Src>, slots: seq<int>, lo: int, hi: int) {
    InPlace(ds, out, slots) && PlacedIn(ds, out, slots, lo, hi) && forall p :: 0 <= p < |slots| ==> slots[p] == -1
  }

  lemma CopyOne(ds: seq<Decorated>, front: seq<Src>, slots: seq<int>, lo: int, i: int)
    requires CopiedIn(ds, front, slots, lo, i) && lo <= i && Outside(ds, i)
    ensures CopiedIn(ds, front + [FileLine(i)], slots + [-1], lo, i + 1)
  {
    assert InPlace(ds, [FileLine(i)], [-1]);
    SlotsConcat(ds, front, slots, [FileLine(i)], [-1]);
  }

  lemma {:induction false} CopySlots(lines: seq<LineInfo>, ds: seq<Decorated>, lo: int,
                                     hi: int) returns (slots: seq<int>)
    requires 0 <= lo && hi <= |lines| && forall i :: lo <= i < hi ==> Outside(ds, i)
    ensures CopiedIn(ds, Copy(lines, lo, hi), slots, lo, hi)
    decreases hi - lo
  {
    if lo >= hi {
      slots := [];
    } else {
      slots := CopySlots(lines, ds, lo, hi - 1);
      if lines[hi-1].deleted {
        assert Copy(lines, lo, hi) == Copy(lines, lo, hi - 1);
      } else {
        CopyOne(ds, Copy(lines, lo, hi - 1), slots, lo, hi - 1);
        slots := slots + [-1];
      }
    }
  }

  /** The same slots in a longer list. */
  function Shifted(slots: seq<int>, h: nat): (r: seq<int>)
    ensures |r| == |slots| && forall p :: 0 <= p < |slots| ==> r[p] == if slots[p] < 0 then slots[p] else slots[p] + h
  {
    seq(|slots|, p requires 0 <= p < |slots| => if slots[p] < 0 then slots[p] else slots[p] + h)
  }

  lemma ShiftedPlaces(ds: seq<Decorated>, h: nat, out: seq<Src>, slots: seq<int>)
    requires h <= |ds| && InPlace(ds[h..], out, slots)
    requires forall p :: 0 <= p < |out| && slots[p] == -1 && out[p].FileLine? ==> Outside(ds, out[p].i)
    ensures InPlace(ds, out, Shifted(slots, h))
    ensures forall p :: 0 <= p < |out| ==>
      PlaceAt(ds, out[p], Shifted(slots, h)[p]) == PlaceAt(ds[h..], out[p], slots[p])
  {
    forall p | 0 <= p < |out|
      ensures Slot(ds, out[p], Shifted(slots, h)[p])
      ensures PlaceAt(ds, out[p], Shifted(slots, h)[p]) == PlaceAt(ds[h..], out[p], slots[p])
    {
      assert Slot(ds[h..], out[p], slots[p]);
    }
  }

  /** The first slot, for the content of one decorated span and the blank behind it. */
  function Zeros(n: nat): (r: seq<int>)
    ensures |r| == n && forall p :: 0 <= p < n ==> r[p] == 0
  {
    seq(n, p => 0)
  }

  lemma {:induction false} GroupSlots(ds: seq<Decorated>, s: Span,
                                      sep: (Decorated, Decorated) -> bool) returns (slots: seq<int>)
    ensures InPlace(ds, GroupLines(ds, s, sep), slots)
    ensures forall p :: 0 <= p < |slots| ==> 0 <= slots[p] < Head(ds, s) && ds[slots[p]].span == s
  {
    if ds == [] || ds[0].span != s {
      slots := [];
    } else {
      var first := ds[0].content + if |ds| > 1 && sep(ds[0], ds[1]) then [Sep] else [];
      var rest := GroupLines(ds[1..], s, sep);
      var more := GroupSlots(ds[1..], s, sep);
      ShiftedPlaces(ds, 1, rest, more);
      slots := Zeros(|first|) + Shifted(more, 1);
      SlotsConcat(ds, first, Zeros(|first|), rest, Shifted(more, 1));
    }
  }

  /** The slots of the lines behind the first reorder span. */
  lemma TailSlots(ds: seq<Decorated>, n: int, out: seq<Src>, slots: seq<int>)
    requires Ordered(ds, n) && ds != [] && InPlace(ds[Head(ds, ds[0].span)..], out, slots)
    requires PlacedIn(ds[Head(ds, ds[0].span)..], out, slots, ds[0].span.hi, n)
    ensures InPlace(ds, out, Shifted(slots, Head(ds, ds[0].span)))
    ensures PlacedIn(ds, out, Shifted(slots, Head(ds, ds[0].span)), ds[0].span.hi, n)
  {
    var h := Head(ds, ds[0].span);
    forall p | 0 <= p < |out| && slots[p] == -1 && out[p].FileLine? ensures Outside(ds, out[p].i) {
      assert Slot(ds[h..], out[p], slots[p]);
      OutsideTail(ds, n, out[p].i);
    }
    ShiftedPlaces(ds, h, out, slots);
  }

  /** The output keeps the file's order: copied lines by their numbers, the content of each reorder span between the
      lines before and the lines behind it, and the decorated spans in their sorted order. */
  lemma {:induction false} EmitInOrder(lines: seq<LineInfo>, ds: seq<Decorated>, pos: int,
                                       sep: (Decorated, Decorated) -> bool) returns (slots: seq<int>)
    requires AtPos(ds, pos, |lines|)
    ensures InPlace(ds, EmitFrom(lines, ds, pos, sep), slots)
    ensures PlacedIn(ds, EmitFrom(lines, ds, pos, sep), slots, pos, |lines|)
    decreases |ds|
  {
    if pos >= |lines| {
      slots := [];
    } else {
      var s := ds[0].span;
      var h := Head(ds, s);
      NextPos(ds, pos, |lines|);
      forall i | pos <= i < s.lo ensures Outside(ds, i) { OutsideFront(ds, |lines|, pos, i); }
      var copied, group := Copy(lines, pos, s.lo), GroupLines(ds, s, sep);
      var c := CopySlots(lines, ds, pos, s.lo);
      var g := GroupSlots(ds, s, sep);
      var tail := EmitFrom(lines, ds[h..], s.hi, sep);
      var t := EmitInOrder(lines, ds[h..], s.hi, sep);
      TailSlots(ds, |lines|, tail, t);
      slots := c + g + Shifted(t, h);
      JoinSlots(ds, |lines|, pos, copied, c, group, g, tail, Shifted(t, h));
    }
  }

  lemma JoinSlots(ds: seq<Decorated>, n: int, pos: int, copied: seq<Src>, c: seq<int>, group: seq<Src>, g: seq<int>,
                  tail: seq<Src>, t: seq<int>)
    requires ds != [] && 0 <= pos <= ds[0].span.lo <= ds[0].span.hi <= n
    requires InPlace(ds, copied, c) && PlacedIn(ds, copied, c, pos, ds[0].span.lo)
    requires forall p :: 0 <= p < |c| ==> c[p] == -1
    requires InPlace(ds, group, g)
    requires forall p :: 0 <= p < |g| ==> 0 <= g[p] < Head(ds, ds[0].span) && ds[g[p]].span == ds[0].span
    requires InPlace(ds, tail, t) && PlacedIn(ds, tail, t, ds[0].span.hi, n)
    requires forall p :: 0 <= p < |t| && t[p] >= 0 ==> t[p] >= Head(ds, ds[0].span)
    ensures InPlace(ds, copied + group + tail, c + g + t) && PlacedIn(ds, copied + group + tail, c + g + t, pos, n)
  {
    SlotsConcat(ds, copied, c, group, g);
    SlotsConcat(ds, copied + group, c + g, tail, t);
  }

  function DropSeps(out: seq<Src>): seq<Src> {
    if out == [] then [] else (if out[0] == Sep then [] else [out[0]]) + DropSeps(out[1..])
  }

  lemma {:induction false} DropConcat(a: seq<Src>, b: seq<Src>)
    ensures DropSeps(a + b) == DropSeps(a) + DropSeps(b)
  {
    if a == [] {
      assert a + b == b;
    } else {
      assert (a + b)[1..] == a[1..] + b;
      DropConcat(a[1..], b);
    }
  }

  lemma {:induction false} DropNothing(a: seq<Src>)
    requires Sep !in a
    ensures DropSeps(a) == a
  {
    if a != [] {
      DropNothing(a[1..]);
      assert a == [a[0]] + a[1..];
    }
  }

  /** Within a reorder span the decorated spans keep their sorted order. */
  lemma {:induction false} GroupInOrder(ds: seq<Decorated>, s: Span, sep: (Decorated, Decorated) -> bool)
    requires forall d :: d in ds ==> Sep !in d.content
    ensures DropSeps(GroupLines(ds, s, sep)) == AllContent(ds[..Head(ds, s)])
  {
    if ds != [] && ds[0].span == s {
      var rest := ds[1..];
      assert forall d :: d in rest ==> d in ds;
      GroupInOrder(rest, s, sep);
      HeadContent(ds, s);
      assert ds[0] in ds;
      DropFirst(ds[0].content, |ds| > 1 && sep(ds[0], ds[1]), GroupLines(rest, s, sep));
    }
  }

  lemma DropFirst(content: seq<Src>, blank: bool, rest: seq<Src>)
    requires Sep !in content
    ensures DropSeps(content + (if blank then [Sep] else []) + rest) == content + DropSeps(rest)
  {
    var sep := if blank then [Sep] else [];
    DropConcat(content + sep, rest);
    DropConcat(content, sep);
    DropNothing(content);
    assert DropSeps(sep) == [] by { assert [Sep][1..] == []; }
    assert content + [] == content;
  }
}
