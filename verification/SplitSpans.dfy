/** What the emission loop does with a place strictly inside a reorder span: it goes back to a line that it
    has passed. */
module SplitSpans {
  import opened Records
  import opened FileLines
  import opened Emission

  /** Sorted spans around `g`, with the place `l` inside it. */
  ghost predicate Around(ds: seq<Decorated>, g: Span, l: int, n: int) {
    && 0 <= g.lo < l < g.hi <= n && InFile(ds, n) && EndsWithSentinel(ds, n)
    && (forall i, j :: 0 <= i < j < |ds| ==> SpanLe(ds[i].span, ds[j].span))
    && forall i :: 0 <= i < |ds| ==> Besides(ds[i].span, g, l)
  }

  predicate Besides(s: Span, g: Span, l: int) {
    s == g || s == Span(l, l) || s.hi <= g.lo || g.hi <= s.lo
  }

  /** Some span of `ds` is `s`. */
  ghost predicate Has(ds: seq<Decorated>, s: Span) {
    exists i :: 0 <= i < |ds| && ds[i].span == s
  }

  /** A decorated span of `g` holds `x`. */
  ghost predicate Writes(ds: seq<Decorated>, g: Span, x: Src) {
    exists i :: 0 <= i < |ds| && ds[i].span == g && Count(ds[i].content, x) > 0
  }

  lemma {:induction false} StillThere(ds: seq<Decorated>, g: Span, l: int, x: Src)
    requires ds != [] && ds[0].span != g && ds[0].span != Span(l, l) && Has(ds, Span(l, l)) && Writes(ds, g, x)
    ensures var rest := ds[Head(ds, ds[0].span)..]; Has(rest, Span(l, l)) && Writes(rest, g, x)
  {
    var h := Head(ds, ds[0].span);
    HeadIs(ds, ds[0].span);
    var i :| 0 <= i < |ds| && ds[i].span == g && Count(ds[i].content, x) > 0;
    assert ds[h..][i-h] == ds[i];
    var j :| 0 <= j < |ds| && ds[j].span == Span(l, l);
    assert ds[h..][j-h] == ds[j];
  }

  lemma TailAround(ds: seq<Decorated>, g: Span, l: int, n: int)
    requires Around(ds, g, l, n) && ds[0].span.hi < n
    ensures var h := Head(ds, ds[0].span); h > 0 && Around(ds[h..], g, l, n)
  {
    HeadIs(ds, ds[0].span);
  }

  /** Nothing at or behind `g` comes before it. */
  lemma BeforeGroup(ds: seq<Decorated>, g: Span, l: int, n: int)
    requires Around(ds, g, l, n) && Has(ds, g)
    ensures ds[0].span == g || ds[0].span.hi <= g.lo
    ensures ds[0].span != g ==> Has(ds[Head(ds, ds[0].span)..], g)
  {
    var j :| 0 <= j < |ds| && ds[j].span == g;
    assert j > 0 ==> SpanLe(ds[0].span, ds[j].span);
    HeadIs(ds, ds[0].span);
    var h := Head(ds, ds[0].span);
    if ds[0].span != g { assert ds[h..][j-h].span == g; }
  }

  /** The place comes directly behind `g`. */
  lemma BehindGroup(ds: seq<Decorated>, g: Span, l: int, n: int)
    requires Around(ds, g, l, n) && ds[0].span == g && Has(ds, Span(l, l))
    ensures var h := Head(ds, g); 0 < h < |ds| && ds[h].span == Span(l, l)
  {
    HeadIs(ds, g);
    var h := Head(ds, g);
    var j :| 0 <= j < |ds| && ds[j].span == Span(l, l);
    assert h < |ds| && h <= j;
    assert SpanLe(ds[0].span, ds[h].span) && (h < j ==> SpanLe(ds[h].span, ds[j].span));
  }

  /** What follows the place lies behind `g`. */
  lemma BehindPlace(ds: seq<Decorated>, g: Span, l: int, n: int)
    requires Around(ds, g, l, n) && ds[0].span == Span(l, l)
    ensures var h := Head(ds, Span(l, l)); 0 < h < |ds| && g.hi <= ds[h].span.lo
  {
    HeadIs(ds, Span(l, l));
    var h := Head(ds, Span(l, l));
    assert SpanLe(ds[0].span, ds[h].span);
  }

  lemma InHead(ds: seq<Decorated>, g: Span, l: int, n: int, x: Src)
    requires Around(ds, g, l, n) && ds[0].span == g && x != Sep
    requires Writes(ds, g, x)
    ensures Count(AllContent(ds[..Head(ds, g)]), x) > 0
  {
    var i :| 0 <= i < |ds| && ds[i].span == g && Count(ds[i].content, x) > 0;
    HeadIs(ds, g);
    var h := Head(ds, g);
    forall j | h <= j < |ds| ensures ds[j].span != g {
      assert SpanLe(ds[0].span, ds[h].span) && (h < j ==> SpanLe(ds[h].span, ds[j].span));
    }
    assert ds[..h][i] == ds[i];
    ContentHas(ds[..h], i, x);
  }

  lemma {:induction false} ContentHas(ds: seq<Decorated>, i: int, x: Src)
    requires 0 <= i < |ds| && Count(ds[i].content, x) > 0
    ensures Count(AllContent(ds), x) > 0
  {
    CountConcat(ds[0].content, AllContent(ds[1..]), x);
    if i > 0 { ContentHas(ds[1..], i - 1, x); }
  }

  lemma {:induction false} ContentLacks(ds: seq<Decorated>, x: Src)
    requires forall i :: 0 <= i < |ds| ==> Count(ds[i].content, x) == 0
    ensures Count(AllContent(ds), x) == 0
  {
    if ds != [] {
      ContentLacks(ds[1..], x);
      CountConcat(ds[0].content, AllContent(ds[1..]), x);
    }
  }

  lemma EmitParts(lines: seq<LineInfo>, ds: seq<Decorated>, pos: int, sep: (Decorated, Decorated) -> bool, x: Src)
    requires InFile(ds, |lines|) && EndsWithSentinel(ds, |lines|) && 0 <= pos < |lines| && x != Sep
    ensures var s := ds[0].span; var h := Head(ds, s);
      && 0 <= s.lo <= s.hi <= |lines| && InFile(ds[h..], |lines|)
      && Count(EmitFrom(lines, ds, pos, sep), x) == Count(Copy(lines, pos, s.lo), x)
           + Count(AllContent(ds[..h]), x) + Count(EmitFrom(lines, ds[h..], s.hi, sep), x)
  {
    HeadParts(ds, |lines|);
    EmitStep(lines, ds, pos, sep, []);
    var s := ds[0].span;
    GroupCount(ds, s, sep, x);
    SumCount(Copy(lines, pos, s.lo), GroupLines(ds, s, sep), EmitFrom(lines, ds[Head(ds, s)..], s.hi, sep), x);
  }

  /** Behind the reorder span the loop goes back to the place and copies its line again. */
  lemma CopiedAgain(lines: seq<LineInfo>, ds: seq<Decorated>, pos: int, sep: (Decorated, Decorated) -> bool, g: Span,
                    l: int)
    requires Around(ds, g, l, |lines|) && ds[0].span == Span(l, l) && 0 <= pos < |lines| && !lines[l].deleted
    ensures Count(EmitFrom(lines, ds, pos, sep), FileLine(l)) >= 1
  {
    var n, x := |lines|, FileLine(l);
    EmitParts(lines, ds, pos, sep, x);
    BehindPlace(ds, g, l, n);
    TailAround(ds, g, l, n);
    var rest := ds[Head(ds, Span(l, l))..];
    EmitParts(lines, rest, l, sep, x);
    CopyCount(lines, l, rest[0].span.lo, x);
  }

  /** A line in the middle of a reorder span is written twice. */
  lemma {:induction false} Doubled(lines: seq<LineInfo>, ds: seq<Decorated>, pos: int,
                                   sep: (Decorated, Decorated) -> bool, g: Span, l: int)
    requires Around(ds, g, l, |lines|) && g.hi < |lines| && Has(ds, Span(l, l)) && 0 <= pos <= g.lo && !lines[l].deleted
    requires Writes(ds, g, FileLine(l))
    ensures Count(EmitFrom(lines, ds, pos, sep), FileLine(l)) >= 2
    decreases |ds|
  {
    var n, x, s := |lines|, FileLine(l), ds[0].span;
    var h := Head(ds, s);
    assert Has(ds, g);
    BeforeGroup(ds, g, l, n);
    TailAround(ds, g, l, n);
    EmitParts(lines, ds, pos, sep, x);
    if s == g {
      InHead(ds, g, l, n, x);
      BehindGroup(ds, g, l, n);
      CopiedAgain(lines, ds[h..], g.hi, sep, g, l);
    } else {
      StillThere(ds, g, l, x);
      Doubled(lines, ds[h..], s.hi, sep, g, l);
    }
  }

  /** At the end of the file the loop stops before it comes to the place. */
  lemma {:induction false} Dropped(lines: seq<LineInfo>, ds: seq<Decorated>, pos: int,
                                   sep: (Decorated, Decorated) -> bool, g: Span, l: int, k: int)
    requires Around(ds, g, l, |lines|) && g.hi == |lines| && Has(ds, g) && 0 <= pos <= g.lo
    requires forall i :: 0 <= i < |ds| && ds[i].span != Span(l, l) ==> Count(ds[i].content, Added(k)) == 0
    ensures Count(EmitFrom(lines, ds, pos, sep), Added(k)) == 0
    decreases |ds|
  {
    var n, x, s := |lines|, Added(k), ds[0].span;
    var h := Head(ds, s);
    BeforeGroup(ds, g, l, n);
    EmitParts(lines, ds, pos, sep, x);
    HeadIs(ds, s);
    ContentLacks(ds[..h], x);
    CopyCount(lines, pos, s.lo, x);
    if s != g {
      TailAround(ds, g, l, n);
      Dropped(lines, ds[h..], s.hi, sep, g, l, k);
    }
  }

  /** Deleted lines are never written. */
  lemma {:induction false} NoDeleted(lines: seq<LineInfo>, ds: seq<Decorated>, pos: int,
                                     sep: (Decorated, Decorated) -> bool, i: int)
    requires InFile(ds, |lines|) && 0 <= pos && (pos < |lines| ==> EndsWithSentinel(ds, |lines|))
    requires 0 <= i < |lines| && lines[i].deleted
    requires forall j :: 0 <= j < |ds| ==> Count(ds[j].content, FileLine(i)) == 0
    ensures Count(EmitFrom(lines, ds, pos, sep), FileLine(i)) == 0
    decreases |ds|
  {
    if pos < |lines| {
      var s := ds[0].span;
      HeadParts(ds, |lines|);
      EmitParts(lines, ds, pos, sep, FileLine(i));
      ContentLacks(ds[..Head(ds, s)], FileLine(i));
      CopyCount(lines, pos, s.lo, FileLine(i));
      NoDeleted(lines, ds[Head(ds, s)..], s.hi, sep, i);
    }
  }
}
