/** The whole way of a file through build_support/fix_includes.py: move spans and reorder spans, deletions,
    and the rewritten file. */
module IncludeFixer {
  import opened Records
  import opened FileLines
  import opened MoveSpans
  import opened ReorderSpans
  import opened AddedLines
  import opened Emission
  import opened FixFile
  import EmptyBlocks

  /** `ls` are lines of move spans. */
  ghost predicate SpanLines(lines: seq<LineInfo>, ls: seq<int>) {
    forall k :: 0 <= k < |ls| ==> 0 <= ls[k] < |lines| && lines[ls[k]].moveSpan.Some?
  }

  /** Line `i` is in the move span of one of `ls`. */
  ghost predicate InSpans(lines: seq<LineInfo>, ls: seq<int>, i: int)
    requires SpanLines(lines, ls)
  {
    exists k :: 0 <= k < |ls| && In(i, lines[ls[k]].moveSpan.value)
  }

  /** `b` is `a` without the move spans of `ls`. */
  ghost predicate SpansGone(a: seq<LineInfo>, ls: seq<int>, b: seq<LineInfo>)
    requires SpanLines(a, ls)
  {
    |b| == |a| && forall i :: 0 <= i < |a| ==> b[i] == a[i].(deleted := a[i].deleted || InSpans(a, ls, i))
  }

  lemma GoneNext(a: seq<LineInfo>, ls: seq<int>, n: nat, b: seq<LineInfo>, c: seq<LineInfo>)
    requires SpanLines(a, ls) && n < |ls| && SpansGone(a, ls[..n], b) && |c| == |b|
    requires var s := a[ls[n]].moveSpan.value;
      forall i :: 0 <= i < |b| ==> c[i] == if s.lo <= i < s.hi then b[i].(deleted := true) else b[i]
    ensures SpansGone(a, ls[..n+1], c)
  {
    var some, more := ls[..n], ls[..n+1];
    forall i | 0 <= i < |a| ensures InSpans(a, more, i) <==> InSpans(a, some, i) || In(i, a[ls[n]].moveSpan.value) {
      if k :| 0 <= k < |some| && In(i, a[some[k]].moveSpan.value) { assert more[k] == ls[k]; }
      if k :| 0 <= k < |more| && In(i, a[more[k]].moveSpan.value) { assert k < n ==> some[k] == ls[k]; }
      assert more[n] == ls[n];
    }
  }

  /** Deletes the move spans of `ls`. */
  method DeleteSpans(f: SourceFile, ls: seq<int>)
    requires SpanLines(f.lines, ls) && SpansWhole(f.lines)
    modifies f
    ensures SpansGone(old(f.lines), ls, f.lines)
  {
    ghost var start := f.lines;
    var n := 0;
    while n < |ls|
      invariant 0 <= n <= |ls| && SpansGone(start, ls[..n], f.lines)
    {
      assert WholeAt(start, ls[n]);
      var s := f.lines[ls[n]].moveSpan.value;
      ghost var before := f.lines;
      EmptyBlocks.DeleteRange(f, s.lo, s.hi);
      GoneNext(start, ls, n, before, f.lines);
      n := n + 1;
    }
    assert ls[..n] == ls;
  }

  /** Deletes blank lines. */
  method DeleteBlanks(f: SourceFile, ls: seq<int>)
    requires forall k :: 0 <= k < |ls| ==> 0 <= ls[k] < |f.lines| && f.lines[ls[k]].kind == Blank
    modifies f
    ensures MoreDeleted(old(f.lines), f.lines)
    ensures forall i :: 0 <= i < |f.lines| && f.lines[i].kind != Blank ==> f.lines[i] == old(f.lines)[i]
    ensures forall i :: 0 <= i < |f.lines| ==> f.lines[i].deleted == (old(f.lines)[i].deleted || i in ls)
  {
    var n := 0;
    while n < |ls|
      invariant 0 <= n <= |ls| && MoreDeleted(old(f.lines), f.lines)
      invariant forall i :: 0 <= i < |f.lines| && f.lines[i].kind != Blank ==> f.lines[i] == old(f.lines)[i]
      invariant forall i :: 0 <= i < |f.lines| ==> f.lines[i].deleted == (old(f.lines)[i].deleted || i in ls[..n])
    {
      f.lines := f.lines[ls[n] := f.lines[ls[n]].(deleted := true)];
      n := n + 1;
    }
  }

  /** The classified lines as they are read: no spans yet, and every include and declaration live. */
  ghost predicate Unspanned(lines: seq<LineInfo>) {
    && lines != [] && GuardOk(lines)
    && forall i :: 0 <= i < |lines| ==>
         && lines[i].moveSpan == None && lines[i].reorderSpan == None
         && (IsAnchorKind(lines[i].kind) ==> !lines[i].deleted)
  }

  /** Line `l` is an include or part of a declaration that the analysis reports. */
  ghost predicate Movable(lines: seq<LineInfo>, decls: seq<Span>, l: int) {
    0 <= l < |lines| && (lines[l].kind == Include || exists s :: s in decls && In(l, s))
  }

  lemma GrownIsFormed(lines: seq<LineInfo>, s: Span)
    requires Within(s, |lines|) && forall i :: In(i, s) ==> IsAnchorKind(lines[i].kind)
    ensures Formed(lines, Grow(lines, s))
  {
    CommentsBefore(lines, s.lo);
    assert In(s.hi - 1, s);
  }

  lemma SpanIsFormed(start: seq<LineInfo>, decls: seq<Span>, s: Span)
    requires DeclarationsOk(start, decls) && s in AllSpans(start, decls)
    ensures Within(s, |start|) && Formed(start, s)
  {
    if s in IncludeSpans(start, |start|) {
      var k := IncludeOf(start, |start|, s);
      GrownIsFormed(start, Span(k, k + 1));
    } else {
      var i :| 0 <= i < |decls| && GrowAll(start, decls)[i] == s;
      assert decls[i] in decls;
      GrownIsFormed(start, decls[i]);
    }
  }

  lemma AllAreFormed(start: seq<LineInfo>, lines: seq<LineInfo>, decls: seq<Span>, spans: seq<Span>)
    requires DeclarationsOk(start, decls) && SameButSpans(start, lines) && Painted(lines, AllSpans(start, decls))
    requires ListsMoveSpans(lines, spans)
    ensures AllFormed(lines, spans)
  {
    forall p | 0 <= p < |spans| ensures Formed(lines, spans[p]) {
      assert spans[p] in spans;
      var i :| 0 <= i < |lines| && lines[i].moveSpan == Some(spans[p]);
      SpanIsFormed(start, decls, spans[p]);
    }
  }

  lemma NoneOrphaned(lines: seq<LineInfo>, spans: seq<Span>)
    requires Sorted(spans, |lines|) && AllFormed(lines, spans)
    requires forall i :: 0 <= i < |lines| && IsAnchorKind(lines[i].kind) ==> !lines[i].deleted
    ensures NoOrphans(lines, spans)
  {
    forall p, i | 0 <= p < |spans| && In(i, spans[p]) && !lines[i].deleted ensures LiveIn(lines, spans[p]) {
      assert Formed(lines, spans[p]);
      assert In(spans[p].hi - 1, spans[p]) && IsAnchor(lines[spans[p].hi-1]);
    }
  }

  /** What deletions leave alone. */
  lemma StillFormed(a: seq<LineInfo>, b: seq<LineInfo>, spans: seq<Span>)
    requires MoreDeleted(a, b) && SpansWhole(a) && ListsMoveSpans(a, spans) && AllFormed(a, spans) && GuardOk(a)
    ensures SpansWhole(b) && ListsMoveSpans(b, spans) && AllFormed(b, spans) && GuardOk(b)
  {
    forall i | 0 <= i < |b| && b[i].moveSpan.Some? ensures WholeAt(b, i) { assert WholeAt(a, i); }
    forall s ensures s in spans <==> exists i :: 0 <= i < |b| && b[i].moveSpan == Some(s) {
      if i :| 0 <= i < |a| && a[i].moveSpan == Some(s) { assert b[i].moveSpan == Some(s); }
    }
    forall p | 0 <= p < |spans| ensures Formed(b, spans[p]) { assert Formed(a, spans[p]); }
    forall h | 0 <= h < |b| && b[h].kind == HeaderGuard ensures exists e :: ClosedBy(b, h, e) {
      var e :| ClosedBy(a, h, e);
      assert ClosedBy(b, h, e);
    }
  }

  lemma CarriesSpan(lines: seq<LineInfo>, spans: seq<Span>, p: int, i: int)
    requires SpansWhole(lines) && ListsMoveSpans(lines, spans) && 0 <= p < |spans| && In(i, spans[p])
    ensures 0 <= i < |lines| && lines[i].moveSpan == Some(spans[p])
  {
    assert spans[p] in spans;
    var j :| 0 <= j < |lines| && lines[j].moveSpan == Some(spans[p]);
    assert WholeAt(lines, j);
  }

  lemma GoneTogether(lines: seq<LineInfo>, ls: seq<int>, i: int, j: int)
    requires SpansWhole(lines) && SpanLines(lines, ls) && 0 <= i < |lines| && 0 <= j < |lines|
    requires lines[i].moveSpan.Some? && lines[i].moveSpan == lines[j].moveSpan
    ensures InSpans(lines, ls, j) ==> InSpans(lines, ls, i)
  {
    assert WholeAt(lines, i);
    if k :| 0 <= k < |ls| && In(j, lines[ls[k]].moveSpan.value) { assert WholeAt(lines, ls[k]); }
  }

  /** Deleting whole move spans leaves no orphans. */
  lemma GoneOrphans(a: seq<LineInfo>, ls: seq<int>, b: seq<LineInfo>, spans: seq<Span>)
    requires SpansWhole(a) && ListsMoveSpans(a, spans) && NoOrphans(a, spans) && SpanLines(a, ls) && SpansGone(a, ls, b)
    ensures NoOrphans(b, spans)
  {
    forall p, i | 0 <= p < |spans| && In(i, spans[p]) && !b[i].deleted ensures LiveIn(b, spans[p]) {
      assert !a[i].deleted && LiveIn(a, spans[p]);
      var j :| In(j, spans[p]) && 0 <= j < |a| && IsAnchor(a[j]);
      CarriesSpan(a, spans, p, i);
      CarriesSpan(a, spans, p, j);
      GoneTogether(a, ls, i, j);
      assert IsAnchor(b[j]);
    }
  }

  /** So does deleting other lines. */
  lemma SparedOrphans(a: seq<LineInfo>, b: seq<LineInfo>, spans: seq<Span>)
    requires MoreDeleted(a, b) && Sorted(spans, |a|) && NoOrphans(a, spans)
    requires forall i :: 0 <= i < |a| && IsAnchorKind(a[i].kind) ==> b[i] == a[i]
    ensures NoOrphans(b, spans)
  {
    forall p, i | 0 <= p < |spans| && In(i, spans[p]) && !b[i].deleted ensures LiveIn(b, spans[p]) {
      assert !a[i].deleted && LiveIn(a, spans[p]);
      var j :| In(j, spans[p]) && 0 <= j < |a| && IsAnchor(a[j]);
      assert IsAnchor(b[j]);
    }
  }

  /** The file in the course of the deletions. */
  ghost predicate Prepared(before: seq<LineInfo>, lines: seq<LineInfo>, spans: seq<Span>) {
    && MoreDeleted(before, lines) && SpansWhole(lines) && ListsMoveSpans(lines, spans) && FileOk(lines, spans)
    && Current(before, spans)
  }

  lemma PreparedNext(before: seq<LineInfo>, a: seq<LineInfo>, b: seq<LineInfo>, spans: seq<Span>)
    requires Prepared(before, a, spans) && MoreDeleted(a, b) && NoOrphans(b, spans)
    ensures Prepared(before, b, spans)
  {
    StillFormed(a, b, spans);
  }

  lemma StillSpanLines(a: seq<LineInfo>, b: seq<LineInfo>, ls: seq<int>)
    requires |a| == |b| && SpanLines(a, ls) && forall i :: 0 <= i < |a| ==> b[i].moveSpan == a[i].moveSpan
    ensures SpanLines(b, ls) && forall i :: InSpans(b, ls, i) <==> InSpans(a, ls, i)
  {
    forall i ensures InSpans(b, ls, i) <==> InSpans(a, ls, i) {
      if k :| 0 <= k < |ls| && In(i, a[ls[k]].moveSpan.value) { assert In(i, b[ls[k]].moveSpan.value); }
      if k :| 0 <= k < |ls| && In(i, b[ls[k]].moveSpan.value) { assert In(i, a[ls[k]].moveSpan.value); }
    }
  }

  /** Fills the spans of a file. */
  method Prepare(f: SourceFile, decls: seq<Span>) returns (spans: seq<Span>)
    requires Unspanned(f.lines) && DeclarationsOk(f.lines, decls)
    modifies f
    ensures Prepared(f.lines, f.lines, spans) && |f.lines| == |old(f.lines)|
    ensures Painted(f.lines, AllSpans(old(f.lines), decls))
    ensures forall i :: 0 <= i < |f.lines| ==>
      f.lines[i] == old(f.lines)[i].(moveSpan := f.lines[i].moveSpan, reorderSpan := f.lines[i].reorderSpan)
  {
    ghost var start := f.lines;
    CalculateMoveSpans(f, decls);
    ghost var painted := f.lines;
    MoveSpansWhole(start, painted, decls);
    spans := CalculateReorderSpans(f);
    Computed(painted, spans, f.lines);
    PaintedIsOk(start, painted, decls, spans);
    SameFile(painted, f.lines, spans);
    SameSpans(painted, f.lines, spans);
  }

  lemma PaintedIsOk(start: seq<LineInfo>, lines: seq<LineInfo>, decls: seq<Span>, spans: seq<Span>)
    requires Unspanned(start) && DeclarationsOk(start, decls) && SameButSpans(start, lines)
    requires Painted(lines, AllSpans(start, decls)) && ListsMoveSpans(lines, spans)
    ensures FileOk(lines, spans)
  {
    AllAreFormed(start, lines, decls, spans);
    NoneOrphaned(lines, spans);
    forall h | 0 <= h < |lines| && lines[h].kind == HeaderGuard ensures exists e :: ClosedBy(lines, h, e) {
      var e :| ClosedBy(start, h, e);
      assert ClosedBy(lines, h, e);
    }
  }

  lemma SameSpans(a: seq<LineInfo>, b: seq<LineInfo>, spans: seq<Span>)
    requires SameButReorder(a, b) && SpansWhole(a) && ListsMoveSpans(a, spans)
    ensures SpansWhole(b) && ListsMoveSpans(b, spans)
  {
    forall i | 0 <= i < |b| && b[i].moveSpan.Some? ensures WholeAt(b, i) { assert WholeAt(a, i); }
    forall s ensures s in spans <==> exists i :: 0 <= i < |b| && b[i].moveSpan == Some(s) {
      if i :| 0 <= i < |a| && a[i].moveSpan == Some(s) { assert b[i].moveSpan == Some(s); }
    }
  }

  /** Added lines of the given ranks. */
  function AtTopAll(ranks: seq<int>): (r: seq<Addition>)
    ensures |r| == |ranks| && forall k :: 0 <= k < |ranks| ==> r[k] == AtTop(ranks[k])
  {
    seq(|ranks|, k requires 0 <= k < |ranks| => AtTop(ranks[k]))
  }

  /** Line `i` is in a move span that goes. */
  ghost predicate Goes(lines: seq<LineInfo>, gone: seq<int>, doubled: seq<int>, i: int)
    requires SpanLines(lines, gone) && SpanLines(lines, doubled)
  {
    InSpans(lines, gone, i) || InSpans(lines, doubled, i)
  }

  /** What is deleted besides. Without duplicates no empty ifdef is left, and an empty namespace only where nothing
      but namespaces follows. In a file without blocks nothing goes but the move spans and the given blank lines. */
  ghost predicate TidyIs(start: seq<LineInfo>, lines: seq<LineInfo>, gone: seq<int>, doubled: seq<int>,
                         blanks: seq<int>) {
    && |lines| == |start| && SpanLines(lines, gone) && SpanLines(lines, doubled)
    && (doubled == [] ==> EmptyBlocks.NothingEmpty(lines))
    && (EmptyBlocks.NoBlocks(start) ==> forall i :: 0 <= i < |lines| ==>
          lines[i].deleted == (start[i].deleted || Goes(lines, gone, doubled, i) || i in blanks))
  }

  ghost predicate Looked(lines: seq<LineInfo>, i: int) { true }

  /** `TidyIs`, kept out of the way of proofs that do not mention `Looked`. */
  ghost predicate Tidy(start: seq<LineInfo>, lines: seq<LineInfo>, gone: seq<int>, doubled: seq<int>,
                       blanks: seq<int>) {
    forall i {:trigger Looked(lines, i)} :: Looked(lines, i) ==> TidyIs(start, lines, gone, doubled, blanks)
  }

  lemma TidySame(a: seq<LineInfo>, b: seq<LineInfo>, c: seq<LineInfo>, d: seq<LineInfo>, gone: seq<int>,
                 doubled: seq<int>, blanks: seq<int>)
    requires Tidy(b, c, gone, doubled, blanks) && |a| == |b| && |c| == |d|
    requires forall i :: 0 <= i < |a| ==> a[i].kind == b[i].kind && a[i].deleted == b[i].deleted
    requires forall i :: 0 <= i < |c| ==> d[i] == c[i].(reorderSpan := d[i].reorderSpan)
    ensures Tidy(a, d, gone, doubled, blanks)
  {
    assert Looked(c, 0);
    StillSpanLines(c, d, gone);
    StillSpanLines(c, d, doubled);
    if doubled == [] { EmptyBlocks.StillNothing(c, d); }
    assert TidyIs(a, d, gone, doubled, blanks);
  }

  lemma DeletedExactly(a: seq<LineInfo>, gone: seq<int>, b: seq<LineInfo>, c: seq<LineInfo>, doubled: seq<int>,
                       d: seq<LineInfo>, blanks: seq<int>, e: seq<LineInfo>)
    requires SpanLines(a, gone) && SpanLines(a, doubled) && SpansGone(a, gone, b) && MoreDeleted(b, c)
    requires (EmptyBlocks.NoBlocks(b) ==> c == b) && EmptyBlocks.NothingEmpty(c)
    requires SpanLines(c, doubled) && SpansGone(c, doubled, d) && MoreDeleted(d, e)
    requires forall i :: 0 <= i < |e| && e[i].kind != Blank ==> e[i] == d[i]
    requires forall i :: 0 <= i < |e| ==> e[i].deleted == (d[i].deleted || i in blanks)
    ensures Tidy(a, e, gone, doubled, blanks)
  {
    StillSpanLines(a, e, gone);
    StillSpanLines(a, e, doubled);
    StillSpanLines(a, c, doubled);
    if doubled == [] { EmptyBlocks.StillNothing(c, e); }
    assert TidyIs(a, e, gone, doubled, blanks);
  }

  /** All deletions: the move spans that go, empty blocks, duplicate move spans and blank lines. */
  method DeleteLines(f: SourceFile, gone: seq<int>, doubled: seq<int>, blanks: seq<int>,
                     ghost before: seq<LineInfo>, ghost spans: seq<Span>)
    requires Prepared(before, f.lines, spans) && SpanLines(f.lines, gone) && SpanLines(f.lines, doubled)
    requires forall k :: 0 <= k < |blanks| ==> 0 <= blanks[k] < |f.lines| && f.lines[blanks[k]].kind == Blank
    modifies f
    ensures Prepared(before, f.lines, spans) && MoreDeleted(old(f.lines), f.lines)
    ensures forall i :: 0 <= i < |f.lines| && Goes(old(f.lines), gone, doubled, i) ==> f.lines[i].deleted
    ensures forall i :: 0 <= i < |f.lines| && !Goes(old(f.lines), gone, doubled, i) ==>
      (EmptyBlocks.Spared(f.lines[i].kind) ==> f.lines[i] == old(f.lines)[i])
    ensures Tidy(old(f.lines), f.lines, gone, doubled, blanks)
  {
    ghost var a := f.lines;
    DeleteSpans(f, gone);
    ghost var b := f.lines;
    GoneOrphans(a, gone, b, spans);
    PreparedNext(before, a, b, spans);
    ghost var trace := EmptyBlocks.DeleteEmptyBlocks(f);
    ghost var c := f.lines;
    SparedOrphans(b, c, spans);
    PreparedNext(before, b, c, spans);
    StillSpanLines(a, c, doubled);
    DeleteSpans(f, doubled);
    ghost var d := f.lines;
    GoneOrphans(c, doubled, d, spans);
    PreparedNext(before, c, d, spans);
    DeleteBlanks(f, blanks);
    DeletedExactly(a, gone, b, c, doubled, d, blanks, f.lines);
    SparedOrphans(d, f.lines, spans);
    PreparedNext(before, d, f.lines, spans);
  }

  /** The same line but for its reorder span and its deletion. */
  ghost predicate SameLine(a: LineInfo, b: LineInfo) {
    b == a.(deleted := b.deleted, reorderSpan := b.reorderSpan)
  }

  /** Deletes and rewrites. */
  method FixPrepared(f: SourceFile, gone: seq<int>, doubled: seq<int>, blanks: seq<int>, ranks: seq<int>,
                     rank: Decorated -> int, sep: (Decorated, Decorated) -> bool, ghost spans: seq<Span>)
    returns (out: seq<Src>, top: seq<Span>, ghost places: seq<Span>, ghost where: seq<Span>)
    requires Prepared(f.lines, f.lines, spans) && SpanLines(f.lines, gone) && SpanLines(f.lines, doubled)
    requires forall k :: 0 <= k < |blanks| ==> 0 <= blanks[k] < |f.lines| && f.lines[blanks[k]].kind == Blank
    requires forall k :: 0 <= k < |ranks| ==> 1 <= ranks[k] <= DECLARATION
    modifies f
    ensures |f.lines| == |old(f.lines)| && forall i :: 0 <= i < |f.lines| ==> SameLine(old(f.lines)[i], f.lines[i])
    ensures FileOk(f.lines, spans) && ListsTop(f.lines, spans, top) && AdditionsOk(f.lines, spans, AtTopAll(ranks))
    ensures forall i :: 0 <= i < |f.lines| && Goes(old(f.lines), gone, doubled, i) ==> Count(out, FileLine(i)) == 0
    ensures forall i :: 0 <= i < |f.lines| && !Goes(old(f.lines), gone, doubled, i) ==>
      (EmptyBlocks.Spared(f.lines[i].kind) ==> f.lines[i].deleted == old(f.lines)[i].deleted)
    ensures Tidy(old(f.lines), f.lines, gone, doubled, blanks)
    ensures AllOnce(f.lines, |ranks|, out) <==> NoSplit(f.lines, spans, top, AtTopAll(ranks))
    ensures PlacesOf(f.lines, spans, top, AtTopAll(ranks), places)
    ensures NoSplit(f.lines, spans, top, AtTopAll(ranks)) ==> Arranged(f.lines, spans, places, rank, out, where)
  {
    ghost var before := f.lines;
    DeleteLines(f, gone, doubled, blanks, before, spans);
    ghost var after := f.lines;
    var adds := AtTopAll(ranks);
    RanksOk(after, spans, ranks);
    out, top, places, where := FixFileLines(f, adds, rank, sep, before, spans);
    Finished(after, f.lines, spans, top, adds);
    LinesSame(before, after, f.lines);
    TidySame(before, before, after, f.lines, gone, doubled, blanks);
  }

  lemma Finished(after: seq<LineInfo>, lines: seq<LineInfo>, spans: seq<Span>, top: seq<Span>, adds: seq<Addition>)
    requires SameButReorder(after, lines) && FileOk(after, spans) && ListsTop(after, spans, top)
    requires AdditionsOk(after, spans, adds)
    ensures FileOk(lines, spans) && ListsTop(lines, spans, top) && AdditionsOk(lines, spans, adds)
    ensures NoSplit(after, spans, top, adds) <==> NoSplit(lines, spans, top, adds)
  {
    SameFile(after, lines, spans);
    SameTop(after, lines, spans, top);
    SameNoSplit(after, lines, spans, top, adds);
  }

  lemma LinesSame(before: seq<LineInfo>, after: seq<LineInfo>, lines: seq<LineInfo>)
    requires MoreDeleted(before, after) && SameButReorder(after, lines)
    ensures |lines| == |before| && forall i :: 0 <= i < |lines| ==> SameLine(before[i], lines[i])
    ensures forall i :: 0 <= i < |lines| ==> lines[i].deleted == after[i].deleted && lines[i].kind == after[i].kind
  {
  }

  /** From the lines as they are read to the file as it is written. Lines of deleted move spans are never
      written. Every code line, and every include and declaration of another move span, stays, and with the
      added lines each of them is written exactly once, exactly if no added line goes to a place strictly
      inside a reorder span. Then the output is in the order of the file and of the ranks. */
  method FixIncludes(f: SourceFile, decls: seq<Span>, gone: seq<int>, doubled: seq<int>, blanks: seq<int>,
                     ranks: seq<int>, rank: Decorated -> int, sep: (Decorated, Decorated) -> bool)
    returns (out: seq<Src>, spans: seq<Span>, top: seq<Span>, ghost places: seq<Span>, ghost where: seq<Span>)
    requires Unspanned(f.lines) && DeclarationsOk(f.lines, decls)
    requires forall k :: 0 <= k < |gone| ==> Movable(f.lines, decls, gone[k])
    requires forall k :: 0 <= k < |doubled| ==> Movable(f.lines, decls, doubled[k])
    requires forall k :: 0 <= k < |blanks| ==> 0 <= blanks[k] < |f.lines| && f.lines[blanks[k]].kind == Blank
    requires forall k :: 0 <= k < |ranks| ==> 1 <= ranks[k] <= DECLARATION
    modifies f
    ensures |f.lines| == |old(f.lines)| && forall i :: 0 <= i < |f.lines| ==> f.lines[i].kind == old(f.lines)[i].kind
    ensures Painted(f.lines, AllSpans(old(f.lines), decls)) && SpanLines(f.lines, gone) && SpanLines(f.lines, doubled)
    ensures FileOk(f.lines, spans) && ListsTop(f.lines, spans, top) && AdditionsOk(f.lines, spans, AtTopAll(ranks))
    ensures forall i :: 0 <= i < |f.lines| && Goes(f.lines, gone, doubled, i) ==> Count(out, FileLine(i)) == 0
    ensures forall i :: 0 <= i < |f.lines| && !Goes(f.lines, gone, doubled, i) ==>
      (EmptyBlocks.Spared(f.lines[i].kind) ==> f.lines[i].deleted == old(f.lines)[i].deleted)
    ensures Tidy(old(f.lines), f.lines, gone, doubled, blanks)
    ensures AllOnce(f.lines, |ranks|, out) <==> NoSplit(f.lines, spans, top, AtTopAll(ranks))
    ensures PlacesOf(f.lines, spans, top, AtTopAll(ranks), places)
    ensures NoSplit(f.lines, spans, top, AtTopAll(ranks)) ==> Arranged(f.lines, spans, places, rank, out, where)
  {
    ghost var start := f.lines;
    spans := Prepare(f, decls);
    ghost var before := f.lines;
    PaintedSpanLines(start, before, decls, gone, doubled);
    out, top, places, where := FixPrepared(f, gone, doubled, blanks, ranks, rank, sep, spans);
    SpanLinesSame(before, f.lines, gone, doubled);
    TidySame(start, before, f.lines, f.lines, gone, doubled, blanks);
    PaintedSame(before, f.lines, AllSpans(start, decls));
  }

  lemma PaintedSame(a: seq<LineInfo>, b: seq<LineInfo>, spans: seq<Span>)
    requires Painted(a, spans) && |a| == |b| && forall i :: 0 <= i < |a| ==> SameLine(a[i], b[i])
    ensures Painted(b, spans)
  {
  }

  lemma RanksOk(lines: seq<LineInfo>, spans: seq<Span>, ranks: seq<int>)
    requires Sorted(spans, |lines|) && forall k :: 0 <= k < |ranks| ==> 1 <= ranks[k] <= DECLARATION
    ensures AdditionsOk(lines, spans, AtTopAll(ranks))
  {
  }

  lemma SpanLinesSame(a: seq<LineInfo>, b: seq<LineInfo>, gone: seq<int>, doubled: seq<int>)
    requires |a| == |b| && SpanLines(a, gone) && SpanLines(a, doubled)
    requires forall i :: 0 <= i < |a| ==> SameLine(a[i], b[i])
    ensures SpanLines(b, gone) && SpanLines(b, doubled)
    ensures forall i :: Goes(b, gone, doubled, i) <==> Goes(a, gone, doubled, i)
  {
    StillSpanLines(a, b, gone);
    StillSpanLines(a, b, doubled);
  }

  lemma PaintedSpanLines(start: seq<LineInfo>, lines: seq<LineInfo>, decls: seq<Span>, gone: seq<int>,
                         doubled: seq<int>)
    requires DeclarationsOk(start, decls) && |lines| == |start| && Painted(lines, AllSpans(start, decls))
    requires forall k :: 0 <= k < |gone| ==> Movable(start, decls, gone[k])
    requires forall k :: 0 <= k < |doubled| ==> Movable(start, decls, doubled[k])
    ensures SpanLines(lines, gone) && SpanLines(lines, doubled)
  {
    MoveSpansWhole(start, lines, decls);
  }
}
