/** `_CalculateMoveSpans` of build_support/fix_includes.py: the unit that is moved or deleted is an
    include or a forward declaration with the comments before it. */
module MoveSpans {
  import opened Records
  import opened FileLines

  /** Where the comment lines directly before line `k` begin. */
  function CommentStart(lines: seq<LineInfo>, k: int): (r: int)
    requires 0 <= k <= |lines|
    ensures 0 <= r <= k
    decreases k
  {
    if k > 0 && lines[k-1].kind == Comment then CommentStart(lines, k - 1) else k
  }

  /** Comments that reach up to the top of the file belong to no line. */
  function StartOf(lines: seq<LineInfo>, k: int): (r: int)
    requires 0 <= k <= |lines|
    ensures 0 <= r <= k
  {
    var c := CommentStart(lines, k);
    if c <= 1 then k else c
  }

  lemma {:induction false} CommentsBefore(lines: seq<LineInfo>, k: int)
    requires 0 <= k <= |lines|
    ensures forall i :: CommentStart(lines, k) <= i < k ==> lines[i].kind == Comment
    ensures CommentStart(lines, k) > 0 ==> lines[CommentStart(lines, k)-1].kind != Comment
    decreases k
  {
    if k > 0 && lines[k-1].kind == Comment {
      CommentsBefore(lines, k - 1);
    }
  }

  /** The lines from `r` on are the comments directly before line `k`. They do not reach the top of the file, where
      the first line is a dummy. */
  ghost predicate CommentsOf(lines: seq<LineInfo>, r: int, k: int) {
    && 1 < r < k <= |lines| && lines[r-1].kind != Comment
    && forall i :: r <= i < k ==> lines[i].kind == Comment
  }

  lemma StartOfIs(lines: seq<LineInfo>, k: int)
    requires 0 <= k <= |lines|
    ensures StartOf(lines, k) < k ==> CommentsOf(lines, StartOf(lines, k), k)
    ensures forall r :: CommentsOf(lines, r, k) ==> StartOf(lines, k) == r
  {
    CommentsBefore(lines, k);
  }

  method LineNumberStartingPrecedingComments(f: SourceFile, k: int) returns (r: int)
    requires 0 <= k <= |f.lines|
    ensures r == StartOf(f.lines, k)
    ensures CommentsOf(f.lines, r, k) || (r == k && forall c :: !CommentsOf(f.lines, c, k))
  {
    StartOfIs(f.lines, k);
    r := k;
    while r > 0 && f.lines[r-1].kind == Comment
      invariant 0 <= r <= k && CommentStart(f.lines, r) == CommentStart(f.lines, k)
    {
      r := r - 1;
    }
    if r <= 1 {
      r := k;
    }
  }

  /** The move span that ends with the lines of `s`. */
  function Grow(lines: seq<LineInfo>, s: Span): (r: Span)
    requires Within(s, |lines|)
    ensures Within(r, |lines|) && r.hi == s.hi && r.lo <= s.lo
  {
    Span(StartOf(lines, s.lo), s.hi)
  }

  /** The spans that carry content: single includes, and the given forward declarations. */
  ghost predicate Anchor(lines: seq<LineInfo>, s: Span) {
    && Within(s, |lines|)
    && forall i :: In(i, s) ==> lines[i].kind != Comment
  }

  /** Spans that do not share a line still do not when each takes the comments before it. */
  lemma GrowApart(lines: seq<LineInfo>, s: Span, t: Span)
    requires Anchor(lines, s) && Anchor(lines, t) && s.hi <= t.lo
    ensures Grow(lines, s).hi <= Grow(lines, t).lo
  {
    CommentsBefore(lines, t.lo);
    assert In(s.hi - 1, s);
  }

  /** The lines of `s` hold `s`, and lines outside all of `spans` hold nothing. */
  ghost predicate Painted(lines: seq<LineInfo>, spans: seq<Span>) {
    forall i, s :: 0 <= i < |lines| ==> (lines[i].moveSpan == Some(s) <==> s in spans && In(i, s))
  }

  ghost predicate SpansApart(spans: seq<Span>) {
    forall i, j :: 0 <= i < j < |spans| ==> Apart(spans[i], spans[j])
  }

  function Paint(lines: seq<LineInfo>, s: Span): (r: seq<LineInfo>)
    ensures |r| == |lines|
    ensures forall i :: 0 <= i < |lines| ==> r[i] == if In(i, s) then lines[i].(moveSpan := Some(s)) else lines[i]
  {
    seq(|lines|, i requires 0 <= i < |lines| => if In(i, s) then lines[i].(moveSpan := Some(s)) else lines[i])
  }

  /** Only the move spans differ. */
  ghost predicate SameButSpans(a: seq<LineInfo>, b: seq<LineInfo>) {
    |a| == |b| && forall i :: 0 <= i < |a| ==> b[i] == a[i].(moveSpan := b[i].moveSpan)
  }

  method PaintSpan(f: SourceFile, s: Span)
    requires Within(s, |f.lines|)
    modifies f
    ensures f.lines == Paint(old(f.lines), s)
  {
    var i := s.lo;
    while i < s.hi
      invariant s.lo <= i <= s.hi && |f.lines| == |old(f.lines)|
      invariant forall j :: 0 <= j < |f.lines| ==>
        f.lines[j] == if s.lo <= j < i then old(f.lines)[j].(moveSpan := Some(s)) else old(f.lines)[j]
    {
      f.lines := f.lines[i := f.lines[i].(moveSpan := Some(s))];
      i := i + 1;
    }
  }

  lemma PaintOne(lines: seq<LineInfo>, spans: seq<Span>, s: Span)
    requires Painted(lines, spans) && forall t :: t in spans ==> Apart(t, s)
    ensures Painted(Paint(lines, s), spans + [s])
  {
  }

  lemma {:induction false} CommentStartSame(a: seq<LineInfo>, b: seq<LineInfo>, k: int)
    requires SameButSpans(a, b) && 0 <= k <= |a|
    ensures CommentStart(a, k) == CommentStart(b, k)
    decreases k
  {
    if k > 0 && a[k-1].kind == Comment {
      CommentStartSame(a, b, k - 1);
    }
  }

  /** The spans of the includes before line `n`, in file order. */
  function IncludeSpans(lines: seq<LineInfo>, n: nat): (r: seq<Span>)
    requires n <= |lines|
  {
    if n == 0 then []
    else IncludeSpans(lines, n - 1)
         + if lines[n-1].kind == Include then [Grow(lines, Span(n - 1, n))] else []
  }

  function GrowAll(lines: seq<LineInfo>, anchors: seq<Span>): (r: seq<Span>)
    requires forall s :: s in anchors ==> Within(s, |lines|)
    ensures |r| == |anchors| && forall i :: 0 <= i < |anchors| ==> r[i] == Grow(lines, anchors[i])
  {
    seq(|anchors|, i requires 0 <= i < |anchors| => assert anchors[i] in anchors; Grow(lines, anchors[i]))
  }

  /** Forward declarations as the analysis reports them: apart, and made of declaration lines. */
  ghost predicate DeclarationsOk(lines: seq<LineInfo>, decls: seq<Span>) {
    && (forall s :: s in decls ==> Within(s, |lines|) && forall i :: In(i, s) ==> lines[i].kind == ForwardDeclare)
    && SpansApart(decls)
  }

  /** `s` is the span of the include at line `k`. */
  ghost predicate IncludeAt(lines: seq<LineInfo>, k: int, s: Span) {
    0 <= k < |lines| && lines[k].kind == Include && s == Grow(lines, Span(k, k + 1))
  }

  lemma {:induction false} IncludeSpansAre(lines: seq<LineInfo>, n: nat, s: Span)
    requires n <= |lines|
    ensures s in IncludeSpans(lines, n) <==> exists k :: k < n && IncludeAt(lines, k, s)
  {
    if n > 0 {
      IncludeSpansAre(lines, n - 1, s);
      assert IncludeAt(lines, n - 1, s) <==> lines[n-1].kind == Include && s == Grow(lines, Span(n - 1, n));
      assert s in IncludeSpans(lines, n) <==> s in IncludeSpans(lines, n - 1) || IncludeAt(lines, n - 1, s);
    }
  }

  lemma AnchorsApart(lines: seq<LineInfo>, s: Span, t: Span)
    requires Anchor(lines, s) && Anchor(lines, t) && Apart(s, t)
    ensures Apart(Grow(lines, s), Grow(lines, t))
  {
    if s.hi <= t.lo { GrowApart(lines, s, t); } else { GrowApart(lines, t, s); }
  }

  lemma IncludeApart(lines: seq<LineInfo>, k: int, t: Span, s: Span)
    requires IncludeAt(lines, k, t) && Anchor(lines, s) && !In(k, s)
    ensures Apart(t, Grow(lines, s))
  {
    AnchorsApart(lines, Span(k, k + 1), s);
  }

  lemma IncludeOf(lines: seq<LineInfo>, n: nat, t: Span) returns (k: int)
    requires n <= |lines| && t in IncludeSpans(lines, n)
    ensures k < n && IncludeAt(lines, k, t)
  {
    IncludeSpansAre(lines, n, t);
    k :| k < n && IncludeAt(lines, k, t);
  }

  lemma DeclarationApart(lines: seq<LineInfo>, decls: seq<Span>, m: nat, t: Span)
    requires DeclarationsOk(lines, decls) && m < |decls|
    requires t in IncludeSpans(lines, |lines|) + GrowAll(lines, decls)[..m]
    ensures decls[m] in decls && Apart(t, Grow(lines, decls[m]))
  {
    var s := decls[m];
    assert s in decls;
    assert Anchor(lines, s);
    if t in IncludeSpans(lines, |lines|) {
      var k := IncludeOf(lines, |lines|, t);
      IncludeApart(lines, k, t, s);
    } else {
      var j :| 0 <= j < m && GrowAll(lines, decls)[j] == t;
      assert decls[j] in decls && Apart(decls[j], s);
      AnchorsApart(lines, decls[j], s);
    }
  }

  function AllSpans(lines: seq<LineInfo>, decls: seq<Span>): (r: seq<Span>)
    requires forall s :: s in decls ==> Within(s, |lines|)
  {
    IncludeSpans(lines, |lines|) + GrowAll(lines, decls)
  }

  method PaintNext(f: SourceFile, anchor: Span, ghost start: seq<LineInfo>, ghost spans: seq<Span>)
    requires SameButSpans(start, f.lines) && Painted(f.lines, spans) && Within(anchor, |start|)
    requires forall t :: t in spans ==> Apart(t, Grow(start, anchor))
    modifies f
    ensures SameButSpans(start, f.lines) && Painted(f.lines, spans + [Grow(start, anchor)])
  {
    var begin := LineNumberStartingPrecedingComments(f, anchor.lo);
    CommentStartSame(start, f.lines, anchor.lo);
    PaintOne(f.lines, spans, Grow(start, anchor));
    PaintSpan(f, Span(begin, anchor.hi));
  }

  lemma {:induction false} AllIncludesApart(lines: seq<LineInfo>, n: nat)
    requires n < |lines| && lines[n].kind == Include
    ensures forall t :: t in IncludeSpans(lines, n) ==> Apart(t, Grow(lines, Span(n, n + 1)))
  {
    forall t | t in IncludeSpans(lines, n) ensures Apart(t, Grow(lines, Span(n, n + 1))) {
      var k := IncludeOf(lines, n, t);
      IncludeApart(lines, k, t, Span(n, n + 1));
    }
  }

  method PaintInclude(f: SourceFile, k: nat, ghost start: seq<LineInfo>)
    requires SameButSpans(start, f.lines) && k < |start| && start[k].kind == Include
    requires Painted(f.lines, IncludeSpans(start, k))
    modifies f
    ensures SameButSpans(start, f.lines) && Painted(f.lines, IncludeSpans(start, k + 1))
  {
    AllIncludesApart(start, k);
    PaintNext(f, Span(k, k + 1), start, IncludeSpans(start, k));
  }

  method PaintIncludes(f: SourceFile)
    requires forall i :: 0 <= i < |f.lines| ==> f.lines[i].moveSpan == None
    modifies f
    ensures SameButSpans(old(f.lines), f.lines)
    ensures Painted(f.lines, IncludeSpans(old(f.lines), |old(f.lines)|))
  {
    ghost var start := f.lines;
    var k := 0;
    while k < |f.lines|
      invariant 0 <= k <= |f.lines| && SameButSpans(start, f.lines)
      invariant Painted(f.lines, IncludeSpans(start, k))
    {
      if f.lines[k].kind == Include {
        PaintInclude(f, k, start);
      }
      k := k + 1;
    }
  }

  method PaintDeclarations(f: SourceFile, decls: seq<Span>, ghost start: seq<LineInfo>)
    requires DeclarationsOk(start, decls) && SameButSpans(start, f.lines)
    requires Painted(f.lines, IncludeSpans(start, |start|))
    modifies f
    ensures SameButSpans(start, f.lines) && Painted(f.lines, AllSpans(start, decls))
  {
    ghost var first, grown := IncludeSpans(start, |start|), GrowAll(start, decls);
    assert first + grown[..0] == first;
    var m := 0;
    while m < |decls|
      invariant 0 <= m <= |decls| && SameButSpans(start, f.lines)
      invariant Painted(f.lines, first + grown[..m])
    {
      assert decls[m] in decls;
      forall t | t in first + grown[..m]
        ensures Apart(t, Grow(start, decls[m]))
      {
        DeclarationApart(start, decls, m, t);
      }
      PaintNext(f, decls[m], start, first + grown[..m]);
      assert first + grown[..m+1] == first + grown[..m] + [grown[m]];
      m := m + 1;
    }
    assert grown[..m] == grown;
  }

  /** Fills the move spans: every include and every declaration, with the comments before it, becomes
      one span, and no two spans share a line. */
  method CalculateMoveSpans(f: SourceFile, decls: seq<Span>)
    requires DeclarationsOk(f.lines, decls)
    requires forall i :: 0 <= i < |f.lines| ==> f.lines[i].moveSpan == None
    modifies f
    ensures SameButSpans(old(f.lines), f.lines)
    ensures Painted(f.lines, AllSpans(old(f.lines), decls))
    // An include carries a span that begins with the comments directly before it, and so does a declaration.
    ensures forall k, c :: 0 <= k < |f.lines| && f.lines[k].kind == Include && CommentsOf(f.lines, c, k) ==>
      f.lines[k].moveSpan == Some(Span(c, k + 1))
    ensures forall s, c :: s in decls && CommentsOf(f.lines, c, s.lo) ==> f.lines[s.lo].moveSpan == Some(Span(c, s.hi))
    ensures forall k :: 0 <= k < |f.lines| && f.lines[k].kind == Include && (forall c :: !CommentsOf(f.lines, c, k)) ==>
      f.lines[k].moveSpan == Some(Span(k, k + 1))
    ensures forall s :: s in decls && (forall c :: !CommentsOf(f.lines, c, s.lo)) ==> f.lines[s.lo].moveSpan == Some(s)
  {
    ghost var start := f.lines;
    PaintIncludes(f);
    PaintDeclarations(f, decls, start);
    SpansBegin(start, f.lines, decls);
  }

  lemma SameCommentsOf(a: seq<LineInfo>, b: seq<LineInfo>, c: int, k: int)
    requires SameButSpans(a, b)
    ensures CommentsOf(a, c, k) <==> CommentsOf(b, c, k)
  {
  }

  /** Where the spans of includes and declarations begin. */
  lemma SpansBegin(start: seq<LineInfo>, lines: seq<LineInfo>, decls: seq<Span>)
    requires DeclarationsOk(start, decls) && SameButSpans(start, lines) && Painted(lines, AllSpans(start, decls))
    ensures forall k :: 0 <= k < |lines| && lines[k].kind == Include ==> Begun(lines, Span(k, k + 1))
    ensures forall s :: s in decls ==> Within(s, |lines|) && Begun(lines, s)
  {
    forall k | 0 <= k < |lines| && lines[k].kind == Include ensures Begun(lines, Span(k, k + 1)) {
      IncludeCarries(start, decls, k);
      SpanBegins(start, lines, decls, Span(k, k + 1));
    }
    forall s | s in decls ensures Within(s, |lines|) && Begun(lines, s) {
      DeclarationCarries(start, decls, s);
      SpanBegins(start, lines, decls, s);
    }
  }

  lemma IncludeCarries(start: seq<LineInfo>, decls: seq<Span>, k: int)
    requires DeclarationsOk(start, decls) && 0 <= k < |start| && start[k].kind == Include
    ensures Grow(start, Span(k, k + 1)) in AllSpans(start, decls)
  {
    assert IncludeAt(start, k, Grow(start, Span(k, k + 1)));
    IncludeSpansAre(start, |start|, Grow(start, Span(k, k + 1)));
  }

  lemma DeclarationCarries(start: seq<LineInfo>, decls: seq<Span>, s: Span)
    requires DeclarationsOk(start, decls) && s in decls
    ensures Within(s, |start|) && Grow(start, s) in AllSpans(start, decls)
  {
    var j :| 0 <= j < |decls| && decls[j] == s;
    assert GrowAll(start, decls)[j] == Grow(start, s);
  }

  lemma SpanBegins(start: seq<LineInfo>, lines: seq<LineInfo>, decls: seq<Span>, s: Span)
    requires DeclarationsOk(start, decls) && SameButSpans(start, lines) && Painted(lines, AllSpans(start, decls))
    requires Within(s, |start|) && Grow(start, s) in AllSpans(start, decls)
    ensures Begun(lines, s)
  {
    assert In(s.lo, Grow(start, s));
    GrownBegins(start, lines, s);
  }

  /** The first line of `s` carries `s` with the comments before it. */
  ghost predicate Begun(lines: seq<LineInfo>, s: Span)
    requires Within(s, |lines|)
  {
    && (forall c :: CommentsOf(lines, c, s.lo) ==> lines[s.lo].moveSpan == Some(Span(c, s.hi)))
    && ((forall c :: !CommentsOf(lines, c, s.lo)) ==> lines[s.lo].moveSpan == Some(s))
  }

  lemma GrownBegins(start: seq<LineInfo>, lines: seq<LineInfo>, s: Span)
    requires SameButSpans(start, lines) && Within(s, |start|) && lines[s.lo].moveSpan == Some(Grow(start, s))
    ensures Begun(lines, s)
  {
    StartOfIs(start, s.lo);
    forall c ensures CommentsOf(start, c, s.lo) <==> CommentsOf(lines, c, s.lo) {
      SameCommentsOf(start, lines, c, s.lo);
    }
  }

  /** Every line of a move span carries that span. */
  ghost predicate SpansWhole(lines: seq<LineInfo>) {
    forall i :: 0 <= i < |lines| && lines[i].moveSpan.Some? ==> WholeAt(lines, i)
  }

  ghost predicate WholeAt(lines: seq<LineInfo>, i: int)
    requires 0 <= i < |lines| && lines[i].moveSpan.Some?
  {
    var s := lines[i].moveSpan.value;
    Within(s, |lines|) && In(i, s) && forall j :: In(j, s) ==> lines[j].moveSpan == Some(s)
  }

  lemma SpansWithin(start: seq<LineInfo>, decls: seq<Span>, s: Span)
    requires DeclarationsOk(start, decls) && s in AllSpans(start, decls)
    ensures Within(s, |start|)
  {
    if s in IncludeSpans(start, |start|) {
      IncludeSpansAre(start, |start|, s);
    } else {
      var i :| 0 <= i < |decls| && GrowAll(start, decls)[i] == s;
      assert decls[i] in decls;
    }
  }

  lemma MoveSpansWhole(start: seq<LineInfo>, lines: seq<LineInfo>, decls: seq<Span>)
    requires DeclarationsOk(start, decls) && |lines| == |start| && Painted(lines, AllSpans(start, decls))
    ensures SpansWhole(lines)
    ensures forall i :: 0 <= i < |lines| && start[i].kind == Include ==> lines[i].moveSpan.Some?
    ensures forall i, s :: 0 <= i < |lines| && s in decls && In(i, s) ==> lines[i].moveSpan.Some?
  {
    forall i | 0 <= i < |lines| && lines[i].moveSpan.Some? ensures WholeAt(lines, i) {
      var s := lines[i].moveSpan.value;
      assert s in AllSpans(start, decls) && In(i, s);
      SpansWithin(start, decls, s);
    }
    forall i | 0 <= i < |lines| && start[i].kind == Include ensures lines[i].moveSpan.Some? {
      var s := Grow(start, Span(i, i + 1));
      assert IncludeAt(start, i, s);
      IncludeSpansAre(start, |start|, s);
      assert s in AllSpans(start, decls) && In(i, s);
    }
    forall i, s | 0 <= i < |lines| && s in decls && In(i, s) ensures lines[i].moveSpan.Some? {
      var k :| 0 <= k < |decls| && decls[k] == s;
      var t := Grow(start, s);
      assert GrowAll(start, decls)[k] == t;
      assert t in AllSpans(start, decls) && In(i, t);
    }
  }
}
