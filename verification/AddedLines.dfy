/** Where an added line goes: `_GetToplevelReorderSpans` and `_FirstReorderSpanWith` of
    build_support/fix_includes.py. */
module AddedLines {
  import opened Records
  import opened FileLines
  import opened MoveSpans
  import opened ReorderSpans

  /** The rank of forward declarations, behind all includes. */
  const DECLARATION := 6

  /** The depth of `#if` blocks behind the first `i` lines; the header guard does not count. */
  function IfDepth(lines: seq<LineInfo>, i: nat): int
    requires i <= |lines|
  {
    if i == 0 then 0
    else
      var l := lines[i-1];
      IfDepth(lines, i - 1) + if l.deleted then 0 else if l.kind == If then 1 else if l.kind == Endif then -1 else 0
  }

  function NamespaceDepth(lines: seq<LineInfo>, i: nat): int
    requires i <= |lines|
  {
    if i == 0 then 0
    else
      var l := lines[i-1];
      NamespaceDepth(lines, i - 1)
        + if l.deleted then 0
          else if l.kind == NamespaceStart || l.kind == NamespaceStartMixed then Braces(l)
          else if l.kind == NamespaceContinue then 1
          else if l.kind == NamespaceEnd then -Braces(l) else 0
  }

  predicate InIfdef(lines: seq<LineInfo>, i: int)
    requires 0 <= i < |lines|
  {
    !lines[i].deleted && IfDepth(lines, i + 1) > 0
  }

  /** Code in a namespace: the rest of the file counts as inside. */
  predicate Swallows(lines: seq<LineInfo>, i: int)
    requires 0 <= i < |lines|
  {
    !lines[i].deleted && NamespaceDepth(lines, i + 1) > 0 && lines[i].kind == Code
  }

  ghost predicate Swallowed(lines: seq<LineInfo>, i: int)
    requires i <= |lines|
  {
    exists j :: 0 <= j < i && Swallows(lines, j)
  }

  ghost predicate InsideNamespace(lines: seq<LineInfo>, i: int)
    requires 0 <= i < |lines|
  {
    Swallowed(lines, i + 1) || (!lines[i].deleted && NamespaceDepth(lines, i + 1) > 0)
  }

  predicate IsLive(lines: seq<LineInfo>, kind: Kind, i: int)
    requires 0 <= i < |lines|
  {
    !lines[i].deleted && lines[i].kind == kind
  }

  /** The live lines of a kind before line `i`. */
  function LinesOf(lines: seq<LineInfo>, kind: Kind, i: nat): set<int>
    requires i <= |lines|
  {
    set j | 0 <= j < i && IsLive(lines, kind, j)
  }

  lemma LinesOfNext(lines: seq<LineInfo>, kind: Kind, i: nat)
    requires i < |lines|
    ensures |LinesOf(lines, kind, i + 1)| == |LinesOf(lines, kind, i)| + if IsLive(lines, kind, i) then 1 else 0
  {
    var a, b := LinesOf(lines, kind, i), LinesOf(lines, kind, i + 1);
    assert b == if IsLive(lines, kind, i) then a + {i} else a;
  }

  /** A line is in an ifdef exactly if it is live and more live `#if` than `#endif` lines stand up to it. */
  lemma {:induction false} IfdefIff(lines: seq<LineInfo>, i: nat)
    requires i < |lines|
    ensures InIfdef(lines, i) <==>
      !lines[i].deleted && |LinesOf(lines, If, i + 1)| > |LinesOf(lines, Endif, i + 1)|
  {
    IfDepthIs(lines, i + 1);
  }

  lemma {:induction false} IfDepthIs(lines: seq<LineInfo>, i: nat)
    requires i <= |lines|
    ensures IfDepth(lines, i) == |LinesOf(lines, If, i)| - |LinesOf(lines, Endif, i)|
  {
    if i > 0 {
      IfDepthIs(lines, i - 1);
      LinesOfNext(lines, If, i - 1);
      LinesOfNext(lines, Endif, i - 1);
    }
  }

  predicate OpensBlock(l: LineInfo) {
    !l.deleted && (l.kind == NamespaceStart || l.kind == NamespaceStartMixed || l.kind == NamespaceContinue)
  }

  predicate ClosesBlock(l: LineInfo) { !l.deleted && l.kind == NamespaceEnd }

  /** While no namespace is closed, a live line is inside a namespace exactly if one was opened up to it. */
  lemma {:induction false} OpenedIsInside(lines: seq<LineInfo>, i: nat)
    requires i < |lines| && forall j :: 0 <= j <= i ==> !ClosesBlock(lines[j])
    ensures !lines[i].deleted ==> (InsideNamespace(lines, i) <==> exists j :: 0 <= j <= i && OpensBlock(lines[j]))
  {
    DepthGrows(lines, i + 1, i + 1);
    if Swallowed(lines, i + 1) {
      var j :| 0 <= j < i + 1 && Swallows(lines, j);
      DepthGrows(lines, j + 1, i + 1);
    }
  }

  lemma {:induction false} DepthGrows(lines: seq<LineInfo>, i: nat, n: nat)
    requires i <= n <= |lines| && forall j :: 0 <= j < n ==> !ClosesBlock(lines[j])
    ensures NamespaceDepth(lines, i) >= 0
    ensures NamespaceDepth(lines, i) > 0 <==> exists j :: 0 <= j < i && OpensBlock(lines[j])
  {
    if i > 0 {
      DepthGrows(lines, i - 1, n);
    }
  }

  /** Behind the only namespace so far a line is outside, unless there is code in that namespace. */
  lemma ClosedIsOutside(lines: seq<LineInfo>, s: nat, e: nat, i: nat)
    requires s < e < i < |lines| && OpensBlock(lines[s]) && ClosesBlock(lines[e]) && !lines[i].deleted
    requires forall j :: 0 <= j <= i && j != s && j != e ==> !OpensBlock(lines[j]) && !ClosesBlock(lines[j])
    requires Braces(lines[e]) == if lines[s].kind == NamespaceContinue then 1 else Braces(lines[s])
    ensures InsideNamespace(lines, i) <==>
      exists j :: s < j < e && !lines[j].deleted && lines[j].kind == Code
  {
    forall j: nat | j <= i + 1 ensures NamespaceDepth(lines, j) == if s < j <= e then Braces(lines[e]) else 0 {
      OneBlock(lines, s, e, i, j);
    }
    if j :| s < j < e && !lines[j].deleted && lines[j].kind == Code { assert Swallows(lines, j); }
    if Swallowed(lines, i + 1) {
      var j :| 0 <= j < i + 1 && Swallows(lines, j);
      assert s <= j < e;
    }
  }

  lemma {:induction false} OneBlock(lines: seq<LineInfo>, s: nat, e: nat, i: nat, j: nat)
    requires s < e < i < |lines| && OpensBlock(lines[s]) && ClosesBlock(lines[e]) && j <= i + 1
    requires forall j :: 0 <= j <= i && j != s && j != e ==> !OpensBlock(lines[j]) && !ClosesBlock(lines[j])
    requires Braces(lines[e]) == if lines[s].kind == NamespaceContinue then 1 else Braces(lines[s])
    ensures NamespaceDepth(lines, j) == if s < j <= e then Braces(lines[e]) else 0
  {
    if j > 0 { OneBlock(lines, s, e, i, j - 1); }
  }

  method MarkIfdefs(lines: seq<LineInfo>) returns (marks: seq<bool>)
    ensures |marks| == |lines| && forall i :: 0 <= i < |lines| ==> (marks[i] <==> InIfdef(lines, i))
  {
    marks := [];
    var depth, i := 0, 0;
    while i < |lines|
      invariant 0 <= i <= |lines| && |marks| == i && depth == IfDepth(lines, i)
      invariant forall j :: 0 <= j < i ==> (marks[j] <==> InIfdef(lines, j))
    {
      if lines[i].deleted {
        marks := marks + [false];
      } else {
        if lines[i].kind == If {
          depth := depth + 1;
        } else if lines[i].kind == Endif {
          depth := depth - 1;
        }
        marks := marks + [depth > 0];
      }
      i := i + 1;
    }
  }

  method MarkNamespaces(lines: seq<LineInfo>) returns (marks: seq<bool>)
    ensures |marks| == |lines| && forall i :: 0 <= i < |lines| ==> (marks[i] <==> InsideNamespace(lines, i))
  {
    marks := [];
    var depth, swallowed, i := 0, false, 0;
    while i < |lines|
      invariant 0 <= i <= |lines| && |marks| == i && (swallowed <==> Swallowed(lines, i))
      invariant !swallowed ==> depth == NamespaceDepth(lines, i)
      invariant forall j :: 0 <= j < i ==> (marks[j] <==> InsideNamespace(lines, j))
    {
      if !swallowed && !lines[i].deleted {
        if lines[i].kind == NamespaceStart || lines[i].kind == NamespaceStartMixed {
          depth := depth + Braces(lines[i]);
        } else if lines[i].kind == NamespaceContinue {
          depth := depth + 1;
        } else if lines[i].kind == NamespaceEnd {
          depth := depth - Braces(lines[i]);
        }
        swallowed := depth > 0 && lines[i].kind == Code;
        assert swallowed ==> Swallows(lines, i);
        marks := marks + [depth > 0];
      } else {
        marks := marks + [swallowed];
      }
      i := i + 1;
    }
  }

  /** `s` is a reorder span of the file. */
  ghost predicate IsGroup(lines: seq<LineInfo>, spans: seq<Span>, s: Span)
    requires Sorted(spans, |lines|)
  {
    exists p :: 0 <= p < |spans| && Group(lines, spans, p) == s
  }

  /** No line of `s` is in an ifdef, a namespace or a class. */
  ghost predicate Toplevel(lines: seq<LineInfo>, s: Span)
    requires 0 <= s.lo && s.hi <= |lines|
  {
    forall i :: In(i, s) ==> !InIfdef(lines, i) && !InsideNamespace(lines, i) && !lines[i].nested
  }

  lemma GroupHolds(lines: seq<LineInfo>, spans: seq<Span>, p: int)
    requires Sorted(spans, |lines|) && 0 <= p < |spans|
    ensures var g := Group(lines, spans, p);
      0 <= g.lo <= spans[p].lo < spans[p].hi <= g.hi <= |lines|
  {
    var f, l := First(lines, spans, p), Final(lines, spans, p);
    assert f < p ==> spans[f].hi <= spans[p].lo;
    assert p < l ==> spans[p].hi <= spans[l].lo;
  }

  lemma GroupsApart(lines: seq<LineInfo>, spans: seq<Span>, s: Span, t: Span)
    requires Sorted(spans, |lines|) && IsGroup(lines, spans, s) && IsGroup(lines, spans, t)
    ensures Within(s, |lines|) && Within(t, |lines|) && (s == t || Apart(s, t))
  {
    var p :| 0 <= p < |spans| && Group(lines, spans, p) == s;
    var q :| 0 <= q < |spans| && Group(lines, spans, q) == t;
    GroupHolds(lines, spans, p);
    GroupHolds(lines, spans, q);
    if p <= q { SameGroupIff(lines, spans, p, q); } else { SameGroupIff(lines, spans, q, p); }
  }

  ghost predicate TopGroup(lines: seq<LineInfo>, spans: seq<Span>, s: Span)
    requires Sorted(spans, |lines|)
  {
    IsGroup(lines, spans, s) && Within(s, |lines|) && Toplevel(lines, s)
  }

  /** `good` lists the top-level reorder spans that begin before line `i`. */
  ghost predicate ListsTopTo(lines: seq<LineInfo>, spans: seq<Span>, good: seq<Span>, i: int)
    requires Sorted(spans, |lines|)
  {
    && Sorted(good, |lines|)
    && forall s :: s in good <==> TopGroup(lines, spans, s) && s.lo < i
  }

  ghost predicate ListsTop(lines: seq<LineInfo>, spans: seq<Span>, good: seq<Span>)
    requires Sorted(spans, |lines|)
  {
    ListsTopTo(lines, spans, good, |lines|)
  }

  lemma TopBefore(lines: seq<LineInfo>, spans: seq<Span>, s: Span, t: Span)
    requires Sorted(spans, |lines|) && IsGroup(lines, spans, s) && TopGroup(lines, spans, t)
    ensures (t.lo == s.lo ==> t == s) && (t.lo < s.lo ==> t.hi <= s.lo)
  {
    GroupsApart(lines, spans, t, s);
  }

  lemma TopListed(lines: seq<LineInfo>, spans: seq<Span>, good: seq<Span>, s: Span, t: Span)
    requires Sorted(spans, |lines|) && (t in good <==> TopGroup(lines, spans, t) && t.lo < s.lo)
    requires IsGroup(lines, spans, s)
    ensures t in good || (TopGroup(lines, spans, s) && t == s) <==> TopGroup(lines, spans, t) && t.lo < s.lo + 1
  {
    if TopGroup(lines, spans, t) { TopBefore(lines, spans, s, t); }
  }

  lemma TopSorted(lines: seq<LineInfo>, spans: seq<Span>, good: seq<Span>, s: Span)
    requires Sorted(spans, |lines|) && ListsTopTo(lines, spans, good, s.lo) && IsGroup(lines, spans, s)
    requires Within(s, |lines|)
    ensures Sorted(good + [s], |lines|)
  {
    forall k | 0 <= k < |good| ensures good[k].hi <= s.lo {
      assert good[k] in good;
      TopBefore(lines, spans, s, good[k]);
    }
  }

  lemma TopNext(lines: seq<LineInfo>, spans: seq<Span>, good: seq<Span>, i: int, s: Span)
    requires Sorted(spans, |lines|) && ListsTopTo(lines, spans, good, i)
    requires IsGroup(lines, spans, s) && Within(s, |lines|) && s.lo == i
    ensures ListsTopTo(lines, spans, if TopGroup(lines, spans, s) then good + [s] else good, i + 1)
  {
    var all := if TopGroup(lines, spans, s) then good + [s] else good;
    TopSorted(lines, spans, good, s);
    forall t ensures t in all <==> TopGroup(lines, spans, t) && t.lo < i + 1 { TopListed(lines, spans, good, s, t); }
  }

  lemma TopSkip(lines: seq<LineInfo>, spans: seq<Span>, good: seq<Span>, i: int)
    requires Sorted(spans, |lines|) && ListsTopTo(lines, spans, good, i) && 0 <= i < |lines| && Current(lines, spans)
    requires lines[i].reorderSpan.None? || lines[i].reorderSpan.value.lo != i
    ensures ListsTopTo(lines, spans, good, i + 1)
  {
    forall t | TopGroup(lines, spans, t) ensures t.lo != i {
      var p :| 0 <= p < |spans| && Group(lines, spans, p) == t;
      assert CarriesGroup(lines, spans, i);
    }
  }

  /** The reorder span that a line carries is a group. */
  lemma CarriedIsGroup(lines: seq<LineInfo>, spans: seq<Span>, i: int)
    requires Sorted(spans, |lines|) && 0 <= i < |lines| && Current(lines, spans) && lines[i].reorderSpan.Some?
    ensures var s := lines[i].reorderSpan.value; IsGroup(lines, spans, s) && Within(s, |lines|) && In(i, s)
  {
    assert CarriesGroup(lines, spans, i);
    var k :| 0 <= k < |spans| && In(i, Group(lines, spans, k));
    GroupHolds(lines, spans, k);
  }

  method IsToplevel(lines: seq<LineInfo>, s: Span, ifdefs: seq<bool>, namespaces: seq<bool>) returns (top: bool)
    requires Within(s, |lines|) && |ifdefs| == |namespaces| == |lines|
    requires forall i :: 0 <= i < |lines| ==> (ifdefs[i] <==> InIfdef(lines, i))
    requires forall i :: 0 <= i < |lines| ==> (namespaces[i] <==> InsideNamespace(lines, i))
    ensures top <==> Toplevel(lines, s)
  {
    var i := s.lo;
    while i < s.hi
      invariant s.lo <= i <= s.hi && Toplevel(lines, Span(s.lo, i))
    {
      if ifdefs[i] || namespaces[i] || lines[i].nested {
        assert In(i, s);
        return false;
      }
      i := i + 1;
    }
    return true;
  }

  /** The top-level reorder spans in order. */
  method ToplevelSpans(lines: seq<LineInfo>, ghost spans: seq<Span>) returns (good: seq<Span>)
    requires Sorted(spans, |lines|) && Current(lines, spans)
    ensures ListsTop(lines, spans, good)
  {
    var ifdefs := MarkIfdefs(lines);
    var namespaces := MarkNamespaces(lines);
    good := [];
    var i := 0;
    while i < |lines|
      invariant 0 <= i <= |lines| && ListsTopTo(lines, spans, good, i)
    {
      if lines[i].reorderSpan.Some? && lines[i].reorderSpan.value.lo == i {
        var s := lines[i].reorderSpan.value;
        CarriedIsGroup(lines, spans, i);
        TopNext(lines, spans, good, i, s);
        var top := IsToplevel(lines, s, ifdefs, namespaces);
        if top {
          good := good + [s];
        }
      } else {
        TopSkip(lines, spans, good, i);
      }
      i := i + 1;
    }
  }

  /** The end of the first top-level reorder span that the next one does not touch. */
  function Contentful(good: seq<Span>): int {
    if good == [] then 0
    else if |good| == 1 || good[0].hi != good[1].lo then good[0].hi
    else Contentful(good[1..])
  }

  /** It is the end of a span such that all spans up to it touch, and the next one does not. */
  lemma {:induction false} ContentfulIs(good: seq<Span>) returns (g: int)
    requires good != []
    ensures 0 <= g < |good| && Contentful(good) == good[g].hi && (g + 1 < |good| ==> good[g].hi != good[g+1].lo)
    ensures forall h :: 0 <= h < g ==> good[h].hi == good[h+1].lo
  {
    if |good| == 1 || good[0].hi != good[1].lo {
      g := 0;
    } else {
      var rest := good[1..];
      var q := ContentfulIs(rest);
      g := q + 1;
      forall h | 0 <= h < g ensures good[h].hi == good[h+1].lo {
        if h > 0 { assert rest[h-1].hi == rest[h].lo; }
      }
    }
  }

  method FirstContentfulLine(good: seq<Span>) returns (line: int)
    ensures line == Contentful(good)
  {
    var i := 0;
    while i < |good| - 1
      invariant 0 <= i && (i < |good| ==> Contentful(good[i..]) == Contentful(good)) && (good != [] ==> i < |good|)
    {
      if good[i].hi != good[i+1].lo {
        return good[i].hi;
      }
      assert good[i..][1..] == good[i+1..];
      i := i + 1;
    }
    return if good == [] then 0 else good[|good|-1].hi;
  }

  /** The rank of a live include or declaration, and 0 for other lines. */
  function RankOf(l: LineInfo): (r: int)
    ensures 0 <= r <= DECLARATION
  {
    if l.deleted then 0 else if l.kind == Include then l.rank else if l.kind == ForwardDeclare then DECLARATION else 0
  }

  /** Line `i` counts for rank `k`: declarations behind contentful code do not. */
  predicate Counts(lines: seq<LineInfo>, i: int, k: int, content: int)
    requires 0 <= i < |lines|
  {
    RankOf(lines[i]) == k && !(k == DECLARATION && i > content)
  }

  ghost predicate HoldsRank(lines: seq<LineInfo>, s: Span, k: int, content: int)
  {
    exists i :: In(i, s) && 0 <= i < |lines| && Counts(lines, i, k, content)
  }

  predicate IsAnchorKind(k: Kind) { k == Include || k == ForwardDeclare }

  predicate IsAnchor(l: LineInfo) { !l.deleted && IsAnchorKind(l.kind) }

  /** The span still holds an include or a declaration. */
  ghost predicate LiveIn(lines: seq<LineInfo>, s: Span) {
    exists i :: In(i, s) && 0 <= i < |lines| && IsAnchor(lines[i])
  }

  lemma RankLives(lines: seq<LineInfo>, s: Span, k: int, content: int)
    requires k >= 1 && HoldsRank(lines, s, k, content)
    ensures LiveIn(lines, s)
  {
    var i :| In(i, s) && 0 <= i < |lines| && Counts(lines, i, k, content);
    assert IsAnchor(lines[i]);
  }

  /** The first of `good` with a line of rank `k`. */
  ghost function FirstWith(lines: seq<LineInfo>, good: seq<Span>, k: int, content: int): (r: Option<Span>)
    ensures r.Some? ==> r.value in good && HoldsRank(lines, r.value, k, content)
  {
    if good == [] then None
    else
      var s := good[|good|-1];
      var f := FirstWith(lines, good[..|good|-1], k, content);
      if f.Some? then f else if HoldsRank(lines, s, k, content) then Some(s) else None
  }

  /** The last of `good` with a line of rank `k`. */
  ghost function LastWith(lines: seq<LineInfo>, good: seq<Span>, k: int, content: int): (r: Option<Span>)
    ensures r.Some? ==> r.value in good && HoldsRank(lines, r.value, k, content)
  {
    if good == [] then None
    else
      var s := good[|good|-1];
      if HoldsRank(lines, s, k, content) then Some(s) else LastWith(lines, good[..|good|-1], k, content)
  }

  lemma {:induction false} NoneWith(lines: seq<LineInfo>, good: seq<Span>, k: int, content: int)
    ensures FirstWith(lines, good, k, content).None? <==> forall s :: s in good ==> !HoldsRank(lines, s, k, content)
    ensures FirstWith(lines, good, k, content).None? <==> LastWith(lines, good, k, content).None?
  {
    if good != [] {
      var front, s := good[..|good|-1], good[|good|-1];
      assert good == front + [s];
      NoneWith(lines, front, k, content);
    }
  }

  /** `m` gives the value of `f` for every rank. */
  ghost predicate Tables(m: map<int, Span>, k: int, f: Option<Span>) {
    (k in m <==> f.Some?) && (k in m ==> m[k] == f.value)
  }

  /** The spans after the first lines of span `s`, up to line `i`, were looked at. */
  ghost function FirstTo(lines: seq<LineInfo>, front: seq<Span>, s: Span, i: int, k: int, content: int): Option<Span>
  {
    var f := FirstWith(lines, front, k, content);
    if f.Some? then f else if HoldsRank(lines, Span(s.lo, i), k, content) then Some(s) else None
  }

  ghost function LastTo(lines: seq<LineInfo>, front: seq<Span>, s: Span, i: int, k: int, content: int): Option<Span>
  {
    if HoldsRank(lines, Span(s.lo, i), k, content) then Some(s) else LastWith(lines, front, k, content)
  }

  lemma HoldsNext(lines: seq<LineInfo>, front: seq<Span>, s: Span, i: int, k: int, content: int)
    requires 0 <= s.lo <= i < |lines|
    ensures var f := FirstTo(lines, front, s, i, k, content);
      FirstTo(lines, front, s, i + 1, k, content) ==
        if f.Some? then f else if Counts(lines, i, k, content) then Some(s) else None
    ensures LastTo(lines, front, s, i + 1, k, content) ==
      if Counts(lines, i, k, content) then Some(s) else LastTo(lines, front, s, i, k, content)
  {
    var a, b := Span(s.lo, i), Span(s.lo, i + 1);
    if j :| In(j, a) && 0 <= j < |lines| && Counts(lines, j, k, content) { assert In(j, b); }
    if Counts(lines, i, k, content) { assert In(i, b); }
    assert HoldsRank(lines, b, k, content) <==> HoldsRank(lines, a, k, content) || Counts(lines, i, k, content);
  }

  lemma HoldsNone(lines: seq<LineInfo>, front: seq<Span>, s: Span, k: int, content: int)
    ensures FirstTo(lines, front, s, s.lo, k, content) == FirstWith(lines, front, k, content)
    ensures LastTo(lines, front, s, s.lo, k, content) == LastWith(lines, front, k, content)
  {
  }

  lemma HoldsAll(lines: seq<LineInfo>, good: seq<Span>, g: int, k: int, content: int)
    requires 0 <= g < |good|
    ensures FirstTo(lines, good[..g], good[g], good[g].hi, k, content) == FirstWith(lines, good[..g+1], k, content)
    ensures LastTo(lines, good[..g], good[g], good[g].hi, k, content) == LastWith(lines, good[..g+1], k, content)
  {
    assert good[..g+1][..g] == good[..g];
    assert Span(good[g].lo, good[g].hi) == good[g];
  }

  /** Both tables, after the lines of span `s` up to line `i`. */
  ghost predicate ScannedTo(first: map<int, Span>, last: map<int, Span>, lines: seq<LineInfo>, front: seq<Span>,
                            s: Span, i: int, content: int)
  {
    && (forall k :: k > 0 ==> Tables(first, k, FirstTo(lines, front, s, i, k, content)))
    && (forall k :: k > 0 ==> Tables(last, k, LastTo(lines, front, s, i, k, content)))
  }

  /** Both tables, after the spans of `good`. */
  ghost predicate Scanned(first: map<int, Span>, last: map<int, Span>, lines: seq<LineInfo>, good: seq<Span>,
                          content: int) {
    && (forall k :: k > 0 ==> Tables(first, k, FirstWith(lines, good, k, content)))
    && (forall k :: k > 0 ==> Tables(last, k, LastWith(lines, good, k, content)))
  }

  lemma ScanNext(first: map<int, Span>, last: map<int, Span>, lines: seq<LineInfo>, front: seq<Span>, s: Span, i: int,
                 content: int, first': map<int, Span>, last': map<int, Span>)
    requires 0 <= s.lo <= i < |lines| && ScannedTo(first, last, lines, front, s, i, content)
    requires var k := RankOf(lines[i]);
      if k > 0 && Counts(lines, i, k, content)
      then last' == last[k := s] && first' == if k in first then first else first[k := s]
      else first' == first && last' == last
    ensures ScannedTo(first', last', lines, front, s, i + 1, content)
  {
    var next := i + 1;
    forall k | k > 0 ensures Tables(first', k, FirstTo(lines, front, s, next, k, content))
                             && Tables(last', k, LastTo(lines, front, s, next, k, content)) {
      HoldsNext(lines, front, s, i, k, content);
      assert Tables(first, k, FirstTo(lines, front, s, i, k, content));
      assert Tables(last, k, LastTo(lines, front, s, i, k, content));
    }
  }

  lemma ScanStarts(first: map<int, Span>, last: map<int, Span>, lines: seq<LineInfo>, front: seq<Span>, s: Span,
                   content: int)
    requires Scanned(first, last, lines, front, content)
    ensures ScannedTo(first, last, lines, front, s, s.lo, content)
  {
    var lo := s.lo;
    forall k | k > 0 ensures Tables(first, k, FirstTo(lines, front, s, lo, k, content))
                             && Tables(last, k, LastTo(lines, front, s, lo, k, content)) {
      HoldsNone(lines, front, s, k, content);
    }
  }

  lemma ScanEnds(first: map<int, Span>, last: map<int, Span>, lines: seq<LineInfo>, good: seq<Span>, g: int,
                 content: int)
    requires 0 <= g < |good| && ScannedTo(first, last, lines, good[..g], good[g], good[g].hi, content)
    ensures Scanned(first, last, lines, good[..g+1], content)
  {
    var front := good[..g+1];
    forall k | k > 0 ensures Tables(first, k, FirstWith(lines, front, k, content))
                             && Tables(last, k, LastWith(lines, front, k, content)) {
      HoldsAll(lines, good, g, k, content);
      assert Tables(first, k, FirstTo(lines, good[..g], good[g], good[g].hi, k, content));
      assert Tables(last, k, LastTo(lines, good[..g], good[g], good[g].hi, k, content));
    }
  }

  /** Looks at one span. */
  method ScanSpan(lines: seq<LineInfo>, s: Span, content: int, first0: map<int, Span>, last0: map<int, Span>,
                  ghost front: seq<Span>)
    returns (first: map<int, Span>, last: map<int, Span>)
    requires Within(s, |lines|) && Scanned(first0, last0, lines, front, content)
    ensures ScannedTo(first, last, lines, front, s, s.hi, content)
  {
    first, last := first0, last0;
    ScanStarts(first, last, lines, front, s, content);
    var i := s.lo;
    while i < s.hi
      invariant s.lo <= i <= s.hi && ScannedTo(first, last, lines, front, s, i, content)
    {
      ghost var before, since := first, last;
      var kind := RankOf(lines[i]);
      if kind != 0 && !(kind == DECLARATION && i > content) {
        if kind !in first {
          first := first[kind := s];
        }
        last := last[kind := s];
      }
      ScanNext(before, since, lines, front, s, i, content, first, last);
      i := i + 1;
    }
  }

  /** The first and the last top-level span of every rank. */
  method FindSpans(lines: seq<LineInfo>, good: seq<Span>, content: int)
    returns (first: map<int, Span>, last: map<int, Span>)
    requires forall s :: s in good ==> Within(s, |lines|)
    ensures Scanned(first, last, lines, good, content)
  {
    first, last := map[], map[];
    var g := 0;
    while g < |good|
      invariant 0 <= g <= |good| && Scanned(first, last, lines, good[..g], content)
    {
      first, last := ScanSpan(lines, good[g], content, first, last, good[..g]);
      ScanEnds(first, last, lines, good, g, content);
      g := g + 1;
    }
    assert good[..g] == good;
  }

  /** The last span of the nearest rank up to `k`. */
  ghost function NearestBelow(lines: seq<LineInfo>, good: seq<Span>, k: int, content: int): (r: Option<Span>)
    ensures r.Some? ==> r.value in good && LiveIn(lines, r.value)
    decreases k
  {
    if k < 1 then None
    else if LastWith(lines, good, k, content).Some? then
      RankLives(lines, LastWith(lines, good, k, content).value, k, content);
      LastWith(lines, good, k, content)
    else NearestBelow(lines, good, k - 1, content)
  }

  /** The first span of the nearest rank from `k` on, declarations not counted. */
  ghost function NearestAbove(lines: seq<LineInfo>, good: seq<Span>, k: int, content: int): (r: Option<Span>)
    requires k >= 1
    ensures r.Some? ==> r.value in good && LiveIn(lines, r.value)
    decreases DECLARATION - k
  {
    if k >= DECLARATION then None
    else if FirstWith(lines, good, k, content).Some? then
      RankLives(lines, FirstWith(lines, good, k, content).value, k, content);
      FirstWith(lines, good, k, content)
    else NearestAbove(lines, good, k + 1, content)
  }

  /** The first line from `i` on that is not a leading comment, a blank line or part of a header guard. */
  function Stop(lines: seq<LineInfo>, i: nat, guarded: bool): (r: int)
    ensures 0 <= r <= |lines| && (i <= |lines| ==> i <= r)
    decreases |lines| + 1 - i
  {
    if i >= |lines| then |lines|
    else if lines[i].deleted then Stop(lines, i + 1, guarded)
    else if lines[i].kind == HeaderGuard then Stop(lines, i + 2, true)
    else if lines[i].kind == Blank then Stop(lines, i + 1, guarded)
    else if lines[i].kind == PragmaOnce then Stop(lines, i + 1, true)
    else if lines[i].kind == Comment && !guarded then Stop(lines, i + 1, guarded)
    else i
  }

  /** The choice when no top-level span holds an include of a nearby rank. */
  ghost function Fallback(lines: seq<LineInfo>, good: seq<Span>, content: int): (r: Span)
    ensures (r in good && LiveIn(lines, r)) || r == Span(Stop(lines, 0, false), Stop(lines, 0, false))
  {
    var stop, f := Stop(lines, 0, false), FirstWith(lines, good, DECLARATION, content);
    if stop < |lines| && f.Some? && stop >= f.value.lo then
      RankLives(lines, f.value, DECLARATION, content);
      f.value
    else Span(stop, stop)
  }

  /** Where a line of rank `k` goes. */
  ghost function Choice(lines: seq<LineInfo>, good: seq<Span>, k: int): (r: Span)
    requires k >= 1
    ensures (r in good && LiveIn(lines, r)) || r == Span(Stop(lines, 0, false), Stop(lines, 0, false))
  {
    var content := Contentful(good);
    var own, below := FirstWith(lines, good, k, content), NearestBelow(lines, good, k - 1, content);
    var above := NearestAbove(lines, good, k + 1, content);
    if own.Some? then
      RankLives(lines, own.value, k, content);
      own.value
    else if below.Some? then below.value else if above.Some? then above.value
    else Fallback(lines, good, content)
  }

  lemma {:induction false} NoneBelow(lines: seq<LineInfo>, good: seq<Span>, k: int, content: int, j: int)
    requires NearestBelow(lines, good, k, content).None? && 1 <= j <= k
    ensures FirstWith(lines, good, j, content).None?
    decreases k
  {
    NoneWith(lines, good, j, content);
    if j < k { NoneBelow(lines, good, k - 1, content, j); }
  }

  lemma {:induction false} NoneAbove(lines: seq<LineInfo>, good: seq<Span>, k: int, content: int, j: int)
    requires k >= 1 && NearestAbove(lines, good, k, content).None? && k <= j < DECLARATION
    ensures FirstWith(lines, good, j, content).None?
    decreases DECLARATION - k
  {
    if k < j { NoneAbove(lines, good, k + 1, content, j); }
  }

  /** The last choice is made only when the top-level spans hold no include. */
  lemma NoIncludes(lines: seq<LineInfo>, good: seq<Span>, k: int, content: int, j: int)
    requires 1 <= k <= DECLARATION && 1 <= j < DECLARATION && FirstWith(lines, good, k, content).None?
    requires NearestBelow(lines, good, k - 1, content).None? && NearestAbove(lines, good, k + 1, content).None?
    ensures FirstWith(lines, good, j, content).None?
  {
    if j < k { NoneBelow(lines, good, k - 1, content, j); }
    if j > k { NoneAbove(lines, good, k + 1, content, j); }
  }

  method BackupBelow(last: map<int, Span>, k: int, ghost lines: seq<LineInfo>, ghost good: seq<Span>,
                     ghost content: int)
    returns (r: Option<Span>)
    requires forall j :: j > 0 ==> Tables(last, j, LastWith(lines, good, j, content))
    ensures r == NearestBelow(lines, good, k, content)
  {
    var j := k;
    while j >= 1
      invariant NearestBelow(lines, good, j, content) == NearestBelow(lines, good, k, content)
    {
      if j in last {
        return Some(last[j]);
      }
      j := j - 1;
    }
    return None;
  }

  method BackupAbove(first: map<int, Span>, k: int, ghost lines: seq<LineInfo>, ghost good: seq<Span>,
                     ghost content: int)
    returns (r: Option<Span>)
    requires k >= 1
    requires forall j :: j > 0 ==> Tables(first, j, FirstWith(lines, good, j, content))
    ensures r == NearestAbove(lines, good, k, content)
  {
    var j := k;
    while j < DECLARATION
      invariant j >= 1 && NearestAbove(lines, good, j, content) == NearestAbove(lines, good, k, content)
    {
      if j in first {
        return Some(first[j]);
      }
      j := j + 1;
    }
    return None;
  }

  /** Skips what stands before the first contentful line. */
  method SkipLeading(lines: seq<LineInfo>) returns (line: int)
    ensures line == Stop(lines, 0, false)
  {
    line := 0;
    var guarded := false;
    while line < |lines|
      invariant 0 <= line <= |lines| + 1 && Stop(lines, line, guarded) == Stop(lines, 0, false)
    {
      if lines[line].deleted {
        line := line + 1;
      } else if lines[line].kind == HeaderGuard {
        guarded := true;
        line := line + 2;
      } else if lines[line].kind == Blank {
        line := line + 1;
      } else if lines[line].kind == PragmaOnce {
        guarded := true;
        line := line + 1;
      } else if lines[line].kind == Comment && !guarded {
        line := line + 1;
      } else {
        return;
      }
    }
    line := |lines|;
  }

  /** Line `i` is a live include of rank `k`, or for the rank of declarations a live declaration that does not stand
      behind contentful code. */
  predicate BearsAt(lines: seq<LineInfo>, i: int, k: int, content: int)
    requires 0 <= i < |lines|
  {
    !lines[i].deleted &&
    if k == DECLARATION then lines[i].kind == ForwardDeclare && i <= content
    else lines[i].kind == Include && lines[i].rank == k
  }

  ghost predicate Bears(lines: seq<LineInfo>, s: Span, k: int, content: int) {
    exists i :: 0 <= i < |lines| && s.lo <= i < s.hi && BearsAt(lines, i, k, content)
  }

  /** No span bears a rank from `lo` up to, not including, `hi`. */
  ghost predicate NoneBears(lines: seq<LineInfo>, good: seq<Span>, lo: int, hi: int, content: int) {
    forall g, j :: 0 <= g < |good| && lo <= j < hi ==> !Bears(lines, good[g], j, content)
  }

  /** `good[g]` is the first span that bears rank `k`. */
  ghost predicate FirstBears(lines: seq<LineInfo>, good: seq<Span>, g: int, k: int, content: int) {
    && 0 <= g < |good| && Bears(lines, good[g], k, content)
    && forall h :: 0 <= h < g ==> !Bears(lines, good[h], k, content)
  }

  /** `good[g]` is the last span that bears rank `k`. */
  ghost predicate LastBears(lines: seq<LineInfo>, good: seq<Span>, g: int, k: int, content: int) {
    && 0 <= g < |good| && Bears(lines, good[g], k, content)
    && forall h :: g < h < |good| ==> !Bears(lines, good[h], k, content)
  }

  lemma BearsHolds(lines: seq<LineInfo>, s: Span, k: int, content: int)
    requires 1 <= k <= DECLARATION
    ensures Bears(lines, s, k, content) <==> HoldsRank(lines, s, k, content)
  {
    forall i | 0 <= i < |lines| ensures BearsAt(lines, i, k, content) <==> Counts(lines, i, k, content) {
    }
    if i :| 0 <= i < |lines| && s.lo <= i < s.hi && BearsAt(lines, i, k, content) { assert In(i, s); }
  }

  lemma {:induction false} FirstWithIs(lines: seq<LineInfo>, good: seq<Span>, g: int, k: int, content: int)
    requires 1 <= k <= DECLARATION && FirstBears(lines, good, g, k, content)
    ensures FirstWith(lines, good, k, content) == Some(good[g])
  {
    var front := good[..|good|-1];
    BearsHolds(lines, good[g], k, content);
    if g < |front| {
      FirstWithIs(lines, front, g, k, content);
    } else {
      forall s | s in front ensures !HoldsRank(lines, s, k, content) {
        var h :| 0 <= h < |front| && front[h] == s;
        BearsHolds(lines, good[h], k, content);
      }
      NoneWith(lines, front, k, content);
    }
  }

  lemma {:induction false} LastWithIs(lines: seq<LineInfo>, good: seq<Span>, g: int, k: int, content: int)
    requires 1 <= k <= DECLARATION && LastBears(lines, good, g, k, content)
    ensures LastWith(lines, good, k, content) == Some(good[g])
  {
    var front := good[..|good|-1];
    BearsHolds(lines, good[|good|-1], k, content);
    if g < |front| { LastWithIs(lines, front, g, k, content); }
  }

  lemma NoneWithIs(lines: seq<LineInfo>, good: seq<Span>, k: int, content: int)
    requires 1 <= k <= DECLARATION && NoneBears(lines, good, k, k + 1, content)
    ensures FirstWith(lines, good, k, content).None? && LastWith(lines, good, k, content).None?
  {
    forall s | s in good ensures !HoldsRank(lines, s, k, content) {
      var h :| 0 <= h < |good| && good[h] == s;
      BearsHolds(lines, good[h], k, content);
    }
    NoneWith(lines, good, k, content);
  }

  lemma {:induction false} NearestBelowIs(lines: seq<LineInfo>, good: seq<Span>, k: int, content: int, g: int, j: int)
    requires 1 <= j <= k < DECLARATION && LastBears(lines, good, g, j, content)
    requires NoneBears(lines, good, j + 1, k + 1, content)
    ensures NearestBelow(lines, good, k, content) == Some(good[g])
    decreases k
  {
    if j == k {
      LastWithIs(lines, good, g, j, content);
    } else {
      NoneWithIs(lines, good, k, content);
      NearestBelowIs(lines, good, k - 1, content, g, j);
    }
  }

  lemma {:induction false} NearestAboveIs(lines: seq<LineInfo>, good: seq<Span>, k: int, content: int, g: int, j: int)
    requires 1 <= k <= j < DECLARATION && FirstBears(lines, good, g, j, content)
    requires NoneBears(lines, good, k, j, content)
    ensures NearestAbove(lines, good, k, content) == Some(good[g])
    decreases DECLARATION - k
  {
    if j == k {
      FirstWithIs(lines, good, g, j, content);
    } else {
      NoneWithIs(lines, good, k, content);
      NearestAboveIs(lines, good, k + 1, content, g, j);
    }
  }

  lemma {:induction false} NothingBelow(lines: seq<LineInfo>, good: seq<Span>, k: int, content: int)
    requires k < DECLARATION && NoneBears(lines, good, 1, k + 1, content)
    ensures NearestBelow(lines, good, k, content).None?
    decreases k
  {
    if k >= 1 {
      NoneWithIs(lines, good, k, content);
      NothingBelow(lines, good, k - 1, content);
    }
  }

  lemma {:induction false} NothingAbove(lines: seq<LineInfo>, good: seq<Span>, k: int, content: int)
    requires k >= 1 && NoneBears(lines, good, k, DECLARATION, content)
    ensures NearestAbove(lines, good, k, content).None?
    decreases DECLARATION - k
  {
    if k < DECLARATION {
      NoneWithIs(lines, good, k, content);
      NothingAbove(lines, good, k + 1, content);
    }
  }

  lemma OwnChosen(lines: seq<LineInfo>, good: seq<Span>, k: int, g: int)
    requires 1 <= k <= DECLARATION && FirstBears(lines, good, g, k, Contentful(good))
    ensures Choice(lines, good, k) == good[g]
  {
    FirstWithIs(lines, good, g, k, Contentful(good));
  }

  lemma LowerChosen(lines: seq<LineInfo>, good: seq<Span>, k: int, g: int, j: int)
    requires 1 <= j < k <= DECLARATION && LastBears(lines, good, g, j, Contentful(good))
    requires NoneBears(lines, good, j + 1, k + 1, Contentful(good))
    ensures Choice(lines, good, k) == good[g]
  {
    NoneWithIs(lines, good, k, Contentful(good));
    NearestBelowIs(lines, good, k - 1, Contentful(good), g, j);
  }

  lemma HigherChosen(lines: seq<LineInfo>, good: seq<Span>, k: int, g: int, j: int)
    requires 1 <= k < j < DECLARATION && FirstBears(lines, good, g, j, Contentful(good))
    requires NoneBears(lines, good, 1, j, Contentful(good))
    ensures Choice(lines, good, k) == good[g]
  {
    NoneWithIs(lines, good, k, Contentful(good));
    NothingBelow(lines, good, k - 1, Contentful(good));
    NearestAboveIs(lines, good, k + 1, Contentful(good), g, j);
  }

  lemma NoIncludeChosen(lines: seq<LineInfo>, good: seq<Span>, k: int)
    requires 1 <= k <= DECLARATION && NoneBears(lines, good, 1, DECLARATION, Contentful(good))
    requires k == DECLARATION ==> NoneBears(lines, good, k, k + 1, Contentful(good))
    ensures Choice(lines, good, k) == Fallback(lines, good, Contentful(good))
  {
    NoneWithIs(lines, good, k, Contentful(good));
    NothingBelow(lines, good, k - 1, Contentful(good));
    NothingAbove(lines, good, k + 1, Contentful(good));
  }

  /** Without includes at the top level, an include goes to the first declarations if they begin at or before the
      first line that is not leading, and else to that line. */
  lemma DeclarationsChosen(lines: seq<LineInfo>, good: seq<Span>, k: int, g: int)
    requires 1 <= k < DECLARATION && NoneBears(lines, good, 1, DECLARATION, Contentful(good))
    requires FirstBears(lines, good, g, DECLARATION, Contentful(good))
    ensures var stop := Stop(lines, 0, false);
      Choice(lines, good, k) == if good[g].lo <= stop < |lines| then good[g] else Span(stop, stop)
  {
    NoIncludeChosen(lines, good, k);
    FirstWithIs(lines, good, g, DECLARATION, Contentful(good));
  }

  lemma NothingChosen(lines: seq<LineInfo>, good: seq<Span>, k: int)
    requires 1 <= k <= DECLARATION && NoneBears(lines, good, 1, DECLARATION + 1, Contentful(good))
    ensures Choice(lines, good, k) == Span(Stop(lines, 0, false), Stop(lines, 0, false))
  {
    NoIncludeChosen(lines, good, k);
    NoneWithIs(lines, good, DECLARATION, Contentful(good));
  }

  lemma ChosenSpans(lines: seq<LineInfo>, good: seq<Span>, k: int)
    requires 1 <= k <= DECLARATION
    ensures var r := Choice(lines, good, k);
      && (forall g :: FirstBears(lines, good, g, k, Contentful(good)) ==> r == good[g])
      && (forall g, j :: 1 <= j < k && LastBears(lines, good, g, j, Contentful(good)) ==>
            (NoneBears(lines, good, j + 1, k + 1, Contentful(good)) ==> r == good[g]))
      && (forall g, j :: k < j < DECLARATION && FirstBears(lines, good, g, j, Contentful(good)) ==>
            (NoneBears(lines, good, 1, j, Contentful(good)) ==> r == good[g]))
    ensures var r, stop := Choice(lines, good, k), Stop(lines, 0, false);
      && (NoneBears(lines, good, 1, DECLARATION, Contentful(good)) ==>
            forall g :: k < DECLARATION && FirstBears(lines, good, g, DECLARATION, Contentful(good)) ==>
              r == if good[g].lo <= stop < |lines| then good[g] else Span(stop, stop))
      && (NoneBears(lines, good, 1, DECLARATION + 1, Contentful(good)) ==> r == Span(stop, stop))
  {
    var r, c := Choice(lines, good, k), Contentful(good);
    forall g | FirstBears(lines, good, g, k, c) ensures r == good[g] { OwnChosen(lines, good, k, g); }
    forall g, j | 1 <= j < k && LastBears(lines, good, g, j, c) && NoneBears(lines, good, j + 1, k + 1, c)
      ensures r == good[g]
    {
      LowerChosen(lines, good, k, g, j);
    }
    forall g, j | k < j < DECLARATION && FirstBears(lines, good, g, j, c) && NoneBears(lines, good, 1, j, c)
      ensures r == good[g]
    {
      HigherChosen(lines, good, k, g, j);
    }
    if NoneBears(lines, good, 1, DECLARATION, c) && k < DECLARATION {
      forall g | FirstBears(lines, good, g, DECLARATION, c) { DeclarationsChosen(lines, good, k, g); }
    }
    if NoneBears(lines, good, 1, DECLARATION + 1, c) { NothingChosen(lines, good, k); }
  }

  /** `_FirstReorderSpanWith`: the first span of the line's own rank, or else the last span of the nearest lower
      rank, or else the first span of the nearest higher one. The source asserts that only declarations are left for
      the last choice. */
  method FirstReorderSpanWith(lines: seq<LineInfo>, good: seq<Span>, k: int) returns (r: Span)
    requires 1 <= k <= DECLARATION && forall s :: s in good ==> Within(s, |lines|)
    ensures r == Choice(lines, good, k)
    ensures forall g :: FirstBears(lines, good, g, k, Contentful(good)) ==> r == good[g]
    ensures forall g, j :: 1 <= j < k && LastBears(lines, good, g, j, Contentful(good)) ==>
      (NoneBears(lines, good, j + 1, k + 1, Contentful(good)) ==> r == good[g])
    ensures forall g, j :: k < j < DECLARATION && FirstBears(lines, good, g, j, Contentful(good)) ==>
      (NoneBears(lines, good, 1, j, Contentful(good)) ==> r == good[g])
    ensures NoneBears(lines, good, 1, DECLARATION, Contentful(good)) ==>
      (forall g :: k < DECLARATION && FirstBears(lines, good, g, DECLARATION, Contentful(good)) ==>
         r == if good[g].lo <= Stop(lines, 0, false) < |lines| then good[g]
              else Span(Stop(lines, 0, false), Stop(lines, 0, false)))
    ensures NoneBears(lines, good, 1, DECLARATION + 1, Contentful(good)) ==>
      r == Span(Stop(lines, 0, false), Stop(lines, 0, false))
  {
    ChosenSpans(lines, good, k);
    var content := FirstContentfulLine(good);
    var first, last := FindSpans(lines, good, content);
    if k in first {
      return first[k];
    }
    var below := BackupBelow(last, k - 1, lines, good, content);
    if below.Some? {
      return below.value;
    }
    var above := BackupAbove(first, k + 1, lines, good, content);
    if above.Some? {
      return above.value;
    }
    var stop := SkipLeading(lines);
    forall j | 1 <= j < DECLARATION ensures j !in first { NoIncludes(lines, good, k, content, j); }
    if stop < |lines| && DECLARATION in first && stop >= first[DECLARATION].lo {
      return first[DECLARATION];
    }
    return Span(stop, stop);
  }

  /** What `CalculateMoveSpans` leaves: a move span is a run of comments and then its anchor. */
  ghost predicate Formed(lines: seq<LineInfo>, s: Span)
    requires Within(s, |lines|)
  {
    IsAnchorKind(lines[s.hi-1].kind) && forall i :: In(i, s) ==> lines[i].kind == Comment || IsAnchorKind(lines[i].kind)
  }

  ghost predicate AllFormed(lines: seq<LineInfo>, spans: seq<Span>)
    requires Sorted(spans, |lines|)
  {
    forall p :: 0 <= p < |spans| ==> Formed(lines, spans[p])
  }

  /** Line `e` closes the block at line `h`, and no include or declaration follows. */
  ghost predicate ClosedBy(lines: seq<LineInfo>, h: int, e: int) {
    0 <= h < e < |lines| && lines[e].kind == Endif && forall i :: e < i < |lines| ==> !IsAnchorKind(lines[i].kind)
  }

  /** What `_MarkHeaderGuardIfPresent` leaves: a header guard encloses the file. */
  ghost predicate GuardOk(lines: seq<LineInfo>) {
    forall h :: 0 <= h < |lines| && lines[h].kind == HeaderGuard ==> exists e :: ClosedBy(lines, h, e)
  }

  /** A live header guard or `#pragma once` stands before line `i`. */
  ghost predicate Guarded(lines: seq<LineInfo>, i: int)
    requires i <= |lines|
  {
    exists j :: 0 <= j < i && !lines[j].deleted && (lines[j].kind == HeaderGuard || lines[j].kind == PragmaOnce)
  }

  /** What the scan for the first contentful line passes over: leading comments, but not those in a guard. */
  ghost predicate Leading(lines: seq<LineInfo>, i: int)
    requires 0 <= i < |lines|
  {
    || lines[i].deleted || lines[i].kind == Blank || lines[i].kind == PragmaOnce || lines[i].kind == HeaderGuard
    || (lines[i].kind == Comment && !Guarded(lines, i))
    || (i > 0 && !lines[i-1].deleted && lines[i-1].kind == HeaderGuard)
  }

  /** The scan passes over leading lines and ends at a line that is live and not blank, no guard, and no comment
      unless a guard stands before it. */
  lemma {:induction false} StopIs(lines: seq<LineInfo>, i: nat, guarded: bool)
    requires i <= |lines| ==> (guarded <==> Guarded(lines, i))
    ensures var r := Stop(lines, i, guarded);
      && (r < |lines| ==>
            && i <= r && !lines[r].deleted && lines[r].kind != Blank && lines[r].kind != HeaderGuard
            && lines[r].kind != PragmaOnce && (lines[r].kind == Comment ==> Guarded(lines, r)))
      && forall j :: i <= j < r ==> Leading(lines, j)
    decreases |lines| + 1 - i
  {
    if i < |lines| {
      var l := lines[i];
      if l.deleted || l.kind == Blank || (l.kind == Comment && !guarded) {
        StopIs(lines, i + 1, guarded);
      } else if l.kind == PragmaOnce {
        StopIs(lines, i + 1, true);
      } else if l.kind == HeaderGuard {
        StopIs(lines, i + 2, true);
      }
    }
  }

  /** Line `l` lies strictly inside a reorder span. */
  ghost predicate Splits(lines: seq<LineInfo>, spans: seq<Span>, l: int)
    requires Sorted(spans, |lines|)
  {
    exists p :: 0 <= p < |spans| && Group(lines, spans, p).lo < l < Group(lines, spans, p).hi
  }

  /** An added line: one that goes to the top level, or a declaration that the text puts into a namespace. */
  datatype Addition = AtTop(rank: int) | Inside(span: Span)

  /** What the source hands out for a namespace: a reorder span, or the place behind the line that opens it. */
  ghost predicate NamespacePlace(lines: seq<LineInfo>, spans: seq<Span>, s: Span)
    requires Sorted(spans, |lines|)
  {
    (IsGroup(lines, spans, s) && LiveIn(lines, s)) || exists k :: Opens(lines, k) && s == Span(k + 1, k + 1)
  }

  predicate Opens(lines: seq<LineInfo>, k: int) {
    0 <= k < |lines| && !lines[k].deleted && (lines[k].kind == NamespaceStart || lines[k].kind == NamespaceContinue)
  }

  ghost predicate AdditionOk(lines: seq<LineInfo>, spans: seq<Span>, a: Addition)
    requires Sorted(spans, |lines|)
  {
    if a.AtTop? then 1 <= a.rank <= DECLARATION else NamespacePlace(lines, spans, a.span)
  }

  /** The reorder span of an added line. */
  ghost function PlaceOf(lines: seq<LineInfo>, good: seq<Span>, a: Addition): Span
    requires a.AtTop? ==> a.rank >= 1
  {
    if a.AtTop? then Choice(lines, good, a.rank) else a.span
  }

  /** An added line goes to a reorder span that still holds something, or to a single place. */
  lemma PlaceShape(lines: seq<LineInfo>, spans: seq<Span>, good: seq<Span>, a: Addition)
    requires Sorted(spans, |lines|) && ListsTop(lines, spans, good) && AdditionOk(lines, spans, a)
    ensures var s := PlaceOf(lines, good, a);
      (IsGroup(lines, spans, s) && Within(s, |lines|) && LiveIn(lines, s)) || (0 <= s.lo == s.hi <= |lines|)
  {
    var s := PlaceOf(lines, good, a);
    if a.AtTop? {
      assert s in good ==> TopGroup(lines, spans, s);
    } else if IsGroup(lines, spans, s) {
      GroupsApart(lines, spans, s, s);
    }
  }

  lemma {:induction false} FirstIsFirst(lines: seq<LineInfo>, good: seq<Span>, n: int, k: int, content: int, s: Span)
    requires Sorted(good, n) && s in good && HoldsRank(lines, s, k, content)
    ensures var f := FirstWith(lines, good, k, content); f.Some? && f.value.lo <= s.lo
  {
    var front, last := good[..|good|-1], good[|good|-1];
    assert good == front + [last];
    if s in front {
      FirstIsFirst(lines, front, n, k, content, s);
    } else if FirstWith(lines, front, k, content).Some? {
      var f := FirstWith(lines, front, k, content).value;
      var j :| 0 <= j < |front| && front[j] == f;
      assert good[j].hi <= last.lo;
    }
  }

  /** No top-level reorder span holds an include. */
  ghost predicate NoTopInclude(lines: seq<LineInfo>, good: seq<Span>) {
    forall s, i :: s in good && In(i, s) && 0 <= i < |lines| ==> lines[i].deleted || lines[i].kind != Include
  }

  /** A line of rank `k` falls through to the scan for the first contentful line, which ends before every
      top-level declaration that counts. */
  ghost predicate FallsTo(lines: seq<LineInfo>, good: seq<Span>, k: int, stop: int) {
    var f := FirstWith(lines, good, DECLARATION, Contentful(good));
    && NoTopInclude(lines, good) && stop == Stop(lines, 0, false)
    && (f.Some? ==> k != DECLARATION && (stop < |lines| ==> stop < f.value.lo))
  }

  lemma {:induction false} BelowHolds(lines: seq<LineInfo>, good: seq<Span>, k: int, content: int)
    requires k < DECLARATION && NearestBelow(lines, good, k, content).Some?
    ensures exists j :: 1 <= j < DECLARATION && FirstWith(lines, good, j, content).Some?
    decreases k
  {
    NoneWith(lines, good, k, content);
    if LastWith(lines, good, k, content).None? { BelowHolds(lines, good, k - 1, content); }
  }

  lemma {:induction false} AboveHolds(lines: seq<LineInfo>, good: seq<Span>, k: int, content: int)
    requires k >= 1 && NearestAbove(lines, good, k, content).Some?
    ensures exists j :: 1 <= j < DECLARATION && FirstWith(lines, good, j, content).Some?
    decreases DECLARATION - k
  {
    if FirstWith(lines, good, k, content).None? { AboveHolds(lines, good, k + 1, content); }
  }

  lemma NoIncludeRank(lines: seq<LineInfo>, good: seq<Span>, j: int, content: int)
    requires NoTopInclude(lines, good) && 1 <= j < DECLARATION
    ensures FirstWith(lines, good, j, content).None?
  {
    NoneWith(lines, good, j, content);
  }

  lemma IncludeHasRank(lines: seq<LineInfo>, good: seq<Span>, s: Span, i: int, content: int)
    requires s in good && In(i, s) && 0 <= i < |lines| && !lines[i].deleted && lines[i].kind == Include
    ensures 1 <= RankOf(lines[i]) < DECLARATION && FirstWith(lines, good, RankOf(lines[i]), content).Some?
  {
    var j := RankOf(lines[i]);
    assert Counts(lines, i, j, content) && HoldsRank(lines, s, j, content);
    NoneWith(lines, good, j, content);
  }

  /** The last choice is made exactly when no top-level span holds an include, nor a declaration that counts
      for a new declaration. */
  lemma FallsThrough(lines: seq<LineInfo>, good: seq<Span>, k: int)
    requires 1 <= k <= DECLARATION
    ensures var content := Contentful(good);
      (FirstWith(lines, good, k, content).None? && NearestBelow(lines, good, k - 1, content).None?
       && NearestAbove(lines, good, k + 1, content).None?) <==>
      (NoTopInclude(lines, good) && (k == DECLARATION ==> FirstWith(lines, good, k, content).None?))
  {
    var content := Contentful(good);
    if NoTopInclude(lines, good) {
      forall j | 1 <= j < DECLARATION ensures FirstWith(lines, good, j, content).None? {
        NoIncludeRank(lines, good, j, content);
      }
      if NearestBelow(lines, good, k - 1, content).Some? { BelowHolds(lines, good, k - 1, content); }
      if NearestAbove(lines, good, k + 1, content).Some? { AboveHolds(lines, good, k + 1, content); }
    }
    if FirstWith(lines, good, k, content).None? && NearestBelow(lines, good, k - 1, content).None?
       && NearestAbove(lines, good, k + 1, content).None? {
      forall s, i | s in good && In(i, s) && 0 <= i < |lines| ensures lines[i].deleted || lines[i].kind != Include {
        if !lines[i].deleted && lines[i].kind == Include {
          IncludeHasRank(lines, good, s, i, content);
          NoIncludes(lines, good, k, content, RankOf(lines[i]));
        }
      }
    }
  }

  /** Exactly then the chosen place is a line of its own. */
  lemma FallsIff(lines: seq<LineInfo>, good: seq<Span>, k: int, stop: int)
    requires 1 <= k <= DECLARATION && forall s :: s in good ==> Within(s, |lines|)
    ensures Choice(lines, good, k) == Span(stop, stop) <==> FallsTo(lines, good, k, stop)
  {
    FallsThrough(lines, good, k);
  }

  /** A place strictly inside a reorder span arises only where that span is not at the top level, or holds
      nothing but declarations behind contentful code. */
  lemma SplitFamily(lines: seq<LineInfo>, spans: seq<Span>, good: seq<Span>, k: int, stop: int, p: int, i: int)
    requires Sorted(spans, |lines|) && ListsTop(lines, spans, good) && 1 <= k <= DECLARATION && 0 <= p < |spans|
    requires Choice(lines, good, k) == Span(stop, stop) && Group(lines, spans, p).lo < stop < Group(lines, spans, p).hi
    requires TopGroup(lines, spans, Group(lines, spans, p)) && In(i, Group(lines, spans, p))
    requires !lines[i].deleted && IsAnchorKind(lines[i].kind)
    ensures lines[i].kind == ForwardDeclare && i > Contentful(good)
  {
    var g, content := Group(lines, spans, p), Contentful(good);
    FallsIff(lines, good, k, stop);
    assert g in good;
    if lines[i].kind == ForwardDeclare && i <= content {
      assert Counts(lines, i, DECLARATION, content) && HoldsRank(lines, g, DECLARATION, content);
      FirstIsFirst(lines, good, |lines|, DECLARATION, content, g);
    }
  }

  /** The place behind an opened namespace is never inside a reorder span. */
  lemma OpenedOutside(lines: seq<LineInfo>, spans: seq<Span>, k: int, p: int)
    requires Sorted(spans, |lines|) && AllFormed(lines, spans) && Opens(lines, k) && 0 <= p < |spans|
    ensures !In(k, Group(lines, spans, p))
  {
    forall q | 0 <= q < |spans| ensures !In(k, spans[q]) { assert Formed(lines, spans[q]); }
    if In(k, Group(lines, spans, p)) { GroupContent(lines, spans, p, k); }
  }

  /** A reorder span that ends with the file ends with an include or a declaration. */
  lemma LastLine(lines: seq<LineInfo>, spans: seq<Span>, p: int)
    requires Sorted(spans, |lines|) && AllFormed(lines, spans) && 0 <= p < |spans|
    ensures var g := Group(lines, spans, p); 0 < g.hi <= |lines| && IsAnchorKind(lines[g.hi-1].kind)
  {
    assert Formed(lines, spans[Final(lines, spans, p)]);
  }

  lemma GuardEnds(lines: seq<LineInfo>, h: int)
    requires GuardOk(lines) && 0 <= h < |lines| && lines[h].kind == HeaderGuard
    ensures !IsAnchorKind(lines[|lines|-1].kind)
  {
    var e :| ClosedBy(lines, h, e);
  }

  /** A scan that reaches the end of the file has passed no live include or declaration at its end. */
  lemma ScanPassed(lines: seq<LineInfo>, i: int)
    requires GuardOk(lines) && Stop(lines, 0, false) == |lines| && 0 <= i < |lines|
    requires IsAnchorKind(lines[i].kind) && IsAnchorKind(lines[|lines|-1].kind)
    ensures lines[i].deleted
  {
    StopIs(lines, 0, false);
    assert Leading(lines, i);
    if i > 0 && lines[i-1].kind == HeaderGuard { GuardEnds(lines, i - 1); }
  }

  /** Nothing goes to the end of a file that ends with a live reorder span. */
  lemma NotAtEnd(lines: seq<LineInfo>, spans: seq<Span>, good: seq<Span>, a: Addition, p: int, i: int)
    requires Sorted(spans, |lines|) && ListsTop(lines, spans, good) && AdditionOk(lines, spans, a)
    requires AllFormed(lines, spans) && GuardOk(lines) && PlaceOf(lines, good, a) == Span(|lines|, |lines|)
    requires 0 <= p < |spans| && Group(lines, spans, p).hi == |lines|
    requires In(i, Group(lines, spans, p)) && 0 <= i < |lines| && IsAnchorKind(lines[i].kind)
    ensures lines[i].deleted
  {
    LastLine(lines, spans, p);
    if a.AtTop? {
      assert forall s :: s in good ==> TopGroup(lines, spans, s);
      ScanPassed(lines, i);
    } else {
      if IsGroup(lines, spans, a.span) { GroupsApart(lines, spans, a.span, a.span); }
      OpenedOutside(lines, spans, |lines| - 1, p);
    }
  }

  /** What the choice looks at does not depend on the reorder spans that the lines carry. */
  lemma {:induction false} SameDepths(a: seq<LineInfo>, b: seq<LineInfo>, i: nat)
    requires SameButReorder(a, b) && i <= |a|
    ensures IfDepth(a, i) == IfDepth(b, i) && NamespaceDepth(a, i) == NamespaceDepth(b, i)
  {
    if i > 0 { SameDepths(a, b, i - 1); }
  }

  lemma SameInside(a: seq<LineInfo>, b: seq<LineInfo>, i: int)
    requires SameButReorder(a, b) && 0 <= i < |a|
    ensures InIfdef(a, i) == InIfdef(b, i) && InsideNamespace(a, i) == InsideNamespace(b, i)
  {
    forall j | 0 <= j < |a| ensures Swallows(a, j) == Swallows(b, j) { SameDepths(a, b, j + 1); }
    SameDepths(a, b, i + 1);
    if j :| 0 <= j < i + 1 && Swallows(a, j) { assert Swallows(b, j); }
    if j :| 0 <= j < i + 1 && Swallows(b, j) { assert Swallows(a, j); }
  }

  lemma SameTopGroup(a: seq<LineInfo>, b: seq<LineInfo>, spans: seq<Span>, s: Span)
    requires SameButReorder(a, b) && Sorted(spans, |a|) && TopGroup(a, spans, s)
    ensures TopGroup(b, spans, s)
  {
    var p :| 0 <= p < |spans| && Group(a, spans, p) == s;
    SameGroups(a, b, spans, p);
    forall i | In(i, s) ensures !InIfdef(b, i) && !InsideNamespace(b, i) && !b[i].nested { SameInside(a, b, i); }
  }

  lemma SameTop(a: seq<LineInfo>, b: seq<LineInfo>, spans: seq<Span>, good: seq<Span>)
    requires SameButReorder(a, b) && Sorted(spans, |a|) && ListsTop(a, spans, good)
    ensures ListsTop(b, spans, good)
  {
    forall s ensures TopGroup(a, spans, s) <==> TopGroup(b, spans, s) {
      if TopGroup(a, spans, s) { SameTopGroup(a, b, spans, s); }
      if TopGroup(b, spans, s) { SameTopGroup(b, a, spans, s); }
    }
  }

  lemma SameHolds(a: seq<LineInfo>, b: seq<LineInfo>, s: Span, k: int, content: int)
    requires SameButReorder(a, b)
    ensures HoldsRank(a, s, k, content) == HoldsRank(b, s, k, content)
  {
    if i :| In(i, s) && 0 <= i < |a| && Counts(a, i, k, content) { assert Counts(b, i, k, content); }
    if i :| In(i, s) && 0 <= i < |a| && Counts(b, i, k, content) { assert Counts(a, i, k, content); }
  }

  lemma {:induction false} SameFirstLast(a: seq<LineInfo>, b: seq<LineInfo>, good: seq<Span>, k: int, content: int)
    requires SameButReorder(a, b)
    ensures FirstWith(a, good, k, content) == FirstWith(b, good, k, content)
    ensures LastWith(a, good, k, content) == LastWith(b, good, k, content)
  {
    if good != [] {
      SameFirstLast(a, b, good[..|good|-1], k, content);
      SameHolds(a, b, good[|good|-1], k, content);
    }
  }

  lemma {:induction false} SameBelow(a: seq<LineInfo>, b: seq<LineInfo>, good: seq<Span>, k: int, content: int)
    requires SameButReorder(a, b)
    ensures NearestBelow(a, good, k, content) == NearestBelow(b, good, k, content)
    decreases k
  {
    SameFirstLast(a, b, good, k, content);
    if k >= 1 { SameBelow(a, b, good, k - 1, content); }
  }

  lemma {:induction false} SameAbove(a: seq<LineInfo>, b: seq<LineInfo>, good: seq<Span>, k: int, content: int)
    requires SameButReorder(a, b) && k >= 1
    ensures NearestAbove(a, good, k, content) == NearestAbove(b, good, k, content)
    decreases DECLARATION - k
  {
    SameFirstLast(a, b, good, k, content);
    if k < DECLARATION { SameAbove(a, b, good, k + 1, content); }
  }

  lemma {:induction false} SameStop(a: seq<LineInfo>, b: seq<LineInfo>, i: nat, guarded: bool)
    requires SameButReorder(a, b)
    ensures Stop(a, i, guarded) == Stop(b, i, guarded)
    decreases |a| + 1 - i
  {
    if i < |a| {
      SameStop(a, b, i + 1, guarded);
      SameStop(a, b, i + 1, true);
      SameStop(a, b, i + 2, true);
    }
  }

  lemma SamePlace(a: seq<LineInfo>, b: seq<LineInfo>, good: seq<Span>, add: Addition)
    requires SameButReorder(a, b) && (add.AtTop? ==> add.rank >= 1)
    ensures PlaceOf(a, good, add) == PlaceOf(b, good, add)
  {
    if add.AtTop? {
      var content := Contentful(good);
      SameFirstLast(a, b, good, add.rank, content);
      SameFirstLast(a, b, good, DECLARATION, content);
      SameBelow(a, b, good, add.rank - 1, content);
      SameAbove(a, b, good, add.rank + 1, content);
      SameStop(a, b, 0, false);
    }
  }
}
