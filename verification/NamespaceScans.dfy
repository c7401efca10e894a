/** How `_DeleteEmptyNamespaces` of build_support/fix_includes.py looks for the end of an empty namespace. */
module NamespaceScans {
  import opened Records
  import opened FileLines

  predicate IsNamespaceStart(k: Kind) {
    k == NamespaceStart || k == NamespaceStartMixed || k == NamespaceStartAllman
  }

  /** The depth that a namespace line opens. An Allman line has its brace on a later line. */
  function Opening(l: LineInfo): int { if l.kind == NamespaceStartAllman then 0 else Braces(l) }

  predicate InsideNamespace(k: Kind) {
    IsNamespaceStart(k) || k == NamespaceContinue || k == NamespaceEnd || k == Comment || k == Blank
  }

  /** The depth behind a line of a namespace. */
  function DepthBehind(l: LineInfo, depth: int): int {
    if l.deleted || l.kind == Comment || l.kind == Blank then depth
    else if l.kind == NamespaceContinue then depth + 1
    else if IsNamespaceStart(l.kind) then depth + Opening(l)
    else depth - Braces(l)
  }

  /** A scan ends behind the line that closes the namespace, at a line that is not part of an empty
      namespace, or at the end of the file. */
  datatype Scan = Ended(line: int) | Bailed | RanOut

  /** The scan from line `i`, where the namespace is `depth` deep. */
  function NamespaceScan(lines: seq<LineInfo>, i: int, depth: int): (r: Scan)
    requires 0 <= i <= |lines|
    ensures r.Ended? ==> i < r.line <= |lines| && !lines[r.line-1].deleted && lines[r.line-1].kind == NamespaceEnd
    decreases |lines| - i
  {
    if i == |lines| then RanOut
    else if !lines[i].deleted && !InsideNamespace(lines[i].kind) then Bailed
    else
      var d := DepthBehind(lines[i], depth);
      if !lines[i].deleted && lines[i].kind == NamespaceEnd && d <= 0 then Ended(i + 1)
      else NamespaceScan(lines, i + 1, d)
  }

  lemma {:induction false} NamespaceBetween(lines: seq<LineInfo>, i: int, depth: int, j: int)
    requires 0 <= i <= |lines| && NamespaceScan(lines, i, depth).Ended?
    requires i <= j < NamespaceScan(lines, i, depth).line
    ensures lines[j].deleted || InsideNamespace(lines[j].kind)
    decreases |lines| - i
  {
    if i < j { NamespaceBetween(lines, i + 1, DepthBehind(lines[i], depth), j); }
  }

  ghost predicate OpensAt(lines: seq<LineInfo>, s: int) {
    0 <= s < |lines| && !lines[s].deleted && IsNamespaceStart(lines[s].kind)
  }

  /** A live namespace with nothing in it begins at line `s`. */
  ghost predicate EmptyNamespace(lines: seq<LineInfo>, s: int) {
    OpensAt(lines, s) && NamespaceScan(lines, s + 1, Opening(lines[s])).Ended?
  }

  /** A live namespace begins at line `s` that nothing closes and nothing but namespaces follows. */
  ghost predicate Unclosed(lines: seq<LineInfo>, s: int) {
    OpensAt(lines, s) && NamespaceScan(lines, s + 1, Opening(lines[s])).RanOut?
  }

  /** The line behind the empty namespace at `s`. */
  function EndLine(lines: seq<LineInfo>, s: int): (e: int)
    requires 0 <= s < |lines|
    ensures s <= e <= |lines|
  {
    var r := NamespaceScan(lines, s + 1, Opening(lines[s]));
    if r.Ended? then r.line else s
  }

  /** Looks at one line of a namespace. */
  method LookAt(l: LineInfo, depth: int) returns (d: int, ends: bool, bailed: bool)
    ensures (bailed <==> !l.deleted && !InsideNamespace(l.kind)) && (bailed ==> !ends)
    ensures !bailed ==> d == DepthBehind(l, depth) && (ends <==> !l.deleted && l.kind == NamespaceEnd && d <= 0)
  {
    d, ends, bailed := depth, false, false;
    if l.deleted || l.kind == Comment || l.kind == Blank {
    } else if l.kind == NamespaceContinue {
      d := depth + 1;
    } else if IsNamespaceStart(l.kind) {
      d := depth + Opening(l);
    } else if l.kind == NamespaceEnd {
      d := depth - Braces(l);
      ends := d <= 0;
    } else {
      bailed := true;
    }
  }

  method FindNamespaceEnd(lines: seq<LineInfo>, s: int) returns (e: int, found: bool, bailed: bool)
    requires 0 <= s < |lines|
    ensures var r := NamespaceScan(lines, s + 1, Opening(lines[s]));
      (found <==> r == Ended(e)) && (found <==> r.Ended?) && (bailed <==> r == Bailed)
    ensures s < e <= |lines| && (!found && !bailed ==> e == |lines|)
  {
    var depth := Opening(lines[s]);
    e, found, bailed := s + 1, false, false;
    while e < |lines| && !found && !bailed
      invariant s < e <= |lines| && !(found && bailed)
      invariant var r := NamespaceScan(lines, s + 1, Opening(lines[s]));
        if found then r == Ended(e) else if bailed then r == Bailed else r == NamespaceScan(lines, e, depth)
      decreases |lines| - e, !bailed
    {
      depth, found, bailed := LookAt(lines[e], depth);
      if !bailed {
        e := e + 1;
      }
    }
  }

  /** A shallower scan ends no later. */
  lemma {:induction false} ScanDeeper(lines: seq<LineInfo>, i: int, d: int, deeper: int)
    requires 0 <= i <= |lines| && d <= deeper && NamespaceScan(lines, i, deeper).Ended?
    ensures NamespaceScan(lines, i, d).Ended?
    decreases |lines| - i
  {
    var a, b := DepthBehind(lines[i], d), DepthBehind(lines[i], deeper);
    if NamespaceScan(lines, i, deeper) != Ended(i + 1) { ScanDeeper(lines, i + 1, a, b); }
  }

  /** A namespace within an empty one is empty. */
  lemma {:induction false} ScanInside(lines: seq<LineInfo>, i: int, depth: int, t: int)
    requires 0 <= i <= t < |lines| && depth >= 0 && OpensAt(lines, t)
    requires NamespaceScan(lines, i, depth).Ended? && t < NamespaceScan(lines, i, depth).line
    ensures EmptyNamespace(lines, t)
    decreases t - i
  {
    if i == t {
      ScanDeeper(lines, t + 1, Opening(lines[t]), DepthBehind(lines[t], depth));
    } else {
      ScanInside(lines, i + 1, DepthBehind(lines[i], depth), t);
    }
  }

  lemma {:induction false} SameScan(a: seq<LineInfo>, b: seq<LineInfo>, i: int, depth: int)
    requires |a| == |b| && 0 <= i <= |a| && forall j :: i <= j < |a| ==> a[j] == b[j]
    ensures NamespaceScan(a, i, depth) == NamespaceScan(b, i, depth)
    decreases |a| - i
  {
    if i < |a| { SameScan(a, b, i + 1, DepthBehind(a[i], depth)); }
  }

  /** A line that stands in an empty namespace without changing its depth. */
  predicate Ignored(l: LineInfo) { l.deleted || l.kind == Comment || l.kind == Blank }

  /** From line `lo` up to line `hi` there is nothing but whole empty namespaces, comments and blank lines. */
  ghost predicate Nest(lines: seq<LineInfo>, lo: int, hi: int)
    requires 0 <= lo <= hi <= |lines|
    decreases hi - lo
  {
    || lo == hi
    || (Ignored(lines[lo]) && Nest(lines, lo + 1, hi))
    || exists e :: lo < e < hi && Whole(lines, lo, e) && Nest(lines, e + 1, hi)
  }

  /** A live namespace from line `s` to line `e` with nothing in it but empty namespaces. */
  ghost predicate Whole(lines: seq<LineInfo>, s: int, e: int)
    requires 0 <= s < e < |lines|
    decreases e - s
  {
    exists c :: s <= c < e && Frame(lines, s, c, e) && Nest(lines, c + 1, e)
  }

  /** The namespace that begins at line `s` has its last brace opened on line `c`, and all of them closed on line `e`.
      The brace of an Allman namespace has a line of its own. */
  ghost predicate Frame(lines: seq<LineInfo>, s: int, c: int, e: int)
    requires 0 <= s <= c < e < |lines|
  {
    && !lines[s].deleted && !lines[e].deleted && lines[e].kind == NamespaceEnd
    && if c == s then
         && (lines[s].kind == NamespaceStart || lines[s].kind == NamespaceStartMixed)
         && Braces(lines[e]) == Braces(lines[s])
       else
         && lines[s].kind == NamespaceStartAllman && Braces(lines[e]) == 1
         && !lines[c].deleted && lines[c].kind == NamespaceContinue && forall j :: s < j < c ==> Ignored(lines[j])
  }

  lemma {:induction false} IgnoredScan(lines: seq<LineInfo>, lo: int, hi: int, depth: int)
    requires 0 <= lo <= hi <= |lines| && forall j :: lo <= j < hi ==> Ignored(lines[j])
    ensures NamespaceScan(lines, lo, depth) == NamespaceScan(lines, hi, depth)
    decreases hi - lo
  {
    if lo < hi { IgnoredScan(lines, lo + 1, hi, depth); }
  }

  lemma {:induction false} NestScan(lines: seq<LineInfo>, lo: int, hi: int, depth: int)
    requires 0 <= lo <= hi <= |lines| && Nest(lines, lo, hi) && depth >= 1
    ensures NamespaceScan(lines, lo, depth) == NamespaceScan(lines, hi, depth)
    decreases hi - lo, 1
  {
    if lo < hi {
      var next := NestNext(lines, lo, hi, depth);
      NestScan(lines, next, hi, depth);
    }
  }

  lemma {:induction false} NestNext(lines: seq<LineInfo>, lo: int, hi: int, depth: int) returns (next: int)
    requires 0 <= lo < hi <= |lines| && Nest(lines, lo, hi) && depth >= 1
    ensures lo < next <= hi && Nest(lines, next, hi)
    ensures NamespaceScan(lines, lo, depth) == NamespaceScan(lines, next, depth)
    decreases hi - lo, 0
  {
    if Ignored(lines[lo]) && Nest(lines, lo + 1, hi) {
      next := lo + 1;
      IgnoredScan(lines, lo, next, depth);
    } else {
      var e :| lo < e < hi && Whole(lines, lo, e) && Nest(lines, e + 1, hi);
      next := e + 1;
      OpenScan(lines, lo, e, depth);
      WholeScan(lines, lo, e, depth);
    }
  }

  /** The closing line of a namespace. */
  lemma CloseScan(lines: seq<LineInfo>, e: int, depth: int)
    requires 0 <= e < |lines| && !lines[e].deleted && lines[e].kind == NamespaceEnd && depth >= 0
    ensures NamespaceScan(lines, e, depth + Braces(lines[e])) ==
      if depth == 0 then Ended(e + 1) else NamespaceScan(lines, e + 1, depth)
  {
  }

  lemma FrameScan(lines: seq<LineInfo>, s: int, c: int, e: int, depth: int)
    requires 0 <= s <= c < e < |lines| && Frame(lines, s, c, e)
    ensures NamespaceScan(lines, s + 1, depth + Opening(lines[s])) ==
      NamespaceScan(lines, c + 1, depth + Braces(lines[e]))
  {
    if s < c { IgnoredScan(lines, s + 1, c, depth); }
  }

  lemma {:induction false} BodyScan(lines: seq<LineInfo>, lo: int, e: int, depth: int)
    requires 0 <= lo <= e < |lines| && Nest(lines, lo, e) && depth >= 0
    requires !lines[e].deleted && lines[e].kind == NamespaceEnd
    ensures NamespaceScan(lines, lo, depth + Braces(lines[e])) ==
      if depth == 0 then Ended(e + 1) else NamespaceScan(lines, e + 1, depth)
    decreases e - lo, 2
  {
    NestScan(lines, lo, e, depth + Braces(lines[e]));
    CloseScan(lines, e, depth);
  }

  /** A scan passes over a whole namespace, and outside of any other it ends there. */
  lemma {:induction false} WholeScan(lines: seq<LineInfo>, s: int, e: int, depth: int)
    requires 0 <= s < e < |lines| && Whole(lines, s, e) && depth >= 0
    ensures NamespaceScan(lines, s + 1, depth + Opening(lines[s])) ==
      if depth == 0 then Ended(e + 1) else NamespaceScan(lines, e + 1, depth)
    decreases e - s, 1
  {
    var c :| s <= c < e && Frame(lines, s, c, e) && Nest(lines, c + 1, e);
    FrameScan(lines, s, c, e, depth);
    BodyScan(lines, c + 1, e, depth);
  }

  lemma OpenScan(lines: seq<LineInfo>, s: int, e: int, depth: int)
    requires 0 <= s < e < |lines| && Whole(lines, s, e)
    ensures NamespaceScan(lines, s, depth) == NamespaceScan(lines, s + 1, depth + Opening(lines[s]))
  {
  }

  lemma WholeIsEmpty(lines: seq<LineInfo>, s: int, e: int)
    requires 0 <= s < e < |lines| && Whole(lines, s, e)
    ensures EmptyNamespace(lines, s) && EndLine(lines, s) == e + 1
  {
    WholeScan(lines, s, e, 0);
  }

  /** A scan that reaches a whole namespace reaches its end. */
  lemma {:induction false} ScanReaches(lines: seq<LineInfo>, i: int, depth: int, s: int, e: int)
    requires 0 <= i <= s < e < |lines| && Whole(lines, s, e) && depth >= 0
    requires NamespaceScan(lines, i, depth).Ended? && s < NamespaceScan(lines, i, depth).line
    ensures e < NamespaceScan(lines, i, depth).line
    decreases s - i
  {
    if i == s {
      OpenScan(lines, s, e, depth);
      WholeScan(lines, s, e, depth);
    } else {
      ScanReaches(lines, i + 1, DepthBehind(lines[i], depth), s, e);
    }
  }

  /** Behind an unclosed namespace there is nothing else. */
  lemma {:induction false} RunsOut(lines: seq<LineInfo>, i: int, depth: int, u: int)
    requires 0 <= i <= u < |lines| && NamespaceScan(lines, i, depth).RanOut?
    ensures lines[u].deleted || lines[u].kind in {NamespaceStart, NamespaceStartMixed, NamespaceStartAllman,
                                                  NamespaceContinue, NamespaceEnd, Comment, Blank}
    decreases u - i
  {
    if i < u { RunsOut(lines, i + 1, DepthBehind(lines[i], depth), u); }
  }

  /** Nothing but namespaces, comments and blank lines stands behind line `s`. */
  ghost predicate OnlyNamespacesBehind(lines: seq<LineInfo>, s: int) {
    forall u :: 0 <= s < u < |lines| ==>
      lines[u].deleted || lines[u].kind in {NamespaceStart, NamespaceStartMixed, NamespaceStartAllman,
                                            NamespaceContinue, NamespaceEnd, Comment, Blank}
  }

  lemma UnclosedIsLast(lines: seq<LineInfo>, t: int)
    requires Unclosed(lines, t)
    ensures OnlyNamespacesBehind(lines, t)
  {
    forall u | t < u < |lines|
      ensures lines[u].deleted || lines[u].kind in {NamespaceStart, NamespaceStartMixed, NamespaceStartAllman,
                                                    NamespaceContinue, NamespaceEnd, Comment, Blank}
    {
      RunsOut(lines, t + 1, Opening(lines[t]), u);
    }
  }

  /** `b` is `a`, but for spans and deleted blank lines. */
  ghost predicate BlanksAside(a: seq<LineInfo>, b: seq<LineInfo>) {
    && |a| == |b|
    && forall i :: 0 <= i < |a| ==>
         && b[i].kind == a[i].kind && b[i].braces == a[i].braces
         && (a[i].deleted ==> b[i].deleted) && (b[i].deleted ==> a[i].deleted || a[i].kind == Blank)
  }

  lemma {:induction false} SameNest(a: seq<LineInfo>, b: seq<LineInfo>, lo: int, hi: int)
    requires BlanksAside(a, b) && 0 <= lo <= hi <= |a| && Nest(b, lo, hi)
    ensures Nest(a, lo, hi)
    decreases hi - lo, 0
  {
    if lo < hi {
      if Ignored(b[lo]) && Nest(b, lo + 1, hi) {
        SameNest(a, b, lo + 1, hi);
      } else {
        var e :| lo < e < hi && Whole(b, lo, e) && Nest(b, e + 1, hi);
        SameWhole(a, b, lo, e);
        SameNest(a, b, e + 1, hi);
      }
    }
  }

  lemma {:induction false} SameWhole(a: seq<LineInfo>, b: seq<LineInfo>, s: int, e: int)
    requires BlanksAside(a, b) && 0 <= s < e < |a| && Whole(b, s, e)
    ensures Whole(a, s, e)
    decreases e - s, 1
  {
    var c :| s <= c < e && Frame(b, s, c, e) && Nest(b, c + 1, e);
    SameNest(a, b, c + 1, e);
    assert Frame(a, s, c, e);
  }
}
