/** `_DeleteEmptyIfdefs`, `_DeleteEmptyNamespaces` and the loop around them in
    `_DeleteLinesAccordingToIwyu` of build_support/fix_includes.py. */
module EmptyBlocks {
  import opened Records
  import opened FileLines
  import opened MoveSpans
  import opened NamespaceScans

  predicate IsIf(l: LineInfo) { l.kind == If || l.kind == HeaderGuard }

  predicate IsLiveIf(l: LineInfo) { !l.deleted && IsIf(l) }

  predicate IsLiveEndif(l: LineInfo) { !l.deleted && l.kind == Endif }

  /** A live line that closes a block. */
  predicate IsCloser(l: LineInfo) { !l.deleted && (l.kind == Endif || l.kind == NamespaceEnd) }

  /** A line that the search for the end of an empty ifdef does not skip. */
  predicate Significant(l: LineInfo) {
    !l.deleted && l.kind != Else && l.kind != Comment && l.kind != Blank
  }

  /** The first significant line from line `i` on. */
  function NextSig(lines: seq<LineInfo>, i: int): (r: int)
    requires 0 <= i <= |lines|
    ensures i <= r <= |lines|
    ensures forall j :: i <= j < r ==> !Significant(lines[j])
    ensures r < |lines| ==> Significant(lines[r])
    decreases |lines| - i
  {
    if i == |lines| || Significant(lines[i]) then i else NextSig(lines, i + 1)
  }

  /** Nothing stands between the `#if` at line `s`, deleted or not, and a live `#endif`. */
  predicate EmptyFrom(lines: seq<LineInfo>, s: int) {
    && 0 <= s < |lines| && IsIf(lines[s])
    && var e := NextSig(lines, s + 1); e < |lines| && lines[e].kind == Endif
  }

  function EndOf(lines: seq<LineInfo>, s: int): (e: int)
    requires EmptyFrom(lines, s)
    ensures s < e < |lines| && IsLiveEndif(lines[e])
  {
    NextSig(lines, s + 1)
  }

  lemma {:induction false} SameNext(a: seq<LineInfo>, i: int, j: int)
    requires 0 <= i <= j <= |a| && j <= NextSig(a, i)
    ensures NextSig(a, j) == NextSig(a, i)
    decreases j - i
  {
    if i < j { SameNext(a, i + 1, j); }
  }

  /** The first `#if` that leads to its `#endif`: the pass starts a deletion there. */
  ghost predicate Fires(lines: seq<LineInfo>, s: int) {
    EmptyFrom(lines, s) && forall t :: 0 <= t < s && EmptyFrom(lines, t) ==> EndOf(lines, t) != EndOf(lines, s)
  }

  function BlankStart(lines: seq<LineInfo>, k: int): (r: int)
    requires 0 <= k <= |lines|
    ensures 0 <= r <= k && forall i :: r <= i < k ==> lines[i].kind == Blank
    decreases k
  {
    if k > 0 && lines[k-1].kind == Blank then BlankStart(lines, k - 1) else k
  }

  /** The comments and then the blank lines before line `s` go with it. */
  function RegionStart(lines: seq<LineInfo>, s: int): (r: int)
    requires 0 <= s <= |lines|
    ensures 0 <= r <= s
  {
    BlankStart(lines, StartOf(lines, s))
  }

  lemma RegionPrefix(lines: seq<LineInfo>, s: int, i: int)
    requires 0 <= s <= |lines| && RegionStart(lines, s) <= i < s
    ensures lines[i].kind == Comment || lines[i].kind == Blank
  {
    CommentsBefore(lines, s);
  }

  /** Line `i` goes with the empty ifdef at `s`. */
  ghost predicate InRegion(lines: seq<LineInfo>, s: int, i: int) {
    Fires(lines, s) && RegionStart(lines, s) <= i <= EndOf(lines, s)
  }

  /** Line `i` goes with an empty ifdef that starts before line `p`. */
  ghost predicate Removed(lines: seq<LineInfo>, p: int, i: int) {
    exists s :: s < p && InRegion(lines, s, i)
  }

  /** `b` is `a` after the pass has reached line `p`. */
  ghost predicate PassedTo(a: seq<LineInfo>, p: int, b: seq<LineInfo>) {
    |b| == |a| && forall i :: 0 <= i < |a| ==> b[i] == a[i].(deleted := a[i].deleted || Removed(a, p, i))
  }

  /** `b` is `a` after one pass over the ifdefs. */
  ghost predicate Passed(a: seq<LineInfo>, b: seq<LineInfo>) {
    PassedTo(a, |a|, b)
  }

  method DeleteRange(f: SourceFile, lo: int, hi: int)
    requires 0 <= lo <= hi <= |f.lines|
    modifies f
    ensures |f.lines| == |old(f.lines)|
    ensures forall i :: 0 <= i < |f.lines| ==>
      f.lines[i] == if lo <= i < hi then old(f.lines)[i].(deleted := true) else old(f.lines)[i]
  {
    var k := lo;
    while k < hi
      invariant lo <= k <= hi && |f.lines| == |old(f.lines)|
      invariant forall i :: 0 <= i < |f.lines| ==>
        f.lines[i] == if lo <= i < k then old(f.lines)[i].(deleted := true) else old(f.lines)[i]
    {
      f.lines := f.lines[k := f.lines[k].(deleted := true)];
      k := k + 1;
    }
  }

  /** Where the region of the block at `s` begins. */
  method FindRegionStart(f: SourceFile, s: int) returns (r: int)
    requires 0 <= s <= |f.lines|
    ensures r == RegionStart(f.lines, s)
  {
    r := LineNumberStartingPrecedingComments(f, s);
    while r > 0 && f.lines[r-1].kind == Blank
      invariant 0 <= r <= s && BlankStart(f.lines, r) == RegionStart(f.lines, s)
    {
      r := r - 1;
    }
  }

  /** Searches the `#endif` of an empty ifdef. */
  method FindEndif(f: SourceFile, s: int) returns (e: int, found: bool)
    requires 0 <= s < |f.lines| && IsIf(f.lines[s])
    ensures found <==> EmptyFrom(f.lines, s)
    ensures e == NextSig(f.lines, s + 1)
  {
    e := s + 1;
    found := false;
    while e < |f.lines|
      invariant s < e <= |f.lines| && NextSig(f.lines, e) == NextSig(f.lines, s + 1)
    {
      var l := f.lines[e];
      if l.deleted || l.kind == Else || l.kind == Comment || l.kind == Blank {
        e := e + 1;
      } else {
        found := l.kind == Endif;
        break;
      }
    }
  }

  /** No `#if` before line `p` leads to an `#endif` at or behind it. */
  ghost predicate CleanAt(lines: seq<LineInfo>, p: int) {
    forall s :: 0 <= s < p && EmptyFrom(lines, s) ==> EndOf(lines, s) < p
  }

  function LiveClosers(lines: seq<LineInfo>): nat {
    if lines == [] then 0
    else LiveClosers(lines[..|lines|-1]) + if IsCloser(lines[|lines|-1]) then 1 else 0
  }

  /** Deleting a live closing line makes progress. */
  lemma {:induction false} FewerClosers(a: seq<LineInfo>, b: seq<LineInfo>, e: int)
    requires MoreDeleted(a, b)
    ensures LiveClosers(b) <= LiveClosers(a)
    ensures 0 <= e < |a| && IsCloser(a[e]) && b[e].deleted ==> LiveClosers(b) < LiveClosers(a)
  {
    if a != [] {
      FewerClosers(a[..|a|-1], b[..|b|-1], e);
    }
  }

  lemma {:induction false} SameComments(a: seq<LineInfo>, b: seq<LineInfo>, k: int)
    requires |a| == |b| && 0 <= k <= |a| && forall i :: 0 <= i < |a| ==> a[i].kind == b[i].kind
    ensures CommentStart(a, k) == CommentStart(b, k) && BlankStart(a, k) == BlankStart(b, k)
    decreases k
  {
    if k > 0 { SameComments(a, b, k - 1); }
  }

  lemma SameRegion(a: seq<LineInfo>, b: seq<LineInfo>, k: int)
    requires |a| == |b| && 0 <= k <= |a| && forall i :: 0 <= i < |a| ==> a[i].kind == b[i].kind
    ensures RegionStart(a, k) == RegionStart(b, k)
  {
    SameComments(a, b, k);
    SameComments(a, b, StartOf(a, k));
  }

  lemma {:induction false} SameAhead(a: seq<LineInfo>, b: seq<LineInfo>, i: int)
    requires |a| == |b| && 0 <= i <= |a| && forall j :: i <= j < |a| ==> a[j] == b[j]
    ensures NextSig(a, i) == NextSig(b, i)
    decreases |a| - i
  {
    if i < |a| { SameAhead(a, b, i + 1); }
  }

  /** A deletion at line `p` is the region of the first `#if` for its `#endif`. */
  lemma FiresAt(lines: seq<LineInfo>, p: int)
    requires EmptyFrom(lines, p) && CleanAt(lines, p)
    ensures Fires(lines, p)
  {
  }

  /** The lines up to the `#endif` start no other deletion. */
  lemma FiresOnce(lines: seq<LineInfo>, p: int, s: int)
    requires EmptyFrom(lines, p) && p < s <= EndOf(lines, p)
    ensures !Fires(lines, s)
    ensures EmptyFrom(lines, s) ==> EndOf(lines, s) == EndOf(lines, p)
  {
    if EmptyFrom(lines, s) {
      SameNext(lines, p + 1, s + 1);
    }
  }

  lemma RemovedNext(lines: seq<LineInfo>, p: int, i: int)
    requires EmptyFrom(lines, p) && CleanAt(lines, p)
    ensures Removed(lines, EndOf(lines, p) + 1, i) <==>
      Removed(lines, p, i) || RegionStart(lines, p) <= i <= EndOf(lines, p)
    ensures CleanAt(lines, EndOf(lines, p) + 1)
  {
    var e := EndOf(lines, p);
    FiresAt(lines, p);
    forall s | p < s <= e
      ensures !Fires(lines, s) && (EmptyFrom(lines, s) ==> EndOf(lines, s) == e)
    {
      FiresOnce(lines, p, s);
    }
    if RegionStart(lines, p) <= i <= e { assert InRegion(lines, p, i); }
  }

  lemma RemovedSame(lines: seq<LineInfo>, p: int, q: int, i: int)
    requires 0 <= p <= q <= |lines| && forall s :: p <= s < q ==> !EmptyFrom(lines, s)
    ensures Removed(lines, q, i) <==> Removed(lines, p, i)
    ensures CleanAt(lines, p) ==> CleanAt(lines, q)
  {
  }

  /** Nothing before line `p` reaches beyond it, so the lines from `p` on are untouched. */
  lemma Untouched(a: seq<LineInfo>, p: int, b: seq<LineInfo>, i: int)
    requires CleanAt(a, p) && PassedTo(a, p, b) && 0 <= p <= i < |a|
    ensures b[i] == a[i]
  {
  }

  lemma SameEmpty(a: seq<LineInfo>, p: int, b: seq<LineInfo>)
    requires CleanAt(a, p) && PassedTo(a, p, b) && 0 <= p < |a|
    ensures EmptyFrom(b, p) <==> EmptyFrom(a, p)
    ensures NextSig(b, p + 1) == NextSig(a, p + 1)
    ensures RegionStart(b, p) == RegionStart(a, p) && b[p] == a[p]
  {
    forall i | p <= i < |a| ensures a[i] == b[i] { Untouched(a, p, b, i); }
    SameAhead(a, b, p + 1);
    SameRegion(a, b, p);
  }

  /** The step of the pass that deletes a region. */
  lemma PassDeletes(a: seq<LineInfo>, p: int, b: seq<LineInfo>, c: seq<LineInfo>)
    requires CleanAt(a, p) && PassedTo(a, p, b) && EmptyFrom(a, p) && |c| == |b|
    requires forall i :: 0 <= i < |b| ==>
      c[i] == if RegionStart(a, p) <= i < EndOf(a, p) + 1 then b[i].(deleted := true) else b[i]
    ensures CleanAt(a, EndOf(a, p) + 1) && PassedTo(a, EndOf(a, p) + 1, c)
    ensures LiveClosers(c) < LiveClosers(b)
  {
    var e := EndOf(a, p);
    forall i | 0 <= i < |a| ensures c[i] == a[i].(deleted := a[i].deleted || Removed(a, e + 1, i)) {
      RemovedNext(a, p, i);
    }
    RemovedNext(a, p, 0);
    Untouched(a, p, b, e);
    assert MoreDeleted(b, c);
    FewerClosers(b, c, e);
  }

  /** A step that deletes nothing. */
  lemma PassSkips(a: seq<LineInfo>, p: int, q: int, b: seq<LineInfo>)
    requires CleanAt(a, p) && PassedTo(a, p, b) && 0 <= p <= q <= |a|
    requires forall s :: p <= s < q ==> !EmptyFrom(a, s)
    ensures CleanAt(a, q) && PassedTo(a, q, b)
  {
    forall i | 0 <= i < |a| ensures Removed(a, q, i) <==> Removed(a, p, i) { RemovedSame(a, p, q, i); }
    RemovedSame(a, p, q, 0);
  }

  lemma NothingAhead(a: seq<LineInfo>, p: int)
    requires 0 <= p < |a| && NextSig(a, p + 1) == |a| && !EmptyFrom(a, p)
    ensures forall s :: p <= s < |a| ==> !EmptyFrom(a, s)
  {
    forall s | p <= s < |a| ensures !EmptyFrom(a, s) {
      if p < s { SameNext(a, p + 1, s + 1); }
    }
  }

  /** Deletes the empty ifdef from line `p` to line `e`. */
  method DeleteIfdef(f: SourceFile, p: int, e: int, ghost start: seq<LineInfo>)
    requires CleanAt(start, p) && PassedTo(start, p, f.lines) && EmptyFrom(start, p) && e == EndOf(start, p)
    requires RegionStart(f.lines, p) == RegionStart(start, p)
    modifies f
    ensures CleanAt(start, e + 1) && PassedTo(start, e + 1, f.lines)
    ensures LiveClosers(f.lines) < LiveClosers(old(f.lines))
  {
    ghost var before := f.lines;
    var r := FindRegionStart(f, p);
    DeleteRange(f, r, e + 1);
    PassDeletes(start, p, before, f.lines);
  }

  /** One step of the pass at line `p`. */
  method IfdefStep(f: SourceFile, p: int, ghost start: seq<LineInfo>) returns (p': int, counted: bool)
    requires 0 <= p < |start| && CleanAt(start, p) && PassedTo(start, p, f.lines)
    modifies f
    ensures p < p' <= |start| && CleanAt(start, p') && PassedTo(start, p', f.lines)
    ensures counted ==> EmptyFrom(start, p) && LiveClosers(f.lines) < LiveClosers(old(f.lines))
    ensures !counted ==> f.lines == old(f.lines) && forall s :: p <= s < p' ==> !EmptyFrom(start, s)
  {
    counted := false;
    SameEmpty(start, p, f.lines);
    if !IsIf(f.lines[p]) {
      PassSkips(start, p, p + 1, f.lines);
      return p + 1, false;
    }
    var e, found := FindEndif(f, p);
    if found {
      DeleteIfdef(f, p, e, start);
      return e + 1, true;
    }
    if e < |f.lines| {
      PassSkips(start, p, p + 1, f.lines);
      return p + 1, false;
    }
    NothingAhead(start, p);
    PassSkips(start, p, e, f.lines);
    return e, false;
  }

  /** An `#if` at line `s`, deleted or not, and a live `#endif` at line `e`, with nothing live between them but
      `#else` lines, comments and blank lines. */
  ghost predicate EmptyIfdef(lines: seq<LineInfo>, s: int, e: int) {
    && 0 <= s < e < |lines| && (lines[s].kind == If || lines[s].kind == HeaderGuard)
    && !lines[e].deleted && lines[e].kind == Endif
    && forall i :: s < i < e ==>
         lines[i].deleted || lines[i].kind == Else || lines[i].kind == Comment || lines[i].kind == Blank
  }

  lemma EmptyIfdefIs(lines: seq<LineInfo>, s: int, e: int)
    ensures EmptyIfdef(lines, s, e) <==> EmptyFrom(lines, s) && EndOf(lines, s) == e
  {
    if EmptyIfdef(lines, s, e) {
      assert Significant(lines[e]);
      assert forall i :: s < i < e ==> !Significant(lines[i]);
    }
  }

  lemma EmptyIfdefGoes(a: seq<LineInfo>, b: seq<LineInfo>, s: int, e: int, i: int)
    requires Passed(a, b) && EmptyIfdef(a, s, e) && s <= i <= e
    ensures b[i].deleted
  {
    EmptyIfdefIs(a, s, e);
    var t := FirstFires(a, s);
    assert InRegion(a, t, i);
  }

  predicate CommentsAndBlanks(lines: seq<LineInfo>, lo: int, hi: int)
    requires 0 <= lo && hi <= |lines|
  {
    forall j :: lo <= j < hi ==> lines[j].kind == Comment || lines[j].kind == Blank
  }

  /** What the pass deletes is a line of an empty ifdef, or a comment or blank line that leads to one. */
  lemma OnlyEmptyIfdefs(a: seq<LineInfo>, b: seq<LineInfo>, i: int)
    requires Passed(a, b) && 0 <= i < |a| && b[i].deleted && !a[i].deleted
    ensures exists s, e :: EmptyIfdef(a, s, e) && i <= e && CommentsAndBlanks(a, i, s)
  {
    var s :| s < |a| && InRegion(a, s, i);
    EmptyIfdefIs(a, s, EndOf(a, s));
    forall j | i <= j < s ensures a[j].kind == Comment || a[j].kind == Blank { RegionPrefix(a, s, j); }
  }

  /** The lines from `r` on lead to the block at line `s`: the comments directly before it, unless they reach the top
      of the file, and blank lines before these. */
  ghost predicate LeadsTo(lines: seq<LineInfo>, r: int, s: int) {
    0 <= r <= s <= |lines| && exists c :: r <= c <= s && LeadsOver(lines, r, c, s)
  }

  ghost predicate LeadsOver(lines: seq<LineInfo>, r: int, c: int, s: int)
    requires 0 <= r <= c <= s <= |lines|
  {
    && (forall i :: r <= i < c ==> lines[i].kind == Blank)
    && (CommentsOf(lines, c, s) || (c == s && forall d :: !CommentsOf(lines, d, s)))
  }

  lemma {:induction false} BlanksLead(lines: seq<LineInfo>, r: int, c: int)
    requires 0 <= r <= c <= |lines| && forall i :: r <= i < c ==> lines[i].kind == Blank
    ensures BlankStart(lines, c) <= r
    decreases c
  {
    if r < c { BlanksLead(lines, r, c - 1); }
  }

  lemma LeadIsRegion(lines: seq<LineInfo>, r: int, s: int)
    requires LeadsTo(lines, r, s)
    ensures RegionStart(lines, s) <= r
  {
    var c :| r <= c <= s && LeadsOver(lines, r, c, s);
    StartOfIs(lines, s);
    BlanksLead(lines, r, c);
  }

  /** With an empty ifdef goes what leads to it, from the first `#if` for its `#endif`. */
  lemma LeadGoes(a: seq<LineInfo>, b: seq<LineInfo>, s: int, e: int, r: int, i: int)
    requires Passed(a, b) && EmptyIfdef(a, s, e) && (forall t :: !(t < s && EmptyIfdef(a, t, e)))
    requires LeadsTo(a, r, s) && r <= i < s
    ensures b[i].deleted
  {
    EmptyIfdefIs(a, s, e);
    LeadIsRegion(a, r, s);
    forall t | 0 <= t < s && EmptyFrom(a, t) ensures EndOf(a, t) != EndOf(a, s) { EmptyIfdefIs(a, t, e); }
    assert InRegion(a, s, i);
  }

  lemma EmptyIfdefs(lines: seq<LineInfo>)
    ensures (forall s :: !EmptyFrom(lines, s)) <==> forall s, e :: !EmptyIfdef(lines, s, e)
  {
    forall s, e ensures EmptyIfdef(lines, s, e) <==> EmptyFrom(lines, s) && EndOf(lines, s) == e {
      EmptyIfdefIs(lines, s, e);
    }
    if s :| EmptyFrom(lines, s) { assert EmptyIfdef(lines, s, EndOf(lines, s)); }
  }

  /** One pass over the ifdefs: every empty ifdef goes. Every counted deletion removes a live closing line. */
  method DeleteEmptyIfdefs(f: SourceFile) returns (num: nat)
    modifies f
    ensures Passed(old(f.lines), f.lines)
    ensures forall s, e, i :: EmptyIfdef(old(f.lines), s, e) && s <= i <= e ==> f.lines[i].deleted
    ensures num == 0 <==> forall s, e :: !EmptyIfdef(old(f.lines), s, e)
    ensures num + LiveClosers(f.lines) <= LiveClosers(old(f.lines))
    ensures num == 0 <==> forall s :: !EmptyFrom(old(f.lines), s)
  {
    ghost var start := f.lines;
    num := 0;
    var p := 0;
    while p < |f.lines|
      invariant 0 <= p <= |start| == |f.lines| && CleanAt(start, p) && PassedTo(start, p, f.lines)
      invariant num + LiveClosers(f.lines) <= LiveClosers(start)
      invariant num == 0 <==> forall s :: s < p ==> !EmptyFrom(start, s)
    {
      var counted;
      p, counted := IfdefStep(f, p, start);
      if counted {
        num := num + 1;
      }
    }
    forall s, e, i | EmptyIfdef(start, s, e) && s <= i <= e ensures f.lines[i].deleted {
      EmptyIfdefGoes(start, f.lines, s, e, i);
    }
    EmptyIfdefs(start);
  }

  /** A pass deletes nothing but the ifdefs and the comments and blank lines with them. */
  lemma PassSpares(a: seq<LineInfo>, b: seq<LineInfo>, i: int)
    requires Passed(a, b) && 0 <= i < |a| && b[i].deleted && !a[i].deleted
    ensures a[i].kind in {If, HeaderGuard, Else, Endif, Comment, Blank}
  {
    var s :| s < |a| && InRegion(a, s, i);
    if i < s { RegionPrefix(a, s, i); }
  }

  /** How deep line `i` stands in live ifdefs. */
  function Depth(lines: seq<LineInfo>, i: int): int
    requires i <= |lines|
  {
    if i <= 0 then 0
    else Depth(lines, i - 1) + Change(lines[i-1])
  }

  function Change(l: LineInfo): int {
    if IsLiveIf(l) then 1 else if IsLiveEndif(l) then -1 else 0
  }

  /** The live `#if` and `#endif` lines are well nested. */
  ghost predicate Nested(lines: seq<LineInfo>) {
    Depth(lines, |lines|) == 0 && forall i :: 0 <= i <= |lines| ==> Depth(lines, i) >= 0
  }

  ghost predicate LiveFire(lines: seq<LineInfo>, s: int) { Fires(lines, s) && !lines[s].deleted }

  ghost predicate DeadFire(lines: seq<LineInfo>, s: int) { Fires(lines, s) && lines[s].deleted }

  /** A deletion from a live `#if` ends at line `e`. */
  ghost predicate LiveEnd(lines: seq<LineInfo>, e: int) {
    exists s :: LiveFire(lines, s) && EndOf(lines, s) == e
  }

  /** A deletion from an `#if` that was already deleted ends at line `e`. */
  ghost predicate DeadEnd(lines: seq<LineInfo>, e: int) {
    exists s :: DeadFire(lines, s) && EndOf(lines, s) == e
  }

  /** Line `i` is between a deleted live `#if` and its `#endif`. */
  ghost predicate Inside(lines: seq<LineInfo>, i: int) {
    exists s :: LiveFire(lines, s) && s < i <= EndOf(lines, s)
  }

  /** The number of `#endif` lines before line `i` that are deleted without their `#if`. */
  ghost function Extra(lines: seq<LineInfo>, i: int): nat {
    if i <= 0 then 0 else Extra(lines, i - 1) + if DeadEnd(lines, i - 1) then 1 else 0
  }

  lemma OneEnd(lines: seq<LineInfo>, e: int)
    ensures !(LiveEnd(lines, e) && DeadEnd(lines, e))
    ensures LiveEnd(lines, e) || DeadEnd(lines, e) ==> 0 <= e < |lines| && IsLiveEndif(lines[e])
  {
  }

  /** A significant line ends what stands open before it. */
  lemma SignificantStops(lines: seq<LineInfo>, s: int, i: int)
    requires EmptyFrom(lines, s) && s < i < |lines| && Significant(lines[i])
    ensures EndOf(lines, s) <= i
  {
  }

  lemma LiveIfAfter(a: seq<LineInfo>, b: seq<LineInfo>, i: int)
    requires Passed(a, b) && 0 <= i < |a|
    ensures IsLiveIf(b[i]) <==> IsLiveIf(a[i]) && !LiveFire(a, i)
  {
    if IsLiveIf(a[i]) {
      if Fires(a, i) { assert InRegion(a, i, i); }
      if Removed(a, |a|, i) {
        var s :| s < |a| && InRegion(a, s, i);
        LiveIfOfRegion(a, s, i);
      }
    }
  }

  lemma LiveIfOfRegion(a: seq<LineInfo>, s: int, i: int)
    requires 0 <= i < |a| && IsLiveIf(a[i]) && InRegion(a, s, i)
    ensures s == i
  {
    if i < s { RegionPrefix(a, s, i); } else if s < i { SignificantStops(a, s, i); }
  }

  lemma LiveEndifAfter(a: seq<LineInfo>, b: seq<LineInfo>, i: int)
    requires Passed(a, b) && 0 <= i < |a|
    ensures IsLiveEndif(b[i]) <==> IsLiveEndif(a[i]) && !LiveEnd(a, i) && !DeadEnd(a, i)
  {
    if IsLiveEndif(a[i]) {
      EndifRemoved(a, i);
    }
  }

  lemma EndifRemoved(a: seq<LineInfo>, i: int)
    requires 0 <= i < |a| && IsLiveEndif(a[i])
    ensures Removed(a, |a|, i) <==> LiveEnd(a, i) || DeadEnd(a, i)
  {
    if s :| LiveFire(a, s) && EndOf(a, s) == i { assert InRegion(a, s, i); }
    if s :| DeadFire(a, s) && EndOf(a, s) == i { assert InRegion(a, s, i); }
    if Removed(a, |a|, i) {
      var s :| s < |a| && InRegion(a, s, i);
      EndifOfRegion(a, s, i);
    }
  }

  lemma EndifOfRegion(a: seq<LineInfo>, s: int, i: int)
    requires 0 <= i < |a| && IsLiveEndif(a[i]) && InRegion(a, s, i)
    ensures EndOf(a, s) == i && (LiveFire(a, s) || DeadFire(a, s))
  {
    if i < s { RegionPrefix(a, s, i); } else { SignificantStops(a, s, i); }
  }

  lemma InsideStep(lines: seq<LineInfo>, i: int)
    requires 0 <= i < |lines|
    ensures LiveFire(lines, i) ==> !Inside(lines, i) && Inside(lines, i + 1)
    ensures LiveEnd(lines, i) ==> Inside(lines, i) && !Inside(lines, i + 1)
    ensures !LiveFire(lines, i) && !LiveEnd(lines, i) ==> (Inside(lines, i) <==> Inside(lines, i + 1))
    ensures DeadEnd(lines, i) ==> !Inside(lines, i) && !Inside(lines, i + 1)
  {
    if Significant(lines[i]) {
      forall s | LiveFire(lines, s) && s < i <= EndOf(lines, s) ensures EndOf(lines, s) == i {
        SignificantStops(lines, s, i);
      }
    }
    OneEnd(lines, i);
    if LiveFire(lines, i) { assert i < i + 1 <= EndOf(lines, i); }
  }

  function Unit(b: bool): int { if b then 1 else 0 }

  lemma ChangeAfter(a: seq<LineInfo>, b: seq<LineInfo>, i: int)
    requires Passed(a, b) && 0 <= i < |a|
    ensures Change(b[i]) == Change(a[i]) + Unit(Inside(a, i)) - Unit(Inside(a, i + 1)) + Unit(DeadEnd(a, i))
  {
    InsideStep(a, i);
    LiveIfAfter(a, b, i);
    LiveEndifAfter(a, b, i);
    OneEnd(a, i);
  }

  /** The pass lowers the depth between the lines of a deleted pair, and raises it behind every
      `#endif` that it deletes without its `#if`. */
  lemma {:induction false} DepthAfter(a: seq<LineInfo>, b: seq<LineInfo>, i: int)
    requires Passed(a, b) && 0 <= i <= |a|
    ensures Depth(b, i) == Depth(a, i) - Unit(Inside(a, i)) + Extra(a, i)
  {
    if i > 0 {
      DepthAfter(a, b, i - 1);
      ChangeAfter(a, b, i - 1);
    } else {
      forall s | LiveFire(a, s) ensures s >= 0 {}
    }
  }

  /** What a caller can look up: every deleted `#if` directly before a live `#endif` has a live `#if`
      between itself and the beginning of the empty stretch. */
  ghost predicate NoStrayIf(lines: seq<LineInfo>) {
    forall s :: EmptyFrom(lines, s) && lines[s].deleted ==>
      exists q :: EmptyFrom(lines, q) && !lines[q].deleted && EndOf(lines, q) == EndOf(lines, s)
  }

  lemma {:induction false} FirstFires(lines: seq<LineInfo>, s: int) returns (t: int)
    requires EmptyFrom(lines, s)
    ensures t <= s && Fires(lines, t) && EndOf(lines, t) == EndOf(lines, s)
    decreases s
  {
    if u :| 0 <= u < s && EmptyFrom(lines, u) && EndOf(lines, u) == EndOf(lines, s) {
      t := FirstFires(lines, u);
    } else {
      t := s;
    }
  }

  lemma LiveIsFirst(lines: seq<LineInfo>, q: int)
    requires EmptyFrom(lines, q) && !lines[q].deleted
    ensures LiveFire(lines, q)
  {
    forall t | 0 <= t < q && EmptyFrom(lines, t) ensures EndOf(lines, t) != EndOf(lines, q) {
      SignificantStops(lines, t, q);
    }
  }

  lemma StrayIff(lines: seq<LineInfo>)
    ensures NoStrayIf(lines) <==> forall e :: !DeadEnd(lines, e)
  {
    if NoStrayIf(lines) {
      forall e ensures !DeadEnd(lines, e) {
        if s :| DeadFire(lines, s) && EndOf(lines, s) == e {
          var q :| EmptyFrom(lines, q) && !lines[q].deleted && EndOf(lines, q) == EndOf(lines, s);
          LiveIsFirst(lines, q);
          assert LiveEnd(lines, e);
          OneEnd(lines, e);
        }
      }
    } else {
      var s :| EmptyFrom(lines, s) && lines[s].deleted &&
        !exists q :: EmptyFrom(lines, q) && !lines[q].deleted && EndOf(lines, q) == EndOf(lines, s);
      var t := FirstFires(lines, s);
      assert DeadFire(lines, t);
      assert DeadEnd(lines, EndOf(lines, s));
    }
  }

  lemma {:induction false} ExtraNone(lines: seq<LineInfo>, i: int)
    requires forall e :: !DeadEnd(lines, e)
    ensures Extra(lines, i) == 0
  {
    if i > 0 { ExtraNone(lines, i - 1); }
  }

  lemma {:induction false} ExtraSome(lines: seq<LineInfo>, i: int, e: int)
    requires 0 <= e < i && DeadEnd(lines, e)
    ensures Extra(lines, i) > 0
  {
    if e < i - 1 { ExtraSome(lines, i - 1, e); }
  }

  lemma NothingInsideAtEnd(lines: seq<LineInfo>)
    ensures !Inside(lines, |lines|)
  {
  }

  /** Where a pair is deleted the depth was positive. */
  lemma InsideIsDeep(lines: seq<LineInfo>, i: int)
    requires Nested(lines) && 0 <= i <= |lines| && Inside(lines, i)
    ensures Depth(lines, i) >= 1
  {
    var s :| LiveFire(lines, s) && s < i <= EndOf(lines, s);
    FlatStretch(lines, s + 1, i);
    assert Depth(lines, s + 1) == Depth(lines, s) + 1;
  }

  lemma {:induction false} FlatStretch(lines: seq<LineInfo>, lo: int, hi: int)
    requires 0 <= lo <= hi <= |lines| && hi <= NextSig(lines, lo)
    ensures Depth(lines, hi) == Depth(lines, lo)
    decreases hi - lo
  {
    if lo < hi {
      assert !Significant(lines[hi-1]);
      FlatStretch(lines, lo, hi - 1);
    }
  }

  /** One pass keeps the live ifdefs well nested exactly when no stray deleted `#if` is in its way. */
  lemma PassKeepsNesting(a: seq<LineInfo>, b: seq<LineInfo>)
    requires Passed(a, b) && Nested(a)
    ensures Nested(b) <==> NoStrayIf(a)
  {
    StrayIff(a);
    DepthAfter(a, b, |a|);
    NothingInsideAtEnd(a);
    if NoStrayIf(a) {
      forall i | 0 <= i <= |a| ensures Depth(b, i) >= 0 && Extra(a, i) == 0 {
        DepthAfter(a, b, i);
        ExtraNone(a, i);
        if Inside(a, i) { InsideIsDeep(a, i); }
      }
    } else {
      var e :| DeadEnd(a, e);
      OneEnd(a, e);
      ExtraSome(a, |a|, e);
    }
  }

  /** In particular a pass over a file without deleted `#if` lines does. */
  lemma FirstPassKeepsNesting(a: seq<LineInfo>, b: seq<LineInfo>)
    requires Passed(a, b) && Nested(a) && forall i :: 0 <= i < |a| && IsIf(a[i]) ==> !a[i].deleted
    ensures Nested(b)
  {
    PassKeepsNesting(a, b);
  }

  function Plain(kind: Kind): LineInfo { LineInfo(kind, false, false, 0, 1, false, None, None) }

  /** An ifdef around code and around an empty ifdef. */
  const TWO_LEVELS: seq<LineInfo> := [Plain(If), Plain(Code), Plain(If), Plain(Endif), Plain(Endif)]

  lemma FirstLevel(b: seq<LineInfo>)
    requires Passed(TWO_LEVELS, b)
    ensures |b| == 5 && !b[0].deleted && !b[1].deleted && b[2].deleted && b[3].deleted && !b[4].deleted
  {
    var a := TWO_LEVELS;
    assert NextSig(a, 1) == 1 && NextSig(a, 3) == 3;
    assert EmptyFrom(a, 2) && EndOf(a, 2) == 3;
    forall s | s != 2 ensures !EmptyFrom(a, s) {}
    assert Fires(a, 2) && RegionStart(a, 2) == 2;
    assert InRegion(a, 2, 2) && InRegion(a, 2, 3);
  }

  lemma TwoLevelsNested()
    ensures Nested(TWO_LEVELS)
  {
    var a := TWO_LEVELS;
    assert Depth(a, 0) == 0;
    assert Depth(a, 1) == 1;
    assert Depth(a, 2) == 1;
    assert Depth(a, 3) == 2;
    assert Depth(a, 4) == 1;
  }

  lemma InnerIsStray(b: seq<LineInfo>)
    requires |b| == 5 && forall i :: 0 <= i < 5 ==> b[i].kind == TWO_LEVELS[i].kind
    requires !b[0].deleted && !b[1].deleted && b[2].deleted && b[3].deleted && !b[4].deleted
    ensures !NoStrayIf(b)
  {
    assert NextSig(b, 1) == 1;
    assert NextSig(b, 4) == 4;
    assert NextSig(b, 3) == 4;
    assert EmptyFrom(b, 2) && b[2].deleted && EndOf(b, 2) == 4;
    forall q | EmptyFrom(b, q) ensures q == 2 {
      assert q == 0 || q == 2;
    }
  }

  /** Repeating the pass does break the nesting: the second pass starts again at the deleted inner
      `#if` and deletes the outer `#endif`. */
  lemma SecondPassBreaks(b: seq<LineInfo>, c: seq<LineInfo>)
    requires Passed(TWO_LEVELS, b) && Passed(b, c)
    ensures Nested(TWO_LEVELS) && Nested(b) && !Nested(c)
  {
    TwoLevelsNested();
    FirstPassKeepsNesting(TWO_LEVELS, b);
    FirstLevel(b);
    InnerIsStray(b);
    PassKeepsNesting(b, c);
  }

  /** Empty namespaces are found only behind an unclosed one. */
  ghost predicate NoneInReach(lines: seq<LineInfo>) {
    forall s :: EmptyNamespace(lines, s) ==> exists t :: t < s && Unclosed(lines, t)
  }

  ghost predicate Marked(s: int) { true }

  /** The empty namespaces that a pass deletes: none lies in another one or behind an unclosed one. The
      quantifier keeps this out of the way of proofs that do not mark `s`. */
  ghost predicate Outermost(lines: seq<LineInfo>, s: int)
    decreases s
  {
    forall q {:trigger Marked(q)} :: Marked(q) && q == s ==>
      && EmptyNamespace(lines, q) && (forall t :: 0 <= t < q ==> !Unclosed(lines, t))
      && forall t :: 0 <= t < q < |lines| && Outermost(lines, t) ==> EndLine(lines, t) <= q
  }

  lemma OutermostIs(lines: seq<LineInfo>, s: int)
    ensures Outermost(lines, s) <==>
      && EmptyNamespace(lines, s) && (forall t :: 0 <= t < s ==> !Unclosed(lines, t))
      && forall t :: 0 <= t < s < |lines| && Outermost(lines, t) ==> EndLine(lines, t) <= s
  {
    assert Marked(s);
  }

  /** The pass deletes no namespace that begins before line `p`. */
  ghost predicate NoneBefore(lines: seq<LineInfo>, p: int) {
    forall s :: 0 <= s < p <= |lines| ==> !Outermost(lines, s)
  }

  /** Line `i` goes with the empty namespace at `s`. */
  ghost predicate InNamespace(lines: seq<LineInfo>, s: int, i: int) {
    0 <= s < |lines| && Outermost(lines, s) && RegionStart(lines, s) <= i < EndLine(lines, s)
  }

  /** Line `i` goes with an empty namespace that starts before line `p`. */
  ghost predicate NamespaceGone(lines: seq<LineInfo>, p: int, i: int) {
    exists s :: s < p && InNamespace(lines, s, i)
  }

  /** `b` is `a` after the pass over the namespaces has reached line `p`. */
  ghost predicate ClearedTo(a: seq<LineInfo>, p: int, b: seq<LineInfo>) {
    |b| == |a| && forall i :: 0 <= i < |a| ==> b[i] == a[i].(deleted := a[i].deleted || NamespaceGone(a, p, i))
  }

  /** `b` is `a` after one pass over the namespaces. */
  ghost predicate Cleared(a: seq<LineInfo>, b: seq<LineInfo>) {
    ClearedTo(a, |a|, b)
  }

  /** The pass comes to line `p`: nothing before it is unclosed or reaches beyond it. */
  ghost predicate Comes(lines: seq<LineInfo>, p: int) {
    && (forall t :: 0 <= t < p ==> !Unclosed(lines, t))
    && forall t :: 0 <= t < p <= |lines| && Outermost(lines, t) ==> EndLine(lines, t) <= p
  }

  lemma FirstIsOutermost(lines: seq<LineInfo>, p: int)
    requires Comes(lines, p) && EmptyNamespace(lines, p)
    ensures Outermost(lines, p)
  {
    OutermostIs(lines, p);
  }

  lemma NoneInside(lines: seq<LineInfo>, p: int, t: int)
    requires Outermost(lines, p) && EmptyNamespace(lines, p) && p < t < EndLine(lines, p)
    ensures !Outermost(lines, t) && !Unclosed(lines, t)
  {
    OutermostIs(lines, t);
    if OpensAt(lines, t) { ScanInside(lines, p + 1, Opening(lines[p]), t); }
  }

  lemma ComesBehind(lines: seq<LineInfo>, p: int)
    requires Comes(lines, p) && EmptyNamespace(lines, p)
    ensures Comes(lines, EndLine(lines, p))
  {
    FirstIsOutermost(lines, p);
    forall t | p < t < EndLine(lines, p)
      ensures !Outermost(lines, t) && !Unclosed(lines, t)
    {
      NoneInside(lines, p, t);
    }
  }

  /** The pass deletes the empty namespace at line `p`. */
  lemma GoneNext(lines: seq<LineInfo>, p: int, i: int)
    requires Comes(lines, p) && EmptyNamespace(lines, p)
    ensures NamespaceGone(lines, EndLine(lines, p), i) <==>
      NamespaceGone(lines, p, i) || RegionStart(lines, p) <= i < EndLine(lines, p)
  {
    var e := EndLine(lines, p);
    FirstIsOutermost(lines, p);
    forall t | p < t < e ensures !Outermost(lines, t) { NoneInside(lines, p, t); }
    if RegionStart(lines, p) <= i < e { assert InNamespace(lines, p, i); }
  }

  /** It goes on to the next line when there is nothing to delete. */
  lemma GoneSame(lines: seq<LineInfo>, p: int, i: int)
    requires 0 <= p < |lines| && Comes(lines, p) && !EmptyNamespace(lines, p) && !Unclosed(lines, p)
    ensures Comes(lines, p + 1) && !Outermost(lines, p)
    ensures NamespaceGone(lines, p + 1, i) <==> NamespaceGone(lines, p, i)
  {
    OutermostIs(lines, p);
  }

  /** It ends at an unclosed namespace. */
  lemma GoneLast(lines: seq<LineInfo>, p: int, i: int)
    requires Unclosed(lines, p)
    ensures forall s :: p <= s ==> !Outermost(lines, s)
    ensures NamespaceGone(lines, |lines|, i) <==> NamespaceGone(lines, p, i)
  {
    forall s | p <= s ensures !Outermost(lines, s) { OutermostIs(lines, s); }
  }

  /** The lines from `p` on are untouched. */
  lemma SameNamespace(a: seq<LineInfo>, p: int, b: seq<LineInfo>)
    requires 0 <= p < |a| && Comes(a, p) && ClearedTo(a, p, b)
    ensures b[p] == a[p] && NamespaceScan(b, p + 1, Opening(b[p])) == NamespaceScan(a, p + 1, Opening(a[p]))
    ensures RegionStart(b, p) == RegionStart(a, p)
    ensures forall i :: p <= i < |a| ==> b[i] == a[i]
  {
    forall i | p <= i < |a| ensures a[i] == b[i] {}
    SameScan(a, b, p + 1, Opening(a[p]));
    SameRegion(a, b, p);
  }

  /** The pass at line `p`, after `num` deletions, for proofs that mark `p`. */
  ghost predicate Progress(a: seq<LineInfo>, p: int, b: seq<LineInfo>, num: nat) {
    forall q {:trigger Marked(q)} :: Marked(q) && q == p ==> ProgressIs(a, q, b, num)
  }

  ghost predicate ProgressIs(a: seq<LineInfo>, p: int, b: seq<LineInfo>, num: nat) {
    && 0 <= p <= |a| && (p < |a| ==> Comes(a, p)) && ClearedTo(a, p, b)
    && num + LiveClosers(b) <= LiveClosers(a) && (num == 0 <==> NoneBefore(a, p))
  }

  /** What the pass sees at line `p` is what was there. */
  lemma ProgressSees(a: seq<LineInfo>, p: int, b: seq<LineInfo>, num: nat)
    requires Progress(a, p, b, num) && 0 <= p < |a|
    ensures |b| == |a| && b[p] == a[p] && RegionStart(b, p) == RegionStart(a, p)
    ensures NamespaceScan(b, p + 1, Opening(b[p])) == NamespaceScan(a, p + 1, Opening(a[p]))
  {
    assert Marked(p);
    SameNamespace(a, p, b);
  }

  lemma ProgressSkips(a: seq<LineInfo>, p: int, b: seq<LineInfo>, num: nat)
    requires Progress(a, p, b, num) && 0 <= p < |a| && !EmptyNamespace(a, p) && !Unclosed(a, p)
    ensures Progress(a, p + 1, b, num)
  {
    assert Marked(p);
    GoneSame(a, p, 0);
    forall i | 0 <= i < |a| ensures NamespaceGone(a, p + 1, i) <==> NamespaceGone(a, p, i) { GoneSame(a, p, i); }
  }

  lemma ProgressEnds(a: seq<LineInfo>, p: int, b: seq<LineInfo>, num: nat)
    requires Progress(a, p, b, num) && Unclosed(a, p)
    ensures Progress(a, |a|, b, num)
  {
    assert Marked(p);
    GoneLast(a, p, 0);
    forall i | 0 <= i < |a| ensures NamespaceGone(a, |a|, i) <==> NamespaceGone(a, p, i) { GoneLast(a, p, i); }
  }

  lemma ClearedNext(a: seq<LineInfo>, p: int, b: seq<LineInfo>, c: seq<LineInfo>)
    requires 0 <= p < |a| && Comes(a, p) && ClearedTo(a, p, b) && EmptyNamespace(a, p) && |c| == |b|
    requires forall i :: 0 <= i < |b| ==>
      c[i] == if RegionStart(a, p) <= i < EndLine(a, p) then b[i].(deleted := true) else b[i]
    ensures ClearedTo(a, EndLine(a, p), c)
  {
    forall i | 0 <= i < |a| ensures c[i] == a[i].(deleted := a[i].deleted || NamespaceGone(a, EndLine(a, p), i)) {
      GoneNext(a, p, i);
    }
  }

  lemma RegionCloses(a: seq<LineInfo>, p: int, b: seq<LineInfo>, c: seq<LineInfo>)
    requires 0 <= p < |a| && Comes(a, p) && ClearedTo(a, p, b) && EmptyNamespace(a, p) && |c| == |b|
    requires forall i :: 0 <= i < |b| ==>
      c[i] == if RegionStart(a, p) <= i < EndLine(a, p) then b[i].(deleted := true) else b[i]
    ensures LiveClosers(c) < LiveClosers(b)
  {
    var e := EndLine(a, p) - 1;
    SameNamespace(a, p, b);
    assert b[e] == a[e] && IsCloser(a[e]);
    FewerClosers(b, c, e);
  }

  lemma ProgressDeletes(a: seq<LineInfo>, p: int, b: seq<LineInfo>, num: nat, c: seq<LineInfo>)
    requires Progress(a, p, b, num) && EmptyNamespace(a, p) && |c| == |b|
    requires forall i :: 0 <= i < |b| ==>
      c[i] == if RegionStart(a, p) <= i < EndLine(a, p) then b[i].(deleted := true) else b[i]
    ensures Progress(a, EndLine(a, p), c, num + 1)
  {
    assert Marked(p);
    ClearedNext(a, p, b, c);
    RegionCloses(a, p, b, c);
    ComesBehind(a, p);
    FirstIsOutermost(a, p);
    assert p < EndLine(a, p);
  }

  lemma LiesInOutermost(lines: seq<LineInfo>, s: int)
    requires EmptyNamespace(lines, s) && forall t :: t < s ==> !Unclosed(lines, t)
    ensures exists t :: 0 <= t < |lines| && Outermost(lines, t)
  {
    OutermostIs(lines, s);
  }

  /** A pass finds nothing to delete exactly when every empty namespace is behind an unclosed one. */
  lemma NothingOutermost(lines: seq<LineInfo>)
    ensures NoneInReach(lines) <==> NoneBefore(lines, |lines|)
  {
    if s :| EmptyNamespace(lines, s) && forall t :: t < s ==> !Unclosed(lines, t) {
      LiesInOutermost(lines, s);
    }
    if s :| 0 <= s < |lines| && Outermost(lines, s) {
      OutermostIs(lines, s);
    }
  }

  /** One step of the pass at line `p`. */
  method NamespaceStep(f: SourceFile, p: int, num: nat, ghost start: seq<LineInfo>) returns (p': int, num': nat)
    requires Progress(start, p, f.lines, num) && 0 <= p < |start|
    modifies f
    ensures p < p' <= |start| && |f.lines| == |start| && Progress(start, p', f.lines, num')
  {
    ProgressSees(start, p, f.lines, num);
    if f.lines[p].deleted || !IsNamespaceStart(f.lines[p].kind) {
      ProgressSkips(start, p, f.lines, num);
      return p + 1, num;
    }
    var e, found, bailed := FindNamespaceEnd(f.lines, p);
    if found {
      ghost var before := f.lines;
      var r := FindRegionStart(f, p);
      DeleteRange(f, r, e);
      ProgressDeletes(start, p, before, num, f.lines);
      return e, num + 1;
    }
    if bailed {
      ProgressSkips(start, p, f.lines, num);
      return p + 1, num;
    }
    ProgressEnds(start, p, f.lines, num);
    return e, num;
  }

  lemma ReachesEnd(lines: seq<LineInfo>, t: int, s: int, e: int)
    requires 0 <= t < s < e < |lines| && Outermost(lines, t) && s < EndLine(lines, t) && Whole(lines, s, e)
    ensures e < EndLine(lines, t)
  {
    OutermostIs(lines, t);
    ScanReaches(lines, t + 1, Opening(lines[t]), s, e);
  }

  /** An empty namespace lies in one that the pass deletes. */
  lemma LiesIn(lines: seq<LineInfo>, s: int, e: int) returns (t: int)
    requires 0 <= s < e < |lines| && Whole(lines, s, e) && forall t :: 0 <= t < s ==> !Unclosed(lines, t)
    ensures 0 <= t <= s && Outermost(lines, t) && e < EndLine(lines, t)
  {
    WholeIsEmpty(lines, s, e);
    OutermostIs(lines, s);
    if Outermost(lines, s) {
      t := s;
    } else {
      t :| 0 <= t < s && Outermost(lines, t) && s < EndLine(lines, t);
      ReachesEnd(lines, t, s, e);
    }
  }

  lemma WholeGoes(a: seq<LineInfo>, b: seq<LineInfo>, s: int, e: int, i: int)
    requires Cleared(a, b) && 0 <= s < e < |a| && Whole(a, s, e) && s <= i <= e
    requires forall t :: 0 <= t < s ==> !Unclosed(a, t)
    ensures b[i].deleted
  {
    var t := LiesIn(a, s, e);
    assert InNamespace(a, t, i);
  }

  /** With an outermost empty namespace goes what leads to it. */
  lemma NamespaceLeadGoes(a: seq<LineInfo>, b: seq<LineInfo>, s: int, r: int, i: int)
    requires Cleared(a, b) && 0 <= s < |a| && Outermost(a, s) && LeadsTo(a, r, s) && r <= i < s
    ensures b[i].deleted
  {
    LeadIsRegion(a, r, s);
    assert InNamespace(a, s, i);
  }

  lemma WholeInReach(lines: seq<LineInfo>, s: int, e: int)
    requires NoneInReach(lines) && 0 <= s < e < |lines| && Whole(lines, s, e)
    ensures OnlyNamespacesBehind(lines, s)
  {
    WholeIsEmpty(lines, s, e);
    var t :| t < s && Unclosed(lines, t);
    UnclosedIsLast(lines, t);
  }

  /** One pass over the namespaces: every empty one goes, unless nothing but namespaces follows it to the end of the
      file. Every counted deletion removes a live closing line. */
  method DeleteEmptyNamespaces(f: SourceFile) returns (num: nat)
    modifies f
    ensures Cleared(old(f.lines), f.lines)
    ensures forall s, e, i :: 0 <= s <= i <= e < |f.lines| && s < e && Whole(old(f.lines), s, e) ==>
      f.lines[i].deleted || OnlyNamespacesBehind(old(f.lines), s)
    ensures num + LiveClosers(f.lines) <= LiveClosers(old(f.lines))
    ensures num == 0 <==> NoneInReach(old(f.lines))
  {
    ghost var start := f.lines;
    num := 0;
    var p := 0;
    while p < |f.lines|
      invariant 0 <= p <= |f.lines| == |start| && Progress(start, p, f.lines, num)
    {
      p, num := NamespaceStep(f, p, num, start);
    }
    assert Marked(p);
    NothingOutermost(start);
    forall s, e, i | 0 <= s <= i <= e < |start| && s < e && Whole(start, s, e)
      ensures f.lines[i].deleted || OnlyNamespacesBehind(start, s)
    {
      if t :| 0 <= t < s && Unclosed(start, t) {
        UnclosedIsLast(start, t);
      } else {
        WholeGoes(start, f.lines, s, e, i);
      }
    }
  }

  /** Only namespace lines, comments and blank lines go. */
  lemma ClearSpares(a: seq<LineInfo>, b: seq<LineInfo>, i: int)
    requires Cleared(a, b) && 0 <= i < |a| && b[i].deleted && !a[i].deleted
    ensures InsideNamespace(a[i].kind)
  {
    var s :| s < |a| && InNamespace(a, s, i);
    GoneKind(a, s, i);
  }

  lemma GoneKind(lines: seq<LineInfo>, s: int, i: int)
    requires InNamespace(lines, s, i) && 0 <= i < |lines|
    ensures lines[i].deleted || InsideNamespace(lines[i].kind)
  {
    OutermostIs(lines, s);
    if i < s { RegionPrefix(lines, s, i); } else if s < i { NamespaceBetween(lines, s + 1, Opening(lines[s]), i); }
  }

  lemma ClearSparesAll(a: seq<LineInfo>, b: seq<LineInfo>)
    requires Cleared(a, b)
    ensures SparedStay(a, b)
  {
    forall i | 0 <= i < |a| && Spared(a[i].kind) ensures b[i] == a[i] {
      if b[i].deleted && !a[i].deleted { ClearSpares(a, b, i); }
    }
  }

  lemma ClearIdle(a: seq<LineInfo>, b: seq<LineInfo>)
    requires Cleared(a, b) && NoneInReach(a)
    ensures b == a
  {
    NothingOutermost(a);
    forall i | 0 <= i < |a| ensures b[i] == a[i] { NothingGone(a, i); }
  }

  lemma NothingGone(lines: seq<LineInfo>, i: int)
    requires NoneBefore(lines, |lines|)
    ensures !NamespaceGone(lines, |lines|, i)
  {
  }

  /** An unclosed namespace does hide an empty one. */
  lemma HiddenBehind(lines: seq<LineInfo>)
    requires |lines| == 3 && lines[0].kind == lines[1].kind == NamespaceStart && lines[2].kind == NamespaceEnd
    requires forall i :: 0 <= i < 3 ==> !lines[i].deleted && lines[i].braces == 1
    ensures EmptyNamespace(lines, 1) && NoneInReach(lines)
  {
    assert NamespaceScan(lines, 3, 1) == RanOut;
    assert NamespaceScan(lines, 2, 2) == RanOut;
    assert NamespaceScan(lines, 1, 1) == RanOut;
    assert Unclosed(lines, 0);
  }

  /** Lines of these kinds are never deleted by the loop. */
  predicate Spared(k: Kind) { k == Include || k == ForwardDeclare || k == Code }

  ghost predicate SparedStay(a: seq<LineInfo>, b: seq<LineInfo>) {
    MoreDeleted(a, b) && forall i :: 0 <= i < |a| && Spared(a[i].kind) ==> b[i] == a[i]
  }

  lemma PassSparesAll(a: seq<LineInfo>, b: seq<LineInfo>)
    requires Passed(a, b)
    ensures SparedStay(a, b)
  {
    forall i | 0 <= i < |a| && Spared(a[i].kind) ensures b[i] == a[i] {
      if b[i].deleted && !a[i].deleted { PassSpares(a, b, i); }
    }
  }

  lemma PassIdle(a: seq<LineInfo>, b: seq<LineInfo>)
    requires Passed(a, b) && forall s :: !EmptyFrom(a, s)
    ensures b == a
  {
  }

  lemma RoundSpares(start: seq<LineInfo>, a: seq<LineInfo>, b: seq<LineInfo>, c: seq<LineInfo>)
    requires SparedStay(start, a) && Cleared(a, b) && Passed(b, c)
    ensures SparedStay(start, c)
  {
    ClearSparesAll(a, b);
    PassSparesAll(b, c);
  }

  /** A pass over the namespaces and then one over the ifdefs. */
  ghost predicate Round(a: seq<LineInfo>, c: seq<LineInfo>) {
    exists b :: Cleared(a, b) && Passed(b, c)
  }

  ghost predicate Rounds(trace: seq<seq<LineInfo>>) {
    trace != [] && forall i :: 0 < i < |trace| ==> Round(trace[i-1], trace[i])
  }

  /** No empty ifdef is left, and an empty namespace only where nothing but namespaces follows. */
  ghost predicate NothingEmpty(lines: seq<LineInfo>) {
    && (forall s, e :: !EmptyIfdef(lines, s, e))
    && forall s, e :: 0 <= s < e < |lines| && Whole(lines, s, e) ==> OnlyNamespacesBehind(lines, s)
  }

  /** Deleting blank lines leaves no new one. */
  lemma StillNothing(a: seq<LineInfo>, b: seq<LineInfo>)
    requires BlanksAside(a, b) && NothingEmpty(a)
    ensures NothingEmpty(b)
  {
    forall s, e ensures !EmptyIfdef(b, s, e) {
      if EmptyIfdef(b, s, e) { assert EmptyIfdef(a, s, e); }
    }
    forall s, e | 0 <= s < e < |b| && Whole(b, s, e) ensures OnlyNamespacesBehind(b, s) {
      SameWhole(a, b, s, e);
      assert OnlyNamespacesBehind(a, s);
    }
  }

  /** A file without ifdefs and namespaces. */
  predicate NoBlocks(lines: seq<LineInfo>) {
    forall i :: 0 <= i < |lines| ==>
      lines[i].kind !in {If, HeaderGuard, NamespaceStart, NamespaceStartMixed, NamespaceStartAllman}
  }

  lemma NoBlocksEmpty(lines: seq<LineInfo>)
    requires NoBlocks(lines)
    ensures NoneInReach(lines) && forall s :: !EmptyFrom(lines, s)
  {
  }

  lemma NothingLeft(lines: seq<LineInfo>)
    requires (forall s :: !EmptyFrom(lines, s)) && NoneInReach(lines)
    ensures forall s, e :: !EmptyIfdef(lines, s, e)
    ensures forall s, e :: 0 <= s < e < |lines| && Whole(lines, s, e) ==> OnlyNamespacesBehind(lines, s)
  {
    EmptyIfdefs(lines);
    forall s, e | 0 <= s < e < |lines| && Whole(lines, s, e) ensures OnlyNamespacesBehind(lines, s) {
      WholeInReach(lines, s, e);
    }
  }

  /** The rounds so far lead from `start` to `lines`. */
  ghost predicate History(trace: seq<seq<LineInfo>>, start: seq<LineInfo>, lines: seq<LineInfo>) {
    && Rounds(trace) && trace[0] == start && trace[|trace|-1] == lines
    && SparedStay(start, lines) && (NoBlocks(start) ==> lines == start)
  }

  ghost predicate Recalled(trace: seq<seq<LineInfo>>, i: int) { true }

  /** `History`, kept out of the way of proofs that do not mention `Recalled`. */
  ghost predicate Past(trace: seq<seq<LineInfo>>, start: seq<LineInfo>, lines: seq<LineInfo>) {
    forall i {:trigger Recalled(trace, i)} :: Recalled(trace, i) ==> History(trace, start, lines)
  }

  lemma PastGrows(trace: seq<seq<LineInfo>>, start: seq<LineInfo>, a: seq<LineInfo>, b: seq<LineInfo>,
                  c: seq<LineInfo>)
    requires Past(trace, start, a) && Cleared(a, b) && Passed(b, c)
    ensures Past(trace + [c], start, c)
  {
    assert Recalled(trace, 0);
    RoundSpares(start, a, b, c);
    if NoBlocks(start) { IdleRound(a, b, c); }
    assert Round(a, c);
    assert History(trace + [c], start, c);
  }

  lemma IdleRound(a: seq<LineInfo>, b: seq<LineInfo>, c: seq<LineInfo>)
    requires NoBlocks(a) && Cleared(a, b) && Passed(b, c)
    ensures c == a
  {
    NoBlocksEmpty(a);
    ClearIdle(a, b);
    PassIdle(b, c);
  }

  /** The body of the loop below. */
  method DeleteOnce(f: SourceFile, ghost trace: seq<seq<LineInfo>>, ghost start: seq<LineInfo>) returns (num: nat)
    requires Past(trace, start, f.lines)
    modifies f
    ensures Past(trace + [f.lines], start, f.lines)
    ensures num + LiveClosers(f.lines) <= LiveClosers(old(f.lines))
    ensures num == 0 ==> (forall s :: !EmptyFrom(f.lines, s)) && NoneInReach(f.lines)
  {
    ghost var before := f.lines;
    num := DeleteEmptyNamespaces(f);
    ghost var between := f.lines;
    var more := DeleteEmptyIfdefs(f);
    PastGrows(trace, start, before, between, f.lines);
    num := num + more;
    if num == 0 {
      ClearIdle(before, between);
      PassIdle(between, f.lines);
    }
  }

  /** Repeats both passes until they delete nothing; `trace` lists the file after every round. The loop ends
      because every counted deletion removes a live closing line. Then no empty ifdef is left, and an empty
      namespace only behind an unclosed one. */
  method DeleteEmptyBlocks(f: SourceFile) returns (ghost trace: seq<seq<LineInfo>>)
    modifies f
    ensures Rounds(trace) && trace[0] == old(f.lines) && trace[|trace|-1] == f.lines
    ensures SparedStay(old(f.lines), f.lines)
    ensures (forall s :: !EmptyFrom(f.lines, s)) && NoneInReach(f.lines)
    ensures forall s, e :: !EmptyIfdef(f.lines, s, e)
    ensures forall s, e :: 0 <= s < e < |f.lines| && Whole(f.lines, s, e) ==> OnlyNamespacesBehind(f.lines, s)
    ensures NoBlocks(old(f.lines)) ==> f.lines == old(f.lines)
  {
    ghost var start := f.lines;
    trace := [start];
    assert History(trace, start, start);
    while true
      invariant Past(trace, start, f.lines)
      decreases LiveClosers(f.lines)
    {
      var num := DeleteOnce(f, trace, start);
      trace := trace + [f.lines];
      if num == 0 {
        assert Recalled(trace, 0);
        NothingLeft(f.lines);
        return;
      }
    }
  }
}
