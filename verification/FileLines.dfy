/** The classified lines of a source file, as build_support/fix_includes.py keeps them. */
module FileLines {
  import opened Records

  /** The line types that the rewriting functions tell apart. */
  datatype Kind = Include | ForwardDeclare | Comment | Blank
                | NamespaceStart | NamespaceStartMixed | NamespaceStartAllman | NamespaceContinue | NamespaceEnd
                | If | HeaderGuard | GuardDefine | PragmaOnce | Else | Endif | Code

  /** The lines from `lo` up to, not including, `hi`. */
  datatype Span = Span(lo: int, hi: int)

  /** How includes are ranked: the main include, C system, C++ system, other and project includes. */
  type Rank = n: int | 1 <= n <= 5 witness 1

  /** `barrier` says that the text matches the barrier pattern, `braces` counts the braces of a namespace
      line, `rank` belongs to an include and `nested` to a declaration inside a class. */
  datatype LineInfo = LineInfo(kind: Kind, deleted: bool, barrier: bool, braces: nat, rank: Rank, nested: bool,
                               moveSpan: Option<Span>, reorderSpan: Option<Span>)

  /** How many braces a namespace line counts for; a macro counts for one. */
  function Braces(l: LineInfo): (r: int)
    ensures r >= 1
  {
    if l.braces > 1 then l.braces else 1
  }

  class SourceFile {
    var lines: seq<LineInfo>

    constructor (lines: seq<LineInfo>)
      ensures this.lines == lines
    {
      this.lines := lines;
    }
  }

  predicate In(i: int, s: Span) { s.lo <= i < s.hi }

  predicate Within(s: Span, n: int) { 0 <= s.lo < s.hi <= n }

  predicate Apart(s: Span, t: Span) { s.hi <= t.lo || t.hi <= s.lo }

  /** `b` is `a` with some lines deleted. */
  ghost predicate MoreDeleted(a: seq<LineInfo>, b: seq<LineInfo>) {
    && |b| == |a|
    && forall i :: 0 <= i < |a| ==> (a[i].deleted ==> b[i].deleted) && b[i] == a[i].(deleted := b[i].deleted)
  }
}
