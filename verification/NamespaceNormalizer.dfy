/** `_NormalizeNamespaceForwardDeclareLines` of build_support/fix_includes.py: collects the
    declarations of adjacent one-line namespaces into nested blocks. */
module NamespaceNormalizer {
  import opened Records

  type Path = seq<string>

  /** A line ready for output. `path` lists the namespaces it opens on its own, and `decl` is its
      innermost part, if the line has one. */
  datatype Line = Line(path: Path, text: string, decl: Option<string>)

  datatype Token = OpenNs(name: string) | CloseNs(name: string) | Text(text: string)

  datatype Result = Normalized(tokens: seq<Token>) | Malformed(line: Line)

  /** A declaration and the namespaces around it. */
  datatype Item = Item(path: Path, text: string)

  const SENTINEL := Line([], "", None)

  predicate WellFormed(l: Line) { l.path != [] ==> l.decl.Some? }

  function Content(l: Line): string {
    if l.path != [] && l.decl.Some? then l.decl.value else l.text
  }

  function Items(lines: seq<Line>): (r: seq<Item>) {
    seq(|lines|, i requires 0 <= i < |lines| => Item(lines[i].path, Content(lines[i])))
  }

  function Paths(items: seq<Item>): (r: seq<Path>) {
    seq(|items|, i requires 0 <= i < |items| => items[i].path)
  }

  datatype Reading = Reading(items: seq<Item>, stack: Path)

  /** Reads output back with a stack of open namespaces. `None` when a namespace is closed that is not
      the innermost open one. */
  function Read(ts: seq<Token>, stack: Path): Option<Reading> {
    if ts == [] then Some(Reading([], stack))
    else match ts[0]
      case OpenNs(name) => Read(ts[1..], stack + [name])
      case CloseNs(name) =>
        if stack != [] && stack[|stack|-1] == name then Read(ts[1..], stack[..|stack|-1]) else None
      case Text(text) =>
        var rest := Read(ts[1..], stack);
        if rest.None? then None
        else Some(Reading([Item(stack, text)] + rest.value.items, rest.value.stack))
  }

  lemma {:induction false} ReadConcat(a: seq<Token>, b: seq<Token>, stack: Path)
    requires Read(a, stack).Some?
    ensures var m := Read(a, stack).value; var r := Read(b, m.stack);
      Read(a + b, stack) == if r.None? then None else Some(Reading(m.items + r.value.items, r.value.stack))
  {
    if a == [] {
      assert a + b == b;
      var r := Read(b, stack);
      assert r.Some? ==> [] + r.value.items == r.value.items;
    } else {
      assert (a + b)[1..] == a[1..] + b;
      var stack' := match a[0]
        case OpenNs(name) => stack + [name]
        case CloseNs(name) => stack[..|stack|-1]
        case Text(text) => stack;
      ReadConcat(a[1..], b, stack');
      if a[0].Text? {
        var m, r := Read(a[1..], stack).value, Read(b, Read(a[1..], stack).value.stack);
        if r.Some? {
          var first := [Item(stack, a[0].text)];
          assert first + (m.items + r.value.items) == first + m.items + r.value.items;
        }
      }
    }
  }

  lemma ReadBoth(a: seq<Token>, b: seq<Token>, stack: Path, i: seq<Item>, mid: Path, j: seq<Item>, end: Path)
    requires Read(a, stack) == Some(Reading(i, mid)) && Read(b, mid) == Some(Reading(j, end))
    ensures Read(a + b, stack) == Some(Reading(i + j, end))
  {
    ReadConcat(a, b, stack);
  }

  function Opens(ts: seq<Token>): nat {
    if ts == [] then 0 else (if ts[0].OpenNs? then 1 else 0) + Opens(ts[1..])
  }

  function Closes(ts: seq<Token>): nat {
    if ts == [] then 0 else (if ts[0].CloseNs? then 1 else 0) + Closes(ts[1..])
  }

  lemma {:induction false} CountsConcat(a: seq<Token>, b: seq<Token>)
    ensures Opens(a + b) == Opens(a) + Opens(b) && Closes(a + b) == Closes(a) + Closes(b)
  {
    if a == [] {
      assert a + b == b;
    } else {
      assert (a + b)[1..] == a[1..] + b;
      CountsConcat(a[1..], b);
    }
  }

  ghost predicate IsCommon(a: Path, b: Path, k: int) {
    && 0 <= k <= |a| && k <= |b| && a[..k] == b[..k]
    && (k < |a| && k < |b| ==> a[k] != b[k])
  }

  function Common(a: Path, b: Path): (k: nat)
    ensures k <= |a| && k <= |b|
  {
    if a == [] || b == [] || a[0] != b[0] then 0 else 1 + Common(a[1..], b[1..])
  }

  lemma PrefixSplit(a: Path, k: int)
    requires 1 <= k <= |a|
    ensures a[..k] == [a[0]] + a[1..][..k-1]
  {
  }

  lemma CommonStep(a: Path, b: Path, k: int)
    requires a != [] && b != [] && a[0] == b[0]
    ensures IsCommon(a, b, k) <==> IsCommon(a[1..], b[1..], k - 1)
  {
    if 1 <= k <= |a| && k <= |b| {
      PrefixSplit(a, k);
      PrefixSplit(b, k);
      assert a[..k][1..] == a[1..][..k-1] && b[..k][1..] == b[1..][..k-1];
    }
  }

  /** `Common` is the length of the longest common prefix. */
  lemma {:induction false} CommonIs(a: Path, b: Path, k: int)
    ensures IsCommon(a, b, k) <==> k == Common(a, b)
  {
    if a != [] && b != [] && a[0] == b[0] {
      CommonStep(a, b, k);
      CommonIs(a[1..], b[1..], k - 1);
    } else if 1 <= k <= |a| && k <= |b| {
      assert a[..k][0] == a[0] && b[..k][0] == b[0];
    }
  }

  method CommonPrefixLength(a: Path, b: Path) returns (k: nat)
    ensures k == Common(a, b)
    ensures k <= |a| && k <= |b| && a[..k] == b[..k] && (k < |a| && k < |b| ==> a[k] != b[k])
  {
    var end := if |a| < |b| then |a| else |b|;
    k := end;
    var i := 0;
    while i < end
      invariant 0 <= i <= end && a[..i] == b[..i]
    {
      if a[i] != b[i] {
        CommonIs(a, b, i);
        return i;
      }
      i := i + 1;
    }
    CommonIs(a, b, end);
  }

  /** Opens still needed to write declarations with these paths, with `stack` open. */
  function OpensNeeded(stack: Path, paths: seq<Path>): nat
    decreases paths
  {
    if paths == [] then 0
    else |paths[0]| - Common(paths[0], stack) + OpensNeeded(paths[0], paths[1..])
  }

  /** Closes still needed, up to no open namespace at the end. */
  function ClosesNeeded(stack: Path, paths: seq<Path>): nat
    decreases paths
  {
    if paths == [] then |stack|
    else |stack| - Common(paths[0], stack) + ClosesNeeded(paths[0], paths[1..])
  }

  lemma {:induction false} CommonPush(p: Path, stack: Path, name: string)
    ensures Common(p, stack) <= Common(p, stack + [name]) <= Common(p, stack) + 1
  {
    if p != [] && stack != [] && p[0] == stack[0] {
      assert (stack + [name])[1..] == stack[1..] + [name];
      CommonPush(p[1..], stack[1..], name);
    } else if stack == [] {
      assert (stack + [name])[1..] == [];
    }
  }

  lemma CommonSelf(p: Path)
    ensures Common(p, p) == |p|
  {
    CommonIs(p, p, |p|);
  }

  /** One more open namespace saves at most one open and costs at most one close. */
  lemma NeededPush(stack: Path, name: string, paths: seq<Path>)
    ensures OpensNeeded(stack + [name], paths) <= OpensNeeded(stack, paths) <= OpensNeeded(stack + [name], paths) + 1
    ensures ClosesNeeded(stack, paths) <= ClosesNeeded(stack + [name], paths) <= ClosesNeeded(stack, paths) + 1
  {
    if paths != [] { CommonPush(paths[0], stack, name); }
  }

  lemma NeededHere(stack: Path, paths: seq<Path>)
    requires paths != [] && paths[0] == stack
    ensures OpensNeeded(stack, paths) == OpensNeeded(stack, paths[1..])
    ensures ClosesNeeded(stack, paths) == ClosesNeeded(stack, paths[1..])
  {
    CommonSelf(stack);
  }

  /** However the same declarations are written, at least as many opens and closes are used. */
  lemma {:induction false} AtLeastNeeded(ts: seq<Token>, stack: Path)
    requires Read(ts, stack).Some? && Read(ts, stack).value.stack == []
    ensures Opens(ts) >= OpensNeeded(stack, Paths(Read(ts, stack).value.items))
    ensures Closes(ts) >= ClosesNeeded(stack, Paths(Read(ts, stack).value.items))
  {
    if ts != [] {
      var paths := Paths(Read(ts, stack).value.items);
      match ts[0]
      case OpenNs(name) =>
        AtLeastNeeded(ts[1..], stack + [name]);
        NeededPush(stack, name, paths);
      case CloseNs(name) =>
        var below := stack[..|stack|-1];
        AtLeastNeeded(ts[1..], below);
        NeededPush(below, name, paths);
        assert below + [name] == stack;
      case Text(text) =>
        AtLeastNeeded(ts[1..], stack);
        assert paths[1..] == Paths(Read(ts[1..], stack).value.items);
        NeededHere(stack, paths);
    }
  }

  /** Closing the namespaces of `stack` down to `stack[..k]`, the innermost first. */
  function CloseDown(stack: Path, k: nat): (ts: seq<Token>)
    requires k <= |stack|
    decreases |stack|
  {
    if |stack| == k then [] else [CloseNs(stack[|stack|-1])] + CloseDown(stack[..|stack|-1], k)
  }

  function OpenUp(names: Path): (ts: seq<Token>) {
    seq(|names|, i requires 0 <= i < |names| => OpenNs(names[i]))
  }

  lemma {:induction false} CloseDownReads(stack: Path, k: nat)
    requires k <= |stack|
    ensures Read(CloseDown(stack, k), stack) == Some(Reading([], stack[..k]))
    ensures Closes(CloseDown(stack, k)) == |stack| - k && Opens(CloseDown(stack, k)) == 0
    decreases |stack|
  {
    if |stack| == k {
      assert stack[..k] == stack;
    } else {
      var below := stack[..|stack|-1];
      CloseDownReads(below, k);
      assert CloseDown(stack, k)[1..] == CloseDown(below, k);
      assert below[..k] == stack[..k];
    }
  }

  lemma {:induction false} OpenUpReads(names: Path, stack: Path)
    ensures Read(OpenUp(names), stack) == Some(Reading([], stack + names))
    ensures Opens(OpenUp(names)) == |names| && Closes(OpenUp(names)) == 0
  {
    if names == [] {
      assert stack + names == stack;
    } else {
      OpenUpReads(names[1..], stack + [names[0]]);
      assert OpenUp(names)[1..] == OpenUp(names[1..]);
      assert stack + [names[0]] + names[1..] == stack + names;
    }
  }

  /** What is written for one line: the way from `stack` to its path, then its content. */
  function Step(stack: Path, l: Line): seq<Token> {
    var k := Common(l.path, stack);
    CloseDown(stack, k) + OpenUp(l.path[k..]) + [Text(Content(l))]
  }

  lemma ReadText(text: string, stack: Path)
    ensures Read([Text(text)], stack) == Some(Reading([Item(stack, text)], stack))
    ensures Opens([Text(text)]) == Closes([Text(text)]) == 0
  {
    assert [Text(text)][1..] == [];
    assert Read([], stack) == Some(Reading([], stack));
    assert [Item(stack, text)] + [] == [Item(stack, text)];
  }

  lemma WayReads(stack: Path, path: Path, k: nat)
    requires IsCommon(path, stack, k)
    ensures var way := CloseDown(stack, k) + OpenUp(path[k..]);
      && Read(way, stack) == Some(Reading([], path))
      && Opens(way) == |path| - k && Closes(way) == |stack| - k
  {
    CloseDownReads(stack, k);
    OpenUpReads(path[k..], stack[..k]);
    assert stack[..k] + path[k..] == path;
    var none: seq<Item> := [];
    ReadBoth(CloseDown(stack, k), OpenUp(path[k..]), stack, none, stack[..k], none, path);
    assert none + none == none;
    CountsConcat(CloseDown(stack, k), OpenUp(path[k..]));
  }

  lemma StepReads(stack: Path, l: Line)
    ensures Read(Step(stack, l), stack) == Some(Reading([Item(l.path, Content(l))], l.path))
    ensures Opens(Step(stack, l)) == |l.path| - Common(l.path, stack)
    ensures Closes(Step(stack, l)) == |stack| - Common(l.path, stack)
  {
    var k := Common(l.path, stack);
    var way := CloseDown(stack, k) + OpenUp(l.path[k..]);
    CommonIs(l.path, stack, k);
    WayReads(stack, l.path, k);
    ReadText(Content(l), l.path);
    var item := [Item(l.path, Content(l))];
    ReadBoth(way, [Text(Content(l))], stack, [], l.path, item, l.path);
    assert [] + item == item;
    CountsConcat(way, [Text(Content(l))]);
  }

  /** Where the loop stands: what is written reads back as the lines done, and is as short as can be. */
  ghost predicate Written(ts: seq<Token>, done: seq<Item>, stack: Path, left: seq<Item>, all: seq<Item>) {
    && done + left == all && Read(ts, []) == Some(Reading(done, stack))
    && Opens(ts) + OpensNeeded(stack, Paths(left)) == OpensNeeded([], Paths(all))
    && Closes(ts) + ClosesNeeded(stack, Paths(left)) == ClosesNeeded([], Paths(all))
  }

  lemma WriteLine(ts: seq<Token>, done: seq<Item>, stack: Path, left: seq<Item>, all: seq<Item>, l: Line)
    requires Written(ts, done, stack, left, all) && left != [] && left[0] == Item(l.path, Content(l))
    ensures Written(ts + Step(stack, l), done + [left[0]], l.path, left[1..], all)
  {
    StepReads(stack, l);
    ReadBoth(ts, Step(stack, l), [], done, stack, [left[0]], l.path);
    CountsConcat(ts, Step(stack, l));
    assert Paths(left)[1..] == Paths(left[1..]);
    assert done + [left[0]] + left[1..] == done + left;
  }

  lemma WriteNext(ts: seq<Token>, items: seq<Item>, i: nat, stack: Path, l: Line)
    requires i < |items| && Written(ts, items[..i], stack, items[i..], items) && items[i] == Item(l.path, Content(l))
    ensures Written(ts + Step(stack, l), items[..i+1], l.path, items[i+1..], items)
  {
    WriteLine(ts, items[..i], stack, items[i..], items, l);
    assert items[..i+1] == items[..i] + [items[i]] && items[i..][1..] == items[i+1..];
  }

  lemma {:induction false} TrailingSentinel(stack: Path, paths: seq<Path>)
    ensures OpensNeeded(stack, paths + [[]]) == OpensNeeded(stack, paths)
    ensures ClosesNeeded(stack, paths + [[]]) == ClosesNeeded(stack, paths)
    decreases paths
  {
    if paths == [] {
      assert (paths + [[]])[1..] == [];
    } else {
      assert (paths + [[]])[1..] == paths[1..] + [[]];
      TrailingSentinel(paths[0], paths[1..]);
    }
  }

  /** `tokens` says what `items` say, with no namespace left open. */
  ghost predicate Denotes(tokens: seq<Token>, items: seq<Item>) {
    Read(tokens, []) == Some(Reading(items, []))
  }

  lemma {:induction false} DropSentinel(ts: seq<Token>, items: seq<Item>, s: Path)
    requires ts != [] && ts[|ts|-1] == Text("")
    requires Read(ts, s) == Some(Reading(items + [Item([], "")], []))
    ensures Read(ts[..|ts|-1], s) == Some(Reading(items, []))
    ensures Opens(ts[..|ts|-1]) == Opens(ts) && Closes(ts[..|ts|-1]) == Closes(ts)
  {
    var front := ts[..|ts|-1];
    assert ts == front + [Text("")];
    CountsConcat(front, [Text("")]);
    FrontReads(front, [Text("")], s);
    ReadConcat(front, [Text("")], s);
    var m := Read(front, s).value;
    ReadText("", m.stack);
    var whole := m.items + [Item(m.stack, "")];
    assert whole == items + [Item([], "")];
    assert m.items == whole[..|whole|-1] == items;
  }

  lemma {:induction false} FrontReads(a: seq<Token>, b: seq<Token>, s: Path)
    requires Read(a + b, s).Some?
    ensures Read(a, s).Some?
  {
    if a != [] {
      assert (a + b)[1..] == a[1..] + b;
      var s' := match a[0]
        case OpenNs(name) => s + [name]
        case CloseNs(name) => s[..|s|-1]
        case Text(text) => s;
      FrontReads(a[1..], b, s');
    }
  }

  /** Writes one line. */
  method EmitLine(retval: seq<Token>, current: Path, line: Line) returns (ok: bool, retval': seq<Token>)
    ensures ok <==> WellFormed(line)
    ensures ok ==> retval' == retval + Step(current, line)
  {
    var differ := CommonPrefixLength(line.path, current);
    retval' := retval + CloseDown(current, differ);
    retval' := retval' + OpenUp(line.path[differ..]);
    ok := true;
    if line.path != [] {
      if line.decl.None? {
        return false, retval';
      }
      retval' := retval' + [Text(line.decl.value)];
    } else {
      retval' := retval' + [Text(line.text)];
    }
  }

  /** The loop stands before line `i`. */
  ghost predicate Progress(retval: seq<Token>, current: Path, all: seq<Line>, i: nat) {
    && i <= |all| && Written(retval, Items(all)[..i], current, Items(all)[i..], Items(all))
    && (i > 0 ==> current == all[i-1].path && retval != [] && retval[|retval|-1] == Text(Content(all[i-1])))
  }

  lemma ProgressStarts(all: seq<Line>)
    ensures Progress([], [], all, 0)
  {
    assert Items(all)[..0] == [] && Items(all)[0..] == Items(all);
  }

  lemma ProgressGoesOn(retval: seq<Token>, current: Path, all: seq<Line>, i: nat)
    requires i < |all| && Progress(retval, current, all, i)
    ensures Progress(retval + Step(current, all[i]), all[i].path, all, i + 1)
  {
    WriteNext(retval, Items(all), i, current, all[i]);
    StepEnds(retval, current, all[i]);
  }

  lemma StepEnds(retval: seq<Token>, current: Path, l: Line)
    ensures var t := retval + Step(current, l); t != [] && t[|t|-1] == Text(Content(l))
  {
  }

  /** The namespaces that are open before line `i`. */
  function PathBefore(all: seq<Line>, i: nat): Path
    requires i <= |all|
  {
    if i == 0 then [] else all[i-1].path
  }

  /** What the loop has written before line `i`. */
  function WrittenBefore(all: seq<Line>, i: nat): seq<Token>
    requires i <= |all|
  {
    if i == 0 then [] else WrittenBefore(all, i - 1) + Step(PathBefore(all, i - 1), all[i-1])
  }

  lemma {:induction false} WrittenProgress(all: seq<Line>, i: nat)
    requires i <= |all|
    ensures Progress(WrittenBefore(all, i), PathBefore(all, i), all, i)
  {
    if i == 0 {
      ProgressStarts(all);
    } else {
      WrittenProgress(all, i - 1);
      ProgressGoesOn(WrittenBefore(all, i - 1), PathBefore(all, i - 1), all, i - 1);
    }
  }

  /** Writes all lines, up to the first malformed one. */
  method WriteLines(all: seq<Line>) returns (i: nat, retval: seq<Token>)
    ensures i <= |all| && (i < |all| ==> !WellFormed(all[i])) && forall j :: 0 <= j < i ==> WellFormed(all[j])
    ensures i == |all| ==> retval == WrittenBefore(all, i)
  {
    var current: Path := [];
    i, retval := 0, [];
    while i < |all|
      invariant i <= |all| && forall j :: 0 <= j < i ==> WellFormed(all[j])
      invariant retval == WrittenBefore(all, i) && current == PathBefore(all, i)
    {
      var ok;
      ok, retval := EmitLine(retval, current, all[i]);
      if !ok {
        return;
      }
      current := all[i].path;
      i := i + 1;
    }
  }

  /** The normaliser. It fails on the first namespace line without a declaration, and otherwise
      writes the input's declarations in order with the least number of opens and closes. */
  method Normalize(lines: seq<Line>) returns (r: Result)
    ensures r.Normalized? <==> forall i :: 0 <= i < |lines| ==> WellFormed(lines[i])
    ensures r.Malformed? ==> exists i :: 0 <= i < |lines| && lines[i] == r.line && !WellFormed(r.line)
                                         && forall j :: 0 <= j < i ==> WellFormed(lines[j])
    ensures r.Normalized? ==> Denotes(r.tokens, Items(lines))
    ensures r.Normalized? ==> |Items(lines)| == |lines| && forall i :: 0 <= i < |lines| ==>
      Items(lines)[i] == Item(lines[i].path, if lines[i].path == [] then lines[i].text else lines[i].decl.value)
    ensures r.Normalized? ==> forall other :: Denotes(other, Items(lines)) ==>
      Opens(r.tokens) <= Opens(other) && Closes(r.tokens) <= Closes(other)
  {
    var all := lines + [SENTINEL];
    var i, retval := WriteLines(all);
    if i < |all| {
      assert forall j :: 0 <= j <= i ==> lines[j] == all[j];
      assert lines[i] == all[i] && !WellFormed(lines[i]);
      return Malformed(all[i]);
    }
    WrittenProgress(all, |all|);
    assert retval != [] && retval[|retval|-1] == Text("");
    FinishSentinel(retval, [], lines);
    forall j | 0 <= j < |lines| ensures WellFormed(lines[j]) { assert all[j] == lines[j]; }
    r := Normalized(retval[..|retval|-1]);
    forall other | Denotes(other, Items(lines))
      ensures Opens(r.tokens) <= Opens(other) && Closes(r.tokens) <= Closes(other)
    {
      AtLeastNeeded(other, []);
    }
  }

  lemma FinishSentinel(ts: seq<Token>, stack: Path, lines: seq<Line>)
    requires Progress(ts, stack, lines + [SENTINEL], |lines| + 1)
    ensures var front := ts[..|ts|-1];
      && Denotes(front, Items(lines))
      && Opens(front) == OpensNeeded([], Paths(Items(lines))) && Closes(front) == ClosesNeeded([], Paths(Items(lines)))
  {
    var own, items := Items(lines), Items(lines + [SENTINEL]);
    assert items[..|items|] == items == own + [Item([], "")];
    DropSentinel(ts, own, []);
    assert Paths(items) == Paths(own) + [[]];
    TrailingSentinel([], Paths(own));
  }
}
