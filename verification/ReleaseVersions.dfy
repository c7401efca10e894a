/** scripts/releasing/bump_version.py: the version files of a release and their updates. Version texts
    and the matches of the patterns in the files are taken as parsed. */
module ReleaseVersions {
  import opened Records

  datatype Version = Version(major: nat, minor: nat, patch: nat)

  /** The documentation series of a version. */
  datatype Series = Series(major: nat, minor: nat)

  function SeriesOf(v: Version): Series { Series(v.major, v.minor) }

  predicate Before(a: Series, b: Series) { a.major < b.major || (a.major == b.major && a.minor < b.minor) }

  /** An entry of versions.json: the main branch, under its present or its former label, the stable
      release, an archived series, or anything else. */
  datatype Entry = Main(former: bool) | Stable(version: Version) | Archived(version: Version) | Other

  /** The versions found in CMakeLists.txt and conf.py, and the list of versions.json. */
  datatype Files = Files(cmake: seq<Version>, docs: seq<Version>, versions: seq<Entry>)

  /** `check_version_list`. */
  predicate ListOk(vs: seq<Entry>) {
    |vs| >= 2 && vs[0].Main? && vs[1].Stable? && forall i :: 2 <= i < |vs| ==> vs[i].Archived?
  }

  /** `checked_files` accepts `f` for version `expected`. */
  predicate Checked(f: Files, expected: Version) {
    && f.cmake == [expected] && ListOk(f.versions)
    && (f.docs == [expected] || f.docs == [f.versions[1].version])
  }

  /** What `promote_stable` makes of the list. */
  function Promoted(vs: seq<Entry>, v: Version): seq<Entry>
    requires ListOk(vs)
  {
    var previous := vs[1].version;
    [vs[0], Stable(v)] + (if SeriesOf(previous) != SeriesOf(v) then [Archived(previous)] else []) + vs[2..]
  }

  class VersionFiles {
    var cmake: seq<Version>
    var docs: seq<Version>
    var versions: seq<Entry>

    ghost function View(): Files reads this { Files(cmake, docs, versions) }

    constructor (f: Files)
      ensures View() == f
    {
      cmake, docs, versions := f.cmake, f.docs, f.versions;
    }

    method PromoteStable(v: Version)
      requires ListOk(versions)
      modifies this`versions
      ensures versions == Promoted(old(versions), v)
    {
      var previous := versions[1].version;
      ghost var tail := versions[2..];
      if SeriesOf(previous) != SeriesOf(v) {
        versions := versions[..2] + [Archived(previous)] + versions[2..];
      }
      versions := versions[1 := Stable(v)];
    }

    /** Starts the next development cycle. A refused call changes nothing. */
    method Update(current: Version, next: Version, devOnly: bool) returns (ok: bool)
      modifies this
      ensures ok <==> Accepted(old(View()), Command.Update(current, next, devOnly))
      ensures View() == After(old(View()), Command.Update(current, next, devOnly))
      // The files must agree on the current version, except that the documentation may still show the stable one.
      ensures ok <==> old(cmake == [current] && |versions| >= 2 && versions[0].Main? && versions[1].Stable?
        && (forall i :: 2 <= i < |versions| ==> versions[i].Archived?)
        && (docs == [current] || docs == [versions[1].version]))
      ensures !ok || devOnly ==> versions == old(versions)
      ensures if ok then cmake == [next] && docs == [next] else cmake == old(cmake) && docs == old(docs)
      ensures ok && !devOnly ==>
        var stable := old(versions[1].version);
        && versions[..2] == [Main(false), Stable(current)]
        && versions[2..] == if stable.major == current.major && stable.minor == current.minor then old(versions[2..])
                            else [Archived(stable)] + old(versions[2..])
    {
      if !(cmake == [current] && ListOk(versions) && (docs == [current] || docs == [versions[1].version])) {
        return false;
      }
      // Both files hold one version, so each replacement finds exactly one match.
      cmake, docs := cmake[0 := next], docs[0 := next];
      if devOnly {
        return true;
      }
      PromoteStable(current);
      versions := versions[0 := Main(false)];
      return true;
    }

    /** Promotes the current version. A refused call changes nothing. */
    method Promote(v: Version) returns (ok: bool)
      modifies this
      ensures ok <==> Accepted(old(View()), Command.Promote(v))
      ensures View() == After(old(View()), Command.Promote(v))
      ensures ok <==> old(cmake == [v] && docs == [v] && |versions| >= 2 && versions[0].Main? && versions[1].Stable?
        && forall i :: 2 <= i < |versions| ==> versions[i].Archived?)
      ensures cmake == old(cmake) && docs == old(docs) && (!ok ==> versions == old(versions))
      ensures ok ==>
        var stable := old(versions[1].version);
        && versions[..2] == [old(versions[0]), Stable(v)]
        && versions[2..] == if stable.major == v.major && stable.minor == v.minor then old(versions[2..])
                            else [Archived(stable)] + old(versions[2..])
    {
      if !(cmake == [v] && ListOk(versions) && (docs == [v] || docs == [versions[1].version])) {
        return false;
      }
      if docs != [v] {
        return false;
      }
      PromoteStable(v);
      return true;
    }
  }

  /** A run of the script. */
  datatype Command = Update(current: Version, next: Version, devOnly: bool) | Promote(version: Version)

  predicate Accepted(f: Files, c: Command) {
    match c
    case Update(current, _, _) => Checked(f, current)
    case Promote(v) => Checked(f, v) && f.docs == [v]
  }

  function After(f: Files, c: Command): Files {
    if !Accepted(f, c) then f
    else match c
      case Update(current, next, devOnly) =>
        Files([next], [next], if devOnly then f.versions else Promoted(f.versions, current)[0 := Main(false)])
      case Promote(v) => f.(versions := Promoted(f.versions, v))
  }

  /** The version the files stand for after an accepted command. */
  function Resulting(c: Command): Version { match c case Update(_, next, _) => next case Promote(v) => v }

  lemma PromotedOk(vs: seq<Entry>, v: Version)
    requires ListOk(vs)
    ensures ListOk(Promoted(vs, v)) && Promoted(vs, v)[1] == Stable(v)
  {
  }

  /** Every accepted command leaves files that pass the check for the resulting version. */
  lemma StaysConsistent(f: Files, c: Command)
    requires Accepted(f, c)
    ensures Checked(After(f, c), Resulting(c))
  {
    match c
    case Update(current, next, devOnly) => PromotedOk(f.versions, current);
    case Promote(v) => PromotedOk(f.versions, v);
  }

  function AfterAll(f: Files, cs: seq<Command>): Files {
    if cs == [] then f else After(AfterAll(f, cs[..|cs|-1]), cs[|cs|-1])
  }

  ghost predicate Consistent(f: Files) { exists v :: Checked(f, v) }

  /** Over a whole series of runs, accepted and refused, the files stay consistent. */
  lemma {:induction false} RunStaysConsistent(f: Files, cs: seq<Command>)
    requires Consistent(f)
    ensures Consistent(AfterAll(f, cs))
  {
    if cs != [] {
      var front, c := AfterAll(f, cs[..|cs|-1]), cs[|cs|-1];
      RunStaysConsistent(f, cs[..|cs|-1]);
      if Accepted(front, c) { StaysConsistent(front, c); }
    }
  }

  /** Promoting twice is promoting once. */
  lemma PromoteAgain(f: Files, v: Version)
    ensures After(After(f, Promote(v)), Promote(v)) == After(f, Promote(v))
  {
    if Accepted(f, Promote(v)) {
      PromotedOk(f.versions, v);
      var once := Promoted(f.versions, v);
      assert [once[0], Stable(v)] + [] + once[2..] == once;
    }
  }

  /** The archived versions, latest first. */
  function Archive(vs: seq<Entry>): (r: seq<Version>)
    requires ListOk(vs)
    ensures |r| == |vs| - 2 && forall i :: 0 <= i < |r| ==> vs[i+2] == Archived(r[i])
  {
    seq(|vs| - 2, i requires 0 <= i < |vs| - 2 => vs[i+2].version)
  }

  /** Strictly descending series, all before the stable one. */
  ghost predicate Descending(vs: seq<Entry>)
    requires ListOk(vs)
  {
    var a := Archive(vs);
    && (forall i :: 0 <= i < |a| ==> Before(SeriesOf(a[i]), SeriesOf(vs[1].version)))
    && (forall i, j :: 0 <= i < j < |a| ==> Before(SeriesOf(a[j]), SeriesOf(a[i])))
  }

  lemma PromotedArchive(vs: seq<Entry>, v: Version)
    requires ListOk(vs)
    ensures ListOk(Promoted(vs, v))
    ensures Archive(Promoted(vs, v)) ==
      (if SeriesOf(vs[1].version) != SeriesOf(v) then [vs[1].version] else []) + Archive(vs)
  {
    PromotedOk(vs, v);
  }

  /** A promotion keeps the archive descending exactly when the series does not go back. */
  lemma PromotionIff(vs: seq<Entry>, v: Version)
    requires ListOk(vs) && Descending(vs)
    ensures ListOk(Promoted(vs, v))
    ensures Descending(Promoted(vs, v)) <==> !Before(SeriesOf(v), SeriesOf(vs[1].version))
  {
    PromotedArchive(vs, v);
    PromotedOk(vs, v);
    var a, b := Archive(vs), Archive(Promoted(vs, v));
    if Before(SeriesOf(v), SeriesOf(vs[1].version)) {
      assert b[0] == vs[1].version;
    }
  }

  /** Two accepted commands after which the archive is not in order: a release of series 1.3 that goes on with
      version 1.1.0, and the promotion of that version. */
  lemma GoesBack()
    ensures var f := Files([Version(1, 3, 0)], [Version(1, 3, 0)], [Main(false), Stable(Version(1, 2, 0))]);
      var first, second := Update(Version(1, 3, 0), Version(1, 1, 0), false), Promote(Version(1, 1, 0));
      && ListOk(f.versions) && Descending(f.versions) && Accepted(f, first) && Accepted(After(f, first), second)
      && var g := After(After(f, first), second); ListOk(g.versions) && !Descending(g.versions)
  {
    var vs := [Main(false), Stable(Version(1, 2, 0))];
    var once := [Main(false), Stable(Version(1, 3, 0)), Archived(Version(1, 2, 0))];
    assert Promoted(vs, Version(1, 3, 0))[0 := Main(false)] == once;
    assert Descending(once);
    PromotionIff(once, Version(1, 1, 0));
  }

  /** `history` lists what was promoted, with series that never go back: the last is stable, and the
      archive holds the last version of every earlier series, once. */
  ghost predicate Tells(history: seq<Version>, vs: seq<Entry>)
    requires ListOk(vs)
  {
    && history != [] && vs[1] == Stable(history[|history|-1]) && Descending(vs)
    && (forall k :: 0 <= k < |vs| - 2 ==> exists i :: LastOfSeries(history, i) && history[i] == Archive(vs)[k])
    && (forall i :: LastOfSeries(history, i) && i < |history| - 1 ==> history[i] in Archive(vs))
  }

  /** No later entry of `history` is of the same series. */
  ghost predicate LastOfSeries(history: seq<Version>, i: int) {
    0 <= i < |history| && forall j :: i < j < |history| ==> SeriesOf(history[j]) != SeriesOf(history[i])
  }

  lemma LastOfSeriesStep(history: seq<Version>, v: Version, i: int)
    requires 0 <= i < |history|
    ensures LastOfSeries(history + [v], i) <==> LastOfSeries(history, i) && SeriesOf(v) != SeriesOf(history[i])
  {
    var h := history + [v];
    if LastOfSeries(h, i) {
      assert h[|history|] == v;
      forall j | i < j < |history| ensures SeriesOf(history[j]) != SeriesOf(history[i]) { assert h[j] == history[j]; }
    }
  }

  /** A promotion that does not go back extends the history. */
  lemma PromotionTells(history: seq<Version>, vs: seq<Entry>, v: Version)
    requires ListOk(vs) && Tells(history, vs) && !Before(SeriesOf(v), SeriesOf(vs[1].version))
    ensures ListOk(Promoted(vs, v)) && Tells(history + [v], Promoted(vs, v))
  {
    var h, vs' := history + [v], Promoted(vs, v);
    var last := |history| - 1;
    PromotedOk(vs, v);
    PromotedArchive(vs, v);
    PromotionIff(vs, v);
    var a, b := Archive(vs), Archive(vs');
    var moved := SeriesOf(vs[1].version) != SeriesOf(v);
    assert LastOfSeries(history, last);
    forall k | 0 <= k < |b| ensures exists i :: LastOfSeries(h, i) && h[i] == b[k] {
      if moved && k == 0 {
        LastOfSeriesStep(history, v, last);
        assert h[last] == b[0];
      } else {
        ArchivedKept(history, vs, v, if moved then k - 1 else k);
      }
    }
    forall i | LastOfSeries(h, i) && i < |h| - 1 ensures h[i] in b {
      LastOfSeriesStep(history, v, i);
      if i < last { assert history[i] in a; } else { assert b[0] == history[i]; }
    }
  }

  lemma ArchivedKept(history: seq<Version>, vs: seq<Entry>, v: Version, k: int)
    requires ListOk(vs) && Tells(history, vs) && !Before(SeriesOf(v), SeriesOf(vs[1].version)) && 0 <= k < |vs| - 2
    ensures exists i :: LastOfSeries(history + [v], i) && (history + [v])[i] == Archive(vs)[k]
  {
    var i :| LastOfSeries(history, i) && history[i] == Archive(vs)[k];
    LastOfSeriesStep(history, v, i);
    assert (history + [v])[i] == Archive(vs)[k];
  }

  /** The versions promoted by the accepted commands of a series of runs. */
  function Promotions(f: Files, cs: seq<Command>): seq<Version> {
    if cs == [] then []
    else
      var front, c := cs[..|cs|-1], cs[|cs|-1];
      var g := AfterAll(f, front);
      Promotions(f, front) +
        if !Accepted(g, c) || (c.Update? && c.devOnly) then [] else [if c.Update? then c.current else c.version]
  }

  ghost predicate NeverBack(history: seq<Version>) {
    forall i :: 0 < i < |history| ==> !Before(SeriesOf(history[i]), SeriesOf(history[i-1]))
  }

  /** Whatever the runs, as long as promotions do not go back in the series: the archive stays strictly
      descending below stable, and every promoted series appears once, with its last version. */
  lemma {:induction false} RunsTell(f: Files, history: seq<Version>, cs: seq<Command>)
    requires ListOk(f.versions) && Tells(history, f.versions) && NeverBack(history + Promotions(f, cs))
    ensures var g := AfterAll(f, cs); ListOk(g.versions) && Tells(history + Promotions(f, cs), g.versions)
  {
    if cs == [] {
      assert history + [] == history;
    } else {
      var front, c := cs[..|cs|-1], cs[|cs|-1];
      var g := AfterAll(f, front);
      var so := history + Promotions(f, front);
      var all := history + Promotions(f, cs);
      assert so <= all;
      forall i | 0 < i < |so| ensures !Before(SeriesOf(so[i]), SeriesOf(so[i-1])) {
        assert so[i] == all[i] && so[i-1] == all[i-1];
      }
      RunsTell(f, history, front);
      if !Accepted(g, c) || (c.Update? && c.devOnly) {
        assert all == so;
      } else {
        var v := if c.Update? then c.current else c.version;
        assert all == so + [v] && all[|so|] == v && all[|so|-1] == so[|so|-1];
        PromotionTells(so, g.versions, v);
        if c.Update? { Relabelled(so + [v], Promoted(g.versions, v)); }
      }
    }
  }

  /** The label of the main entry plays no part. */
  lemma Relabelled(history: seq<Version>, vs: seq<Entry>)
    requires ListOk(vs) && Tells(history, vs)
    ensures ListOk(vs[0 := Main(false)]) && Tells(history, vs[0 := Main(false)])
  {
    var w := vs[0 := Main(false)];
    assert Archive(w) == Archive(vs);
  }
}
