/** Values shared by the merge-tree modules. */
module Records {

  datatype Option<+T> = None | Some(value: T)

  /** A key-value record of a merge tree.
      A user key stands for its rank in the user-key comparator, and `userSeq` for the rank of the
      record's value in the user-defined sequence comparator (a constant when there is none). */
  datatype KeyValue = KeyValue(key: int, userSeq: int, seqNo: int, retract: bool, payload: int)

  /** The order in which records with one key are handed to the merge function. */
  predicate SeqLe(a: KeyValue, b: KeyValue) {
    a.userSeq < b.userSeq || (a.userSeq == b.userSeq && a.seqNo <= b.seqNo)
  }

  /** The order in which a sort-merge reader emits records. */
  predicate RecLe(a: KeyValue, b: KeyValue) {
    a.key < b.key || (a.key == b.key && SeqLe(a, b))
  }

  /** `rows` says something of `key`. */
  predicate Mentions(rows: seq<KeyValue>, key: int) {
    exists i :: 0 <= i < |rows| && rows[i].key == key
  }

  predicate StrictKeys(s: seq<KeyValue>) {
    forall i, j :: 0 <= i < j < |s| ==> s[i].key < s[j].key
  }

  predicate SortedRecs(s: seq<KeyValue>) {
    forall i, j :: 0 <= i < j < |s| ==> RecLe(s[i], s[j])
  }

  function Flatten<T>(ss: seq<seq<T>>): (r: seq<T>) {
    if ss == [] then [] else ss[0] + Flatten(ss[1..])
  }

  lemma {:induction false} FlattenConcat<T>(a: seq<seq<T>>, b: seq<seq<T>>)
    ensures Flatten(a + b) == Flatten(a) + Flatten(b)
  {
    if a == [] {
      assert a + b == b;
    } else {
      assert (a + b)[1..] == a[1..] + b;
      FlattenConcat(a[1..], b);
    }
  }

  lemma FlattenSnoc<T>(a: seq<seq<T>>, x: seq<T>)
    ensures Flatten(a + [x]) == Flatten(a) + x
  {
    FlattenConcat(a, [x]);
    assert Flatten([x]) == x + Flatten([x][1..]);
    assert [x][1..] == [];
  }

  lemma {:induction false} FlattenSplit<T>(c: seq<seq<T>>, i: int)
    requires 0 <= i < |c|
    ensures Flatten(c) == Flatten(c[..i]) + c[i] + Flatten(c[i+1..])
  {
    if i == 0 {
      assert c[..0] == [];
    } else {
      FlattenSplit(c[1..], i - 1);
      assert c[..i][1..] == c[1..][..i-1] && c[i+1..] == c[1..][i..];
    }
  }

  lemma TakeHead<T>(c: seq<seq<T>>, d: seq<seq<T>>, i: int, r: T)
    requires 0 <= i < |c| && |d| == |c| && c[i] == [r] + d[i] && d == c[i := d[i]]
    ensures multiset(Flatten(c)) == multiset(Flatten(d)) + multiset{r}
  {
    FlattenSplit(c, i);
    FlattenSplit(d, i);
    assert d[..i] == c[..i] && d[i+1..] == c[i+1..];
    Insert(Flatten(c[..i]), d[i], Flatten(c[i+1..]), r);
  }

  lemma Insert<T>(a: seq<T>, m: seq<T>, b: seq<T>, r: T)
    ensures multiset(a + ([r] + m) + b) == multiset(a + m + b) + multiset{r}
  {
    assert multiset(a + ([r] + m) + b) == multiset(a) + (multiset([r]) + multiset(m)) + multiset(b);
  }

  lemma Middle<T>(a: seq<T>, m: seq<T>, b: seq<T>)
    ensures multiset(a + m + b) == multiset(a + b) + multiset(m)
  {
    assert multiset(a + b) == multiset(a) + multiset(b);
  }

  function Without<T>(s: seq<T>, k: int): (r: seq<T>)
    requires 0 <= k < |s|
    ensures |r| == |s| - 1
    ensures forall i :: 0 <= i < |r| ==> r[i] == if i < k then s[i] else s[i+1]
  {
    s[..k] + s[k+1..]
  }

  lemma WithoutCount<T>(s: seq<T>, k: int)
    requires 0 <= k < |s|
    ensures multiset(s) == multiset(Without(s, k)) + multiset{s[k]}
  {
    Middle(s[..k], [s[k]], s[k+1..]);
    assert s == s[..k] + [s[k]] + s[k+1..];
  }

  lemma FlattenWithout<T>(c: seq<seq<T>>, k: int)
    requires 0 <= k < |c|
    ensures multiset(Flatten(c)) == multiset(Flatten(Without(c, k))) + multiset(c[k])
  {
    FlattenSplit(c, k);
    FlattenConcat(c[..k], c[k+1..]);
    Middle(Flatten(c[..k]), c[k], Flatten(c[k+1..]));
  }

  lemma {:induction false} InFlatten<T>(c: seq<seq<T>>, e: T)
    ensures e in Flatten(c) <==> exists i :: 0 <= i < |c| && e in c[i]
  {
    if c != [] {
      InFlatten(c[1..], e);
      if e in Flatten(c[1..]) {
        var i :| 0 <= i < |c[1..]| && e in c[1..][i];
        assert e in c[i+1];
      }
      if i :| 0 <= i < |c| && e in c[i] {
        if i > 0 { assert e in c[1..][i-1]; }
      }
    }
  }
}
