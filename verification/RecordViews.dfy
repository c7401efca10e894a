/** What a reader sees of a set of records, and what compactions that drop retractions do to it. */
module Views {
  import opened Records
  import opened Latest
  import opened Compaction

  /** `r` is the latest record of its key. */
  ghost predicate IsLatest(r: KeyValue, recs: multiset<KeyValue>) {
    r in recs && forall e :: e in recs && e.key == r.key ==> SeqLe(e, r)
  }

  /** What a reader sees: the latest record of a key, unless it is a retraction. */
  ghost predicate Visible(r: KeyValue, recs: multiset<KeyValue>) {
    IsLatest(r, recs) && !r.retract
  }

  ghost predicate SameView(a: multiset<KeyValue>, b: multiset<KeyValue>) {
    forall r :: Visible(r, a) <==> Visible(r, b)
  }

  predicate SeqLt(a: KeyValue, b: KeyValue) { SeqLe(a, b) && !SeqLe(b, a) }

  /** Every record of `b` is newer than what `a` holds of its key. */
  ghost predicate Newer(b: multiset<KeyValue>, a: multiset<KeyValue>) {
    forall x, y :: x in b && y in a && x.key == y.key ==> SeqLt(y, x)
  }

  lemma LatestIs(out: seq<KeyValue>, recs: multiset<KeyValue>, e: KeyValue)
    requires LatestPerKey(out, recs) && e in out
    ensures IsLatest(e, recs)
  {
    var k :| 0 <= k < |out| && out[k] == e;
    forall d | d in recs && d.key == e.key ensures SeqLe(d, e) {
      assert Covered(d, out);
      var i :| 0 <= i < |out| && out[i].key == d.key && SeqLe(d, out[i]);
      assert i == k;
    }
  }

  lemma LatestHas(out: seq<KeyValue>, recs: multiset<KeyValue>, r: KeyValue)
    requires LatestPerKey(out, recs) && NoTies(recs) && IsLatest(r, recs)
    ensures r in out
  {
    assert Covered(r, out);
    var i :| 0 <= i < |out| && out[i].key == r.key && SeqLe(r, out[i]);
    assert out[i] in out && out[i] in recs;
  }

  /** `recs` holds a record of `e`'s key that is no older than `e`. */
  ghost predicate Under(e: KeyValue, recs: multiset<KeyValue>) {
    exists r :: r in recs && r.key == e.key && SeqLe(e, r)
  }

  /** What `recs` shows is newer than the retractions in `gone`. */
  ghost predicate Clear(recs: multiset<KeyValue>, gone: multiset<KeyValue>) {
    forall r, d :: Visible(r, recs) && d in gone && d.key == r.key ==> SeqLt(d, r)
  }

  /** `recs` is what is left of `written` after compactions that dropped the retractions in `gone`. */
  ghost predicate Accounts(recs: multiset<KeyValue>, gone: multiset<KeyValue>, written: multiset<KeyValue>) {
    && NoTies(written) && (forall e :: e in recs ==> e in written)
    && (forall d :: d in gone ==> d in written && d.retract)
    && (forall e :: e in written ==> Under(e, recs) || Under(e, gone))
    && Clear(recs, gone)
  }

  lemma UnderLatest(e: KeyValue, recs: multiset<KeyValue>, r: KeyValue)
    requires Under(e, recs) && IsLatest(r, recs) && e.key == r.key
    ensures SeqLe(e, r)
  {
    var f :| f in recs && f.key == e.key && SeqLe(e, f);
    SeqLeTrans(e, f, r);
  }

  lemma UnderGone(e: KeyValue, gone: multiset<KeyValue>, recs: multiset<KeyValue>, r: KeyValue)
    requires Under(e, gone) && Clear(recs, gone) && Visible(r, recs) && e.key == r.key
    ensures SeqLe(e, r)
  {
    var d :| d in gone && d.key == e.key && SeqLe(e, d);
    SeqLeTrans(e, d, r);
  }

  lemma AccountsShow(recs: multiset<KeyValue>, gone: multiset<KeyValue>, written: multiset<KeyValue>, r: KeyValue)
    requires Accounts(recs, gone, written) && Visible(r, recs)
    ensures Visible(r, written)
  {
    forall e | e in written && e.key == r.key ensures SeqLe(e, r) {
      if Under(e, recs) { UnderLatest(e, recs, r); } else { UnderGone(e, gone, recs, r); }
    }
  }

  lemma AccountsHave(recs: multiset<KeyValue>, gone: multiset<KeyValue>, written: multiset<KeyValue>, r: KeyValue)
    requires Accounts(recs, gone, written) && Visible(r, written)
    ensures Visible(r, recs)
  {
    if Under(r, gone) {
      var d :| d in gone && d.key == r.key && SeqLe(r, d);
      assert SeqLe(d, r) && d == r;
    } else {
      var f :| f in recs && f.key == r.key && SeqLe(r, f);
      assert SeqLe(f, r) && f == r;
    }
  }

  /** A reader sees what was written. */
  lemma AccountsView(recs: multiset<KeyValue>, gone: multiset<KeyValue>, written: multiset<KeyValue>)
    requires Accounts(recs, gone, written)
    ensures SameView(recs, written)
  {
    forall r ensures Visible(r, recs) <==> Visible(r, written) {
      if Visible(r, recs) { AccountsShow(recs, gone, written, r); }
      if Visible(r, written) { AccountsHave(recs, gone, written, r); }
    }
  }

  lemma UnderMore(e: KeyValue, recs: multiset<KeyValue>, more: multiset<KeyValue>)
    requires Under(e, recs) && forall r :: r in recs ==> r in more
    ensures Under(e, more)
  {
    var r :| r in recs && r.key == e.key && SeqLe(e, r);
    assert r in more;
  }

  lemma AddedAccounts(recs: multiset<KeyValue>, gone: multiset<KeyValue>, written: multiset<KeyValue>,
                      c: multiset<KeyValue>)
    requires Accounts(recs, gone, written) && NoTies(written + c) && Clear(recs + c, gone)
    ensures Accounts(recs + c, gone, written + c)
  {
    forall e | e in written + c ensures Under(e, recs + c) || Under(e, gone) {
      if e in c {
        assert e in recs + c && SeqLe(e, e);
      } else if Under(e, recs) {
        UnderMore(e, recs, recs + c);
      }
    }
  }

  /** When a record is older than what was written of its key, a reader is shown the right thing exactly if
      no dropped retraction is newer than a record that the tree would show. */
  lemma AddedIff(recs: multiset<KeyValue>, gone: multiset<KeyValue>, written: multiset<KeyValue>, c: multiset<KeyValue>)
    requires Accounts(recs, gone, written) && NoTies(written + c)
    ensures SameView(recs + c, written + c) <==> Clear(recs + c, gone)
  {
    if Clear(recs + c, gone) {
      AddedAccounts(recs, gone, written, c);
      AccountsView(recs + c, gone, written + c);
    }
    if SameView(recs + c, written + c) {
      SameIsClear(recs + c, gone, written + c);
    }
  }

  lemma SameIsClear(recs: multiset<KeyValue>, gone: multiset<KeyValue>, written: multiset<KeyValue>)
    requires SameView(recs, written) && NoTies(written) && forall d :: d in gone ==> d in written && d.retract
    ensures Clear(recs, gone)
  {
    forall r, d | Visible(r, recs) && d in gone && d.key == r.key ensures SeqLt(d, r) {
      assert Visible(r, written) && d != r;
    }
  }

  /** The retractions of `a` that hide everything else of their keys. */
  ghost function Retracted(a: multiset<KeyValue>): multiset<KeyValue> {
    multiset(set f | f in a && f.retract && IsLatest(f, a))
  }

  /** The retractions that a compaction of `a` drops. */
  ghost function Dropped(a: multiset<KeyValue>, drop: bool): multiset<KeyValue> {
    if drop then Retracted(a) else multiset{}
  }

  lemma StillUnder(out: seq<KeyValue>, a: multiset<KeyValue>, drop: bool, b: multiset<KeyValue>, e: KeyValue)
    requires Compacts(out, a, drop) && Under(e, a + b)
    ensures Under(e, multiset(out) + b) || Under(e, Dropped(a, drop))
  {
    var r :| r in a + b && r.key == e.key && SeqLe(e, r);
    if r in b {
      assert r in multiset(out) + b;
    } else {
      var full: seq<KeyValue> :| LatestPerKey(full, a) && Pruned(out, full, drop);
      assert Covered(r, full);
      var i :| 0 <= i < |full| && full[i].key == r.key && SeqLe(r, full[i]);
      SeqLeTrans(e, r, full[i]);
      LatestIs(full, a, full[i]);
      assert full[i] in full && (full[i] in multiset(out) + b || full[i] in Dropped(a, drop));
    }
  }

  /** What is shown now was shown before. */
  lemma OnceShown(out: seq<KeyValue>, a: multiset<KeyValue>, drop: bool, b: multiset<KeyValue>, r: KeyValue)
    requires Compacts(out, a, drop) && Visible(r, multiset(out) + b) && Clear(multiset(out) + b, Dropped(a, drop))
    ensures Visible(r, a + b)
  {
    var recs := multiset(out) + b;
    CompactedWithin(out, a, drop, b);
    forall e | e in a + b && e.key == r.key ensures SeqLe(e, r) {
      assert Under(e, a + b) by { assert SeqLe(e, e); }
      StillUnder(out, a, drop, b, e);
      if Under(e, recs) { UnderLatest(e, recs, r); } else { UnderGone(e, Dropped(a, drop), recs, r); }
    }
  }

  lemma CompactedWithin(out: seq<KeyValue>, a: multiset<KeyValue>, drop: bool, b: multiset<KeyValue>)
    requires Compacts(out, a, drop)
    ensures forall e :: e in multiset(out) + b ==> e in a + b
    ensures forall d :: d in Dropped(a, drop) ==> d in a + b && d.retract
  {
    CompactedIn(out, a, drop);
  }

  lemma CompactedUnder(out: seq<KeyValue>, a: multiset<KeyValue>, drop: bool, b: multiset<KeyValue>,
                       gone: multiset<KeyValue>, e: KeyValue)
    requires Compacts(out, a, drop) && (Under(e, a + b) || Under(e, gone))
    ensures Under(e, multiset(out) + b) || Under(e, gone + Dropped(a, drop))
  {
    if Under(e, a + b) {
      StillUnder(out, a, drop, b, e);
      if !Under(e, multiset(out) + b) { UnderMore(e, Dropped(a, drop), gone + Dropped(a, drop)); }
    } else {
      UnderMore(e, gone, gone + Dropped(a, drop));
    }
  }

  lemma CompactedClear(out: seq<KeyValue>, a: multiset<KeyValue>, drop: bool, b: multiset<KeyValue>,
                       gone: multiset<KeyValue>)
    requires Compacts(out, a, drop) && Clear(a + b, gone) && Clear(multiset(out) + b, Dropped(a, drop))
    ensures Clear(multiset(out) + b, gone + Dropped(a, drop))
  {
    forall r, d | Visible(r, multiset(out) + b) && d in gone + Dropped(a, drop) && d.key == r.key ensures SeqLt(d, r) {
      if d in gone { OnceShown(out, a, drop, b, r); }
    }
  }

  lemma CompactedAccounts(out: seq<KeyValue>, a: multiset<KeyValue>, drop: bool, b: multiset<KeyValue>,
                          gone: multiset<KeyValue>, written: multiset<KeyValue>)
    requires Accounts(a + b, gone, written) && Compacts(out, a, drop) && Clear(multiset(out) + b, Dropped(a, drop))
    ensures Accounts(multiset(out) + b, gone + Dropped(a, drop), written)
  {
    var recs, all := multiset(out) + b, gone + Dropped(a, drop);
    CompactedWithin(out, a, drop, b);
    CompactedClear(out, a, drop, b, gone);
    forall d | d in all ensures d in written && d.retract { assert d in gone || d in Dropped(a, drop); }
    forall e | e in written ensures Under(e, recs) || Under(e, all) { CompactedUnder(out, a, drop, b, gone, e); }
  }

  /** The output says nothing about the keys of dropped retractions. */
  lemma NothingOfKey(out: seq<KeyValue>, a: multiset<KeyValue>, drop: bool, f: KeyValue, e: KeyValue)
    requires Compacts(out, a, drop) && NoTies(a) && f in Dropped(a, drop) && e in out
    ensures e.key != f.key
  {
    var full :| LatestPerKey(full, a) && Pruned(out, full, drop);
    LatestHas(full, a, f);
    if e.key == f.key { SameKey(full, e, f); }
  }

  /** So only what is beside the compacted records matters for them. */
  lemma ClearBeside(out: seq<KeyValue>, a: multiset<KeyValue>, drop: bool, b: multiset<KeyValue>)
    requires Compacts(out, a, drop) && NoTies(a)
    ensures Clear(multiset(out) + b, Dropped(a, drop)) <==> Clear(b, Dropped(a, drop))
  {
    var recs, gone := multiset(out) + b, Dropped(a, drop);
    forall r: KeyValue, f | f in gone && f.key == r.key ensures Visible(r, recs) <==> Visible(r, b) {
      forall e | e in out ensures e.key != f.key { NothingOfKey(out, a, drop, f, e); }
      if Visible(r, b) { forall e | e in recs && e.key == r.key ensures SeqLe(e, r) { assert e in b; } }
      if Visible(r, recs) { forall e | e in b && e.key == r.key ensures SeqLe(e, r) { assert e in recs; } }
    }
  }

  /** Putting a compaction's output in the place of its input leaves what a reader sees unchanged exactly if
      what is beside it shows nothing older than a retraction that is dropped. */
  lemma CompactedIff(out: seq<KeyValue>, a: multiset<KeyValue>, drop: bool, b: multiset<KeyValue>,
                     gone: multiset<KeyValue>, written: multiset<KeyValue>)
    requires Accounts(a + b, gone, written) && Compacts(out, a, drop)
    ensures SameView(multiset(out) + b, written) <==> Clear(b, Dropped(a, drop))
    ensures Clear(b, Dropped(a, drop)) ==> Accounts(multiset(out) + b, gone + Dropped(a, drop), written)
  {
    assert NoTies(a) by {
      assert forall e :: e in a ==> e in a + b;
      SubNoTies(a, written);
    }
    ClearBeside(out, a, drop, b);
    if Clear(multiset(out) + b, Dropped(a, drop)) {
      CompactedAccounts(out, a, drop, b, gone, written);
      AccountsView(multiset(out) + b, gone + Dropped(a, drop), written);
    }
    if SameView(multiset(out) + b, written) {
      CompactedWithin(out, a, drop, b);
      SameIsClear(multiset(out) + b, Dropped(a, drop), written);
    }
  }

  lemma SubNoTies(a: multiset<KeyValue>, written: multiset<KeyValue>)
    requires NoTies(written) && forall e :: e in a ==> e in written
    ensures NoTies(a)
  {
  }

  lemma SameKey(s: seq<KeyValue>, a: KeyValue, b: KeyValue)
    requires StrictKeys(s) && a in s && b in s && a.key == b.key
    ensures a == b
  {
    var i :| 0 <= i < |s| && s[i] == a;
    var j :| 0 <= j < |s| && s[j] == b;
    assert i == j;
  }

  /** What is newer than everything is newer than every retraction. */
  lemma NewerIsClear(c: multiset<KeyValue>, recs: multiset<KeyValue>, gone: multiset<KeyValue>,
                     written: multiset<KeyValue>)
    requires Newer(c, written) && Clear(recs, gone) && forall d :: d in gone ==> d in written
    ensures Clear(recs + c, gone)
  {
    forall r, d | Visible(r, recs + c) && d in gone && d.key == r.key ensures SeqLt(d, r) {
      if r !in c {
        assert Visible(r, recs) by {
          forall e | e in recs && e.key == r.key ensures SeqLe(e, r) { assert e in recs + c; }
        }
      }
    }
  }

  lemma NoTiesJoin(a: multiset<KeyValue>, c: multiset<KeyValue>)
    requires NoTies(a) && NoTies(c) && Newer(c, a)
    ensures NoTies(a + c)
  {
  }

  lemma StrictNoTies(rows: seq<KeyValue>)
    requires StrictKeys(rows)
    ensures NoTies(multiset(rows))
  {
    forall a, b | a in multiset(rows) && b in multiset(rows) && a.key == b.key ensures a == b { SameKey(rows, a, b); }
  }
}
