/** `Result<T>` of include/paimon/result.h: a hand-managed union whose value must be alive exactly when
    the status is OK. */
module Results {
  import opened Records

  /** The storage of the value: raw memory, or a living value. `None` is a value that was moved from. */
  datatype Storage = Raw | Living(value: Option<int>)

  /** A `Result`. The status is OK when `error` is `None`. */
  datatype Object = Object(alive: bool, error: Option<int>, storage: Storage)

  /** `built` and `ended` count the constructor and destructor calls of the value type. */
  datatype Memory = Memory(objects: seq<Object>, built: int, ended: int)

  ghost predicate ObjectOk(o: Object) {
    o.storage.Living? <==> o.alive && o.error.None?
  }

  function CountLiving(os: seq<Object>): nat {
    if os == [] then 0 else CountLiving(os[..|os|-1]) + if os[|os|-1].storage.Living? then 1 else 0
  }

  function CountOk(os: seq<Object>): nat {
    if os == [] then 0 else CountOk(os[..|os|-1]) + if os[|os|-1].alive && os[|os|-1].error.None? then 1 else 0
  }

  /** A value is alive exactly in a living OK result, and the values built but not ended are these. */
  ghost predicate Sound(m: Memory) {
    && (forall i :: 0 <= i < |m.objects| ==> ObjectOk(m.objects[i]))
    && m.built - m.ended == CountLiving(m.objects)
  }

  /** What a caller sees of a result. */
  datatype Slot = Dead | Failed(error: int) | Holds(value: Option<int>) | Broken

  function Meaning(o: Object): Slot {
    if !o.alive then Dead
    else if o.error.Some? then Failed(o.error.value)
    else if o.storage.Living? then Holds(o.storage.value)
    else Broken
  }

  type Pool = seq<Slot>

  function Abs(m: Memory): (p: Pool)
    ensures |p| == |m.objects| && forall i :: 0 <= i < |p| ==> p[i] == Meaning(m.objects[i])
  {
    seq(|m.objects|, i requires 0 <= i < |m.objects| => Meaning(m.objects[i]))
  }

  datatype Op = FromValue(value: int) | FromError(error: int) | Copy(j: nat) | Move(j: nat)
              | CopyAssign(i: nat, j: nat) | MoveAssign(i: nat, j: nat) | Destroy(i: nat)

  predicate IsAlive(p: Pool, i: int) { 0 <= i < |p| && p[i] != Dead }

  predicate OpOk(p: Pool, op: Op) {
    match op
    case FromValue(_) => true
    case FromError(_) => true
    case Copy(j) => IsAlive(p, j)
    case Move(j) => IsAlive(p, j)
    case CopyAssign(i, j) => IsAlive(p, i) && IsAlive(p, j)
    case MoveAssign(i, j) => IsAlive(p, i) && IsAlive(p, j)
    case Destroy(i) => IsAlive(p, i)
  }

  /** What moving leaves behind: an error stays, a value is moved from. */
  function MovedFrom(s: Slot): Slot { if s.Holds? then Holds(None) else s }

  function After(p: Pool, op: Op): Pool
    requires OpOk(p, op)
  {
    match op
    case FromValue(v) => p + [Holds(Some(v))]
    case FromError(e) => p + [Failed(e)]
    case Copy(j) => p + [p[j]]
    case Move(j) => p[j := MovedFrom(p[j])] + [p[j]]
    case CopyAssign(i, j) => p[i := p[j]]
    case MoveAssign(i, j) => if i == j then p else p[i := p[j]][j := MovedFrom(p[j])]
    case Destroy(i) => p[i := Dead]
  }

  /** A moved value is in the new result alone, and a moved error in both, because the status is copied. */
  lemma MovedValue(p: Pool, j: nat)
    requires OpOk(p, Move(j))
    ensures var q := After(p, Move(j));
      && |q| == |p| + 1 && q[|p|] == p[j] && (forall k :: 0 <= k < |p| && k != j ==> q[k] == p[k])
      && (p[j].Holds? ==> q[j] == Holds(None)) && (p[j].Failed? ==> q[j] == p[j])
  {
  }

  /** So it is with assignments, except that a result assigned to itself stays as it is. */
  lemma AssignedValue(p: Pool, i: nat, j: nat)
    requires OpOk(p, MoveAssign(i, j)) && OpOk(p, CopyAssign(i, j))
    ensures i == j ==> After(p, MoveAssign(i, j)) == p && After(p, CopyAssign(i, j)) == p
    ensures i != j ==> var q, r := After(p, MoveAssign(i, j)), After(p, CopyAssign(i, j));
      && q[i] == r[i] == p[j] && r[j] == p[j] && (q[j] == if p[j].Holds? then Holds(None) else p[j])
      && forall k :: 0 <= k < |p| && k != i && k != j ==> q[k] == r[k] == p[k]
  {
    assert p[i := p[i]] == p;
  }

  lemma {:induction false} CountUpdate(os: seq<Object>, i: int, o: Object)
    requires 0 <= i < |os|
    ensures CountLiving(os[i := o]) == CountLiving(os) - Unit(os[i].storage.Living?) + Unit(o.storage.Living?)
  {
    var last := |os| - 1;
    if i < last {
      CountUpdate(os[..last], i, o);
      assert os[i := o][..last] == os[..last][i := o];
    } else {
      assert os[i := o][..last] == os[..last];
    }
  }

  lemma CountMore(os: seq<Object>, o: Object)
    ensures CountLiving(os + [o]) == CountLiving(os) + Unit(o.storage.Living?)
  {
    assert (os + [o])[..|os|] == os;
  }

  function Unit(b: bool): int { if b then 1 else 0 }

  /** The number of living values is the number of living OK results. */
  lemma {:induction false} LivingAreOk(os: seq<Object>)
    requires forall i :: 0 <= i < |os| ==> ObjectOk(os[i])
    ensures CountLiving(os) == CountOk(os)
  {
    if os != [] { LivingAreOk(os[..|os|-1]); }
  }

  /** Once every result is destroyed, every value that was built has been ended. */
  lemma {:induction false} AllEnded(m: Memory)
    requires Sound(m) && forall i :: 0 <= i < |m.objects| ==> !m.objects[i].alive
    ensures m.built == m.ended
  {
    LivingAreOk(m.objects);
    NoneOk(m.objects);
  }

  lemma {:induction false} NoneOk(os: seq<Object>)
    requires forall i :: 0 <= i < |os| ==> !os[i].alive
    ensures CountOk(os) == 0
  {
    if os != [] { NoneOk(os[..|os|-1]); }
  }

  /** What moving leaves of an object. */
  function Left(o: Object, move: bool): Object {
    if move && o.storage.Living? then o.(storage := Living(None)) else o
  }

  /** `m` with object `i` replaced and the calls counted. */
  function Replaced(m: Memory, i: int, o: Object): Memory
    requires 0 <= i < |m.objects|
  {
    Memory(m.objects[i := o], m.built + Unit(o.storage.Living? && !m.objects[i].storage.Living?),
           m.ended + Unit(!o.storage.Living? && m.objects[i].storage.Living?))
  }

  lemma ReplacedSound(m: Memory, i: int, o: Object)
    requires Sound(m) && 0 <= i < |m.objects| && ObjectOk(o)
    ensures Sound(Replaced(m, i, o)) && Abs(Replaced(m, i, o)) == Abs(m)[i := Meaning(o)]
  {
    CountUpdate(m.objects, i, o);
  }

  function Appended(m: Memory, o: Object): Memory {
    Memory(m.objects + [o], m.built + Unit(o.storage.Living?), m.ended)
  }

  lemma AppendedSound(m: Memory, o: Object)
    requires Sound(m) && ObjectOk(o)
    ensures Sound(Appended(m, o)) && Abs(Appended(m, o)) == Abs(m) + [Meaning(o)]
  {
    CountMore(m.objects, o);
  }

  /** The copy and the move constructor. */
  lemma ConstructedSound(m: Memory, j: int, move: bool)
    requires Sound(m) && 0 <= j < |m.objects| && m.objects[j].alive
    ensures var m' := Appended(Replaced(m, j, Left(m.objects[j], move)), m.objects[j]);
      Sound(m') && Abs(m') == After(Abs(m), if move then Move(j) else Copy(j))
  {
    var o := m.objects[j];
    assert ObjectOk(o);
    ReplacedSound(m, j, Left(o, move));
    AppendedSound(Replaced(m, j, Left(o, move)), o);
    assert !move ==> Abs(m)[j := Abs(m)[j]] == Abs(m);
  }

  /** The copy and the move assignment. */
  lemma AssignedSound(m: Memory, i: int, j: int, move: bool)
    requires Sound(m) && 0 <= i < |m.objects| && 0 <= j < |m.objects| && i != j && m.objects[i].alive
    requires m.objects[j].alive
    ensures var m' := Replaced(Replaced(m, i, m.objects[j]), j, Left(m.objects[j], move));
      Sound(m') && Abs(m') == After(Abs(m), if move then MoveAssign(i, j) else CopyAssign(i, j))
  {
    var o := m.objects[j];
    assert ObjectOk(o);
    ReplacedSound(m, i, o);
    ReplacedSound(Replaced(m, i, o), j, Left(o, move));
    assert !move ==> Abs(m)[i := Abs(m)[j]][j := Abs(m)[j]] == Abs(m)[i := Abs(m)[j]];
  }

  class ResultPool {
    var objects: seq<Object>
    var built: int
    var ended: int

    ghost function M(): Memory reads this { Memory(objects, built, ended) }

    constructor ()
      ensures Sound(M()) && Abs(M()) == []
    {
      objects, built, ended := [], 0, 0;
    }

    /** Raw storage for a new result, not yet a result. */
    method Allocate() returns (i: int)
      modifies this`objects
      ensures i == old(|objects|) && objects == old(objects) + [Object(false, None, Raw)]
    {
      i := |objects|;
      objects := objects + [Object(false, None, Raw)];
    }

    /** Placement new of the value. Building over a living value would break the precondition. */
    method MakeValue(i: int, v: Option<int>)
      requires 0 <= i < |objects| && objects[i].storage == Raw
      modifies this`objects, this`built
      ensures objects == old(objects)[i := old(objects)[i].(storage := Living(v))] && built == old(built) + 1
    {
      objects := objects[i := objects[i].(storage := Living(v))];
      built := built + 1;
    }

    /** Placement new of the status, the last step of every constructor. */
    method MakeStatus(i: int, error: Option<int>)
      requires 0 <= i < |objects|
      modifies this`objects
      ensures objects == old(objects)[i := old(objects)[i].(alive := true, error := error)]
    {
      objects := objects[i := objects[i].(alive := true, error := error)];
    }

    /** `data_.~T()`. Ending a value twice would break the precondition. */
    method EndValue(i: int)
      requires 0 <= i < |objects| && objects[i].storage.Living?
      modifies this`objects, this`ended
      ensures objects == old(objects)[i := old(objects)[i].(storage := Raw)] && ended == old(ended) + 1
    {
      objects := objects[i := objects[i].(storage := Raw)];
      ended := ended + 1;
    }

    /** Reads a value, leaving it moved from when it is moved. */
    method TakeValue(j: int, move: bool) returns (v: Option<int>)
      requires 0 <= j < |objects| && objects[j].storage.Living?
      modifies this`objects
      ensures v == old(objects[j].storage.value)
      ensures objects == if move then old(objects)[j := old(objects)[j].(storage := Living(None))] else old(objects)
    {
      v := objects[j].storage.value;
      if move {
        objects := objects[j := objects[j].(storage := Living(None))];
      }
    }

    method ConstructValue(v: int)
      requires Sound(M())
      modifies this
      ensures Sound(M()) && Abs(M()) == After(old(Abs(M())), FromValue(v))
    {
      AppendedSound(M(), Object(true, None, Living(Some(v))));
      ghost var before := objects;
      var i := Allocate();
      MakeValue(i, Some(v));
      MakeStatus(i, None);
      assert objects == before + [Object(true, None, Living(Some(v)))];
    }

    /** `Result(const Status&)`: builds no value, whatever the status. */
    method ConstructStatus(error: Option<int>)
      modifies this
      ensures M() == WithStatus(old(M()), error)
    {
      ghost var before := objects;
      var i := Allocate();
      MakeStatus(i, error);
      assert objects == before + [Object(true, error, Raw)];
    }

    /** The copy and the move constructor. The status is copied in both. */
    method ConstructFrom(j: int, move: bool)
      requires Sound(M()) && 0 <= j < |objects| && objects[j].alive
      modifies this
      ensures Sound(M()) && Abs(M()) == After(old(Abs(M())), if move then Move(j) else Copy(j))
    {
      ghost var before := objects;
      assert ObjectOk(before[j]);
      ConstructedSound(M(), j, move);
      var i := Allocate();
      if objects[j].error.None? {
        var v := TakeValue(j, move);
        MakeValue(i, v);
      }
      MakeStatus(i, objects[j].error);
      assert objects == before[j := Left(before[j], move)] + [before[j]];
    }

    /** The copy and the move assignment. */
    method Assign(i: int, j: int, move: bool)
      requires Sound(M()) && 0 <= i < |objects| && 0 <= j < |objects| && objects[i].alive && objects[j].alive
      modifies this
      ensures Sound(M()) && Abs(M()) == After(old(Abs(M())), if move then MoveAssign(i, j) else CopyAssign(i, j))
    {
      if i == j {
        assert Abs(M())[i := Abs(M())[i]] == Abs(M());
        return;
      }
      ghost var before := objects;
      assert ObjectOk(before[i]) && ObjectOk(before[j]);
      AssignedSound(M(), i, j, move);
      if objects[j].error.None? {
        var v := TakeValue(j, move);
        if objects[i].error.None? {
          objects := objects[i := objects[i].(storage := Living(v))];
        } else {
          MakeValue(i, v);
        }
      } else if objects[i].error.None? {
        EndValue(i);
      }
      objects := objects[i := objects[i].(error := objects[j].error)];
      assert objects == before[i := before[j]][j := Left(before[j], move)];
    }

    method DestroyObject(i: int)
      requires Sound(M()) && 0 <= i < |objects| && objects[i].alive
      modifies this
      ensures Sound(M()) && Abs(M()) == After(old(Abs(M())), Destroy(i))
    {
      ghost var before := objects;
      assert ObjectOk(before[i]);
      ReplacedSound(M(), i, Object(false, None, Raw));
      if objects[i].error.None? {
        EndValue(i);
      }
      objects := objects[i := objects[i].(alive := false, error := None)];
      assert objects == before[i := Object(false, None, Raw)];
    }

    method Execute(op: Op)
      requires Sound(M()) && OpOk(Abs(M()), op)
      modifies this
      ensures Sound(M()) && Abs(M()) == After(old(Abs(M())), op)
    {
      match op
      case FromValue(v) => ConstructValue(v);
      case FromError(e) =>
        StatusNeedsError(M(), Some(e));
        ConstructStatus(Some(e));
      case Copy(j) => ConstructFrom(j, false);
      case Move(j) => ConstructFrom(j, true);
      case CopyAssign(i, j) => Assign(i, j, false);
      case MoveAssign(i, j) => Assign(i, j, true);
      case Destroy(i) => DestroyObject(i);
    }

    /** Executes any sequence of operations. */
    method ExecuteAll(ops: seq<Op>)
      requires Sound(M()) && AllOk(Abs(M()), ops)
      modifies this
      ensures Sound(M()) && Abs(M()) == AfterAll(old(Abs(M())), ops)
    {
      var k := 0;
      while k < |ops|
        invariant 0 <= k <= |ops| && Sound(M())
        invariant AllOk(Abs(M()), ops[k..]) && AfterAll(Abs(M()), ops[k..]) == AfterAll(old(Abs(M())), ops)
      {
        assert ops[k..][0] == ops[k] && ops[k..][1..] == ops[k+1..];
        Execute(ops[k]);
        k := k + 1;
      }
    }
  }

  predicate AllOk(p: Pool, ops: seq<Op>)
    decreases ops
  {
    ops != [] ==> OpOk(p, ops[0]) && AllOk(After(p, ops[0]), ops[1..])
  }

  function AfterAll(p: Pool, ops: seq<Op>): Pool
    requires AllOk(p, ops)
    decreases ops
  {
    if ops == [] then p else AfterAll(After(p, ops[0]), ops[1..])
  }

  function WithStatus(m: Memory, error: Option<int>): Memory {
    m.(objects := m.objects + [Object(true, error, Raw)])
  }

  /** Constructing a result from a status is sound exactly when the status is an error. With an OK
      status the result claims a value that was never built. */
  lemma StatusNeedsError(m: Memory, error: Option<int>)
    requires Sound(m)
    ensures Sound(WithStatus(m, error)) <==> error.Some?
    ensures error.Some? ==> Abs(WithStatus(m, error)) == Abs(m) + [Failed(error.value)]
    ensures error.None? ==> Abs(WithStatus(m, error)) == Abs(m) + [Broken]
  {
    var o := Object(true, error, Raw);
    CountMore(m.objects, o);
    var m' := WithStatus(m, error);
    assert m'.objects[|m.objects|] == o;
    assert ObjectOk(o) <==> error.Some?;
  }
}
