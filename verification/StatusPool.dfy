/** `Status` of include/paimon/status.h: an object owns its error state through a raw pointer. */
module Statuses {
  import opened Records

  /** What a `StatusDetail` tells: `address` is the pointer that shared copies have in common. */
  datatype Detail = Detail(address: int, typeId: string, text: string)

  datatype Error = Error(code: int, message: string, detail: Option<Detail>)

  /** The meaning of a status: `None` is OK. A dead object was destroyed. */
  datatype Slot = Dead | Alive(value: Option<Error>)

  type Pool = seq<Slot>

  datatype Op = NewOk | NewError(error: Error) | Copy(j: nat) | Move(j: nat)
              | CopyAssign(i: nat, j: nat) | MoveAssign(i: nat, j: nat)
              | And(i: nat, j: nat) | AndMove(i: nat, j: nat)
              | AndCopyAssign(i: nat, j: nat) | AndMoveAssign(i: nat, j: nat) | Destroy(i: nat)

  predicate IsAlive(p: Pool, i: int) { 0 <= i < |p| && p[i].Alive? }

  /** The objects an operation names must exist. */
  predicate OpOk(p: Pool, op: Op) {
    match op
    case NewOk => true
    case NewError(_) => true
    case Copy(j) => IsAlive(p, j)
    case Move(j) => IsAlive(p, j)
    case Destroy(i) => IsAlive(p, i)
    case _ => IsAlive(p, op.i) && IsAlive(p, op.j)
  }

  /** The first of two values that is an error. */
  function Both(a: Option<Error>, b: Option<Error>): Option<Error> {
    if a.None? then b else a
  }

  /** What an operation means. Moving leaves OK behind, also when an object is moved to itself. */
  function Meaning(p: Pool, op: Op): Pool
    requires OpOk(p, op)
  {
    match op
    case NewOk => p + [Alive(None)]
    case NewError(e) => p + [Alive(Some(e))]
    case Copy(j) => p + [p[j]]
    case Move(j) => p[j := Alive(None)] + [p[j]]
    case CopyAssign(i, j) => p[i := p[j]]
    case MoveAssign(i, j) => p[i := p[j]][j := Alive(None)]
    case And(i, j) => p + [Alive(Both(p[i].value, p[j].value))]
    case AndMove(i, j) =>
      (if p[i].value.None? then p[j := Alive(None)] else p) + [Alive(Both(p[i].value, p[j].value))]
    case AndCopyAssign(i, j) => p[i := Alive(Both(p[i].value, p[j].value))]
    case AndMoveAssign(i, j) =>
      if p[i].value.None? && p[j].value.Some? then p[i := p[j]][j := Alive(None)] else p
    case Destroy(i) => p[i := Dead]
  }

  /** The objects that an operation may change. */
  function Named(op: Op): set<int> {
    match op
    case NewOk => {}
    case NewError(_) => {}
    case Copy(j) => {}
    case Move(j) => {j}
    case And(i, j) => {}
    case AndMove(i, j) => {j}
    case CopyAssign(i, j) => {i}
    case AndCopyAssign(i, j) => {i}
    case MoveAssign(i, j) => {i, j}
    case AndMoveAssign(i, j) => {i, j}
    case Destroy(i) => {i}
  }

  /** An operation leaves every other object alone. */
  lemma OthersStay(p: Pool, op: Op, k: int)
    requires OpOk(p, op) && 0 <= k < |p| && k !in Named(op)
    ensures |p| <= |Meaning(p, op)| <= |p| + 1 && Meaning(p, op)[k] == p[k]
  {
  }

  lemma Exchanged(p: Pool, i: int, j: int)
    requires 0 <= i < |p| && 0 <= j < |p| && i != j
    ensures multiset(p[i := p[j]][j := Alive(None)]) == multiset(p) - multiset{p[i]} + multiset{Alive(None)}
  {
    assert p[i := p[j]][j] == p[j];
  }

  /** A move neither loses nor doubles an error: the new object has it, and the old one is OK. */
  lemma MoveConserves(p: Pool, j: nat)
    requires OpOk(p, Move(j))
    ensures multiset(Meaning(p, Move(j))) == multiset(p) + multiset{Alive(None)}
    ensures Meaning(p, Move(j))[j] == Alive(None) && Meaning(p, Move(j))[|p|] == p[j]
  {
    assert multiset(p[j := Alive(None)]) == multiset(p) - multiset{p[j]} + multiset{Alive(None)};
  }

  /** A move assignment loses the error of its target and nothing else. An object that is moved to itself loses its
      own. */
  lemma MoveAssignConserves(p: Pool, i: nat, j: nat)
    requires OpOk(p, MoveAssign(i, j))
    ensures multiset(Meaning(p, MoveAssign(i, j))) == multiset(p) - multiset{p[i]} + multiset{Alive(None)}
    ensures Meaning(p, MoveAssign(i, j))[j] == Alive(None) && (i != j ==> Meaning(p, MoveAssign(i, j))[i] == p[j])
  {
    if i == j {
      assert p[i := p[i]] == p;
      assert multiset(p[i := Alive(None)]) == multiset(p) - multiset{p[i]} + multiset{Alive(None)};
    } else {
      Exchanged(p, i, j);
    }
  }

  /** A heap cell: an allocated `State`, or one that was deleted. */
  datatype Cell = Cell(live: bool, error: Error)

  /** A pointer is an index into the heap, or null. */
  type Ptr = Option<int>

  /** Some `Status` objects and the heap they share: `state` is the objects' pointer. */
  datatype Memory = Memory(cells: seq<Cell>, state: seq<Ptr>, alive: seq<bool>)

  ghost predicate Owns(m: Memory, i: int, p: int) {
    0 <= i < |m.state| && i < |m.alive| && m.alive[i] && m.state[i] == Some(p)
  }

  predicate Allocated(m: Memory, p: int) { 0 <= p < |m.cells| && m.cells[p].live }

  /** Every owned cell is allocated, no two objects share one, every allocated cell is owned, and a
      destroyed object points nowhere. */
  ghost predicate Sound(m: Memory) {
    && |m.alive| == |m.state|
    && (forall i, p :: Owns(m, i, p) ==> Allocated(m, p))
    && (forall i, j, p :: Owns(m, i, p) && Owns(m, j, p) ==> i == j)
    && (forall p :: Allocated(m, p) ==> exists i :: Owns(m, i, p))
    && (forall i :: 0 <= i < |m.state| && !m.alive[i] ==> m.state[i] == None)
  }

  function Value(m: Memory, i: int): Slot
    requires 0 <= i < |m.state| == |m.alive|
  {
    if !m.alive[i] then Dead
    else if m.state[i].Some? && Allocated(m, m.state[i].value) then Alive(Some(m.cells[m.state[i].value].error))
    else Alive(None)
  }

  function Abs(m: Memory): (p: Pool)
    requires |m.state| == |m.alive|
    ensures |p| == |m.state| && forall i :: 0 <= i < |p| ==> p[i] == Value(m, i)
  {
    seq(|m.state|, i requires 0 <= i < |m.state| => Value(m, i))
  }

  /** `m` after object `i` has deleted its state. */
  function Freed(m: Memory, i: int): Memory
    requires 0 <= i < |m.state|
  {
    var p := m.state[i];
    Memory(if p.Some? && Allocated(m, p.value) then m.cells[p.value := m.cells[p.value].(live := false)] else m.cells,
           m.state[i := None], m.alive)
  }

  lemma FreedSound(m: Memory, i: int)
    requires Sound(m) && 0 <= i < |m.state| && m.alive[i]
    ensures Sound(Freed(m, i)) && Abs(Freed(m, i)) == Abs(m)[i := Alive(None)]
  {
    var m' := Freed(m, i);
    if m.state[i].Some? { assert Owns(m, i, m.state[i].value); }
    forall j, p | Owns(m', j, p) ensures Owns(m, j, p) && j != i && Allocated(m', p) {
      assert Owns(m, j, p);
    }
    forall p | Allocated(m', p) ensures exists j :: Owns(m', j, p) {
      assert Allocated(m, p);
      var j :| Owns(m, j, p);
      assert Owns(m', j, p);
    }
    forall j | 0 <= j < |m.state| && j != i ensures Value(m', j) == Value(m, j) {
      if m.alive[j] && m.state[j].Some? { assert Owns(m, j, m.state[j].value); }
    }
  }

  /** `m` after object `i` got a fresh state. */
  function Filled(m: Memory, i: int, e: Error): Memory
    requires 0 <= i < |m.state|
  {
    Memory(m.cells + [Cell(true, e)], m.state[i := Some(|m.cells|)], m.alive)
  }

  lemma FilledSound(m: Memory, i: int, e: Error)
    requires Sound(m) && 0 <= i < |m.state| && m.alive[i] && m.state[i] == None
    ensures Sound(Filled(m, i, e)) && Abs(Filled(m, i, e)) == Abs(m)[i := Alive(Some(e))]
  {
    var m' := Filled(m, i, e);
    forall j, p | Owns(m', j, p)
      ensures Allocated(m', p) && (j == i <==> p == |m.cells|) && (j != i ==> Owns(m, j, p))
    {
      if j != i { assert Owns(m, j, p); }
    }
    forall p | Allocated(m', p) ensures exists j :: Owns(m', j, p) {
      if p == |m.cells| {
        assert Owns(m', i, p);
      } else {
        assert Allocated(m, p);
        var j :| Owns(m, j, p);
        assert Owns(m', j, p);
      }
    }
    forall j | 0 <= j < |m.state| && j != i ensures Value(m', j) == Value(m, j) {
      if m.alive[j] && m.state[j].Some? { assert Owns(m, j, m.state[j].value); }
    }
  }

  /** `m` after the state of object `j` went to object `i`. */
  function Handed(m: Memory, i: int, j: int): Memory
    requires 0 <= i < |m.state| && 0 <= j < |m.state|
  {
    m.(state := m.state[i := m.state[j]][j := None])
  }

  lemma HandedSound(m: Memory, i: int, j: int)
    requires Sound(m) && 0 <= i < |m.state| && 0 <= j < |m.state| && i != j
    requires m.alive[i] && m.alive[j] && m.state[i] == None
    ensures Sound(Handed(m, i, j)) && Abs(Handed(m, i, j)) == Abs(m)[i := Abs(m)[j]][j := Alive(None)]
  {
    var m' := Handed(m, i, j);
    forall k, p | Owns(m', k, p) ensures Owns(m, if k == i then j else k, p) {}
    forall p | Allocated(m', p) ensures exists k :: Owns(m', k, p) {
      assert Allocated(m, p);
      var k :| Owns(m, k, p);
      assert Owns(m', if k == j then i else k, p);
    }
    forall k | 0 <= k < |m.state| && k != i && k != j ensures Value(m', k) == Value(m, k) {}
  }

  function Added(m: Memory): Memory {
    m.(state := m.state + [None], alive := m.alive + [true])
  }

  lemma AddedSound(m: Memory)
    requires Sound(m)
    ensures Sound(Added(m)) && Abs(Added(m)) == Abs(m) + [Alive(None)]
  {
    var m' := Added(m);
    forall k, p | Owns(m', k, p) ensures Owns(m, k, p) {}
    forall p | Allocated(m', p) ensures exists k :: Owns(m', k, p) {
      assert Allocated(m, p);
      var k :| Owns(m, k, p);
      assert Owns(m', k, p);
    }
    forall k | 0 <= k < |m.state| ensures Value(m', k) == Value(m, k) {}
  }

  function Ended(m: Memory, i: int): Memory
    requires 0 <= i < |m.alive|
  {
    m.(alive := m.alive[i := false])
  }

  lemma EndedSound(m: Memory, i: int)
    requires Sound(m) && 0 <= i < |m.state| && m.state[i] == None
    ensures Sound(Ended(m, i)) && Abs(Ended(m, i)) == Abs(m)[i := Dead]
  {
    var m' := Ended(m, i);
    forall k, p | Owns(m', k, p) ensures Owns(m, k, p) {}
    forall p | Allocated(m', p) ensures exists k :: Owns(m', k, p) {
      assert Allocated(m, p);
      var k :| Owns(m, k, p);
      assert Owns(m', k, p);
    }
    forall k | 0 <= k < |m.state| && k != i ensures Value(m', k) == Value(m, k) {}
  }

  /** Pointers of living objects are equal exactly for one object and for two OK objects. */
  lemma PointerTest(m: Memory, i: int, j: int)
    requires Sound(m) && 0 <= i < |m.state| && 0 <= j < |m.state| && m.alive[i] && m.alive[j]
    ensures m.state[i] == m.state[j] <==> i == j || (Value(m, i) == Alive(None) && Value(m, j) == Alive(None))
    ensures m.state[i].None? <==> Value(m, i) == Alive(None)
    ensures m.state[j].None? <==> Value(m, j) == Alive(None)
  {
    if m.state[i].Some? { assert Owns(m, i, m.state[i].value); }
    if m.state[j].Some? { assert Owns(m, j, m.state[j].value); }
  }

  class StatusPool {
    var cells: seq<Cell>
    var state: seq<Ptr>
    var alive: seq<bool>

    ghost function M(): Memory reads this { Memory(cells, state, alive) }

    ghost predicate Valid() reads this { Sound(M()) }

    constructor ()
      ensures Valid() && Abs(M()) == []
    {
      cells, state, alive := [], [], [];
    }

    /** `delete state_`. Deleting a cell twice would break the precondition. */
    method Delete(p: Ptr)
      requires p.Some? ==> Allocated(M(), p.value)
      modifies this`cells
      ensures cells == if p.None? then old(cells) else old(cells)[p.value := old(cells)[p.value].(live := false)]
    {
      if p.Some? {
        cells := cells[p.value := cells[p.value].(live := false)];
      }
    }

    /** `new State(*p)`. Reading a deleted cell would break the precondition. */
    method NewState(e: Error) returns (p: Ptr)
      modifies this`cells
      ensures p == Some(|old(cells)|) && cells == old(cells) + [Cell(true, e)]
    {
      p := Some(|cells|);
      cells := cells + [Cell(true, e)];
    }

    lemma Owned(i: int)
      requires Valid() && 0 <= i < |state| && alive[i]
      ensures state[i].Some? ==> Allocated(M(), state[i].value)
    {
      if state[i].Some? { assert Owns(M(), i, state[i].value); }
    }

    method Construct() returns (i: int)
      requires Valid()
      modifies this
      ensures Valid() && i == old(|state|) && M() == Added(old(M())) && Abs(M()) == old(Abs(M())) + [Alive(None)]
    {
      AddedSound(M());
      i := |state|;
      state, alive := state + [None], alive + [true];
    }

    method ConstructError(e: Error)
      requires Valid()
      modifies this
      ensures Valid() && Abs(M()) == Meaning(old(Abs(M())), NewError(e))
    {
      var i := Construct();
      FilledSound(M(), i, e);
      var p := NewState(e);
      state := state[i := p];
    }

    method CopyConstruct(j: int)
      requires Valid() && 0 <= j < |state| && alive[j]
      modifies this
      ensures Valid() && Abs(M()) == Meaning(old(Abs(M())), Copy(j))
    {
      Owned(j);
      if state[j].None? {
        var i := Construct();
      } else {
        ConstructError(cells[state[j].value].error);
      }
    }

    method MoveConstruct(j: int)
      requires Valid() && 0 <= j < |state| && alive[j]
      modifies this
      ensures Valid() && Abs(M()) == Meaning(old(Abs(M())), Move(j))
    {
      var i := Construct();
      HandedSound(M(), i, j);
      state := state[i := state[j]];
      state := state[j := None];
    }

    method CopyFrom(i: int, j: int)
      requires Valid() && 0 <= i < |state| && 0 <= j < |state| && alive[i] && alive[j] && i != j
      modifies this
      ensures Valid() && Abs(M()) == Meaning(old(Abs(M())), CopyAssign(i, j))
    {
      Owned(i);
      Owned(j);
      FreedSound(M(), i);
      ghost var freed := Freed(M(), i);
      Delete(state[i]);
      assert state[j].Some? ==> Allocated(freed, state[j].value) by {
        if state[j].Some? { assert Owns(freed, j, state[j].value); }
      }
      if state[j].None? {
        state := state[i := None];
        assert M() == freed;
      } else {
        var e := cells[state[j].value].error;
        FilledSound(freed, i, e);
        var p := NewState(e);
        state := state[i := p];
        assert M().state == Filled(freed, i, e).state;
        assert M() == Filled(freed, i, e);
      }
    }

    method CopyAssignTo(i: int, j: int)
      requires Valid() && 0 <= i < |state| && 0 <= j < |state| && alive[i] && alive[j]
      modifies this
      ensures Valid() && Abs(M()) == Meaning(old(Abs(M())), CopyAssign(i, j))
    {
      PointerTest(M(), i, j);
      if state[i] != state[j] {
        CopyFrom(i, j);
      }
    }

    method MoveFrom(i: int, j: int)
      requires Valid() && 0 <= i < |state| && 0 <= j < |state| && alive[i] && alive[j]
      modifies this
      ensures Valid() && Abs(M()) == Meaning(old(Abs(M())), MoveAssign(i, j))
    {
      Owned(i);
      FreedSound(M(), i);
      ghost var freed := Freed(M(), i);
      if i != j { HandedSound(freed, i, j); }
      Delete(state[i]);
      state := state[i := state[j]];
      state := state[j := None];
      assert M().state == Handed(freed, i, j).state;
      assert M() == if i == j then freed else Handed(freed, i, j);
    }

    method DestroyObject(i: int)
      requires Valid() && 0 <= i < |state| && alive[i]
      modifies this
      ensures Valid() && Abs(M()) == Meaning(old(Abs(M())), Destroy(i))
    {
      Owned(i);
      FreedSound(M(), i);
      ghost var freed := Freed(M(), i);
      EndedSound(freed, i);
      if state[i].Some? {
        Delete(state[i]);
        state := state[i := None];
      }
      assert state == freed.state;
      alive := alive[i := false];
      assert M() == Ended(freed, i);
    }

    /** Executes any operation. */
    method Execute(op: Op)
      requires Valid() && OpOk(Abs(M()), op)
      modifies this
      ensures Valid() && Abs(M()) == Meaning(old(Abs(M())), op)
    {
      match op
      case NewOk => var i := Construct();
      case NewError(e) => ConstructError(e);
      case Copy(j) => CopyConstruct(j);
      case Move(j) => MoveConstruct(j);
      case CopyAssign(i, j) => CopyAssignTo(i, j);
      case MoveAssign(i, j) => MoveFrom(i, j);
      case And(i, j) =>
        PointerTest(M(), i, j);
        if state[i].None? { CopyConstruct(j); } else { CopyConstruct(i); }
      case AndMove(i, j) =>
        PointerTest(M(), i, j);
        if state[i].None? { MoveConstruct(j); } else { CopyConstruct(i); }
      case AndCopyAssign(i, j) =>
        PointerTest(M(), i, j);
        if state[i].None? && state[j].Some? { CopyFrom(i, j); }
      case AndMoveAssign(i, j) =>
        PointerTest(M(), i, j);
        if state[i].None? && state[j].Some? { MoveFrom(i, j); }
      case Destroy(i) => DestroyObject(i);
    }

    /** Executes any sequence of operations. */
    method ExecuteAll(ops: seq<Op>)
      requires Valid() && AllOk(Abs(M()), ops)
      modifies this
      ensures Valid() && Abs(M()) == MeaningOf(old(Abs(M())), ops)
    {
      var k := 0;
      while k < |ops|
        invariant 0 <= k <= |ops| && Valid()
        invariant AllOk(Abs(M()), ops[k..]) && MeaningOf(Abs(M()), ops[k..]) == MeaningOf(old(Abs(M())), ops)
      {
        assert ops[k..][0] == ops[k] && ops[k..][1..] == ops[k+1..];
        Execute(ops[k]);
        k := k + 1;
      }
    }
  }

  predicate AllOk(p: Pool, ops: seq<Op>)
    decreases ops
  {
    ops != [] ==> OpOk(p, ops[0]) && AllOk(Meaning(p, ops[0]), ops[1..])
  }

  function MeaningOf(p: Pool, ops: seq<Op>): Pool
    requires AllOk(p, ops)
    decreases ops
  {
    if ops == [] then p else MeaningOf(Meaning(p, ops[0]), ops[1..])
  }

  ghost predicate HoldsError(m: Memory, i: int) {
    0 <= i < |m.state| == |m.alive| && Value(m, i) != Dead && Value(m, i) != Alive(None)
  }

  /** Memory is allocated exactly while a living object holds an error, so nothing leaks. */
  lemma NothingLeaks(m: Memory)
    requires Sound(m)
    ensures (exists p :: Allocated(m, p)) <==> exists i :: HoldsError(m, i)
  {
    if p :| Allocated(m, p) {
      var i :| Owns(m, i, p);
      assert HoldsError(m, i);
    }
    if i :| HoldsError(m, i) {
      assert Allocated(m, m.state[i].value);
    }
  }

  function FirstError(vs: seq<Option<Error>>): Option<Error> {
    if vs == [] then None else Both(vs[0], FirstError(vs[1..]))
  }

  /** Folding `&` from the left, as a chain of `&` or `&=` does. */
  function Fold(acc: Option<Error>, vs: seq<Option<Error>>): Option<Error>
    decreases vs
  {
    if vs == [] then acc else Fold(Both(acc, vs[0]), vs[1..])
  }

  /** The fold is the first error, and OK is the identity. */
  lemma {:induction false} FoldIsFirstError(acc: Option<Error>, vs: seq<Option<Error>>)
    ensures Fold(acc, vs) == Both(acc, FirstError(vs))
    ensures Fold(None, vs) == FirstError(vs)
    decreases vs
  {
    if vs != [] {
      FoldIsFirstError(Both(acc, vs[0]), vs[1..]);
      FoldIsFirstError(Both(None, vs[0]), vs[1..]);
    }
  }

  /** The first error is at the first index that holds one. */
  lemma {:induction false} FirstErrorIs(vs: seq<Option<Error>>, k: int)
    requires 0 <= k < |vs| && vs[k].Some? && forall i :: 0 <= i < k ==> vs[i].None?
    ensures FirstError(vs) == vs[k]
  {
    if k > 0 {
      FirstErrorIs(vs[1..], k - 1);
    }
  }

  /** `Equals`, on two states given by their pointers and contents. */
  predicate Equals(p: Ptr, a: Error, q: Ptr, b: Error) {
    if p == q then true
    else if p.None? || q.None? then false
    else if Address(a) != Address(b) then
      a.detail.Some? && b.detail.Some? && SameDetail(a.detail.value, b.detail.value)
    else a.code == b.code && a.message == b.message
  }

  function Address(e: Error): Option<int> {
    if e.detail.None? then None else Some(e.detail.value.address)
  }

  predicate SameDetail(d: Detail, e: Detail) { d.typeId == e.typeId && d.text == e.text }

  /** The same code, message and detail. */
  predicate SameError(a: Error, b: Error) {
    && a.code == b.code && a.message == b.message
    && (a.detail.Some? <==> b.detail.Some?)
    && (a.detail.Some? ==> SameDetail(a.detail.value, b.detail.value))
  }

  /** `Equals` on two separate errors compares code, message and detail, except that two details of
      equal content behind different pointers hide a difference of code or message. */
  lemma EqualsIff(p: int, a: Error, q: int, b: Error)
    requires p != q && (Address(a) == Address(b) && a.detail.Some? ==> a.detail == b.detail)
    ensures (Equals(Some(p), a, Some(q), b) <==> SameError(a, b)) <==>
      !(Address(a) != Address(b) && a.detail.Some? && b.detail.Some? && SameDetail(a.detail.value, b.detail.value)
        && (a.code != b.code || a.message != b.message))
  {
  }

  /** So it is not transitive. */
  lemma EqualsNotTransitive()
    ensures exists a, b, c ::
      Equals(Some(0), a, Some(1), b) && Equals(Some(1), b, Some(2), c) && !Equals(Some(0), a, Some(2), c)
  {
    var d, e := Detail(10, "t", "x"), Detail(11, "t", "x");
    var a, b, c := Error(1, "m", Some(d)), Error(1, "m", Some(e)), Error(2, "m", Some(d));
    assert Equals(Some(0), a, Some(1), b) && Equals(Some(1), b, Some(2), c) && !Equals(Some(0), a, Some(2), c);
  }
}
