/** The read side of crates/vortex_callback_io/callback_io.rs: a host context shared by a reader and
    any number of concurrent reads, released by whoever drops the last reference. */
module CallbackReads {
  import opened Records

  const U64: int := 0x1_0000_0000_0000_0000

  /** A read holds a reference from `read_at` on until its closure is gone. `Waiting` is a future that
      was not polled, `Queued` a closure in the blocking pool, `InCallback` a running host callback,
      `Ending` a closure about to drop, and `Over` a read that holds nothing any more. */
  datatype Phase = Waiting | Queued | InCallback | Ending | Over

  datatype Read = Read(offset: int, length: int, phase: Phase)

  datatype Event = Started(id: int, offset: int, length: int) | Ended(id: int) | Released

  /** `Live` while references exist, `Releasing` while the last holder runs the destructor. */
  datatype Life = Live | Releasing | Gone

  /** `refs` is the reference count of the context. `opening` is the open call's own reference,
      `readers` counts the handles of the reader, which holds one reference for all of them, and
      `issued` lists the reads in the order in which they were asked for. */
  datatype State = State(hasRelease: bool, size: int, refs: int, opening: bool, readers: int,
                         issued: seq<Read>, life: Life, log: seq<Event>)

  datatype Action = Reject | MakeReader | CloneReader | DropReader
                  | Begin(offset: int, length: int) | Cancel(id: int) | Spawn(id: int) | Discard(id: int)
                  | Execute(id: int) | CallbackReturns(id: int) | End(id: int) | RunRelease

  /** `checked_add` and the bounds check, and the test for an empty read. */
  predicate CallsHost(r: Read, size: int) {
    r.offset + r.length < U64 && r.offset + r.length <= size && r.length > 0
  }

  predicate IsU64(x: int) { 0 <= x < U64 }

  predicate At(s: State, id: int, phase: Phase) { 0 <= id < |s.issued| && s.issued[id].phase == phase }

  predicate Enabled(s: State, a: Action) {
    match a
    case Reject => s.opening
    case MakeReader => s.opening
    case CloneReader => s.readers > 0
    case DropReader => s.readers > 0
    case Begin(offset, length) => s.readers > 0 && IsU64(offset) && IsU64(length)
    case Cancel(id) => At(s, id, Waiting)
    case Spawn(id) => At(s, id, Waiting)
    case Discard(id) => At(s, id, Queued)
    case Execute(id) => At(s, id, Queued)
    case CallbackReturns(id) => At(s, id, InCallback)
    case End(id) => At(s, id, Ending)
    case RunRelease => s.life == Releasing
  }

  /** Dropping a reference: the last one starts the destructor. */
  function Dropped(s: State): State {
    s.(refs := s.refs - 1, life := if s.refs == 1 then Releasing else s.life)
  }

  function InPhase(s: State, id: int, phase: Phase): State
    requires 0 <= id < |s.issued|
  {
    s.(issued := s.issued[id := s.issued[id].(phase := phase)])
  }

  function Step(s: State, a: Action): State
    requires Enabled(s, a)
  {
    match a
    case Reject => Dropped(s.(opening := false))
    case MakeReader => s.(opening := false, readers := 1)
    case CloneReader => s.(readers := s.readers + 1)
    case DropReader =>
      var t := s.(readers := s.readers - 1);
      if s.readers == 1 then Dropped(t) else t
    case Begin(offset, length) => s.(refs := s.refs + 1, issued := s.issued + [Read(offset, length, Waiting)])
    case Cancel(id) => Dropped(InPhase(s, id, Over))
    case Spawn(id) => InPhase(s, id, Queued)
    case Discard(id) => Dropped(InPhase(s, id, Over))
    case Execute(id) =>
      var r := s.issued[id];
      if CallsHost(r, s.size) then InPhase(s, id, InCallback).(log := s.log + [Started(id, r.offset, r.length)])
      else InPhase(s, id, Ending)
    case CallbackReturns(id) => InPhase(s, id, Ending).(log := s.log + [Ended(id)])
    case End(id) => Dropped(InPhase(s, id, Over))
    case RunRelease => s.(life := Gone, log := if s.hasRelease then s.log + [Released] else s.log)
  }

  /** The context has just been handed over. */
  ghost predicate Initial(s: State) {
    && IsU64(s.size) && s.refs == 1 && s.opening && s.readers == 0 && s.issued == []
    && s.life == Live && s.log == []
  }

  function Active(rs: seq<Read>): nat {
    if rs == [] then 0 else Active(rs[..|rs|-1]) + if rs[|rs|-1].phase == Over then 0 else 1
  }

  function Holders(s: State): int {
    (if s.opening then 1 else 0) + (if s.readers > 0 then 1 else 0) + Active(s.issued)
  }

  /** Every started callback is running or has ended. */
  ghost predicate Accounted(s: State, id: int) {
    At(s, id, InCallback) || Ended(id) in s.log
  }

  /** A non-empty range inside the file. */
  predicate InFile(e: Event, size: int)
    requires e.Started?
  {
    0 <= e.offset && 0 < e.length && e.offset + e.length <= size < U64
  }

  ghost predicate EventOk(s: State, e: Event) {
    match e
    case Started(id, offset, length) => Accounted(s, id) && InFile(e, s.size)
    case Ended(id) => true
    case Released => s.life == Gone && s.hasRelease
  }

  ghost predicate Inv(s: State) {
    && IsU64(s.size) && s.refs == Holders(s) && s.readers >= 0 && (s.opening ==> s.readers == 0)
    && (s.life == Live <==> s.refs > 0)
    && (forall id :: 0 <= id < |s.issued| ==> IsU64(s.issued[id].offset) && IsU64(s.issued[id].length))
    && (forall i :: 0 <= i < |s.log| ==> EventOk(s, s.log[i]))
    && (forall i :: 0 <= i < |s.log| - 1 ==> s.log[i] != Released)
    && (s.life == Gone && s.hasRelease ==> s.log != [] && s.log[|s.log|-1] == Released)
  }

  lemma InitialInv(s: State)
    requires Initial(s)
    ensures Inv(s)
  {
  }

  lemma {:induction false} ActiveUpdate(rs: seq<Read>, id: int, r: Read)
    requires 0 <= id < |rs|
    ensures Active(rs[id := r]) ==
      Active(rs) - (if rs[id].phase == Over then 0 else 1) + if r.phase == Over then 0 else 1
  {
    var last := |rs| - 1;
    if id < last {
      ActiveUpdate(rs[..last], id, r);
      assert rs[id := r][..last] == rs[..last][id := r];
    } else {
      assert rs[id := r][..last] == rs[..last];
    }
  }

  lemma ActiveMore(rs: seq<Read>, r: Read)
    ensures Active(rs + [r]) == Active(rs) + if r.phase == Over then 0 else 1
  {
    assert (rs + [r])[..|rs|] == rs;
  }

  lemma {:induction false} SomeActive(rs: seq<Read>) returns (id: int)
    requires Active(rs) > 0
    ensures 0 <= id < |rs| && rs[id].phase != Over
  {
    if rs[|rs|-1].phase != Over {
      id := |rs| - 1;
    } else {
      id := SomeActive(rs[..|rs|-1]);
    }
  }

  lemma {:induction false} NoneActive(rs: seq<Read>, id: int)
    requires Active(rs) == 0 && 0 <= id < |rs|
    ensures rs[id].phase == Over
  {
    if id < |rs| - 1 { NoneActive(rs[..|rs|-1], id); }
  }

  /** A read that goes to another phase is one holder more or less exactly if it was or is over. */
  lemma PhaseChanges(s: State, id: int, phase: Phase)
    requires 0 <= id < |s.issued|
    ensures Holders(InPhase(s, id, phase)) ==
      Holders(s) - (if s.issued[id].phase == Over then 0 else 1) + if phase == Over then 0 else 1
  {
    ActiveUpdate(s.issued, id, s.issued[id].(phase := phase));
  }

  lemma ReadCountKept(s: State, a: Action)
    requires Inv(s) && Enabled(s, a)
    requires a.Cancel? || a.Discard? || a.End? || a.Spawn? || a.Execute? || a.CallbackReturns?
    ensures var s' := Step(s, a); s'.refs == Holders(s')
  {
    if a.Cancel? || a.Discard? || a.End? {
      PhaseChanges(s, a.id, Over);
    } else if a.Spawn? {
      PhaseChanges(s, a.id, Queued);
    } else {
      PhaseChanges(s, a.id, InCallback);
      PhaseChanges(s, a.id, Ending);
    }
  }

  /** The reference count stays the number of holders. */
  lemma CountKept(s: State, a: Action)
    requires Inv(s) && Enabled(s, a)
    ensures var s' := Step(s, a);
      && s'.refs == Holders(s') && s'.readers >= 0 && (s'.opening ==> s'.readers == 0)
      && (s'.life == Live <==> s'.refs > 0)
  {
    if a.Begin? {
      ActiveMore(s.issued, Read(a.offset, a.length, Waiting));
    } else if a.Cancel? || a.Discard? || a.End? || a.Spawn? || a.Execute? || a.CallbackReturns? {
      ReadCountKept(s, a);
    }
  }

  /** Nobody can take a step once the last reference is dropped, but the destructor. */
  lemma QuietAfterLast(s: State, a: Action)
    requires Inv(s) && Enabled(s, a) && s.life != Live
    ensures a == RunRelease && s.life == Releasing
  {
    forall id | 0 <= id < |s.issued| ensures s.issued[id].phase == Over { NoneActive(s.issued, id); }
  }

  lemma OldEventsKept(s: State, a: Action, i: int)
    requires Inv(s) && Enabled(s, a) && 0 <= i < |s.log|
    ensures EventOk(Step(s, a), s.log[i])
  {
    assert EventOk(s, s.log[i]);
    if s.life != Live { QuietAfterLast(s, a); }
    var s' := Step(s, a);
    if s.log[i].Started? {
      var id := s.log[i].id;
      if Ended(id) in s.log { assert Ended(id) in s'.log; }
      else if a == CallbackReturns(id) { assert s'.log[|s.log|] == Ended(id); }
    }
  }

  lemma LogKept(s: State, a: Action)
    requires Inv(s) && Enabled(s, a)
    ensures var s' := Step(s, a);
      && (forall i :: 0 <= i < |s'.log| ==> EventOk(s', s'.log[i]))
      && (forall i :: 0 <= i < |s'.log| - 1 ==> s'.log[i] != Released)
      && (s'.life == Gone && s'.hasRelease ==> s'.log != [] && s'.log[|s'.log|-1] == Released)
  {
    var s' := Step(s, a);
    if s.life != Live { QuietAfterLast(s, a); }
    forall i | 0 <= i < |s.log| ensures EventOk(s', s.log[i]) { OldEventsKept(s, a, i); }
    forall i | 0 <= i < |s'.log| ensures EventOk(s', s'.log[i]) {
      if i < |s.log| { assert s'.log[i] == s.log[i]; }
    }
    forall i | 0 <= i < |s.log| ensures s.log[i] != Released { assert EventOk(s, s.log[i]); }
  }

  lemma StepKeepsInv(s: State, a: Action)
    requires Inv(s) && Enabled(s, a)
    ensures Inv(Step(s, a))
  {
    CountKept(s, a);
    LogKept(s, a);
  }

  /** A read that is run reaches the host exactly if it is not empty and inside the file. */
  lemma ReachesHost(s: State, id: int)
    requires Inv(s) && Enabled(s, Execute(id))
    ensures var r, s' := s.issued[id], Step(s, Execute(id));
      if 0 < r.length && r.offset + r.length <= s.size then
        At(s', id, InCallback) && s'.log == s.log + [Started(id, r.offset, r.length)]
      else
        At(s', id, Ending) && s'.log == s.log
  {
  }

  /** A read that is run in the file has reached the host. */
  ghost predicate Arrived(s: State) {
    forall id :: 0 <= id < |s.issued| && (At(s, id, InCallback) || At(s, id, Ending)) ==>
      var r := s.issued[id];
      0 < r.length && r.offset + r.length <= s.size ==> Started(id, r.offset, r.length) in s.log
  }

  lemma StepArrives(s: State, a: Action)
    requires Inv(s) && Enabled(s, a) && Arrived(s)
    ensures Arrived(Step(s, a))
  {
    var s' := Step(s, a);
    forall id | 0 <= id < |s'.issued| && (At(s', id, InCallback) || At(s', id, Ending))
      ensures var r := s'.issued[id];
        0 < r.length && r.offset + r.length <= s'.size ==> Started(id, r.offset, r.length) in s'.log
    {
      if a == Execute(id) {
        ReachesHost(s, id);
      } else {
        assert At(s, id, InCallback) || At(s, id, Ending);
      }
    }
  }

  ghost predicate Run(ss: seq<State>, steps: seq<Action>) {
    && |ss| == |steps| + 1 && Initial(ss[0])
    && forall i :: 0 <= i < |steps| ==> Enabled(ss[i], steps[i]) && ss[i+1] == Step(ss[i], steps[i])
  }

  lemma {:induction false} RunInv(ss: seq<State>, steps: seq<Action>, i: nat)
    requires Run(ss, steps) && i < |ss|
    ensures Inv(ss[i])
  {
    if i == 0 {
      InitialInv(ss[0]);
    } else {
      RunInv(ss, steps, i - 1);
      StepKeepsInv(ss[i-1], steps[i-1]);
    }
  }

  /** In every run: a read callback is given a non-empty range inside the file, the context is released
      at most once and last, and every read callback that started has ended by then. */
  lemma ReleasedLast(ss: seq<State>, steps: seq<Action>, k: nat)
    requires Run(ss, steps) && k < |ss|
    ensures var log := ss[k].log;
      && (forall i :: 0 <= i < |log| && log[i].Started? ==> InFile(log[i], ss[k].size))
      && (forall i :: 0 <= i < |log| && log[i] == Released ==> i == |log| - 1)
      && (Released in log ==> forall i :: 0 <= i < |log| && log[i].Started? ==> Ended(log[i].id) in log)
  {
    RunInv(ss, steps, k);
    var s := ss[k];
    forall i | 0 <= i < |s.log| ensures EventOk(s, s.log[i]) {}
    if Released in s.log {
      var j :| 0 <= j < |s.log| && s.log[j] == Released;
      assert EventOk(s, s.log[j]);
      forall id | 0 <= id < |s.issued| ensures s.issued[id].phase == Over { NoneActive(s.issued, id); }
    }
  }

  /** In every run a read that is not empty and inside the file reaches the host once it is run. */
  lemma {:induction false} ReadsArrive(ss: seq<State>, steps: seq<Action>, k: nat)
    requires Run(ss, steps) && k < |ss|
    ensures Arrived(ss[k])
  {
    if k > 0 {
      ReadsArrive(ss, steps, k - 1);
      RunInv(ss, steps, k - 1);
      StepArrives(ss[k-1], steps[k-1]);
    }
  }

  /** Nothing is left to do for the bridge. */
  ghost predicate Quiescent(s: State) {
    && !s.opening && s.readers == 0 && s.life != Releasing
    && forall id :: 0 <= id < |s.issued| ==> s.issued[id].phase == Over
  }

  /** When everything is dropped, the context has been released exactly once if it has a destructor. */
  lemma ReleasedExactlyOnce(ss: seq<State>, steps: seq<Action>, k: nat)
    requires Run(ss, steps) && k < |ss| && Quiescent(ss[k])
    ensures var log := ss[k].log;
      if ss[k].hasRelease then log != [] && forall i :: 0 <= i < |log| ==> (log[i] == Released <==> i == |log| - 1)
      else Released !in log
  {
    RunInv(ss, steps, k);
    var s := ss[k];
    if Active(s.issued) > 0 {
      var id := SomeActive(s.issued);
    }
    forall i | 0 <= i < |s.log| ensures EventOk(s, s.log[i]) {}
  }

  /** Until then some step remains that does not add work. */
  lemma NeverStuck(ss: seq<State>, steps: seq<Action>, k: nat) returns (a: Action)
    requires Run(ss, steps) && k < |ss| && !Quiescent(ss[k])
    ensures Enabled(ss[k], a) && !a.Begin? && !a.CloneReader? && !a.MakeReader?
  {
    RunInv(ss, steps, k);
    var s := ss[k];
    if s.opening {
      a := Reject;
    } else if s.readers > 0 {
      a := DropReader;
    } else if s.life == Releasing {
      a := RunRelease;
    } else {
      var id :| 0 <= id < |s.issued| && s.issued[id].phase != Over;
      match s.issued[id].phase
      case Waiting => a := Cancel(id);
      case Queued => a := Execute(id);
      case InCallback => a := CallbackReturns(id);
      case Ending => a := End(id);
    }
  }

  function PhaseWork(p: Phase): nat {
    match p case Waiting => 4 case Queued => 3 case InCallback => 2 case Ending => 1 case Over => 0
  }

  function ReadWork(rs: seq<Read>): nat {
    if rs == [] then 0 else ReadWork(rs[..|rs|-1]) + PhaseWork(rs[|rs|-1].phase)
  }

  /** What is left to do. */
  function Work(s: State): int {
    ReadWork(s.issued) + s.readers + (if s.opening then 1 else 0) + if s.life == Gone then 0 else 1
  }

  lemma {:induction false} WorkUpdate(rs: seq<Read>, id: int, r: Read)
    requires 0 <= id < |rs|
    ensures ReadWork(rs[id := r]) == ReadWork(rs) - PhaseWork(rs[id].phase) + PhaseWork(r.phase)
  {
    var last := |rs| - 1;
    if id < last {
      WorkUpdate(rs[..last], id, r);
      assert rs[id := r][..last] == rs[..last][id := r];
    } else {
      assert rs[id := r][..last] == rs[..last];
    }
  }

  lemma PhaseWorks(s: State, id: int, phase: Phase)
    requires 0 <= id < |s.issued|
    ensures Work(InPhase(s, id, phase)) == Work(s) - PhaseWork(s.issued[id].phase) + PhaseWork(phase)
  {
    WorkUpdate(s.issued, id, s.issued[id].(phase := phase));
  }

  /** Every such step brings the release closer, so without new work it comes. */
  lemma WorkEnds(s: State, a: Action)
    requires Inv(s) && Enabled(s, a) && !a.Begin? && !a.CloneReader? && !a.MakeReader?
    ensures 0 <= Work(Step(s, a)) < Work(s)
  {
    if a.Cancel? || a.Discard? || a.End? {
      PhaseWorks(s, a.id, Over);
    } else if a.Spawn? {
      PhaseWorks(s, a.id, Queued);
    } else if a.Execute? || a.CallbackReturns? {
      PhaseWorks(s, a.id, InCallback);
      PhaseWorks(s, a.id, Ending);
    }
  }
}
