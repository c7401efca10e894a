/** `Singleton::GetInstance` of include/paimon/factories/singleton.h: double-checked locking by any
    number of threads, in a memory model with views (section 32.4 of ISO/IEC 14882:2017). */
module Singletons {
  import opened Records

  /** Constructing an object writes its fields one after the other. */
  datatype Event = WroteField(obj: int, k: int)

  /** What a thread knows: the oldest write of the pointer it may still read (coherence), and the
      field writes that happen before. */
  datatype View = View(seen: int, events: set<Event>)

  /** A write of the atomic pointer. Reading it with acquire order also gives its view. */
  datatype Write = Write(value: int, view: View)

  datatype Pc = Idle | Load | WantLock | Recheck | Create | Construct(obj: int, k: int) | Unlock(p: int) | Done(p: int)

  datatype Thread = Thread(pc: Pc, view: View)

  datatype Return = Return(p: int, view: View)

  /** `mo` holds the writes of the pointer under their place in the modification order. Null is 0.
      `published` records the one store of an object, and `log` what the calls returned. */
  datatype State = State(mo: map<int, Write>, mutex: Option<int>, mutexView: View, threads: map<int, Thread>,
                         created: set<int>, published: Option<(int, int)>, log: seq<Return>)

  datatype Action = Call | LoadAcquire(at: int) | Lock | LoadRelaxed(at: int) | Allocate(obj: int) | WriteField
                  | StoreRelease(at: int) | Release | Finish

  function Max(a: int, b: int): int { if a < b then b else a }

  function Join(v: View, w: View): View { View(Max(v.seen, w.seen), v.events + w.events) }

  function Fields(n: nat, obj: int): (r: set<Event>) {
    set k | 0 <= k < n :: WroteField(obj, k)
  }

  /** The action of thread `t`: what it needs, and what it makes of the thread. */
  ghost predicate Enabled(n: nat, s: State, t: int, a: Action) {
    && t in s.threads
    && var pc, view := s.threads[t].pc, s.threads[t].view;
       match a
       case Call => pc == Idle
       case LoadAcquire(at) => pc == Load && at in s.mo && view.seen <= at
       case Lock => pc == WantLock && s.mutex.None?
       case LoadRelaxed(at) => pc == Recheck && at in s.mo && view.seen <= at
       case Allocate(obj) => pc == Create && obj != 0 && obj !in s.created
       case WriteField => pc.Construct? && pc.k < n
       case StoreRelease(at) => pc.Construct? && pc.k >= n && at !in s.mo && view.seen < at
       case Release => pc.Unlock? && s.mutex == Some(t)
       case Finish => pc.Done?
  }

  function Moved(s: State, t: int, pc: Pc, view: View): State {
    s.(threads := s.threads[t := Thread(pc, view)])
  }

  ghost function Step(n: nat, s: State, t: int, a: Action): (s': State)
    requires Enabled(n, s, t, a)
  {
    var pc, view := s.threads[t].pc, s.threads[t].view;
    match a
    case Call => Moved(s, t, Load, view)
    case LoadAcquire(at) =>
      var p, v := s.mo[at].value, Join(View(at, view.events), s.mo[at].view);
      Moved(s, t, if p == 0 then WantLock else Done(p), v)
    case Lock => Moved(s.(mutex := Some(t)), t, Recheck, Join(view, s.mutexView))
    case LoadRelaxed(at) =>
      var p := s.mo[at].value;
      Moved(s, t, if p == 0 then Create else Unlock(p), View(at, view.events))
    case Allocate(obj) => Moved(s.(created := s.created + {obj}), t, Construct(obj, 0), view)
    case WriteField =>
      Moved(s, t, Construct(pc.obj, pc.k + 1), View(view.seen, view.events + {WroteField(pc.obj, pc.k)}))
    case StoreRelease(at) =>
      var v := View(at, view.events);
      Moved(s.(mo := s.mo[at := Write(pc.obj, v)], published := Some((at, pc.obj))), t, Unlock(pc.obj), v)
    case Release => Moved(s.(mutex := None, mutexView := view), t, Done(pc.p), view)
    case Finish => Moved(s.(log := s.log + [Return(pc.p, view)]), t, Idle, view)
  }

  const NOTHING := View(0, {})

  ghost predicate Initial(s: State) {
    && s.mo == map[0 := Write(0, NOTHING)] && s.mutex == None && s.mutexView == NOTHING
    && (forall t :: t in s.threads ==> s.threads[t] == Thread(Idle, NOTHING))
    && s.created == {} && s.published == None && s.log == []
  }

  predicate Critical(pc: Pc) { pc.Recheck? || pc.Create? || pc.Construct? || pc.Unlock? }

  /** A view that has reached the store of the object contains its construction. */
  ghost predicate ViewOk(n: nat, s: State, v: View) {
    && v.seen in s.mo
    && (s.published.Some? && v.seen == s.published.value.0 ==> Fields(n, s.published.value.1) <= v.events)
  }

  ghost predicate MemoryOk(n: nat, s: State) {
    && 0 in s.mo && s.mo[0] == Write(0, NOTHING)
    && match s.published
       case None => s.mo.Keys == {0}
       case Some(w) =>
         && 0 < w.0 && w.1 != 0 && s.mo.Keys == {0, w.0} && s.created == {w.1}
         && s.mo[w.0].value == w.1 && s.mo[w.0].view.seen == w.0 && Fields(n, w.1) <= s.mo[w.0].view.events
  }

  ghost predicate MutexOk(n: nat, s: State) {
    && ViewOk(n, s, s.mutexView)
    && (s.mutex.Some? ==> s.mutex.value in s.threads && Critical(s.threads[s.mutex.value].pc))
    && (s.mutex.None? ==> (s.published.Some? ==> s.mutexView.seen == s.published.value.0)
                          && (s.published.None? ==> s.created == {}))
  }

  /** What holds of thread `t`, wherever it stands. */
  ghost predicate ThreadOk(n: nat, s: State, t: int, th: Thread) {
    && ViewOk(n, s, th.view)
    && (Critical(th.pc) ==> s.mutex == Some(t))
    && match th.pc
       case Recheck =>
         (s.published.Some? ==> th.view.seen == s.published.value.0) && (s.published.None? ==> s.created == {})
       case Create => s.published.None? && s.created == {}
       case Construct(obj, k) =>
         s.published.None? && obj != 0 && s.created == {obj} && 0 <= k <= n && Fields(k, obj) <= th.view.events
       case Unlock(p) => HasObject(s, p, th.view)
       case Done(p) => HasObject(s, p, th.view)
       case _ => true
  }

  /** `p` is the published object, and the view has reached its store. */
  ghost predicate HasObject(s: State, p: int, v: View) {
    s.published.Some? && p == s.published.value.1 && v.seen == s.published.value.0
  }

  ghost predicate LogOk(n: nat, s: State) {
    forall i :: 0 <= i < |s.log| ==>
      HasObject(s, s.log[i].p, s.log[i].view) && Fields(n, s.log[i].p) <= s.log[i].view.events
  }

  ghost predicate Inv(n: nat, s: State) {
    && MemoryOk(n, s) && MutexOk(n, s) && LogOk(n, s)
    && forall t :: t in s.threads ==> ThreadOk(n, s, t, s.threads[t])
  }

  lemma InitialInv(n: nat, s: State)
    requires Initial(s)
    ensures Inv(n, s)
  {
  }

  /** The other threads keep their invariant. */
  lemma OthersKept(n: nat, s: State, t: int, a: Action, u: int)
    requires Inv(n, s) && Enabled(n, s, t, a) && u in s.threads && u != t
    ensures ThreadOk(n, Step(n, s, t, a), u, s.threads[u])
  {
    assert ThreadOk(n, s, t, s.threads[t]) && ThreadOk(n, s, u, s.threads[u]);
  }

  lemma FieldsGrow(k: nat, obj: int)
    ensures Fields(k + 1, obj) == Fields(k, obj) + {WroteField(obj, k)}
  {
  }

  /** So does the thread that takes the step. */
  lemma MoverKept(n: nat, s: State, t: int, a: Action)
    requires Inv(n, s) && Enabled(n, s, t, a)
    ensures var s' := Step(n, s, t, a); ThreadOk(n, s', t, s'.threads[t])
  {
    assert ThreadOk(n, s, t, s.threads[t]);
    if a.WriteField? { FieldsGrow(s.threads[t].pc.k, s.threads[t].pc.obj); }
  }

  lemma SharedKept(n: nat, s: State, t: int, a: Action)
    requires Inv(n, s) && Enabled(n, s, t, a)
    ensures var s' := Step(n, s, t, a); MemoryOk(n, s') && MutexOk(n, s') && LogOk(n, s')
  {
    assert ThreadOk(n, s, t, s.threads[t]);
  }

  lemma StepKeepsInv(n: nat, s: State, t: int, a: Action)
    requires Inv(n, s) && Enabled(n, s, t, a)
    ensures Inv(n, Step(n, s, t, a))
  {
    var s' := Step(n, s, t, a);
    SharedKept(n, s, t, a);
    MoverKept(n, s, t, a);
    forall u | u in s'.threads ensures ThreadOk(n, s', u, s'.threads[u]) {
      if u != t { OthersKept(n, s, t, a, u); }
    }
  }

  /** A run: any interleaving of any number of threads. */
  ghost predicate Run(n: nat, ss: seq<State>, steps: seq<(int, Action)>) {
    && |ss| == |steps| + 1 && Initial(ss[0])
    && forall i :: 0 <= i < |steps| ==>
         Enabled(n, ss[i], steps[i].0, steps[i].1) && ss[i+1] == Step(n, ss[i], steps[i].0, steps[i].1)
  }

  lemma {:induction false} RunInv(n: nat, ss: seq<State>, steps: seq<(int, Action)>, i: nat)
    requires Run(n, ss, steps) && i < |ss|
    ensures Inv(n, ss[i])
  {
    if i == 0 {
      InitialInv(n, ss[0]);
    } else {
      RunInv(n, ss, steps, i - 1);
      StepKeepsInv(n, ss[i-1], steps[i-1].0, steps[i-1].1);
    }
  }

  /** In every interleaving every call returns the same object, one object is ever created, and the
      whole construction happens before every return. */
  lemma OneInstance(n: nat, ss: seq<State>, steps: seq<(int, Action)>, i: nat)
    requires Run(n, ss, steps) && i < |ss|
    ensures |ss[i].created| <= 1
    ensures forall c :: 0 <= c < |ss[i].log| ==>
      && ss[i].log[c].p != 0 && ss[i].created == {ss[i].log[c].p}
      && Fields(n, ss[i].log[c].p) <= ss[i].log[c].view.events
    ensures forall c, d :: 0 <= c < |ss[i].log| && 0 <= d < |ss[i].log| ==> ss[i].log[c].p == ss[i].log[d].p
  {
    RunInv(n, ss, steps, i);
    AtMostOne(n, ss[i]);
  }

  lemma AtMostOne(n: nat, s: State)
    requires Inv(n, s)
    ensures |s.created| <= 1
  {
    if s.published.None? && s.mutex.Some? {
      assert ThreadOk(n, s, s.mutex.value, s.threads[s.mutex.value]);
    }
  }

  /** How far a thread is from its return. */
  function Rank(n: nat, pc: Pc): int {
    match pc
    case Idle => 0
    case Done(_) => 1
    case Unlock(_) => 2
    case Construct(_, k) => 3 + n - k
    case Create => n + 4
    case Recheck => n + 5
    case WantLock => n + 6
    case Load => n + 7
  }

  /** A call ends after at most `n + 7` of its own steps. */
  lemma StepsEnd(n: nat, s: State, t: int, a: Action)
    requires Inv(n, s) && Enabled(n, s, t, a) && a != Call
    ensures 0 <= Rank(n, Step(n, s, t, a).threads[t].pc) < Rank(n, s.threads[t].pc) <= n + 7
  {
    assert ThreadOk(n, s, t, s.threads[t]);
  }

  lemma OwnStep(n: nat, s: State, t: int) returns (a: Action)
    requires Inv(n, s) && t in s.threads && s.threads[t].pc != Idle
    requires s.threads[t].pc == WantLock ==> s.mutex.None?
    ensures a != Call && Enabled(n, s, t, a)
  {
    var pc, view := s.threads[t].pc, s.threads[t].view;
    assert ThreadOk(n, s, t, s.threads[t]);
    match pc
    case Load => a := LoadAcquire(view.seen);
    case WantLock => a := Lock;
    case Recheck => a := LoadRelaxed(view.seen);
    case Create => a := Allocate(1);
    case Construct(obj, k) => a := if k < n then WriteField else StoreRelease(view.seen + 1);
    case Unlock(_) => a := Release;
    case Done(_) => a := Finish;
  }

  /** No deadlock: while a call is under way, some call can go on. */
  lemma NoDeadlock(n: nat, ss: seq<State>, steps: seq<(int, Action)>, i: nat, t: int) returns (u: int, a: Action)
    requires Run(n, ss, steps) && i < |ss| && t in ss[i].threads && ss[i].threads[t].pc != Idle
    ensures a != Call && Enabled(n, ss[i], u, a)
  {
    RunInv(n, ss, steps, i);
    u := if ss[i].threads[t].pc == WantLock && ss[i].mutex.Some? then ss[i].mutex.value else t;
    a := OwnStep(n, ss[i], u);
  }
}
