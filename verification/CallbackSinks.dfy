/** The write side of crates/vortex_callback_io/callback_io.rs: arrays pushed by the host travel
    through a bounded channel to a background task that writes through host callbacks. */
module CallbackSinks {
  import opened Records

  /** `mpsc::channel(4)` with its one sender holds one message more than its buffer. */
  const CAPACITY: int := 5

  datatype Event = Wrote | Footer | Flushed | Released

  /** The host's side of the sink. */
  datatype Handle = Opening | Rejected | Open | Closing | Aborted | Closed(ok: bool)

  /** The background task. `Sealed` has written the footer and may still flush. */
  datatype Task = NoTask | Running | Sealed | Finished | Failed | Cancelled

  /** `held` says that the task's future still exists and with it the reference to the host context. */
  datatype State = State(hasRelease: bool, hasFlush: bool, handle: Handle, pushed: seq<int>, queue: seq<int>,
                         taken: seq<int>, task: Task, held: bool, log: seq<Event>)

  datatype Action = Reject | Spawn | Push(item: int, sameType: bool) | Close | Abort | CloseReturns
                  | Take | HostWrite(empty: bool, ok: bool) | HostFlush(ok: bool) | WriteFooter(ok: bool) | Complete
                  | Cancel | DropTask

  /** The task is still at work. */
  predicate Working(t: Task) { t == Running || t == Sealed }

  predicate SenderGone(s: State) { s.handle == Closing || s.handle == Aborted || s.handle.Closed? }

  /** That the footer is written only when the stream of arrays has ended is what Vortex does. */
  predicate Enabled(s: State, a: Action) {
    match a
    case Reject => s.handle == Opening
    case Spawn => s.handle == Opening
    case Push(_, sameType) => s.handle == Open && (sameType && s.task == Running && s.held ==> |s.queue| < CAPACITY)
    case Close => s.handle == Open
    case Abort => s.handle == Open
    case CloseReturns => s.handle == Closing && (s.task == Finished || s.task == Failed)
    case Take => s.task == Running && s.queue != []
    case HostWrite(_, _) => s.task == Running
    case HostFlush(_) => Working(s.task)
    case WriteFooter(_) => s.task == Running && s.queue == [] && SenderGone(s)
    case Complete => s.task == Sealed
    case Cancel => s.handle == Aborted && Working(s.task)
    case DropTask => s.held && !Working(s.task) && s.task != NoTask
  }

  function Step(s: State, a: Action): State
    requires Enabled(s, a)
  {
    match a
    case Reject => s.(handle := Rejected, task := Failed)
    case Spawn => s.(handle := Open, task := Running)
    case Push(item, sameType) =>
      if sameType && s.task == Running && s.held then s.(pushed := s.pushed + [item], queue := s.queue + [item]) else s
    case Close => s.(handle := Closing)
    case Abort => s.(handle := Aborted)
    case CloseReturns => s.(handle := Closed(s.task == Finished))
    case Take => s.(queue := s.queue[1..], taken := s.taken + [s.queue[0]])
    case HostWrite(empty, ok) =>
      if empty then s else s.(log := s.log + [Wrote], task := if ok then Running else Failed)
    case HostFlush(ok) =>
      if !s.hasFlush then s else s.(log := s.log + [Flushed], task := if ok then s.task else Failed)
    case WriteFooter(ok) => s.(log := s.log + [Footer], task := if ok then Sealed else Failed)
    case Complete => s.(task := Finished)
    case Cancel => s.(task := Cancelled)
    case DropTask => s.(held := false, log := if s.hasRelease then s.log + [Released] else s.log)
  }

  ghost predicate Initial(s: State) {
    s.handle == Opening && s.pushed == [] && s.queue == [] && s.taken == [] && s.task == NoTask && s.held && s.log == []
  }

  ghost predicate Inv(s: State) {
    && s.pushed == s.taken + s.queue && |s.queue| <= CAPACITY
    && (s.task == NoTask <==> s.handle == Opening) && (Working(s.task) ==> s.held) && (s.task == NoTask ==> s.held)
    && (s.task == Sealed || s.task == Finished ==> s.queue == [] && SenderGone(s))
    && (s.handle.Closed? ==> s.task == if s.handle.ok then Finished else Failed)
    && (forall i :: 0 <= i < |s.log| && s.log[i] == Released ==> i == |s.log| - 1 && !s.held)
    && (!s.held && s.hasRelease ==> s.log != [] && s.log[|s.log|-1] == Released)
    && (!s.hasRelease ==> Released !in s.log)
    && FooterOk(s)
  }

  /** The footer ends what is written: only flushes and the release may follow. */
  ghost predicate FooterOk(s: State) {
    && (s.task == Sealed || s.task == Finished ==> Footer in s.log)
    && (Footer in s.log ==> s.task != Running && s.task != NoTask)
    && (forall i, j :: 0 <= i < j < |s.log| && s.log[i] == Footer ==> s.log[j] == Flushed || s.log[j] == Released)
  }

  lemma InitialInv(s: State)
    requires Initial(s)
    ensures Inv(s)
  {
  }

  lemma FooterKept(s: State, a: Action)
    requires Inv(s) && Enabled(s, a)
    ensures FooterOk(Step(s, a))
  {
    var s' := Step(s, a);
    assert s.log <= s'.log;
    if s.task == Running {
      forall i | 0 <= i < |s.log| ensures s.log[i] != Footer {}
    }
    if s'.task == Sealed && s.task == Running { assert s'.log[|s.log|] == Footer; }
  }

  lemma ReleaseKept(s: State, a: Action)
    requires Inv(s) && Enabled(s, a)
    ensures var s' := Step(s, a);
      && (forall i :: 0 <= i < |s'.log| && s'.log[i] == Released ==> i == |s'.log| - 1 && !s'.held)
      && (!s'.held && s'.hasRelease ==> s'.log != [] && s'.log[|s'.log|-1] == Released)
      && (!s'.hasRelease ==> Released !in s'.log)
  {
    if s.held {
      forall i | 0 <= i < |s.log| ensures s.log[i] != Released {}
    }
  }

  lemma StepKeepsInv(s: State, a: Action)
    requires Inv(s) && Enabled(s, a)
    ensures Inv(Step(s, a))
  {
    FooterKept(s, a);
    ReleaseKept(s, a);
    if a.Take? { assert s.queue == [s.queue[0]] + s.queue[1..]; }
  }

  /** An array is taken in exactly if its type is right and the task still runs. Otherwise nothing changes. */
  lemma PushIs(s: State, item: int, sameType: bool)
    requires Inv(s) && Enabled(s, Push(item, sameType))
    ensures var s' := Step(s, Push(item, sameType));
      if sameType && s.task == Running then s' == s.(pushed := s.pushed + [item], queue := s.queue + [item])
      else s' == s
    ensures |Step(s, Push(item, sameType)).queue| <= 5
  {
  }

  /** A refused write, flush or footer ends the task with a failure. */
  lemma RefusalFails(s: State, a: Action)
    requires Inv(s) && Enabled(s, a)
    requires a == HostWrite(false, false) || a == WriteFooter(false) || (a == HostFlush(false) && s.hasFlush)
    ensures Step(s, a).task == Failed && |Step(s, a).log| == |s.log| + 1
  {
  }

  ghost predicate Run(ss: seq<State>, steps: seq<Action>) {
    && |ss| == |steps| + 1 && Initial(ss[0])
    && forall i :: 0 <= i < |steps| ==> Enabled(ss[i], steps[i]) && ss[i+1] == Step(ss[i], steps[i])
  }

  lemma {:induction false} RunInv(ss: seq<State>, steps: seq<Action>, i: nat)
    requires Run(ss, steps) && i < |ss|
    ensures Inv(ss[i])
  {
    if i == 0 {
      InitialInv(ss[0]);
    } else {
      RunInv(ss, steps, i - 1);
      StepKeepsInv(ss[i-1], steps[i-1]);
    }
  }

  /** In every run the task receives the pushed arrays in order and without gaps, and no more than the
      channel holds are under way. */
  lemma InOrder(ss: seq<State>, steps: seq<Action>, k: nat)
    requires Run(ss, steps) && k < |ss|
    ensures ss[k].pushed == ss[k].taken + ss[k].queue && |ss[k].queue| <= CAPACITY
  {
    RunInv(ss, steps, k);
  }

  /** A close reports success exactly if the task ended well. */
  lemma CloseTells(ss: seq<State>, steps: seq<Action>, k: nat)
    requires Run(ss, steps) && k < |ss| && ss[k].handle.Closed?
    ensures ss[k].handle.ok <==> ss[k].task == Finished
    ensures !ss[k].handle.ok <==> ss[k].task == Failed
  {
    RunInv(ss, steps, k);
  }

  /** A close that reports success has delivered every pushed array, and the footer is the last thing written. */
  lemma CloseDelivers(ss: seq<State>, steps: seq<Action>, k: nat)
    requires Run(ss, steps) && k < |ss| && ss[k].handle == Closed(true)
    ensures ss[k].taken == ss[k].pushed && Footer in ss[k].log
    ensures forall i, j :: 0 <= i < j < |ss[k].log| && ss[k].log[i] == Footer ==>
      ss[k].log[j] == Flushed || ss[k].log[j] == Released
  {
    RunInv(ss, steps, k);
    assert ss[k].taken + [] == ss[k].taken;
  }

  /** The destructor is the last callback, and runs exactly once when the task is gone: after a close,
      an abort, a failure or a rejected open. */
  lemma ReleasedOnceAndLast(ss: seq<State>, steps: seq<Action>, k: nat)
    requires Run(ss, steps) && k < |ss|
    ensures var log := ss[k].log;
      && (forall i :: 0 <= i < |log| && log[i] == Released ==> i == |log| - 1)
      && (Released in log <==> ss[k].hasRelease && !ss[k].held)
  {
    RunInv(ss, steps, k);
  }

  /** What the background task still does once the sender is gone. */
  function Work(s: State): int {
    |s.queue| + (if s.task == Running then 2 else if s.task == Sealed then 1 else 0) + (if s.held then 1 else 0)
  }

  /** Once the sink is closed or aborted the task can go on to its end, and closing never hangs on the
      host's side. */
  lemma ClosingEnds(ss: seq<State>, steps: seq<Action>, k: nat) returns (a: Action)
    requires Run(ss, steps) && k < |ss| && SenderGone(ss[k]) && ss[k].held
    ensures Enabled(ss[k], a) && Work(Step(ss[k], a)) < Work(ss[k])
  {
    RunInv(ss, steps, k);
    var s := ss[k];
    if s.task == Sealed {
      a := Complete;
    } else if s.task != Running {
      a := DropTask;
    } else if s.queue != [] {
      a := Take;
    } else {
      a := WriteFooter(true);
    }
  }
}
