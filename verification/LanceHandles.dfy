/** The Lance handles of crates/lance_ffi: the thread's error slot, the writer and the batch reader.
    The Arrow import and the Lance backend are outcomes that may succeed, fail or panic. */
module LanceHandles {
  import opened Records

  /** The messages that the code builds start with a fixed text, so none is empty. */
  type Message = s: string | s != "" witness "e"

  datatype Outcome = Good(value: int) | Bad(message: Message) | Panics(payload: string)

  const NUL: char := '\0'
  const REPLACEMENT: char := '\U{FFFD}'

  /** `fail` replaces what a C string cannot hold. */
  function Cleaned(s: string): (r: string)
    ensures |r| == |s| && NUL !in r && forall i :: 0 <= i < |s| && s[i] != NUL ==> r[i] == s[i]
  {
    if s == "" then "" else [if s[0] == NUL then REPLACEMENT else s[0]] + Cleaned(s[1..])
  }

  /** Why a call fails. */
  datatype Problem = NullArguments | AlreadyFinished | AlreadyFailed | BadSizes | Refused(message: Message)
                   | Panicked(payload: string)

  function Text(p: Problem): (r: string)
    ensures r != ""
  {
    match p
    case NullArguments => "null"
    case AlreadyFinished => "finished"
    case AlreadyFailed => "failed"
    case BadSizes => "sizes"
    case Refused(text) => text
    case Panicked(payload) => "Lance panicked: " + payload
  }

  /** `LAST_ERROR` of one thread. */
  class ErrorSlot {
    var message: string

    constructor ()
      ensures message == ""
    {
      message := "";
    }

    method Clear()
      modifies this
      ensures message == ""
    {
      message := "";
    }

    method Fail(problem: Problem) returns (code: int)
      modifies this
      ensures code == -1 && message == Cleaned(Text(problem)) && message != ""
    {
      message := Cleaned(Text(problem));
      code := -1;
    }
  }

  /** The slot tells whether the call that just returned succeeded. */
  ghost predicate Reported(slot: ErrorSlot, code: int) reads slot {
    (code == 0 || code == -1) && (slot.message == "" <==> code == 0)
  }

  datatype Kind = WriteBatch | Tell | Finish | Abort

  /** One call of the backend, and whether it succeeded. */
  datatype Entry = Entry(kind: Kind, good: bool)

  /** A writer handle and what its backend has seen. */
  datatype Writer = Writer(finished: bool, failed: bool, log: seq<Entry>)

  /** A call of the C interface: null arguments, what the import makes of the arguments, and what the
      backend answers if it is asked. */
  datatype Call = WriteCall(nulls: bool, imported: Outcome, backend: Outcome)
                | TellCall(nulls: bool, backend: Outcome)
                | FinishCall(nulls: bool, backend: Outcome)

  /** The backend is reached. */
  predicate Reaches(w: Writer, c: Call) {
    match c
    case WriteCall(nulls, imported, _) => !nulls && !w.finished && !w.failed && imported.Good?
    case TellCall(nulls, _) => !nulls && !w.failed
    case FinishCall(nulls, _) => !nulls && !w.finished && !w.failed
  }

  predicate Succeeds(w: Writer, c: Call) { Reaches(w, c) && c.backend.Good? }

  function KindOf(c: Call): Kind {
    match c case WriteCall(_, _, _) => WriteBatch case TellCall(_, _) => Tell case FinishCall(_, _) => Finish
  }

  /** What a call does to the handle. */
  function After(w: Writer, c: Call): Writer {
    if !Reaches(w, c) then w
    else
      var good := c.backend.Good?;
      Writer(w.finished || (c.FinishCall? && good), if c.TellCall? then w.failed else !good,
             w.log + [Entry(KindOf(c), good)])
  }

  class WriterHandle {
    var finished: bool
    var failed: bool
    ghost var log: seq<Entry>
    // The handle was opened and not freed yet.
    ghost var alive: bool

    ghost function View(): Writer reads this { Writer(finished, failed, log) }

    /** The flags tell what the backend has seen. */
    ghost predicate Valid() reads this { alive && LogOk(View()) }

    constructor ()
      ensures Valid() && View() == FRESH
    {
      finished, failed, log, alive := false, false, [], true;
    }

    method Write(slot: ErrorSlot, nulls: bool, imported: Outcome, backend: Outcome) returns (code: int)
      requires Valid()
      modifies this, slot
      ensures Valid() && View() == After(old(View()), WriteCall(nulls, imported, backend))
      ensures Reported(slot, code) && (code == 0 <==> old(Succeeds(View(), WriteCall(nulls, imported, backend))))
      ensures code == 0 <==> !nulls && !old(finished) && !old(failed) && imported.Good? && backend.Good?
      ensures log == old(log) +
        if !nulls && !old(finished) && !old(failed) && imported.Good? then [Entry(WriteBatch, backend.Good?)] else []
      ensures finished == old(finished)
      ensures failed <==> old(failed) || (!nulls && !old(finished) && imported.Good? && !backend.Good?)
    {
      CallKeepsLog(View(), WriteCall(nulls, imported, backend));
      slot.Clear();
      if nulls {
        code := slot.Fail(NullArguments);
        return;
      }
      if finished {
        code := slot.Fail(AlreadyFinished);
        return;
      }
      if failed {
        code := slot.Fail(AlreadyFailed);
        return;
      }
      match imported {
        case Bad(text) => code := slot.Fail(Refused(text)); return;
        case Panics(text) => code := slot.Fail(Panicked(text)); return;
        case Good(_) =>
      }
      failed := true;
      log := log + [Entry(WriteBatch, backend.Good?)];
      match backend
      case Good(_) =>
        failed := false;
        code := 0;
      case Bad(text) => code := slot.Fail(Refused(text));
      case Panics(text) => code := slot.Fail(Panicked(text));
    }

    method TellPosition(slot: ErrorSlot, nulls: bool, backend: Outcome) returns (code: int, position: Option<int>)
      requires Valid()
      modifies this, slot
      ensures Valid() && View() == After(old(View()), TellCall(nulls, backend))
      ensures Reported(slot, code) && (code == 0 <==> old(Succeeds(View(), TellCall(nulls, backend))))
      ensures code == 0 <==> !nulls && !old(failed) && backend.Good?
      ensures log == old(log) + if !nulls && !old(failed) then [Entry(Tell, backend.Good?)] else []
      ensures finished == old(finished) && failed == old(failed)
      ensures position == if code == 0 then Some(backend.value) else None
    {
      CallKeepsLog(View(), TellCall(nulls, backend));
      slot.Clear();
      position := None;
      if nulls {
        code := slot.Fail(NullArguments);
        return;
      }
      if failed {
        code := slot.Fail(AlreadyFailed);
        return;
      }
      log := log + [Entry(Tell, backend.Good?)];
      match backend
      case Good(p) =>
        position := Some(p);
        code := 0;
      case Bad(text) => code := slot.Fail(Refused(text));
      case Panics(text) => code := slot.Fail(Panicked(text));
    }

    method FinishFile(slot: ErrorSlot, nulls: bool, backend: Outcome) returns (code: int, rows: Option<int>)
      requires Valid()
      modifies this, slot
      ensures Valid() && View() == After(old(View()), FinishCall(nulls, backend))
      ensures Reported(slot, code) && (code == 0 <==> old(Succeeds(View(), FinishCall(nulls, backend))))
      ensures code == 0 <==> !nulls && !old(finished) && !old(failed) && backend.Good?
      ensures log == old(log) +
        if !nulls && !old(finished) && !old(failed) then [Entry(Finish, backend.Good?)] else []
      ensures finished <==> old(finished) || (!nulls && !old(failed) && backend.Good?)
      ensures failed <==> old(failed) || (!nulls && !old(finished) && !backend.Good?)
      ensures rows == if code == 0 then Some(backend.value) else None
    {
      CallKeepsLog(View(), FinishCall(nulls, backend));
      slot.Clear();
      rows := None;
      if nulls {
        code := slot.Fail(NullArguments);
        return;
      }
      if finished {
        code := slot.Fail(AlreadyFinished);
        return;
      }
      if failed {
        code := slot.Fail(AlreadyFailed);
        return;
      }
      failed := true;
      log := log + [Entry(Finish, backend.Good?)];
      match backend
      case Good(n) =>
        failed := false;
        finished := true;
        rows := Some(n);
        code := 0;
      case Bad(text) => code := slot.Fail(Refused(text));
      case Panics(text) => code := slot.Fail(Panicked(text));
    }

    /** Ends the handle. The backend is told to drop what was written exactly if it never finished. */
    method Free(backend: Outcome)
      requires Valid()
      modifies this
      ensures !alive
      ensures log == old(log) + if Entry(Finish, true) in old(log) then [] else [Entry(Abort, backend.Good?)]
    {
      if !finished {
        log := log + [Entry(Abort, backend.Good?)];
      }
      alive := false;
    }

    method MakeCall(slot: ErrorSlot, c: Call) returns (code: int)
      requires Valid()
      modifies this, slot
      ensures Valid() && View() == After(old(View()), c)
      ensures Reported(slot, code) && (code == 0 <==> old(Succeeds(View(), c)))
    {
      match c
      case WriteCall(nulls, imported, backend) => code := Write(slot, nulls, imported, backend);
      case TellCall(nulls, backend) =>
        var position;
        code, position := TellPosition(slot, nulls, backend);
      case FinishCall(nulls, backend) =>
        var rows;
        code, rows := FinishFile(slot, nulls, backend);
    }

    /** Makes any sequence of calls. */
    method MakeCalls(slot: ErrorSlot, calls: seq<Call>) returns (codes: seq<int>)
      requires Valid()
      modifies this, slot
      ensures Valid() && View() == AfterAll(old(View()), calls) && |codes| == |calls|
      ensures forall k :: 0 <= k < |calls| ==>
        codes[k] == if Succeeds(AfterAll(old(View()), calls[..k]), calls[k]) then 0 else -1
    {
      codes := [];
      var k := 0;
      while k < |calls|
        invariant 0 <= k == |codes| <= |calls| && Valid() && View() == AfterAll(old(View()), calls[..k])
        invariant forall j :: 0 <= j < k ==>
          codes[j] == if Succeeds(AfterAll(old(View()), calls[..j]), calls[j]) then 0 else -1
      {
        var code := MakeCall(slot, calls[k]);
        codes := codes + [code];
        assert calls[..k+1][..k] == calls[..k];
        k := k + 1;
      }
      assert calls[..k] == calls;
    }
  }

  function AfterAll(w: Writer, calls: seq<Call>): Writer {
    if calls == [] then w else After(AfterAll(w, calls[..|calls|-1]), calls[|calls|-1])
  }

  const FRESH := Writer(false, false, [])

  predicate Fatal(e: Entry) { !e.good && e.kind != Tell }

  /** What the backend has seen, and what the flags say about it. */
  ghost predicate LogOk(w: Writer) {
    && (w.finished <==> Entry(Finish, true) in w.log)
    && (w.failed <==> w.log != [] && Fatal(w.log[|w.log|-1]))
    && (forall i, j :: 0 <= i < j < |w.log| ==> !Fatal(w.log[i]) && (w.log[i].kind == Finish ==> w.log[j].kind == Tell))
    && (w.finished ==> !w.failed)
  }

  lemma CallKeepsLog(w: Writer, c: Call)
    requires LogOk(w)
    ensures LogOk(After(w, c))
  {
    var w' := After(w, c);
    if Reaches(w, c) {
      var e := Entry(KindOf(c), c.backend.Good?);
      assert w'.log[|w.log|] == e;
      forall i | 0 <= i < |w.log| ensures !Fatal(w.log[i]) && (w.log[i].kind == Finish ==> e.kind == Tell) {
        if w.log[i].kind == Finish && w.log[i].good { assert Entry(Finish, true) in w.log; }
      }
    }
  }

  lemma {:induction false} RunLog(calls: seq<Call>)
    ensures LogOk(AfterAll(FRESH, calls))
  {
    if calls != [] {
      RunLog(calls[..|calls|-1]);
      CallKeepsLog(AfterAll(FRESH, calls[..|calls|-1]), calls[|calls|-1]);
    }
  }

  /** A call that an open handle does not pass on: null arguments, or a batch that cannot be imported. */
  predicate Malformed(c: Call) { c.nulls || (c.WriteCall? && !c.imported.Good?) }

  /** A call that ends the writing: a finish, or a write that the backend does not accept. */
  predicate EndsWriting(c: Call) { !Malformed(c) && (c.FinishCall? || (c.WriteCall? && !c.backend.Good?)) }

  /** What an open handle passes on. */
  function PassedOn(calls: seq<Call>): seq<Entry> {
    if calls == [] then []
    else
      var c := calls[|calls|-1];
      PassedOn(calls[..|calls|-1]) + if Malformed(c) then [] else [Entry(KindOf(c), c.backend.Good?)]
  }

  /** What a finished handle passes on: it still tells its position. */
  function Tells(calls: seq<Call>): seq<Entry> {
    if calls == [] then []
    else
      var c := calls[|calls|-1];
      Tells(calls[..|calls|-1]) + if c.TellCall? && !c.nulls then [Entry(Tell, c.backend.Good?)] else []
  }

  /** Call `k` is the first one that ends the writing, or none does. */
  ghost predicate WritesUpTo(calls: seq<Call>, k: nat) {
    && k <= |calls| && (forall j :: 0 <= j < k ==> !EndsWriting(calls[j]))
    && (k < |calls| ==> EndsWriting(calls[k]))
  }

  lemma {:induction false} OpenRun(calls: seq<Call>)
    requires forall j :: 0 <= j < |calls| ==> !EndsWriting(calls[j])
    ensures AfterAll(FRESH, calls) == Writer(false, false, PassedOn(calls))
  {
    if calls != [] { OpenRun(calls[..|calls|-1]); }
  }

  lemma EndingCall(calls: seq<Call>, k: nat)
    requires WritesUpTo(calls, k) && k == |calls| - 1
    ensures AfterAll(FRESH, calls) == Writer(calls[k].backend.Good?, !calls[k].backend.Good?, PassedOn(calls))
  {
    OpenRun(calls[..k]);
  }

  /** A call on a handle that is finished or has failed. */
  lemma EndedCall(good: bool, log: seq<Entry>, more: seq<Call>, c: Call)
    ensures After(Writer(good, !good, log + if good then Tells(more) else []), c) ==
      Writer(good, !good, log + if good then Tells(more + [c]) else [])
  {
    assert (more + [c])[..|more|] == more;
    if good && c.TellCall? && !c.nulls {
      assert log + Tells(more) + [Entry(Tell, c.backend.Good?)] == log + Tells(more + [c]);
    }
  }

  lemma LastApart(calls: seq<Call>, k: nat)
    requires k < |calls|
    ensures var front := calls[..|calls|-1]; front[..k] == calls[..k] && calls[k..] == front[k..] + [calls[|calls|-1]]
  {
  }

  lemma {:induction false} EndedRun(calls: seq<Call>, k: nat)
    requires WritesUpTo(calls, k) && k < |calls|
    ensures var good := calls[k].backend.Good?;
      AfterAll(FRESH, calls) ==
        Writer(good, !good, PassedOn(calls[..k+1]) + if good then Tells(calls[k+1..]) else [])
  {
    var n := |calls|;
    if k == n - 1 {
      EndingCall(calls, k);
      assert calls[..n] == calls && calls[n..] == [];
    } else {
      var front, c := calls[..n-1], calls[n-1];
      EndedRun(front, k);
      EndedCall(calls[k].backend.Good?, PassedOn(calls[..k+1]), front[k+1..], c);
      LastApart(calls, k + 1);
      assert AfterAll(FRESH, calls) == After(AfterAll(FRESH, front), c);
    }
  }

  /** What the backend sees in any run, call by call: every well-formed call up to the first one that ends the
      writing, and after a good finish the positions asked for. */
  lemma RunIs(calls: seq<Call>, k: nat)
    requires WritesUpTo(calls, k)
    ensures AfterAll(FRESH, calls).log ==
      if k == |calls| then PassedOn(calls)
      else PassedOn(calls[..k+1]) + if calls[k].backend.Good? then Tells(calls[k+1..]) else []
  {
    if k == |calls| { OpenRun(calls); } else { EndedRun(calls, k); }
  }

  /** A call succeeds exactly if the backend accepts it, and it is well-formed while the handle is open, or asks
      for the position after a good finish. */
  lemma SucceedsIff(calls: seq<Call>, c: Call, k: nat)
    requires WritesUpTo(calls, k)
    ensures Succeeds(AfterAll(FRESH, calls), c) <==>
      && c.backend.Good? && !c.nulls
      && if k == |calls| then c.WriteCall? ==> c.imported.Good? else c.TellCall? && calls[k].backend.Good?
  {
    if k == |calls| { OpenRun(calls); } else { EndedRun(calls, k); }
  }

  /** The batches that the backend was given. */
  function Batches(log: seq<Entry>): seq<Entry> {
    if log == [] then []
    else Batches(log[..|log|-1]) + if log[|log|-1].kind == WriteBatch then [log[|log|-1]] else []
  }

  /** The well-formed writes. */
  function GoodWrites(calls: seq<Call>): seq<Entry> {
    if calls == [] then []
    else
      var c := calls[|calls|-1];
      GoodWrites(calls[..|calls|-1]) +
        if c.WriteCall? && !c.nulls && c.imported.Good? then [Entry(WriteBatch, c.backend.Good?)] else []
  }

  lemma {:induction false} BatchesAdd(a: seq<Entry>, b: seq<Entry>)
    ensures Batches(a + b) == Batches(a) + Batches(b)
  {
    if b == [] {
      assert a + b == a;
    } else {
      assert (a + b)[..|a + b|-1] == a + b[..|b|-1];
      BatchesAdd(a, b[..|b|-1]);
    }
  }

  lemma {:induction false} NoBatches(calls: seq<Call>)
    ensures Batches(Tells(calls)) == []
  {
    if calls != [] {
      var c, front := calls[|calls|-1], calls[..|calls|-1];
      NoBatches(front);
      BatchesAdd(Tells(front), if c.TellCall? && !c.nulls then [Entry(Tell, c.backend.Good?)] else []);
    }
  }

  lemma {:induction false} PassedBatches(calls: seq<Call>)
    ensures Batches(PassedOn(calls)) == GoodWrites(calls)
  {
    if calls != [] {
      var c, front := calls[|calls|-1], calls[..|calls|-1];
      var last := if Malformed(c) then [] else [Entry(KindOf(c), c.backend.Good?)];
      PassedBatches(front);
      BatchesAdd(PassedOn(front), last);
      assert last != [] ==> last[..0] == [];
    }
  }

  /** In any run the backend is given exactly the well-formed batches up to the first write that it does not accept,
      or up to the first finish. */
  lemma WritesAre(calls: seq<Call>, k: nat)
    requires WritesUpTo(calls, k)
    ensures Batches(AfterAll(FRESH, calls).log) == GoodWrites(if k == |calls| then calls else calls[..k+1])
  {
    RunIs(calls, k);
    if k == |calls| {
      PassedBatches(calls);
    } else {
      PassedBatches(calls[..k+1]);
      NoBatches(calls[k+1..]);
      BatchesAdd(PassedOn(calls[..k+1]), if calls[k].backend.Good? then Tells(calls[k+1..]) else []);
    }
  }

  /** In every run the backend sees writes and positions, then at most one finish and after it only
      positions, and nothing follows a write or finish that failed or panicked. */
  lemma BackendOrder(calls: seq<Call>)
    ensures var log := AfterAll(FRESH, calls).log;
      forall i, j :: 0 <= i < j < |log| ==>
        !Fatal(log[i]) && (log[i].kind == Finish ==> log[i].good && log[j].kind == Tell)
  {
    RunLog(calls);
  }

  /** A finish is not always the last call: the position may be asked for afterwards. */
  lemma TellAfterFinish()
    ensures AfterAll(FRESH, [FinishCall(false, Good(0)), TellCall(false, Good(7))]).log ==
      [Entry(Finish, true), Entry(Tell, true)]
  {
    var c, d := FinishCall(false, Good(0)), TellCall(false, Good(7));
    assert [c, d][..1] == [c] && [c][..0] == [];
    assert AfterAll(FRESH, []) == FRESH;
    assert AfterAll(FRESH, [c]) == Writer(true, false, [Entry(Finish, true)]);
  }

  ghost predicate FinishLast(log: seq<Entry>) {
    forall i :: 0 <= i < |log| && log[i].kind == Finish ==> i == |log| - 1
  }

  /** Exactly a position asked for on a finished handle makes the difference. */
  lemma FinishLastIff(w: Writer, c: Call)
    requires LogOk(w) && FinishLast(w.log)
    ensures FinishLast(After(w, c).log) <==> !(w.finished && c.TellCall? && !c.nulls)
  {
    var w' := After(w, c);
    if w.finished {
      var i :| 0 <= i < |w.log| && w.log[i] == Entry(Finish, true);
      if Reaches(w, c) { assert w'.log[i].kind == Finish; }
    } else if Reaches(w, c) {
      forall i | 0 <= i < |w.log| ensures w.log[i].kind != Finish {
        assert w.log[i] in w.log;
      }
      assert forall i :: 0 <= i < |w.log| ==> w'.log[i] == w.log[i];
    }
  }

  /** A position is asked for on a finished handle. */
  ghost predicate AsksAfterFinish(calls: seq<Call>) {
    exists k :: 0 <= k < |calls| && LateTell(calls, k)
  }

  ghost predicate LateTell(calls: seq<Call>, k: int)
    requires 0 <= k < |calls|
  {
    calls[k].TellCall? && !calls[k].nulls && AfterAll(FRESH, calls[..k]).finished
  }

  lemma BrokenStays(w: Writer, c: Call)
    requires !FinishLast(w.log)
    ensures !FinishLast(After(w, c).log)
  {
    var i :| 0 <= i < |w.log| && w.log[i].kind == Finish && i != |w.log| - 1;
    assert After(w, c).log[i] == w.log[i];
  }

  lemma LateTellStep(calls: seq<Call>)
    requires calls != []
    ensures AsksAfterFinish(calls) <==>
      AsksAfterFinish(calls[..|calls|-1]) || LateTell(calls, |calls| - 1)
  {
    var front := calls[..|calls|-1];
    forall k | 0 <= k < |front| ensures LateTell(calls, k) <==> LateTell(front, k) {
      assert front[..k] == calls[..k];
    }
  }

  /** In a whole run, the backend sees nothing after its finish exactly if nobody asks a finished handle
      for its position. */
  lemma {:induction false} FinishLastRun(calls: seq<Call>)
    ensures FinishLast(AfterAll(FRESH, calls).log) <==> !AsksAfterFinish(calls)
  {
    if calls != [] {
      var front, c := calls[..|calls|-1], calls[|calls|-1];
      var w := AfterAll(FRESH, front);
      FinishLastRun(front);
      RunLog(front);
      LateTellStep(calls);
      if FinishLast(w.log) { FinishLastIff(w, c); } else { BrokenStays(w, c); }
    }
  }

  /** A failed handle never reaches the backend again, and every call on it reports an error. */
  lemma {:induction false} FailedStays(w: Writer, calls: seq<Call>, c: Call)
    requires w.failed
    ensures AfterAll(w, calls) == w && !Succeeds(AfterAll(w, calls), c) && After(AfterAll(w, calls), c) == w
  {
    if calls != [] { FailedStays(w, calls[..|calls|-1], calls[|calls|-1]); }
  }

  /** In every run a handle has failed exactly if the backend has not accepted a write or a finish: refused
      arguments, a rejected import and a failed position do not fail it. */
  lemma FailsIff(calls: seq<Call>)
    ensures var w := AfterAll(FRESH, calls); w.failed <==> exists e :: e in w.log && Fatal(e)
  {
    RunLog(calls);
    var w := AfterAll(FRESH, calls);
    if w.failed { assert w.log[|w.log|-1] in w.log; }
    forall i | 0 <= i < |w.log| && Fatal(w.log[i]) ensures w.failed {
      assert i == |w.log| - 1;
    }
  }

  /** A handle counts as finished, and is not aborted when freed, exactly if the backend finished. */
  lemma FinishedIff(calls: seq<Call>)
    ensures AfterAll(FRESH, calls).finished <==> Entry(Finish, true) in AfterAll(FRESH, calls).log
  {
    RunLog(calls);
  }

  /** A whole life of a handle: opened, any calls, and freed. */
  method UseHandle(slot: ErrorSlot, calls: seq<Call>, abort: Outcome) returns (codes: seq<int>, ghost log: seq<Entry>)
    modifies slot
    ensures |codes| == |calls| && log == LifeLog(calls, abort)
    ensures forall k :: 0 <= k < |calls| ==>
      codes[k] == if Succeeds(AfterAll(FRESH, calls[..k]), calls[k]) then 0 else -1
  {
    var handle := new WriterHandle();
    codes := handle.MakeCalls(slot, calls);
    FinishedIff(calls);
    handle.Free(abort);
    log := handle.log;
  }

  /** What the backend sees in it. */
  ghost function LifeLog(calls: seq<Call>, abort: Outcome): seq<Entry> {
    var w := AfterAll(FRESH, calls);
    w.log + if w.finished then [] else [Entry(Abort, abort.Good?)]
  }

  lemma {:induction false} CallsNeverAbort(calls: seq<Call>)
    ensures forall e :: e in AfterAll(FRESH, calls).log ==> e.kind != Abort
  {
    if calls != [] { CallsNeverAbort(calls[..|calls|-1]); }
  }

  /** The backend is told to abort exactly if it never finished, and then once and last. */
  lemma AbortIff(calls: seq<Call>, abort: Outcome)
    ensures var log := LifeLog(calls, abort);
      && ((exists e :: e in log && e.kind == Abort) <==> Entry(Finish, true) !in log)
      && forall i :: 0 <= i < |log| && log[i].kind == Abort ==> i == |log| - 1
  {
    FinishedIff(calls);
    CallsNeverAbort(calls);
    var log, w := LifeLog(calls, abort), AfterAll(FRESH, calls);
    assert !w.finished ==> log[|w.log|] == Entry(Abort, abort.Good?);
    forall i | 0 <= i < |w.log| ensures log[i].kind != Abort { assert log[i] in w.log; }
  }

  /** What a batch reader's stream delivers. */
  datatype Delivery = Batch(exported: Outcome) | Eof | StreamFails(message: Message) | StreamPanics(payload: string)

  class BatchReader {
    var failed: bool
    ghost var asked: nat

    constructor ()
      ensures !failed && asked == 0
    {
      failed, asked := false, 0;
    }

    /** The next batch. `eof` is written only when the call succeeds. */
    method Next(slot: ErrorSlot, nulls: bool, d: Delivery) returns (code: int, out: Option<int>, eof: Option<bool>)
      modifies this, slot
      ensures Reported(slot, code)
      ensures code == 0 <==> !nulls && !old(failed) && Delivered(d)
      ensures failed == (old(failed) || (!nulls && !Delivered(d)))
      ensures asked == if nulls || old(failed) then old(asked) else old(asked) + 1
      ensures code == 0 ==> eof == Some(d.Eof?) && out == if d.Eof? then None else Some(d.exported.value)
      ensures code != 0 ==> out == None && eof == None
    {
      slot.Clear();
      out, eof := None, None;
      if nulls {
        code := slot.Fail(NullArguments);
        return;
      }
      if failed {
        code := slot.Fail(AlreadyFailed);
        return;
      }
      failed := true;
      asked := asked + 1;
      match d
      case StreamFails(text) => code := slot.Fail(Refused(text));
      case StreamPanics(text) => code := slot.Fail(Panicked(text));
      case Batch(Bad(text)) => code := slot.Fail(Refused(text));
      case Batch(Panics(text)) => code := slot.Fail(Panicked(text));
      case Batch(Good(v)) =>
        out, eof := Some(v), Some(false);
        failed := false;
        code := 0;
      case Eof =>
        eof := Some(true);
        failed := false;
        code := 0;
    }

    /** Reads as often as asked. The first failure or panic ends all reading, the end of the file does not. */
    method ReadAll(slot: ErrorSlot, ds: seq<Delivery>) returns (codes: seq<int>)
      requires !failed
      modifies this, slot
      ensures |codes| == |ds|
      ensures forall k :: 0 <= k < |ds| ==> codes[k] == if forall j :: 0 <= j <= k ==> Delivered(ds[j]) then 0 else -1
      ensures asked <= old(asked) + |ds| && (failed <==> exists j :: 0 <= j < |ds| && !Delivered(ds[j]))
    {
      codes := [];
      var k := 0;
      while k < |ds|
        invariant 0 <= k == |codes| <= |ds| && asked <= old(asked) + k
        invariant failed <==> exists j :: 0 <= j < k && !Delivered(ds[j])
        invariant forall i :: 0 <= i < k ==> codes[i] == if forall j :: 0 <= j <= i ==> Delivered(ds[j]) then 0 else -1
      {
        var code, out, eof := Next(slot, false, ds[k]);
        codes := codes + [code];
        k := k + 1;
      }
    }
  }

  predicate Delivered(d: Delivery) { d.Eof? || (d.Batch? && d.exported.Good?) }

  /** `paimon_lance_writer_open` and `paimon_lance_reader_open`: the out pointer is cleared first and set
      only on success. `handle` stands for what the out pointer holds. */
  method OpenHandle(slot: ErrorSlot, outNull: bool, handle: Option<int>, arguments: Outcome, backend: Outcome)
    returns (code: int, handle': Option<int>)
    modifies slot
    ensures Reported(slot, code)
    ensures code == 0 <==> !outNull && arguments.Good? && backend.Good?
    ensures handle' == if outNull then handle else if code == 0 then Some(backend.value) else None
  {
    slot.Clear();
    handle' := handle;
    if outNull {
      code := slot.Fail(NullArguments);
      return;
    }
    handle' := None;
    match arguments {
      case Bad(text) => code := slot.Fail(Refused(text)); return;
      case Panics(text) => code := slot.Fail(Panicked(text)); return;
      case Good(_) =>
    }
    match backend
    case Good(h) =>
      handle' := Some(h);
      code := 0;
    case Bad(text) => code := slot.Fail(Refused(text));
    case Panics(text) => code := slot.Fail(Panicked(text));
  }

  /** `paimon_lance_reader_open_stream`: the sizes are checked before the out pointer is cleared, so a
      call refused for them leaves the pointer as it was. */
  method OpenStream(slot: ErrorSlot, nulls: bool, batchSize: nat, readahead: nat, handle: Option<int>,
                    arguments: Outcome, backend: Outcome)
    returns (code: int, handle': Option<int>)
    modifies slot
    ensures Reported(slot, code)
    ensures code == 0 <==> !nulls && batchSize > 0 && readahead > 0 && arguments.Good? && backend.Good?
    ensures handle' ==
      if nulls || batchSize == 0 || readahead == 0 then handle else if code == 0 then Some(backend.value) else None
  {
    slot.Clear();
    handle' := handle;
    if nulls {
      code := slot.Fail(NullArguments);
      return;
    }
    if batchSize == 0 || readahead == 0 {
      code := slot.Fail(BadSizes);
      return;
    }
    code, handle' := OpenHandle(slot, false, handle, arguments, backend);
  }
}
