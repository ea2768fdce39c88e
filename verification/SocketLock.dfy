// The locking protocol of L2capSocket and NativeSocket: threads that run connect and close, each as
// lock / try / finally release, interleaved step by step. Acquiring the semaphore can be
// interrupted; the finally block then releases a permit that was never taken.
module SocketLock {
  import opened Wrappers

  type ThreadId = nat

  // What a thread asks for. The device and the port are the arguments of connect.
  datatype Request = ToConnect(device: int, psm: int) | ToClose

  // Where a thread is inside the critical section: the statements of connect and close, and the
  // finally block that ends both.
  datatype Point =
    | CheckOpen | CloseOld | OpenNew | SetOption | ConnectNew | StoreDevice | StorePsm
    | CloseIt
    | ClearDevice | ClearPsm
    | Finally

  datatype Pc =
    | Outside
    | Locking(request: Request)
    | Thrown                                    // lock() was interrupted, finally has not run yet
    | Inside(request: Request, point: Point)

  // What L2capSocket and NativeSocket hold, and the descriptors the object has open at the system.
  datatype Fields = Fields(socket: int, open: set<int>, device: Option<int>, psm: int)

  datatype State = State(permits: int, threads: map<ThreadId, Pc>, fields: Fields, spurious: nat)

  // One step of one thread. Fail and Opened are the answers of the native calls and of the option
  // setter: a call that fails throws.
  datatype Step =
    | Begin(t: ThreadId, request: Request)
    | Acquire(t: ThreadId)
    | Interrupt(t: ThreadId)
    | Proceed(t: ThreadId)
    | Fail(t: ThreadId)
    | Opened(t: ThreadId, descriptor: int)
    | Release(t: ThreadId)

  function Initial(threads: set<ThreadId>): State {
    State(1, map t | t in threads :: Outside, Fields(-1, {}, None, -1), 0)
  }

  // ---------- the statements ----------

  // The fields after the statement at this point goes through, and the next point.
  function Statement(f: Fields, request: Request, p: Point): (Fields, Point) {
    match p
    case CheckOpen => (f, if f.socket > 0 then CloseOld else OpenNew)
    case CloseOld => (f.(socket := -1, open := f.open - {f.socket}), ClearDevice)
    case CloseIt => (f.(socket := -1, open := f.open - {f.socket}), ClearDevice)
    case ClearDevice => (f.(device := None), ClearPsm)
    case ClearPsm => (f.(psm := -1), if request.ToConnect? then OpenNew else Finally)
    case OpenNew => (f, SetOption)
    case SetOption => (f, ConnectNew)
    case ConnectNew => (f, StoreDevice)
    case StoreDevice => (if request.ToConnect? then f.(device := Some(request.device)) else f, StorePsm)
    case StorePsm => (if request.ToConnect? then f.(psm := request.psm) else f, Finally)
    case Finally => (f, Finally)
  }

  predicate CanThrow(p: Point) {
    p == CloseOld || p == CloseIt || p == SetOption || p == ConnectNew
  }

  // The system closes only a descriptor that is open, and hands out only one that is not.
  predicate Can(s: State, step: Step) {
    && step.t in s.threads
    && var pc := s.threads[step.t];
       match step
       case Begin(_, _) => pc.Outside?
       case Acquire(_) => pc.Locking? && s.permits > 0
       case Interrupt(_) => pc.Locking?
       case Proceed(_) =>
         pc.Inside? && pc.point != OpenNew && pc.point != Finally
         && (pc.point == CloseOld || pc.point == CloseIt ==> s.fields.socket in s.fields.open)
       case Fail(_) => pc.Inside? && CanThrow(pc.point)
       case Opened(_, d) => pc.Inside? && pc.point == OpenNew && (d == -1 || (d >= 0 && d !in s.fields.open))
       case Release(_) => pc.Thrown? || (pc.Inside? && pc.point == Finally)
  }

  function Do(s: State, step: Step): State
    requires Can(s, step)
  {
    var pc := s.threads[step.t];
    match step
    case Begin(t, r) => s.(threads := s.threads[t := Locking(r)])
    case Acquire(t) =>
      s.(permits := s.permits - 1,
         threads := s.threads[t := Inside(pc.request, if pc.request.ToConnect? then CheckOpen else CloseIt)])
    case Interrupt(t) => s.(threads := s.threads[t := Thrown])
    case Proceed(t) =>
      var (f, p) := Statement(s.fields, pc.request, pc.point);
      s.(fields := f, threads := s.threads[t := Inside(pc.request, p)])
    case Fail(t) => s.(threads := s.threads[t := Inside(pc.request, Finally)])
    case Opened(t, d) =>
      if d < 0 then s.(fields := s.fields.(socket := d), threads := s.threads[t := Inside(pc.request, Finally)])
      else s.(fields := s.fields.(socket := d, open := s.fields.open + {d}),
              threads := s.threads[t := Inside(pc.request, SetOption)])
    case Release(t) =>
      s.(permits := s.permits + 1, threads := s.threads[t := Outside],
         spurious := s.spurious + if pc.Thrown? then 1 else 0)
  }

  ghost predicate IsRun(s: State, steps: seq<Step>)
    decreases |steps|
  {
    steps == [] || (Can(s, steps[0]) && IsRun(Do(s, steps[0]), steps[1..]))
  }

  function After(s: State, steps: seq<Step>): State
    requires IsRun(s, steps)
    decreases |steps|
  {
    if steps == [] then s else After(Do(s, steps[0]), steps[1..])
  }

  // ---------- conservation of permits ----------

  function Holders(s: State): set<ThreadId> {
    set t | t in s.threads && s.threads[t].Inside?
  }

  // Free permits and threads inside make one, plus one for every release after an interrupted lock.
  predicate Conserved(s: State) {
    s.permits >= 0 && s.permits + |Holders(s)| == 1 + s.spurious
  }

  lemma {:induction false} StepConserves(s: State, step: Step)
    requires Conserved(s) && Can(s, step)
    ensures Conserved(Do(s, step))
  {
    HoldersAfter(s, step);
  }

  // A thread gets inside by acquiring the permit and leaves by releasing it.
  lemma {:induction false} HoldersAfter(s: State, step: Step)
    requires Can(s, step)
    ensures Holders(Do(s, step)) ==
      if step.Acquire? then Holders(s) + {step.t} else if step.Release? then Holders(s) - {step.t} else Holders(s)
    ensures step.t in Holders(s) <==> s.threads[step.t].Inside?
  {
    var s' := Do(s, step);
    forall t ensures t in Holders(s') <==>
      if t == step.t then s'.threads[t].Inside? else t in Holders(s)
    {
    }
  }

  // In every interleaving, from the initial state: permits and threads inside are conserved.
  lemma {:induction false} PermitsAreConserved(s: State, steps: seq<Step>)
    requires Conserved(s) && IsRun(s, steps)
    ensures Conserved(After(s, steps))
    decreases |steps|
  {
    if steps != [] {
      StepConserves(s, steps[0]);
      PermitsAreConserved(Do(s, steps[0]), steps[1..]);
    }
  }

  lemma {:induction false} InitialConserved(threads: set<ThreadId>)
    ensures Conserved(Initial(threads))
  {
    assert Holders(Initial(threads)) == {};
  }

  // Mutual exclusion. In a reachable state with nobody inside, two threads that want in can both
  // be let in exactly when some interrupted lock has been released.
  lemma {:induction false} ExclusionExactly(threads: set<ThreadId>, steps: seq<Step>, a: ThreadId, b: ThreadId)
    requires IsRun(Initial(threads), steps)
    requires var s := After(Initial(threads), steps);
             a in s.threads && b in s.threads && s.threads[a].Locking? && s.threads[b].Locking? && a != b
             && Holders(s) == {}
    ensures var s := After(Initial(threads), steps);
            IsRun(s, [Acquire(a), Acquire(b)]) <==> s.spurious > 0
  {
    InitialConserved(threads);
    PermitsAreConserved(Initial(threads), steps);
    var s := After(Initial(threads), steps);
    var both: seq<Step> := [Acquire(a), Acquire(b)];
    assert both[1..] == [Acquire(b)] && both[1..][1..] == [];
    assert s.permits == 1 + s.spurious && Can(s, Acquire(a));
    var next := Do(s, Acquire(a));
    assert Can(next, Acquire(b)) <==> s.spurious > 0;
    assert IsRun(next, both[1..]) <==> Can(next, Acquire(b)) && IsRun(Do(next, Acquire(b)), []);
  }

  predicate Uninterrupted(steps: seq<Step>) {
    forall i | 0 <= i < |steps| :: !steps[i].Interrupt?
  }

  lemma {:induction false} NothingSpurious(s: State, steps: seq<Step>)
    requires IsRun(s, steps) && Uninterrupted(steps)
    requires s.spurious == 0 && forall t | t in s.threads :: !s.threads[t].Thrown?
    ensures After(s, steps).spurious == 0
    decreases |steps|
  {
    if steps != [] {
      assert !steps[0].Interrupt?;
      NothingSpurious(Do(s, steps[0]), steps[1..]);
    }
  }

  // On every run without an interrupted lock at most one thread is inside at any time.
  lemma {:induction false} UninterruptedExclusion(threads: set<ThreadId>, steps: seq<Step>)
    requires IsRun(Initial(threads), steps) && Uninterrupted(steps)
    ensures |Holders(After(Initial(threads), steps))| <= 1
  {
    InitialConserved(threads);
    PermitsAreConserved(Initial(threads), steps);
    NothingSpurious(Initial(threads), steps);
  }

  // ---------- descriptors and fields ----------

  // The object owns at most the stored descriptor, and the fields agree with each other.
  predicate Consistent(f: Fields) {
    && f.open == (if f.socket > 0 then {f.socket} else {})
    && (f.device.Some? <==> f.psm != -1)
    && (f.device.Some? ==> f.socket > 0)
  }

  // What holds while a thread is at each point of the critical section.
  predicate ConsistentAt(f: Fields, request: Request, p: Point) {
    match p
    case CheckOpen => request.ToConnect? && Consistent(f)
    case CloseOld => request.ToConnect? && Consistent(f) && f.socket > 0
    case CloseIt => Consistent(f)
    case ClearDevice => f.open == {} && f.socket == -1
    case ClearPsm => f.open == {} && f.socket == -1 && f.device.None?
    case OpenNew => request.ToConnect? && Consistent(f) && f.socket <= 0
    case SetOption => request.ToConnect? && Consistent(f) && f.socket > 0 && f.device.None?
    case ConnectNew => request.ToConnect? && Consistent(f) && f.socket > 0 && f.device.None?
    case StoreDevice => request.ToConnect? && Consistent(f) && f.socket > 0 && f.device.None?
    case StorePsm => request.ToConnect? && f.open == {f.socket} && f.socket > 0 && f.device.Some?
    case Finally => Consistent(f)
  }

  // No lock was interrupted, so at most one thread is inside, and the fields fit where it is.
  ghost predicate Sound(s: State) {
    && (forall t | t in s.threads :: !s.threads[t].Thrown?)
    && (forall t | t in s.threads && s.threads[t].Inside? ::
          s.permits == 0 && ConsistentAt(s.fields, s.threads[t].request, s.threads[t].point))
    && (forall t, u | t in s.threads && u in s.threads && s.threads[t].Inside? && s.threads[u].Inside? :: t == u)
    && (s.permits == 0 || s.permits == 1)
    && (s.permits == 1 ==> Consistent(s.fields))
    && (forall t | t in s.threads :: Asked(s.threads[t]))
  }

  // No thread asks for the port that stands for none.
  predicate Asked(pc: Pc) {
    && (pc.Locking? ==> pc.request.ToConnect? ==> pc.request.psm != -1)
    && (pc.Inside? ==> pc.request.ToConnect? ==> pc.request.psm != -1)
  }

  // Lock calls are not interrupted, the system hands out positive descriptors, the port is not -1.
  predicate Ordinary(step: Step) {
    && !step.Interrupt?
    && (step.Opened? ==> step.descriptor == -1 || step.descriptor > 0)
    && (step.Begin? && step.request.ToConnect? ==> step.request.psm != -1)
  }

  lemma {:induction false} StatementConsistent(f: Fields, request: Request, p: Point)
    requires ConsistentAt(f, request, p) && p != OpenNew && p != Finally
    requires request.ToConnect? ==> request.psm != -1
    ensures var (f', p') := Statement(f, request, p); ConsistentAt(f', request, p')
  {
  }

  lemma {:induction false} StepSound(s: State, step: Step)
    requires Sound(s) && Can(s, step) && Ordinary(step)
    ensures Sound(Do(s, step))
  {
    var pc := s.threads[step.t];
    if step.Proceed? {
      StatementConsistent(s.fields, pc.request, pc.point);
    }
  }

  lemma {:induction false} RunSound(s: State, steps: seq<Step>)
    requires Sound(s) && IsRun(s, steps) && forall i | 0 <= i < |steps| :: Ordinary(steps[i])
    ensures Sound(After(s, steps))
    decreases |steps|
  {
    if steps != [] {
      assert Ordinary(steps[0]);
      StepSound(s, steps[0]);
      RunSound(Do(s, steps[0]), steps[1..]);
    }
  }

  // On every such run, across every failure point of connect and close: whenever the lock is free
  // the object owns at most one open descriptor, the stored one, and the device is set exactly when
  // the port is, and only while a descriptor is open.
  lemma {:induction false} FreeMeansConsistent(threads: set<ThreadId>, steps: seq<Step>)
    requires IsRun(Initial(threads), steps) && forall i | 0 <= i < |steps| :: Ordinary(steps[i])
    ensures var s := After(Initial(threads), steps); s.permits > 0 ==> Consistent(s.fields)
  {
    RunSound(Initial(threads), steps);
  }

  // ---------- one undisturbed call ----------

  // The answers that one call of connect or close gets.
  datatype Answers = Answers(interrupted: bool, closes: bool, descriptor: int, optionSet: bool, connects: bool)

  // nativeClose succeeds only on an open descriptor.
  predicate Goes(f: Fields, p: Point, a: Answers) {
    match p
    case CloseOld => a.closes && f.socket in f.open
    case CloseIt => a.closes && f.socket in f.open
    case SetOption => a.optionSet
    case ConnectNew => a.connects
    case _ => true
  }

  function Rank(p: Point): nat {
    match p
    case CheckOpen => 10
    case CloseOld => 9
    case CloseIt => 9
    case ClearDevice => 8
    case ClearPsm => 7
    case OpenNew => 6
    case SetOption => 5
    case ConnectNew => 4
    case StoreDevice => 3
    case StorePsm => 2
    case Finally => 1
  }

  // The steps from a point to the end of the finally block, and the fields they leave.
  function StepsFrom(t: ThreadId, f: Fields, r: Request, p: Point, a: Answers): seq<Step>
    decreases Rank(p)
  {
    if p == Finally then [Release(t)]
    else if p == OpenNew then
      (if a.descriptor < 0 then [Opened(t, -1)] + [Release(t)]
       else [Opened(t, a.descriptor)]
            + StepsFrom(t, f.(socket := a.descriptor, open := f.open + {a.descriptor}), r, SetOption, a))
    else if !Goes(f, p, a) then [Fail(t)] + [Release(t)]
    else [Proceed(t)] + StepsFrom(t, Statement(f, r, p).0, r, Statement(f, r, p).1, a)
  }

  function FieldsFrom(f: Fields, r: Request, p: Point, a: Answers): Fields
    decreases Rank(p)
  {
    if p == Finally then f
    else if p == OpenNew then
      (if a.descriptor < 0 then f.(socket := -1)
       else FieldsFrom(f.(socket := a.descriptor, open := f.open + {a.descriptor}), r, SetOption, a))
    else if !Goes(f, p, a) then f
    else FieldsFrom(Statement(f, r, p).0, r, Statement(f, r, p).1, a)
  }

  // A thread that is inside and is left alone gets through to the end with those fields, and gives
  // its permit back.
  lemma {:induction false} LeftAlone(s: State, t: ThreadId, r: Request, p: Point, a: Answers)
    requires t in s.threads && s.threads[t] == Inside(r, p)
    requires Rank(p) >= Rank(OpenNew) ==> a.descriptor !in s.fields.open
    ensures IsRun(s, StepsFrom(t, s.fields, r, p, a))
    ensures After(s, StepsFrom(t, s.fields, r, p, a))
            == s.(permits := s.permits + 1, threads := s.threads[t := Outside], fields := FieldsFrom(s.fields, r, p, a))
    decreases Rank(p)
  {
    if p == Finally {
      RunCons(s, Release(t), []);
    } else if p == OpenNew && a.descriptor < 0 {
      RunCons(s, Opened(t, -1), [Release(t)]);
      RunCons(Do(s, Opened(t, -1)), Release(t), []);
    } else if p != OpenNew && !Goes(s.fields, p, a) {
      RunCons(s, Fail(t), [Release(t)]);
      RunCons(Do(s, Fail(t)), Release(t), []);
    } else {
      var step := if p == OpenNew then Opened(t, a.descriptor) else Proceed(t);
      var next := Do(s, step);
      var rest := next.threads[t].point;
      GoesOn(s, t, r, p, a);
      RunCons(s, step, StepsFrom(t, next.fields, r, rest, a));
      LeftAlone(next, t, r, rest, a);
      assert next.threads[t := Outside] == s.threads[t := Outside];
    }
  }

  // A step that does not fail.
  lemma {:induction false} GoesOn(s: State, t: ThreadId, r: Request, p: Point, a: Answers)
    requires t in s.threads && s.threads[t] == Inside(r, p) && p != Finally
    requires if p == OpenNew then 0 <= a.descriptor && a.descriptor !in s.fields.open else Goes(s.fields, p, a)
    ensures var step := if p == OpenNew then Opened(t, a.descriptor) else Proceed(t);
            && Can(s, step)
            && var next := Do(s, step);
               && next.threads[t].Inside? && next.threads == s.threads[t := Inside(r, next.threads[t].point)]
               && next.permits == s.permits && next.spurious == s.spurious
               && var rest := next.threads[t].point;
                  && Rank(rest) < Rank(p) && (Rank(rest) >= Rank(OpenNew) ==> next.fields.open <= s.fields.open)
                  && StepsFrom(t, s.fields, r, p, a) == [step] + StepsFrom(t, next.fields, r, rest, a)
                  && FieldsFrom(s.fields, r, p, a) == FieldsFrom(next.fields, r, rest, a)
  {
  }

  lemma {:induction false} RunCons(s: State, step: Step, rest: seq<Step>)
    requires Can(s, step)
    ensures IsRun(s, [step] + rest) <==> IsRun(Do(s, step), rest)
    ensures IsRun(Do(s, step), rest) ==> After(s, [step] + rest) == After(Do(s, step), rest)
  {
    assert ([step] + rest)[0] == step && ([step] + rest)[1..] == rest;
  }

  lemma {:induction false} RunJoin(s: State, first: seq<Step>, rest: seq<Step>)
    requires IsRun(s, first) && IsRun(After(s, first), rest)
    ensures IsRun(s, first + rest) && After(s, first + rest) == After(After(s, first), rest)
    decreases |first|
  {
    if first == [] {
      assert [] + rest == rest;
    } else {
      assert (first + rest)[0] == first[0] && (first + rest)[1..] == first[1..] + rest;
      RunJoin(Do(s, first[0]), first[1..], rest);
    }
  }

  // Two threads that overtake each other, with the descriptors they get.
  function Overtaking(a: ThreadId, b: ThreadId, d: int, e: int): seq<Step> {
    [Acquire(a)] + ([Proceed(a)] + ([Acquire(b)] + ([Proceed(b)] + ([Opened(a, d)] + ([Opened(b, e)] + [])))))
  }

  // With a permit too many, two threads that connect can overtake each other, and one descriptor
  // stays open that no field remembers.
  lemma {:induction false} ExtraPermitLeaks(s: State, a: ThreadId, b: ThreadId, ra: Request, rb: Request, d: int,
          e: int)
    requires s.permits >= 2 && a != b && a in s.threads && b in s.threads
    requires s.threads[a] == Locking(ra) && s.threads[b] == Locking(rb) && ra.ToConnect? && rb.ToConnect?
    requires s.fields.socket <= 0 && d > 0 && e > 0 && d != e && d !in s.fields.open && e !in s.fields.open
    ensures IsRun(s, Overtaking(a, b, d, e))
    ensures var end := After(s, Overtaking(a, b, d, e)); end.fields.socket == e && {d, e} <= end.fields.open
  {
    var s1 := Do(s, Acquire(a));
    var s2 := Do(s1, Proceed(a));
    var s3 := Do(s2, Acquire(b));
    var s4 := Do(s3, Proceed(b));
    var s5 := Do(s4, Opened(a, d));
    RunCons(s5, Opened(b, e), []);
    RunCons(s4, Opened(a, d), [Opened(b, e)] + []);
    RunCons(s3, Proceed(b), [Opened(a, d)] + ([Opened(b, e)] + []));
    RunCons(s2, Acquire(b), [Proceed(b)] + ([Opened(a, d)] + ([Opened(b, e)] + [])));
    RunCons(s1, Proceed(a), [Acquire(b)] + ([Proceed(b)] + ([Opened(a, d)] + ([Opened(b, e)] + []))));
    RunCons(s, Acquire(a), [Proceed(a)] + ([Acquire(b)] + ([Proceed(b)] + ([Opened(a, d)] + ([Opened(b, e)] + [])))));
  }

  // One lock that is interrupted, and two threads that ask to connect.
  function Interrupted(c: ThreadId, rc: Request, a: ThreadId, ra: Request, b: ThreadId, rb: Request): seq<Step> {
    [Begin(c, rc)] + ([Interrupt(c)] + ([Release(c)] + ([Begin(a, ra)] + ([Begin(b, rb)] + []))))
  }

  lemma {:induction false} InterruptGivesPermit(threads: set<ThreadId>, c: ThreadId, rc: Request, a: ThreadId,
          ra: Request, b: ThreadId, rb: Request)
    requires a in threads && b in threads && c in threads && a != b
    ensures IsRun(Initial(threads), Interrupted(c, rc, a, ra, b, rb))
    ensures var s := After(Initial(threads), Interrupted(c, rc, a, ra, b, rb));
            && s.permits == 2 && s.fields == Initial(threads).fields && a in s.threads && b in s.threads
            && s.threads[a] == Locking(ra) && s.threads[b] == Locking(rb)
  {
    var s := Initial(threads);
    var s1 := Do(s, Begin(c, rc));
    var s2 := Do(s1, Interrupt(c));
    var s3 := Do(s2, Release(c));
    var s4 := Do(s3, Begin(a, ra));
    RunCons(s4, Begin(b, rb), []);
    RunCons(s3, Begin(a, ra), [Begin(b, rb)] + []);
    RunCons(s2, Release(c), [Begin(a, ra)] + ([Begin(b, rb)] + []));
    RunCons(s1, Interrupt(c), [Release(c)] + ([Begin(a, ra)] + ([Begin(b, rb)] + [])));
    RunCons(s, Begin(c, rc), [Interrupt(c)] + ([Release(c)] + ([Begin(a, ra)] + ([Begin(b, rb)] + []))));
  }

  // Why no lock may be interrupted. From the start, for every choice of threads, requests and
  // descriptors: one interrupted lock, of any call, is enough for a run that leaks a descriptor.
  lemma {:induction false} InterruptedLockLeaks(threads: set<ThreadId>, c: ThreadId, rc: Request, a: ThreadId,
          ra: Request, b: ThreadId, rb: Request, d: int, e: int)
    requires a in threads && b in threads && c in threads && a != b && ra.ToConnect? && rb.ToConnect?
    requires d > 0 && e > 0 && d != e
    ensures var steps := Interrupted(c, rc, a, ra, b, rb) + Overtaking(a, b, d, e);
            && IsRun(Initial(threads), steps)
            && var end := After(Initial(threads), steps); end.fields.socket == e && {d, e} <= end.fields.open
  {
    InterruptGivesPermit(threads, c, rc, a, ra, b, rb);
    ExtraPermitLeaks(After(Initial(threads), Interrupted(c, rc, a, ra, b, rb)), a, b, ra, rb, d, e);
    RunJoin(Initial(threads), Interrupted(c, rc, a, ra, b, rb), Overtaking(a, b, d, e));
  }

  // ---------- the methods ----------

  class NativeSocket {
    var permits: nat                  // the semaphore
    var socket: int

    constructor ()
      ensures permits == 1 && socket == -1
    {
      permits, socket := 1, -1;
    }

    // Waits until a permit is free, unless it is interrupted.
    method Lock(interrupted: bool) returns (threw: bool)
      requires interrupted || permits > 0
      modifies this`permits
      ensures threw == interrupted
      ensures permits == if interrupted then old(permits) else old(permits) - 1
    {
      if interrupted { return true; }
      permits := permits - 1;
      threw := false;
    }

    method Release()
      modifies this`permits
      ensures permits == old(permits) + 1
    {
      permits := permits + 1;
    }

    function Get(): int
      reads this`socket
    {
      socket
    }

    method Set(newValue: int)
      modifies this`socket
      ensures socket == newValue
    {
      socket := newValue;
    }
  }

  class L2capSocket {
    var remoteDevice: Option<int>
    var psm: int
    var open: set<int>                // the object's descriptors at the system
    const nativeSocket: NativeSocket

    constructor ()
      ensures Abs() == Initial({}).fields && nativeSocket.permits == 1 && fresh(nativeSocket)
    {
      remoteDevice, psm, open := None, -1, {};
      nativeSocket := new NativeSocket();
    }

    ghost function Abs(): Fields
      reads this, nativeSocket
    {
      Fields(nativeSocket.socket, open, remoteDevice, psm)
    }

    method NativeClose(closes: bool) returns (threw: bool)
      modifies this`open, nativeSocket`socket
      ensures threw <==> !closes || old(nativeSocket.socket) !in old(open)
      ensures threw ==> Abs() == old(Abs())
      ensures !threw ==> Abs() == old(Abs()).(socket := -1, open := old(open) - {old(nativeSocket.socket)})
    {
      var s := nativeSocket.Get();
      if !closes || s !in open { return true; }
      open := open - {s};
      nativeSocket.Set(-1);
      threw := false;
    }

    method GetNativeSocket(descriptor: int) returns (threw: bool)
      requires descriptor !in open
      modifies this`open, nativeSocket`socket
      ensures threw <==> descriptor < 0
      ensures Abs() == if threw then old(Abs()).(socket := -1)
                       else old(Abs()).(socket := descriptor, open := old(open) + {descriptor})
    {
      if descriptor < 0 {
        nativeSocket.Set(-1);
        return true;
      }
      open := open + {descriptor};
      nativeSocket.Set(descriptor);
      threw := false;
    }

    // What stands in the try block of connect after the lock.
    method ConnectLocked(device: int, port: int, a: Answers) returns (threw: bool)
      requires a.descriptor !in open
      modifies this, nativeSocket`socket
      ensures Abs() == FieldsFrom(old(Abs()), ToConnect(device, port), CheckOpen, a)
      ensures threw <==> !Connects(old(Abs()), a)
      ensures !threw ==>
                var kept := if old(Abs()).socket > 0 then old(open) - {old(Abs()).socket} else old(open);
                Abs() == Fields(a.descriptor, kept + {a.descriptor}, Some(device), port)
    {
      ghost var r := ToConnect(device, port);
      ghost var f0 := Abs();
      if nativeSocket.Get() > 0 {
        threw := NativeClose(a.closes);
        if threw { return; }
        remoteDevice := None;
        psm := -1;
      }
      ghost var f1 := Abs();
      assert FieldsFrom(f0, r, CheckOpen, a) == FieldsFrom(f1, r, OpenNew, a) by {
        if f0.socket > 0 {
          ClearedThrough(f0, r, CloseOld, a);
        }
      }
      threw := GetNativeSocket(a.descriptor);
      if threw { return; }
      ghost var f2 := Abs();
      StoredThrough(f2, r, a);
      if !a.optionSet { return true; }
      if !a.connects { return true; }
      remoteDevice := Some(device);
      psm := port;
    }

    // try, catch and finally of connect.
    method Connect(device: int, port: int, a: Answers) returns (threw: bool)
      requires a.descriptor !in open && (a.interrupted || nativeSocket.permits > 0)
      modifies this, nativeSocket
      ensures Abs() == if a.interrupted then old(Abs())
                       else FieldsFrom(old(Abs()), ToConnect(device, port), CheckOpen, a)
      ensures nativeSocket.permits == if a.interrupted then old(nativeSocket.permits) + 1 else old(nativeSocket.permits)
      ensures threw <==> a.interrupted || !Connects(old(Abs()), a)
    {
      threw := nativeSocket.Lock(a.interrupted);
      if !threw {
        threw := ConnectLocked(device, port, a);
      }
      nativeSocket.Release();
    }

    // try, catch and finally of close.
    method Close(a: Answers) returns (threw: bool)
      requires a.interrupted || nativeSocket.permits > 0
      modifies this, nativeSocket
      ensures Abs() == if a.interrupted then old(Abs())
                       else FieldsFrom(old(Abs()), ToClose, CloseIt, a)
      ensures nativeSocket.permits == if a.interrupted then old(nativeSocket.permits) + 1 else old(nativeSocket.permits)
      ensures threw <==> a.interrupted || !a.closes || old(Abs()).socket !in old(Abs()).open
    {
      ghost var f0 := Abs();
      threw := nativeSocket.Lock(a.interrupted);
      if !threw {
        threw := NativeClose(a.closes);
        if !threw {
          remoteDevice := None;
          psm := -1;
        }
        ClearedThrough(f0, ToClose, CloseIt, a);
      }
      nativeSocket.Release();
    }
  }

  // From a close to what follows the cleared fields.
  lemma {:induction false} ClearedThrough(f: Fields, r: Request, p: Point, a: Answers)
    requires p == CloseOld || p == CloseIt
    ensures FieldsFrom(f, r, p, a)
            == if !Goes(f, p, a) then f
               else FieldsFrom(Fields(-1, f.open - {f.socket}, None, -1), r, if r.ToConnect? then OpenNew else Finally, a)
  {
    if Goes(f, p, a) {
      var f1 := f.(socket := -1, open := f.open - {f.socket});
      assert FieldsFrom(f, r, p, a) == FieldsFrom(f1, r, ClearDevice, a);
      assert FieldsFrom(f1, r, ClearDevice, a) == FieldsFrom(f1.(device := None), r, ClearPsm, a);
    }
  }

  // From a new descriptor to the end.
  lemma {:induction false} StoredThrough(f: Fields, r: Request, a: Answers)
    requires r.ToConnect?
    ensures FieldsFrom(f, r, SetOption, a)
            == if a.optionSet && a.connects then f.(device := Some(r.device), psm := r.psm) else f
  {
    if a.optionSet && a.connects {
      assert FieldsFrom(f, r, SetOption, a) == FieldsFrom(f, r, ConnectNew, a);
      assert FieldsFrom(f, r, ConnectNew, a) == FieldsFrom(f, r, StoreDevice, a);
      var f1 := f.(device := Some(r.device));
      assert FieldsFrom(f, r, StoreDevice, a) == FieldsFrom(f1, r, StorePsm, a);
      assert FieldsFrom(f1, r, StorePsm, a) == FieldsFrom(f1.(psm := r.psm), r, Finally, a);
    } else if a.optionSet {
      assert FieldsFrom(f, r, SetOption, a) == FieldsFrom(f, r, ConnectNew, a);
    }
  }

  // The old descriptor, if there is a positive one, can be closed, and every call after that succeeds.
  predicate Connects(f: Fields, a: Answers) {
    (f.socket > 0 ==> a.closes && f.socket in f.open) && a.descriptor >= 0 && a.optionSet && a.connects
  }

  // What an undisturbed connect leaves, case by case: a failed close nothing new, a failed socket call
  // no descriptor, a failed option or connection the new descriptor alone, and a success everything.
  lemma {:induction false} ConnectLeaves(f: Fields, device: int, psm: int, a: Answers)
    ensures FieldsFrom(f, ToConnect(device, psm), CheckOpen, a) ==
      if f.socket > 0 && !(a.closes && f.socket in f.open) then f
      else
        var closed := if f.socket > 0 then Fields(-1, f.open - {f.socket}, None, -1) else f;
        if a.descriptor < 0 then Fields(-1, closed.open, closed.device, closed.psm)
        else if !(a.optionSet && a.connects) then Fields(a.descriptor, closed.open + {a.descriptor}, closed.device, closed.psm)
        else Fields(a.descriptor, closed.open + {a.descriptor}, Some(device), psm)
  {
    var r := ToConnect(device, psm);
    if f.socket > 0 {
      assert FieldsFrom(f, r, CheckOpen, a) == FieldsFrom(f, r, CloseOld, a);
      ClearedThrough(f, r, CloseOld, a);
    } else {
      assert FieldsFrom(f, r, CheckOpen, a) == FieldsFrom(f, r, OpenNew, a);
    }
    var closed := if f.socket > 0 then Fields(-1, f.open - {f.socket}, None, -1) else f;
    if a.descriptor >= 0 {
      StoredThrough(closed.(socket := a.descriptor, open := closed.open + {a.descriptor}), r, a);
    }
  }

  // And an undisturbed close.
  lemma {:induction false} CloseLeaves(f: Fields, a: Answers)
    ensures FieldsFrom(f, ToClose, CloseIt, a) ==
      if a.closes && f.socket in f.open then Fields(-1, f.open - {f.socket}, None, -1) else f
  {
    ClearedThrough(f, ToClose, CloseIt, a);
  }

  // A descriptor 0 is never closed by a later connect.
  lemma {:induction false} ZeroStaysOpen(f: Fields, device: int, psm: int, a: Answers)
    requires f.socket == 0 && 0 in f.open
    ensures 0 in FieldsFrom(f, ToConnect(device, psm), CheckOpen, a).open
  {
    ConnectLeaves(f, device, psm, a);
  }

  // A call that runs undisturbed, of either kind, keeps the fields consistent, if and only if the
  // port it stores is not -1 and the descriptor it stores is not 0.
  lemma {:induction false} CallKeepsConsistencyExactly(f: Fields, r: Request, a: Answers)
    requires Consistent(f) && a.descriptor !in f.open && a.descriptor >= -1
    ensures Consistent(FieldsFrom(f, r, if r.ToConnect? then CheckOpen else CloseIt, a)) <==>
              (r.ToConnect? && ReachesOpen(f, a) && a.descriptor >= 0 ==>
                 a.descriptor != 0 && (a.optionSet && a.connects ==> r.psm != -1))
  {
    if r.ToConnect? {
      if f.socket > 0 {
        assert FieldsFrom(f, r, CheckOpen, a) == FieldsFrom(f, r, CloseOld, a);
        ClearedThrough(f, r, CloseOld, a);
      } else {
        assert FieldsFrom(f, r, CheckOpen, a) == FieldsFrom(f, r, OpenNew, a);
      }
      if ReachesOpen(f, a) && a.descriptor >= 0 {
        var f1 := if f.socket > 0 then Fields(-1, f.open - {f.socket}, None, -1) else f;
        StoredThrough(f1.(socket := a.descriptor, open := f1.open + {a.descriptor}), r, a);
        assert f1.open == {};
      }
    } else {
      ClearedThrough(f, r, CloseIt, a);
    }
  }

  // connect gets as far as asking for a new descriptor.
  predicate ReachesOpen(f: Fields, a: Answers) {
    f.socket > 0 ==> a.closes
  }
}
