/** The run lock, and processes that race for it (orchard_chia/allocation/lock.py,
    orchard_chia/allocation/service.py).

    The lock file is created and deleted atomically; a crashed process leaves it behind. Breaking a lock
    is three steps: finding it stale, deleting the file, creating it anew. At most one process is inside a
    run exactly when breaking is off or the system refuses to delete a living holder's file; then any
    interleaving is some sequence of runs. */
module RunLock {
  import opened Ordering
  import opened Audit
  import opened AllocationRuns
  import AllocationBudget
  import PaymentTheorems

  // The lock object.

  /** The file on disk: absent, just created, or with its holder's pid in it. */
  datatype File = Absent | Empty | HeldBy(pid: int)

  /** A file may be taken over: breaking is on, it is old enough, and its pid is not alive. A file with no
      pid in it counts as not alive. */
  predicate Stale(breakAfter: Option<int>, file: File, age: int, alive: int -> bool) {
    breakAfter.Some? && age > breakAfter.value && (file.HeldBy? ==> !alive(file.pid))
  }

  class LockFile {
    var file: File

    constructor ()
      ensures file == Absent
    {
      file := Absent;
    }
  }

  class RunLock {
    const disk: LockFile
    const breakAfter: Option<int>
    var open: bool

    constructor (disk: LockFile, breakAfter: Option<int>)
      ensures this.disk == disk && this.breakAfter == breakAfter && !open
    {
      this.disk, this.breakAfter, this.open := disk, breakAfter, false;
    }

    /** false is LockBusy. `deletable` is whether the system lets the file be deleted. */
    method Acquire(pid: int, age: int, alive: int -> bool, deletable: bool) returns (ok: bool)
      modifies this`open, disk
      ensures ok <==> old(disk.file) == Absent || (Stale(breakAfter, old(disk.file), age, alive) && deletable)
      ensures ok ==> disk.file == HeldBy(pid) && open
      ensures !ok ==> disk.file == old(disk.file) && open == old(open)
      ensures breakAfter.None? ==> (ok <==> old(disk.file) == Absent)
    {
      if disk.file == Absent {
        disk.file := Empty;
      } else {
        if breakAfter.None? || age <= breakAfter.value { return false; }
        if disk.file.HeldBy? && alive(disk.file.pid) { return false; }
        if !deletable { return false; }
        disk.file := Absent;
        disk.file := Empty;
      }
      open := true;
      disk.file := HeldBy(pid);
      return true;
    }

    /** Deletes the file, whoever it belongs to. */
    method Release()
      modifies this`open, disk
      ensures disk.file == Absent && !open
    {
      open := false;
      disk.file := Absent;
    }
  }

  // Processes, one atomic step at a time. A process inside a run has the lock; it carries the store as
  // it found it and the number of effects it has performed. A process on its way to break a lock has
  // found it stale, or has deleted the file.

  datatype Proc = Outside | FoundStale(job: Job) | Deleted(job: Job)
                | Inside(job: Job, start: Host, run: nat, done: nat)

  /** The caller's setting, and whether the system deletes a file that a living process holds open. */
  datatype Config = Config(breakAfter: Option<int>, deletesOpen: bool)

  datatype World = World(host: Host, file: File, procs: map<int, Proc>, past: seq<Past>)

  datatype Step =
    | Acquire(p: int, job: Job)
    | Check(p: int, job: Job, age: int)
    | Delete(p: int, deletable: bool)
    | Create(p: int)
    | Work(p: int)
    | Finish(p: int)
    | Crash(p: int)
    | RemoveLock
    | Resolve(c: CycleId, w: Wallet, txId: string)

  function ProcOf(x: World, p: int): Proc { if p in x.procs then x.procs[p] else Outside }

  predicate Alive(x: World, p: int) { !ProcOf(x, p).Outside? }

  function Become(x: World, p: int, s: Proc): World { x.(procs := x.procs[p := s]) }

  function Enter(x: World, p: int, job: Job): World {
    Become(x.(file := HeldBy(p)), p, Inside(job, x.host, |x.past|, 0))
  }

  ghost function Plan(s: Proc): seq<Effect>
    requires s.Inside?
  {
    CycleEffects(s.start, s.job, s.run)
  }

  ghost predicate SomeoneInside(x: World) {
    exists p :: p in x.procs && x.procs[p].Inside?
  }

  predicate Deletable(config: Config, x: World) {
    x.file != Absent && (config.deletesOpen || !x.file.HeldBy? || !Alive(x, x.file.pid))
  }

  /** One step of the interleaving. A busy lock changes nothing; the operator deletes a lock, or settles a
      row left mid-send, only when no run is going on. */
  ghost function Next(config: Config, x: World, step: Step): World {
    match step
    case Acquire(p, job) => if x.file != Absent || Alive(x, p) then x else Enter(x, p, job)
    case Check(p, job, age) =>
      if x.file == Absent || Alive(x, p) || !Stale(config.breakAfter, x.file, age, q => Alive(x, q)) then x
      else Become(x, p, FoundStale(job))
    case Delete(p, deletable) =>
      if !ProcOf(x, p).FoundStale? then x
      else if !deletable || !Deletable(config, x) then Become(x, p, Outside)
      else Become(x.(file := Absent), p, Deleted(ProcOf(x, p).job))
    case Create(p) =>
      if !ProcOf(x, p).Deleted? then x
      else if x.file != Absent then Become(x, p, Outside)
      else Enter(x, p, ProcOf(x, p).job)
    case Work(p) =>
      var s := ProcOf(x, p);
      if !s.Inside? || s.done >= |Plan(s)| then x
      else Become(x.(host := Apply(x.host, Plan(s)[s.done])), p, s.(done := s.done + 1))
    case Finish(p) =>
      var s := ProcOf(x, p);
      if !s.Inside? || s.done < |Plan(s)| then x
      else Become(x.(file := Absent, past := x.past + [Ran(s.job, s.done)]), p, Outside)
    case Crash(p) =>
      var s := ProcOf(x, p);
      if s.Inside? then Become(x.(past := x.past + [Ran(s.job, s.done)]), p, Outside)
      else if s.Outside? then x else Become(x, p, Outside)
    case RemoveLock => if SomeoneInside(x) then x else x.(file := Absent)
    case Resolve(c, w, txId) =>
      if SomeoneInside(x) then x
      else x.(host := ApplyAll(x.host, Resolution(x.host, c, w, txId)), past := x.past + [Resolved(c, w, txId)])
  }

  ghost function Reached(config: Config, steps: seq<Step>): World {
    if steps == [] then World(START, Absent, map[], [])
    else Next(config, Reached(config, steps[..|steps| - 1]), steps[|steps| - 1])
  }

  /** Breaking is off, or cannot take the file from a living holder. */
  predicate Excludes(config: Config) { config.breakAfter.None? || !config.deletesOpen }

  // The invariant of the interleaving.

  /** Whoever is inside holds the lock; nobody is about to break one that may not be broken. */
  ghost predicate Exclusive(config: Config, x: World) {
    && (forall p :: p in x.procs && x.procs[p].Inside? ==> x.file == HeldBy(p))
    && (config.breakAfter.None? ==> forall p :: p in x.procs ==> !x.procs[p].FoundStale? && !x.procs[p].Deleted?)
  }

  /** The store is the sequential one: of the runs that are over, and of the run going on as far as it has got. */
  ghost predicate Sequential(x: World) {
    && (!SomeoneInside(x) ==> x.host == Serial(x.past))
    && (forall p :: p in x.procs && x.procs[p].Inside? ==>
          var s := x.procs[p];
          && s.start == Serial(x.past) && s.run == |x.past| && s.done <= |Plan(s)|
          && x.host == ApplyAll(s.start, Plan(s)[..s.done]))
  }

  lemma ApplyNext(h: Host, es: seq<Effect>, n: nat)
    requires n < |es|
    ensures ApplyAll(h, es[..n + 1]) == Apply(ApplyAll(h, es[..n]), es[n])
  {
    hide Apply;
    assert es[..n + 1] == es[..n] + [es[n]];
    ApplyAppend(h, es[..n], [es[n]]);
    ApplyOne(ApplyAll(h, es[..n]), es[n]);
  }

  lemma SerialSnoc(past: seq<Past>, job: Job, done: nat)
    ensures var es := CycleEffects(Serial(past), job, |past|);
            done <= |es| ==> Serial(past + [Ran(job, done)]) == ApplyAll(Serial(past), es[..done])
  {
    hide CycleEffects;
    assert (past + [Ran(job, done)])[..|past|] == past;
  }

  lemma SerialResolved(past: seq<Past>, c: CycleId, w: Wallet, txId: string)
    ensures Serial(past + [Resolved(c, w, txId)]) == ApplyAll(Serial(past), Resolution(Serial(past), c, w, txId))
  {
    hide Resolution;
    assert (past + [Resolved(c, w, txId)])[..|past|] == past;
  }

  lemma NextKeeps(config: Config, x: World, step: Step)
    requires Excludes(config) && Exclusive(config, x) && Sequential(x)
    ensures Exclusive(config, Next(config, x, step)) && Sequential(Next(config, x, step))
  {
    hide CycleEffects, Serial, Resolution;
    match step
    case Acquire(p, job) => if x.file == Absent && !Alive(x, p) { EnterKeeps(config, x, p, job); }
    case Check(p, job, age) => CheckKeeps(config, x, p, job, age);
    case Delete(p, deletable) => DeleteKeeps(config, x, p, deletable);
    case Create(p) =>
      if ProcOf(x, p).Deleted? {
        if x.file == Absent { EnterKeeps(config, x, p, ProcOf(x, p).job); } else { LeaveKeeps(config, x, p); }
      }
    case Work(p) => WorkKeeps(config, x, p);
    case Finish(p) => if ProcOf(x, p).Inside? { EndKeeps(config, x, p); }
    case Crash(p) => if ProcOf(x, p).Inside? { EndKeeps(config, x, p); } else { LeaveKeeps(config, x, p); }
    case RemoveLock =>
    case Resolve(c, w, txId) => SerialResolved(x.past, c, w, txId);
  }

  /** A process that is not inside does not matter to the others. */
  lemma MoveKeeps(config: Config, x: World, p: int, s: Proc)
    requires Exclusive(config, x) && Sequential(x) && !ProcOf(x, p).Inside? && !s.Inside?
    requires config.breakAfter.None? ==> s.Outside?
    ensures Exclusive(config, Become(x, p, s)) && Sequential(Become(x, p, s))
  {
    hide CycleEffects, Serial;
    var y := Become(x, p, s);
    assert forall q :: q in y.procs && y.procs[q].Inside? <==> q in x.procs && x.procs[q].Inside?;
    assert SomeoneInside(x) ==> SomeoneInside(y);
  }

  lemma LeaveKeeps(config: Config, x: World, p: int)
    requires Exclusive(config, x) && Sequential(x) && !ProcOf(x, p).Inside?
    ensures Exclusive(config, Become(x, p, Outside)) && Sequential(Become(x, p, Outside))
  {
    MoveKeeps(config, x, p, Outside);
  }

  lemma CheckKeeps(config: Config, x: World, p: int, job: Job, age: int)
    requires Exclusive(config, x) && Sequential(x)
    ensures var y := Next(config, x, Check(p, job, age)); Exclusive(config, y) && Sequential(y)
  {
    hide CycleEffects, Serial;
    if config.breakAfter.Some? && !Alive(x, p) { MoveKeeps(config, x, p, FoundStale(job)); }
  }

  lemma DeleteKeeps(config: Config, x: World, p: int, deletable: bool)
    requires Excludes(config) && Exclusive(config, x) && Sequential(x)
    ensures var y := Next(config, x, Delete(p, deletable)); Exclusive(config, y) && Sequential(y)
  {
    hide CycleEffects, Serial;
    if ProcOf(x, p).FoundStale? {
      assert config.breakAfter.Some?;
      if deletable && Deletable(config, x) {
        assert !SomeoneInside(x);
        MoveKeeps(config, x.(file := Absent), p, Deleted(ProcOf(x, p).job));
      } else {
        LeaveKeeps(config, x, p);
      }
    }
  }

  lemma EnterKeeps(config: Config, x: World, p: int, job: Job)
    requires Exclusive(config, x) && Sequential(x) && x.file == Absent
    ensures Exclusive(config, Enter(x, p, job)) && Sequential(Enter(x, p, job))
  {
    hide CycleEffects, Serial;
    var y := Enter(x, p, job);
    assert !SomeoneInside(x);
    assert forall q :: q in y.procs && y.procs[q].Inside? ==> q == p;
    assert y.procs[p].Inside?;
    assert Plan(y.procs[p])[..0] == [];
  }

  lemma WorkKeeps(config: Config, x: World, p: int)
    requires Exclusive(config, x) && Sequential(x)
    ensures Exclusive(config, Next(config, x, Work(p))) && Sequential(Next(config, x, Work(p)))
  {
    hide CycleEffects, Serial, Apply;
    var s, y := ProcOf(x, p), Next(config, x, Work(p));
    if s.Inside? && s.done < |Plan(s)| {
      assert Plan(y.procs[p]) == Plan(s);
      ApplyNext(s.start, Plan(s), s.done);
      assert forall q :: q in y.procs && y.procs[q].Inside? ==> q == p;
    }
  }

  lemma EndKeeps(config: Config, x: World, p: int)
    requires Exclusive(config, x) && Sequential(x) && ProcOf(x, p).Inside?
    ensures Exclusive(config, Next(config, x, Finish(p))) && Sequential(Next(config, x, Finish(p)))
    ensures Exclusive(config, Next(config, x, Crash(p))) && Sequential(Next(config, x, Crash(p)))
  {
    hide CycleEffects, Serial, Apply;
    var s := ProcOf(x, p);
    SerialSnoc(x.past, s.job, s.done);
    assert forall q :: q in x.procs && x.procs[q].Inside? ==> q == p;
  }

  lemma {:induction false} ReachedKeeps(config: Config, steps: seq<Step>)
    requires Excludes(config)
    ensures Exclusive(config, Reached(config, steps)) && Sequential(Reached(config, steps))
  {
    if steps != [] {
      hide Exclusive, Sequential, Next;
      ReachedKeeps(config, steps[..|steps| - 1]);
      NextKeeps(config, Reached(config, steps[..|steps| - 1]), steps[|steps| - 1]);
    }
  }

  // Mutual exclusion.

  ghost predicate OneInside(x: World) {
    forall p, q :: ProcOf(x, p).Inside? && ProcOf(x, q).Inside? ==> p == q
  }

  /** At most one process is ever inside a run, and it is the one the lock names. */
  lemma MutualExclusion(config: Config, steps: seq<Step>, p: int, q: int)
    requires Excludes(config)
    ensures var x := Reached(config, steps);
            ProcOf(x, p).Inside? && ProcOf(x, q).Inside? ==> p == q && x.file == HeldBy(p)
  {
    ReachedKeeps(config, steps);
  }

  /** In every interleaving, exactly for the settings under which a living holder's lock cannot be taken:
      where open files can be deleted, that is exactly with breaking off. */
  lemma MutualExclusionIff(config: Config)
    ensures (forall steps :: OneInside(Reached(config, steps))) <==> Excludes(config)
    ensures config.deletesOpen ==> ((forall steps :: OneInside(Reached(config, steps))) <==> config.breakAfter.None?)
  {
    if Excludes(config) {
      forall steps ensures OneInside(Reached(config, steps)) {
        ReachedKeeps(config, steps);
        hide Reached;
      }
    } else {
      var steps := BreakersBothEnter(config);
      assert !OneInside(Reached(config, steps));
    }
  }

  const IDLE := Job(Settings("", 0, 0, 0, 0, 0, true, None), 0, 0, [], None, false, NeverAsked)

  function NeverAsked(n: nat): Answer { NoTxId(false) }

  lemma ReachedSnoc(config: Config, steps: seq<Step>, step: Step)
    ensures Reached(config, steps + [step]) == Next(config, Reached(config, steps), step)
  {
    hide Next;
    assert (steps + [step])[..|steps|] == steps;
  }

  /** A dead holder's file; two processes find it stale, and both end up inside. */
  lemma BreakersBothEnter(config: Config) returns (steps: seq<Step>)
    requires !Excludes(config)
    ensures ProcOf(Reached(config, steps), 1).Inside? && ProcOf(Reached(config, steps), 2).Inside?
  {
    hide Reached, CycleEffects, Apply, ApplyAll, Resolution, SomeoneInside;
    var age := config.breakAfter.value + 1;
    var todo := [Acquire(0, IDLE), Crash(0), Check(1, IDLE, age), Check(2, IDLE, age),
                 Delete(1, true), Create(1), Delete(2, true), Create(2)];
    steps := [];
    assert Reached(config, []) == World(START, Absent, map[], []) by { NothingReached(config); }
    for i := 0 to 8
      invariant steps == todo[..i]
      invariant i == 0 ==> Reached(config, steps) == World(START, Absent, map[], [])
      invariant i == 1 ==> Reached(config, steps).file == HeldBy(0)
      invariant 2 <= i < 5 ==> Reached(config, steps).file == HeldBy(0) && !Alive(Reached(config, steps), 0)
      invariant i == 1 ==> !Alive(Reached(config, steps), 1) && !Alive(Reached(config, steps), 2)
      invariant i == 2 ==> !Alive(Reached(config, steps), 1)
      invariant 1 <= i <= 3 ==> !Alive(Reached(config, steps), 2)
      invariant 3 <= i <= 4 ==> ProcOf(Reached(config, steps), 1).FoundStale?
      invariant 4 <= i <= 6 ==> ProcOf(Reached(config, steps), 2).FoundStale?
      invariant i == 5 ==> ProcOf(Reached(config, steps), 1).Deleted? && Reached(config, steps).file == Absent
      invariant 6 <= i ==> ProcOf(Reached(config, steps), 1).Inside?
      invariant i == 6 ==> Reached(config, steps).file == HeldBy(1)
      invariant i == 7 ==> ProcOf(Reached(config, steps), 2).Deleted? && Reached(config, steps).file == Absent
      invariant i == 8 ==> ProcOf(Reached(config, steps), 2).Inside?
    {
      ReachedSnoc(config, steps, todo[i]);
      steps := steps + [todo[i]];
    }
  }

  lemma NothingReached(config: Config)
    ensures Reached(config, []) == World(START, Absent, map[], [])
  {}

  // Serial runs.

  /** What a process finds in the store, at any moment of its run, is what it would find if it ran alone
      after the runs that are over. */
  lemma HolderSeesItsOwnRun(config: Config, steps: seq<Step>, p: int)
    requires Excludes(config) && ProcOf(Reached(config, steps), p).Inside?
    ensures var x := Reached(config, steps);
            var s := ProcOf(x, p);
            s.start == Serial(x.past) && s.done <= |Plan(s)| && x.host == ApplyAll(s.start, Plan(s)[..s.done])
  {
    ReachedKeeps(config, steps);
  }

  ghost predicate TrustedSteps(steps: seq<Step>, least: int) {
    forall x :: x in steps && (x.Acquire? || x.Check?) ==> TrustedFrom(x.job, least)
  }

  /** The jobs of all runs, over, going on and about to start, are ones that were started. */
  ghost predicate TrustedWorld(x: World, least: int) {
    && TrustedPast(x.past, least)
    && forall p :: p in x.procs && !x.procs[p].Outside? ==> TrustedFrom(x.procs[p].job, least)
  }

  lemma {:induction false} ReachedIsTrusted(config: Config, steps: seq<Step>, least: int)
    requires TrustedSteps(steps, least)
    ensures TrustedWorld(Reached(config, steps), least)
  {
    if steps != [] {
      hide TrustedFrom, CycleEffects, TrustedWorld, Next;
      var last := steps[|steps| - 1];
      assert last in steps;
      ReachedIsTrusted(config, steps[..|steps| - 1], least);
      NextIsTrusted(config, Reached(config, steps[..|steps| - 1]), last, least);
    } else {
      hide TrustedFrom;
    }
  }

  lemma NextIsTrusted(config: Config, x: World, step: Step, least: int)
    requires TrustedWorld(x, least) && (step.Acquire? || step.Check? ==> TrustedFrom(step.job, least))
    ensures TrustedWorld(Next(config, x, step), least)
  {
    hide TrustedFrom, CycleEffects, Apply, ApplyAll, Resolution, SomeoneInside;
  }

  /** The interleaved store and wallet are those of some sequence of runs, each stopped somewhere. */
  lemma Serializable(config: Config, steps: seq<Step>, least: int) returns (past: seq<Past>)
    requires Excludes(config) && TrustedSteps(steps, least)
    ensures Reached(config, steps).host == Serial(past) && TrustedPast(past, least)
  {
    var x := Reached(config, steps);
    ReachedKeeps(config, steps);
    ReachedIsTrusted(config, steps, least);
    hide Reached, TrustedFrom, CycleEffects, Serial;
    past := x.past;
    if SomeoneInside(x) {
      var p :| p in x.procs && x.procs[p].Inside?;
      SerialSnoc(x.past, x.procs[p].job, x.procs[p].done);
      past := past + [Ran(x.procs[p].job, x.procs[p].done)];
    }
  }

  /** Nobody is running, and no lock is left. */
  ghost predicate Idle(x: World) { x.file == Absent && forall p :: p in x.procs ==> x.procs[p].Outside? }

  /** Process 0 alone is running, and has performed k effects of its run. */
  ghost predicate Busy(x: World, run: nat, start: Host, job: Job, k: nat) {
    && |x.past| == run && ProcOf(x, 0) == Inside(job, start, run, k) && x.file == HeldBy(0)
    && (forall p :: p in x.procs && p != 0 ==> x.procs[p].Outside?)
    && (var es := CycleEffects(start, job, run); k <= |es| && x.host == ApplyAll(start, es[..k]))
  }

  lemma EnterAlone(config: Config, x: World, job: Job)
    requires Idle(x)
    ensures Busy(Next(config, x, Acquire(0, job)), |x.past|, x.host, job, 0)
  {
    hide CycleEffects, Apply;
    assert CycleEffects(x.host, job, |x.past|)[..0] == [];
  }

  lemma WorkOnce(config: Config, x: World, run: nat, start: Host, job: Job, k: nat)
    requires Busy(x, run, start, job, k) && k < |CycleEffects(start, job, run)|
    ensures Busy(Next(config, x, Work(0)), run, start, job, k + 1)
  {
    hide CycleEffects, Apply, ApplyAll;
    ApplyNext(start, CycleEffects(start, job, run), k);
  }

  lemma {:induction false} WorkAlone(config: Config, steps: seq<Step>, run: nat, start: Host, job: Job, k: nat)
    returns (more: seq<Step>)
    requires Busy(Reached(config, steps), run, start, job, 0) && k <= |CycleEffects(start, job, run)|
    ensures Busy(Reached(config, steps + more), run, start, job, k) && forall x :: x in more ==> x == Work(0)
  {
    hide Reached, Busy, CycleEffects, Next;
    more := [];
    assert steps + [] == steps;
    if k > 0 {
      more := WorkAlone(config, steps, run, start, job, k - 1);
      ReachedSnoc(config, steps + more, Work(0));
      WorkOnce(config, Reached(config, steps + more), run, start, job, k - 1);
      assert (steps + more) + [Work(0)] == steps + (more + [Work(0)]);
      more := more + [Work(0)];
    }
  }

  lemma LeaveAlone(config: Config, x: World, run: nat, start: Host, job: Job, k: nat)
    requires Busy(x, run, start, job, k)
    ensures var y := Next(config, Next(config, x, Crash(0)), RemoveLock);
            Idle(y) && |y.past| == run + 1 && y.host == ApplyAll(start, CycleEffects(start, job, run)[..k])
  {
    hide CycleEffects, Apply, ApplyAll;
    assert !SomeoneInside(Next(config, x, Crash(0)));
  }

  lemma RunAlone(config: Config, steps: seq<Step>, job: Job, stop: nat) returns (more: seq<Step>)
    requires Idle(Reached(config, steps))
    ensures var x, y := Reached(config, steps), Reached(config, steps + more);
            && Idle(y) && |y.past| == |x.past| + 1
            && y.host == ApplyAll(x.host, Cut(CycleEffects(x.host, job, |x.past|), stop))
    ensures forall step :: step in more && (step.Acquire? || step.Check?) ==> step == Acquire(0, job)
  {
    hide Reached, CycleEffects, ApplyAll, Next, Busy, Idle;
    var x := Reached(config, steps);
    var es := CycleEffects(x.host, job, |x.past|);
    var k := if stop <= |es| then stop else |es|;
    assert es[..|es|] == es;
    ReachedSnoc(config, steps, Acquire(0, job));
    EnterAlone(config, x, job);
    var work := WorkAlone(config, steps + [Acquire(0, job)], |x.past|, x.host, job, k);
    var done := steps + [Acquire(0, job)] + work;
    LeaveAlone(config, Reached(config, done), |x.past|, x.host, job, k);
    ReachedSnoc(config, done, Crash(0));
    ReachedSnoc(config, done + [Crash(0)], RemoveLock);
    more := [Acquire(0, job)] + work + [Crash(0), RemoveLock];
    assert done + [Crash(0)] + [RemoveLock] == steps + more;
  }

  /** Conversely, any sequence of runs, each stopped anywhere, is the outcome of some interleaving. */
  lemma {:induction false} EveryPastIsReached(config: Config, past: seq<Past>, least: int) returns (steps: seq<Step>)
    requires TrustedPast(past, least)
    ensures TrustedSteps(steps, least) && Idle(Reached(config, steps))
    ensures Reached(config, steps).host == Serial(past) && |Reached(config, steps).past| == |past|
  {
    hide CycleEffects, ApplyAll, TrustedFrom, Resolution;
    if past == [] {
      steps := [];
    } else {
      var last := past[|past| - 1];
      assert last in past;
      var before := EveryPastIsReached(config, past[..|past| - 1], least);
      hide Reached, Next, Idle;
      match last
      case Ran(job, stop) =>
        var more := RunAlone(config, before, job, stop);
        steps := before + more;
      case Resolved(c, w, txId) =>
        steps := before + [Resolve(c, w, txId)];
        ReachedSnoc(config, before, Resolve(c, w, txId));
        ResolveAlone(config, Reached(config, before), c, w, txId);
    }
  }

  lemma ResolveAlone(config: Config, x: World, c: CycleId, w: Wallet, txId: string)
    requires Idle(x)
    ensures var y := Next(config, x, Resolve(c, w, txId));
            Idle(y) && |y.past| == |x.past| + 1 && y.host == ApplyAll(x.host, Resolution(x.host, c, w, txId))
  {
    hide ApplyAll, Resolution;
    assert !SomeoneInside(x);
  }

  /** However processes interleave and wherever they crash, the wallet accepts at most one spend for a
      cycle and wallet, its row says `sending` or `sent`, and one run sent all of a cycle's spends. */
  lemma AtMostOncePerCycleAndWallet(config: Config, steps: seq<Step>, i: nat, j: nat)
    requires Excludes(config) && TrustedSteps(steps, 0) && i < j < |Reached(config, steps).host.moved|
    ensures var h := Reached(config, steps).host;
            var a, b := h.moved[i], h.moved[j];
            && (a.cycle, a.wallet) != (b.cycle, b.wallet)
            && (a.cycle == b.cycle ==> a.run == b.run)
            && (a.cycle, a.wallet) in h.db.rows && h.db.rows[(a.cycle, a.wallet)].state in {Sending, Sent}
  {
    var past := Serializable(config, steps, 0);
    SerialIsSafe(past);
    hide Reached, Serial;
  }

  /** And the accepted spends of a cycle never add up to more than the cycle's budget, nor to more than the
      per-cycle cap of the run that sent them. */
  lemma CycleStaysWithinItsBudget(config: Config, steps: seq<Step>, i: nat)
    requires Excludes(config) && TrustedSteps(steps, 0) && i < |Reached(config, steps).host.moved|
    ensures var moved := Reached(config, steps).host.moved;
            && PaymentTheorems.MovedTotal(moved, moved[i].cycle) <= moved[i].cycle.budget
            && PaymentTheorems.MovedTotal(moved, moved[i].cycle) <= moved[i].capCycle
  {
    var past := Serializable(config, steps, 0);
    AllocationBudget.SerialStaysWithinCaps(past);
    hide Reached, Serial, PaymentTheorems.MovedTotal;
  }
}
