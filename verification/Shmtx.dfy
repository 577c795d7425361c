/**
 * The mutex of ngx_shmtx.c (atomic operations and a POSIX semaphore), shared by any number of processes. Each access to
 * shared memory and each semaphore call is one step; processes take steps in any order.
 */
module Shmtx {

  /** More than one processor; the spin limit; whether sem_init succeeded. */
  datatype Config = Config(multi: bool, spin: nat, semaphore: bool)

  /** Which of the three tests of the lock word in ngx_shmtx_lock is next. */
  datatype Stage = First | Spin(n: nat) | Last

  /** Where a process is. Each state names the step it takes next. */
  datatype Pc =
    | Idle
    | TryTest | TryCas
    | Test(at: Stage) | Cas(at: Stage) | Enroll | Blocked
    | Inside
    | WakeRead | WakeCas(seen: nat) | Post
    | Dead

  /** The lock word, the count of waiters, the semaphore, and the processes by pid. */
  datatype State = State(lock: nat, wait: nat, sem: nat, pc: map<nat, Pc>)

  /** The next step of a process's own code, a call it makes, or something that happens to it. */
  datatype Act = Go | CallLock | CallTry | CallUnlock | CallForce(pid: nat) | SemError | PostError | Die

  /** What ngx_shmtx_lock does after a failed test (ngx_shmtx.c:82-124). */
  function AfterFail(c: Config, at: Stage): Pc {
    match at
    case First => if c.multi && 1 < c.spin then Test(Spin(1)) else if c.semaphore then Enroll else Test(First)
    case Spin(n) => if n > 0 && 2 * n < c.spin then Test(Spin(2 * n)) else if c.semaphore then Enroll else Test(First)
    case Last => Blocked
  }

  /** Whether process `p` can do `a`. Only sem_wait can block; ngx_shmtx_force_unlock is for a process that is gone. */
  predicate Can(s: State, p: nat, a: Act) {
    && p in s.pc && p != 0
    && match a
       case Go => !s.pc[p].Idle? && !s.pc[p].Inside? && !s.pc[p].Dead? && (s.pc[p].Blocked? ==> s.sem > 0)
       case CallLock => s.pc[p].Idle?
       case CallTry => s.pc[p].Idle?
       case CallUnlock => s.pc[p].Idle? || s.pc[p].Inside?
       case CallForce(q) => s.pc[p].Idle? && q in s.pc && s.pc[q].Dead?
       case SemError => s.pc[p].Blocked?
       case PostError => s.pc[p].Post?
       case Die => !s.pc[p].Dead?
  }

  function At(s: State, p: nat, x: Pc): State { s.(pc := s.pc[p := x]) }

  /** The step `a` of process `p`. */
  function Do(c: Config, s: State, p: nat, a: Act): State
    requires Can(s, p, a)
  {
    match a
    case CallLock => At(s, p, Test(First))
    case CallTry => At(s, p, TryTest)
    case CallUnlock => Release(s, p, p)
    case CallForce(q) => Release(s, p, q)
    case SemError => At(s, p, Test(First))
    case PostError => At(s, p, Idle)
    case Die => At(s, p, Dead)
    case Go => Advance(c, s, p)
  }

  /** `ngx_atomic_cmp_set(mtx->lock, pid, 0)`, then the wakeup (ngx_shmtx.c:135-160). */
  function Release(s: State, p: nat, pid: nat): State {
    if s.lock == pid then At(s, p, WakeRead).(lock := 0) else At(s, p, Idle)
  }

  /** One step of the code (ngx_shmtx.c:62-132, 163-195). */
  function Advance(c: Config, s: State, p: nat): State
    requires Can(s, p, Go)
  {
    match s.pc[p]
    case TryTest => At(s, p, if s.lock == 0 then TryCas else Idle)
    case TryCas => if s.lock == 0 then At(s, p, Inside).(lock := p) else At(s, p, Idle)
    case Test(at) => At(s, p, if s.lock == 0 then Cas(at) else AfterFail(c, at))
    case Cas(at) => if s.lock == 0 then At(s, p, Inside).(lock := p) else At(s, p, AfterFail(c, at))
    case Enroll => At(s, p, Test(Last)).(wait := s.wait + 1)
    case Blocked => At(s, p, Test(First)).(sem := s.sem - 1)
    case WakeRead => At(s, p, if !c.semaphore || s.wait == 0 then Idle else WakeCas(s.wait))
    case WakeCas(seen) => if seen > 0 && s.wait == seen then At(s, p, Post).(wait := s.wait - 1) else At(s, p, WakeRead)
    case Post => At(s, p, Idle).(sem := s.sem + 1)
    case _ => s
  }

  ghost predicate Init(s: State) {
    s.lock == 0 && s.wait == 0 && s.sem == 0 && 0 !in s.pc && forall p :: p in s.pc ==> s.pc[p] == Idle
  }

  /** A run: the acts taken, with the process that takes each. */
  type Run = seq<(nat, Act)>

  ghost predicate Runs(c: Config, s: State, run: Run, s': State)
    decreases |run|
  {
    if run == [] then s' == s
    else Can(s, run[0].0, run[0].1) && Runs(c, Do(c, s, run[0].0, run[0].1), run[1..], s')
  }

  // Mutual exclusion

  /** The lock word is 0, or the pid of the one process inside, or that of a process that died inside. */
  ghost predicate Exclusive(s: State) {
    && 0 !in s.pc
    && (s.lock != 0 ==> s.lock in s.pc && (s.pc[s.lock].Inside? || s.pc[s.lock].Dead?))
    && (forall p :: p in s.pc && s.pc[p].Inside? ==> s.lock == p)
  }

  lemma ExclusiveStep(c: Config, s: State, p: nat, a: Act)
    requires Exclusive(s) && Can(s, p, a)
    ensures Exclusive(Do(c, s, p, a))
  {
  }

  lemma {:induction false} ExclusiveRun(c: Config, s: State, run: Run, s': State)
    requires Exclusive(s) && Runs(c, s, run, s')
    ensures Exclusive(s')
    decreases |run|
  {
    if run != [] {
      ExclusiveStep(c, s, run[0].0, run[0].1);
      ExclusiveRun(c, Do(c, s, run[0].0, run[0].1), run[1..], s');
    }
  }

  /** Whatever the processes do, two of them are never inside together, and the lock word names the one that is. */
  lemma MutualExclusion(c: Config, s: State, run: Run, s': State, p: nat, q: nat)
    requires Init(s) && Runs(c, s, run, s') && p in s'.pc && q in s'.pc && s'.pc[p].Inside? && s'.pc[q].Inside?
    ensures p == q == s'.lock
  {
    ExclusiveRun(c, s, run, s');
  }

  /** An unlock by a process that is not inside changes nothing. */
  lemma ForeignUnlock(c: Config, s: State, run: Run, s': State, p: nat)
    requires Init(s) && Runs(c, s, run, s') && Can(s', p, CallUnlock) && !s'.pc[p].Inside?
    ensures Do(c, s', p, CallUnlock) == s'
  {
    ExclusiveRun(c, s, run, s');
    assert s'.pc[p := Idle] == s'.pc;
  }

  // No lost wakeup

  /** A process that has raised `wait` and not yet been woken. */
  predicate Enrolled(x: Pc) { x == Test(Last) || x == Cas(Last) || x == Blocked }

  ghost function Waiters(s: State): set<nat> { set p | p in s.pc && Enrolled(s.pc[p]) }

  ghost function Posters(s: State): set<nat> { set p | p in s.pc && s.pc[p] == Post }

  /** Every waiter is covered by the count, by a post on its way, or by the semaphore. */
  ghost predicate Covered(s: State) { s.wait + |Posters(s)| + s.sem >= |Waiters(s)| }

  /** A process in the middle of locking or waking. */
  predicate Active(x: Pc) { !x.Idle? && !x.Blocked? && !x.Inside? && !x.Dead? }

  /** A process on whose next steps somebody's wakeup may rest: just woken, or about to wake. */
  predicate Owing(x: Pc) {
    x == Test(First) || x == Cas(First) || x == WakeRead || (x.WakeCas? && x.seen > 0) || x == Post
  }

  predicate Posting(x: Pc) { x == Post }

  /** With the lock free and nothing to take from the semaphore, a blocked process has somebody to wake it. */
  ghost predicate Attended(s: State) {
    s.lock == 0 && s.sem == 0 && (exists p :: p in s.pc && s.pc[p].Blocked?) ==> exists q :: q in s.pc && Owing(s.pc[q])
  }

  /** Neither a failing sem_post nor a death at one of the points `bad`. */
  predicate Spared(s: State, p: nat, a: Act, bad: Pc -> bool) {
    a != PostError && (a == Die && p in s.pc ==> !bad(s.pc[p]))
  }

  /** A run in which no sem_post fails and nobody dies at one of the points `bad`. */
  ghost predicate Spares(c: Config, s: State, run: Run, bad: Pc -> bool)
    decreases |run|
  {
    run == []
    || (&& Can(s, run[0].0, run[0].1) && Spared(s, run[0].0, run[0].1, bad)
        && Spares(c, Do(c, s, run[0].0, run[0].1), run[1..], bad))
  }

  lemma SetsAt(s: State, p: nat, x: Pc)
    requires p in s.pc
    ensures Waiters(At(s, p, x)) == (if Enrolled(x) then Waiters(s) + {p} else Waiters(s) - {p})
    ensures Posters(At(s, p, x)) == (if x == Post then Posters(s) + {p} else Posters(s) - {p})
  {
  }

  function One(b: bool): int { if b then 1 else 0 }

  lemma SizesAt(s: State, p: nat, x: Pc)
    requires p in s.pc
    ensures |Waiters(At(s, p, x))| == |Waiters(s)| - One(Enrolled(s.pc[p])) + One(Enrolled(x))
    ensures |Posters(At(s, p, x))| == |Posters(s)| - One(s.pc[p] == Post) + One(x == Post)
  {
    SetsAt(s, p, x);
    assert p in Waiters(s) <==> Enrolled(s.pc[p]);
    assert p in Posters(s) <==> s.pc[p] == Post;
    SizeWith(Waiters(s), Waiters(At(s, p, x)), p, Enrolled(x));
    SizeWith(Posters(s), Posters(At(s, p, x)), p, x == Post);
  }

  lemma SizeWith(a: set<nat>, b: set<nat>, p: nat, there: bool)
    requires b == if there then a + {p} else a - {p}
    ensures |b| == |a| - One(p in a) + One(there)
  {
    var rest := a - {p};
    assert a == if p in a then rest + {p} else rest;
    assert b == if there then rest + {p} else rest;
  }

  lemma SizesDo(c: Config, s: State, p: nat, a: Act)
    requires Can(s, p, a)
    ensures var s' := Do(c, s, p, a);
      && s'.pc == s.pc[p := s'.pc[p]]
      && |Waiters(s')| == |Waiters(s)| - One(Enrolled(s.pc[p])) + One(Enrolled(s'.pc[p]))
      && |Posters(s')| == |Posters(s)| - One(s.pc[p] == Post) + One(s'.pc[p] == Post)
  {
    var s' := Do(c, s, p, a);
    assert s'.pc == s.pc[p := s'.pc[p]];
    SizesAt(s, p, s'.pc[p]);
    assert Waiters(s') == Waiters(At(s, p, s'.pc[p])) && Posters(s') == Posters(At(s, p, s'.pc[p]));
  }

  lemma CoveredStep(c: Config, s: State, p: nat, a: Act)
    requires Covered(s) && Can(s, p, a) && Spared(s, p, a, Posting)
    ensures Covered(Do(c, s, p, a))
  {
    SizesDo(c, s, p, a);
  }

  /** Without a semaphore nobody enrols. */
  ghost predicate Plain(c: Config, s: State) {
    !c.semaphore ==> forall p :: p in s.pc ==> s.pc[p] != Enroll && !Enrolled(s.pc[p])
  }

  lemma PlainStep(c: Config, s: State, p: nat, a: Act)
    requires Plain(c, s) && Can(s, p, a)
    ensures Plain(c, Do(c, s, p, a))
  {}

  /** Everything that holds between steps as long as no sem_post fails and nobody dies owing a wakeup. */
  ghost predicate Sound(c: Config, s: State) {
    Exclusive(s) && Plain(c, s) && Covered(s) && Attended(s)
  }

  lemma BlockedCounts(s: State, p: nat)
    requires Covered(s) && p in s.pc && s.pc[p].Blocked? && s.sem == 0
    ensures s.wait > 0 || exists q :: q in s.pc && s.pc[q] == Post
  {
    assert p in Waiters(s);
    if Posters(s) != {} {
      var q :| q in Posters(s);
    }
  }

  lemma AttendedStep(c: Config, s: State, p: nat, a: Act)
    requires Sound(c, s) && Can(s, p, a) && Spared(s, p, a, Owing)
    ensures Attended(Do(c, s, p, a))
  {
    var s' := Do(c, s, p, a);
    if s'.lock == 0 && s'.sem == 0 && exists b :: b in s'.pc && s'.pc[b].Blocked? {
      var b :| b in s'.pc && s'.pc[b].Blocked?;
      assert s'.pc == s.pc[p := s'.pc[p]];
      if !Owing(s'.pc[p]) {
        Remains(c, s, p, a, b);
      }
    }
  }

  /** A step after which its process owes nothing leaves another one owing, or was taken by one that owed nothing. */
  lemma Remains(c: Config, s: State, p: nat, a: Act, b: nat)
    requires Sound(c, s) && Can(s, p, a) && Spared(s, p, a, Owing)
    requires var s' := Do(c, s, p, a);
      s'.lock == 0 && s'.sem == 0 && b in s'.pc && s'.pc[b].Blocked? && !Owing(s'.pc[p])
    ensures exists q :: q in Do(c, s, p, a).pc && Owing(Do(c, s, p, a).pc[q])
  {
    var s' := Do(c, s, p, a);
    assert b != p && s.pc[b].Blocked?;
    if Owing(s.pc[p]) {
      assert s.pc[p] == WakeRead && a == Go && Enrolled(s.pc[b]);
      BlockedCounts(s, b);
      var q :| q in s.pc && s.pc[q] == Post;
      assert Owing(s'.pc[q]);
    } else {
      assert s.lock == 0 && s.sem == 0;
      var q :| q in s.pc && Owing(s.pc[q]);
      assert Owing(s'.pc[q]);
    }
  }

  lemma SoundStep(c: Config, s: State, p: nat, a: Act)
    requires Sound(c, s) && Can(s, p, a) && Spared(s, p, a, Owing)
    ensures Sound(c, Do(c, s, p, a))
  {
    ExclusiveStep(c, s, p, a);
    PlainStep(c, s, p, a);
    CoveredStep(c, s, p, a);
    AttendedStep(c, s, p, a);
  }

  lemma {:induction false} SoundRun(c: Config, s: State, run: Run, s': State)
    requires Sound(c, s) && Runs(c, s, run, s') && Spares(c, s, run, Owing)
    ensures Sound(c, s')
    decreases |run|
  {
    if run != [] {
      SoundStep(c, s, run[0].0, run[0].1);
      SoundRun(c, Do(c, s, run[0].0, run[0].1), run[1..], s');
    }
  }

  lemma {:induction false} CoveredRun(c: Config, s: State, run: Run, s': State)
    requires Covered(s) && Runs(c, s, run, s') && Spares(c, s, run, Posting)
    ensures Covered(s')
    decreases |run|
  {
    if run != [] {
      CoveredStep(c, s, run[0].0, run[0].1);
      CoveredRun(c, Do(c, s, run[0].0, run[0].1), run[1..], s');
    }
  }

  lemma SoundInit(c: Config, s: State)
    requires Init(s)
    ensures Sound(c, s)
  {
    assert Waiters(s) == {};
  }

  /**
   * Unless somebody dies between taking a waiter off the count and its post, the wait count, the posts on their way and
   * the semaphore always cover all waiters.
   */
  lemma WaitersCovered(c: Config, s: State, run: Run, s': State)
    requires Init(s) && Runs(c, s, run, s') && Spares(c, s, run, Posting)
    ensures s'.wait + |Posters(s')| + s'.sem >= |Waiters(s')|
  {
    SoundInit(c, s);
    CoveredRun(c, s, run, s');
  }

  /**
   * Unless somebody dies owing a wakeup, no reachable state has the lock free, a process blocked on a zero semaphore,
   * and nobody about to take the lock or to wake.
   */
  lemma NoLostWakeup(c: Config, s: State, run: Run, s': State, p: nat)
    requires Init(s) && Runs(c, s, run, s') && Spares(c, s, run, Owing)
    requires s'.lock == 0 && s'.sem == 0 && p in s'.pc && s'.pc[p].Blocked?
    ensures exists q :: q in s'.pc && Owing(s'.pc[q])
  {
    SoundInit(c, s);
    SoundRun(c, s, run, s');
  }

  /** All steps are the process's own. */
  ghost predicate Alone(run: Run, q: nat) { forall i :: 0 <= i < |run| ==> run[i] == (q, Go) }

  lemma {:induction false} RunsMore(c: Config, s: State, run: Run, s': State, p: nat, a: Act)
    requires Runs(c, s, run, s') && Can(s', p, a)
    ensures Runs(c, s, run + [(p, a)], Do(c, s', p, a))
    decreases |run|
  {
    var more := run + [(p, a)];
    if run == [] {
      assert more[1..] == [];
    } else {
      assert more[1..] == run[1..] + [(p, a)];
      RunsMore(c, Do(c, s, run[0].0, run[0].1), run[1..], s', p, a);
    }
  }

  /** How far an owing process is from taking a free lock or raising the semaphore. */
  function Toward(x: Pc, wait: nat): nat {
    match x
    case Test(_) => 2
    case WakeRead => 3
    case WakeCas(seen) => if seen == wait then 2 else 4
    case _ => 1
  }

  lemma Delivers(c: Config, s: State, q: nat) returns (run: Run, s': State)
    requires c.semaphore && s.lock == 0 && s.sem == 0 && q in s.pc && q != 0 && Owing(s.pc[q])
      && (s.pc[q] != Post ==> s.wait > 0)
    ensures Alone(run, q) && Runs(c, s, run, s') && (s'.lock == q || s'.sem > 0)
  {
    s', run := s, [];
    while s'.lock != q && s'.sem == 0
      invariant Alone(run, q) && Runs(c, s, run, s') && q in s'.pc
      invariant s'.lock != q && s'.sem == 0 ==> s'.lock == 0 && Owing(s'.pc[q]) && (s'.pc[q] != Post ==> s'.wait > 0)
      decreases if s'.lock != q && s'.sem == 0 then Toward(s'.pc[q], s'.wait) else 0
    {
      RunsMore(c, s, run, s', q, Go);
      run := run + [(q, Go)];
      s' := Do(c, s', q, Go);
    }
  }

  /** And that process needs no help: on its own steps alone it takes the lock or raises the semaphore. */
  lemma WakeupComes(c: Config, s0: State, run0: Run, s: State, p: nat) returns (q: nat, run: Run, s': State)
    requires Init(s0) && Runs(c, s0, run0, s) && Spares(c, s0, run0, Owing)
    requires s.lock == 0 && s.sem == 0 && p in s.pc && s.pc[p].Blocked?
    ensures q in s.pc && Owing(s.pc[q]) && Alone(run, q) && Runs(c, s, run, s') && (s'.lock == q || s'.sem > 0)
  {
    SoundInit(c, s0);
    SoundRun(c, s0, run0, s);
    assert Enrolled(s.pc[p]);
    BlockedCounts(s, p);
    if s.wait > 0 {
      q :| q in s.pc && Owing(s.pc[q]);
    } else {
      q :| q in s.pc && s.pc[q] == Post;
    }
    run, s' := Delivers(c, s, q);
  }

  // Where a death is fatal

  /** The lock is free, somebody is blocked on a zero semaphore, and everybody else is idle, blocked or gone. */
  ghost predicate Stranded(s: State) {
    && s.lock == 0 && s.sem == 0 && (exists p :: p in s.pc && s.pc[p].Blocked?)
    && forall q :: q in s.pc ==> !Active(s.pc[q]) && !s.pc[q].Inside?
  }

  /** A history before which nobody died owing a wakeup, with process p at x, whose death there strands a waiter. */
  ghost predicate FatalIn(c: Config, s: State, run: Run, s': State, p: nat, x: Pc) {
    && Init(s) && Runs(c, s, run, s') && Spares(c, s, run, Owing)
    && Can(s', p, Die) && s'.pc[p] == x && Stranded(Do(c, s', p, Die))
  }

  ghost predicate Fatal(x: Pc) { exists c, s, run, s', p :: FatalIn(c, s, run, s', p, x) }

  /** A death strands a waiter in some run exactly at the points where a wakeup is owed. */
  lemma FatalPoints(x: Pc)
    ensures Fatal(x) <==> Owing(x)
  {
    if Fatal(x) {
      var c, s, run, s', p :| FatalIn(c, s, run, s', p, x);
      FatalOwes(c, s, run, s', p);
    }
    if Owing(x) {
      match x {
        case Test(_) => WokenDies(x);
        case Cas(_) => WokenDies(x);
        case WakeRead => WakerDies(x);
        case WakeCas(seen) => WakerDies(x);
        case Post => WakerDies(x);
      }
    }
  }

  lemma FatalOwes(c: Config, s: State, run: Run, s': State, p: nat)
    requires Init(s) && Runs(c, s, run, s') && Spares(c, s, run, Owing) && Can(s', p, Die)
      && Stranded(Do(c, s', p, Die))
    ensures Owing(s'.pc[p])
  {
    SoundInit(c, s);
    SoundRun(c, s, run, s');
    var t := Do(c, s', p, Die);
    assert !Attended(t) by {
      forall q | q in t.pc ensures !Owing(t.pc[q]) { assert !Active(t.pc[q]); }
    }
    if !Owing(s'.pc[p]) {
      AttendedStep(c, s', p, Die);
    }
  }

  /** A run of ordinary steps. */
  ghost predicate Quiet(run: Run) { forall i :: 0 <= i < |run| ==> run[i].1 != Die && run[i].1 != PostError }

  lemma {:induction false} QuietSpares(c: Config, s: State, run: Run, s': State)
    requires Runs(c, s, run, s') && Quiet(run)
    ensures Spares(c, s, run, Owing)
    decreases |run|
  {
    if run != [] { QuietSpares(c, Do(c, s, run[0].0, run[0].1), run[1..], s'); }
  }

  const POLITE: Config := Config(false, 0, true)

  lemma {:induction false} RunsJoin(c: Config, s: State, run: Run, t: State, more: Run, u: State)
    requires Runs(c, s, run, t) && Runs(c, t, more, u)
    ensures Runs(c, s, run + more, u)
    decreases |run|
  {
    if run == [] {
      assert run + more == more;
    } else {
      assert (run + more)[1..] == run[1..] + more;
      RunsJoin(c, Do(c, s, run[0].0, run[0].1), run[1..], t, more, u);
    }
  }

  /** The process at the front takes a free lock. */
  lemma Acquires(s: State, p: nat) returns (run: Run, s': State)
    requires p in s.pc && p != 0 && s.pc[p] == Idle && s.lock == 0
    ensures Runs(POLITE, s, run, s') && Quiet(run) && s' == At(s, p, Inside).(lock := p)
  {
    var t := Do(POLITE, s, p, CallLock);
    var u := Do(POLITE, t, p, Go);
    s' := Do(POLITE, u, p, Go);
    run := [(p, CallLock), (p, Go), (p, Go)];
    Three(POLITE, s, run, t, u, s');
    assert s'.pc == s.pc[p := Inside];
  }

  /** From the first test, with the lock held, a process enrols and blocks. */
  lemma Enrols(s: State, p: nat) returns (run: Run, s': State)
    requires p in s.pc && p != 0 && s.pc[p] == Test(First) && s.lock != 0
    ensures Runs(POLITE, s, run, s') && Quiet(run) && s' == At(s, p, Blocked).(wait := s.wait + 1)
  {
    var t := Do(POLITE, s, p, Go);
    var u := Do(POLITE, t, p, Go);
    s' := Do(POLITE, u, p, Go);
    run := [(p, Go), (p, Go), (p, Go)];
    Three(POLITE, s, run, t, u, s');
    assert s'.pc == s.pc[p := Blocked];
  }

  lemma Step(s: State, p: nat, a: Act) returns (run: Run)
    requires Can(s, p, a) && a != Die && a != PostError
    ensures Runs(POLITE, s, run, Do(POLITE, s, p, a)) && Quiet(run)
  {
    run := [(p, a)];
    assert run[1..] == [];
  }

  lemma Waits(s: State, p: nat) returns (run: Run, s': State)
    requires p in s.pc && p != 0 && s.pc[p] == Idle && s.lock != 0
    ensures Runs(POLITE, s, run, s') && Quiet(run) && s' == At(s, p, Blocked).(wait := s.wait + 1)
  {
    var one := Step(s, p, CallLock);
    var t := Do(POLITE, s, p, CallLock);
    var more;
    more, s' := Enrols(t, p);
    run := one + more;
    RunsJoin(POLITE, s, one, t, more, s');
    assert s'.pc == s.pc[p := Blocked];
  }

  /** Each failing sem_wait leaves the count one higher. */
  lemma {:induction false} WaitsOften(s: State, p: nat, n: nat) returns (run: Run, s': State)
    requires p in s.pc && p != 0 && s.pc[p] == Idle && s.lock != 0 && n > 0
    ensures Runs(POLITE, s, run, s') && Quiet(run) && s' == At(s, p, Blocked).(wait := s.wait + n)
    decreases n
  {
    if n == 1 {
      run, s' := Waits(s, p);
    } else {
      var t;
      run, t := WaitsOften(s, p, n - 1);
      var one := Step(t, p, SemError);
      var u := Do(POLITE, t, p, SemError);
      var more;
      more, s' := Enrols(u, p);
      RunsJoin(POLITE, s, run, t, one, u);
      RunsJoin(POLITE, s, run + one, u, more, s');
      run := run + one + more;
      assert s'.pc == s.pc[p := Blocked];
    }
  }

  lemma {:induction false} Then(s: State, run: Run, s': State, p: nat, a: Act) returns (more: Run)
    requires Runs(POLITE, s, run, s') && Quiet(run) && Can(s', p, a) && a != Die && a != PostError
    ensures Runs(POLITE, s, more, Do(POLITE, s', p, a)) && Quiet(more)
  {
    more := run + [(p, a)];
    RunsMore(POLITE, s, run, s', p, a);
  }

  /** Process 1 unlocks and is about to look for waiters. */
  lemma Unlocking(n: nat) returns (s: State, run: Run, s': State)
    requires n > 0
    ensures Init(s) && Runs(POLITE, s, run, s') && Quiet(run) && s' == State(0, n, 0, map[1 := WakeRead, 2 := Blocked])
  {
    s := State(0, 0, 0, map[1 := Idle, 2 := Idle]);
    var r1, t := Acquires(s, 1);
    var r2, u := WaitsOften(t, 2, n);
    RunsJoin(POLITE, s, r1, t, r2, u);
    run := Then(s, r1 + r2, u, 1, CallUnlock);
    s' := Do(POLITE, u, 1, CallUnlock);
  }

  /** Process 1 is about to take a waiter off the count of n. */
  lemma Counting(n: nat) returns (s: State, run: Run, s': State)
    requires n > 0
    ensures Init(s) && Runs(POLITE, s, run, s') && Quiet(run)
      && s' == State(0, n, 0, map[1 := WakeCas(n), 2 := Blocked])
  {
    var t;
    s, run, t := Unlocking(n);
    run := Then(s, run, t, 1, Go);
    s' := Do(POLITE, t, 1, Go);
  }

  /** Process 1 has taken the waiter off the count and not yet posted. */
  lemma AtPost() returns (s: State, run: Run, s': State)
    ensures Init(s) && Runs(POLITE, s, run, s') && Quiet(run) && s' == State(0, 0, 0, map[1 := Post, 2 := Blocked])
  {
    var t;
    s, run, t := Counting(1);
    run := Then(s, run, t, 1, Go);
    s' := Do(POLITE, t, 1, Go);
  }

  lemma PairStranded(s: State, run: Run, s': State, n: nat, x: Pc)
    requires Init(s) && Runs(POLITE, s, run, s') && Quiet(run) && s' == State(0, n, 0, map[1 := x, 2 := Blocked])
      && x != Dead
    ensures Fatal(x)
  {
    QuietSpares(POLITE, s, run, s');
    var t := Do(POLITE, s', 1, Die);
    assert t.pc[2] == Blocked && t.pc[1] == Dead && t.pc.Keys == {1, 2};
    assert FatalIn(POLITE, s, run, s', 1, x);
  }

  lemma WakerDies(x: Pc)
    requires x == WakeRead || (x.WakeCas? && x.seen > 0) || x == Post
    ensures Fatal(x)
  {
    if x == WakeRead {
      var s, run, s' := Unlocking(1);
      PairStranded(s, run, s', 1, x);
    } else if x == Post {
      var s, run, s' := AtPost();
      PairStranded(s, run, s', 0, x);
    } else {
      var s, run, s' := Counting(x.seen);
      PairStranded(s, run, s', x.seen, x);
    }
  }

  /** Two processes wait for process 1. */
  lemma OneWaits() returns (s: State, run: Run, s': State)
    ensures Init(s) && Runs(POLITE, s, run, s') && Quiet(run)
    ensures s' == State(1, 1, 0, map[1 := Inside, 2 := Blocked, 3 := Idle])
  {
    s := State(0, 0, 0, map[1 := Idle, 2 := Idle, 3 := Idle]);
    var r1, t := Acquires(s, 1);
    assert t.pc == map[1 := Inside, 2 := Idle, 3 := Idle];
    var r2;
    r2, s' := Waits(t, 2);
    RunsJoin(POLITE, s, r1, t, r2, s');
    run := r1 + r2;
    assert s'.pc == map[1 := Inside, 2 := Blocked, 3 := Idle];
  }

  lemma TwoWait() returns (s: State, run: Run, s': State)
    ensures Init(s) && Runs(POLITE, s, run, s') && Quiet(run)
    ensures s' == State(1, 2, 0, map[1 := Inside, 2 := Blocked, 3 := Blocked])
  {
    var r, u;
    s, r, u := OneWaits();
    var r3;
    r3, s' := Waits(u, 3);
    RunsJoin(POLITE, s, r, u, r3, s');
    run := r + r3;
    assert s'.pc == map[1 := Inside, 2 := Blocked, 3 := Blocked];
  }

  lemma Wakes(s: State) returns (run: Run, s': State)
    requires s == State(1, 2, 0, map[1 := Inside, 2 := Blocked, 3 := Blocked])
    ensures Runs(POLITE, s, run, s') && Quiet(run) && s' == State(0, 1, 1, map[1 := Idle, 2 := Blocked, 3 := Blocked])
  {
    var t := Do(POLITE, s, 1, CallUnlock);
    var u := Do(POLITE, t, 1, Go);
    var v := Do(POLITE, u, 1, Go);
    run := [(1, CallUnlock), (1, Go), (1, Go)];
    Three(POLITE, s, run, t, u, v);
    run := Then(s, run, v, 1, Go);
    s' := Do(POLITE, v, 1, Go);
  }

  /** Of two waiters one is woken; nothing has been taken from the count for the other. */
  lemma Woken() returns (s: State, run: Run, s': State)
    ensures Init(s) && Runs(POLITE, s, run, s') && Quiet(run)
    ensures s' == State(0, 1, 0, map[1 := Idle, 2 := Test(First), 3 := Blocked])
  {
    var r1, t, r2, u;
    s, r1, t := TwoWait();
    r2, u := Wakes(t);
    RunsJoin(POLITE, s, r1, t, r2, u);
    run := Then(s, r1 + r2, u, 2, Go);
    s' := Do(POLITE, u, 2, Go);
  }

  lemma TrioStranded(s: State, run: Run, s': State, x: Pc)
    requires Init(s) && Runs(POLITE, s, run, s') && Quiet(run) && x != Dead
    requires s' == State(0, 1, 0, map[1 := Idle, 2 := x, 3 := Blocked])
    ensures Fatal(x)
  {
    QuietSpares(POLITE, s, run, s');
    var t := Do(POLITE, s', 2, Die);
    assert t.pc[1] == Idle && t.pc[2] == Dead && t.pc[3] == Blocked && t.pc.Keys == {1, 2, 3};
    assert FatalIn(POLITE, s, run, s', 2, x);
  }

  lemma WokenDies(x: Pc)
    requires x == Test(First) || x == Cas(First)
    ensures Fatal(x)
  {
    var s, run, s' := Woken();
    if x == Test(First) {
      TrioStranded(s, run, s', x);
    } else {
      run := Then(s, run, s', 2, Go);
      TrioStranded(s, run, Do(POLITE, s', 2, Go), x);
    }
  }

  /** A death at the post, or a sem_post that fails, also leaves a waiter that nothing covers. */
  lemma LostPost(a: Act) returns (s: State, run: Run, s': State)
    requires a == Die || a == PostError
    ensures Init(s) && Runs(POLITE, s, run, s') && Quiet(run) && Can(s', 1, a) && s'.pc[1] == Post
    ensures Stranded(Do(POLITE, s', 1, a)) && !Covered(Do(POLITE, s', 1, a))
  {
    s, run, s' := AtPost();
    var t := Do(POLITE, s', 1, a);
    assert t.pc[2] == Blocked && t.pc == map[1 := t.pc[1], 2 := Blocked];
    assert Waiters(t) == {2} && Posters(t) == {};
  }

  lemma Three(c: Config, s: State, run: Run, t: State, u: State, v: State)
    requires |run| == 3 && Can(s, run[0].0, run[0].1) && t == Do(c, s, run[0].0, run[0].1)
    requires Can(t, run[1].0, run[1].1) && u == Do(c, t, run[1].0, run[1].1)
    requires Can(u, run[2].0, run[2].1) && v == Do(c, u, run[2].0, run[2].1)
    ensures Runs(c, s, run, v)
  {
    assert run[1..][1..][1..] == [];
    assert run[1..][1..][0] == run[2];
    assert Runs(c, v, [], v);
    assert Runs(c, u, run[1..][1..], v);
    assert Runs(c, t, run[1..], v);
  }
}
