/** What the calls of ngx_shmtx.c come to: alone, from every reachable state, and trylock among any other processes. */
module ShmtxCalls {

  import opened Shmtx

  /** One call of a process and its own steps after it. */
  ghost predicate Call(run: Run, p: nat, a: Act) { run != [] && run[0] == (p, a) && Alone(run[1..], p) }

  /** The process does not go on by itself. */
  predicate Rests(s: State, p: nat) { !Can(s, p, Go) }

  lemma Begins(c: Config, s: State, p: nat, a: Act) returns (run: Run)
    requires Can(s, p, a)
    ensures run == [(p, a)] && Call(run, p, a) && Runs(c, s, run, Do(c, s, p, a))
  {
    run := [(p, a)];
    assert run[1..] == [];
  }

  lemma GoesOn(c: Config, s: State, run: Run, t: State, p: nat, a: Act) returns (more: Run)
    requires Call(run, p, a) && Runs(c, s, run, t) && Can(t, p, Go)
    ensures |more| == |run| + 1 && Call(more, p, a) && Runs(c, s, more, Do(c, t, p, Go))
  {
    more := run + [(p, Go)];
    RunsMore(c, s, run, t, p, Go);
    assert more[1..] == run[1..] + [(p, Go)];
  }

  /** On its own a process gets to one place only. */
  lemma {:induction false} OneEnd(c: Config, s: State, run: Run, t: State, run': Run, t': State, p: nat)
    requires Alone(run, p) && Runs(c, s, run, t) && Rests(t, p)
    requires Alone(run', p) && Runs(c, s, run', t') && Rests(t', p)
    ensures run == run' && t == t'
    decreases |run|
  {
    if run != [] && run' != [] {
      assert run[0] == (p, Go) && run'[0] == (p, Go);
      OneEnd(c, Do(c, s, p, Go), run[1..], t, run'[1..], t', p);
      assert run == [(p, Go)] + run[1..] && run' == [(p, Go)] + run'[1..];
    }
  }

  /** So what a call comes to when nobody interferes is one thing only. */
  lemma OneOutcome(c: Config, s: State, run: Run, t: State, run': Run, t': State, p: nat, a: Act)
    requires Call(run, p, a) && Runs(c, s, run, t) && Rests(t, p)
    requires Call(run', p, a) && Runs(c, s, run', t') && Rests(t', p)
    ensures run == run' && t == t'
  {
    OneEnd(c, Do(c, s, p, a), run[1..], t, run'[1..], t', p);
    assert run == [(p, a)] + run[1..] && run' == [(p, a)] + run'[1..];
  }

  // ngx_shmtx_trylock

  /** A free lock is taken; a held one is left alone, and so is everything else. */
  lemma TryAlone(c: Config, s: State, p: nat) returns (run: Run, s': State)
    requires Can(s, p, CallTry)
    ensures Call(run, p, CallTry) && Runs(c, s, run, s') && Rests(s', p)
    ensures s' == if s.lock == 0 then State(p, s.wait, s.sem, s.pc[p := Inside]) else s
  {
    run := Begins(c, s, p, CallTry);
    s' := Do(c, s, p, CallTry);
    run := GoesOn(c, s, run, s', p, CallTry);
    s' := Do(c, s', p, Go);
    if s.lock == 0 {
      run := GoesOn(c, s, run, s', p, CallTry);
      s' := Do(c, s', p, Go);
      assert s'.pc == s.pc[p := Inside];
    } else {
      assert s'.pc == s.pc;
    }
  }

  /** The lock is free before each step of a run. */
  ghost predicate AlwaysFree(c: Config, s: State, run: Run)
    decreases |run|
  {
    run == []
    || (&& Can(s, run[0].0, run[0].1) && s.lock == 0
        && AlwaysFree(c, Do(c, s, run[0].0, run[0].1), run[1..]))
  }

  /** All the steps that a process takes in a run are those of its code. */
  ghost predicate Undisturbed(run: Run, p: nat) { forall i :: 0 <= i < |run| && run[i].0 == p ==> run[i].1 == Go }

  lemma {:induction false} StillTrying(c: Config, s: State, run: Run, s': State, p: nat)
    requires Runs(c, s, run, s') && AlwaysFree(c, s, run) && Undisturbed(run, p) && p in s.pc
    requires s.pc[p] == TryTest || s.pc[p] == TryCas
    ensures p in s'.pc && (s'.pc[p] == TryTest || s'.pc[p] == TryCas || s'.pc[p] == Inside)
    decreases |run|
  {
    if run != [] {
      var t := Do(c, s, run[0].0, run[0].1);
      if t.pc[p] == Inside {
        assert t.lock == p;
      } else {
        StillTrying(c, t, run[1..], s', p);
      }
    }
  }

  /** Whatever the others do meanwhile, trylock refuses only if the lock was held at some moment of the call. */
  lemma RefusedHeld(c: Config, s: State, run: Run, s': State, p: nat)
    requires Can(s, p, CallTry) && Runs(c, Do(c, s, p, CallTry), run, s') && Undisturbed(run, p)
    requires p in s'.pc && s'.pc[p] == Idle
    ensures !AlwaysFree(c, Do(c, s, p, CallTry), run)
  {
    if AlwaysFree(c, Do(c, s, p, CallTry), run) {
      StillTrying(c, Do(c, s, p, CallTry), run, s', p);
    }
  }

  // ngx_shmtx_lock

  function Twice(k: nat): (n: nat)
    ensures n > 0
  {
    if k == 0 then 1 else 2 * Twice(k - 1)
  }

  /** How often a held lock is tested while spinning: for 1, 2, 4 and so on below the limit. */
  ghost predicate Spins(c: Config, k: nat) {
    if c.multi then c.spin <= Twice(k) && (k > 0 ==> Twice(k - 1) < c.spin) else k == 0
  }

  lemma SpinTest(c: Config, s: State, run: Run, t: State, p: nat) returns (run': Run, t': State)
    requires Call(run, p, CallLock) && Runs(c, s, run, t) && p in t.pc && p != 0 && t.pc[p].Test? && t.lock != 0
    ensures |run'| == |run| + 1 && Call(run', p, CallLock) && Runs(c, s, run', t')
    ensures t' == State(t.lock, t.wait, t.sem, t.pc[p := AfterFail(c, t.pc[p].at)])
  {
    run' := GoesOn(c, s, run, t, p, CallLock);
    t' := Do(c, t, p, Go);
  }

  /** From the test after n pauses on. */
  lemma {:induction false} SpinsOut(c: Config, s: State, run: Run, t: State, p: nat, j: nat)
      returns (run': Run, t': State, k: nat)
    requires c.multi && c.semaphore && Twice(j) < c.spin
    requires Call(run, p, CallLock) && Runs(c, s, run, t) && p in t.pc && p != 0 && t.lock != 0
    requires t.pc[p] == Test(Spin(Twice(j)))
    ensures Spins(c, k) && k > j && |run'| == |run| + k - j && Call(run', p, CallLock) && Runs(c, s, run', t')
    ensures t' == State(t.lock, t.wait, t.sem, t.pc[p := Enroll])
    decreases c.spin - Twice(j)
  {
    run', t' := SpinTest(c, s, run, t, p);
    if Twice(j + 1) < c.spin {
      var run1, t1 := run', t';
      assert t1.pc[p] == Test(Spin(Twice(j + 1)));
      run', t', k := SpinsOut(c, s, run1, t1, p, j + 1);
      assert t'.pc == t.pc[p := Enroll];
    } else {
      k := j + 1;
    }
  }

  /** With the lock held, a process counts itself among the waiters and blocks. */
  lemma Blocks(c: Config, s: State, run: Run, t: State, p: nat) returns (run': Run, t': State)
    requires c.semaphore && Call(run, p, CallLock) && Runs(c, s, run, t) && p in t.pc && p != 0 && t.lock != 0
    requires t.pc[p] == Enroll
    ensures |run'| == |run| + 2 && Call(run', p, CallLock) && Runs(c, s, run', t')
    ensures t' == State(t.lock, t.wait + 1, t.sem, t.pc[p := Blocked])
  {
    var run1 := GoesOn(c, s, run, t, p, CallLock);
    var t1 := Do(c, t, p, Go);
    run', t' := SpinTest(c, s, run1, t1, p);
    assert t'.pc == t.pc[p := Blocked];
  }

  lemma FirstTest(c: Config, s: State, p: nat) returns (run: Run, t: State, k: nat)
    requires Can(s, p, CallLock) && s.lock != 0 && c.semaphore
    ensures Spins(c, k) && |run| == 2 + k && Call(run, p, CallLock) && Runs(c, s, run, t)
    ensures t == State(s.lock, s.wait, s.sem, s.pc[p := Enroll])
  {
    var run0 := Begins(c, s, p, CallLock);
    var t0 := Do(c, s, p, CallLock);
    run, t := SpinTest(c, s, run0, t0, p);
    if c.multi && 1 < c.spin {
      var run1, t1 := run, t;
      assert Twice(0) == 1;
      run, t, k := SpinsOut(c, s, run1, t1, p, 0);
    } else {
      k := 0;
    }
    assert t.pc == s.pc[p := Enroll];
  }

  /** A held lock: tested once, then k times while spinning, and once more with the process among the waiters. */
  lemma LockHeld(c: Config, s: State, p: nat) returns (run: Run, s': State, k: nat)
    requires Can(s, p, CallLock) && s.lock != 0 && c.semaphore
    ensures Spins(c, k) && |run| == 4 + k && Call(run, p, CallLock) && Runs(c, s, run, s')
    ensures s' == State(s.lock, s.wait + 1, s.sem, s.pc[p := Blocked])
  {
    var run1, t;
    run1, t, k := FirstTest(c, s, p);
    run, s' := Blocks(c, s, run1, t, p);
    assert s'.pc == s.pc[p := Blocked];
  }

  lemma TakesFree(c: Config, s: State, run: Run, t: State, p: nat, a: Act) returns (run': Run, t': State)
    requires Call(run, p, a) && Runs(c, s, run, t) && p in t.pc && p != 0 && t.pc[p] == Test(First) && t.lock == 0
    ensures Call(run', p, a) && Runs(c, s, run', t') && Rests(t', p)
    ensures t' == State(p, t.wait, t.sem, t.pc[p := Inside])
  {
    run' := GoesOn(c, s, run, t, p, a);
    t' := Do(c, t, p, Go);
    run' := GoesOn(c, s, run', t', p, a);
    t' := Do(c, t', p, Go);
    assert t'.pc == t.pc[p := Inside];
  }

  /** A free lock is taken. */
  lemma LockFree(c: Config, s: State, p: nat) returns (run: Run, s': State)
    requires Can(s, p, CallLock) && s.lock == 0
    ensures Call(run, p, CallLock) && Runs(c, s, run, s') && Rests(s', p)
    ensures s' == State(p, s.wait, s.sem, s.pc[p := Inside])
  {
    var run1 := Begins(c, s, p, CallLock);
    var t := Do(c, s, p, CallLock);
    run, s' := TakesFree(c, s, run1, t, p, CallLock);
    assert s'.pc == s.pc[p := Inside];
  }

  /** A process let through by the semaphore lowers it by one, and takes the lock if it is free. */
  lemma AwokenFree(c: Config, s: State, p: nat) returns (run: Run, s': State)
    requires Can(s, p, Go) && s.pc[p].Blocked? && s.lock == 0
    ensures Call(run, p, Go) && Runs(c, s, run, s') && Rests(s', p)
    ensures s.sem > 0 && s' == State(p, s.wait, s.sem - 1, s.pc[p := Inside])
  {
    var run1 := Begins(c, s, p, Go);
    var t := Do(c, s, p, Go);
    run, s' := TakesFree(c, s, run1, t, p, Go);
    assert s'.pc == s.pc[p := Inside];
  }

  // ngx_shmtx_unlock and ngx_shmtx_force_unlock

  /** The lock is free; if there is a semaphore and a waiter is counted, one fewer is, and the semaphore is raised. */
  ghost predicate Freed(c: Config, s: State, p: nat, s': State) {
    if c.semaphore && s.wait > 0 then s' == State(0, s.wait - 1, s.sem + 1, s.pc[p := Idle])
    else s' == State(0, s.wait, s.sem, s.pc[p := Idle])
  }

  lemma WakesUp(c: Config, s: State, run: Run, t: State, p: nat, a: Act) returns (run': Run, t': State)
    requires Call(run, p, a) && Runs(c, s, run, t) && p in t.pc && p != 0 && t.pc[p] == WakeRead && t.lock == 0
    ensures Call(run', p, a) && Runs(c, s, run', t') && Freed(c, t, p, t')
  {
    run' := GoesOn(c, s, run, t, p, a);
    t' := Do(c, t, p, Go);
    if c.semaphore && t.wait > 0 {
      run' := GoesOn(c, s, run', t', p, a);
      t' := Do(c, t', p, Go);
      assert t'.pc == t.pc[p := Post];
      run' := GoesOn(c, s, run', t', p, a);
      t' := Do(c, t', p, Go);
      assert t'.pc == t.pc[p := Idle];
    }
  }

  /** The holder's unlock frees the lock and wakes one waiter, if any is counted. */
  lemma UnlockAlone(c: Config, s0: State, run0: Run, s: State, p: nat) returns (run: Run, s': State)
    requires Init(s0) && Runs(c, s0, run0, s) && Can(s, p, CallUnlock) && s.pc[p].Inside?
    ensures s.lock == p && Call(run, p, CallUnlock) && Runs(c, s, run, s') && Rests(s', p) && Freed(c, s, p, s')
  {
    ExclusiveRun(c, s0, run0, s);
    var run1 := Begins(c, s, p, CallUnlock);
    var t := Do(c, s, p, CallUnlock);
    run, s' := WakesUp(c, s, run1, t, p, CallUnlock);
    assert t.pc[p := Idle] == s.pc[p := Idle];
  }

  /** A forced unlock for the holder does the same; one for another process changes nothing. */
  lemma ForceAlone(c: Config, s: State, p: nat, q: nat) returns (run: Run, s': State)
    requires Can(s, p, CallForce(q))
    ensures Call(run, p, CallForce(q)) && Runs(c, s, run, s') && Rests(s', p)
    ensures if s.lock == q then Freed(c, s, p, s') else s' == s
  {
    run := Begins(c, s, p, CallForce(q));
    s' := Do(c, s, p, CallForce(q));
    if s.lock == q {
      var run1, t := run, s';
      run, s' := WakesUp(c, s, run1, t, p, CallForce(q));
      assert t.pc[p := Idle] == s.pc[p := Idle];
    } else {
      assert s'.pc == s.pc;
    }
  }
}
