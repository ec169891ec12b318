/** `schedule` (kernel.c:454-464): the cyclically next runnable process runs, so a
    process that stays runnable waits for at most NPROC schedule calls. */
module Scheduler {
  import opened Spaces
  import opened Activation
  import opened Kernel

  predicate Runnable(procs: Procs, p: int) {
    0 <= p < 16 && procs[p].state == P_RUNNABLE
  }

  /** How many slots after `from` the slot `to` comes, going round: 1 to 16. */
  function Gap(from: nat, to: nat): int {
    if to > from then to - from else to + 16 - from
  }

  /** `q` is the first runnable slot after `pid`. */
  ghost predicate CyclicNext(procs: Procs, pid: nat, q: nat) {
    Runnable(procs, q) && forall r :: Runnable(procs, r) ==> Gap(pid, q) <= Gap(pid, r)
  }

  lemma GapNext(pid: nat, to: nat)
    requires pid < 16 && to < 16
    ensures 1 <= Gap(pid, to) <= 16
    ensures (pid + 1) % 16 == to <==> Gap(pid, to) == 1
    ensures (pid + 1) % 16 != to ==> Gap((pid + 1) % 16, to) == Gap(pid, to) - 1
    ensures Gap((pid + 1) % 16, (pid + 1) % 16) == 16
  {
  }

  /** The search looks at exactly the slots within reach, nearest first. */
  lemma {:induction false} SearchMeaning(procs: Procs, pid: nat, n: nat)
    requires n <= 16 && pid < 16
    ensures var q := NextRunnable(procs, pid, n);
            if q < 16 then
              Runnable(procs, q) && Gap(pid, q) <= n && forall r :: Runnable(procs, r) ==> Gap(pid, q) <= Gap(pid, r)
            else
              q == 16 && forall r :: Runnable(procs, r) ==> Gap(pid, r) > n
    decreases n
  {
    hide Gap;
    if n == 0 {
      forall r | Runnable(procs, r) ensures Gap(pid, r) > 0 {
        GapNext(pid, r);
      }
    } else {
      var p := (pid + 1) % 16;
      GapNext(pid, p);
      SearchMeaning(procs, p, n - 1);
      forall r | Runnable(procs, r) ensures Gap(pid, r) >= 1 && Gap(pid, r) == if r == p then 1 else Gap(p, r) + 1 {
        GapNext(pid, r);
      }
      if procs[p].state != P_RUNNABLE {
        var q := NextRunnable(procs, p, n - 1);
        if q < 16 {
          GapNext(pid, q);
        }
      }
    }
  }

  /** With some process runnable the search ends within NPROC iterations, at the
      cyclically next one; otherwise it never ends. */
  lemma ScheduleMeaning(procs: Procs, pid: nat)
    requires pid < 16
    ensures var q := NextRunnable(procs, pid, 16);
            if exists r :: Runnable(procs, r) then q < 16 && CyclicNext(procs, pid, q) else q == 16
  {
    SearchMeaning(procs, pid, 16);
    hide Gap;
    if r :| Runnable(procs, r) {
      GapNext(pid, r);
    }
  }

  lemma GapShrinks(pid: nat, q: nat, t: nat)
    requires pid < 16 && q < 16 && t < 16 && q != t && Gap(pid, q) <= Gap(pid, t)
    ensures Gap(q, t) < Gap(pid, t)
  {
  }

  // ------------------------------------------------------------------ fairness

  /** The step takes the processor from the current process: it yields, its time is
      up, or it can no longer run. */
  predicate GivesUp(s: State, e: Event, s': State) {
    && s.current < 16 && e.Trap?
    && (e.call == Yield || e.call == Timer || s'.procs[s.current].state != P_RUNNABLE)
  }

  /** A step moves `current` only by giving up the processor, and then closer to `t`. */
  lemma StepCloser(s: State, s': State, e: Event, t: nat)
    requires Enabled(s, e) && Step(s, e) == Ok(s') && t < 16
    requires s'.procs[t].state == P_RUNNABLE && s'.current != t
    ensures Gap(s'.current, t) + (if GivesUp(s, e, s') then 1 else 0) <= Gap(s.current, t)
    ensures s'.current < 16
  {
    if e.Trap? {
      hide Trapped, NextRunnable, Gap, SetPagetableOk;
      var s1 := Trapped(s, e.regs, e.call).value;
      if Reschedules(s1, e.call) {
        ScheduleMeaning(s1.procs, s1.current);
        assert Runnable(s1.procs, t);
        GapShrinks(s1.current, s'.current, t);
      }
    }
  }

  ghost predicate StepSequence(ss: seq<State>, es: seq<Event>) {
    && |ss| == |es| + 1
    && forall i :: 0 <= i < |es| ==> Enabled(ss[i], es[i]) && Step(ss[i], es[i]) == Ok(ss[i + 1])
  }

  /** In how many of the first `n` steps the processor was given up. */
  function Turns(ss: seq<State>, es: seq<Event>, n: nat): nat
    requires |ss| == |es| + 1 && n <= |es|
  {
    if n == 0 then 0 else Turns(ss, es, n - 1) + if GivesUp(ss[n - 1], es[n - 1], ss[n]) then 1 else 0
  }

  lemma {:induction false} WaitingShrinks(ss: seq<State>, es: seq<Event>, t: nat, n: nat)
    requires StepSequence(ss, es) && t < 16 && n <= |es| && ss[0].current < 16
    requires forall i :: 0 < i <= n ==> ss[i].procs[t].state == P_RUNNABLE && ss[i].current != t
    ensures ss[n].current < 16
    ensures Turns(ss, es, n) + Gap(ss[n].current, t) <= Gap(ss[0].current, t)
    decreases n
  {
    hide Step, Gap, GivesUp;
    if n > 0 {
      var j := n - 1;
      WaitingShrinks(ss, es, t, j);
      assert Enabled(ss[j], es[j]) && Step(ss[j], es[j]) == Ok(ss[j + 1]);
      hide Enabled;
      StepCloser(ss[j], ss[n], es[j], t);
    }
  }

  /** Bounded waiting: in any sequence of steps, whatever forks, exits and faults it
      contains, a process that stays runnable is dispatched by the time the processor
      has been given up NPROC times. */
  lemma BoundedWaiting(ss: seq<State>, es: seq<Event>, t: nat)
    requires StepSequence(ss, es) && t < 16
    requires forall i :: 0 < i < |ss| ==> ss[i].procs[t].state == P_RUNNABLE
    requires Turns(ss, es, |es|) >= 16
    ensures exists i :: 0 < i < |ss| && ss[i].current == t
  {
    assert Enabled(ss[0], es[0]);
    hide Step, Enabled, GivesUp;
    if forall i :: 0 < i < |ss| ==> ss[i].current != t {
      WaitingShrinks(ss, es, t, |es|);
    }
  }
}
