/** Per-key async serialization: a refcounted map of one-permit semaphores. Tasks bump, wait,
    are granted, time out, are cancelled and drop their guards in any order; a dropped guard
    first gives up its count and only then its permit. */
module KeyedMutex {

  datatype Slot = Slot(sem: nat, refcount: nat)

  datatype Task =
    | Waiting(key: string, sem: nat)
    | TimedOut(key: string, sem: nat)    // gave up waiting, count not yet given back
    | Holding(key: string, sem: nat)     // owns an undropped guard
    | Dropping(key: string, sem: nat)    // count given back, permit not yet
    | Cancelled(key: string, sem: nat)   // its acquire was abandoned mid-wait

  /** `free` holds the semaphores whose permit is available, of the `made` created so far. */
  datatype State = State(slots: map<string, Slot>, free: set<nat>, made: nat, tasks: map<nat, Task>)

  datatype Step =
    | Enter(t: nat, key: string)
    | Grant(t: nat)
    | GiveUp(t: nat)
    | Leave(t: nat)
    | Drop(t: nat)
    | Release(t: nat)
    | Cancel(t: nat)

  const Init := State(map[], {}, 0, map[])

  predicate Enabled(s: State, step: Step)
  {
    match step
    case Enter(t, _) => t !in s.tasks
    case Grant(t) => t in s.tasks && s.tasks[t].Waiting? && s.tasks[t].sem in s.free
    case GiveUp(t) => t in s.tasks && s.tasks[t].Waiting?
    case Leave(t) => t in s.tasks && s.tasks[t].TimedOut?
    case Drop(t) => t in s.tasks && s.tasks[t].Holding?
    case Release(t) => t in s.tasks && s.tasks[t].Dropping?
    case Cancel(t) => t in s.tasks && s.tasks[t].Waiting?
  }

  function Decremented(slots: map<string, Slot>, key: string): map<string, Slot>
  {
    if key !in slots then slots
    else if slots[key].refcount <= 1 then slots - {key}
    else slots[key := slots[key].(refcount := slots[key].refcount - 1)]
  }

  function Apply(s: State, step: Step): State
    requires Enabled(s, step)
  {
    match step
    case Enter(t, key) =>
      if key in s.slots then
        var slot := s.slots[key];
        s.(slots := s.slots[key := slot.(refcount := slot.refcount + 1)],
           tasks := s.tasks[t := Waiting(key, slot.sem)])
      else
        s.(slots := s.slots[key := Slot(s.made, 1)], free := s.free + {s.made}, made := s.made + 1,
           tasks := s.tasks[t := Waiting(key, s.made)])
    case Grant(t) =>
      var w := s.tasks[t];
      s.(free := s.free - {w.sem}, tasks := s.tasks[t := Holding(w.key, w.sem)])
    case GiveUp(t) => s.(tasks := s.tasks[t := TimedOut(s.tasks[t].key, s.tasks[t].sem)])
    case Leave(t) => s.(slots := Decremented(s.slots, s.tasks[t].key), tasks := s.tasks - {t})
    case Drop(t) =>
      var h := s.tasks[t];
      s.(slots := Decremented(s.slots, h.key), tasks := s.tasks[t := Dropping(h.key, h.sem)])
    case Release(t) => s.(free := s.free + {s.tasks[t].sem}, tasks := s.tasks - {t})
    case Cancel(t) => s.(tasks := s.tasks[t := Cancelled(s.tasks[t].key, s.tasks[t].sem)])
  }

  ghost predicate Possible(s: State, steps: seq<Step>)
    decreases |steps|
  {
    steps == [] || (Enabled(s, steps[0]) && Possible(Apply(s, steps[0]), steps[1..]))
  }

  ghost function Exec(s: State, steps: seq<Step>): State
    requires Possible(s, steps)
    decreases |steps|
  {
    if steps == [] then s else Exec(Apply(s, steps[0]), steps[1..])
  }

  // ---- the invariant ----

  /** Tasks whose count is in the slot of `key`. */
  function Counted(s: State, key: string): set<nat>
  {
    set t | t in s.tasks && s.tasks[t].key == key && !s.tasks[t].Dropping?
  }

  function With(s: State, key: string, kind: Task -> bool): set<nat>
  {
    set t | t in s.tasks && s.tasks[t].key == key && kind(s.tasks[t])
  }

  predicate HasPermit(task: Task) {
    task.Holding? || task.Dropping?
  }

  ghost predicate SlotInv(s: State, key: string)
  {
    if key in s.slots
    then s.slots[key].refcount == |Counted(s, key)| > 0 && s.slots[key].sem < s.made
    else Counted(s, key) == {}
  }

  ghost predicate SlotsInv(s: State)
  {
    && (forall key :: SlotInv(s, key))
    && (forall k, l :: k in s.slots && l in s.slots && k != l ==> s.slots[k].sem != s.slots[l].sem)
  }

  /** Everyone counted on a key waits on or holds its slot's semaphore. */
  ghost predicate SharedInv(s: State)
  {
    forall t :: t in s.tasks && !s.tasks[t].Dropping? ==>
      s.tasks[t].key in s.slots && s.slots[s.tasks[t].key].sem == s.tasks[t].sem
  }

  ghost predicate SamePermit(s: State, t: nat, u: nat)
    requires t in s.tasks && u in s.tasks
  {
    HasPermit(s.tasks[t]) && HasPermit(s.tasks[u]) && s.tasks[t].sem == s.tasks[u].sem
  }

  /** A semaphore's permit is in one place. */
  ghost predicate PermitInv(s: State)
  {
    && (forall t :: t in s.tasks ==> s.tasks[t].sem < s.made)
    && (forall t :: t in s.tasks && HasPermit(s.tasks[t]) ==> s.tasks[t].sem !in s.free)
    && (forall t, u :: t in s.tasks && u in s.tasks && SamePermit(s, t, u) ==> t == u)
  }

  /** Some task has this semaphore's permit: it holds a guard or is still dropping it. */
  ghost predicate Occupied(s: State, sem: nat)
  {
    exists t :: t in s.tasks && (s.tasks[t].Holding? || s.tasks[t].Dropping?) && s.tasks[t].sem == sem
  }

  /** A permit nobody has is there to be taken. */
  ghost predicate FreeInv(s: State)
  {
    && (forall sem :: sem in s.free ==> sem < s.made)
    && (forall sem: nat :: sem < s.made && !Occupied(s, sem) ==> sem in s.free)
  }

  /** A slot's semaphore is used for its key only. */
  ghost predicate OwnerInv(s: State)
  {
    forall t, k :: t in s.tasks && k in s.slots && s.tasks[t].sem == s.slots[k].sem ==> s.tasks[t].key == k
  }

  ghost predicate Inv(s: State)
  {
    SlotsInv(s) && SharedInv(s) && PermitInv(s) && FreeInv(s) && OwnerInv(s)
  }

  lemma CountedAfter(s: State, step: Step, key: string)
    requires Enabled(s, step)
    ensures var gone := (step.Leave? || step.Drop?) && s.tasks[step.t].key == key;
            var came := step.Enter? && step.key == key;
            Counted(Apply(s, step), key) ==
              if gone then Counted(s, key) - {step.t} else if came then Counted(s, key) + {step.t} else Counted(s, key)
  {
  }

  predicate Goes(s: State, step: Step, key: string)
    requires Enabled(s, step)
  {
    (step.Leave? || step.Drop?) && s.tasks[step.t].key == key
  }

  predicate Comes(step: Step, key: string) {
    step.Enter? && step.key == key
  }

  lemma SlotGoes(s: State, step: Step, key: string)
    requires SlotInv(s, key) && Enabled(s, step) && Goes(s, step, key)
    ensures SlotInv(Apply(s, step), key)
  {
    var c, c' := Counted(s, key), Counted(Apply(s, step), key);
    CountedAfter(s, step, key);
    assert step.t in c && |c'| == |c| - 1;
    assert |c'| == 0 ==> c' == {};
  }

  lemma SlotComes(s: State, step: Step, key: string)
    requires SlotInv(s, key) && Enabled(s, step) && Comes(step, key)
    ensures SlotInv(Apply(s, step), key)
  {
    CountedAfter(s, step, key);
    assert step.t !in Counted(s, key);
  }

  lemma SlotStep(s: State, step: Step, key: string)
    requires SlotInv(s, key) && Enabled(s, step)
    ensures SlotInv(Apply(s, step), key)
  {
    if Goes(s, step, key) {
      SlotGoes(s, step, key);
    } else if Comes(step, key) {
      SlotComes(s, step, key);
    } else {
      CountedAfter(s, step, key);
    }
  }

  lemma SharedStep(s: State, step: Step)
    requires SlotsInv(s) && SharedInv(s) && Enabled(s, step)
    ensures SharedInv(Apply(s, step))
  {
    var s' := Apply(s, step);
    forall t | t in s'.tasks && !s'.tasks[t].Dropping?
      ensures s'.tasks[t].key in s'.slots && s'.slots[s'.tasks[t].key].sem == s'.tasks[t].sem
    {
      var key := s'.tasks[t].key;
      assert t in Counted(s', key);
      assert SlotInv(s, key);
      SlotStep(s, step, key);
    }
  }

  lemma PermitStep(s: State, step: Step)
    requires SlotsInv(s) && PermitInv(s) && Enabled(s, step)
    ensures PermitInv(Apply(s, step))
  {
    var s' := Apply(s, step);
    if step.Enter? { assert SlotInv(s, step.key); }
    forall t, u | t in s'.tasks && u in s'.tasks && SamePermit(s', t, u) ensures t == u {
      if step.Grant? {
        assert t != step.t ==> HasPermit(s.tasks[t]);
        assert u != step.t ==> HasPermit(s.tasks[u]);
      }
      if t in s.tasks && u in s.tasks && !step.Grant? { assert SamePermit(s, t, u); }
      if step.Grant? && t != step.t && u != step.t { assert SamePermit(s, t, u); }
    }
    forall t | t in s'.tasks && HasPermit(s'.tasks[t]) ensures s'.tasks[t].sem !in s'.free {
      if step.Release? { assert HasPermit(s.tasks[step.t]) && !SamePermit(s, t, step.t); }
      if step.Grant? { assert t == step.t || HasPermit(s.tasks[t]); }
    }
  }

  /** Who has a permit after a step. */
  lemma OccupiedAfter(s: State, step: Step, sem: nat)
    requires Enabled(s, step)
    requires Occupied(s, sem) && !(step.Release? && s.tasks[step.t].sem == sem)
    ensures Occupied(Apply(s, step), sem)
  {
    var t :| t in s.tasks && (s.tasks[t].Holding? || s.tasks[t].Dropping?) && s.tasks[t].sem == sem;
    var s' := Apply(s, step);
    assert t in s'.tasks && (s'.tasks[t].Holding? || s'.tasks[t].Dropping?) && s'.tasks[t].sem == sem;
  }

  lemma FreeStep(s: State, step: Step)
    requires PermitInv(s) && FreeInv(s) && Enabled(s, step)
    ensures FreeInv(Apply(s, step))
  {
    var s' := Apply(s, step);
    if step.Grant? { assert s'.tasks[step.t].Holding? && Occupied(s', s'.tasks[step.t].sem); }
    forall sem: nat | sem < s'.made && !Occupied(s', sem) ensures sem in s'.free {
      if sem < s.made && Occupied(s, sem) && !(step.Release? && s.tasks[step.t].sem == sem) {
        OccupiedAfter(s, step, sem);
      }
    }
  }

  lemma OwnerStep(s: State, step: Step)
    requires SlotsInv(s) && PermitInv(s) && OwnerInv(s) && Enabled(s, step)
    ensures OwnerInv(Apply(s, step))
  {
    var s' := Apply(s, step);
    forall k | k in s'.slots
      ensures (k in s.slots && s'.slots[k].sem == s.slots[k].sem)
           || (step.Enter? && k == step.key && s'.slots[k].sem == s.made)
    {
      if k in s.slots { assert SlotInv(s, k); }
    }
    forall t | t in s'.tasks
      ensures (t in s.tasks && s'.tasks[t].sem == s.tasks[t].sem && s'.tasks[t].key == s.tasks[t].key)
           || (step.Enter? && t == step.t && s'.tasks[t].key == step.key && step.key in s'.slots
               && s'.tasks[t].sem == s'.slots[step.key].sem)
    {
    }
    DistinctStep(s, step);
  }

  lemma InvStep(s: State, step: Step)
    requires Inv(s) && Enabled(s, step)
    ensures Inv(Apply(s, step))
  {
    FreeStep(s, step);
    OwnerStep(s, step);
    forall key ensures SlotInv(Apply(s, step), key) { SlotStep(s, step, key); }
    DistinctStep(s, step);
    SharedStep(s, step);
    PermitStep(s, step);
  }

  lemma DistinctStep(s: State, step: Step)
    requires SlotsInv(s) && Enabled(s, step)
    ensures var s' := Apply(s, step);
            forall k, l :: k in s'.slots && l in s'.slots && k != l ==> s'.slots[k].sem != s'.slots[l].sem
  {
    var s' := Apply(s, step);
    assert forall k :: k in s.slots ==> SlotInv(s, k);
    assert forall k :: k in s'.slots ==>
      || (k in s.slots && s'.slots[k].sem == s.slots[k].sem)
      || (step.Enter? && k == step.key && s'.slots[k].sem == s.made);
  }

  lemma {:induction false} InvExec(s: State, steps: seq<Step>)
    requires Inv(s) && Possible(s, steps)
    ensures Inv(Exec(s, steps))
    decreases |steps|
  {
    if steps != [] {
      InvStep(s, steps[0]);
      InvExec(Apply(s, steps[0]), steps[1..]);
    }
  }

  lemma InitInv()
    ensures Inv(Init)
  {
    forall key ensures SlotInv(Init, key) { assert Counted(Init, key) == {}; }
  }

  // ---- the theorems ----

  /** At most one undropped guard per key. */
  ghost predicate Exclusive(s: State)
  {
    forall t, u :: t in s.tasks && u in s.tasks && HoldSameKey(s.tasks[t], s.tasks[u]) ==> t == u
  }

  predicate HoldSameKey(a: Task, b: Task) {
    a.Holding? && b.Holding? && a.key == b.key
  }

  lemma InvExclusive(s: State)
    requires Inv(s)
    ensures Exclusive(s)
  {
    forall t, u | t in s.tasks && u in s.tasks && HoldSameKey(s.tasks[t], s.tasks[u]) ensures t == u {
      assert SamePermit(s, t, u);
    }
  }

  /** Over every run, also across slot removal and re-creation and with acquires cancelled:
      one guard per key, and everyone counted on a key shares its slot's semaphore. */
  lemma Excludes(steps: seq<Step>)
    requires Possible(Init, steps)
    ensures var s := Exec(Init, steps);
            && Exclusive(s)
            && (forall t :: t in s.tasks && !s.tasks[t].Dropping? ==>
                  s.tasks[t].key in s.slots && s.tasks[t].sem == s.slots[s.tasks[t].key].sem)
  {
    InitInv();
    InvExec(Init, steps);
    InvExclusive(Exec(Init, steps));
  }

  predicate Live(task: Task) { task.Waiting? || task.TimedOut? || task.Holding? }

  predicate Abandoned(task: Task) { task.Cancelled? }

  /** A slot's count is its undropped guards and waiters plus its cancelled acquires; it exists
      exactly while that sum is positive. */
  lemma CountsExactly(steps: seq<Step>, key: string)
    requires Possible(Init, steps)
    ensures var s := Exec(Init, steps);
            var n := |With(s, key, Live)| + |With(s, key, Abandoned)|;
            (key in s.slots <==> n > 0) && (key in s.slots ==> s.slots[key].refcount == n)
  {
    InitInv();
    InvExec(Init, steps);
    var s := Exec(Init, steps);
    assert SlotInv(s, key);
    assert Counted(s, key) == With(s, key, Live) + With(s, key, Abandoned);
    assert With(s, key, Live) !! With(s, key, Abandoned);
  }

  /** Cleanup is exact for a key when and only when no acquire of it was cancelled. */
  lemma CleansUpIffNoneCancelled(steps: seq<Step>, key: string)
    requires Possible(Init, steps)
    ensures var s := Exec(Init, steps);
            (if key in s.slots then s.slots[key].refcount else 0) == |With(s, key, Live)|
            <==> With(s, key, Abandoned) == {}
  {
    CountsExactly(steps, key);
  }

  /** No count ever underflows: whoever gives a count back is counted in a slot. */
  lemma NeverUnderflows(steps: seq<Step>, step: Step)
    requires Possible(Init, steps) && Enabled(Exec(Init, steps), step) && (step.Leave? || step.Drop?)
    ensures var s := Exec(Init, steps);
            s.tasks[step.t].key in s.slots && s.slots[s.tasks[step.t].key].refcount >= 1
  {
    InitInv();
    InvExec(Init, steps);
    var s := Exec(Init, steps);
    assert SlotInv(s, s.tasks[step.t].key);
  }

  lemma FreeIffUnoccupied(s: State, sem: nat)
    requires Inv(s) && sem < s.made
    ensures sem in s.free <==> !Occupied(s, sem)
  {
  }

  lemma WaitersSem(s: State, t: nat)
    requires Inv(s) && t in s.tasks
    ensures s.tasks[t].sem in s.free <==> !Occupied(s, s.tasks[t].sem)
  {
    FreeIffUnoccupied(s, s.tasks[t].sem);
  }

  lemma LeaverIsCounted(s: State, t: nat)
    requires Inv(s) && t in s.tasks && !s.tasks[t].Dropping?
    ensures s.tasks[t].key in s.slots && s.slots[s.tasks[t].key].refcount >= 1
  {
    assert SlotInv(s, s.tasks[t].key) && t in Counted(s, s.tasks[t].key);
  }

  /** Timing out as one step. */
  lemma TimesOut(s: State, t: nat)
    requires Inv(s) && t in s.tasks && s.tasks[t].Waiting?
    ensures var key, s1 := s.tasks[t].key, Apply(s, GiveUp(t));
            && Enabled(s1, Leave(t)) && Inv(Apply(s1, Leave(t)))
            && key in s.slots && s.slots[key].refcount >= 1
            && Apply(s1, Leave(t)) == State(Decremented(s.slots, key), s.free, s.made, s.tasks - {t})
  {
    LeaverIsCounted(s, t);
    var s1 := Apply(s, GiveUp(t));
    InvStep(s, GiveUp(t));
    InvStep(s1, Leave(t));
    assert s1.tasks - {t} == s.tasks - {t};
  }

  /** Over every run a permit is available if and only if no task holds a guard of it or is still
      dropping one. */
  lemma PermitComesBack(steps: seq<Step>, sem: nat)
    requires Possible(Init, steps) && sem < Exec(Init, steps).made
    ensures var s := Exec(Init, steps);
            sem in s.free <==>
              forall t :: t in s.tasks && (s.tasks[t].Holding? || s.tasks[t].Dropping?) ==> s.tasks[t].sem != sem
  {
    InitInv();
    InvExec(Init, steps);
    FreeIffUnoccupied(Exec(Init, steps), sem);
  }

  /** So nobody waits in vain: over every run, a task that waits for a permit nobody has can be
      granted it, and then holds the guard. */
  lemma WaiterCanBeGranted(steps: seq<Step>, t: nat)
    requires Possible(Init, steps)
    requires var s := Exec(Init, steps);
             && t in s.tasks && s.tasks[t].Waiting?
             && forall u :: u in s.tasks && (s.tasks[u].Holding? || s.tasks[u].Dropping?) ==>
                  s.tasks[u].sem != s.tasks[t].sem
    ensures var s := Exec(Init, steps);
            && Possible(s, [Grant(t)])
            && Exec(s, [Grant(t)]).tasks == s.tasks[t := Holding(s.tasks[t].key, s.tasks[t].sem)]
  {
    InitInv();
    InvExec(Init, steps);
    var s := Exec(Init, steps);
    FreeIffUnoccupied(s, s.tasks[t].sem);
    assert [Grant(t)][1..] == [];
    assert Possible(Apply(s, Grant(t)), []) && Exec(Apply(s, Grant(t)), []) == Apply(s, Grant(t));
  }

  /** Nobody holds this key's lock or is still letting go of it. */
  ghost predicate Unlocked(s: State, key: string)
  {
    forall t :: t in s.tasks && (s.tasks[t].Holding? || s.tasks[t].Dropping?) ==> s.tasks[t].key != key
  }

  lemma UnlockedIsFree(s: State, key: string)
    requires Inv(s) && Unlocked(s, key) && key in s.slots
    ensures !Occupied(s, s.slots[key].sem)
  {
  }

  lemma EnterUnlocked(s: State, t: nat, key: string)
    requires Inv(s) && Unlocked(s, key) && t !in s.tasks
    ensures var s' := Apply(s, Step.Enter(t, key)); Unlocked(s', key) && !Occupied(s', s'.tasks[t].sem)
  {
    if key in s.slots { UnlockedIsFree(s, key); }
  }

  // ---- the map itself ----

  /** The mutable slot map. Each method is one critical section under the map's own lock, or
      one semaphore operation; `st` records who is doing what. */
  class Locks {
    var slots: map<string, Slot>
    var free: set<nat>
    var made: nat
    ghost var st: State

    ghost predicate Valid()
      reads this
    {
      st.slots == slots && st.free == free && st.made == made && Inv(st)
    }

    constructor ()
      ensures Valid() && st == Init
    {
      slots, free, made, st := map[], {}, 0, Init;
      new;
      InitInv();
    }

    /** First half of `acquire`: find or create the slot and count this task in it. */
    method Enter(ghost t: nat, key: string) returns (sem: nat)
      requires Valid() && t !in st.tasks
      modifies this
      ensures Valid() && st == Apply(old(st), Step.Enter(t, key)) && sem == st.tasks[t].sem
      ensures st.tasks == old(st).tasks[t := Waiting(key, sem)]
      ensures if key in old(slots) then sem == old(slots)[key].sem && free == old(free)
              else sem == old(made) && free == old(free) + {sem}
    {
      InvStep(st, Step.Enter(t, key));
      st := Apply(st, Step.Enter(t, key));
      if key !in slots {
        slots := slots[key := Slot(made, 0)];
        free := free + {made};
        made := made + 1;
      }
      slots := slots[key := slots[key].(refcount := slots[key].refcount + 1)];
      sem := slots[key].sem;
    }

    /** Second half of `acquire`: take the permit if it is there, which it is unless another task
        has it; otherwise time out and give the count back. */
    method GrantOrTimeOut(ghost t: nat, key: string, sem: nat) returns (granted: bool)
      requires Valid() && t in st.tasks && st.tasks[t] == Waiting(key, sem)
      modifies this
      ensures Valid() && granted == (sem in old(free)) == !Occupied(old(st), sem)
      ensures st.tasks == if granted then old(st).tasks[t := Holding(key, sem)] else old(st).tasks - {t}
      ensures granted ==> st == Apply(old(st), Grant(t))
      ensures !granted ==> st == Apply(Apply(old(st), GiveUp(t)), Leave(t))
    {
      WaitersSem(st, t);
      granted := sem in free;
      if granted {
        InvStep(st, Grant(t));
        st := Apply(st, Grant(t));
        free := free - {sem};
      } else {
        TimeOut(t, key, sem);
      }
    }

    method TimeOut(ghost t: nat, key: string, ghost sem: nat)
      requires Valid() && t in st.tasks && st.tasks[t] == Waiting(key, sem)
      modifies this
      ensures Valid() && st == Apply(Apply(old(st), GiveUp(t)), Leave(t))
      ensures st.tasks == old(st).tasks - {t}
    {
      TimesOut(st, t);
      st := Apply(Apply(st, GiveUp(t)), Leave(t));
      Decrement(key);
    }

    /** Gives a count back, removing the slot with the last one. The caller has recorded the
        step in `st` already. */
    method Decrement(key: string)
      requires key in slots && slots[key].refcount >= 1
      modifies this`slots
      ensures slots == Decremented(old(slots), key)
    {
      if key in slots {
        var n := slots[key].refcount - 1;
        slots := if n == 0 then slots - {key} else slots[key := slots[key].(refcount := n)];
      }
    }

    /** Dropping a guard: the count first, the permit second; then the permit is there for the
        next. */
    method DropGuard(ghost t: nat, key: string, sem: nat)
      requires Valid() && t in st.tasks && st.tasks[t] == Holding(key, sem)
      modifies this
      ensures Valid() && st == Apply(Apply(old(st), Drop(t)), Release(t))
      ensures st.tasks == old(st).tasks - {t} && sem in free && !Occupied(st, sem)
    {
      assert SlotInv(st, key);
      InvStep(st, Drop(t));
      st := Apply(st, Drop(t));
      Decrement(key);
      InvStep(st, Release(t));
      st := Apply(st, Release(t));
      free := free + {sem};
    }
  }
}
