/** Claiming a handle at registration: GET, then PUT, under the per-handle lock, with every
    store access a step, any write or rollback allowed to fail (and a failed one allowed to
    have been applied), and any request allowed to die by dropping its guard early. */
module HandleClaim {
  import M = KeyedMutex

  /** A handle file: someone's projection, the tombstone of a deleted account, a tombstone whose
      release time does not parse, or something that does not parse at all. The user id a
      registration mints is fresh, so it is named by the request that mints it. */
  datatype File = Owned(user: nat) | Tombstone(releasedAt: int) | Undated | Garbled

  /** Thirty days, in nanoseconds. */
  const COOLDOWN := 30 * 86_400_000_000_000

  datatype Pc =
    | Begin | Stale | Free | Claimed | Profiled | RollingBack   // on the way
    | Succeeded | Taken | CoolingDown | Failed                  // answered

  datatype Request = Request(handle: string, pc: Pc)

  datatype State = State(mutex: M.State, handles: map<string, File>, requests: map<nat, Request>)

  /** How a write ended: `ok` is what the caller is told. */
  datatype Write = Write(ok: bool, applied: bool)

  datatype Step =
    | Lock(step: M.Step)
    | Check(t: nat, readable: bool, now: int)
    | DeleteTombstone(t: nat, w: Write)
    | PutHandle(t: nat, w: Write)
    | PutProfile(t: nat, ok: bool)
    | PutDevice(t: nat, ok: bool)
    | RollBack(t: nat, applied: bool)

  predicate Holds(s: State, t: nat)
  {
    t in s.mutex.tasks && s.mutex.tasks[t].Holding?
  }

  predicate At(s: State, t: nat, pc: Pc)
  {
    Holds(s, t) && t in s.requests && s.requests[t].pc == pc
  }

  predicate Enabled(s: State, step: Step)
  {
    match step
    case Lock(m) => M.Enabled(s.mutex, m) && (m.Enter? ==> m.t !in s.requests)
    case Check(t, _, _) => At(s, t, Begin)
    case DeleteTombstone(t, w) => At(s, t, Stale) && (w.ok ==> w.applied)
    case PutHandle(t, w) => At(s, t, Free) && (w.ok ==> w.applied)
    case PutProfile(t, _) => At(s, t, Claimed)
    case PutDevice(t, _) => At(s, t, Profiled)
    case RollBack(t, _) => At(s, t, RollingBack)
  }

  function Goto(s: State, t: nat, pc: Pc): State
    requires t in s.requests
  {
    s.(requests := s.requests[t := s.requests[t].(pc := pc)])
  }

  /** What the handle file says about the claim. */
  function Verdict(s: State, t: nat, now: int): Pc
    requires t in s.requests
  {
    var h := s.requests[t].handle;
    if h !in s.handles then Free
    else match s.handles[h]
      case Owned(_) => Taken
      case Undated => Taken
      case Tombstone(released) => if now < released + COOLDOWN then CoolingDown else Stale
      case Garbled => Failed
  }

  function Apply(s: State, step: Step): State
    requires Enabled(s, step)
  {
    match step
    case Lock(m) =>
      var s' := s.(mutex := M.Apply(s.mutex, m));
      if m.Enter? then s'.(requests := s.requests[m.t := Request(m.key, Begin)]) else s'
    case Check(t, readable, now) => Goto(s, t, if readable then Verdict(s, t, now) else Failed)
    case DeleteTombstone(t, w) =>
      var s' := if w.applied then s.(handles := s.handles - {s.requests[t].handle}) else s;
      Goto(s', t, if w.ok then Free else Failed)
    case PutHandle(t, w) =>
      var s' := if w.applied then s.(handles := s.handles[s.requests[t].handle := Owned(t)]) else s;
      Goto(s', t, if w.ok then Claimed else Failed)
    case PutProfile(t, ok) => Goto(s, t, if ok then Profiled else RollingBack)
    case PutDevice(t, ok) => Goto(s, t, if ok then Succeeded else RollingBack)
    case RollBack(t, applied) =>
      var s' := if applied then s.(handles := s.handles - {s.requests[t].handle}) else s;
      Goto(s', t, Failed)
  }

  ghost predicate Possible(s: State, steps: seq<Step>)
    decreases |steps|
  {
    steps == [] || (Enabled(s, steps[0]) && Possible(Apply(s, steps[0]), steps[1..]))
  }

  ghost function Exec(s: State, steps: seq<Step>): State
    requires Possible(s, steps)
    decreases |steps|
  {
    if steps == [] then s else Exec(Apply(s, steps[0]), steps[1..])
  }

  // ---- the invariant ----

  ghost predicate NobodySucceeded(s: State, h: string)
  {
    forall r :: r in s.requests && s.requests[r].handle == h ==> s.requests[r].pc != Succeeded
  }

  ghost predicate RequestInv(s: State, t: nat)
    requires t in s.requests
  {
    var q := s.requests[t];
    && (t in s.mutex.tasks ==> s.mutex.tasks[t].key == q.handle && (s.mutex.tasks[t].Waiting? ==> q.pc == Begin))
    && (q.pc == Succeeded ==> q.handle in s.handles && s.handles[q.handle] == Owned(t))
    && (Holds(s, t) ==>
          && (q.pc in {Stale, Free, Claimed, Profiled, RollingBack} ==> NobodySucceeded(s, q.handle))
          && (q.pc in {Claimed, Profiled} ==> q.handle in s.handles && s.handles[q.handle] == Owned(t)))
  }

  ghost predicate Inv(s: State)
  {
    && M.Inv(s.mutex)
    && (forall t :: t in s.mutex.tasks ==> t in s.requests)
    && (forall t :: t in s.requests ==> RequestInv(s, t))
  }

  lemma LockStep(s: State, m: M.Step, t: nat)
    requires Inv(s) && Enabled(s, Lock(m)) && t in Apply(s, Lock(m)).requests
    ensures RequestInv(Apply(s, Lock(m)), t)
  {
    var s' := Apply(s, Lock(m));
    if t in s.requests && !(m.Enter? && m.t == t) {
      assert RequestInv(s, t);
      assert s'.requests[t] == s.requests[t];
      assert NobodySucceeded(s, s.requests[t].handle) ==> NobodySucceeded(s', s.requests[t].handle);
      assert Holds(s', t) ==> Holds(s, t) || s.mutex.tasks[t].Waiting?;
    }
  }

  lemma OneHolder(s: State, t: nat, u: nat)
    requires Inv(s) && Holds(s, t) && Holds(s, u) && t in s.requests && u in s.requests
    requires s.requests[t].handle == s.requests[u].handle
    ensures t == u
  {
    M.InvExclusive(s.mutex);
    assert RequestInv(s, t) && RequestInv(s, u);
    assert M.HoldSameKey(s.mutex.tasks[t], s.mutex.tasks[u]);
  }

  /** The request that takes the step. */
  lemma OwnStep(s: State, step: Step)
    requires Enabled(s, step) && !step.Lock? && RequestInv(s, step.t)
    requires forall r :: r in s.requests && s.requests[r].pc == Succeeded ==>
               s.requests[r].handle in s.handles && s.handles[s.requests[r].handle].Owned?
    ensures step.t in Apply(s, step).requests && RequestInv(Apply(s, step), step.t)
  {
  }

  /** Another request, which if it holds a lock holds that of another handle. */
  lemma OtherStep(s: State, step: Step, t: nat)
    requires Enabled(s, step) && !step.Lock? && t in s.requests && t != step.t
    requires RequestInv(s, step.t) && RequestInv(s, t)
    requires Holds(s, t) ==> s.requests[t].handle != s.requests[step.t].handle
    ensures t in Apply(s, step).requests && RequestInv(Apply(s, step), t)
  {
  }

  /** Only the lock holder touches a handle, so nobody else's knowledge of it goes stale. */
  lemma RequestStep(s: State, step: Step, t: nat)
    requires Inv(s) && Enabled(s, step) && t in Apply(s, step).requests && !step.Lock?
    ensures RequestInv(Apply(s, step), t)
  {
    assert RequestInv(s, t) && RequestInv(s, step.t);
    if t == step.t {
      assert forall r :: r in s.requests ==> RequestInv(s, r);
      OwnStep(s, step);
    } else {
      if Holds(s, t) && s.requests[t].handle == s.requests[step.t].handle { OneHolder(s, t, step.t); }
      OtherStep(s, step, t);
    }
  }

  lemma InvStep(s: State, step: Step)
    requires Inv(s) && Enabled(s, step)
    ensures Inv(Apply(s, step))
  {
    if step.Lock? { M.InvStep(s.mutex, step.step); }
    forall t | t in Apply(s, step).requests ensures RequestInv(Apply(s, step), t) {
      if step.Lock? { LockStep(s, step.step, t); } else { RequestStep(s, step, t); }
    }
  }

  lemma {:induction false} InvExec(s: State, steps: seq<Step>)
    requires Inv(s) && Possible(s, steps)
    ensures Inv(Exec(s, steps))
    decreases |steps|
  {
    if steps != [] {
      InvStep(s, steps[0]);
      InvExec(Apply(s, steps[0]), steps[1..]);
    }
  }

  /** Any handle files, nobody registering yet. */
  function Start(handles: map<string, File>): State
  {
    State(M.Init, handles, map[])
  }

  lemma StartInv(handles: map<string, File>)
    ensures Inv(Start(handles))
  {
    M.InitInv();
  }

  /** At most one registration of a handle ever reports success. */
  lemma ClaimedOnce(handles: map<string, File>, steps: seq<Step>, t: nat, u: nat)
    requires Possible(Start(handles), steps)
    requires var s := Exec(Start(handles), steps);
             && t in s.requests && s.requests[t].pc == Succeeded
             && u in s.requests && s.requests[u].pc == Succeeded
             && s.requests[t].handle == s.requests[u].handle
    ensures t == u
  {
    StartInv(handles);
    InvExec(Start(handles), steps);
    var s := Exec(Start(handles), steps);
    assert RequestInv(s, t) && RequestInv(s, u);
  }

  lemma {:induction false} SuccessStands(s: State, steps: seq<Step>, t: nat)
    requires Inv(s) && Possible(s, steps)
    requires t in s.requests && s.requests[t].pc == Succeeded
    ensures var s' := Exec(s, steps); var h := s.requests[t].handle;
            t in s'.requests && s'.requests[t] == s.requests[t] && h in s'.handles && s'.handles[h] == Owned(t)
    decreases |steps|
  {
    if steps == [] {
      assert RequestInv(s, t);
    } else {
      InvStep(s, steps[0]);
      SuccessStands(Apply(s, steps[0]), steps[1..], t);
    }
  }

  /** From the moment a registration succeeds the handle file keeps its user, whatever else
      happens. */
  lemma ClaimIsKept(handles: map<string, File>, before: seq<Step>, after: seq<Step>, t: nat)
    requires Possible(Start(handles), before) && Possible(Exec(Start(handles), before), after)
    requires t in Exec(Start(handles), before).requests && Exec(Start(handles), before).requests[t].pc == Succeeded
    ensures var h := Exec(Start(handles), before).requests[t].handle;
            var s' := Exec(Exec(Start(handles), before), after);
            h in s'.handles && s'.handles[h] == Owned(t)
  {
    StartInv(handles);
    InvExec(Start(handles), before);
    SuccessStands(Exec(Start(handles), before), after, t);
  }

  /** A handle owned before anyone registers is never taken over. */
  lemma {:induction false} OwnedStaysOwned(s: State, steps: seq<Step>, h: string, user: nat)
    requires Inv(s) && Possible(s, steps)
    requires h in s.handles && s.handles[h] == Owned(user)
    requires user !in s.requests && forall t :: t in Exec(s, steps).requests ==> t != user
    requires forall t :: t in s.requests && s.requests[t].handle == h ==> s.requests[t].pc in {Begin, Taken, Failed}
    ensures h in Exec(s, steps).handles && Exec(s, steps).handles[h] == Owned(user)
    ensures forall t :: t in Exec(s, steps).requests && Exec(s, steps).requests[t].handle == h ==>
              Exec(s, steps).requests[t].pc in {Begin, Taken, Failed}
    decreases |steps|
  {
    if steps != [] {
      InvStep(s, steps[0]);
      var s1 := Apply(s, steps[0]);
      RequestsPersist(s1, steps[1..]);
      OwnedStaysOwned(s1, steps[1..], h, user);
    }
  }

  lemma {:induction false} RequestsPersist(s: State, steps: seq<Step>)
    requires Possible(s, steps)
    ensures s.requests.Keys <= Exec(s, steps).requests.Keys
    decreases |steps|
  {
    if steps != [] { RequestsPersist(Apply(s, steps[0]), steps[1..]); }
  }

  // ---- what each file leads to ----

  /** A file that somebody owns, or a tombstone without a readable release time. */
  predicate Held(handles: map<string, File>, h: string)
  {
    h in handles && (handles[h].Owned? || handles[h].Undated?)
  }

  /** A tombstone less than thirty days old. */
  predicate Cooling(handles: map<string, File>, h: string, now: int)
  {
    h in handles && handles[h].Tombstone? && now < handles[h].releasedAt + 30 * 86_400_000_000_000
  }

  predicate Unreadable(handles: map<string, File>, h: string)
  {
    h in handles && handles[h].Garbled?
  }

  /** A handle that may be claimed at this instant: free, or released thirty days ago. */
  predicate Claimable(handles: map<string, File>, h: string, now: int)
  {
    h !in handles || (handles[h].Tombstone? && now >= handles[h].releasedAt + 30 * 86_400_000_000_000)
  }

  /** What a readable handle file makes of a request. */
  lemma CheckAnswers(s: State, t: nat, now: int)
    requires Enabled(s, Check(t, true, now))
    ensures var h := s.requests[t].handle;
            var pc := Apply(s, Check(t, true, now)).requests[t].pc;
            && (pc == Taken <==> Held(s.handles, h)) && (pc == CoolingDown <==> Cooling(s.handles, h, now))
            && (pc == Failed <==> Unreadable(s.handles, h))
            && (pc == Free || pc == Stale <==> Claimable(s.handles, h, now)) && (pc == Free <==> h !in s.handles)
            && Apply(s, Check(t, true, now)).handles == s.handles
  {
  }

  lemma Unfold(s: State, step: Step, rest: seq<Step>)
    requires Enabled(s, step) && Possible(Apply(s, step), rest)
    ensures Possible(s, [step] + rest) && Exec(s, [step] + rest) == Exec(Apply(s, step), rest)
  {
    assert ([step] + rest)[1..] == rest;
  }

  lemma OneStep(s: State, step: Step)
    requires Enabled(s, step)
    ensures Possible(s, [step]) && Exec(s, [step]) == Apply(s, step)
  {
    Unfold(s, step, []);
    assert [step] + [] == [step];
  }

  /** The three writes, all succeeding. */
  lemma WritesSucceed(s: State, t: nat) returns (steps: seq<Step>)
    requires At(s, t, Free)
    ensures Possible(s, steps)
    ensures var s' := Exec(s, steps);
            s'.requests == s.requests[t := s.requests[t].(pc := Succeeded)]
            && s'.handles == s.handles[s.requests[t].handle := Owned(t)]
  {
    var put := PutHandle(t, Write(true, true));
    var s1 := Apply(s, put);
    var s2 := Apply(s1, PutProfile(t, true));
    OneStep(s2, PutDevice(t, true));
    Unfold(s1, PutProfile(t, true), [PutDevice(t, true)]);
    Unfold(s, put, [PutProfile(t, true)] + [PutDevice(t, true)]);
    steps := [put] + ([PutProfile(t, true)] + [PutDevice(t, true)]);
    var last := Apply(s2, PutDevice(t, true));
    assert last.requests == s.requests[t := s.requests[t].(pc := Succeeded)];
  }

  /** A request that holds its lock and finds the handle claimable registers it, its accesses
      succeeding. */
  lemma ClaimableIsClaimed(s: State, t: nat, now: int) returns (steps: seq<Step>)
    requires At(s, t, Begin) && Claimable(s.handles, s.requests[t].handle, now)
    ensures Possible(s, steps)
    ensures var s' := Exec(s, steps);
            s'.requests == s.requests[t := s.requests[t].(pc := Succeeded)]
            && s'.handles == s.handles[s.requests[t].handle := Owned(t)]
  {
    var h := s.requests[t].handle;
    var check, clear := Check(t, true, now), DeleteTombstone(t, Write(true, true));
    var s1 := Apply(s, check);
    if h in s.handles {
      var s2 := Apply(s1, clear);
      var rest := WritesSucceed(s2, t);
      Unfold(s1, clear, rest);
      Unfold(s, check, [clear] + rest);
      steps := [check] + ([clear] + rest);
      assert s2.handles[h := Owned(t)] == s.handles[h := Owned(t)];
      assert s2.requests[t := s2.requests[t].(pc := Succeeded)] == s.requests[t := s.requests[t].(pc := Succeeded)];
    } else {
      var rest := WritesSucceed(s1, t);
      Unfold(s, check, rest);
      steps := [check] + rest;
      assert s1.requests[t := s1.requests[t].(pc := Succeeded)] == s.requests[t := s.requests[t].(pc := Succeeded)];
    }
  }

  /** A claim whose profile or device cannot be written is given up: rolled back, the handle is
      free again. */
  lemma RolledBackIsFree(s: State, t: nat)
    requires At(s, t, Claimed) || At(s, t, Profiled)
    ensures var fail := if At(s, t, Claimed) then PutProfile(t, false) else PutDevice(t, false);
            && Possible(s, [fail] + [RollBack(t, true)])
            && var s' := Exec(s, [fail] + [RollBack(t, true)]);
               s'.handles == s.handles - {s.requests[t].handle} && t in s'.requests && s'.requests[t].pc == Failed
  {
    var fail := if At(s, t, Claimed) then PutProfile(t, false) else PutDevice(t, false);
    OneStep(Apply(s, fail), RollBack(t, true));
    Unfold(s, fail, [RollBack(t, true)]);
  }

  /** Only the handle its request names is ever touched by a step. */
  lemma OtherHandlesStand(s: State, step: Step, h: string)
    requires Enabled(s, step) && (step.Lock? || s.requests[step.t].handle != h)
    ensures h in Apply(s, step).handles <==> h in s.handles
    ensures h in s.handles ==> Apply(s, step).handles[h] == s.handles[h]
  {
  }

  /** Every check of these steps is made before this instant. */
  predicate ChecksBefore(steps: seq<Step>, instant: int)
  {
    forall i :: 0 <= i < |steps| && steps[i].Check? ==> steps[i].now < instant
  }

  lemma {:induction false} CooldownExec(s: State, steps: seq<Step>, h: string, released: int)
    requires Possible(s, steps) && ChecksBefore(steps, released + 30 * 86_400_000_000_000)
    requires h in s.handles && s.handles[h] == Tombstone(released)
    requires forall t :: t in s.requests && s.requests[t].handle == h ==>
               s.requests[t].pc in {Begin, CoolingDown, Failed}
    ensures h in Exec(s, steps).handles && Exec(s, steps).handles[h] == Tombstone(released)
    ensures forall t :: t in Exec(s, steps).requests && Exec(s, steps).requests[t].handle == h ==>
              Exec(s, steps).requests[t].pc in {Begin, CoolingDown, Failed}
    decreases |steps|
  {
    if steps != [] {
      CooldownStep(s, steps[0], h, released);
      forall i | 0 <= i < |steps[1..]| && steps[1..][i].Check?
        ensures steps[1..][i].now < released + 30 * 86_400_000_000_000
      {
        assert steps[1..][i] == steps[i + 1];
      }
      CooldownExec(Apply(s, steps[0]), steps[1..], h, released);
    }
  }

  lemma CooldownStep(s: State, step: Step, h: string, released: int)
    requires Enabled(s, step) && (step.Check? ==> step.now < released + 30 * 86_400_000_000_000)
    requires h in s.handles && s.handles[h] == Tombstone(released)
    requires forall t :: t in s.requests && s.requests[t].handle == h ==>
               s.requests[t].pc in {Begin, CoolingDown, Failed}
    ensures var s' := Apply(s, step);
            && h in s'.handles && s'.handles[h] == Tombstone(released)
            && forall t :: t in s'.requests && s'.requests[t].handle == h ==>
                 s'.requests[t].pc in {Begin, CoolingDown, Failed}
  {
  }

  /** The cooldown holds: in any run all of whose checks are made within thirty days of its release,
      a tombstone stays exactly as it is, and no registration of its handle passes the check. */
  lemma CooldownHolds(handles: map<string, File>, steps: seq<Step>, h: string, released: int)
    requires Possible(Start(handles), steps) && ChecksBefore(steps, released + 30 * 86_400_000_000_000)
    requires h in handles && handles[h] == Tombstone(released)
    ensures var s := Exec(Start(handles), steps);
            && h in s.handles && s.handles[h] == Tombstone(released)
            && forall t :: t in s.requests && s.requests[t].handle == h ==>
                 s.requests[t].pc in {Begin, CoolingDown, Failed}
  {
    CooldownExec(Start(handles), steps, h, released);
  }

  // ---- the handler ----

  datatype Reply = Registered(user: nat) | Unavailable | HandleTaken | HandleInCooldown | ServerError

  lemma {:induction false} ExecAppend(s: State, trace: seq<Step>, step: Step)
    requires Possible(s, trace) && Enabled(Exec(s, trace), step)
    ensures Possible(s, trace + [step]) && Exec(s, trace + [step]) == Apply(Exec(s, trace), step)
    decreases |trace|
  {
    var longer := trace + [step];
    if trace == [] {
      assert longer[1..] == [] && longer[0] == step;
      assert Possible(Apply(s, step), longer[1..]) && Exec(Apply(s, step), longer[1..]) == Apply(s, step);
    } else {
      assert longer[1..] == trace[1..] + [step] && longer[0] == trace[0];
      ExecAppend(Apply(s, trace[0]), trace[1..], step);
    }
  }

  class Registry {
    const mutex: M.Locks
    var handles: map<string, File>
    ghost var st: State
    ghost var trace: seq<Step>
    ghost const before: map<string, File>

    ghost predicate Valid()
      reads this, mutex
    {
      && mutex.Valid() && st.mutex == mutex.st && st.handles == handles
      && Possible(Start(before), trace) && Exec(Start(before), trace) == st
    }

    constructor (handles: map<string, File>)
      ensures Valid() && st == Start(handles) && fresh(mutex)
    {
      mutex := new M.Locks();
      this.handles := handles;
      before := handles;
      st := Start(handles);
      trace := [];
    }

    /** An await inside request `t`: others take any number of steps, none of them `t`'s; when
        `quiet`, none. */
    method Await(ghost t: nat, quiet: bool)
      requires Valid()
      modifies this, mutex
      ensures Valid() && old(trace) <= trace
      ensures t in st.requests <==> t in old(st).requests
      ensures t in st.requests ==> st.requests[t] == old(st).requests[t]
      ensures t in st.mutex.tasks <==> t in old(st).mutex.tasks
      ensures t in st.mutex.tasks ==> st.mutex.tasks[t] == old(st).mutex.tasks[t]
      ensures quiet ==> st == old(st) && handles == old(handles)
    {
    }

    /** How a backend write ends is not up to the handler; when `quiet` it succeeds. */
    method Backend(quiet: bool) returns (w: Write)
      ensures (w.ok ==> w.applied) && (quiet ==> w.ok)
    {
      var ok: bool, applied: bool := *, *;
      ok := ok || quiet;
      w := Write(ok, ok || applied);
    }

    ghost method Take(step: Step)
      requires Possible(Start(before), trace) && Exec(Start(before), trace) == st && Enabled(st, step)
      modifies this`st, this`trace
      ensures st == Apply(old(st), step) && trace == old(trace) + [step]
      ensures Possible(Start(before), trace) && Exec(Start(before), trace) == st
    {
      ExecAppend(Start(before), trace, step);
      st := Apply(st, step);
      trace := trace + [step];
    }

    /** Request `t` is at this point of the handler, holding its handle's lock. */
    ghost predicate Mine(t: nat, handle: string, sem: nat, pc: Pc)
      reads this, mutex
    {
      && Valid() && t in st.requests && st.requests[t] == Request(handle, pc)
      && t in st.mutex.tasks && st.mutex.tasks[t] == M.Holding(handle, sem)
    }

    /** Claims `handle` for the fresh user `t`, holding the handle's lock to the end. With nothing
        in the way the handle file alone decides: it is taken while somebody's or undated, cooling
        down for thirty days after its release, unreadable when garbled, and otherwise claimed. */
    method Register(t: nat, handle: string, now: int, quiet: bool) returns (reply: Reply)
      requires Valid() && t !in st.requests && t !in st.mutex.tasks
      modifies this, mutex
      ensures Valid() && old(trace) <= trace
      ensures t in st.requests && st.requests[t].handle == handle
      ensures reply.Registered? <==> st.requests[t].pc == Succeeded
      ensures reply.Registered? ==> reply.user == t && handle in handles && handles[handle] == Owned(t)
      ensures reply.HandleTaken? <==> st.requests[t].pc == Taken
      ensures reply.HandleInCooldown? <==> st.requests[t].pc == CoolingDown
      ensures reply.Unavailable? <==> st.requests[t].pc == Begin
      ensures quiet && M.Unlocked(old(st).mutex, handle) ==>
                && (reply.HandleTaken? <==> Held(old(handles), handle))
                && (reply.HandleInCooldown? <==> Cooling(old(handles), handle, now))
                && (reply.ServerError? <==> Unreadable(old(handles), handle))
                && (reply.Registered? <==> Claimable(old(handles), handle, now))
                && handles == if reply.Registered? then old(handles)[handle := Owned(t)] else old(handles)
    {
      var granted, sem := Acquire(t, handle, quiet);
      if !granted { return Unavailable; }
      var pc;
      reply, pc := ClaimLocked(t, handle, sem, now, quiet);
      Unlock(t, handle, sem, pc);
      if reply.Registered? {
        StartInv(before);
        InvExec(Start(before), trace);
        assert RequestInv(st, t);
      }
    }

    method Acquire(t: nat, handle: string, quiet: bool) returns (granted: bool, sem: nat)
      requires Valid() && t !in st.requests && t !in st.mutex.tasks
      modifies this, mutex
      ensures old(trace) <= trace
      ensures granted ==> Mine(t, handle, sem, Begin)
      ensures !granted ==> Valid() && t in st.requests && st.requests[t] == Request(handle, Begin)
      ensures quiet && M.Unlocked(old(st).mutex, handle) ==> granted && handles == old(handles)
    {
      sem := Join(t, handle, quiet);
      granted := mutex.GrantOrTimeOut(t, handle, sem);
      if granted {
        Take(Lock(M.Grant(t)));
      } else {
        Take(Lock(M.GiveUp(t)));
        Take(Lock(M.Leave(t)));
      }
    }

    /** First half of the acquire: join the slot and wait. */
    method Join(t: nat, handle: string, quiet: bool) returns (sem: nat)
      requires Valid() && t !in st.requests && t !in st.mutex.tasks
      modifies this, mutex
      ensures Valid() && old(trace) <= trace
      ensures t in st.requests && st.requests[t] == Request(handle, Begin)
      ensures t in st.mutex.tasks && st.mutex.tasks[t] == M.Waiting(handle, sem)
      ensures quiet && M.Unlocked(old(st).mutex, handle) ==> !M.Occupied(st.mutex, sem) && handles == old(handles)
    {
      if M.Unlocked(st.mutex, handle) { M.EnterUnlocked(st.mutex, t, handle); }
      sem := mutex.Enter(t, handle);
      Take(Lock(M.Enter(t, handle)));
      Await(t, quiet);
    }

    /** The guard drops when the handler returns. */
    method Unlock(ghost t: nat, handle: string, sem: nat, ghost pc: Pc)
      requires Mine(t, handle, sem, pc)
      modifies this, mutex
      ensures Valid() && old(trace) <= trace && handles == old(handles)
      ensures t in st.requests && st.requests[t] == Request(handle, pc)
    {
      mutex.DropGuard(t, handle, sem);
      Take(Lock(M.Drop(t)));
      Take(Lock(M.Release(t)));
    }

    /** The GET of the handle file, which may fail, and what is found there. */
    method CheckHandle(ghost t: nat, handle: string, ghost sem: nat, now: int, quiet: bool) returns (pc: Pc)
      requires Mine(t, handle, sem, Begin)
      modifies this, mutex
      ensures Mine(t, handle, sem, pc) && old(trace) <= trace
      ensures pc in {Free, Stale, Taken, CoolingDown, Failed}
      ensures quiet ==> handles == old(handles)
      ensures quiet ==>
                && (pc == Taken <==> Held(old(handles), handle))
                && (pc == CoolingDown <==> Cooling(old(handles), handle, now))
                && (pc == Failed <==> Unreadable(old(handles), handle)) && (pc == Free <==> handle !in old(handles))
    {
      Await(t, quiet);
      var readable: bool := *;
      readable := readable || quiet;
      Take(Check(t, readable, now));
      if !readable { return Failed; }
      if handle !in handles { return Free; }
      match handles[handle] {
        case Owned(_) => pc := Taken;
        case Undated => pc := Taken;
        case Tombstone(released) => pc := if now < released + COOLDOWN then CoolingDown else Stale;
        case Garbled => pc := Failed;
      }
    }

    method ClaimLocked(t: nat, handle: string, ghost sem: nat, now: int, quiet: bool) returns (reply: Reply, pc: Pc)
      requires Mine(t, handle, sem, Begin)
      modifies this, mutex
      ensures Mine(t, handle, sem, pc) && old(trace) <= trace
      ensures reply.Registered? <==> pc == Succeeded
      ensures reply.Registered? ==> reply.user == t
      ensures reply.HandleTaken? <==> pc == Taken
      ensures reply.HandleInCooldown? <==> pc == CoolingDown
      ensures !reply.Unavailable? && pc != Begin
      ensures quiet ==>
                && (pc == Taken <==> Held(old(handles), handle))
                && (pc == CoolingDown <==> Cooling(old(handles), handle, now))
                && (reply.ServerError? <==> Unreadable(old(handles), handle))
                && handles == if pc == Succeeded then old(handles)[handle := Owned(t)] else old(handles)
    {
      pc := CheckHandle(t, handle, sem, now, quiet);
      match pc {
        case Taken => return HandleTaken, Taken;
        case CoolingDown => return HandleInCooldown, CoolingDown;
        case Failed => return ServerError, Failed;
        case _ =>
      }
      reply, pc := Claim(t, handle, sem, pc, quiet);
    }

    /** From a claimable handle on. */
    method Claim(t: nat, handle: string, ghost sem: nat, found: Pc, quiet: bool) returns (reply: Reply, pc: Pc)
      requires Mine(t, handle, sem, found) && (found.Free? || found.Stale?)
      modifies this, mutex
      ensures Mine(t, handle, sem, pc) && old(trace) <= trace
      ensures if pc == Succeeded then reply == Registered(t) else reply == ServerError && pc == Failed
      ensures quiet ==> pc == Succeeded && handles == old(handles)[handle := Owned(t)]
    {
      var free := MakeFree(t, handle, sem, found, quiet);
      if !free { return ServerError, Failed; }
      var written := WriteFiles(t, handle, sem, quiet);
      assert quiet ==> handles == old(handles)[handle := Owned(t)];
      reply := if written then Registered(t) else ServerError;
      pc := if written then Succeeded else Failed;
    }

    /** Clears the way, if there is a tombstone in it. */
    method MakeFree(ghost t: nat, handle: string, ghost sem: nat, found: Pc, quiet: bool) returns (ok: bool)
      requires Mine(t, handle, sem, found) && (found.Free? || found.Stale?)
      modifies this, mutex
      ensures Mine(t, handle, sem, if ok then Free else Failed) && old(trace) <= trace
      ensures quiet ==> ok && handles[handle := Owned(t)] == old(handles)[handle := Owned(t)]
    {
      ok := true;
      if found.Stale? { ok := ClearTombstone(t, handle, sem, quiet); }
    }

    method ClearTombstone(ghost t: nat, handle: string, ghost sem: nat, quiet: bool) returns (ok: bool)
      requires Mine(t, handle, sem, Stale)
      modifies this, mutex
      ensures Mine(t, handle, sem, if ok then Free else Failed) && old(trace) <= trace
      ensures quiet ==> ok && handles == old(handles) - {handle}
    {
      Await(t, quiet);
      var w := Backend(quiet);
      Take(DeleteTombstone(t, w));
      if w.applied { handles := handles - {handle}; }
      ok := w.ok;
    }

    /** Handle projection first, then profile, then device, rolling the claim back when a later
        write fails. */
    method WriteFiles(t: nat, handle: string, ghost sem: nat, quiet: bool) returns (ok: bool)
      requires Mine(t, handle, sem, Free)
      modifies this, mutex
      ensures Mine(t, handle, sem, if ok then Succeeded else Failed) && old(trace) <= trace
      ensures quiet ==> ok && handles == old(handles)[handle := Owned(t)]
    {
      ok := WriteProjection(t, handle, sem, quiet);
      if !ok { return; }
      ok := WriteRecords(t, handle, sem, quiet);
      if !ok { Undo(t, handle, sem, quiet); }
    }

    method WriteRecords(ghost t: nat, handle: string, ghost sem: nat, quiet: bool) returns (ok: bool)
      requires Mine(t, handle, sem, Claimed)
      modifies this, mutex
      ensures Mine(t, handle, sem, if ok then Succeeded else RollingBack) && old(trace) <= trace
      ensures quiet ==> ok && handles == old(handles)
    {
      ok := WriteProfile(t, handle, sem, quiet);
      if ok { ok := WriteDevice(t, handle, sem, quiet); }
    }

    method WriteProjection(t: nat, handle: string, ghost sem: nat, quiet: bool) returns (ok: bool)
      requires Mine(t, handle, sem, Free)
      modifies this, mutex
      ensures Mine(t, handle, sem, if ok then Claimed else Failed) && old(trace) <= trace
      ensures quiet ==> ok && handles == old(handles)[handle := Owned(t)]
    {
      Await(t, quiet);
      var w := Backend(quiet);
      Take(PutHandle(t, w));
      if w.applied { handles := handles[handle := Owned(t)]; }
      ok := w.ok;
    }

    method WriteProfile(ghost t: nat, handle: string, ghost sem: nat, quiet: bool) returns (ok: bool)
      requires Mine(t, handle, sem, Claimed)
      modifies this, mutex
      ensures Mine(t, handle, sem, if ok then Profiled else RollingBack) && old(trace) <= trace
      ensures quiet ==> ok && handles == old(handles)
    {
      Await(t, quiet);
      var w := Backend(quiet);
      Take(PutProfile(t, w.ok));
      ok := w.ok;
    }

    method WriteDevice(ghost t: nat, handle: string, ghost sem: nat, quiet: bool) returns (ok: bool)
      requires Mine(t, handle, sem, Profiled)
      modifies this, mutex
      ensures Mine(t, handle, sem, if ok then Succeeded else RollingBack) && old(trace) <= trace
      ensures quiet ==> ok && handles == old(handles)
    {
      Await(t, quiet);
      var w := Backend(quiet);
      Take(PutDevice(t, w.ok));
      ok := w.ok;
    }

    method Undo(ghost t: nat, handle: string, ghost sem: nat, quiet: bool)
      requires Mine(t, handle, sem, RollingBack)
      modifies this, mutex
      ensures Mine(t, handle, sem, Failed) && old(trace) <= trace
      ensures quiet ==> handles == old(handles) - {handle}
    {
      Await(t, quiet);
      var w := Backend(quiet);
      Take(RollBack(t, w.applied));
      if w.applied { handles := handles - {handle}; }
    }
  }
}
