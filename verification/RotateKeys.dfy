/** `POST /v1/rotate-keys` for one account: under the per-user lock, replay a recorded outcome
    or verify the request against the stored profile, write the new profile, and record the
    outcome. Every store access is a step, loads and saves may fail, a failed write may have
    been applied, and a request may die anywhere by dropping its guard. */
module RotateKeys {
  import opened Wrappers
  import M = KeyedMutex

  const U32_MAX := 0xFFFF_FFFF

  /** The fields a continuity signature covers. */
  datatype Credential = Credential(requestId: string, keyVersion: nat, authKey: nat, params: nat)

  /** An ideal signature: who signed what. */
  datatype Signature = Signature(signer: nat, over: Credential)

  datatype Body = Body(fields: Credential, signature: Signature)

  datatype Token = Token(device: nat, keyVersion: nat)

  datatype Outcome =
    | Success(token: Token, keyVersion: nat)
    | KeyVersionStale(current: int)
    | BadContinuity

  datatype Record = Record(
    status: nat, token: Option<Token>, keyVersion: Option<nat>, error: Option<string>, current: Option<int>)

  function ToRecord(o: Outcome): Record
  {
    match o
    case Success(token, kv) => Record(200, Some(token), Some(kv), None, None)
    case KeyVersionStale(current) => Record(409, None, None, Some("key_version_stale"), Some(current))
    case BadContinuity => Record(403, None, None, Some("bad_continuity"), None)
  }

  function FromRecord(r: Record): Outcome
  {
    if 200 <= r.status < 300 then Success(r.token.GetOr(Token(0, 0)), r.keyVersion.GetOr(1))
    else if r.error == Some("bad_continuity") then BadContinuity
    else KeyVersionStale(r.current.GetOr(-1))
  }

  /** Replaying a record gives back the outcome it was made from. */
  lemma RecordRoundTrip(o: Outcome)
    ensures FromRecord(ToRecord(o)) == o
  {
  }

  datatype Pc =
    | Begin
    | Missed                          // no record loaded: proceed fresh
    | Verified                        // read, checked, about to write the profile
    | Recording(outcome: Outcome)
    | Done(outcome: Outcome)
    | Failed

  datatype Request = Request(body: Body, device: nat, pc: Pc)

  datatype Profile = Profile(keyVersion: nat, authKey: nat)

  /** `applied` logs each body as its profile write lands. */
  datatype State = State(
    mutex: M.State, profile: Profile, records: map<string, Record>,
    requests: map<nat, Request>, applied: seq<Body>)

  const UID := "uid"

  datatype Step =
    | Arrive(t: nat, body: Body, device: nat)
    | Lock(step: M.Step)
    | Load(t: nat, loads: bool)
    | Check(t: nat, readable: bool)
    | WriteProfile(t: nat, ok: bool, lands: bool)
    | Save(t: nat, saves: bool)

  /** A stored version 0 (a profile older than versions) counts as 1. */
  function Current(p: Profile): nat
  {
    if p.keyVersion == 0 then 1 else p.keyVersion
  }

  /** `current + 1` on 32 bits. */
  function Next(current: nat): nat
  {
    if current >= U32_MAX then 0 else current + 1
  }

  predicate Verifies(authKey: nat, body: Body)
  {
    body.signature == Signature(authKey, body.fields)
  }

  predicate Holds(s: State, t: nat)
  {
    t in s.mutex.tasks && s.mutex.tasks[t].Holding?
  }

  predicate Running(s: State, t: nat)
  {
    Holds(s, t) && t in s.requests
  }

  predicate Enabled(s: State, step: Step)
  {
    match step
    case Arrive(t, _, _) => t !in s.requests && M.Enabled(s.mutex, M.Enter(t, UID))
    case Lock(m) => M.Enabled(s.mutex, m) && !m.Enter?
    case Load(t, _) => Running(s, t) && s.requests[t].pc.Begin?
    case Check(t, _) => Running(s, t) && s.requests[t].pc.Missed?
    case WriteProfile(t, ok, lands) => Running(s, t) && s.requests[t].pc.Verified? && (ok ==> lands)
    case Save(t, _) => Running(s, t) && s.requests[t].pc.Recording?
  }

  function Goto(s: State, t: nat, pc: Pc): State
    requires t in s.requests
  {
    s.(requests := s.requests[t := s.requests[t].(pc := pc)])
  }

  /** What the precondition and the signature say about a body. */
  function Verdict(p: Profile, body: Body): Pc
  {
    if body.fields.keyVersion != Next(Current(p)) then Recording(KeyVersionStale(Current(p)))
    else if !Verifies(p.authKey, body) then Recording(BadContinuity)
    else Verified
  }

  function Apply(s: State, step: Step): State
    requires Enabled(s, step)
  {
    match step
    case Arrive(t, body, device) =>
      s.(mutex := M.Apply(s.mutex, M.Enter(t, UID)), requests := s.requests[t := Request(body, device, Begin)])
    case Lock(m) => s.(mutex := M.Apply(s.mutex, m))
    case Load(t, loads) =>
      var id := s.requests[t].body.fields.requestId;
      Goto(s, t, if loads && id in s.records then Done(FromRecord(s.records[id])) else Missed)
    case Check(t, readable) => Goto(s, t, if readable then Verdict(s.profile, s.requests[t].body) else Failed)
    case WriteProfile(t, ok, lands) =>
      var b := s.requests[t].body;
      var s' := if lands
                then s.(profile := Profile(b.fields.keyVersion, b.fields.authKey), applied := s.applied + [b])
                else s;
      Goto(s', t, if ok
                  then Recording(Success(Token(s.requests[t].device, b.fields.keyVersion), b.fields.keyVersion))
                  else Failed)
    case Save(t, saves) =>
      var o := s.requests[t].pc.outcome;
      var id := s.requests[t].body.fields.requestId;
      Goto(if saves then s.(records := s.records[id := ToRecord(o)]) else s, t, Done(o))
  }

  ghost predicate Possible(s: State, steps: seq<Step>)
    decreases |steps|
  {
    steps == [] || (Enabled(s, steps[0]) && Possible(Apply(s, steps[0]), steps[1..]))
  }

  ghost function Exec(s: State, steps: seq<Step>): State
    requires Possible(s, steps)
    decreases |steps|
  {
    if steps == [] then s else Exec(Apply(s, steps[0]), steps[1..])
  }

  // ---- the invariant ----

  ghost predicate LockInv(s: State)
  {
    && M.Inv(s.mutex)
    && (forall t :: t in s.mutex.tasks ==> t in s.requests && s.mutex.tasks[t].key == UID)
    && (forall t :: t in s.mutex.tasks && s.mutex.tasks[t].Waiting? ==> s.requests[t].pc.Begin?)
  }

  /** A verified request that still holds the lock was verified against the profile as stored. */
  ghost predicate Inv(s: State)
  {
    && LockInv(s)
    && (forall t :: Running(s, t) && s.requests[t].pc.Verified? ==> Verdict(s.profile, s.requests[t].body).Verified?)
  }

  lemma ArriveLocks(s: State, step: Step)
    requires LockInv(s) && Enabled(s, step) && step.Arrive?
    ensures LockInv(Apply(s, step))
  {
    M.InvStep(s.mutex, M.Enter(step.t, UID));
  }

  lemma MutexLocks(s: State, step: Step)
    requires LockInv(s) && Enabled(s, step) && step.Lock?
    ensures LockInv(Apply(s, step))
  {
    M.InvStep(s.mutex, step.step);
  }

  lemma LockStep(s: State, step: Step)
    requires LockInv(s) && Enabled(s, step)
    ensures LockInv(Apply(s, step))
  {
    if step.Arrive? {
      ArriveLocks(s, step);
    } else if step.Lock? {
      MutexLocks(s, step);
    }
  }

  lemma VerifiedStep(s: State, step: Step, t: nat)
    requires Inv(s) && Enabled(s, step)
    requires Running(Apply(s, step), t) && Apply(s, step).requests[t].pc.Verified?
    ensures Verdict(Apply(s, step).profile, Apply(s, step).requests[t].body).Verified?
  {
    if step.WriteProfile? && Running(s, t) { OneRuns(s, t, step.t); }
  }

  lemma OneRuns(s: State, t: nat, u: nat)
    requires Inv(s) && Running(s, t) && Running(s, u)
    ensures t == u
  {
    M.InvExclusive(s.mutex);
    assert M.HoldSameKey(s.mutex.tasks[t], s.mutex.tasks[u]);
  }

  lemma InvStep(s: State, step: Step)
    requires Inv(s) && Enabled(s, step)
    ensures Inv(Apply(s, step))
  {
    LockStep(s, step);
    forall t | Running(Apply(s, step), t) && Apply(s, step).requests[t].pc.Verified?
      ensures Verdict(Apply(s, step).profile, Apply(s, step).requests[t].body).Verified?
    {
      VerifiedStep(s, step, t);
    }
  }

  lemma {:induction false} InvExec(s: State, steps: seq<Step>)
    requires Inv(s) && Possible(s, steps)
    ensures Inv(Exec(s, steps))
    decreases |steps|
  {
    if steps != [] {
      InvStep(s, steps[0]);
      InvExec(Apply(s, steps[0]), steps[1..]);
    }
  }

  function Start(profile: Profile, records: map<string, Record>): State
  {
    State(M.Init, profile, records, map[], [])
  }

  lemma StartInv(profile: Profile, records: map<string, Record>)
    ensures Inv(Start(profile, records))
  {
    M.InitInv();
  }

  // ---- linearity ----

  /** The profile changes only by a write whose body was signed by the key then stored and
      names the next version. */
  lemma ChangesAreVerified(s: State, step: Step)
    requires Inv(s) && Enabled(s, step)
    ensures var s' := Apply(s, step);
            if s'.applied == s.applied then s'.profile == s.profile
            else
              && step.WriteProfile?
              && s'.applied == s.applied + [s.requests[step.t].body]
              && Verifies(s.profile.authKey, s.requests[step.t].body)
              && s'.profile.keyVersion == Next(Current(s.profile))
              && s'.profile.authKey == s.requests[step.t].body.fields.authKey
  {
  }

  /** The version an account reads back after `n` rotations: the 32-bit versions without 0, over
      and over. */
  function VersionAfter(first: nat, n: nat): nat
    requires first >= 1
  {
    (first - 1 + n) % U32_MAX + 1
  }

  lemma VersionAfterNext(first: nat, n: nat)
    requires first >= 1
    ensures VersionAfter(first, n + 1) == if Next(VersionAfter(first, n)) == 0 then 1 else Next(VersionAfter(first, n))
  {
  }

  /** Two rotations can name the same version only a whole cycle of versions apart. */
  lemma SameVersionApart(first: nat, i: nat, j: nat)
    requires first >= 1 && i <= j && Next(VersionAfter(first, i)) == Next(VersionAfter(first, j))
    ensures (j - i) % U32_MAX == 0
  {
  }

  /** Each applied rotation named the version after the one it found. */
  ghost predicate CountsUp(applied: seq<Body>, first: nat)
    requires first >= 1
  {
    forall i :: 0 <= i < |applied| ==> applied[i].fields.keyVersion == Next(VersionAfter(first, i))
  }

  ghost predicate Linear(s: State, first: nat)
    requires first >= 1
  {
    Current(s.profile) == VersionAfter(first, |s.applied|) && CountsUp(s.applied, first)
  }

  lemma LinearStep(s: State, step: Step, first: nat)
    requires first >= 1 && Inv(s) && Linear(s, first) && Enabled(s, step)
    ensures Linear(Apply(s, step), first)
  {
    ChangesAreVerified(s, step);
    VersionAfterNext(first, |s.applied|);
  }

  lemma {:induction false} LinearExec(s: State, steps: seq<Step>, first: nat)
    requires first >= 1 && Inv(s) && Linear(s, first) && Possible(s, steps)
    ensures Linear(Exec(s, steps), first)
    decreases |steps|
  {
    if steps != [] {
      LinearStep(s, steps[0], first);
      InvStep(s, steps[0]);
      LinearExec(Apply(s, steps[0]), steps[1..], first);
    }
  }

  /** Rotation is linear: from any 32-bit version, each applied rotation moves the account to the
      next version, and whether or not its record survived and however requests interleave, die
      and retry, one body is never applied twice less than a whole cycle of versions apart. */
  lemma RotationIsLinear(profile: Profile, records: map<string, Record>, steps: seq<Step>)
    requires profile.keyVersion <= U32_MAX && Possible(Start(profile, records), steps)
    ensures var s := Exec(Start(profile, records), steps);
            && Current(s.profile) == VersionAfter(Current(profile), |s.applied|)
            && CountsUp(s.applied, Current(profile))
            && (forall i, j :: 0 <= i < j < |s.applied| && s.applied[i] == s.applied[j] ==> (j - i) % U32_MAX == 0)
  {
    StartInv(profile, records);
    LinearExec(Start(profile, records), steps, Current(profile));
    var s := Exec(Start(profile, records), steps);
    forall i, j | 0 <= i < j < |s.applied| && s.applied[i] == s.applied[j] ensures (j - i) % U32_MAX == 0 {
      SameVersionApart(Current(profile), i, j);
    }
  }

  /** At the last 32-bit version the precondition asks for version 0, which reads back as 1. */
  lemma VersionWrapsAtTheEnd(s: State, t: nat)
    requires Inv(s) && Enabled(s, WriteProfile(t, true, true)) && Current(s.profile) == U32_MAX
    ensures Current(Apply(s, WriteProfile(t, true, true)).profile) == 1
  {
  }

  // ---- idempotent replay ----

  /** Nobody with this request id is past its record lookup while still holding the lock. */
  ghost predicate Settled(s: State, id: string)
  {
    forall t :: Running(s, t) && s.requests[t].body.fields.requestId == id ==>
      s.requests[t].pc.Begin? || s.requests[t].pc.Done? || s.requests[t].pc.Failed?
  }

  /** Saving a record settles its id: the saver is done and it alone held the lock. */
  lemma SaveSettles(s: State, t: nat)
    requires Inv(s) && Enabled(s, Save(t, true))
    ensures var s' := Apply(s, Save(t, true)); var id := s.requests[t].body.fields.requestId;
            && Settled(s', id)
            && id in s'.records && s'.requests[t].pc == Done(FromRecord(s'.records[id]))
  {
    M.InvExclusive(s.mutex);
    RecordRoundTrip(s.requests[t].pc.outcome);
    var s' := Apply(s, Save(t, true));
    forall u | Running(s', u) ensures u == t {
      assert M.HoldSameKey(s.mutex.tasks[u], s.mutex.tasks[t]);
    }
  }

  /** Along these steps no lookup of the id's record fails. */
  ghost predicate LoadsSucceed(s: State, steps: seq<Step>, id: string)
    requires Possible(s, steps)
    decreases |steps|
  {
    steps == [] ||
    (&& (steps[0].Load? && s.requests[steps[0].t].body.fields.requestId == id ==> steps[0].loads)
     && LoadsSucceed(Apply(s, steps[0]), steps[1..], id))
  }

  lemma SettledStep(s: State, step: Step, id: string)
    requires Inv(s) && Enabled(s, step) && Settled(s, id) && id in s.records
    requires step.Load? && s.requests[step.t].body.fields.requestId == id ==> step.loads
    ensures var s' := Apply(s, step); Settled(s', id) && id in s'.records && s'.records[id] == s.records[id]
  {
    var s' := Apply(s, step);
    forall t | Running(s', t) && s'.requests[t].body.fields.requestId == id
      ensures s'.requests[t].pc.Begin? || s'.requests[t].pc.Done? || s'.requests[t].pc.Failed?
    {
      assert Running(s, t) || s'.requests[t].pc.Begin?;
    }
  }

  /** Once its record is saved and as long as it loads, a request id always gets the recorded
      outcome: the record never changes and every later answer is read from it. */
  lemma {:induction false} ReplaysRecordedOutcome(s: State, steps: seq<Step>, id: string, t: nat)
    requires Inv(s) && Possible(s, steps) && LoadsSucceed(s, steps, id)
    requires Settled(s, id) && id in s.records
    requires var s' := Exec(s, steps);
             && t in s'.requests && s'.requests[t].body.fields.requestId == id && s'.requests[t].pc.Done?
             && (t in s.requests ==> s.requests[t].pc.Begin?)
    ensures var s' := Exec(s, steps);
            && id in s'.records && s'.records[id] == s.records[id]
            && s'.requests[t].pc == Done(FromRecord(s.records[id]))
    decreases |steps|
  {
    if steps != [] {
      var s1 := Apply(s, steps[0]);
      InvStep(s, steps[0]);
      SettledStep(s, steps[0], id);
      if t in s1.requests && !s1.requests[t].pc.Begin? {
        RequestsKeepBodies(s1, steps[1..], t);
        AnswerStands(s1, steps[1..], id, t);
      } else {
        ReplaysRecordedOutcome(s1, steps[1..], id, t);
      }
    }
  }

  lemma {:induction false} RequestsKeepBodies(s: State, steps: seq<Step>, t: nat)
    requires Possible(s, steps) && t in s.requests
    ensures t in Exec(s, steps).requests && Exec(s, steps).requests[t].body == s.requests[t].body
    decreases |steps|
  {
    if steps != [] { RequestsKeepBodies(Apply(s, steps[0]), steps[1..], t); }
  }

  lemma {:induction false} AnswerStands(s: State, steps: seq<Step>, id: string, t: nat)
    requires Inv(s) && Possible(s, steps) && LoadsSucceed(s, steps, id)
    requires Settled(s, id) && id in s.records && t in s.requests && s.requests[t].pc.Done?
    ensures var s' := Exec(s, steps);
            id in s'.records && s'.records[id] == s.records[id] && t in s'.requests && s'.requests[t] == s.requests[t]
    decreases |steps|
  {
    if steps != [] {
      InvStep(s, steps[0]);
      SettledStep(s, steps[0], id);
      AnswerStands(Apply(s, steps[0]), steps[1..], id, t);
    }
  }

  /** Idempotence: once any request has saved its record, every request of the same id that gets
      an answer from its own lookup on, along any continuation in which that record loads, gets
      the same answer. */
  lemma SavedOutcomeReplays(profile: Profile, records: map<string, Record>, before: seq<Step>, t: nat,
                            after: seq<Step>, u: nat)
    requires Possible(Start(profile, records), before)
    requires Enabled(Exec(Start(profile, records), before), Save(t, true))
    requires var s := Apply(Exec(Start(profile, records), before), Save(t, true));
             var id := s.requests[t].body.fields.requestId;
             && Possible(s, after) && LoadsSucceed(s, after, id)
             && (u in s.requests ==> s.requests[u].pc.Begin?)
             && var s' := Exec(s, after);
             u in s'.requests && s'.requests[u].body.fields.requestId == id && s'.requests[u].pc.Done?
    ensures var s := Apply(Exec(Start(profile, records), before), Save(t, true));
            Exec(s, after).requests[u].pc == s.requests[t].pc
  {
    StartInv(profile, records);
    InvExec(Start(profile, records), before);
    var s0 := Exec(Start(profile, records), before);
    SaveSettles(s0, t);
    InvStep(s0, Save(t, true));
    var s := Apply(s0, Save(t, true));
    ReplaysRecordedOutcome(s, after, s.requests[t].body.fields.requestId, u);
  }

  /** What the version check and the signature say of a request, as an outcome; a verified one
      succeeds. */
  function Answer(s: State, t: nat): Outcome
    requires t in s.requests
  {
    match Verdict(s.profile, s.requests[t].body)
    case Recording(o) => o
    case _ =>
      var kv := s.requests[t].body.fields.keyVersion;
      Success(Token(s.requests[t].device, kv), kv)
  }

  /** A request whose lookup fails and whose other accesses succeed. */
  function FailedLookup(s: State, t: nat): seq<Step>
    requires t in s.requests
  {
    [Load(t, false), Check(t, true)]
    + (if Verdict(s.profile, s.requests[t].body).Verified? then [WriteProfile(t, true, true)] else [])
    + [Save(t, true)]
  }

  lemma Unfold(s: State, step: Step, rest: seq<Step>)
    requires Enabled(s, step) && Possible(Apply(s, step), rest)
    ensures Possible(s, [step] + rest) && Exec(s, [step] + rest) == Exec(Apply(s, step), rest)
  {
    assert ([step] + rest)[1..] == rest;
  }

  lemma OneStep(s: State, step: Step)
    requires Enabled(s, step)
    ensures Possible(s, [step]) && Exec(s, [step]) == Apply(s, step)
  {
    Unfold(s, step, []);
    assert [step] + [] == [step];
  }

  /** From the check on. */
  lemma CheckedToSaved(s: State, t: nat)
    requires Running(s, t) && s.requests[t].pc.Missed?
    ensures var rest := FailedLookup(s, t)[1..];
            var b := s.requests[t].body;
            && Possible(s, rest)
            && Exec(s, rest).records == s.records[b.fields.requestId := ToRecord(Answer(s, t))]
            && Exec(s, rest).profile ==
                 if Verdict(s.profile, b).Verified? then Profile(b.fields.keyVersion, b.fields.authKey) else s.profile
  {
    var s1 := Apply(s, Check(t, true));
    var save := [Save(t, true)];
    if Verdict(s.profile, s.requests[t].body).Verified? {
      var s2 := Apply(s1, WriteProfile(t, true, true));
      OneStep(s2, Save(t, true));
      Unfold(s1, WriteProfile(t, true, true), save);
      Unfold(s, Check(t, true), [WriteProfile(t, true, true)] + save);
      assert FailedLookup(s, t)[1..] == [Check(t, true)] + ([WriteProfile(t, true, true)] + save);
    } else {
      OneStep(s1, Save(t, true));
      Unfold(s, Check(t, true), save);
      assert FailedLookup(s, t)[1..] == [Check(t, true)] + save;
    }
  }

  /** What the condition on loads is for: after a failed lookup a request is answered as if its id
      had never been seen, and that answer replaces the record. So the record survives if and only
      if it is what the version check and the signature say of the request now. */
  lemma FailedLoadOverwritesRecord(s: State, t: nat)
    requires Running(s, t) && s.requests[t].pc.Begin?
    ensures var id := s.requests[t].body.fields.requestId;
            var run := FailedLookup(s, t);
            && Possible(s, run) && id in Exec(s, run).records
            && Exec(s, run).records == s.records[id := ToRecord(Answer(s, t))]
            && FromRecord(Exec(s, run).records[id]) == Answer(s, t)
            && (id in s.records ==> (Exec(s, run).records == s.records <==> s.records[id] == ToRecord(Answer(s, t))))
  {
    var id := s.requests[t].body.fields.requestId;
    var s1 := Apply(s, Load(t, false));
    var rest := FailedLookup(s, t)[1..];
    assert FailedLookup(s1, t) == FailedLookup(s, t) == [Load(t, false)] + rest && Answer(s1, t) == Answer(s, t);
    CheckedToSaved(s1, t);
    Unfold(s, Load(t, false), rest);
    RecordRoundTrip(Answer(s, t));
    var after := s.records[id := ToRecord(Answer(s, t))];
    assert after[id] == ToRecord(Answer(s, t));
    assert id in s.records && s.records[id] == ToRecord(Answer(s, t)) ==> after == s.records;
  }

  /** The version an account is at; one from before versions is at 1. */
  function CurrentVersion(p: Profile): nat
  {
    if p.keyVersion == 0 then 1 else p.keyVersion
  }

  /** The body names the version after the stored one, on 32 bits. */
  predicate NamesNext(p: Profile, body: Body)
  {
    var current := CurrentVersion(p);
    body.fields.keyVersion == if current >= 4_294_967_295 then 0 else current + 1
  }

  /** The stored key signed exactly these fields. */
  predicate SignedByStored(p: Profile, body: Body)
  {
    body.signature.signer == p.authKey && body.signature.over == body.fields
  }

  /** The answer to a request that is not on record, by what it says and what is stored, and the
      profile it leaves. */
  ghost predicate Answered(before: Profile, body: Body, device: nat, answer: Option<Outcome>, after: Profile)
  {
    && (answer == Some(KeyVersionStale(CurrentVersion(before))) <==> !NamesNext(before, body))
    && (answer == Some(BadContinuity) <==> NamesNext(before, body) && !SignedByStored(before, body))
    && (if NamesNext(before, body) && SignedByStored(before, body) then
          && answer == Some(Success(Token(device, body.fields.keyVersion), body.fields.keyVersion))
          && after == Profile(body.fields.keyVersion, body.fields.authKey)
        else after == before)
  }

  /** What a request is answered whose lookup missed and whose reads and writes succeed. It is stale,
      with the stored version (0 read as 1), exactly when it does not name the next one; its
      continuity is bad exactly when it names the next one and the stored key did not sign its
      fields; otherwise it succeeds with this device's token at the new version, and the profile
      holds the new version and key. */
  lemma FreshAnswers(s: State, t: nat) returns (steps: seq<Step>)
    requires Running(s, t) && s.requests[t].pc.Missed?
    ensures Possible(s, steps)
    ensures var b, s' := s.requests[t].body, Exec(s, steps);
            && t in s'.requests && s'.requests[t].pc.Done?
            && Answered(s.profile, b, s.requests[t].device, Some(s'.requests[t].pc.outcome), s'.profile)
            && s'.records == s.records[b.fields.requestId := ToRecord(s'.requests[t].pc.outcome)]
  {
    var s1 := Apply(s, Check(t, true));
    var save := [Save(t, true)];
    if s1.requests[t].pc.Verified? {
      var s2 := Apply(s1, WriteProfile(t, true, true));
      OneStep(s2, Save(t, true));
      Unfold(s1, WriteProfile(t, true, true), save);
      Unfold(s, Check(t, true), [WriteProfile(t, true, true)] + save);
      steps := [Check(t, true)] + ([WriteProfile(t, true, true)] + save);
    } else {
      OneStep(s1, Save(t, true));
      Unfold(s, Check(t, true), save);
      steps := [Check(t, true)] + save;
    }
  }

  /** And a retry of a rotation that was applied gets a stale answer that way, over the recorded
      success, unless a whole cycle of versions has passed since. */
  lemma LostRecordGoesStale(profile: Profile, records: map<string, Record>, steps: seq<Step>, t: nat, i: nat)
    requires profile.keyVersion <= U32_MAX && Possible(Start(profile, records), steps)
    requires var s := Exec(Start(profile, records), steps);
             && Running(s, t) && s.requests[t].pc.Begin?
             && i < |s.applied| && s.applied[i] == s.requests[t].body && (|s.applied| - i) % U32_MAX != 0
    ensures var s := Exec(Start(profile, records), steps);
            var run := FailedLookup(s, t);
            && Possible(s, run)
            && Exec(s, run).records ==
                 s.records[s.requests[t].body.fields.requestId := ToRecord(KeyVersionStale(Current(s.profile)))]
            && Exec(s, run).profile == s.profile
  {
    RotationIsLinear(profile, records, steps);
    var s := Exec(Start(profile, records), steps);
    var first := Current(profile);
    if Next(VersionAfter(first, i)) == Next(VersionAfter(first, |s.applied|)) {
      SameVersionApart(first, i, |s.applied|);
    }
    assert s.requests[t].body.fields.keyVersion != Next(Current(s.profile));
    FailedLoadOverwritesRecord(s, t);
    FailedLookupProfile(s, t);
  }

  lemma FailedLookupProfile(s: State, t: nat)
    requires Running(s, t) && s.requests[t].pc.Begin? && Possible(s, FailedLookup(s, t))
    requires !Verdict(s.profile, s.requests[t].body).Verified?
    ensures Exec(s, FailedLookup(s, t)).profile == s.profile
  {
    var s1 := Apply(s, Load(t, false));
    var rest := FailedLookup(s, t)[1..];
    assert FailedLookup(s1, t) == FailedLookup(s, t) == [Load(t, false)] + rest;
    CheckedToSaved(s1, t);
    Unfold(s, Load(t, false), rest);
  }

  // ---- the handler ----

  lemma {:induction false} ExecAppend(s: State, trace: seq<Step>, step: Step)
    requires Possible(s, trace) && Enabled(Exec(s, trace), step)
    ensures Possible(s, trace + [step]) && Exec(s, trace + [step]) == Apply(Exec(s, trace), step)
    decreases |trace|
  {
    var longer := trace + [step];
    if trace == [] {
      assert longer[1..] == [] && longer[0] == step;
      assert Possible(Apply(s, step), longer[1..]) && Exec(Apply(s, step), longer[1..]) == Apply(s, step);
    } else {
      assert longer[1..] == trace[1..] + [step] && longer[0] == trace[0];
      ExecAppend(Apply(s, trace[0]), trace[1..], step);
    }
  }

  class Account {
    const mutex: M.Locks
    var profile: Profile
    var records: map<string, Record>
    ghost var st: State
    ghost var trace: seq<Step>
    ghost const start: State

    ghost predicate Valid()
      reads this, mutex
    {
      && mutex.Valid() && st.mutex == mutex.st && st.profile == profile && st.records == records
      && Possible(start, trace) && Exec(start, trace) == st
    }

    constructor (profile: Profile)
      ensures Valid() && st == Start(profile, map[]) && fresh(mutex)
    {
      mutex := new M.Locks();
      this.profile := profile;
      records := map[];
      start := Start(profile, map[]);
      st := Start(profile, map[]);
      trace := [];
    }

    /** An await inside request `t`: others take any number of steps, none of them `t`'s; when
        `quiet`, none. */
    method Await(ghost t: nat, quiet: bool)
      requires Valid()
      modifies this, mutex
      ensures Valid() && old(trace) <= trace
      ensures t in st.requests <==> t in old(st).requests
      ensures t in st.requests ==> st.requests[t] == old(st).requests[t]
      ensures t in st.mutex.tasks <==> t in old(st).mutex.tasks
      ensures t in st.mutex.tasks ==> st.mutex.tasks[t] == old(st).mutex.tasks[t]
      ensures quiet ==> st == old(st) && profile == old(profile) && records == old(records)
    {
    }

    /** Whether a store access succeeds is not up to the handler; when `quiet` it does. */
    method Works(quiet: bool) returns (ok: bool)
      ensures quiet ==> ok
    {
      ok := *;
      ok := ok || quiet;
    }

    ghost method Take(step: Step)
      requires Possible(start, trace) && Exec(start, trace) == st && Enabled(st, step)
      modifies this`st, this`trace
      ensures st == Apply(old(st), step) && trace == old(trace) + [step]
      ensures Possible(start, trace) && Exec(start, trace) == st
    {
      ExecAppend(start, trace, step);
      st := Apply(st, step);
      trace := trace + [step];
    }

    ghost predicate Mine(t: nat, body: Body, device: nat, sem: nat, pc: Pc)
      reads this, mutex
    {
      && Valid() && t in st.requests && st.requests[t] == Request(body, device, pc)
      && t in st.mutex.tasks && st.mutex.tasks[t] == M.Holding(UID, sem)
    }

    /** The handler: no answer means an internal error. Losing the lock race answers -1 and
        records nothing. With nothing in the way, a recorded id is answered from its record, and a
        new one by its version and its signature alone. */
    method Rotate(ghost t: nat, body: Body, device: nat, quiet: bool) returns (answer: Option<Outcome>)
      requires Valid() && t !in st.requests && t !in st.mutex.tasks
      modifies this, mutex
      ensures Valid() && old(trace) <= trace
      ensures t in st.requests && st.requests[t].body == body
      ensures match st.requests[t].pc
              case Begin => answer == Some(KeyVersionStale(-1))
              case Done(outcome) => answer == Some(outcome)
              case _ => answer == None
      ensures quiet && M.Unlocked(old(st).mutex, UID) && body.fields.requestId in old(records) ==>
                && answer == Some(FromRecord(old(records)[body.fields.requestId]))
                && profile == old(profile) && records == old(records)
      ensures quiet && M.Unlocked(old(st).mutex, UID) && body.fields.requestId !in old(records) ==>
                Answered(old(profile), body, device, answer, profile)
                && answer.Some? && records == old(records)[body.fields.requestId := ToRecord(answer.value)]
    {
      var granted, sem := Acquire(t, body, device, quiet);
      if !granted { return Some(KeyVersionStale(-1)); }
      ghost var pc;
      answer, pc := RotateLocked(t, body, device, sem, quiet);
      Unlock(t, body, device, sem, pc);
    }

    method Acquire(ghost t: nat, ghost body: Body, ghost device: nat, quiet: bool) returns (granted: bool, sem: nat)
      requires Valid() && t !in st.requests && t !in st.mutex.tasks
      modifies this, mutex
      ensures old(trace) <= trace
      ensures granted ==> Mine(t, body, device, sem, Begin)
      ensures !granted ==> Valid() && t in st.requests && st.requests[t] == Request(body, device, Begin)
      ensures quiet && M.Unlocked(old(st).mutex, UID) ==>
                granted && profile == old(profile) && records == old(records)
    {
      sem := Join(t, body, device, quiet);
      granted := mutex.GrantOrTimeOut(t, UID, sem);
      if granted {
        Take(Lock(M.Grant(t)));
      } else {
        Take(Lock(M.GiveUp(t)));
        Take(Lock(M.Leave(t)));
      }
    }

    /** First half of the acquire: join the slot and wait. */
    method Join(ghost t: nat, ghost body: Body, ghost device: nat, quiet: bool) returns (sem: nat)
      requires Valid() && t !in st.requests && t !in st.mutex.tasks
      modifies this, mutex
      ensures Valid() && old(trace) <= trace
      ensures t in st.requests && st.requests[t] == Request(body, device, Begin)
      ensures t in st.mutex.tasks && st.mutex.tasks[t] == M.Waiting(UID, sem)
      ensures quiet && M.Unlocked(old(st).mutex, UID) ==>
                !M.Occupied(st.mutex, sem) && profile == old(profile) && records == old(records)
    {
      if M.Unlocked(st.mutex, UID) { M.EnterUnlocked(st.mutex, t, UID); }
      sem := mutex.Enter(t, UID);
      Take(Arrive(t, body, device));
      Await(t, quiet);
    }

    method Unlock(ghost t: nat, ghost body: Body, ghost device: nat, sem: nat, ghost pc: Pc)
      requires Mine(t, body, device, sem, pc)
      modifies this, mutex
      ensures Valid() && old(trace) <= trace && profile == old(profile) && records == old(records)
      ensures t in st.requests && st.requests[t] == Request(body, device, pc)
    {
      mutex.DropGuard(t, UID, sem);
      Take(Lock(M.Drop(t)));
      Take(Lock(M.Release(t)));
    }

    method RotateLocked(ghost t: nat, body: Body, device: nat, ghost sem: nat, quiet: bool)
      returns (answer: Option<Outcome>, ghost pc: Pc)
      requires Mine(t, body, device, sem, Begin)
      modifies this, mutex
      ensures Mine(t, body, device, sem, pc) && old(trace) <= trace
      ensures match pc
              case Done(outcome) => answer == Some(outcome)
              case _ => answer == None && pc == Failed
      ensures quiet && body.fields.requestId in old(records) ==>
                && answer == Some(FromRecord(old(records)[body.fields.requestId]))
                && profile == old(profile) && records == old(records)
      ensures quiet && body.fields.requestId !in old(records) ==>
                Answered(old(profile), body, device, answer, profile)
                && answer.Some? && records == old(records)[body.fields.requestId := ToRecord(answer.value)]
    {
      var replay := Lookup(t, body, device, sem, quiet);
      if replay.Some? { return replay, Done(replay.value); }
      answer, pc := RotateFresh(t, body, device, sem, quiet);
    }

    /** Nothing recorded: check, write, record. */
    method RotateFresh(ghost t: nat, body: Body, device: nat, ghost sem: nat, quiet: bool)
      returns (answer: Option<Outcome>, ghost pc: Pc)
      requires Mine(t, body, device, sem, Missed)
      modifies this, mutex
      ensures Mine(t, body, device, sem, pc) && old(trace) <= trace
      ensures match pc
              case Done(outcome) => answer == Some(outcome)
              case _ => answer == None && pc == Failed
      ensures quiet ==>
                Answered(old(profile), body, device, answer, profile)
                && answer.Some? && records == old(records)[body.fields.requestId := ToRecord(answer.value)]
    {
      var verdict := CheckProfile(t, body, device, sem, quiet);
      match verdict {
        case Recording(outcome) =>
          SaveRecord(t, body, device, sem, outcome, quiet);
          return Some(outcome), Done(outcome);
        case Verified =>
          answer, pc := Commit(t, body, device, sem, quiet);
        case _ =>
          return None, Failed;
      }
    }

    /** The version precondition, then the continuity signature under the stored key. */
    method CheckProfile(ghost t: nat, body: Body, ghost device: nat, ghost sem: nat, quiet: bool) returns (verdict: Pc)
      requires Mine(t, body, device, sem, Missed)
      modifies this, mutex
      ensures Mine(t, body, device, sem, verdict) && old(trace) <= trace
      ensures verdict.Recording? || verdict.Verified? || verdict.Failed?
      ensures quiet ==> profile == old(profile) && records == old(records)
      ensures quiet ==>
                var current := CurrentVersion(old(profile));
                verdict == if !NamesNext(old(profile), body) then Recording(KeyVersionStale(current))
                           else if !SignedByStored(old(profile), body) then Recording(BadContinuity) else Verified
    {
      Await(t, quiet);
      var readable := Works(quiet);
      Take(Check(t, readable));
      if !readable { return Failed; }
      var current := Current(profile);
      if body.fields.keyVersion != Next(current) { return Recording(KeyVersionStale(current)); }
      if !Verifies(profile.authKey, body) { return Recording(BadContinuity); }
      verdict := Verified;
    }

    /** Idempotent replay; a load failure counts as a miss. */
    method Lookup(ghost t: nat, body: Body, ghost device: nat, ghost sem: nat, quiet: bool)
      returns (replay: Option<Outcome>)
      requires Mine(t, body, device, sem, Begin)
      modifies this, mutex
      ensures Mine(t, body, device, sem, if replay.Some? then Done(replay.value) else Missed) && old(trace) <= trace
      ensures quiet ==> profile == old(profile) && records == old(records)
      ensures quiet ==>
                replay == if body.fields.requestId in old(records)
                          then Some(FromRecord(old(records)[body.fields.requestId])) else None
    {
      Await(t, quiet);
      var loads := Works(quiet);
      Take(Load(t, loads));
      if loads && body.fields.requestId in records {
        replay := Some(FromRecord(records[body.fields.requestId]));
      } else {
        replay := None;
      }
    }

    /** Best-effort save of the outcome. */
    method SaveRecord(ghost t: nat, body: Body, ghost device: nat, ghost sem: nat, outcome: Outcome, quiet: bool)
      requires Mine(t, body, device, sem, Recording(outcome))
      modifies this, mutex
      ensures Mine(t, body, device, sem, Done(outcome)) && old(trace) <= trace
      ensures quiet ==>
                profile == old(profile) && records == old(records)[body.fields.requestId := ToRecord(outcome)]
    {
      Await(t, quiet);
      var saves := Works(quiet);
      Take(Save(t, saves));
      if saves { records := records[body.fields.requestId := ToRecord(outcome)]; }
    }

    method Commit(ghost t: nat, body: Body, device: nat, ghost sem: nat, quiet: bool)
      returns (answer: Option<Outcome>, ghost pc: Pc)
      requires Mine(t, body, device, sem, Verified)
      modifies this, mutex
      ensures Mine(t, body, device, sem, pc) && old(trace) <= trace
      ensures match pc
              case Done(outcome) => answer == Some(outcome)
              case _ => answer == None && pc == Failed
      ensures quiet ==>
                && profile == Profile(body.fields.keyVersion, body.fields.authKey)
                && answer == Some(Success(Token(device, body.fields.keyVersion), body.fields.keyVersion))
                && records == old(records)[body.fields.requestId := ToRecord(answer.value)]
    {
      var ok := Overwrite(t, body, device, sem, quiet);
      if !ok { return None, Failed; }
      var outcome := Success(Token(device, body.fields.keyVersion), body.fields.keyVersion);
      SaveRecord(t, body, device, sem, outcome, quiet);
      return Some(outcome), Done(outcome);
    }

    /** The profile write; one that fails may have landed. */
    method Overwrite(ghost t: nat, body: Body, ghost device: nat, ghost sem: nat, quiet: bool) returns (ok: bool)
      requires Mine(t, body, device, sem, Verified)
      modifies this, mutex
      ensures var renewed := Success(Token(device, body.fields.keyVersion), body.fields.keyVersion);
              Mine(t, body, device, sem, if ok then Recording(renewed) else Failed)
      ensures old(trace) <= trace
      ensures quiet ==>
                ok && profile == Profile(body.fields.keyVersion, body.fields.authKey) && records == old(records)
    {
      Await(t, quiet);
      ok := Works(quiet);
      var lands: bool := *;
      lands := ok || lands;
      Take(WriteProfile(t, ok, lands));
      if lands { profile := Profile(body.fields.keyVersion, body.fields.authKey); }
    }
  }
}
