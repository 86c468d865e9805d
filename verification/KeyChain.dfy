/** The backup-key chain: rotations that append a link before they commit, and the memoized
    walk back along a chain that may hold more than one link per hop. Encryption is ideal: a
    link opens under the key it was made with and under no other. */
module KeyChain {
  import opened Wrappers

  type Key = nat

  /** One hop: the older key `wraps` encrypted under the newer key `under`. */
  datatype Link = Link(from: int, to: int, under: Key, wraps: Key)

  function Open(link: Link, key: Key): Option<Key>
  {
    if link.under == key then Some(link.wraps) else None
  }

  predicate ForHop(link: Link, version: int)
  {
    link.to == version && link.from == version - 1
  }

  // ---- the chain and the committed keys ----

  /** `keys[v - 1]` is the backup key of committed version `v`. Hop `v` is good when some link
      for it opens under version `v`'s key and wraps the previous one. */
  ghost predicate GoodHop(links: seq<Link>, keys: seq<Key>, v: int)
    requires 2 <= v <= |keys|
  {
    Link(v - 1, v, keys[v - 1], keys[v - 2]) in links
  }

  ghost predicate GoodChain(links: seq<Link>, keys: seq<Key>)
  {
    forall v :: 2 <= v <= |keys| ==> GoodHop(links, keys, v)
  }

  /** Every link wraps the committed key of the version it comes from. */
  ghost predicate Honest(links: seq<Link>, keys: seq<Key>)
  {
    forall l :: l in links ==> 1 <= l.from <= |keys| && l.to == l.from + 1 && l.wraps == keys[l.from - 1]
  }

  // ---- appending ----

  function WithoutHop(links: seq<Link>, from: int, to: int): seq<Link>
  {
    if links == [] then []
    else
      var n := |links| - 1;
      WithoutHop(links[..n], from, to) + (if links[n].from == from && links[n].to == to then [] else [links[n]])
  }

  lemma {:induction false} WithoutHopKeeps(links: seq<Link>, from: int, to: int)
    ensures forall l :: l in WithoutHop(links, from, to) <==> l in links && !(l.from == from && l.to == to)
  {
    if links != [] {
      var n := |links| - 1;
      WithoutHopKeeps(links[..n], from, to);
      assert forall l :: l in links <==> l in links[..n] || l == links[n];
    }
  }

  lemma WithoutHopStep(links: seq<Link>, i: nat, from: int, to: int)
    requires i < |links|
    ensures WithoutHop(links[..i + 1], from, to)
         == WithoutHop(links[..i], from, to) + (if links[i].from == from && links[i].to == to then [] else [links[i]])
  {
    assert links[..i + 1][..i] == links[..i] && links[..i + 1][i] == links[i];
  }

  /** Read the chain (a failed read counts as an empty chain), drop same-hop links, push. */
  function Appended(links: seq<Link>, link: Link, readable: bool): seq<Link>
  {
    WithoutHop(if readable then links else [], link.from, link.to) + [link]
  }

  method AppendChainLink(stored: seq<Link>, link: Link, readable: bool) returns (body: seq<Link>)
    ensures body == Appended(stored, link, readable)
  {
    var current := if readable then stored else [];
    body := [];
    var i := 0;
    while i < |current|
      invariant i <= |current|
      invariant body == WithoutHop(current[..i], link.from, link.to)
    {
      WithoutHopStep(current, i, link.from, link.to);
      if !(current[i].from == link.from && current[i].to == link.to) {
        body := body + [current[i]];
      }
      i := i + 1;
    }
    assert current[..i] == current;
    body := body + [link];
  }

  /** Exactly when an append keeps a good chain good: the chain was read and the link is for a
      hop not yet committed (or opens the committed one); or there was nothing else to lose. */
  lemma AppendKeepsChain(links: seq<Link>, keys: seq<Key>, link: Link, readable: bool)
    requires GoodChain(links, keys) && Honest(links, keys) && Honest([link], keys)
    ensures var opens := link.to <= |keys| && link.under == keys[link.to - 1];
            GoodChain(Appended(links, link, readable), keys) <==>
              if readable then link.to > |keys| || opens
              else |keys| <= 1 || (|keys| == 2 && link.to == 2 && opens)
  {
    assert link in [link];
    WithoutHopKeeps(if readable then links else [], link.from, link.to);
    var after := Appended(links, link, readable);
    var opens := link.to <= |keys| && link.under == keys[link.to - 1];
    assert forall l :: l in after <==>
      l == link || (readable && l in links && !(l.from == link.from && l.to == link.to));
    if readable {
      if link.to > |keys| || opens {
        forall v | 2 <= v <= |keys| ensures GoodHop(after, keys, v) { assert GoodHop(links, keys, v); }
      } else {
        assert !GoodHop(after, keys, link.to);
      }
    } else if |keys| >= 2 {
      assert GoodHop(after, keys, 2) <==> link.to == 2 && opens;
      assert |keys| >= 3 ==> !GoodHop(after, keys, 2) || !GoodHop(after, keys, 3);
    }
  }

  /** Exactly when a commit keeps it good: the committing attempt's own link is still there. */
  lemma CommitKeepsChain(links: seq<Link>, keys: seq<Key>, newKey: Key)
    requires GoodChain(links, keys) && |keys| >= 1
    ensures GoodChain(links, keys + [newKey]) <==>
              Link(|keys|, |keys| + 1, newKey, keys[|keys| - 1]) in links
  {
    var after := keys + [newKey];
    assert forall v :: 2 <= v <= |keys| ==> (GoodHop(links, after, v) <==> GoodHop(links, keys, v));
    assert GoodHop(links, after, |keys| + 1) <==> Link(|keys|, |keys| + 1, newKey, keys[|keys| - 1]) in links;
  }

  /** The next hop's link keeps the chain good if it was read, or there was no hop to lose. */
  lemma AppendKeepsSound(links: seq<Link>, keys: seq<Key>, link: Link, readable: bool)
    requires |keys| >= 1 && GoodChain(links, keys) && Honest(links, keys)
    requires link.from == |keys| && link.to == |keys| + 1 && link.wraps == keys[|keys| - 1]
    ensures var after := Appended(links, link, readable);
            link in after && Honest(after, keys) && (GoodChain(after, keys) <==> readable || |keys| == 1)
  {
    assert forall l :: l in [link] ==> l == link;
    AppendKeepsChain(links, keys, link, readable);
    WithoutHopKeeps(if readable then links else [], link.from, link.to);
  }

  /** Committing a version whose link is stored neither mends nor breaks the chain. */
  lemma CommitKeepsSound(links: seq<Link>, keys: seq<Key>, newKey: Key)
    requires |keys| >= 1 && Honest(links, keys)
    requires Link(|keys|, |keys| + 1, newKey, keys[|keys| - 1]) in links
    ensures Honest(links, keys + [newKey])
    ensures GoodChain(links, keys + [newKey]) <==> GoodChain(links, keys)
  {
    var after := keys + [newKey];
    assert forall v :: 2 <= v <= |keys| ==> (GoodHop(links, after, v) <==> GoodHop(links, keys, v));
    assert GoodHop(links, after, |keys| + 1);
  }

  // ---- rotation attempts ----

  datatype Attempt = Attempt(version: nat, oldKey: Key, newKey: Key, appended: bool)

  datatype State = State(keys: seq<Key>, links: seq<Link>, attempts: map<nat, Attempt>)

  /** Each step may be the attempt's last: a failed append or commit is simply not taken. */
  datatype Step =
    | Begin(a: nat, newKey: Key)              // read the profile, check the password, derive keys
    | Append(a: nat, readable: bool)          // build and append the chain link
    | Commit(a: nat)                          // the server accepts the request

  ghost predicate Enabled(s: State, step: Step)
  {
    match step
    case Begin(a, _) => a !in s.attempts && |s.keys| >= 1
    case Append(a, _) => a in s.attempts && !s.attempts[a].appended
    case Commit(a) =>   // version precondition and continuity signature
      a in s.attempts && s.attempts[a].appended
      && s.attempts[a].version == |s.keys| && |s.keys| >= 1 && s.attempts[a].oldKey == s.keys[|s.keys| - 1]
  }

  function LinkOf(a: Attempt): Link
  {
    Link(a.version, a.version + 1, a.newKey, a.oldKey)
  }

  ghost function Apply(s: State, step: Step): State
    requires Enabled(s, step)
  {
    match step
    case Begin(a, newKey) =>
      s.(attempts := s.attempts[a := Attempt(|s.keys|, s.keys[|s.keys| - 1], newKey, false)])
    case Append(a, readable) =>
      var at := s.attempts[a];
      s.(links := Appended(s.links, LinkOf(at), readable), attempts := s.attempts[a := at.(appended := true)])
    case Commit(a) => s.(keys := s.keys + [s.attempts[a].newKey])
  }

  ghost predicate Possible(s: State, steps: seq<Step>)
    decreases |steps|
  {
    steps == [] || (Enabled(s, steps[0]) && Possible(Apply(s, steps[0]), steps[1..]))
  }

  ghost function Exec(s: State, steps: seq<Step>): State
    requires Possible(s, steps)
    decreases |steps|
  {
    if steps == [] then s else Exec(Apply(s, steps[0]), steps[1..])
  }

  /** No attempt acts again once another has begun, and chain reads succeed. */
  ghost predicate NonOverlapping(current: Option<nat>, steps: seq<Step>)
    decreases |steps|
  {
    steps == [] ||
    (if steps[0].Begin? then NonOverlapping(Some(steps[0].a), steps[1..])
     else current == Some(steps[0].a) && (steps[0].Append? ==> steps[0].readable)
          && NonOverlapping(current, steps[1..]))
  }

  /** The attempt now acting started from the committed version, unless it has committed. */
  ghost predicate Inv(s: State, current: Option<nat>)
  {
    && |s.keys| >= 1 && GoodChain(s.links, s.keys) && Honest(s.links, s.keys)
    && (current.Some? ==> current.value in s.attempts && AttemptInv(s, s.attempts[current.value]))
  }

  ghost predicate AttemptInv(s: State, at: Attempt)
  {
    && 1 <= at.version <= |s.keys| && at.oldKey == s.keys[at.version - 1]
    && (at.appended && at.version == |s.keys| ==> LinkOf(at) in s.links)
    && (!at.appended ==> at.version == |s.keys|)
  }

  lemma InvStep(s: State, current: Option<nat>, step: Step)
    requires Inv(s, current) && Enabled(s, step)
    requires step.Begin? || (current == Some(step.a) && (step.Append? ==> step.readable))
    ensures Inv(Apply(s, step), if step.Begin? then Some(step.a) else current)
  {
    if step.Append? {
      var link := LinkOf(s.attempts[step.a]);
      AppendKeepsChain(s.links, s.keys, link, true);
      WithoutHopKeeps(s.links, link.from, link.to);
    } else if step.Commit? {
      CommitKeepsChain(s.links, s.keys, s.attempts[step.a].newKey);
    }
  }

  lemma {:induction false} InvExec(s: State, current: Option<nat>, steps: seq<Step>)
    requires Inv(s, current) && Possible(s, steps) && NonOverlapping(current, steps)
    ensures GoodChain(Exec(s, steps).links, Exec(s, steps).keys)
    ensures Honest(Exec(s, steps).links, Exec(s, steps).keys) && |Exec(s, steps).keys| >= 1
    decreases |steps|
  {
    if steps != [] {
      InvStep(s, current, steps[0]);
      InvExec(Apply(s, steps[0]), if steps[0].Begin? then Some(steps[0].a) else current, steps[1..]);
    }
  }

  function NewAccount(first: Key): State
  {
    State([first], [], map[])
  }

  /** Rotation never breaks the chain: over any sequence of non-overlapping attempts, each
      dying before the append, after it, or after the commit, every hop up to the committed
      version has a link that opens under that version's key and wraps the previous one. */
  lemma RotationKeepsChain(first: Key, steps: seq<Step>)
    requires Possible(NewAccount(first), steps) && NonOverlapping(None, steps)
    ensures var s := Exec(NewAccount(first), steps); GoodChain(s.links, s.keys)
  {
    InvExec(NewAccount(first), None, steps);
  }

  lemma Unfold(s: State, step: Step, rest: seq<Step>)
    requires Enabled(s, step) && Possible(Apply(s, step), rest)
    ensures Possible(s, [step] + rest) && Exec(s, [step] + rest) == Exec(Apply(s, step), rest)
  {
    assert ([step] + rest)[1..] == rest;
  }

  lemma FiveSteps(s: State, s1: State, s2: State, s3: State, s4: State, e0: Step, e1: Step, e2: Step, e3: Step,
                  e4: Step)
    requires Enabled(s, e0) && s1 == Apply(s, e0)
    requires Enabled(s1, e1) && s2 == Apply(s1, e1)
    requires Enabled(s2, e2) && s3 == Apply(s2, e2)
    requires Enabled(s3, e3) && s4 == Apply(s3, e3)
    requires Enabled(s4, e4)
    ensures Possible(s, [e0, e1, e2, e3, e4]) && Exec(s, [e0, e1, e2, e3, e4]) == Apply(s4, e4)
  {
    Unfold(s4, e4, []);
    Unfold(s3, e3, [e4]);
    Unfold(s2, e2, [e3, e4]);
    Unfold(s1, e1, [e2, e3, e4]);
    Unfold(s, e0, [e1, e2, e3, e4]);
    assert [e4] + [] == [e4] && [e3] + [e4] == [e3, e4] && [e2] + [e3, e4] == [e2, e3, e4];
    assert [e1] + [e2, e3, e4] == [e1, e2, e3, e4] && [e0] + [e1, e2, e3, e4] == [e0, e1, e2, e3, e4];
  }

  /** Without non-overlap it does break. From any sound account: two devices begin, one appends
      and commits, and the other's late append replaces the link the committed hop needs, unless
      both derived the very same key. */
  lemma OverlapBreaksChain(s: State, a: nat, b: nat, newA: Key, newB: Key)
    requires Inv(s, None) && a !in s.attempts && b !in s.attempts && a != b
    ensures var steps := [Begin(a, newA), Begin(b, newB), Append(b, true), Commit(b), Append(a, true)];
            && Possible(s, steps)
            && Exec(s, steps).keys == s.keys + [newB]
            && (GoodChain(Exec(s, steps).links, s.keys + [newB]) <==> newA == newB)
  {
    var s1 := Apply(s, Begin(a, newA));
    var s2 := Apply(s1, Begin(b, newB));
    var s3 := Apply(s2, Append(b, true));
    var s4 := Apply(s3, Commit(b));
    FiveSteps(s, s1, s2, s3, s4, Begin(a, newA), Begin(b, newB), Append(b, true), Commit(b), Append(a, true));
    LateAppend(s.links, s.keys, newA, newB);
  }

  lemma LateAppend(links: seq<Link>, keys: seq<Key>, newA: Key, newB: Key)
    requires |keys| >= 1 && GoodChain(links, keys) && Honest(links, keys)
    ensures var n, old_ := |keys|, keys[|keys| - 1];
            var first := Appended(links, Link(n, n + 1, newB, old_), true);
            GoodChain(Appended(first, Link(n, n + 1, newA, old_), true), keys + [newB]) <==> newA == newB
  {
    var n, old_ := |keys|, keys[|keys| - 1];
    var linkA, linkB := Link(n, n + 1, newA, old_), Link(n, n + 1, newB, old_);
    AppendKeepsSound(links, keys, linkB, true);
    var first := Appended(links, linkB, true);
    CommitKeepsSound(first, keys, newB);
    assert forall l :: l in [linkA] ==> l == linkA;
    AppendKeepsChain(first, keys + [newB], linkA, true);
  }

  // ---- the client's side of one rotation ----

  /** Where a submit dies, if anywhere; a write that fails may have been applied, and the reply
      counts as lost too when the new session cannot be saved. */
  datatype Fault = NoFault | ProfileFails | DeriveFails | AppendFails(applied: bool) | RequestLost | ReplyLost

  predicate Appends(fault: Fault)
  {
    match fault
    case ProfileFails => false
    case DeriveFails => false
    case AppendFails(applied) => applied
    case _ => true
  }

  predicate Commits(fault: Fault)
  {
    fault.NoFault? || fault.ReplyLost?
  }

  datatype Submitted = Rotated(version: nat) | WrongPassword | RotationFailed

  class Account {
    var keys: seq<Key>      // committed keys; the last one is the current password's
    var links: seq<Link>    // the stored chain

    constructor (first: Key)
      ensures keys == [first] && Sound()
    {
      keys, links := [first], [];
    }

    ghost predicate Sound()
      reads this
    {
      |keys| >= 1 && GoodChain(links, keys) && Honest(links, keys)
    }

    /** Verify the current password, append the link, and only then commit. The chain stays
        sound in every case but one: its read fails and there was a hop to lose. */
    method Submit(passwordKey: Key, newKey: Key, readable: bool, fault: Fault) returns (outcome: Submitted)
      requires Sound()
      modifies this
      ensures var n := |old(keys)|;
              var right := passwordKey == old(keys)[n - 1];
              && (outcome == WrongPassword <==> !right && !fault.ProfileFails?)
              && (right && Appends(fault) ==>
                    links == Appended(old(links), Link(n, n + 1, newKey, passwordKey), readable))
              && (!(right && Appends(fault)) ==> links == old(links))
              && keys == old(keys) + (if right && Commits(fault) then [newKey] else [])
              && (outcome == Rotated(n + 1) <==> right && fault.NoFault?)
              && (Sound() <==> readable || n == 1 || !right || !Appends(fault))
    {
      if fault.ProfileFails? { return RotationFailed; }
      var currentKV := |keys|;
      var oldKey := passwordKey;
      if oldKey != keys[currentKV - 1] { return WrongPassword; }
      if fault.DeriveFails? { return RotationFailed; }
      var newKV := currentKV + 1;
      var link := Link(currentKV, newKV, newKey, oldKey);
      AppendKeepsSound(links, keys, link, readable);
      if fault.AppendFails? && !fault.applied { return RotationFailed; }
      links := AppendChainLink(links, link, readable);
      if fault.AppendFails? || fault.RequestLost? { return RotationFailed; }
      CommitKeepsSound(links, keys, newKey);
      keys := keys + [newKey];
      outcome := if fault.ReplyLost? then RotationFailed else Rotated(newKV);
    }
  }

  // ---- the walk ----

  datatype WalkError = TargetNewer | MissingLink(version: int) | NoLinkDecrypts(version: int)

  /** The first link for this hop that opens. */
  function FirstOpening(links: seq<Link>, version: int, key: Key): Option<Key>
  {
    if links == [] then None
    else if ForHop(links[0], version) && Open(links[0], key).Some? then Open(links[0], key)
    else FirstOpening(links[1..], version, key)
  }

  predicate HasCandidate(links: seq<Link>, version: int)
  {
    exists i :: 0 <= i < |links| && ForHop(links[i], version)
  }

  datatype Walk = Walk(result: Result<Key, WalkError>, memo: map<int, Key>)

  function WalkFrom(memo: map<int, Key>, key: Key, version: int, target: int, links: seq<Link>): Walk
    decreases version - target
  {
    if version <= target then Walk(Ok(key), memo)
    else if version - 1 in memo then WalkFrom(memo, memo[version - 1], version - 1, target, links)
    else match FirstOpening(links, version, key)
      case Some(prev) => WalkFrom(memo[version - 1 := prev], prev, version - 1, target, links)
      case None =>
        Walk(Err(if HasCandidate(links, version) then NoLinkDecrypts(version) else MissingLink(version)), memo)
  }

  class KeyStore {
    var memo: map<int, Key>   // backup keys by version

    constructor ()
      ensures memo == map[]
    {
      memo := map[];
    }

    /** Tries each candidate link in turn. */
    method TryCandidates(links: seq<Link>, version: int, key: Key) returns (found: bool, prev: Option<Key>)
      ensures found == HasCandidate(links, version)
      ensures prev == FirstOpening(links, version, key)
      ensures prev.Some? ==> found
    {
      found, prev := false, None;
      var i := 0;
      while i < |links|
        invariant i <= |links|
        invariant found <==> exists j :: 0 <= j < i && ForHop(links[j], version)
        invariant prev.None? && FirstOpening(links, version, key) == FirstOpening(links[i..], version, key)
      {
        assert links[i..][0] == links[i] && links[i..][1..] == links[i + 1..];
        if ForHop(links[i], version) {
          found := true;
          prev := Open(links[i], key);
          if prev.Some? { return; }
        }
        i := i + 1;
      }
    }

    method ResolveBackupKey(currentKey: Key, currentVersion: int, targetVersion: int, links: seq<Link>)
      returns (result: Result<Key, WalkError>)
      modifies this
      ensures targetVersion == currentVersion ==> result == Ok(currentKey) && memo == old(memo)
      ensures targetVersion > currentVersion ==> result == Err(TargetNewer) && memo == old(memo)
      ensures targetVersion < currentVersion && targetVersion in old(memo) ==>
                result == Ok(old(memo)[targetVersion]) && memo == old(memo)
      ensures targetVersion < currentVersion && targetVersion !in old(memo) ==>
                Walk(result, memo) == WalkFrom(old(memo), currentKey, currentVersion, targetVersion, links)
    {
      if targetVersion == currentVersion { return Ok(currentKey); }
      if targetVersion > currentVersion { return Err(TargetNewer); }
      if targetVersion in memo { return Ok(memo[targetVersion]); }
      var key, version := currentKey, currentVersion;
      while version > targetVersion
        invariant targetVersion <= version
        invariant WalkFrom(old(memo), currentKey, currentVersion, targetVersion, links)
               == WalkFrom(memo, key, version, targetVersion, links)
      {
        if version - 1 in memo {
          key := memo[version - 1];
          version := version - 1;
          continue;
        }
        var found, prevKey := TryCandidates(links, version, key);
        if !found { return Err(MissingLink(version)); }
        if prevKey.None? { return Err(NoLinkDecrypts(version)); }
        memo := memo[version - 1 := prevKey.value];
        key := prevKey.value;
        version := version - 1;
      }
      result := Ok(key);
    }
  }

  /** A memo holding any subset of versions, each with its committed key. */
  ghost predicate Consistent(memo: map<int, Key>, keys: seq<Key>)
  {
    forall v :: v in memo ==> 1 <= v <= |keys| && memo[v] == keys[v - 1]
  }

  /** A hop can be made: its older key is memoized, or some link for it opens. */
  ghost predicate Passable(memo: map<int, Key>, links: seq<Link>, keys: seq<Key>, v: int)
    requires 2 <= v <= |keys|
  {
    v - 1 in memo || GoodHop(links, keys, v)
  }

  /** Stray links may wrap anything, but one that opens under a committed key was made with it,
      and wraps the committed key before. */
  ghost predicate OpensHonestly(links: seq<Link>, keys: seq<Key>)
  {
    forall l :: l in links && 2 <= l.to <= |keys| && ForHop(l, l.to) && l.under == keys[l.to - 1] ==>
      l.wraps == keys[l.to - 2]
  }

  /** The walk stopped at hop `v`, the newest one it cannot pass, and says why. */
  ghost predicate StopsAt(w: Walk, memo: map<int, Key>, links: seq<Link>, keys: seq<Key>, version: int, v: int)
    requires 2 <= v <= version <= |keys|
  {
    && !Passable(memo, links, keys, v) && (forall u :: v < u <= version ==> Passable(memo, links, keys, u))
    && w.result == Err(if exists l :: l in links && l.from == v - 1 && l.to == v then NoLinkDecrypts(v)
                       else MissingLink(v))
  }

  lemma {:induction false} FirstOpeningOf(links: seq<Link>, keys: seq<Key>, v: int)
    requires OpensHonestly(links, keys) && 2 <= v <= |keys|
    ensures FirstOpening(links, v, keys[v - 1]) == if GoodHop(links, keys, v) then Some(keys[v - 2]) else None
  {
    if links != [] {
      assert links[0] in links;
      assert forall l :: l in links <==> l == links[0] || l in links[1..];
      FirstOpeningOf(links[1..], keys, v);
    }
  }

  lemma CandidateLink(links: seq<Link>, v: int)
    ensures HasCandidate(links, v) <==> exists l :: l in links && l.from == v - 1 && l.to == v
  {
    if HasCandidate(links, v) {
      var i :| 0 <= i < |links| && ForHop(links[i], v);
      assert links[i] in links;
    }
  }

  /** The walk from a committed key: it succeeds exactly when every hop down to the target is
      passable, then yields exactly the target version's key; whatever stray links the chain
      holds, it leaves the memo consistent and forgets nothing. */
  lemma {:induction false} WalkCorrect(memo: map<int, Key>, keys: seq<Key>, version: int, target: int, links: seq<Link>)
    requires 1 <= target <= version <= |keys|
    requires OpensHonestly(links, keys) && Consistent(memo, keys)
    ensures var w := WalkFrom(memo, keys[version - 1], version, target, links);
            && (w.result.Ok? <==> forall v :: target < v <= version ==> Passable(memo, links, keys, v))
            && (w.result.Ok? ==> w.result == Ok(keys[target - 1]))
            && (w.result.Ok? ==> forall v :: target <= v < version ==> v in w.memo)
            && (w.result.Err? ==> exists v :: target < v <= version && StopsAt(w, memo, links, keys, version, v))
            && Consistent(w.memo, keys) && memo.Keys <= w.memo.Keys
    decreases version - target
  {
    if version > target {
      FirstOpeningOf(links, keys, version);
      var memo' := memo[version - 1 := keys[version - 2]];
      if Passable(memo, links, keys, version) {
        var m := if version - 1 in memo then memo else memo';
        WalkCorrect(m, keys, version - 1, target, links);
        assert forall v :: target < v < version ==> (Passable(m, links, keys, v) <==> Passable(memo, links, keys, v));
        var w := WalkFrom(m, keys[version - 2], version - 1, target, links);
        if w.result.Err? {
          var v :| target < v <= version - 1 && StopsAt(w, m, links, keys, version - 1, v);
          assert StopsAt(w, memo, links, keys, version, v);
        }
      } else {
        CandidateLink(links, version);
        assert StopsAt(WalkFrom(memo, keys[version - 1], version, target, links), memo, links, keys, version, version);
      }
    }
  }

  /** Composition: after any run of non-overlapping rotations every older key is recoverable,
      from any consistent memo, whatever orphaned links failed attempts left behind. */
  lemma HistoryStaysReadable(first: Key, steps: seq<Step>, memo: map<int, Key>, target: int)
    requires Possible(NewAccount(first), steps) && NonOverlapping(None, steps)
    requires var keys := Exec(NewAccount(first), steps).keys; Consistent(memo, keys) && 1 <= target <= |keys|
    ensures var s := Exec(NewAccount(first), steps);
            var w := WalkFrom(memo, s.keys[|s.keys| - 1], |s.keys|, target, s.links);
            w.result == Ok(s.keys[target - 1]) && Consistent(w.memo, s.keys)
  {
    InvExec(NewAccount(first), None, steps);
    var s := Exec(NewAccount(first), steps);
    WalkCorrect(memo, s.keys, |s.keys|, target, s.links);
  }
}
