/** Lock-free compaction of one inbox as a state machine: sends and any number of compaction
    runs interleave store access by store access, and a run may stop after any of them.
    Live objects are keyed by what follows `inbox/{uid}/live/`, archives by what follows
    `inbox/{uid}/archive/`; all keys under one prefix compare as these suffixes do. */
module Compaction {
  import opened Wrappers
  import opened Cbor

  datatype Archive = Archive(key: string, entries: seq<Value>)

  /** The local variables of one run of the handler. `output` is the position in the log of
      the archive it has written. */
  datatype Run = Run(
    toCompact: seq<string>, readLive: nat, newObjects: seq<Value>,
    listed: seq<string>, readArchives: nat, existing: seq<Value>,
    output: Option<nat>)

  /** `puts` logs every archive ever written, in order; `sent` every envelope ever accepted. */
  datatype State = State(
    live: map<string, Value>, archives: map<string, seq<Value>>,
    puts: seq<Archive>, sent: set<Value>, runs: map<nat, Run>)

  datatype Step =
    | Send(envelope: Value)
    | Start(r: nat)
    | ListLive(r: nat, keys: seq<string>)
    | GetLive(r: nat)
    | ListArchives(r: nat, keys: seq<string>)
    | GetArchive(r: nat)
    | PutArchive(r: nat, key: string)
    | DeleteLive(r: nat, key: string)
    | DeleteArchive(r: nat, key: string)

  const FreshRun := Run([], 0, [], [], 0, [], None)

  const Init := State(map[], map[], [], {}, map[])

  ghost predicate WasPut(s: State, key: string)
  {
    exists p :: 0 <= p < |s.puts| && s.puts[p].key == key
  }

  ghost predicate Enabled(s: State, step: Step)
  {
    match step
    case Send(v) => MsgId(v).Some?
    case Start(r) => r !in s.runs
    case ListLive(r, keys) =>
      r in s.runs && var run := s.runs[r];
      run.readLive == 0 && run.listed == [] && run.output.None? && forall k :: k in keys ==> k in s.live
    case GetLive(r) =>
      r in s.runs && var run := s.runs[r];
      run.readLive < |run.toCompact| && run.listed == [] && run.output.None?
    case ListArchives(r, keys) =>
      r in s.runs && var run := s.runs[r];
      0 < |run.toCompact| == run.readLive && run.readArchives == 0 && run.output.None?
      && forall k :: k in keys ==> k in s.archives
    case GetArchive(r) =>
      r in s.runs && var run := s.runs[r];
      0 < |run.toCompact| == run.readLive && run.readArchives < |run.listed| && run.output.None?
    case PutArchive(r, key) =>
      r in s.runs && var run := s.runs[r];
      0 < |run.toCompact| == run.readLive && run.readArchives == |run.listed| && run.output.None?
      && !WasPut(s, key)   // a fresh ULID
    case DeleteLive(r, key) => r in s.runs && s.runs[r].output.Some? && key in s.runs[r].toCompact
    case DeleteArchive(r, key) => r in s.runs && s.runs[r].output.Some? && key in s.runs[r].listed
  }

  /** What one run remembers after the step it takes. */
  function Advance(s: State, step: Step, run: Run): Run
    requires step.GetLive? ==> run.readLive < |run.toCompact|
    requires step.GetArchive? ==> run.readArchives < |run.listed|
  {
    match step
    case ListLive(_, keys) => run.(toCompact := run.toCompact + keys)
    case GetLive(_) =>
      var key := run.toCompact[run.readLive];
      run.(readLive := run.readLive + 1,
           newObjects := if key in s.live then run.newObjects + [s.live[key]] else run.newObjects)
    case ListArchives(_, keys) => run.(listed := run.listed + keys)
    case GetArchive(_) =>
      var key := run.listed[run.readArchives];
      run.(readArchives := run.readArchives + 1,
           existing := if key in s.archives then run.existing + s.archives[key] else run.existing)
    case PutArchive(_, _) => run.(output := Some(|s.puts|))
    case _ => run
  }

  function Merged(run: Run): seq<Value>
  {
    Dedup(run.existing + run.newObjects)
  }

  ghost function Apply(s: State, step: Step): State
    requires Enabled(s, step)
  {
    match step
    case Send(v) => s.(live := s.live[MsgId(v).value := v], sent := s.sent + {v})
    case Start(r) => s.(runs := s.runs[r := FreshRun])
    case PutArchive(r, key) =>
      var entries := Merged(s.runs[r]);
      s.(archives := s.archives[key := entries], puts := s.puts + [Archive(key, entries)],
         runs := s.runs[r := Advance(s, step, s.runs[r])])
    case DeleteLive(r, key) => s.(live := s.live - {key})
    case DeleteArchive(r, key) => s.(archives := s.archives - {key})
    case _ => s.(runs := s.runs[step.r := Advance(s, step, s.runs[step.r])])
  }

  ghost predicate Possible(s: State, steps: seq<Step>)
    decreases |steps|
  {
    steps == [] || (Enabled(s, steps[0]) && Possible(Apply(s, steps[0]), steps[1..]))
  }

  ghost function Exec(s: State, steps: seq<Step>): State
    requires Possible(s, steps)
    decreases |steps|
  {
    if steps == [] then s else Exec(Apply(s, steps[0]), steps[1..])
  }

  // ---- what is conserved ----

  ghost predicate Archived(s: State, id: string)
  {
    exists k :: k in s.archives && id in IdsOf(s.archives[k])
  }

  ghost predicate OnServer(s: State, id: string)
  {
    id in s.live || Archived(s, id)
  }

  // ---- the invariant ----

  ghost predicate LogInv(s: State)
  {
    && (forall p, q :: 0 <= p < q < |s.puts| ==> s.puts[p].key != s.puts[q].key)
    && (forall k :: k in s.archives ==> Logged(s, k))
  }

  ghost predicate Logged(s: State, k: string)
    requires k in s.archives
  {
    exists p :: 0 <= p < |s.puts| && s.puts[p] == Archive(k, s.archives[k])
  }

  /** The ids of the archive written `p`-th are still in some archive written no earlier. */
  ghost predicate CoverInv(s: State)
  {
    forall p, id :: 0 <= p < |s.puts| && id in IdsOf(s.puts[p].entries) ==> Covered(s, p, id)
  }

  ghost predicate Covered(s: State, p: nat, id: string)
  {
    exists q :: p <= q < |s.puts| && HasCopy(s, q, id)
  }

  ghost predicate HasCopy(s: State, q: nat, id: string)
    requires q < |s.puts|
  {
    && id in IdsOf(s.puts[q].entries)
    && s.puts[q].key in s.archives && s.archives[s.puts[q].key] == s.puts[q].entries
  }

  ghost predicate SentInv(s: State)
  {
    && (forall v :: v in s.sent ==> MsgId(v).Some? && OnServer(s, MsgId(v).value))
    && (forall id :: id in s.live ==> s.live[id] in s.sent && MsgId(s.live[id]) == Some(id))
    && (forall p :: 0 <= p < |s.puts| ==> forall e :: e in s.puts[p].entries ==> e in s.sent)
  }

  ghost predicate RunInv(s: State, run: Run)
  {
    && run.readLive <= |run.toCompact| && run.readArchives <= |run.listed|
    && (forall e :: e in run.newObjects || e in run.existing ==> e in s.sent)
    && (forall k :: k in run.toCompact ==> OnServer(s, k))
    && (forall i :: 0 <= i < run.readLive ==>
          run.toCompact[i] in IdsOf(run.newObjects) || Archived(s, run.toCompact[i]))
    && (forall k :: k in run.listed ==> WasPut(s, k))
    && (forall i :: 0 <= i < run.readArchives ==> Copied(s, run.listed[i], IdsOf(run.existing)))
    && (run.output.Some? ==>
          && run.output.value < |s.puts|
          && (forall k :: k in run.toCompact ==> Archived(s, k))
          && (forall k :: k in run.listed ==>
                Copied(s, k, IdsOf(s.puts[run.output.value].entries)) && Before(s, k, run.output.value)))
  }

  ghost predicate Copied(s: State, k: string, ids: set<string>)
  {
    k in s.archives ==> IdsOf(s.archives[k]) <= ids
  }

  ghost predicate Before(s: State, k: string, o: nat)
  {
    forall p :: 0 <= p < |s.puts| && s.puts[p].key == k ==> p < o
  }

  ghost predicate Inv(s: State)
  {
    LogInv(s) && CoverInv(s) && SentInv(s) && forall r :: r in s.runs ==> RunInv(s, s.runs[r])
  }

  // ---- preservation ----

  lemma CoveredIsArchived(s: State, p: nat, id: string)
    requires Covered(s, p, id)
    ensures Archived(s, id)
  {
    var q: nat :| p <= q < |s.puts| && HasCopy(s, q, id);
    assert id in IdsOf(s.archives[s.puts[q].key]);
  }

  /** What a run may delete it has copied into a later archive, and that one is covered. */
  lemma DeletedHasLaterCopy(s: State, r: nat, q: nat, id: string) returns (t: nat)
    requires Inv(s) && r in s.runs && s.runs[r].output.Some?
    requires q < |s.puts| && s.puts[q].key in s.runs[r].listed && HasCopy(s, q, id)
    ensures q < t < |s.puts| && HasCopy(s, t, id)
  {
    var run := s.runs[r];
    var o := run.output.value;
    assert RunInv(s, run);
    assert Copied(s, s.puts[q].key, IdsOf(s.puts[o].entries)) && Before(s, s.puts[q].key, o);
    assert Covered(s, o, id);
    t :| o <= t < |s.puts| && HasCopy(s, t, id);
  }

  lemma CopyFrame(s: State, step: Step, q: nat, id: string)
    requires Enabled(s, step) && q < |s.puts| && HasCopy(s, q, id)
    requires !(step.DeleteArchive? && step.key == s.puts[q].key)
    ensures q < |Apply(s, step).puts| && HasCopy(Apply(s, step), q, id)
  {
    assert step.PutArchive? ==> step.key != s.puts[q].key;
  }

  /** No step uncovers an id: a deleted archive was copied into a later one, which is
      itself covered by an archive later than the one deleted. */
  lemma CoverStep(s: State, step: Step, p: nat, id: string)
    requires Inv(s) && Enabled(s, step)
    requires Covered(s, p, id)
    ensures Covered(Apply(s, step), p, id)
  {
    var q: nat :| p <= q < |s.puts| && HasCopy(s, q, id);
    if step.DeleteArchive? && step.key == s.puts[q].key {
      var t := DeletedHasLaterCopy(s, step.r, q, id);
      assert s.puts[t].key != s.puts[q].key;
      CopyFrame(s, step, t, id);
    } else {
      CopyFrame(s, step, q, id);
    }
  }

  /** Once archived, always archived. */
  lemma ArchivedStep(s: State, step: Step, id: string)
    requires Inv(s) && Enabled(s, step)
    requires Archived(s, id)
    ensures Archived(Apply(s, step), id)
  {
    var k :| k in s.archives && id in IdsOf(s.archives[k]);
    assert Logged(s, k);
    var p :| 0 <= p < |s.puts| && s.puts[p] == Archive(k, s.archives[k]);
    assert Covered(s, p, id);
    CoverStep(s, step, p, id);
    CoveredIsArchived(Apply(s, step), p, id);
  }

  lemma OnServerStep(s: State, step: Step, id: string)
    requires Inv(s) && Enabled(s, step)
    requires OnServer(s, id)
    ensures OnServer(Apply(s, step), id)
  {
    if Archived(s, id) {
      ArchivedStep(s, step, id);
    }
  }

  lemma MergedIds(run: Run)
    ensures IdsOf(Merged(run)) == IdsOf(run.existing) + IdsOf(run.newObjects)
    ensures forall e :: e in Merged(run) ==> e in run.existing || e in run.newObjects
  {
    DedupIds(run.existing + run.newObjects);
    assert forall e :: e in run.existing + run.newObjects <==> e in run.existing || e in run.newObjects;
  }

  lemma LogStep(s: State, step: Step)
    requires Inv(s) && Enabled(s, step)
    ensures LogInv(Apply(s, step))
  {
    var s' := Apply(s, step);
    forall k | k in s'.archives ensures Logged(s', k) {
      if k in s.archives && s'.archives[k] == s.archives[k] {
        assert Logged(s, k);
        var p :| 0 <= p < |s.puts| && s.puts[p] == Archive(k, s.archives[k]);
        assert s'.puts[p] == Archive(k, s'.archives[k]);
      } else {
        assert s'.puts[|s.puts|] == Archive(k, s'.archives[k]);
      }
    }
  }

  lemma CoverInvStep(s: State, step: Step)
    requires Inv(s) && Enabled(s, step)
    ensures CoverInv(Apply(s, step))
  {
    var s' := Apply(s, step);
    forall p, id | 0 <= p < |s'.puts| && id in IdsOf(s'.puts[p].entries) ensures Covered(s', p, id) {
      if p < |s.puts| {
        assert s'.puts[p] == s.puts[p];
        CoverStep(s, step, p, id);
      } else {
        assert HasCopy(s', p, id);
      }
    }
  }

  lemma SentStep(s: State, step: Step)
    requires Inv(s) && Enabled(s, step)
    ensures SentInv(Apply(s, step))
  {
    var s' := Apply(s, step);
    forall v | v in s'.sent ensures MsgId(v).Some? && OnServer(s', MsgId(v).value) {
      if v in s.sent { OnServerStep(s, step, MsgId(v).value); }
    }
    if step.PutArchive? {
      MergedIds(s.runs[step.r]);
      assert RunInv(s, s.runs[step.r]);
    }
  }

  lemma ListedFrame(s: State, step: Step, k: string)
    requires Enabled(s, step) && WasPut(s, k)
    ensures var s' := Apply(s, step);
            && WasPut(s', k)
            && (k in s'.archives ==> k in s.archives && s'.archives[k] == s.archives[k])
            && (forall o: nat :: Before(s, k, o) && o < |s.puts| ==> Before(s', k, o))
  {
    var s' := Apply(s, step);
    var p :| 0 <= p < |s.puts| && s.puts[p].key == k;
    assert s'.puts[p] == s.puts[p];
  }

  /** A run another party steps beside keeps everything it knows. */
  lemma RunFrame(s: State, step: Step, run: Run)
    requires Inv(s) && Enabled(s, step)
    requires RunInv(s, run)
    ensures RunInv(Apply(s, step), run)
  {
    var s' := Apply(s, step);
    forall k | k in run.toCompact ensures OnServer(s', k) { OnServerStep(s, step, k); }
    forall id | Archived(s, id) ensures Archived(s', id) { ArchivedStep(s, step, id); }
    ReadFrame(s, step, run);
  }

  lemma ReadFrame(s: State, step: Step, run: Run)
    requires Enabled(s, step) && RunInv(s, run)
    requires forall k :: k in run.toCompact ==> OnServer(Apply(s, step), k)
    requires forall id :: Archived(s, id) ==> Archived(Apply(s, step), id)
    ensures RunInv(Apply(s, step), run)
  {
    var s' := Apply(s, step);
    forall k | k in run.listed
      ensures WasPut(s', k) && (k in s'.archives ==> k in s.archives && s'.archives[k] == s.archives[k])
    {
      ListedFrame(s, step, k);
    }
    forall i | 0 <= i < run.readArchives ensures Copied(s', run.listed[i], IdsOf(run.existing)) {
      assert Copied(s, run.listed[i], IdsOf(run.existing));
      assert run.listed[i] in run.listed;
    }
    if run.output.Some? {
      var o := run.output.value;
      assert s'.puts[o] == s.puts[o];
      forall k | k in run.listed
        ensures Copied(s', k, IdsOf(s'.puts[o].entries)) && Before(s', k, o)
      {
        assert WasPut(s, k) && Before(s, k, o) && Copied(s, k, IdsOf(s.puts[o].entries));
        ListedFrame(s, step, k);
      }
    }
  }

  lemma GetLiveStep(s: State, r: nat)
    requires Enabled(s, GetLive(r)) && RunInv(s, s.runs[r])
    requires forall id :: id in s.live ==> s.live[id] in s.sent && MsgId(s.live[id]) == Some(id)
    ensures RunInv(s, Advance(s, GetLive(r), s.runs[r]))
  {
    var run := s.runs[r];
    var run' := Advance(s, GetLive(r), run);
    var key := run.toCompact[run.readLive];
    assert key in run.toCompact;
    if key in s.live {
      IdsConcat(run.newObjects, [s.live[key]]);
      assert s.live[key] in [s.live[key]];
      assert key in IdsOf([s.live[key]]);
    }
    assert IdsOf(run.newObjects) <= IdsOf(run'.newObjects);
  }

  lemma GetArchiveStep(s: State, r: nat)
    requires Enabled(s, GetArchive(r)) && RunInv(s, s.runs[r]) && LogInv(s)
    requires forall p :: 0 <= p < |s.puts| ==> forall e :: e in s.puts[p].entries ==> e in s.sent
    ensures RunInv(s, Advance(s, GetArchive(r), s.runs[r]))
  {
    var run := s.runs[r];
    var run' := Advance(s, GetArchive(r), run);
    var key := run.listed[run.readArchives];
    if key in s.archives {
      IdsConcat(run.existing, s.archives[key]);
      assert Logged(s, key);
      assert forall e :: e in s.archives[key] ==> e in s.sent;
    }
    assert IdsOf(run.existing) <= IdsOf(run'.existing);
    forall i | 0 <= i < run'.readArchives ensures Copied(s, run'.listed[i], IdsOf(run'.existing)) {
      if i < run.readArchives { assert Copied(s, run.listed[i], IdsOf(run.existing)); }
    }
  }

  lemma PutArchived(s: State, r: nat, key: string, k: string)
    requires Enabled(s, PutArchive(r, key)) && RunInv(Apply(s, PutArchive(r, key)), s.runs[r])
    requires k in s.runs[r].toCompact
    ensures Archived(Apply(s, PutArchive(r, key)), k)
  {
    var s', run := Apply(s, PutArchive(r, key)), s.runs[r];
    MergedIds(run);
    var i :| 0 <= i < run.readLive && run.toCompact[i] == k;
    if k in IdsOf(run.newObjects) {
      assert k in IdsOf(s'.archives[key]);
    }
  }

  lemma PutCopied(s: State, r: nat, key: string, k: string)
    requires Enabled(s, PutArchive(r, key)) && RunInv(s, s.runs[r]) && RunInv(Apply(s, PutArchive(r, key)), s.runs[r])
    requires k in s.runs[r].listed
    ensures Copied(Apply(s, PutArchive(r, key)), k, IdsOf(Merged(s.runs[r])))
    ensures Before(Apply(s, PutArchive(r, key)), k, |s.puts|)
  {
    var s', run := Apply(s, PutArchive(r, key)), s.runs[r];
    MergedIds(run);
    var i :| 0 <= i < run.readArchives && run.listed[i] == k;
    assert Copied(s', run.listed[i], IdsOf(run.existing));
    assert WasPut(s, k);
    assert s'.puts[|s.puts|].key == key != k;
  }

  lemma PutArchiveStep(s: State, r: nat, key: string)
    requires Inv(s) && Enabled(s, PutArchive(r, key))
    ensures var s' := Apply(s, PutArchive(r, key)); RunInv(s', s'.runs[r])
  {
    RunFrame(s, PutArchive(r, key), s.runs[r]);
    PutArchiveRun(s, r, key);
  }

  lemma PutArchiveRun(s: State, r: nat, key: string)
    requires Enabled(s, PutArchive(r, key)) && RunInv(s, s.runs[r]) && RunInv(Apply(s, PutArchive(r, key)), s.runs[r])
    ensures var s' := Apply(s, PutArchive(r, key)); RunInv(s', s'.runs[r])
  {
    var s', run := Apply(s, PutArchive(r, key)), s.runs[r];
    assert s'.puts[|s.puts|] == Archive(key, Merged(run));
    forall k | k in run.toCompact ensures Archived(s', k) { PutArchived(s, r, key, k); }
    forall k | k in run.listed ensures Copied(s', k, IdsOf(Merged(run))) && Before(s', k, |s.puts|) {
      PutCopied(s, r, key, k);
    }
  }

  lemma RunsStep(s: State, step: Step, r: nat)
    requires Inv(s) && Enabled(s, step)
    requires r in Apply(s, step).runs
    ensures RunInv(Apply(s, step), Apply(s, step).runs[r])
  {
    var s' := Apply(s, step);
    if r in s.runs && s'.runs[r] == s.runs[r] {
      RunFrame(s, step, s.runs[r]);
    } else if step.PutArchive? {
      PutArchiveStep(s, r, step.key);
    } else if step.GetLive? {
      assert RunInv(s, s.runs[r]);
      GetLiveStep(s, r);
      RunFrame(s, step, s'.runs[r]);
    } else if step.GetArchive? {
      assert RunInv(s, s.runs[r]);
      GetArchiveStep(s, r);
      RunFrame(s, step, s'.runs[r]);
    } else if !step.Start? {
      assert RunInv(s, s.runs[r]);
      forall k | step.ListArchives? && k in step.keys ensures WasPut(s, k) {
        assert Logged(s, k);
      }
      assert RunInv(s, s'.runs[r]);
      RunFrame(s, step, s'.runs[r]);
    }
  }

  lemma InvStep(s: State, step: Step)
    requires Inv(s) && Enabled(s, step)
    ensures Inv(Apply(s, step))
  {
    LogStep(s, step);
    CoverInvStep(s, step);
    SentStep(s, step);
    forall r | r in Apply(s, step).runs ensures RunInv(Apply(s, step), Apply(s, step).runs[r]) {
      RunsStep(s, step, r);
    }
  }

  lemma {:induction false} InvExec(s: State, steps: seq<Step>)
    requires Inv(s) && Possible(s, steps)
    ensures Inv(Exec(s, steps))
    decreases |steps|
  {
    if steps != [] {
      InvStep(s, steps[0]);
      InvExec(Apply(s, steps[0]), steps[1..]);
    }
  }

  // ---- a run deletes only what it lists ----

  lemma RunGrows(s: State, step: Step, r: nat)
    requires Enabled(s, step) && r in s.runs
    ensures var t := Apply(s, step);
            r in t.runs && s.runs[r].toCompact <= t.runs[r].toCompact && s.runs[r].listed <= t.runs[r].listed
  {
  }

  lemma {:induction false} RunGrowsExec(s: State, steps: seq<Step>, r: nat)
    requires Possible(s, steps) && r in s.runs
    ensures var t := Exec(s, steps);
            r in t.runs && s.runs[r].toCompact <= t.runs[r].toCompact && s.runs[r].listed <= t.runs[r].listed
    decreases |steps|
  {
    if steps != [] {
      RunGrows(s, steps[0], r);
      RunGrowsExec(Apply(s, steps[0]), steps[1..], r);
    }
  }

  /** Every deletion of run `r` is of a key the run has listed. */
  ghost predicate DeletesListed(step: Step, r: nat, run: Run)
  {
    && (step.DeleteLive? && step.r == r ==> step.key in run.toCompact)
    && (step.DeleteArchive? && step.r == r ==> step.key in run.listed)
  }

  lemma {:induction false} OnlyListedDeleted(s: State, steps: seq<Step>, r: nat)
    requires Possible(s, steps)
    ensures r in Exec(s, steps).runs ==>
              forall i :: 0 <= i < |steps| ==> DeletesListed(steps[i], r, Exec(s, steps).runs[r])
    decreases |steps|
  {
    if steps != [] {
      var t := Apply(s, steps[0]);
      OnlyListedDeleted(t, steps[1..], r);
      if r in s.runs { RunGrowsExec(s, steps, r); }
      if r in Exec(s, steps).runs {
        forall i | 0 <= i < |steps| ensures DeletesListed(steps[i], r, Exec(s, steps).runs[r]) {
          if i > 0 { assert steps[1..][i - 1] == steps[i]; }
        }
      }
    }
  }

  // ---- the theorems ----

  /** However sends and compactions interleave and wherever runs stop, every message id ever
      accepted is in the live prefix or in an archive that is present. */
  lemma ConservesMessages(steps: seq<Step>)
    requires Possible(Init, steps)
    ensures var s := Exec(Init, steps);
            forall v :: v in s.sent ==> MsgId(v).Some? && OnServer(s, MsgId(v).value)
  {
    InvExec(Init, steps);
  }

  lemma {:induction false} ArchivedExec(s: State, steps: seq<Step>, id: string)
    requires Inv(s) && Possible(s, steps)
    requires Archived(s, id)
    ensures Archived(Exec(s, steps), id)
    decreases |steps|
  {
    if steps != [] {
      ArchivedStep(s, steps[0], id);
      InvStep(s, steps[0]);
      ArchivedExec(Apply(s, steps[0]), steps[1..], id);
    }
  }

  /** An id once archived is archived at every later point of the run. */
  lemma ArchivedForever(before: seq<Step>, after: seq<Step>, id: string)
    requires Possible(Init, before) && Possible(Exec(Init, before), after)
    requires Archived(Exec(Init, before), id)
    ensures Archived(Exec(Exec(Init, before), after), id)
  {
    InvExec(Init, before);
    ArchivedExec(Exec(Init, before), after, id);
  }
}
