/** Sends, compactions and sync passes of one device interleaved step by step: the compaction
    machine composed with ingestion. Passes may overlap, and any of them may stop for good
    after any step. Listings start where the stored cursor says, one server page at a time. */
module EndToEnd {
  import opened Wrappers
  import opened Cbor
  import opened Ingest
  import opened SortedStore
  import Compaction

  const STORE_LIST_LIMIT := 50

  datatype Phase = Began | Listed | LiveRead | Ids | Listing(from: Option<string>) | Archives | CursorSaved | Saved

  /** A batch going through the message loop: the live envelopes (no key) or one archive. */
  datatype Reading = Reading(key: Option<string>, entries: seq<Value>, next: nat, skips: nat)

  /** The local variables of one sync. `handed` collects the ids the message loop was given. */
  datatype SyncPass = SyncPass(
    phase: Phase, from: Option<string>, page: seq<string>, read: nat, fetched: seq<Value>,
    seen: set<string>, messages: set<string>, current: Option<Reading>, handed: set<string>,
    skip: set<string>, listed: seq<string>, taken: nat, candidates: set<string>)

  /** `cursor` is the stored live cursor. */
  datatype State = State(
    server: Compaction.State, sessions: Sessions, cursor: Option<string>,
    stored: set<string>, ingested: set<string>, failed: set<Value>, passes: map<nat, SyncPass>)

  datatype Step =
    | AtServer(step: Compaction.Step)
    | KeyArrives(session: string, index: nat)     // a share, a backup or a restore, at any moment
    | KeyLost(session: string)                    // a session that was never persisted dies with its tab
    | Begin(p: nat)                               // load the cursor
    | ListLive(p: nat, fromStart: bool, page: Page)
    | GetLive(p: nat, ok: bool)
    | OpenLive(p: nat)
    | NextEntry(p: nat)
    | Close(p: nat)
    | LoadIds(p: nat)
    | LoadIngested(p: nat)
    | ListArchives(p: nat, page: Page)
    | ListFails(p: nat)
    | TakeArchive(p: nat, ok: bool)
    | SaveCursor(p: nat)
    | Save(p: nat)
    | Mark(p: nat, key: string)

  const Init := State(Compaction.Init, map[], None, {}, {}, {}, map[])

  /** The one page a sync lists that starts now. */
  ghost function LivePage(s: State): seq<string>
  {
    PageOf(s.server.live.Keys, "", STORE_LIST_LIMIT, s.cursor).keys
  }

  function FreshPass(cursor: Option<string>): SyncPass
  {
    SyncPass(Began, cursor, [], 0, [], {}, {}, None, {}, {}, [], 0, {})
  }

  predicate HasPass(s: State, p: nat)
  {
    p in s.passes
  }

  /** The message loop has another envelope. */
  predicate MoreEntries(pass: SyncPass)
  {
    (pass.phase.LiveRead? || pass.phase.Archives?) && pass.current.Some?
    && pass.current.value.next < |pass.current.value.entries|
  }

  predicate ReadingDone(pass: SyncPass)
  {
    (pass.phase.LiveRead? || pass.phase.Archives?) && pass.current.Some?
    && pass.current.value.next == |pass.current.value.entries|
  }

  ghost predicate Enabled(s: State, step: Step)
  {
    match step
    case AtServer(c) => Compaction.Enabled(s.server, c)
    case KeyArrives(_, _) => true
    case KeyLost(_) => true
    case Begin(p) => p !in s.passes
    case ListLive(p, fromStart, page) =>
      HasPass(s, p) && s.passes[p].phase.Began?
      && page == PageOf(s.server.live.Keys, "", STORE_LIST_LIMIT, if fromStart then None else s.passes[p].from)
    case GetLive(p, _) => HasPass(s, p) && s.passes[p].phase.Listed? && s.passes[p].read < |s.passes[p].page|
    case OpenLive(p) => HasPass(s, p) && s.passes[p].phase.Listed? && s.passes[p].read == |s.passes[p].page|
    case NextEntry(p) => HasPass(s, p) && MoreEntries(s.passes[p])
    case Close(p) => HasPass(s, p) && ReadingDone(s.passes[p])
    case LoadIds(p) => HasPass(s, p) && s.passes[p].phase.LiveRead? && s.passes[p].current.None?
    case LoadIngested(p) => HasPass(s, p) && s.passes[p].phase.Ids?
    case ListArchives(p, page) =>
      HasPass(s, p) && s.passes[p].phase.Listing?
      && page == PageOf(s.server.archives.Keys, "", STORE_LIST_LIMIT, s.passes[p].phase.from)
    case ListFails(p) => HasPass(s, p) && s.passes[p].phase.Listing?
    case TakeArchive(p, _) =>
      && HasPass(s, p) && s.passes[p].phase.Archives? && s.passes[p].current.None?
      && s.passes[p].taken < |s.passes[p].listed|
    case SaveCursor(p) =>
      && HasPass(s, p) && s.passes[p].phase.Archives? && s.passes[p].current.None?
      && s.passes[p].taken == |s.passes[p].listed|
    case Save(p) => HasPass(s, p) && s.passes[p].phase.CursorSaved?
    case Mark(p, key) => HasPass(s, p) && s.passes[p].phase.Saved? && key in s.passes[p].candidates
  }

  function SetPass(s: State, p: nat, pass: SyncPass): State
  {
    s.(passes := s.passes[p := pass])
  }

  /** What a pass keeps of an envelope the message loop has decided on. */
  function Heard(pass: SyncPass, v: Value, outcome: Outcome): SyncPass
  {
    if outcome.Materialized? then pass.(messages := pass.messages + {IdOf(v)}, seen := pass.seen + {IdOf(v)}) else pass
  }

  function Failures(v: Value, outcome: Outcome): set<Value>
  {
    if outcome.Failed? && ProperMessage(v) then {v} else {}
  }

  /** One envelope through the message loop. */
  function Process(s: State, p: nat, v: Value): State
    requires p in s.passes
  {
    var o := OutcomeOf(v, s.passes[p].seen, s.sessions);
    SetPass(s.(failed := s.failed + Failures(v, o)), p, Heard(s.passes[p], v, o))
  }

  /** What the loop itself keeps about the entry: the position, the skips, the ids given. */
  function Advance(pass: SyncPass, v: Value, skipped: bool): SyncPass
    requires pass.current.Some?
  {
    var d := pass.current.value;
    pass.(current := Some(d.(next := d.next + 1, skips := if skipped then d.skips + 1 else d.skips)),
          handed := pass.handed + IdSet(v))
  }

  function EntryStep(s: State, p: nat): State
    requires p in s.passes && MoreEntries(s.passes[p])
  {
    var d := s.passes[p].current.value;
    var v := d.entries[d.next];
    var o := OutcomeOf(v, s.passes[p].seen, s.sessions);
    SetPass(s.(failed := s.failed + Failures(v, o)), p, Advance(Heard(s.passes[p], v, o), v, o.Skipped?))
  }

  function Closed(pass: SyncPass): SyncPass
    requires pass.current.Some?
  {
    var d := pass.current.value;
    pass.(current := None,
          candidates := if d.key.Some? && d.skips == 0 then pass.candidates + {d.key.value} else pass.candidates)
  }

  function Taken(s: State, pass: SyncPass, ok: bool): SyncPass
    requires pass.taken < |pass.listed|
  {
    var key := pass.listed[pass.taken];
    var next := pass.(taken := pass.taken + 1);
    if key in pass.skip || !ok || key !in s.server.archives then next
    else next.(current := Some(Reading(Some(key), s.server.archives[key], 0, 0)))
  }

  ghost function Apply(s: State, step: Step): State
    requires Enabled(s, step)
  {
    match step
    case AtServer(c) => s.(server := Compaction.Apply(s.server, c))
    case KeyArrives(session, index) => s.(sessions := AddInbound(s.sessions, session, index))
    case KeyLost(session) => s.(sessions := s.sessions - {session})
    case Begin(p) => SetPass(s, p, FreshPass(s.cursor))
    case ListLive(p, _, page) => SetPass(s, p, s.passes[p].(phase := Listed, page := page.keys))
    case GetLive(p, ok) =>
      var pass := s.passes[p];
      var key := pass.page[pass.read];
      SetPass(s, p, pass.(read := pass.read + 1,
        fetched := if ok && key in s.server.live then pass.fetched + [s.server.live[key]] else pass.fetched))
    case OpenLive(p) =>
      var pass := s.passes[p];
      SetPass(s, p, pass.(phase := LiveRead, current := Some(Reading(None, pass.fetched, 0, 0))))
    case NextEntry(p) => EntryStep(s, p)
    case Close(p) => SetPass(s, p, Closed(s.passes[p]))
    case LoadIds(p) =>
      var pass := s.passes[p];
      SetPass(s, p, pass.(phase := Ids, seen := s.stored + pass.messages))
    case LoadIngested(p) => SetPass(s, p, s.passes[p].(phase := Listing(None), skip := s.ingested))
    case ListArchives(p, page) =>
      var pass := s.passes[p];
      SetPass(s, p, pass.(listed := pass.listed + page.keys,
                          phase := if page.next.None? then Archives else Listing(page.next)))
    case ListFails(p) => SetPass(s, p, s.passes[p].(listed := [], phase := Archives))
    case TakeArchive(p, ok) => SetPass(s, p, Taken(s, s.passes[p], ok))
    case SaveCursor(p) =>
      var pass := s.passes[p];
      SetPass(s.(cursor := if pass.page == [] then s.cursor else Some(pass.page[|pass.page| - 1])),
              p, pass.(phase := CursorSaved))
    case Save(p) =>
      var pass := s.passes[p];
      SetPass(s.(stored := s.stored + pass.messages), p, pass.(phase := Saved))
    case Mark(p, key) => s.(ingested := s.ingested + {key})
  }

  ghost predicate Possible(s: State, steps: seq<Step>)
    decreases |steps|
  {
    steps == [] || (Enabled(s, steps[0]) && Possible(Apply(s, steps[0]), steps[1..]))
  }

  ghost function Exec(s: State, steps: seq<Step>): State
    requires Possible(s, steps)
    decreases |steps|
  {
    if steps == [] then s else Exec(Apply(s, steps[0]), steps[1..])
  }

  // ---- the invariant ----

  /** The archive ever written under this key has all its messages in `ids` or `failed`. */
  ghost predicate ArchiveHandled(s: State, key: string, ids: set<string>)
  {
    exists q :: 0 <= q < |s.server.puts| && s.server.puts[q].key == key
             && Handled(s.server.puts[q].entries, ids, s.failed)
  }

  ghost predicate ReadingInv(s: State, d: Reading, ids: set<string>)
  {
    && d.next <= |d.entries|
    && (d.key.Some? ==>
          exists q :: 0 <= q < |s.server.puts| && s.server.puts[q] == Compaction.Archive(d.key.value, d.entries))
    && (d.skips == 0 ==> Handled(d.entries[..d.next], ids, s.failed))
  }

  ghost predicate PassInv(s: State, pass: SyncPass)
  {
    var safe := s.stored + pass.messages;
    && pass.seen <= safe
    && (pass.phase.Saved? ==> pass.messages <= s.stored)
    && (forall k :: k in pass.candidates ==> ArchiveHandled(s, k, safe))
    && (pass.current.Some? ==> ReadingInv(s, pass.current.value, safe))
  }

  ghost predicate IngestedInv(s: State)
  {
    forall k :: k in s.ingested ==> ArchiveHandled(s, k, s.stored)
  }

  ghost predicate PassesInv(s: State)
  {
    forall p :: p in s.passes ==> PassInv(s, s.passes[p])
  }

  ghost predicate Inv(s: State)
  {
    Compaction.Inv(s.server) && IngestedInv(s) && PassesInv(s)
  }

  /** Later states know no less: the log grows, and so do the stored ids and the failures. */
  ghost predicate Grows(s: State, t: State)
  {
    s.server.puts <= t.server.puts && s.stored <= t.stored && s.failed <= t.failed
  }

  lemma HandledFrame(s: State, t: State, key: string, ids: set<string>, ids': set<string>)
    requires Grows(s, t) && ids <= ids' && ArchiveHandled(s, key, ids)
    ensures ArchiveHandled(t, key, ids')
  {
    var q :| 0 <= q < |s.server.puts| && s.server.puts[q].key == key
          && Handled(s.server.puts[q].entries, ids, s.failed);
    assert t.server.puts[q] == s.server.puts[q];
  }

  /** A pass keeps what it knows when it gains messages and the rest of the world grows. */
  lemma PassFrame(s: State, t: State, pass: SyncPass)
    requires Grows(s, t) && PassInv(s, pass)
    ensures PassInv(t, pass)
  {
    forall k | k in pass.candidates ensures ArchiveHandled(t, k, t.stored + pass.messages) {
      HandledFrame(s, t, k, s.stored + pass.messages, t.stored + pass.messages);
    }
    if pass.current.Some? && pass.current.value.key.Some? {
      var d := pass.current.value;
      var q :| 0 <= q < |s.server.puts| && s.server.puts[q] == Compaction.Archive(d.key.value, d.entries);
      assert t.server.puts[q] == s.server.puts[q];
    }
  }

  lemma StepGrows(s: State, step: Step)
    requires Enabled(s, step)
    ensures Grows(s, Apply(s, step))
  {
  }

  /** Processing a message never loses one: afterwards it is seen, failed or a skip. */
  lemma ProcessPass(s: State, p: nat, v: Value)
    requires p in s.passes && PassInv(s, s.passes[p]) && !s.passes[p].phase.Saved?
    ensures var t := Process(s, p, v);
            && Grows(s, t) && p in t.passes && PassInv(t, t.passes[p])
            && t.passes[p].(messages := {}, seen := {}) == s.passes[p].(messages := {}, seen := {})
            && t.ingested == s.ingested && t.server == s.server
            && s.passes[p].messages <= t.passes[p].messages
            && (ProperMessage(v) && !OutcomeOf(v, s.passes[p].seen, s.sessions).Skipped? ==>
                  IdOf(v) in t.stored + t.passes[p].messages || v in t.failed)
  {
    var pass := s.passes[p];
    var t := Process(s, p, v);
    PassFrame(s, t, pass);
    forall k | k in pass.candidates ensures ArchiveHandled(t, k, t.stored + t.passes[p].messages) {
      HandledFrame(t, t, k, t.stored + pass.messages, t.stored + t.passes[p].messages);
    }
  }

  /** The loop's bookkeeping after an entry that was accounted for or skipped. */
  lemma AdvancePass(s: State, pass: SyncPass, v: Value, skipped: bool)
    requires PassInv(s, pass) && !pass.phase.Saved? && MoreEntries(pass)
    requires v == pass.current.value.entries[pass.current.value.next]
    requires !skipped && ProperMessage(v) ==> IdOf(v) in s.stored + pass.messages || v in s.failed
    ensures PassInv(s, Advance(pass, v, skipped))
  {
    var d := pass.current.value;
    assert d.entries[..d.next + 1] == d.entries[..d.next] + [v];
    var ids := s.stored + pass.messages;
    if d.skips == 0 && !skipped {
      forall w | w in d.entries[..d.next + 1] && ProperMessage(w) ensures IdOf(w) in ids || w in s.failed {
        if w != v { assert w in d.entries[..d.next]; }
      }
    }
  }

  lemma NextEntryPass(s: State, p: nat)
    requires p in s.passes && MoreEntries(s.passes[p]) && PassInv(s, s.passes[p])
    ensures var t := EntryStep(s, p); p in t.passes && PassInv(t, t.passes[p])
  {
    var d := s.passes[p].current.value;
    var v := d.entries[d.next];
    ProcessPass(s, p, v);
    var m := Process(s, p, v);
    var skipped := OutcomeOf(v, s.passes[p].seen, s.sessions).Skipped?;
    AdvancePass(m, m.passes[p], v, skipped);
    PassFrame(m, EntryStep(s, p), Advance(m.passes[p], v, skipped));
  }

  lemma ClosePass(s: State, pass: SyncPass)
    requires ReadingDone(pass) && PassInv(s, pass)
    ensures PassInv(s, Closed(pass))
  {
    var d := pass.current.value;
    assert d.entries[..d.next] == d.entries;
    if d.key.Some? && d.skips == 0 {
      var q :| 0 <= q < |s.server.puts| && s.server.puts[q] == Compaction.Archive(d.key.value, d.entries);
      assert s.server.puts[q].key == d.key.value;
    }
  }

  lemma TakenPass(s: State, pass: SyncPass, ok: bool)
    requires PassInv(s, pass) && pass.taken < |pass.listed|
    requires forall k :: k in s.server.archives ==> Compaction.Logged(s.server, k)
    ensures PassInv(s, Taken(s, pass, ok))
  {
    var key := pass.listed[pass.taken];
    if key in s.server.archives {
      assert Compaction.Logged(s.server, key);
      assert s.server.archives[key][..0] == [];
    }
  }

  /** A pass whose invariant holds keeps it when only its bookkeeping changes. */
  lemma SamePass(s: State, t: State, p: nat, pass: SyncPass)
    requires Grows(s, t) && PassInv(s, pass) && p in t.passes && t.passes[p] == pass
    ensures PassInv(t, t.passes[p])
  {
    PassFrame(s, t, pass);
  }

  lemma CandidatesFrame(s: State, t: State, p: nat)
    requires Grows(s, t) && p in s.passes && p in t.passes && PassInv(s, s.passes[p])
    requires t.passes[p].candidates == s.passes[p].candidates
    requires s.stored + s.passes[p].messages <= t.stored + t.passes[p].messages
    ensures forall k :: k in t.passes[p].candidates ==> ArchiveHandled(t, k, t.stored + t.passes[p].messages)
  {
    forall k | k in t.passes[p].candidates ensures ArchiveHandled(t, k, t.stored + t.passes[p].messages) {
      HandledFrame(s, t, k, s.stored + s.passes[p].messages, t.stored + t.passes[p].messages);
    }
  }

  lemma SavePass(s: State, p: nat)
    requires Enabled(s, Save(p)) && PassInv(s, s.passes[p])
    ensures var t := Apply(s, Save(p)); p in t.passes && PassInv(t, t.passes[p])
  {
    PassFrame(s, Apply(s, Save(p)), s.passes[p]);
    CandidatesFrame(s, Apply(s, Save(p)), p);
  }

  lemma FreshPassInv(s: State)
    ensures PassInv(s, FreshPass(s.cursor))
  {
  }

  predicate TakenBy(step: Step, p: nat)
  {
    !step.AtServer? && !step.KeyArrives? && !step.KeyLost? && !step.Mark? && step.p == p
  }

  /** The pass that takes the step. */
  lemma OwnPassStep(s: State, step: Step, p: nat)
    requires Enabled(s, step) && TakenBy(step, p) && !step.Begin? && PassInv(s, s.passes[p])
    requires forall k :: k in s.server.archives ==> Compaction.Logged(s.server, k)
    ensures p in Apply(s, step).passes && PassInv(Apply(s, step), Apply(s, step).passes[p])
  {
    var t, pass := Apply(s, step), s.passes[p];
    match step
    case NextEntry(_) => NextEntryPass(s, p);
    case Close(_) => ClosePass(s, pass); SamePass(s, t, p, Closed(pass));
    case TakeArchive(_, ok) => TakenPass(s, pass, ok); SamePass(s, t, p, Taken(s, pass, ok));
    case Save(_) => SavePass(s, p);
    case OpenLive(_) => OpenLivePass(s, p);
    case _ => PlainPassStep(s, step, p);
  }

  lemma OpenLivePass(s: State, p: nat)
    requires Enabled(s, OpenLive(p)) && PassInv(s, s.passes[p])
    ensures var t := Apply(s, OpenLive(p)); p in t.passes && PassInv(t, t.passes[p])
  {
    var t := Apply(s, OpenLive(p));
    assert t.passes[p].current.value.entries[..0] == [];
    PassFrame(s, t, s.passes[p].(current := None));
  }

  /** Steps that touch neither messages, candidates nor the batch. */
  lemma PlainPassStep(s: State, step: Step, p: nat)
    requires Enabled(s, step) && TakenBy(step, p) && !step.Begin? && PassInv(s, s.passes[p])
    requires step.ListLive? || step.GetLive? || step.LoadIds? || step.LoadIngested? || step.ListArchives?
             || step.ListFails? || step.SaveCursor?
    ensures p in Apply(s, step).passes && PassInv(Apply(s, step), Apply(s, step).passes[p])
  {
    PassFrame(s, Apply(s, step), s.passes[p]);
    CandidatesFrame(s, Apply(s, step), p);
  }

  lemma OtherPasses(s: State, step: Step, p: nat)
    requires Enabled(s, step) && !TakenBy(step, p) && p in Apply(s, step).passes
    ensures p in s.passes && Apply(s, step).passes[p] == s.passes[p]
  {
  }

  lemma PassStep(s: State, step: Step, p: nat)
    requires Enabled(s, step) && p in Apply(s, step).passes
    requires p in s.passes ==> PassInv(s, s.passes[p])
    requires forall k :: k in s.server.archives ==> Compaction.Logged(s.server, k)
    ensures PassInv(Apply(s, step), Apply(s, step).passes[p])
  {
    if !TakenBy(step, p) {
      OtherPasses(s, step, p);
      StepGrows(s, step);
      PassFrame(s, Apply(s, step), s.passes[p]);
    } else if step.Begin? {
      FreshPassInv(s);
      SamePass(s, Apply(s, step), p, FreshPass(s.cursor));
    } else {
      OwnPassStep(s, step, p);
    }
  }

  lemma IngestedStep(s: State, step: Step, k: string)
    requires Enabled(s, step) && k in Apply(s, step).ingested
    requires k in s.ingested ==> ArchiveHandled(s, k, s.stored)
    requires step.Mark? ==> PassInv(s, s.passes[step.p])
    ensures ArchiveHandled(Apply(s, step), k, Apply(s, step).stored)
  {
    var t := Apply(s, step);
    StepGrows(s, step);
    if k in s.ingested {
      HandledFrame(s, t, k, s.stored, t.stored);
    } else {
      MarkedIngested(s, step, k);
      HandledFrame(s, t, k, s.stored + s.passes[step.p].messages, t.stored);
    }
  }

  lemma MarkedIngested(s: State, step: Step, k: string)
    requires Enabled(s, step) && k in Apply(s, step).ingested && k !in s.ingested
    ensures step == Mark(step.p, k) && step.p in s.passes && k in s.passes[step.p].candidates
    ensures s.passes[step.p].phase.Saved?
  {
  }

  lemma IngestedInvStep(s: State, step: Step)
    requires IngestedInv(s) && PassesInv(s) && Enabled(s, step)
    ensures IngestedInv(Apply(s, step))
  {
    var t := Apply(s, step);
    forall k | k in t.ingested ensures ArchiveHandled(t, k, t.stored) {
      assert step.Mark? ==> step.p in s.passes;
      IngestedStep(s, step, k);
    }
  }

  lemma PassesInvStep(s: State, step: Step)
    requires PassesInv(s) && Enabled(s, step)
    requires forall k :: k in s.server.archives ==> Compaction.Logged(s.server, k)
    ensures PassesInv(Apply(s, step))
  {
    var t := Apply(s, step);
    forall p | p in t.passes ensures PassInv(t, t.passes[p]) { PassStep(s, step, p); }
  }

  lemma ServerInvStep(s: State, step: Step)
    requires Compaction.Inv(s.server) && Enabled(s, step)
    ensures Compaction.Inv(Apply(s, step).server)
  {
    if step.AtServer? { Compaction.InvStep(s.server, step.step); }
  }

  lemma ArchivesLogged(s: Compaction.State)
    requires Compaction.Inv(s)
    ensures forall k :: k in s.archives ==> Compaction.Logged(s, k)
  {
  }

  lemma InvStep(s: State, step: Step)
    requires Inv(s) && Enabled(s, step)
    ensures Inv(Apply(s, step))
  {
    ArchivesLogged(s.server);
    ServerInvStep(s, step);
    IngestedInvStep(s, step);
    PassesInvStep(s, step);
  }

  lemma {:induction false} InvExec(s: State, steps: seq<Step>)
    requires Inv(s) && Possible(s, steps)
    ensures Inv(Exec(s, steps))
    decreases |steps|
  {
    if steps != [] {
      InvStep(s, steps[0]);
      InvExec(Apply(s, steps[0]), steps[1..]);
    }
  }

  // ---- the theorems ----

  lemma IngestedHandled(s: State, key: string)
    requires Inv(s) && key in s.ingested && key in s.server.archives
    ensures Handled(s.server.archives[key], s.stored, s.failed)
  {
    assert ArchiveHandled(s, key, s.stored) && Compaction.Logged(s.server, key);
    var q :| 0 <= q < |s.server.puts| && s.server.puts[q].key == key
          && Handled(s.server.puts[q].entries, s.stored, s.failed);
    var r :| 0 <= r < |s.server.puts| && s.server.puts[r] == Compaction.Archive(key, s.server.archives[key]);
    assert q == r;
  }

  /** An archive is marked ingested only when each of its messages is stored or failed to
      decrypt under a session the device knew. */
  lemma IngestMarkingIsSafe(steps: seq<Step>)
    requires Possible(Init, steps)
    ensures var s := Exec(Init, steps);
            forall key :: key in s.ingested && key in s.server.archives ==>
              Handled(s.server.archives[key], s.stored, s.failed)
  {
    InvExec(Init, steps);
    var s := Exec(Init, steps);
    forall key | key in s.ingested && key in s.server.archives
      ensures Handled(s.server.archives[key], s.stored, s.failed)
    {
      IngestedHandled(s, key);
    }
  }

  /** The device has a record of this message's session, and it does not decrypt the message. */
  predicate FailsUnder(sessions: Sessions, v: Value)
  {
    ProperMessage(v) && SessionOf(v).value in sessions && !Decrypts(v, sessions[SessionOf(v).value])
  }

  lemma NewFailure(s: State, step: Step, v: Value)
    requires Enabled(s, step) && v in Apply(s, step).failed && v !in s.failed
    ensures FailsUnder(s.sessions, v)
  {
  }

  /** At some point of the run before its end the device had a record that fails for `v`. */
  ghost predicate FailedOnTheWay(s: State, steps: seq<Step>, v: Value)
    requires Possible(s, steps)
    decreases |steps|
  {
    steps != [] && (FailsUnder(s.sessions, v) || FailedOnTheWay(Apply(s, steps[0]), steps[1..], v))
  }

  /** Over every run: each envelope counted as failed met, at some earlier moment of the run, a
      record of its session that did not decrypt it. */
  lemma {:induction false} FailureNeedsKnownSession(s: State, steps: seq<Step>, v: Value)
    requires Possible(s, steps) && v in Exec(s, steps).failed && v !in s.failed
    ensures FailedOnTheWay(s, steps, v)
    decreases |steps|
  {
    if steps != [] {
      var t := Apply(s, steps[0]);
      if v in t.failed { NewFailure(s, steps[0], v); } else { FailureNeedsKnownSession(t, steps[1..], v); }
    }
  }

  /** The server still has a copy that is live or in an archive not marked. */
  ghost predicate StillOnServer(s: State, id: string)
  {
    id in s.server.live
    || exists k :: k in s.server.archives && k !in s.ingested && id in IdsOf(s.server.archives[k])
  }

  /** Nothing but messages was ever sent under this id. */
  ghost predicate SentAsMessage(s: State, id: string)
  {
    (exists v :: v in s.server.sent && MsgId(v) == Some(id))
    && forall v :: v in s.server.sent && MsgId(v) == Some(id) ==> ProperMessage(v)
  }

  ghost predicate NotLost(s: State, id: string)
  {
    || id in s.stored
    || StillOnServer(s, id)
    || exists v :: v in s.failed && MsgId(v) == Some(id)
  }

  lemma IngestedFate(s: State, k: string, id: string)
    requires k in s.server.archives && id in IdsOf(s.server.archives[k]) && SentAsMessage(s, id)
    requires Handled(s.server.archives[k], s.stored, s.failed)
    requires forall v :: v in s.server.archives[k] ==> v in s.server.sent
    ensures id in s.stored || exists v :: v in s.failed && MsgId(v) == Some(id)
  {
    var v :| v in s.server.archives[k] && MsgId(v) == Some(id);
    assert ProperMessage(v) && IdOf(v) == id;
  }

  lemma InvNotLost(s: State, id: string)
    requires Inv(s) && SentAsMessage(s, id)
    ensures NotLost(s, id)
  {
    if !StillOnServer(s, id) {
      var k := OnlyIngestedCopy(s.server, s.ingested, id) by {
        var sent :| sent in s.server.sent && MsgId(sent) == Some(id);
        assert Compaction.OnServer(s.server, id);
      }
      IngestedHandled(s, k);
      ArchivedWereSent(s.server, k);
      IngestedFate(s, k, id);
    }
  }

  lemma OnlyIngestedCopy(s: Compaction.State, ingested: set<string>, id: string) returns (k: string)
    requires Compaction.OnServer(s, id) && id !in s.live
    requires forall k :: k in s.archives && k !in ingested ==> id !in IdsOf(s.archives[k])
    ensures k in s.archives && k in ingested && id in IdsOf(s.archives[k])
  {
    k :| k in s.archives && id in IdsOf(s.archives[k]);
  }

  /** No message is lost: however sends, compactions and sync passes interleave and wherever
      they die, each message ever sent is stored on the device, or still on the server in the
      live prefix or an archive not marked, or failed to decrypt under a session the device knew. */
  lemma NoMessageIsLost(steps: seq<Step>)
    requires Possible(Init, steps)
    ensures var s := Exec(Init, steps); forall id :: SentAsMessage(s, id) ==> NotLost(s, id)
  {
    InvExec(Init, steps);
    var s := Exec(Init, steps);
    forall id | SentAsMessage(s, id) ensures NotLost(s, id) {
      InvNotLost(s, id);
    }
  }

  lemma ArchivedWereSent(s: Compaction.State, k: string)
    requires Compaction.Inv(s) && k in s.archives
    ensures forall v :: v in s.archives[k] ==> v in s.sent
  {
    assert Compaction.Logged(s, k);
    var q :| 0 <= q < |s.puts| && s.puts[q] == Compaction.Archive(k, s.archives[k]);
  }
}
