/** What the next sync of a device gets to see. The live listing starts at the stored cursor,
    which a sync saves before it saves its messages, so a message can be on the server and yet
    out of the next sync's reach. */
module Reach {
  import opened Wrappers
  import opened Lex
  import opened Cbor
  import opened SortedStore
  import opened EndToEnd
  import Compaction
  import CompactionHandler
  import Ingest
  import Sync = SyncHandler

  ghost function ArchiveKeys(s: State): seq<string>
  {
    Matching(s.server.archives.Keys, "", None)
  }

  /** The ids in these archives, leaving out the skipped ones. */
  function ArchivedIds(archives: map<string, seq<Value>>, keys: seq<string>, skip: set<string>): set<string>
  {
    if keys == [] then {}
    else
      var n := |keys| - 1;
      ArchivedIds(archives, keys[..n], skip)
        + (if keys[n] in archives && keys[n] !in skip then IdsOf(archives[keys[n]]) else {})
  }

  ghost function LiveIds(s: State): set<string>
  {
    IdsOf(CompactionHandler.ValuesAt(s.server.live, LivePage(s)))
  }

  /** On the first page above the cursor, or in an archive not marked as ingested. */
  ghost predicate WithinReach(s: State, id: string)
  {
    id in LivePage(s)
    || exists k :: k in s.server.archives && k !in s.ingested && id in IdsOf(s.server.archives[k])
  }

  // ---- a pass that nothing disturbs ----

  /** A step of pass `p` whose requests succeed, or a key it learned. */
  predicate Quiet(step: Step, p: nat)
  {
    step.KeyArrives?
    || (TakenBy(step, p) && !step.ListFails? && (step.ListLive? ==> !step.fromStart)
        && (step.GetLive? ==> step.ok) && (step.TakeArchive? ==> step.ok))
  }

  ghost predicate ArchivesQuiet(s0: State, pass: SyncPass)
  {
    && pass.skip == s0.ingested && pass.listed == ArchiveKeys(s0) && pass.taken <= |pass.listed|
    && match pass.current
       case None =>
         pass.handed == LiveIds(s0) + ArchivedIds(s0.server.archives, pass.listed[..pass.taken], pass.skip)
       case Some(d) =>
         && pass.taken > 0 && d.key == Some(pass.listed[pass.taken - 1])
         && d.key.value in s0.server.archives && d.key.value !in pass.skip
         && d.entries == s0.server.archives[d.key.value] && d.next <= |d.entries|
         && pass.handed == LiveIds(s0) + ArchivedIds(s0.server.archives, pass.listed[..pass.taken - 1], pass.skip)
                           + IdsOf(d.entries[..d.next])
  }

  ghost predicate LiveQuiet(s0: State, pass: SyncPass)
  {
    match pass.current
    case None => pass.handed == LiveIds(s0)
    case Some(d) =>
      && d.key == None && d.entries == CompactionHandler.ValuesAt(s0.server.live, pass.page)
      && d.next <= |d.entries| && pass.handed == IdsOf(d.entries[..d.next])
  }

  /** How far an undisturbed pass is, phase by phase. */
  ghost predicate PassQuiet(s0: State, pass: SyncPass)
  {
    && pass.from == s0.cursor
    && (!pass.phase.Began? ==> pass.page == LivePage(s0))
    && (!pass.phase.LiveRead? && !pass.phase.Archives? ==> pass.current == None)
    && (!pass.phase.Archives? && !pass.phase.CursorSaved? && !pass.phase.Saved? ==> pass.taken == 0)
    && match pass.phase
       case Began => pass.handed == {} && pass.read == 0 && pass.fetched == [] && pass.listed == []
       case Listed =>
         && pass.handed == {} && pass.read <= |pass.page| && pass.listed == []
         && pass.fetched == CompactionHandler.ValuesAt(s0.server.live, pass.page[..pass.read])
       case LiveRead => pass.listed == [] && LiveQuiet(s0, pass)
       case Ids => pass.listed == [] && pass.handed == LiveIds(s0)
       case Listing(from) =>
         && pass.handed == LiveIds(s0) && pass.skip == s0.ingested
         && ArchiveKeys(s0) == pass.listed + Matching(s0.server.archives.Keys, "", from)
       case Archives => ArchivesQuiet(s0, pass)
       case _ => pass.handed == LiveIds(s0) + ArchivedIds(s0.server.archives, ArchiveKeys(s0), s0.ingested)
  }

  lemma ValuesNext(live: map<string, Value>, keys: seq<string>, n: nat)
    requires n < |keys|
    ensures CompactionHandler.ValuesAt(live, keys[..n + 1])
         == CompactionHandler.ValuesAt(live, keys[..n]) + if keys[n] in live then [live[keys[n]]] else []
  {
    assert keys[..n + 1][..n] == keys[..n];
  }

  lemma ArchivedIdsNext(archives: map<string, seq<Value>>, keys: seq<string>, skip: set<string>, n: nat)
    requires n < |keys|
    ensures ArchivedIds(archives, keys[..n + 1], skip)
         == ArchivedIds(archives, keys[..n], skip)
            + if keys[n] in archives && keys[n] !in skip then IdsOf(archives[keys[n]]) else {}
  {
    assert keys[..n + 1][..n] == keys[..n];
  }

  lemma ListStep(s0: State, s: State, step: Step, p: nat)
    requires s.server == s0.server && HasPass(s, p) && PassQuiet(s0, s.passes[p]) && Enabled(s, step)
    requires Quiet(step, p) && step.ListLive?
    ensures PassQuiet(s0, Apply(s, step).passes[p])
  {
    assert step.page.keys[..0] == [];
  }

  lemma GetStep(s0: State, s: State, step: Step, p: nat)
    requires s.server == s0.server && HasPass(s, p) && PassQuiet(s0, s.passes[p]) && Enabled(s, step)
    requires Quiet(step, p) && step.GetLive?
    ensures PassQuiet(s0, Apply(s, step).passes[p])
  {
    ValuesNext(s0.server.live, s.passes[p].page, s.passes[p].read);
  }

  lemma OpenStep(s0: State, s: State, step: Step, p: nat)
    requires s.server == s0.server && HasPass(s, p) && PassQuiet(s0, s.passes[p]) && Enabled(s, step)
    requires Quiet(step, p) && step.OpenLive?
    ensures PassQuiet(s0, Apply(s, step).passes[p])
  {
    var pass := s.passes[p];
    assert pass.page[..pass.read] == pass.page;
    var entries := CompactionHandler.ValuesAt(s0.server.live, pass.page);
    assert entries[..0] == [] && IdsOf(entries[..0]) == {};
  }

  lemma LiveSteps(s0: State, s: State, step: Step, p: nat)
    requires s.server == s0.server && HasPass(s, p) && PassQuiet(s0, s.passes[p]) && Enabled(s, step)
    requires Quiet(step, p) && (step.ListLive? || step.GetLive? || step.OpenLive?)
    ensures PassQuiet(s0, Apply(s, step).passes[p])
  {
    match step
    case ListLive(_, _, _) => ListStep(s0, s, step, p);
    case GetLive(_, _) => GetStep(s0, s, step, p);
    case OpenLive(_) => OpenStep(s0, s, step, p);
  }

  /** The loop's own bookkeeping is all that counts here. */
  lemma EntryBookkeeping(s: State, p: nat)
    requires HasPass(s, p) && MoreEntries(s.passes[p])
    ensures var pass := s.passes[p];
            var d := pass.current.value;
            var v := d.entries[d.next];
            var r := EntryStep(s, p);
            && p in r.passes
            && r.passes[p].(messages := pass.messages, seen := pass.seen)
                 == Advance(pass, v, Ingest.OutcomeOf(v, pass.seen, s.sessions).Skipped?)
            && r.server == s.server && r.ingested == s.ingested && r.cursor == s.cursor
  {
  }

  lemma QuietIgnores(s0: State, pass: SyncPass, messages: set<string>, seen: set<string>)
    ensures PassQuiet(s0, pass.(messages := messages, seen := seen)) <==> PassQuiet(s0, pass)
  {
  }

  lemma AdvanceQuiet(s0: State, pass: SyncPass, skipped: bool)
    requires PassQuiet(s0, pass) && MoreEntries(pass)
    ensures PassQuiet(s0, Advance(pass, pass.current.value.entries[pass.current.value.next], skipped))
  {
    IdsOfNext(pass.current.value.entries, pass.current.value.next);
  }

  lemma EntryQuiet(s0: State, s: State, p: nat)
    requires HasPass(s, p) && MoreEntries(s.passes[p]) && PassQuiet(s0, s.passes[p])
    ensures p in EntryStep(s, p).passes && PassQuiet(s0, EntryStep(s, p).passes[p])
  {
    var pass := s.passes[p];
    var v := pass.current.value.entries[pass.current.value.next];
    EntryBookkeeping(s, p);
    AdvanceQuiet(s0, pass, Ingest.OutcomeOf(v, pass.seen, s.sessions).Skipped?);
    QuietIgnores(s0, EntryStep(s, p).passes[p], pass.messages, pass.seen);
  }

  lemma ClosedQuiet(s0: State, pass: SyncPass)
    requires PassQuiet(s0, pass) && ReadingDone(pass)
    ensures PassQuiet(s0, Closed(pass))
  {
    var d := pass.current.value;
    assert d.entries[..d.next] == d.entries;
    if pass.phase.Archives? { ArchivedIdsNext(s0.server.archives, pass.listed, pass.skip, pass.taken - 1); }
  }

  lemma TakenQuiet(s0: State, s: State, pass: SyncPass)
    requires s.server == s0.server && PassQuiet(s0, pass)
    requires pass.phase.Archives? && pass.current.None? && pass.taken < |pass.listed|
    ensures PassQuiet(s0, Taken(s, pass, true))
  {
    var key := pass.listed[pass.taken];
    ArchivedIdsNext(s0.server.archives, pass.listed, pass.skip, pass.taken);
    if key !in pass.skip && key in s0.server.archives {
      var entries := s0.server.archives[key];
      assert entries[..0] == [] && IdsOf(entries[..0]) == {};
    }
  }

  lemma ListedQuiet(s0: State, s: State, page: Page, p: nat)
    requires s.server == s0.server && HasPass(s, p) && PassQuiet(s0, s.passes[p])
    requires Enabled(s, ListArchives(p, page))
    ensures PassQuiet(s0, Apply(s, ListArchives(p, page)).passes[p])
  {
    var keys, from := s0.server.archives.Keys, s.passes[p].phase.from;
    var listed := s.passes[p].listed + page.keys;
    if page.next.Some? {
      PageResumes(keys, "", STORE_LIST_LIMIT, from);
      assert s.passes[p].listed + (page.keys + Matching(keys, "", page.next)) == listed + Matching(keys, "", page.next);
    } else {
      assert listed[..0] == [];
    }
  }

  lemma LateSteps(s0: State, s: State, step: Step, p: nat)
    requires s.server == s0.server && HasPass(s, p) && PassQuiet(s0, s.passes[p]) && Enabled(s, step)
    requires Quiet(step, p) && (step.LoadIds? || step.LoadIngested? || step.SaveCursor? || step.Save?)
    requires s.ingested == s0.ingested
    ensures PassQuiet(s0, Apply(s, step).passes[p])
  {
    var pass := s.passes[p];
    if step.SaveCursor? { assert pass.listed[..pass.taken] == pass.listed; }
    if step.LoadIngested? { assert [] + ArchiveKeys(s0) == ArchiveKeys(s0); }
  }

  lemma QuietStep(s0: State, s: State, step: Step, p: nat)
    requires s.server == s0.server && s.ingested == s0.ingested
    requires HasPass(s, p) && PassQuiet(s0, s.passes[p]) && Enabled(s, step) && Quiet(step, p)
    ensures HasPass(Apply(s, step), p) && PassQuiet(s0, Apply(s, step).passes[p])
  {
    match step
    case NextEntry(_) => EntryQuiet(s0, s, p);
    case Close(_) => ClosedQuiet(s0, s.passes[p]);
    case TakeArchive(_, _) => TakenQuiet(s0, s, s.passes[p]);
    case ListArchives(_, page) => ListedQuiet(s0, s, page, p);
    case KeyArrives(_, _) =>
    case ListLive(_, _, _) => LiveSteps(s0, s, step, p);
    case GetLive(_, _) => LiveSteps(s0, s, step, p);
    case OpenLive(_) => LiveSteps(s0, s, step, p);
    case _ => LateSteps(s0, s, step, p);
  }

  ghost predicate QuietInv(s0: State, s: State, p: nat)
  {
    && s.server == s0.server && s.ingested == s0.ingested
    && if HasPass(s, p) then PassQuiet(s0, s.passes[p]) else s.cursor == s0.cursor
  }

  lemma QuietInvStep(s0: State, s: State, step: Step, p: nat)
    requires QuietInv(s0, s, p) && Enabled(s, step) && Quiet(step, p)
    ensures QuietInv(s0, Apply(s, step), p)
  {
    QuietFrame(s, step, p);
    if HasPass(s, p) { QuietStep(s0, s, step, p); }
  }

  lemma QuietFrame(s: State, step: Step, p: nat)
    requires Enabled(s, step) && Quiet(step, p)
    ensures var t := Apply(s, step);
            && t.server == s.server && t.ingested == s.ingested
            && (!HasPass(s, p) ==> t.cursor == s.cursor && (HasPass(t, p) ==> t.passes[p] == FreshPass(s.cursor)))
  {
    if step.NextEntry? { EntryBookkeeping(s, p); }
  }

  ghost predicate AllQuiet(steps: seq<Step>, p: nat)
  {
    forall i :: 0 <= i < |steps| ==> Quiet(steps[i], p)
  }

  lemma {:induction false} QuietRun(s0: State, s: State, steps: seq<Step>, p: nat)
    requires QuietInv(s0, s, p) && Possible(s, steps) && AllQuiet(steps, p)
    ensures QuietInv(s0, Exec(s, steps), p)
    decreases |steps|
  {
    if steps != [] {
      assert Quiet(steps[0], p);
      QuietInvStep(s0, s, steps[0], p);
      assert forall i :: 0 <= i < |steps| - 1 ==> steps[1..][i] == steps[i + 1];
      QuietRun(s0, Apply(s, steps[0]), steps[1..], p);
    }
  }

  // ---- exactly what it reaches ----

  lemma {:induction false} ArchivedIdsFacts(archives: map<string, seq<Value>>, keys: seq<string>, skip: set<string>,
                                            id: string)
    ensures id in ArchivedIds(archives, keys, skip)
       <==> exists k :: k in keys && k in archives && k !in skip && id in IdsOf(archives[k])
  {
    if keys != [] {
      var n := |keys| - 1;
      ArchivedIdsFacts(archives, keys[..n], skip, id);
      assert forall k :: k in keys <==> k in keys[..n] || k == keys[n];
    }
  }

  lemma {:induction false} IdsAtFacts(live: map<string, Value>, keys: seq<string>)
    requires forall k :: k in keys ==> k in live && MsgId(live[k]) == Some(k)
    ensures forall id :: id in IdsOf(CompactionHandler.ValuesAt(live, keys)) <==> id in keys
  {
    if keys != [] {
      var n := |keys| - 1;
      assert keys[n] in keys;
      IdsAtFacts(live, keys[..n]);
      IdsConcat(CompactionHandler.ValuesAt(live, keys[..n]), [live[keys[n]]]);
      assert IdsOf([live[keys[n]]]) == {keys[n]} by { assert live[keys[n]] in [live[keys[n]]]; }
      assert forall k :: k in keys <==> k in keys[..n] || k == keys[n];
    }
  }

  lemma LivePagePresent(s: State)
    ensures forall k :: k in LivePage(s) ==> k in s.server.live && (s.cursor.Some? ==> Less(s.cursor.value, k))
  {
    var all := Matching(s.server.live.Keys, "", s.cursor);
    MatchingFacts(s.server.live.Keys, "", s.cursor);
    assert forall k :: k in LivePage(s) ==> k in all;
  }

  lemma ReachSet(s: State, id: string)
    requires Inv(s)
    ensures id in LiveIds(s) + ArchivedIds(s.server.archives, ArchiveKeys(s), s.ingested) <==> WithinReach(s, id)
  {
    LivePagePresent(s);
    LiveKeyed(s);
    IdsAtFacts(s.server.live, LivePage(s));
    ArchivedIdsFacts(s.server.archives, ArchiveKeys(s), s.ingested, id);
    MatchingFacts(s.server.archives.Keys, "", None);
  }

  lemma LiveKeyed(s: State)
    requires Inv(s)
    ensures forall id :: id in s.server.live ==> MsgId(s.server.live[id]) == Some(id)
  {
  }

  /** Exactly which ids a sync gets to see: whatever the reachable state it starts from, an
      undisturbed sync whose requests succeed hands its message loops an id if and only if the
      id is within reach when it starts. */
  lemma PassReaches(before: seq<Step>, p: nat, steps: seq<Step>, id: string)
    requires Possible(Init, before) && !HasPass(Exec(Init, before), p)
    requires Possible(Exec(Init, before), steps) && AllQuiet(steps, p)
    requires var t := Exec(Exec(Init, before), steps);
             HasPass(t, p) && (t.passes[p].phase.CursorSaved? || t.passes[p].phase.Saved?)
    ensures id in Exec(Exec(Init, before), steps).passes[p].handed <==> WithinReach(Exec(Init, before), id)
  {
    InvExec(Init, before);
    var s0 := Exec(Init, before);
    QuietRun(s0, s0, steps, p);
    ReachSet(s0, id);
  }

  // ---- and what becomes of what it sees ----

  /** Stored, failed under a known session, in an archive left unmarked, or live and of a session
      that stayed unknown when the live page's shares had been applied. */
  ghost predicate DealtWith(s: State, id: string, me: nat, stored: set<string>, failed: set<Value>,
                            ingested: set<string>)
  {
    || id in stored
    || (exists v :: v in failed && MsgId(v) == Some(id))
    || (exists k :: k in s.server.archives && k !in ingested && id in IdsOf(s.server.archives[k]))
    || (&& id in s.server.live && Ingest.ProperMessage(s.server.live[id])
        && Ingest.SessionOf(s.server.live[id]).value !in
             Ingest.ApplyShares(CompactionHandler.ValuesAt(s.server.live, LivePage(s)), me, {}, s.sessions))
  }

  lemma SentAsProper(s: State, id: string, v: Value)
    requires SentAsMessage(s, id) && v in s.server.sent && MsgId(v) == Some(id)
    ensures Ingest.ProperMessage(v) && Ingest.IdOf(v) == id
  {
  }

  lemma LiveDealtWith(s: State, id: string, me: nat, stored: set<string>, failed: set<Value>, ingested: set<string>)
    requires Inv(s) && SentAsMessage(s, id) && id in LivePage(s)
    requires var f := Sync.FetchedFrom(s, me); Ingest.IdsIn(f.messages) <= stored && f.failed <= failed
    ensures DealtWith(s, id, me, stored, failed, ingested)
  {
    var page := CompactionHandler.ValuesAt(s.server.live, LivePage(s));
    Ingest.FetchedDealsWith(page, ArchiveKeys(s), s.server.archives, me, s.sessions, s.stored, s.ingested);
    LivePagePresent(s);
    LiveKeyed(s);
    ValueAtKey(s.server.live, LivePage(s), id);
    SentAsProper(s, id, s.server.live[id]);
  }

  lemma {:induction false} ValueAtKey(live: map<string, Value>, keys: seq<string>, k: string)
    requires k in keys && k in live
    ensures live[k] in CompactionHandler.ValuesAt(live, keys)
  {
    var n := |keys| - 1;
    assert keys == keys[..n] + [keys[n]];
    if k in keys[..n] { ValueAtKey(live, keys[..n], k); }
  }

  lemma ArchivedDealtWith(s: State, id: string, me: nat, stored: set<string>, failed: set<Value>, ingested: set<string>,
                          key: string)
    requires Inv(s) && SentAsMessage(s, id)
    requires key in s.server.archives && key !in s.ingested && id in IdsOf(s.server.archives[key])
    requires var f := Sync.FetchedFrom(s, me);
             && s.stored + Ingest.IdsIn(f.messages) <= stored && f.failed <= failed
             && (key in ingested ==> key in f.candidates)
    ensures DealtWith(s, id, me, stored, failed, ingested)
  {
    if key in ingested {
      Ingest.FetchedDealsWith(CompactionHandler.ValuesAt(s.server.live, LivePage(s)), ArchiveKeys(s),
                              s.server.archives, me, s.sessions, s.stored, s.ingested);
      var v :| v in s.server.archives[key] && MsgId(v) == Some(id);
      ArchivedWereSent(s.server, key);
      SentAsProper(s, id, v);
    }
  }

  /** From any reachable state: after an undisturbed sync whose save succeeds, every message that
      was within reach is dealt with, whichever marks were written. What such a sync leaves in the
      store, the failures and the marks is what `SyncAndPublish` promises. */
  lemma WithinReachIsDealtWith(before: seq<Step>, me: nat, markOk: set<string>, id: string)
    requires Possible(Init, before)
    requires SentAsMessage(Exec(Init, before), id) && WithinReach(Exec(Init, before), id)
    ensures var s := Exec(Init, before);
            var f := Sync.FetchedFrom(s, me);
            DealtWith(s, id, me, s.stored + Ingest.IdsIn(f.messages), s.failed + f.failed,
                      s.ingested + Sync.Marks(f.candidates, markOk))
  {
    InvExec(Init, before);
    var s := Exec(Init, before);
    var f := Sync.FetchedFrom(s, me);
    var stored, failed := s.stored + Ingest.IdsIn(f.messages), s.failed + f.failed;
    var ingested := s.ingested + Sync.Marks(f.candidates, markOk);
    if id in LivePage(s) {
      LiveDealtWith(s, id, me, stored, failed, ingested);
    } else {
      var k :| k in s.server.archives && k !in s.ingested && id in IdsOf(s.server.archives[k]);
      ArchivedDealtWith(s, id, me, stored, failed, ingested, k);
    }
  }

  // ---- the cursor hides what a failed save dropped ----

  /** On the server, and no sync that lists from the cursor will see it until something moves it. */
  ghost predicate Hidden(s: State, id: string)
  {
    StillOnServer(s, id) && !WithinReach(s, id)
  }

  /** What still shows a hidden message: a sync whose listing above the cursor fails lists from
      the start, and that page has a live id if and only if it has room for it. */
  lemma StartPageShows(s: State, id: string)
    ensures id in PageOf(s.server.live.Keys, "", STORE_LIST_LIMIT, None).keys <==>
              id in s.server.live && |set k | k in s.server.live && Less(k, id)| < STORE_LIST_LIMIT
  {
    FirstPageHas(s.server.live.Keys, STORE_LIST_LIMIT, id);
    assert (set k | k in s.server.live && Less(k, id)) == (set k | k in s.server.live.Keys && Less(k, id));
  }

  ghost predicate PagesAscend(s: State)
  {
    forall p :: p in s.passes ==> Ascending(s.passes[p].page)
  }

  lemma PageStep(s: State, step: Step, p: nat)
    requires Enabled(s, step) && p in Apply(s, step).passes
    requires p in s.passes ==> Ascending(s.passes[p].page)
    ensures Ascending(Apply(s, step).passes[p].page)
  {
    if !TakenBy(step, p) {
      OtherPasses(s, step, p);
    } else if step.ListLive? {
      MatchingFacts(s.server.live.Keys, "", if step.fromStart then None else s.passes[p].from);
    } else if step.NextEntry? {
      EntryBookkeeping(s, p);
    }
  }

  lemma {:induction false} PagesAscendExec(s: State, steps: seq<Step>)
    requires PagesAscend(s) && Possible(s, steps)
    ensures PagesAscend(Exec(s, steps))
    decreases |steps|
  {
    if steps != [] {
      var t := Apply(s, steps[0]);
      forall p | p in t.passes ensures Ascending(t.passes[p].page) { PageStep(s, steps[0], p); }
      PagesAscendExec(t, steps[1..]);
    }
  }

  /** In every run, saving the cursor puts the whole page of the pass at or below it, whatever
      becomes of its messages: no listing from there has them. */
  lemma SavedCursorHides(before: seq<Step>, p: nat, id: string)
    requires Possible(Init, before) && Enabled(Exec(Init, before), SaveCursor(p))
    requires id in Exec(Init, before).passes[p].page
    ensures id !in LivePage(Apply(Exec(Init, before), SaveCursor(p)))
  {
    var s := Exec(Init, before);
    PagesAscendExec(Init, before);
    NotAboveLast(s.passes[p].page, id);
    LivePagePresent(Apply(s, SaveCursor(p)));
  }

  lemma NotAboveLast(page: seq<string>, id: string)
    requires Ascending(page) && id in page
    ensures !Less(page[|page| - 1], id)
  {
    var i :| 0 <= i < |page| && page[i] == id;
    if i < |page| - 1 { LessAsymmetric(id, page[|page| - 1]); } else { LessIrreflexive(id); }
  }

  // ---- an undisturbed pass can always be completed ----

  predicate CursorIsSaved(s: State, p: nat)
  {
    HasPass(s, p) && s.passes[p].phase.CursorSaved?
  }

  function Rank(phase: Phase): nat
  {
    match phase
    case Began => 7
    case Listed => 6
    case LiveRead => 5
    case Ids => 4
    case Listing(_) => 3
    case Archives => 2
    case CursorSaved => 1
    case Saved => 0
  }

  function LoopLeft(pass: SyncPass): nat
  {
    if pass.current.None? then 0
    else if pass.current.value.next <= |pass.current.value.entries|
    then |pass.current.value.entries| - pass.current.value.next + 1
    else 1
  }

  /** What the phase still has to go through. */
  ghost function PhaseLeft(s0: State, pass: SyncPass): nat
  {
    match pass.phase
    case Listed => if pass.read <= |pass.page| then |pass.page| - pass.read else 0
    case Listing(from) => |Matching(s0.server.archives.Keys, "", from)|
    case Archives => if pass.taken <= |pass.listed| then |pass.listed| - pass.taken else 0
    case _ => 0
  }

  /** The step an undisturbed pass takes next. */
  ghost function NextStep(s: State, p: nat): Step
    requires HasPass(s, p)
  {
    var pass := s.passes[p];
    match pass.phase
    case Began => ListLive(p, false, PageOf(s.server.live.Keys, "", STORE_LIST_LIMIT, pass.from))
    case Listed => if pass.read < |pass.page| then GetLive(p, true) else OpenLive(p)
    case LiveRead =>
      if pass.current.None? then LoadIds(p)
      else if MoreEntries(pass) then NextEntry(p) else Close(p)
    case Ids => LoadIngested(p)
    case Listing(from) => ListArchives(p, PageOf(s.server.archives.Keys, "", STORE_LIST_LIMIT, from))
    case Archives =>
      if pass.current.Some? then if MoreEntries(pass) then NextEntry(p) else Close(p)
      else if pass.taken < |pass.listed| then TakeArchive(p, true) else SaveCursor(p)
    case _ => Save(p)
  }

  /** Nothing the pass counts has run past its end. */
  predicate Bounded(pass: SyncPass)
  {
    && (pass.phase.Listed? ==> pass.read <= |pass.page|)
    && (pass.phase.Archives? ==> pass.taken <= |pass.listed|)
    && (pass.current.Some? ==> pass.current.value.next <= |pass.current.value.entries|)
  }

  lemma QuietBounded(s0: State, s: State, p: nat)
    requires QuietInv(s0, s, p) && HasPass(s, p)
    ensures Bounded(s.passes[p])
    ensures s.passes[p].current.Some? ==> s.passes[p].phase.LiveRead? || s.passes[p].phase.Archives?
  {
  }

  lemma NextStepFits(s: State, p: nat)
    requires HasPass(s, p) && Bounded(s.passes[p])
    requires s.passes[p].current.Some? ==> s.passes[p].phase.LiveRead? || s.passes[p].phase.Archives?
    requires !s.passes[p].phase.CursorSaved? && !s.passes[p].phase.Saved?
    ensures Enabled(s, NextStep(s, p)) && Quiet(NextStep(s, p), p) && !NextStep(s, p).Save?
  {
  }

  lemma NextStepEnabled(s0: State, s: State, p: nat)
    requires QuietInv(s0, s, p) && HasPass(s, p) && !s.passes[p].phase.CursorSaved? && !s.passes[p].phase.Saved?
    ensures Enabled(s, NextStep(s, p)) && Quiet(NextStep(s, p), p) && !NextStep(s, p).Save?
  {
    QuietBounded(s0, s, p);
    NextStepFits(s, p);
  }

  ghost predicate Progress(s0: State, a: SyncPass, b: SyncPass)
  {
    !b.phase.Saved?
    && (Rank(b.phase) < Rank(a.phase)
        || (Rank(b.phase) == Rank(a.phase)
            && (PhaseLeft(s0, b) < PhaseLeft(s0, a)
                || (PhaseLeft(s0, b) == PhaseLeft(s0, a) && LoopLeft(b) < LoopLeft(a)))))
  }

  lemma EntryProgress(s0: State, s: State, p: nat)
    requires HasPass(s, p) && MoreEntries(s.passes[p])
    ensures p in EntryStep(s, p).passes && Progress(s0, s.passes[p], EntryStep(s, p).passes[p])
  {
    EntryBookkeeping(s, p);
  }

  lemma ListingProgress(s0: State, s: State, p: nat)
    requires s.server == s0.server && HasPass(s, p) && s.passes[p].phase.Listing? && Enabled(s, NextStep(s, p))
    ensures var t := Apply(s, NextStep(s, p)); HasPass(t, p) && Progress(s0, s.passes[p], t.passes[p])
  {
    if NextStep(s, p).page.next.Some? {
      PageResumes(s0.server.archives.Keys, "", STORE_LIST_LIMIT, s.passes[p].phase.from);
    }
  }

  lemma LiveProgress(s0: State, s: State, p: nat)
    requires HasPass(s, p) && (s.passes[p].phase.Began? || s.passes[p].phase.Listed?) && Enabled(s, NextStep(s, p))
    ensures var t := Apply(s, NextStep(s, p)); HasPass(t, p) && Progress(s0, s.passes[p], t.passes[p])
  {
  }

  lemma LoopProgress(s0: State, s: State, p: nat)
    requires HasPass(s, p) && (s.passes[p].phase.LiveRead? || s.passes[p].phase.Archives? || s.passes[p].phase.Ids?)
    requires Enabled(s, NextStep(s, p)) && !NextStep(s, p).NextEntry?
    ensures var t := Apply(s, NextStep(s, p)); HasPass(t, p) && Progress(s0, s.passes[p], t.passes[p])
  {
  }

  lemma NextStepProgress(s0: State, s: State, p: nat)
    requires s.server == s0.server && HasPass(s, p) && Enabled(s, NextStep(s, p))
    requires !s.passes[p].phase.CursorSaved? && !s.passes[p].phase.Saved?
    ensures var t := Apply(s, NextStep(s, p)); HasPass(t, p) && Progress(s0, s.passes[p], t.passes[p])
  {
    match s.passes[p].phase
    case Listing(_) => ListingProgress(s0, s, p);
    case Began => LiveProgress(s0, s, p);
    case Listed => LiveProgress(s0, s, p);
    case Ids => LoopProgress(s0, s, p);
    case LiveRead => if NextStep(s, p).NextEntry? { EntryProgress(s0, s, p); } else { LoopProgress(s0, s, p); }
    case Archives => if NextStep(s, p).NextEntry? { EntryProgress(s0, s, p); } else { LoopProgress(s0, s, p); }
  }

  /** From any point of an undisturbed pass there are quiet steps to the saved cursor. */
  lemma {:induction false} CompletePass(s0: State, s: State, p: nat) returns (steps: seq<Step>)
    requires QuietInv(s0, s, p) && HasPass(s, p) && !s.passes[p].phase.Saved?
    ensures Possible(s, steps) && AllQuiet(steps, p) && CursorIsSaved(Exec(s, steps), p)
    ensures Exec(s, steps).stored == s.stored && Exec(s, steps).server == s.server
    decreases Rank(s.passes[p].phase), PhaseLeft(s0, s.passes[p]), LoopLeft(s.passes[p])
  {
    if s.passes[p].phase.CursorSaved? {
      steps := [];
    } else {
      var step := NextStep(s, p);
      NextStepEnabled(s0, s, p);
      NextStepProgress(s0, s, p);
      QuietInvStep(s0, s, step, p);
      StoredKept(s, step, p);
      var rest := CompletePass(s0, Apply(s, step), p);
      steps := [step] + rest;
      assert steps[1..] == rest;
      assert forall i :: 0 < i < |steps| ==> steps[i] == rest[i - 1];
    }
  }

  lemma StoredKept(s: State, step: Step, p: nat)
    requires Enabled(s, step) && Quiet(step, p) && !step.Save?
    ensures Apply(s, step).stored == s.stored && Apply(s, step).server == s.server
  {
    if step.NextEntry? { EntryStored(s, p); }
  }

  lemma EntryStored(s: State, p: nat)
    requires HasPass(s, p) && MoreEntries(s.passes[p])
    ensures EntryStep(s, p).stored == s.stored && EntryStep(s, p).server == s.server
  {
  }

  /** The failed save. In any reachable state, take a live id that is on the next sync's page and
      in no unmarked archive: the sync that lists it can run to its saved cursor, and if it dies
      there the id is not stored by it, still live, and hidden from every next sync that lists
      from the cursor. */
  lemma FailedSaveHides(before: seq<Step>, p: nat, id: string) returns (steps: seq<Step>)
    requires Possible(Init, before) && !HasPass(Exec(Init, before), p)
    requires id in LivePage(Exec(Init, before))
    requires var s := Exec(Init, before);
             forall k :: k in s.server.archives && k !in s.ingested ==> id !in IdsOf(s.server.archives[k])
    ensures Possible(Exec(Init, before), steps) && AllQuiet(steps, p)
    ensures var s, t := Exec(Init, before), Exec(Exec(Init, before), steps);
            && CursorIsSaved(t, p) && id in t.passes[p].handed
            && t.stored == s.stored && id in t.server.live && Hidden(t, id)
  {
    var s := Exec(Init, before);
    InvExec(Init, before);
    LivePagePresent(s);
    var s1 := Apply(s, Begin(p));
    QuietInvStep(s, s, Begin(p), p);
    var rest := CompletePass(s, s1, p);
    steps := [Begin(p)] + rest;
    assert steps[1..] == rest;
    assert forall i :: 0 < i < |steps| ==> steps[i] == rest[i - 1];
    QuietRun(s, s1, rest, p);
    PassReaches(before, p, steps, id);
    SavedCursorHidesAfter(s, s1, rest, p, id);
  }

  /** A pass that stands at its saved cursor has the cursor at its page's end. */
  ghost predicate CursorAtPageEnd(s: State, p: nat)
  {
    CursorIsSaved(s, p) ==>
      s.passes[p].page == [] || s.cursor == Some(s.passes[p].page[|s.passes[p].page| - 1])
  }

  lemma CursorStep(s: State, step: Step, p: nat)
    requires Enabled(s, step) && Quiet(step, p) && CursorAtPageEnd(s, p)
    ensures CursorAtPageEnd(Apply(s, step), p)
  {
    if step.NextEntry? { EntryBookkeeping(s, p); }
  }

  lemma {:induction false} CursorExec(s: State, steps: seq<Step>, p: nat)
    requires Possible(s, steps) && AllQuiet(steps, p) && CursorAtPageEnd(s, p)
    ensures CursorAtPageEnd(Exec(s, steps), p)
    decreases |steps|
  {
    if steps != [] {
      assert Quiet(steps[0], p);
      CursorStep(s, steps[0], p);
      assert forall i :: 0 <= i < |steps| - 1 ==> steps[1..][i] == steps[i + 1];
      CursorExec(Apply(s, steps[0]), steps[1..], p);
    }
  }

  lemma SavedCursorHidesAfter(s0: State, s: State, steps: seq<Step>, p: nat, id: string)
    requires Possible(s, steps) && AllQuiet(steps, p) && !CursorIsSaved(s, p)
    requires QuietInv(s0, Exec(s, steps), p) && CursorIsSaved(Exec(s, steps), p)
    requires id in LivePage(s0)
    ensures id !in LivePage(Exec(s, steps))
  {
    var t := Exec(s, steps);
    CursorExec(s, steps, p);
    MatchingFacts(s0.server.live.Keys, "", s0.cursor);
    NotAboveLast(LivePage(s0), id);
    LivePagePresent(t);
  }

  // ---- and a compaction brings it back ----

  /** What the compaction the sync triggers is for: an undisturbed compaction up to the cursor
      puts every live message at or below it within the next sync's reach. */
  lemma CompactionReveals(s: State, today: string, key: string, live': map<string, Value>,
                          archives': map<string, seq<Value>>, reply: CompactionHandler.Reply, id: string)
    requires Inv(s) && s.cursor.Some? && !Compaction.WasPut(s.server, key)
    requires CompactionHandler.Undisturbed(s.server.live, s.server.archives, s.cursor.value, today, key,
                                           live', archives', reply)
    requires id in s.server.live && AtMost(id, s.cursor.value)
    ensures WithinReach(s.(server := s.server.(live := live', archives := archives')), id)
  {
    var live, upTo := s.server.live, s.cursor.value;
    var keys := CompactionHandler.LiveUpTo(live, upTo);
    CompactionHandler.LiveUpToFacts(live, upTo);
    assert id in keys;
    LiveKeyed(s);
    IdsAtFacts(live, keys);
    var earlier := CompactionHandler.EntriesAt(s.server.archives, CompactionHandler.SameDay(s.server.archives, today));
    DedupIds(earlier + CompactionHandler.ValuesAt(live, keys));
    IdsConcat(earlier, CompactionHandler.ValuesAt(live, keys));
    assert id in IdsOf(archives'[key]);
    MarkedWerePut(s, key);
  }

  lemma MarkedWerePut(s: State, key: string)
    requires Inv(s)
    ensures key in s.ingested ==> Compaction.WasPut(s.server, key)
  {
    if key in s.ingested { assert ArchiveHandled(s, key, s.stored); }
  }
}
