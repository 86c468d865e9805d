/** The client's sync, request by request. Whatever happens at its awaits and wherever it dies,
    what it did is part of a run of the end-to-end machine; undisturbed, it computes the
    sequential fetch, saves, and only then marks. */
module SyncHandler {
  import opened Wrappers
  import opened Cbor
  import opened Ingest
  import opened SortedStore
  import E = EndToEnd
  import Compaction
  import CompactionHandler

  lemma {:induction false} ExecAppend(s: E.State, trace: seq<E.Step>, step: E.Step)
    requires E.Possible(s, trace) && E.Enabled(E.Exec(s, trace), step)
    ensures E.Possible(s, trace + [step]) && E.Exec(s, trace + [step]) == E.Apply(E.Exec(s, trace), step)
    decreases |trace|
  {
    var longer := trace + [step];
    if trace == [] {
      assert longer[1..] == [] && longer[0] == step;
      assert E.Possible(E.Apply(s, step), longer[1..]) && E.Exec(E.Apply(s, step), longer[1..]) == E.Apply(s, step);
    } else {
      assert longer[1..] == trace[1..] + [step] && longer[0] == trace[0];
      ExecAppend(E.Apply(s, trace[0]), trace[1..], step);
    }
  }

  ghost predicate History(trace: seq<E.Step>, s: E.State)
  {
    E.Possible(E.Init, trace) && E.Exec(E.Init, trace) == s
  }

  /** A pass whose message loop stands before entry `i` of a batch. */
  function PartWay(pass: E.SyncPass, key: Option<string>, entries: seq<Value>, i: nat, skips: nat, seen: set<string>,
                   messages: seq<Value>): E.SyncPass
    requires i <= |entries|
  {
    pass.(current := Some(E.Reading(key, entries, i, skips)), seen := seen,
          messages := pass.messages + IdsIn(messages), handed := pass.handed + IdsOf(entries[..i]))
  }

  predicate InLoop(pass: E.SyncPass)
  {
    pass.phase.LiveRead? || pass.phase.Archives?
  }

  /** What one entry does to the counters of the loop. */
  function Skips(skips: nat, outcome: Outcome): nat
  {
    if outcome.Skipped? then skips + 1 else skips
  }

  function Seen(seen: set<string>, v: Value, outcome: Outcome): set<string>
  {
    if outcome.Materialized? then seen + {IdOf(v)} else seen
  }

  function Messages(messages: seq<Value>, v: Value, outcome: Outcome): seq<Value>
  {
    if outcome.Materialized? then messages + [v] else messages
  }

  lemma PartWayNext(pass: E.SyncPass, key: Option<string>, entries: seq<Value>, i: nat, skips: nat,
                    seen: set<string>, messages: seq<Value>, o: Outcome)
    requires i < |entries|
    ensures var v := entries[i];
            E.Advance(E.Heard(PartWay(pass, key, entries, i, skips, seen, messages), v, o), v, o.Skipped?)
              == PartWay(pass, key, entries, i + 1, Skips(skips, o), Seen(seen, v, o), Messages(messages, v, o))
  {
    var v := entries[i];
    IdsOfNext(entries, i);
    assert pass.handed + IdsOf(entries[..i]) + IdSet(v) == pass.handed + (IdsOf(entries[..i]) + IdSet(v));
    if o.Materialized? {
      IdsInNext(messages, v);
      assert pass.messages + IdsIn(messages) + {IdOf(v)} == pass.messages + (IdsIn(messages) + {IdOf(v)});
    }
  }

  lemma IdsInNext(messages: seq<Value>, v: Value)
    ensures IdsIn(messages + [v]) == IdsIn(messages) + {IdOf(v)}
  {
    assert forall m :: m in messages + [v] <==> m in messages || m == v;
  }

  lemma EntryIs(s: E.State, p: nat, pass: E.SyncPass, key: Option<string>, entries: seq<Value>, i: nat, skips: nat,
                seen: set<string>, messages: seq<Value>)
    requires i < |entries| && InLoop(pass) && E.HasPass(s, p)
    requires s.passes[p] == PartWay(pass, key, entries, i, skips, seen, messages)
    ensures E.MoreEntries(s.passes[p])
    ensures var v := entries[i];
            var o := OutcomeOf(v, seen, s.sessions);
            E.EntryStep(s, p) == E.SetPass(s.(failed := s.failed + E.Failures(v, o)), p,
              PartWay(pass, key, entries, i + 1, Skips(skips, o), Seen(seen, v, o), Messages(messages, v, o)))
  {
    PartWayNext(pass, key, entries, i, skips, seen, messages, OutcomeOf(entries[i], seen, s.sessions));
  }

  /** Where an undisturbed message loop stands before entry `i`. */
  ghost predicate ReadQuiet(s0: E.State, s: E.State, p: nat, pass: E.SyncPass, key: Option<string>, entries: seq<Value>,
                            i: nat, seenBefore: set<string>, skips: nat, seen: set<string>, messages: seq<Value>)
  {
    && i <= |entries|
    && var b := ApplyMessages(entries[..i], seenBefore, s0.sessions);
       && messages == b.messages && skips == |b.skipped| && seen == b.seen
       && s == E.SetPass(s0.(failed := s0.failed + FailedOf(entries[..i], seenBefore, s0.sessions)), p,
                         PartWay(pass, key, entries, i, skips, seen, messages))
  }

  lemma ReadQuietNext(s0: E.State, s: E.State, s': E.State, p: nat, pass: E.SyncPass, key: Option<string>,
                      entries: seq<Value>, i: nat, seenBefore: set<string>, skips: nat, seen: set<string>,
                      messages: seq<Value>)
    requires i < |entries| && ReadQuiet(s0, s, p, pass, key, entries, i, seenBefore, skips, seen, messages)
    requires var v := entries[i];
             var o := OutcomeOf(v, seen, s.sessions);
             s' == E.SetPass(s.(failed := s.failed + E.Failures(v, o)), p,
                     PartWay(pass, key, entries, i + 1, Skips(skips, o), Seen(seen, v, o), Messages(messages, v, o)))
    ensures var v := entries[i];
            var o := OutcomeOf(v, seen, s.sessions);
            ReadQuiet(s0, s', p, pass, key, entries, i + 1, seenBefore,
                      Skips(skips, o), Seen(seen, v, o), Messages(messages, v, o))
  {
    assert entries[..i + 1][..i] == entries[..i] && entries[..i + 1][i] == entries[i];
    var next := s'.passes[p];
    assert s.passes[p := next] == s0.passes[p := next];
  }

  /** A pass whose message loop has gone through a batch and closed it. */
  function Processed(pass: E.SyncPass, key: Option<string>, entries: seq<Value>, skips: nat, seen: set<string>,
                     messages: seq<Value>): E.SyncPass
  {
    E.Closed(PartWay(pass, key, entries, |entries|, skips, seen, messages))
  }

  lemma AtStart(pass: E.SyncPass, key: Option<string>, entries: seq<Value>)
    requires pass.current == Some(E.Reading(key, entries, 0, 0))
    ensures PartWay(pass, key, entries, 0, 0, pass.seen, []) == pass
  {
    assert entries[..0] == [] && IdsOf([]) == {} && IdsIn([]) == {};
  }

  /** What an undisturbed batch does: the sequential specification. */
  ghost predicate BatchQuiet(s0: E.State, s: E.State, p: nat, pass: E.SyncPass, key: Option<string>,
                             entries: seq<Value>, me: nat, skips: nat, seen: set<string>, messages: seq<Value>)
  {
    var sessions := ApplyShares(entries, me, pass.seen, s0.sessions);
    var b := ApplyMessages(entries, pass.seen, sessions);
    && messages == b.messages && skips == |b.skipped| && seen == b.seen
    && s == E.SetPass(s0.(sessions := sessions, failed := s0.failed + FailedOf(entries, pass.seen, sessions)), p,
                      Processed(pass, key, entries, skips, seen, messages))
  }

  lemma BatchIsQuiet(s0: E.State, s1: E.State, s2: E.State, s3: E.State, p: nat, pass: E.SyncPass, key: Option<string>,
                     entries: seq<Value>, me: nat, skips: nat, seen: set<string>, messages: seq<Value>)
    requires s1 == s0.(sessions := ApplyShares(entries, me, pass.seen, s0.sessions))
    requires ReadQuiet(s1, s2, p, pass, key, entries, |entries|, pass.seen, skips, seen, messages)
    requires s3 == E.SetPass(s2, p, E.Closed(PartWay(pass, key, entries, |entries|, skips, seen, messages)))
    ensures BatchQuiet(s0, s3, p, pass, key, entries, me, skips, seen, messages)
  {
    assert entries[..|entries|] == entries;
    var next := s3.passes[p];
    assert s2.passes[p := next] == s0.passes[p := next];
  }

  /** A pass downloading the envelopes of its page. */
  function ListedPass(from: Option<string>, page: seq<string>, read: nat, fetched: seq<Value>): E.SyncPass
  {
    E.FreshPass(from).(phase := E.Listed, page := page, read := read, fetched := fetched)
  }

  /** The same pass, its envelopes handed to the loops. */
  function OpenedPass(from: Option<string>, page: seq<string>, fetched: seq<Value>): E.SyncPass
  {
    ListedPass(from, page, |page|, fetched).(phase := E.LiveRead, current := Some(E.Reading(None, fetched, 0, 0)))
  }

  predicate LiveBase(base: E.SyncPass)
  {
    base == OpenedPass(base.from, base.page, base.fetched)
  }

  /** A pass listing the archives from `from` on. */
  function ListingPass(pass: E.SyncPass, from: Option<string>, listed: seq<string>): E.SyncPass
  {
    pass.(phase := E.Listing(from), listed := listed)
  }

  lemma PageTurned(keys: set<string>, from: Option<string>, page: Page, listed: seq<string>)
    requires page == PageOf(keys, "", E.STORE_LIST_LIMIT, from)
    ensures CompactionHandler.DayTurned(keys, "", from, page.next, listed, listed + page.keys)
  {
    if page.next.Some? {
      PageResumes(keys, "", E.STORE_LIST_LIMIT, from);
      assert listed + (page.keys + Matching(keys, "", page.next)) == listed + page.keys + Matching(keys, "", page.next);
    }
  }

  lemma SetTwice(s: E.State, p: nat, a: E.SyncPass, b: E.SyncPass)
    ensures E.SetPass(E.SetPass(s, p, a), p, b) == E.SetPass(s, p, b)
  {
    assert s.passes[p := a][p := b] == s.passes[p := b];
  }

  lemma SetSame(s: E.State, p: nat)
    ensures E.HasPass(s, p) ==> E.SetPass(s, p, s.passes[p]) == s
  {
    if E.HasPass(s, p) { assert s.passes[p := s.passes[p]] == s.passes; }
  }

  /** What happened to the pass before its batch does not matter to the batch. */
  lemma BatchQuietFrom(s0: E.State, s1: E.State, s: E.State, p: nat, was: E.SyncPass, pass: E.SyncPass,
                       key: Option<string>, entries: seq<Value>, me: nat, skips: nat, seen: set<string>,
                       messages: seq<Value>)
    requires s1 == E.SetPass(s0, p, was)
    requires BatchQuiet(s1, s, p, pass, key, entries, me, skips, seen, messages)
    ensures BatchQuiet(s0, s, p, pass, key, entries, me, skips, seen, messages)
  {
    var next := s.passes[p];
    assert s1.passes[p := next] == s0.passes[p := next];
  }

  /** What the archive loop has gathered. */
  datatype Work = Work(seen: set<string>, messages: seq<Value>, candidates: seq<string>)

  ghost predicate ArchiveBase(base: E.SyncPass, listed: seq<string>, skip: set<string>)
  {
    base.phase.Archives? && base.current.None? && base.listed == listed && base.skip == skip && base.candidates == {}
  }

  /** A pass in its archive loop, before archive `i`, having handed over the ids `h`. */
  function Working(base: E.SyncPass, i: nat, w: Work, h: set<string>): E.SyncPass
  {
    base.(taken := i, seen := w.seen, messages := base.messages + IdsIn(w.messages),
          candidates := (set k | k in w.candidates), handed := h)
  }

  function Worked(w: Work, key: string, batch: seq<Value>, skips: nat, seen: set<string>): Work
  {
    Work(seen, w.messages + batch, if skips == 0 then w.candidates + [key] else w.candidates)
  }

  lemma WorkedPass(base: E.SyncPass, i: nat, key: string, entries: seq<Value>, w: Work, h: set<string>,
                   batch: seq<Value>, skips: nat, seen: set<string>)
    requires base.current.None?
    ensures var open_ := Working(base, i + 1, w, h).(current := Some(E.Reading(Some(key), entries, 0, 0)));
            Processed(open_, Some(key), entries, skips, seen, batch)
              == Working(base, i + 1, Worked(w, key, batch, skips, seen), h + IdsOf(entries))
  {
    assert entries[..|entries|] == entries;
    assert IdsIn(w.messages + batch) == IdsIn(w.messages) + IdsIn(batch) by {
      assert forall m :: m in w.messages + batch <==> m in w.messages || m in batch;
    }
    assert (set k | k in w.candidates + [key]) == (set k | k in w.candidates) + {key};
  }

  /** One archive of an undisturbed loop: skipped, absent, or a batch. */
  ghost predicate ArchiveQuiet(s0: E.State, s: E.State, p: nat, base: E.SyncPass, key: string, i: nat, w: Work,
                               w': Work, h': set<string>, me: nat)
  {
    if key in base.skip || key !in s0.server.archives then
      w' == w && s == E.SetPass(s0, p, Working(base, i + 1, w, h'))
    else
      var entries := s0.server.archives[key];
      var sessions := ApplyShares(entries, me, w.seen, s0.sessions);
      var b := ApplyMessages(entries, w.seen, sessions);
      && w' == Worked(w, key, b.messages, |b.skipped|, b.seen)
      && s == E.SetPass(s0.(sessions := sessions, failed := s0.failed + FailedOf(entries, w.seen, sessions)), p,
                        Working(base, i + 1, w', h'))
  }

  /** The loop agrees with the sequential specification. */
  ghost predicate WorkQuiet(s0: E.State, s: E.State, p: nat, base: E.SyncPass, i: nat, w: Work, h: set<string>, q: Pass)
  {
    && w.seen == q.seen && w.messages == q.messages && w.candidates == q.candidates
    && s == E.SetPass(s0.(sessions := q.sessions, failed := s0.failed + q.failed), p, Working(base, i, w, h))
  }

  lemma WorkQuietNext(s0: E.State, s: E.State, s': E.State, p: nat, base: E.SyncPass, key: string, i: nat, w: Work,
                      w': Work, h: set<string>, h': set<string>, me: nat, q: Pass)
    requires WorkQuiet(s0, s, p, base, i, w, h, q) && ArchiveQuiet(s, s', p, base, key, i, w, w', h', me)
    ensures WorkQuiet(s0, s', p, base, i + 1, w', h', AddArchive(q, key, base.skip, s0.server.archives, me))
  {
    var next := Working(base, i + 1, w', h');
    assert s.passes[p := next] == s0.passes[p := next];
  }

  lemma AtFirstArchive(base: E.SyncPass)
    requires base.candidates == {} && base.taken == 0
    ensures Working(base, 0, Work(base.seen, [], []), base.handed) == base
  {
    assert IdsIn([]) == {};
    var none: seq<string> := [];
    assert (set k | k in none) == {};
  }

  function CursorAfter(cursor: Option<string>, page: seq<string>): Option<string>
  {
    if page == [] then cursor else Some(page[|page| - 1])
  }

  lemma WorkQuietFrom(s0: E.State, s1: E.State, s: E.State, p: nat, was: E.SyncPass, base: E.SyncPass, i: nat, w: Work,
                      h: set<string>, q: Pass)
    requires s1 == E.SetPass(s0, p, was) && WorkQuiet(s1, s, p, base, i, w, h, q)
    ensures WorkQuiet(s0, s, p, base, i, w, h, q)
  {
    var next := Working(base, i, w, h);
    assert s1.passes[p := next] == s0.passes[p := next];
  }

  /** Undisturbed, the archive half is the sequential pass over all archives. */
  ghost predicate ArchivesFetched(s0: E.State, s: E.State, p: nat, base: E.SyncPass, messages: seq<Value>, me: nat,
                                  w: Work, h: set<string>)
  {
    && base.listed == Matching(s0.server.archives.Keys, "", None) && base.skip == s0.ingested
    && WorkQuiet(s0, s, p, base, |base.listed|, w, h,
                 OverArchives(Pass(s0.sessions, s0.stored + IdsIn(messages), [], [], {}), base.listed, s0.ingested,
                              s0.server.archives, me))
  }

  /** Messages and failures from before the archives only come first. */
  lemma {:induction false} OverArchivesAfter(sessions: Sessions, seen: set<string>, messages: seq<Value>,
                                             failed: set<Value>, keys: seq<string>, ingested: set<string>,
                                             blobs: map<string, seq<Value>>, me: nat)
    ensures var q := OverArchives(Pass(sessions, seen, [], [], {}), keys, ingested, blobs, me);
            OverArchives(Pass(sessions, seen, messages, [], failed), keys, ingested, blobs, me)
              == Pass(q.sessions, q.seen, messages + q.messages, q.candidates, failed + q.failed)
  {
    if keys == [] {
      assert messages + [] == messages;
    } else {
      var n := |keys| - 1;
      OverArchivesAfter(sessions, seen, messages, failed, keys[..n], ingested, blobs, me);
      var q := OverArchives(Pass(sessions, seen, [], [], {}), keys[..n], ingested, blobs, me);
      if keys[n] !in ingested && keys[n] in blobs {
        var b := ApplyMessages(blobs[keys[n]], q.seen, ApplyShares(blobs[keys[n]], me, q.seen, q.sessions));
        assert messages + (q.messages + b.messages) == messages + q.messages + b.messages;
      }
    }
  }

  function Marks(candidates: seq<string>, markOk: set<string>): set<string>
  {
    set k | k in candidates && k in markOk
  }

  lemma MarksNext(ingested: set<string>, candidates: seq<string>, i: nat, markOk: set<string>)
    requires i < |candidates|
    ensures ingested + Marks(candidates[..i], markOk) + (if candidates[i] in markOk then {candidates[i]} else {})
         == ingested + Marks(candidates[..i + 1], markOk)
  {
    assert candidates[..i + 1] == candidates[..i] + [candidates[i]];
  }

  /** The sequential fetch of what the server holds above the cursor and in its archives. */
  ghost function FetchedFrom(s: E.State, me: nat): Pass
  {
    Fetched(CompactionHandler.ValuesAt(s.server.live, E.LivePage(s)), Matching(s.server.archives.Keys, "", None),
            s.server.archives, me, s.sessions, s.stored, s.ingested)
  }

  /** An undisturbed fetch is the sequential one. */
  ghost predicate FetchQuiet(s0: E.State, s: E.State, p: nat, me: nat, messages: seq<Value>, candidates: seq<string>,
                             pass: E.SyncPass)
  {
    var f := FetchedFrom(s0, me);
    && messages == f.messages && candidates == f.candidates
    && s == E.SetPass(s0.(sessions := f.sessions, failed := s0.failed + f.failed,
                          cursor := CursorAfter(s0.cursor, E.LivePage(s0))), p, pass)
  }

  /** The archive part of the sequential fetch, on its own. */
  ghost function ArchivePass(s: E.State, sessions: Sessions, live: seq<Value>, me: nat): Pass
  {
    OverArchives(Pass(sessions, s.stored + IdsIn(live), [], [], {}), Matching(s.server.archives.Keys, "", None),
                 s.ingested, s.server.archives, me)
  }

  lemma FetchedIs(s: E.State, me: nat)
    ensures var fetched := CompactionHandler.ValuesAt(s.server.live, E.LivePage(s));
            var sessions := ApplyShares(fetched, me, {}, s.sessions);
            var live := ApplyMessages(fetched, {}, sessions).messages;
            var q := ArchivePass(s, sessions, live, me);
            var f := FetchedFrom(s, me);
            && f.sessions == q.sessions && f.messages == live + q.messages && f.candidates == q.candidates
            && f.failed == FailedOf(fetched, {}, sessions) + q.failed
  {
    var fetched := CompactionHandler.ValuesAt(s.server.live, E.LivePage(s));
    var sessions := ApplyShares(fetched, me, {}, s.sessions);
    var live := ApplyMessages(fetched, {}, sessions).messages;
    var failed := FailedOf(fetched, {}, sessions);
    assert [] + live == live && {} + failed == failed;
    OverArchivesAfter(sessions, s.stored + IdsIn(live), live, failed, Matching(s.server.archives.Keys, "", None),
                      s.ingested, s.server.archives, me);
  }

  lemma Combined(s0: E.State, s1: E.State, s2: E.State, s3: E.State, p: nat, sessions1: Sessions, failed1: set<Value>,
                 sessions2: Sessions, failed2: set<Value>, cursor: Option<string>,
                 a: E.SyncPass, b: E.SyncPass, c: E.SyncPass)
    requires s1 == E.SetPass(s0.(sessions := sessions1, failed := s0.failed + failed1), p, a)
    requires s2 == E.SetPass(s1.(sessions := sessions2, failed := s1.failed + failed2), p, b)
    requires s3 == E.SetPass(s2.(cursor := cursor), p, c)
    ensures s3 == E.SetPass(s0.(sessions := sessions2, failed := s0.failed + (failed1 + failed2),
                                    cursor := cursor), p, c)
  {
    assert s0.passes[p := a][p := b][p := c] == s0.passes[p := c];
    assert s0.failed + failed1 + failed2 == s0.failed + (failed1 + failed2);
  }

  lemma SameArchivePass(s0: E.State, s1: E.State, live: seq<Value>, me: nat)
    requires s1.stored == s0.stored && s1.ingested == s0.ingested && s1.server == s0.server
    ensures ArchivePass(s1, s1.sessions, live, me) == ArchivePass(s0, s1.sessions, live, me)
  {
  }

  lemma FetchIsQuiet(s0: E.State, s1: E.State, s2: E.State, s3: E.State, p: nat, me: nat, base: E.SyncPass, skips: nat,
                     seen: set<string>, live: seq<Value>, base2: E.SyncPass, w: Work, h: set<string>, pass: E.SyncPass)
    requires base.page == E.LivePage(s0) == base2.page && base.seen == {}
    requires base.fetched == CompactionHandler.ValuesAt(s0.server.live, base.page)
    requires BatchQuiet(s0, s1, p, base, None, base.fetched, me, skips, seen, live)
    requires WorkQuiet(s1, s2, p, base2, |base2.listed|, w, h, ArchivePass(s1, s1.sessions, live, me))
    requires s3 == E.SetPass(s2.(cursor := CursorAfter(s2.cursor, base2.page)), p, pass)
    ensures FetchQuiet(s0, s3, p, me, live + w.messages, w.candidates, pass)
  {
    FetchedIs(s0, me);
    SameArchivePass(s0, s1, live, me);
    var sessions := ApplyShares(base.fetched, me, {}, s0.sessions);
    var q := ArchivePass(s0, sessions, live, me);
    Combined(s0, s1, s2, s3, p, sessions, FailedOf(base.fetched, {}, sessions), q.sessions, q.failed,
             CursorAfter(s0.cursor, base2.page), s1.passes[p], s2.passes[p], pass);
  }

  class Device {
    const me: nat                        // the sharing private key
    const live: MemStore<Value>
    const archives: MemStore<seq<Value>>
    var sessions: Sessions               // inbound sessions
    var stored: set<string>              // message ids in the message store
    var ingested: set<string>            // archive keys to skip forever
    var cursor: Option<string>           // the stored live cursor
    ghost var st: E.State
    ghost var trace: seq<E.Step>         // every step taken so far, by anyone

    ghost predicate Valid()
      reads this, live, archives
    {
      && (live as object) != archives as object && live.Valid() && archives.Valid()
      && st.server.live == live.objects && st.server.archives == archives.objects
      && st.sessions == sessions && st.stored == stored && st.ingested == ingested && st.cursor == cursor
      && History(trace, st)
    }

    constructor (me: nat)
      ensures Valid() && st == E.Init && fresh(live) && fresh(archives)
    {
      this.me := me;
      live := new MemStore<Value>();
      archives := new MemStore<seq<Value>>();
      sessions, stored, ingested, cursor := map[], {}, {}, None;
      st := E.Init;
      trace := [];
      new;
    }

    /** An await inside pass `p`: sends, compactions, other passes and arriving keys take any
        number of steps, and the awaited request may fail. When `quiet`, nothing else happens
        and nothing fails. */
    method Await(ghost p: nat, quiet: bool) returns (ok: bool)
      requires Valid()
      modifies this, live, archives
      ensures Valid() && old(trace) <= trace
      ensures E.HasPass(st, p) <==> E.HasPass(old(st), p)
      ensures E.HasPass(st, p) ==> st.passes[p] == old(st).passes[p]
      ensures quiet ==> ok && st == old(st) && trace == old(trace)
    {
      ok := true;
      if !quiet { ok := *; }
    }

    ghost method Take(step: E.Step)
      requires History(trace, st) && E.Enabled(st, step)
      modifies this`st, this`trace
      ensures st == E.Apply(old(st), step) && History(trace, st) && trace == old(trace) + [step]
    {
      ExecAppend(E.Init, trace, step);
      st := E.Apply(st, step);
      trace := trace + [step];
    }

    ghost predicate Mine(p: nat, pass: E.SyncPass)
      reads this, live, archives
    {
      Valid() && E.HasPass(st, p) && st.passes[p] == pass
    }

    /** The key-shares-first loop. */
    method OpenShares(ghost p: nat, ghost pass: E.SyncPass, envelopes: seq<Value>, seen: set<string>, quiet: bool)
      requires Mine(p, pass)
      modifies this, live, archives
      ensures Mine(p, pass) && old(trace) <= trace
      ensures quiet ==> st == old(st).(sessions := ApplyShares(envelopes, me, seen, old(sessions)))
    {
      var i := 0;
      while i < |envelopes|
        invariant 0 <= i <= |envelopes|
        invariant Mine(p, pass) && old(trace) <= trace
        invariant quiet ==> st == old(st).(sessions := ApplyShares(envelopes[..i], me, seen, old(sessions)))
      {
        assert envelopes[..i + 1][..i] == envelopes[..i];
        var v := envelopes[i];
        i := i + 1;
        if !IsKeyShare(v) || IdOf(v) in seen { continue; }
        var _ := Await(p, quiet);
        var share := Unseal(v, me);
        if share.Some? {
          sessions := AddInbound(sessions, share.value.0, share.value.1);
          Take(E.KeyArrives(share.value.0, share.value.1));
        }
      }
      assert envelopes[..i] == envelopes;
    }

    /** One entry of the message loop, decided by the sessions the device has at that moment. */
    method ReadEntry(ghost p: nat, ghost pass: E.SyncPass, ghost key: Option<string>, entries: seq<Value>, i: nat,
                     skips: nat, seen: set<string>, messages: seq<Value>, quiet: bool)
      returns (skips': nat, seen': set<string>, messages': seq<Value>)
      requires i < |entries| && InLoop(pass) && Mine(p, PartWay(pass, key, entries, i, skips, seen, messages))
      modifies this, live, archives
      ensures Mine(p, PartWay(pass, key, entries, i + 1, skips', seen', messages')) && old(trace) <= trace
      ensures quiet ==>
                var v := entries[i];
                var o := OutcomeOf(v, seen, old(sessions));
                && skips' == Skips(skips, o) && seen' == Seen(seen, v, o) && messages' == Messages(messages, v, o)
                && st == E.SetPass(old(st).(failed := old(st).failed + E.Failures(v, o)), p,
                                   PartWay(pass, key, entries, i + 1, skips', seen', messages'))
    {
      var v := entries[i];
      skips', seen', messages' := skips, seen, messages;
      if !IsKeyShare(v) && IdOf(v) !in seen && IsMessage(v) {
        var sessionId := SessionOf(v);
        if sessionId.Some? {   // otherwise it throws; caught and logged
          var _ := Await(p, quiet);
          if sessionId.value !in sessions {
            skips' := skips + 1;
          } else if Decrypts(v, sessions[sessionId.value]) {
            messages' := messages + [v];
            seen' := seen + {IdOf(v)};
          }
        }
      }
      EntryIs(st, p, pass, key, entries, i, skips, seen, messages);
      Take(E.NextEntry(p));
    }

    /** The message loop over one batch. */
    method ReadEntries(ghost p: nat, ghost pass: E.SyncPass, ghost key: Option<string>, entries: seq<Value>,
                       seenBefore: set<string>, quiet: bool)
      returns (messages: seq<Value>, skips: nat, seen: set<string>)
      requires InLoop(pass) && Mine(p, PartWay(pass, key, entries, 0, 0, seenBefore, []))
      modifies this, live, archives
      ensures Mine(p, PartWay(pass, key, entries, |entries|, skips, seen, messages)) && old(trace) <= trace
      ensures quiet ==> ReadQuiet(old(st), st, p, pass, key, entries, |entries|, seenBefore, skips, seen, messages)
    {
      messages, skips, seen := [], 0, seenBefore;
      var i := 0;
      assert entries[..0] == [] && old(st).passes[p := old(st).passes[p]] == old(st).passes;
      while i < |entries|
        invariant 0 <= i <= |entries|
        invariant Mine(p, PartWay(pass, key, entries, i, skips, seen, messages)) && old(trace) <= trace
        invariant quiet ==> ReadQuiet(old(st), st, p, pass, key, entries, i, seenBefore, skips, seen, messages)
      {
        ghost var s, skips0, seen0, messages0 := st, skips, seen, messages;
        skips, seen, messages := ReadEntry(p, pass, key, entries, i, skips, seen, messages, quiet);
        if quiet { ReadQuietNext(old(st), s, st, p, pass, key, entries, i, seenBefore, skips0, seen0, messages0); }
        i := i + 1;
      }
      assert entries[..i] == entries;
    }

    /** Both loops over one batch: key shares first, then messages. */
    method ProcessEnvelopes(ghost p: nat, ghost pass: E.SyncPass, ghost key: Option<string>, entries: seq<Value>,
                            seenBefore: set<string>, quiet: bool)
      returns (messages: seq<Value>, skips: nat, seen: set<string>)
      requires InLoop(pass) && Mine(p, pass)
      requires pass.current == Some(E.Reading(key, entries, 0, 0)) && pass.seen == seenBefore
      modifies this, live, archives
      ensures Mine(p, Processed(pass, key, entries, skips, seen, messages)) && old(trace) <= trace
      ensures quiet ==> BatchQuiet(old(st), st, p, pass, key, entries, me, skips, seen, messages)
    {
      OpenShares(p, pass, entries, seenBefore, quiet);
      ghost var s := st;
      AtStart(pass, key, entries);
      messages, skips, seen := ReadEntries(p, pass, key, entries, seenBefore, quiet);
      ghost var read := st;
      Take(E.Close(p));
      if quiet { BatchIsQuiet(old(st), s, read, st, p, pass, key, entries, me, skips, seen, messages); }
    }

    /** One listing request, from `start`. */
    method ListFrom(ghost p: nat, ghost from: Option<string>, fromStart: bool, start: Option<string>)
      returns (page: seq<string>)
      requires Mine(p, E.FreshPass(from)) && start == if fromStart then None else from
      modifies this`st, this`trace
      ensures Mine(p, ListedPass(from, page, 0, [])) && old(trace) <= trace
      ensures page == PageOf(live.objects.Keys, "", E.STORE_LIST_LIMIT, start).keys
      ensures st == E.SetPass(old(st), p, ListedPass(from, page, 0, []))
    {
      var got := live.ListObjects("", E.STORE_LIST_LIMIT, start);
      Take(E.ListLive(p, fromStart, got));
      page := got.keys;
    }

    /** Loads the cursor and lists one page above it; when that fails, the first page of all. */
    method ListLive(ghost p: nat, quiet: bool) returns (ok: bool, page: seq<string>, ghost from: Option<string>)
      requires Valid() && !E.HasPass(st, p)
      modifies this, live, archives
      ensures Valid() && old(trace) <= trace
      ensures ok ==> Mine(p, ListedPass(from, page, 0, []))
      ensures quiet ==>
                && ok && from == old(cursor)
                && page == PageOf(old(live.objects.Keys), "", E.STORE_LIST_LIMIT, from).keys
                && st == E.SetPass(old(st), p, ListedPass(from, page, 0, []))
    {
      var storedCursor := cursor;
      from := cursor;
      page := [];
      Take(E.Begin(p));
      ghost var begun := st;
      ok := Await(p, quiet);
      if ok {
        page := ListFrom(p, from, false, storedCursor);
        SetTwice(old(st), p, E.FreshPass(from), ListedPass(from, page, 0, []));
      } else {
        ok := Await(p, quiet);
        if !ok { return; }
        page := ListFrom(p, from, true, None);
      }
    }

    method GetOne(ghost p: nat, ghost from: Option<string>, page: seq<string>, i: nat, fetched: seq<Value>, quiet: bool)
      returns (fetched': seq<Value>)
      requires i < |page| && Mine(p, ListedPass(from, page, i, fetched))
      modifies this, live, archives
      ensures Mine(p, ListedPass(from, page, i + 1, fetched')) && old(trace) <= trace
      ensures quiet ==>
                && fetched' == fetched + (if page[i] in old(live.objects) then [old(live.objects)[page[i]]] else [])
                && st == E.SetPass(old(st), p, ListedPass(from, page, i + 1, fetched'))
    {
      var ok := Await(p, quiet);
      var got := live.GetObject(page[i]);
      Take(E.GetLive(p, ok));
      fetched' := if ok && got.Some? then fetched + [got.value] else fetched;
    }

    /** Downloads the page's envelopes, leaving out those it cannot read. */
    method GetAll(ghost p: nat, ghost from: Option<string>, page: seq<string>, quiet: bool)
      returns (fetched: seq<Value>)
      requires Mine(p, ListedPass(from, page, 0, []))
      modifies this, live, archives
      ensures Mine(p, ListedPass(from, page, |page|, fetched)) && old(trace) <= trace
      ensures quiet ==>
                && fetched == CompactionHandler.ValuesAt(old(live.objects), page)
                && st == E.SetPass(old(st), p, ListedPass(from, page, |page|, fetched))
    {
      fetched := [];
      var i := 0;
      ghost var s0 := st;
      SetSame(s0, p);
      while i < |page|
        invariant 0 <= i <= |page|
        invariant Mine(p, ListedPass(from, page, i, fetched)) && old(trace) <= trace
        invariant quiet ==> fetched == CompactionHandler.ValuesAt(s0.server.live, page[..i])
        invariant quiet ==> st == E.SetPass(s0, p, ListedPass(from, page, i, fetched))
      {
        assert page[..i + 1][..i] == page[..i];
        ghost var was := fetched;
        fetched := GetOne(p, from, page, i, fetched, quiet);
        SetTwice(s0, p, ListedPass(from, page, i, was), ListedPass(from, page, i + 1, fetched));
        i := i + 1;
      }
      assert page[..i] == page;
    }

    ghost method OpenLive(p: nat, from: Option<string>, page: seq<string>, fetched: seq<Value>) returns (s: E.State)
      requires Mine(p, ListedPass(from, page, |page|, fetched))
      modifies this`st, this`trace
      ensures Mine(p, OpenedPass(from, page, fetched)) && old(trace) <= trace
      ensures st == s == E.SetPass(old(st), p, OpenedPass(from, page, fetched))
    {
      Take(E.OpenLive(p));
      s := st;
    }

    /** The live half of a sync. */
    method SyncLive(ghost p: nat, quiet: bool)
      returns (ok: bool, page: seq<string>, messages: seq<Value>, ghost base: E.SyncPass, ghost skips: nat,
               ghost seen: set<string>)
      requires Valid() && !E.HasPass(st, p)
      modifies this, live, archives
      ensures Valid() && old(trace) <= trace
      ensures ok ==>
                && base.page == page && LiveBase(base)
                && Mine(p, Processed(base, None, base.fetched, skips, seen, messages))
      ensures quiet ==>
                && ok && page == PageOf(old(live.objects.Keys), "", E.STORE_LIST_LIMIT, old(cursor)).keys
                && base.fetched == CompactionHandler.ValuesAt(old(live.objects), page)
                && BatchQuiet(old(st), st, p, base, None, base.fetched, me, skips, seen, messages)
    {
      messages, skips, seen, base := [], 0, {}, E.FreshPass(None);
      ghost var from;
      ok, page, from := ListLive(p, quiet);
      if !ok { return; }
      var fetched := GetAll(p, from, page, quiet);
      base := OpenedPass(from, page, fetched);
      ghost var s := OpenLive(p, from, page, fetched);
      SetTwice(old(st), p, ListedPass(from, page, |page|, fetched), base);
      SetTwice(old(st), p, ListedPass(from, page, 0, []), ListedPass(from, page, |page|, fetched));
      var n;
      messages, n, seen := ProcessEnvelopes(p, base, None, fetched, {}, quiet);
      skips := n;
      if quiet { BatchQuietFrom(old(st), s, st, p, base, base, None, fetched, me, skips, seen, messages); }
    }

    /** Seeds dedup from the stored ids and this sync's live messages, and loads the marks. */
    method LoadSeen(ghost p: nat, ghost pass: E.SyncPass, messages: seq<Value>, quiet: bool)
      returns (seen: set<string>, skip: set<string>)
      requires Mine(p, pass) && pass.phase.LiveRead? && pass.current.None? && pass.messages == IdsIn(messages)
      modifies this, live, archives
      ensures Mine(p, pass.(phase := E.Listing(None), seen := seen, skip := skip)) && old(trace) <= trace
      ensures quiet ==>
                && seen == old(stored) + IdsIn(messages) && skip == old(ingested)
                && st == E.SetPass(old(st), p, pass.(phase := E.Listing(None), seen := seen, skip := skip))
    {
      ghost var s0 := st;
      var _ := Await(p, quiet);
      seen := stored + IdsIn(messages);
      Take(E.LoadIds(p));
      var _ := Await(p, quiet);
      skip := ingested;
      Take(E.LoadIngested(p));
      SetTwice(s0, p, pass.(phase := E.Ids, seen := seen), pass.(phase := E.Listing(None), seen := seen, skip := skip));
    }

    /** One page of the archive listing; a failed request gives up on the archives. */
    method ListTurn(ghost p: nat, ghost pass: E.SyncPass, from: Option<string>, listed: seq<string>, quiet: bool)
      returns (next: Option<string>, listed': seq<string>)
      requires Mine(p, ListingPass(pass, from, listed))
      modifies this, live, archives
      ensures Mine(p, if next.Some? then ListingPass(pass, next, listed')
                      else pass.(phase := E.Archives, listed := listed'))
      ensures old(trace) <= trace
      ensures quiet ==>
                && CompactionHandler.DayTurned(old(archives.objects.Keys), "", from, next, listed, listed')
                && st == E.SetPass(old(st), p, if next.Some? then ListingPass(pass, next, listed')
                                               else pass.(phase := E.Archives, listed := listed'))
    {
      var ok := Await(p, quiet);
      if !ok {
        Take(E.ListFails(p));
        return None, [];
      }
      ghost var keys := archives.objects.Keys;
      var page := archives.ListObjects("", E.STORE_LIST_LIMIT, from);
      Take(E.ListArchives(p, page));
      next, listed' := page.next, listed + page.keys;
      PageTurned(keys, from, page, listed);
    }

    /** Lists every archive, page by page. */
    method ListArchives(ghost p: nat, ghost pass: E.SyncPass, quiet: bool, patience: nat) returns (listed: seq<string>)
      requires Mine(p, ListingPass(pass, None, []))
      modifies this, live, archives
      ensures Mine(p, pass.(phase := E.Archives, listed := listed)) && old(trace) <= trace
      ensures quiet ==>
                && listed == Matching(old(archives.objects.Keys), "", None)
                && st == E.SetPass(old(st), p, pass.(phase := E.Archives, listed := listed))
    {
      var from: Option<string> := None;
      var left := patience;
      listed := [];
      ghost var s0 := st;
      ghost var keys := archives.objects.Keys;
      SetSame(s0, p);
      while true
        invariant Mine(p, ListingPass(pass, from, listed)) && old(trace) <= trace
        invariant quiet ==> Matching(keys, "", None) == listed + Matching(keys, "", from)
        invariant quiet ==> st == E.SetPass(s0, p, ListingPass(pass, from, listed))
        decreases if quiet then |Matching(keys, "", from)| else left
      {
        if !quiet {
          if left == 0 {
            Take(E.ListFails(p));
            return [];
          }
          left := left - 1;
        }
        ghost var was := ListingPass(pass, from, listed);
        var next;
        next, listed := ListTurn(p, pass, from, listed, quiet);
        if quiet { SetTwice(s0, p, was, st.passes[p]); }
        if next.None? { return; }
        from := next;
      }
    }

    /** Downloads one archive and decides whether it is a candidate. */
    method TakeArchive(ghost p: nat, ghost base: E.SyncPass, listed: seq<string>, i: nat, skip: set<string>, w: Work,
                       ghost h: set<string>, quiet: bool)
      returns (w': Work, ghost h': set<string>)
      requires i < |listed| && ArchiveBase(base, listed, skip) && Mine(p, Working(base, i, w, h))
      modifies this, live, archives
      ensures Mine(p, Working(base, i + 1, w', h')) && old(trace) <= trace
      ensures quiet ==> ArchiveQuiet(old(st), st, p, base, listed[i], i, w, w', h', me)
    {
      var key := listed[i];
      ghost var s0 := st;
      SetSame(s0, p);
      if key in skip {
        Take(E.TakeArchive(p, true));
        return w, h;
      }
      var ok := Await(p, quiet);
      var got := archives.GetObject(key);
      Take(E.TakeArchive(p, ok));
      if !ok || got.None? { return w, h; }
      ghost var open_ := Working(base, i + 1, w, h).(current := Some(E.Reading(Some(key), got.value, 0, 0)));
      ghost var s := st;
      var batch, skips, seen := ProcessEnvelopes(p, open_, Some(key), got.value, w.seen, quiet);
      w', h' := Worked(w, key, batch, skips, seen), h + IdsOf(got.value);
      WorkedPass(base, i, key, got.value, w, h, batch, skips, seen);
      if quiet { BatchQuietFrom(s0, s, st, p, open_, open_, Some(key), got.value, me, skips, seen, batch); }
    }

    /** The archive half of a sync: every archive not yet ingested. */
    method SyncArchive(ghost p: nat, ghost base: E.SyncPass, listed: seq<string>, skip: set<string>,
                       seenBefore: set<string>, quiet: bool)
      returns (w: Work, ghost h: set<string>)
      requires ArchiveBase(base, listed, skip) && Mine(p, Working(base, 0, Work(seenBefore, [], []), base.handed))
      modifies this, live, archives
      ensures Mine(p, Working(base, |listed|, w, h)) && old(trace) <= trace
      ensures quiet ==>
                var q := OverArchives(Pass(old(sessions), seenBefore, [], [], {}), listed, skip,
                                      old(archives.objects), me);
                WorkQuiet(old(st), st, p, base, |listed|, w, h, q)
    {
      w, h := Work(seenBefore, [], []), base.handed;
      var i := 0;
      ghost var s0, q0 := st, Pass(sessions, seenBefore, [], [], {});
      assert listed[..0] == [];
      SetSame(s0, p);
      assert s0.failed + {} == s0.failed;
      while i < |listed|
        invariant 0 <= i <= |listed|
        invariant Mine(p, Working(base, i, w, h)) && old(trace) <= trace
        invariant quiet ==>
          WorkQuiet(s0, st, p, base, i, w, h, OverArchives(q0, listed[..i], skip, s0.server.archives, me))
      {
        assert listed[..i + 1][..i] == listed[..i];
        ghost var s, was, h0 := st, w, h;
        w, h := TakeArchive(p, base, listed, i, skip, w, h, quiet);
        if quiet {
          WorkQuietNext(s0, s, st, p, base, listed[i], i, was, w, h0, h, me,
                        OverArchives(q0, listed[..i], skip, s0.server.archives, me));
        }
        i := i + 1;
      }
      assert listed[..i] == listed;
    }

    /** Moves the cursor to the end of the page. */
    method SaveCursor(ghost p: nat, ghost pass: E.SyncPass, page: seq<string>, quiet: bool)
      requires Mine(p, pass) && E.Enabled(st, E.SaveCursor(p)) && pass.page == page
      modifies this, live, archives
      ensures Mine(p, pass.(phase := E.CursorSaved)) && old(trace) <= trace
      ensures quiet ==>
                st == E.SetPass(old(st).(cursor := CursorAfter(old(cursor), page)), p, pass.(phase := E.CursorSaved))
    {
      var _ := Await(p, quiet);
      if |page| > 0 { cursor := Some(page[|page| - 1]); }
      Take(E.SaveCursor(p));
    }

    /** The archives: loads what is seen, lists, and goes through the listing. */
    method FetchArchives(ghost p: nat, ghost pass: E.SyncPass, messages: seq<Value>, quiet: bool, patience: nat)
      returns (w: Work, ghost h: set<string>, ghost base: E.SyncPass)
      requires Mine(p, pass) && pass.phase.LiveRead? && pass.current.None? && pass.messages == IdsIn(messages)
      requires pass.candidates == {} && pass.taken == 0 && pass.listed == []
      modifies this, live, archives
      ensures base.messages == pass.messages && base.page == pass.page
      ensures ArchiveBase(base, base.listed, base.skip) && Mine(p, Working(base, |base.listed|, w, h))
           && old(trace) <= trace
      ensures quiet ==> ArchivesFetched(old(st), st, p, base, messages, me, w, h)
    {
      ghost var s0 := st;
      var seen, skip := LoadSeen(p, pass, messages, quiet);
      ghost var pass1 := pass.(phase := E.Listing(None), seen := seen, skip := skip);
      var listed := ListArchives(p, pass1, quiet, patience);
      base := pass1.(phase := E.Archives, listed := listed);
      ghost var s2 := st;
      SetTwice(s0, p, pass1, base);
      AtFirstArchive(base);
      w, h := SyncArchive(p, base, listed, skip, seen, quiet);
      if quiet {
        WorkQuietFrom(s0, s2, st, p, base, base, |listed|, w, h,
                      OverArchives(Pass(s0.sessions, seen, [], [], {}), listed, skip, s0.server.archives, me));
      }
    }

    /** Live first, then the archives, then the cursor. */
    method FetchMessages(ghost p: nat, quiet: bool, patience: nat)
      returns (ok: bool, messages: seq<Value>, candidates: seq<string>, ghost pass: E.SyncPass)
      requires Valid() && !E.HasPass(st, p)
      modifies this, live, archives
      ensures Valid() && old(trace) <= trace
      ensures ok ==> Mine(p, pass) && pass.phase.CursorSaved?
      ensures ok ==> pass.messages == IdsIn(messages) && pass.candidates == set k | k in candidates
      ensures quiet ==> ok && FetchQuiet(old(st), st, p, me, messages, candidates, pass)
    {
      messages, candidates, pass := [], [], E.FreshPass(None);
      ghost var s0 := st;
      var page, liveMessages;
      ghost var base, skips, seen;
      ok, page, liveMessages, base, skips, seen := SyncLive(p, quiet);
      if !ok { return; }
      ghost var s1, livePass := st, Processed(base, None, base.fetched, skips, seen, liveMessages);
      var w;
      ghost var h, base2;
      w, h, base2 := FetchArchives(p, livePass, liveMessages, quiet, patience);
      ghost var s2, worked := st, Working(base2, |base2.listed|, w, h);
      SaveCursor(p, worked, page, quiet);
      messages, candidates := liveMessages + w.messages, w.candidates;
      pass := worked.(phase := E.CursorSaved);
      IdsInConcat(liveMessages, w.messages);
      if quiet { FetchIsQuiet(s0, s1, s2, st, p, me, base, skips, seen, liveMessages, base2, w, h, pass); }
    }

    method MarkOne(ghost p: nat, ghost pass: E.SyncPass, key: string, markOk: bool, quiet: bool)
      requires Mine(p, pass) && pass.phase.Saved? && key in pass.candidates
      modifies this, live, archives
      ensures Mine(p, pass) && old(trace) <= trace
      ensures quiet ==> st == old(st).(ingested := old(st).ingested + if markOk then {key} else {})
    {
      var ok := Await(p, quiet);
      if ok && markOk {
        ingested := ingested + {key};
        Take(E.Mark(p, key));
      }
      assert quiet && !markOk ==> old(st).ingested + {} == old(st).ingested;
    }

    /** Marks the candidates one by one; a failed write only costs a later download. */
    method MarkIngested(ghost p: nat, ghost pass: E.SyncPass, candidates: seq<string>, markOk: set<string>, quiet: bool)
      requires Mine(p, pass) && pass.phase.Saved? && pass.candidates == set k | k in candidates
      modifies this, live, archives
      ensures Mine(p, pass) && old(trace) <= trace
      ensures quiet ==> st == old(st).(ingested := old(st).ingested + Marks(candidates, markOk))
    {
      var i := 0;
      ghost var s0 := st;
      assert s0.ingested + Marks(candidates[..0], markOk) == s0.ingested;
      while i < |candidates|
        invariant 0 <= i <= |candidates|
        invariant Mine(p, pass) && old(trace) <= trace
        invariant quiet ==> st == s0.(ingested := s0.ingested + Marks(candidates[..i], markOk))
      {
        MarksNext(s0.ingested, candidates, i, markOk);
        MarkOne(p, pass, candidates[i], candidates[i] in markOk, quiet);
        i := i + 1;
      }
      assert candidates[..i] == candidates;
    }

    /** Saves the messages, and only then marks; a failed save marks nothing. */
    method Publish(ghost p: nat, ghost pass: E.SyncPass, messages: seq<Value>, candidates: seq<string>, saveOk: bool,
                   markOk: set<string>, quiet: bool)
      returns (done: bool)
      requires Mine(p, pass) && pass.phase.CursorSaved?
      requires pass.messages == IdsIn(messages) && pass.candidates == set k | k in candidates
      modifies this, live, archives
      ensures Valid() && old(trace) <= trace
      ensures Mine(p, if done then pass.(phase := E.Saved) else pass)
      ensures quiet ==> done == (saveOk || messages == [])
      ensures quiet ==>
                var saved := saveOk || messages == [];
                && sessions == old(sessions) && st.failed == old(st.failed) && cursor == old(cursor)
                && stored == old(stored) + (if saved then IdsIn(messages) else {})
                && ingested == old(ingested) + (if saved then Marks(candidates, markOk) else {})
                && st.server == old(st.server)
    {
      if |messages| > 0 {
        var answered := Await(p, quiet);
        if !answered || !saveOk { return false; }
        stored := stored + IdsIn(messages);
      }
      assert |messages| == 0 ==> IdsIn(messages) == {} && stored + {} == stored;
      Take(E.Save(p));
      MarkIngested(p, pass.(phase := E.Saved), candidates, markOk, quiet);
      done := true;
    }

    /** One whole sync. `saveOk` and `markOk` say which local writes succeed; when it is done its
        pass has gone through every phase to the saved messages. */
    method SyncAndPublish(ghost p: nat, saveOk: bool, markOk: set<string>, quiet: bool, patience: nat)
      returns (done: bool)
      requires Valid() && !E.HasPass(st, p)
      modifies this, live, archives
      ensures Valid() && old(trace) <= trace
      ensures done ==> E.HasPass(st, p) && st.passes[p].phase.Saved?
      ensures quiet ==>
                var f := FetchedFrom(old(st), me);
                var saved := saveOk || f.messages == [];
                && sessions == f.sessions && st.failed == old(st.failed) + f.failed
                && cursor == CursorAfter(old(cursor), E.LivePage(old(st)))
                && stored == old(stored) + (if saved then IdsIn(f.messages) else {})
                && ingested == old(ingested) + (if saved then Marks(f.candidates, markOk) else {})
                && st.server == old(st.server) && done == saved
    {
      ghost var pass;
      var ok, messages, candidates;
      ok, messages, candidates, pass := FetchMessages(p, quiet, patience);
      if !ok { return false; }
      done := Publish(p, pass, messages, candidates, saveOk, markOk, quiet);
    }
  }
}
