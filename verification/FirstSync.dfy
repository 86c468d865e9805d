/** The order the sync really reads in: the live page first, then the archives, although what is
    archived arrived earlier. Exactly when a device that has none of it stored fails nothing. */
module FirstSync {
  import opened Wrappers
  import opened Cbor
  import opened Delivery
  import opened Ingest

  /** No message of a session new to the device is below the session's first share on the live
      page. */
  ghost predicate NoLateShare(log: seq<Delivery>, live: seq<Value>, key: nat, sessions: Sessions, name: Naming)
  {
    forall i :: 0 <= i < |log| && log[i].envelope.content.Message? && NameOf(name, log[i]) !in sessions ==>
      var first := FirstShare(live, key, {}, NameOf(name, log[i]));
      first.Some? ==> first.value <= log[i].envelope.content.index
  }

  lemma RecordAfterLive(live: seq<Value>, key: nat, sessions: Sessions, s: string)
    ensures var known := ApplyShares(live, key, {}, sessions);
            var first := FirstShare(live, key, {}, s);
            if s in sessions then s in known && known[s] == sessions[s]
            else (s in known <==> first.Some?) && (first.Some? ==> known[s] == Ready(first.value))
  {
    SharesLearned(live, key, {}, sessions);
    if s !in sessions { FirstShareIsKept(live, key, {}, sessions, s); }
  }

  lemma FitsIffNoLateShare(log: seq<Delivery>, live: seq<Value>, key: nat, sessions: Sessions, name: Naming)
    requires Fits(sessions, log, name)
    ensures Fits(ApplyShares(live, key, {}, sessions), log, name) <==> NoLateShare(log, live, key, sessions, name)
  {
    var known := ApplyShares(live, key, {}, sessions);
    forall i | 0 <= i < |log| ensures
      var s := NameOf(name, log[i]);
      var first := FirstShare(live, key, {}, s);
      if s in sessions then s in known && known[s] == sessions[s]
      else (s in known <==> first.Some?) && (first.Some? ==> known[s] == Ready(first.value))
    {
      RecordAfterLive(live, key, sessions, NameOf(name, log[i]));
    }
  }

  // ---- a batch ----

  /** Every message opens or is of an unknown session. */
  ghost predicate OpenOrUnknown(entries: seq<Value>, sessions: Sessions)
  {
    forall i :: 0 <= i < |entries| && IsMessage(entries[i]) ==>
      ProperMessage(entries[i])
      && (SessionOf(entries[i]).value in sessions ==> Decrypts(entries[i], sessions[SessionOf(entries[i]).value]))
  }

  lemma {:induction false} NoFailure(entries: seq<Value>, k: nat, seen: set<string>, sessions: Sessions)
    requires OpenOrUnknown(entries, sessions) && k <= |entries|
    ensures FailedOf(entries[..k], seen, sessions) == {}
    decreases k
  {
    if k > 0 {
      NoFailure(entries, k - 1, seen, sessions);
      assert entries[..k][..k - 1] == entries[..k - 1] && entries[..k][k - 1] == entries[k - 1];
    }
  }

  lemma DifferentIds(entries: seq<Value>, v: Value, w: Value)
    requires DistinctEntryIds(entries) && v in entries && w in entries && v != w
    ensures IdOf(v) != IdOf(w)
  {
    var i :| 0 <= i < |entries| && entries[i] == v;
    var j :| 0 <= j < |entries| && entries[j] == w;
    assert i < j || j < i;
  }

  /** A message that its known session does not open is among the failures. */
  lemma FailureShows(entries: seq<Value>, v: Value, seen: set<string>, sessions: Sessions)
    requires DistinctEntryIds(entries) && v in entries && ProperMessage(v) && IdOf(v) !in seen
    requires SessionOf(v).value in sessions && !Decrypts(v, sessions[SessionOf(v).value])
    ensures v in FailedOf(entries, seen, sessions)
  {
    EveryMessageAccounted(entries, seen, sessions);
    SeenSkippedOrFailed(entries, seen, sessions);
    forall w | w in ApplyMessages(entries, seen, sessions).messages ensures IdOf(w) != IdOf(v) {
      DifferentIds(entries, v, w);
    }
  }

  // ---- the archives after it ----

  /** A message handed over from these entries opened under any record there was before. */
  ghost predicate OpenedFrom(entries: seq<Value>, sessions: Sessions, m: Value)
  {
    && m in entries && ProperMessage(m)
    && (SessionOf(m).value in sessions ==> Decrypts(m, sessions[SessionOf(m).value]))
  }

  /** What an archive loop makes of the entries it reads, of the sessions known before it. */
  ghost predicate Accounted(p: Pass, q: Pass, entries: seq<Value>)
  {
    && (forall s :: s in p.sessions ==> s in q.sessions && q.sessions[s] == p.sessions[s])
    && (forall m :: m in q.messages ==> m in p.messages || OpenedFrom(entries, p.sessions, m))
    && (forall id :: id in q.seen ==> id in p.seen || exists m :: m in q.messages && IdOf(m) == id)
    && p.seen <= q.seen && p.failed <= q.failed
    && (forall v :: v in entries && ProperMessage(v) && SessionOf(v).value in p.sessions ==>
          IdOf(v) in q.seen || v in q.failed)
  }

  lemma BatchAccounts(q: Pass, envelopes: seq<Value>, me: nat)
    ensures Accounted(q, AddBatch(q, envelopes, me), envelopes)
  {
    var known := ApplyShares(envelopes, me, q.seen, q.sessions);
    SharesLearned(envelopes, me, q.seen, q.sessions);
    EveryMessageAccounted(envelopes, q.seen, known);
    SeenSkippedOrFailed(envelopes, q.seen, known);
    var b := ApplyMessages(envelopes, q.seen, known);
    assert forall m :: m in q.messages + b.messages <==> m in q.messages || m in b.messages;
  }

  lemma AccountedTwice(p: Pass, q: Pass, r: Pass, a: seq<Value>, b: seq<Value>)
    requires Accounted(p, q, a) && Accounted(q, r, b) && q.messages <= r.messages
    ensures Accounted(p, r, a + b)
  {
    assert forall v :: v in a + b <==> v in a || v in b;
    assert forall m :: m in q.messages ==> m in r.messages;
    forall m | m in r.messages ensures m in p.messages || OpenedFrom(a + b, p.sessions, m) {
      if m !in q.messages { assert OpenedFrom(b, q.sessions, m); }
    }
  }

  lemma {:induction false} ArchivesAccount(p: Pass, keys: seq<string>, ingested: set<string>,
                                           blobs: map<string, seq<Value>>, me: nat)
    requires forall k :: k in keys ==> k in blobs && k !in ingested
    ensures Accounted(p, OverArchives(p, keys, ingested, blobs, me), Joined(Blobs(keys, blobs)))
  {
    if keys != [] {
      var n := |keys| - 1;
      BlobsNext(keys, blobs);
      ArchivesAccount(p, keys[..n], ingested, blobs, me);
      var q := OverArchives(p, keys[..n], ingested, blobs, me);
      BatchAccounts(q, blobs[keys[n]], me);
      var r := AddBatch(q, blobs[keys[n]], me);
      AccountedTwice(p, q, r, Joined(Blobs(keys[..n], blobs)), blobs[keys[n]]);
      CandidatesApart(p, r, AddArchive(q, keys[n], ingested, blobs, me), Joined(Blobs(keys, blobs)));
    }
  }

  lemma CandidatesApart(p: Pass, r: Pass, r': Pass, entries: seq<Value>)
    requires Accounted(p, r, entries) && r' == r.(candidates := r'.candidates)
    ensures Accounted(p, r', entries)
  {
  }

  // ---- the whole fetch ----

  /** These entries carry the deliveries, have distinct ids, and none of them is stored. */
  ghost predicate NewEntries(entries: seq<Value>, log: seq<Delivery>, key: nat, name: Naming, stored: set<string>)
  {
    && Encodes(entries, log, key, name) && DistinctEntryIds(entries)
    && forall i :: 0 <= i < |entries| ==> IdOf(entries[i]) !in stored
  }

  /** The inbox a device finds: archived entries that came first, live ones after. */
  ghost predicate Found(old_: seq<Value>, live: seq<Value>, log: seq<Delivery>, key: nat, name: Naming,
                        stored: set<string>)
  {
    Orderly(log) && Injective(name) && NewEntries(old_ + live, log, key, name, stored)
  }

  /** The fetch after its live half. */
  function AfterLive(live: seq<Value>, key: nat, sessions: Sessions, stored: set<string>): Pass
  {
    var l := AddBatch(Pass(sessions, {}, [], [], {}), live, key);
    l.(seen := stored + IdsIn(l.messages))
  }

  lemma LiveIdsApart(old_: seq<Value>, live: seq<Value>, log: seq<Delivery>, key: nat, name: Naming, sessions: Sessions,
                     stored: set<string>)
    requires Found(old_, live, log, key, name, stored)
    ensures forall v :: v in old_ ==> IdOf(v) !in AfterLive(live, key, sessions, stored).seen
    ensures forall m :: m in AfterLive(live, key, sessions, stored).messages ==> m in live
  {
    var known := ApplyShares(live, key, {}, sessions);
    EveryMessageAccounted(live, {}, known);
    var messages := ApplyMessages(live, {}, known).messages;
    assert AfterLive(live, key, sessions, stored).messages == messages;
    forall v | v in old_ ensures IdOf(v) !in stored && IdOf(v) !in IdsIn(messages) {
      var i :| 0 <= i < |old_| && old_[i] == v;
      assert (old_ + live)[i] == v;
      forall m | m in messages ensures IdOf(m) != IdOf(v) {
        var j :| 0 <= j < |live| && live[j] == m;
        assert (old_ + live)[|old_| + j] == m;
      }
      NotAmong(messages, IdOf(v));
    }
  }

  /** The archived part, on its own. */
  lemma OldPart(old_: seq<Value>, live: seq<Value>, log: seq<Delivery>, key: nat, name: Naming, known: Sessions,
                stored: set<string>)
    requires Found(old_, live, log, key, name, stored) && Fits(known, log, name)
    ensures var before := log[..|old_|];
            Orderly(before) && Encodes(old_, before, key, name) && DistinctEntryIds(old_) && Fits(known, before, name)
  {
    var before := log[..|old_|];
    OrderlyPrefix(log, |old_|);
    LiveDistinct(old_, live);
    forall i | 0 <= i < |old_| ensures Carries(old_[i], before[i], key, name) { assert (old_ + live)[i] == old_[i]; }
  }

  lemma OldUnseen(old_: seq<Value>, seen: set<string>)
    requires forall v :: v in old_ ==> IdOf(v) !in seen
    ensures SharesUnseen(old_, seen)
    ensures forall v :: v in old_ && IsMessage(v) ==> v in Unseen(old_, seen)
  {
    UnseenMembers(old_, seen);
  }

  lemma OldIsReadable(old_: seq<Value>, live: seq<Value>, log: seq<Delivery>, key: nat, name: Naming,
                      sessions: Sessions, stored: set<string>, keys: seq<string>, blobs: map<string, seq<Value>>,
                      ingested: set<string>)
    requires Found(old_, live, log, key, name, stored)
    requires (forall k :: k in keys ==> k in blobs && k !in ingested) && Joined(Blobs(keys, blobs)) == old_
    requires Fits(ApplyShares(live, key, {}, sessions), log, name)
    ensures var p := AfterLive(live, key, sessions, stored);
            var q := OverArchives(p, keys, ingested, blobs, key);
            && q.failed == p.failed && q.candidates == keys
            && forall v :: v in old_ && IsMessage(v) ==> v in q.messages
  {
    var p := AfterLive(live, key, sessions, stored);
    OldPart(old_, live, log, key, name, p.sessions, stored);
    LiveIdsApart(old_, live, log, key, name, sessions, stored);
    OldUnseen(old_, p.seen);
    OrderlyIsReadable(log[..|old_|], p, Blobs(keys, blobs), key, name);
    ArchivesAreBatches(p, keys, ingested, blobs, key);
    assert p.candidates + keys == keys;
  }

  lemma LiveOpens(old_: seq<Value>, live: seq<Value>, log: seq<Delivery>, key: nat, name: Naming, known: Sessions,
                  stored: set<string>)
    requires Found(old_, live, log, key, name, stored) && Fits(known, log, name)
    ensures OpenOrUnknown(live, known)
  {
    forall i | 0 <= i < |live| && IsMessage(live[i])
      ensures ProperMessage(live[i])
           && (SessionOf(live[i]).value in known ==> Decrypts(live[i], known[SessionOf(live[i]).value]))
    {
      var n := |old_| + i;
      assert (old_ + live)[n] == live[i] && Carries(live[i], log[n], key, name);
    }
  }

  /** The message at `i` has a record that does not open it. */
  ghost predicate Unfit(log: seq<Delivery>, i: nat, known: Sessions, name: Naming)
  {
    && i < |log| && log[i].envelope.content.Message? && NameOf(name, log[i]) in known
    && !(known[NameOf(name, log[i])].Ready? && known[NameOf(name, log[i])].first <= log[i].envelope.content.index)
  }

  lemma UnfitFails(old_: seq<Value>, live: seq<Value>, log: seq<Delivery>, key: nat, name: Naming, sessions: Sessions,
                   stored: set<string>, keys: seq<string>, blobs: map<string, seq<Value>>, ingested: set<string>,
                 i: nat)
    requires Found(old_, live, log, key, name, stored)
    requires (forall k :: k in keys ==> k in blobs && k !in ingested) && Joined(Blobs(keys, blobs)) == old_
    requires Unfit(log, i, ApplyShares(live, key, {}, sessions), name)
    ensures (old_ + live)[i] in OverArchives(AfterLive(live, key, sessions, stored), keys, ingested, blobs, key).failed
  {
    var known := ApplyShares(live, key, {}, sessions);
    var p := AfterLive(live, key, sessions, stored);
    var v := (old_ + live)[i];
    assert Carries(v, log[i], key, name);
    assert ProperMessage(v) && SessionOf(v).value in known && !Decrypts(v, known[SessionOf(v).value]);
    OverArchivesGrows(p, keys, ingested, blobs, key);
    if i >= |old_| {
      assert v == live[i - |old_|];
      LiveDistinct(old_, live);
      FailureShows(live, v, {}, known);
      assert FailedOf(live, {}, known) <= p.failed;
    } else {
      OldFails(old_, live, log, key, name, sessions, stored, keys, blobs, ingested, v);
    }
  }

  lemma LiveDistinct(old_: seq<Value>, live: seq<Value>)
    requires DistinctEntryIds(old_ + live)
    ensures DistinctEntryIds(live) && DistinctEntryIds(old_)
  {
    var all := old_ + live;
    forall i, j | 0 <= i < j < |live| ensures IdOf(live[i]) != IdOf(live[j]) {
      assert all[|old_| + i] == live[i] && all[|old_| + j] == live[j];
    }
    forall i, j | 0 <= i < j < |old_| ensures IdOf(old_[i]) != IdOf(old_[j]) {
      assert all[i] == old_[i] && all[j] == old_[j];
    }
  }

  lemma OldFails(old_: seq<Value>, live: seq<Value>, log: seq<Delivery>, key: nat, name: Naming, sessions: Sessions,
                 stored: set<string>, keys: seq<string>, blobs: map<string, seq<Value>>, ingested: set<string>,
                 v: Value)
    requires Found(old_, live, log, key, name, stored)
    requires (forall k :: k in keys ==> k in blobs && k !in ingested) && Joined(Blobs(keys, blobs)) == old_
    requires v in old_ && ProperMessage(v)
    requires var known := ApplyShares(live, key, {}, sessions);
             SessionOf(v).value in known && !Decrypts(v, known[SessionOf(v).value])
    ensures v in OverArchives(AfterLive(live, key, sessions, stored), keys, ingested, blobs, key).failed
  {
    var p := AfterLive(live, key, sessions, stored);
    var q := OverArchives(p, keys, ingested, blobs, key);
    ArchivesAccount(p, keys, ingested, blobs, key);
    LiveIdsApart(old_, live, log, key, name, sessions, stored);
    LiveDistinct(old_, live);
    forall m | m in q.messages ensures IdOf(m) != IdOf(v) {
      if m in p.messages { LiveNotOld(old_, live, m, v); } else { DifferentIds(old_, v, m); }
    }
  }

  lemma LiveNotOld(old_: seq<Value>, live: seq<Value>, m: Value, v: Value)
    requires DistinctEntryIds(old_ + live) && m in live && v in old_
    ensures IdOf(m) != IdOf(v)
  {
    var i :| 0 <= i < |old_| && old_[i] == v;
    var j :| 0 <= j < |live| && live[j] == m;
    assert (old_ + live)[i] == v && (old_ + live)[|old_| + j] == m;
  }

  lemma FitFetch(old_: seq<Value>, live: seq<Value>, log: seq<Delivery>, key: nat, name: Naming, sessions: Sessions,
                 stored: set<string>, keys: seq<string>, blobs: map<string, seq<Value>>, ingested: set<string>)
    requires Found(old_, live, log, key, name, stored)
    requires (forall k :: k in keys ==> k in blobs && k !in ingested) && Joined(Blobs(keys, blobs)) == old_
    requires Fits(ApplyShares(live, key, {}, sessions), log, name)
    ensures var f := OverArchives(AfterLive(live, key, sessions, stored), keys, ingested, blobs, key);
            f.failed == {} && f.candidates == keys && forall v :: v in old_ && IsMessage(v) ==> v in f.messages
  {
    var known := ApplyShares(live, key, {}, sessions);
    LiveOpens(old_, live, log, key, name, known, stored);
    NoFailure(live, |live|, {}, known);
    assert live[..|live|] == live;
    OldIsReadable(old_, live, log, key, name, sessions, stored, keys, blobs, ingested);
  }

  lemma UnfitFetch(old_: seq<Value>, live: seq<Value>, log: seq<Delivery>, key: nat, name: Naming, sessions: Sessions,
                   stored: set<string>, keys: seq<string>, blobs: map<string, seq<Value>>, ingested: set<string>)
    requires Found(old_, live, log, key, name, stored)
    requires (forall k :: k in keys ==> k in blobs && k !in ingested) && Joined(Blobs(keys, blobs)) == old_
    requires !Fits(ApplyShares(live, key, {}, sessions), log, name)
    ensures OverArchives(AfterLive(live, key, sessions, stored), keys, ingested, blobs, key).failed != {}
  {
    var known := ApplyShares(live, key, {}, sessions);
    var i :| 0 <= i < |log| && log[i].envelope.content.Message? && NameOf(name, log[i]) in known
          && !(known[NameOf(name, log[i])].Ready?
               && known[NameOf(name, log[i])].first <= log[i].envelope.content.index);
    UnfitFails(old_, live, log, key, name, sessions, stored, keys, blobs, ingested, i);
  }

  lemma FetchIff(old_: seq<Value>, live: seq<Value>, log: seq<Delivery>, key: nat, name: Naming, sessions: Sessions,
                 stored: set<string>, keys: seq<string>, blobs: map<string, seq<Value>>, ingested: set<string>)
    requires Found(old_, live, log, key, name, stored) && Fits(sessions, log, name)
    requires (forall k :: k in keys ==> k in blobs && k !in ingested) && Joined(Blobs(keys, blobs)) == old_
    ensures var f := Fetched(live, keys, blobs, key, sessions, stored, ingested);
            && (f.failed == {} <==> NoLateShare(log, live, key, sessions, name))
            && (f.failed == {} ==> f.candidates == keys)
            && (f.failed == {} ==> forall v :: v in old_ && IsMessage(v) ==> v in f.messages)
  {
    FitsIffNoLateShare(log, live, key, sessions, name);
    assert Fetched(live, keys, blobs, key, sessions, stored, ingested)
        == OverArchives(AfterLive(live, key, sessions, stored), keys, ingested, blobs, key);
    if Fits(ApplyShares(live, key, {}, sessions), log, name) {
      FitFetch(old_, live, log, key, name, sessions, stored, keys, blobs, ingested);
    } else {
      UnfitFetch(old_, live, log, key, name, sessions, stored, keys, blobs, ingested);
    }
  }

  lemma PartOfInbox(all: seq<Delivery>, user: string, log: seq<Delivery>)
    requires FromRuns(all) && log <= Inbox(all, user)
    ensures Orderly(log)
  {
    InboxOfRuns(all, user);
    OrderlyPrefix(Inbox(all, user), |log|);
    assert log == Inbox(all, user)[..|log|];
  }

  /** The sync's own order: a device that has none of an inbox stored fetches the archives and the
      live page without a failure if and only if no message there of a session new to it is below
      that session's first share on the live page; then every archive is proposed for marking and
      every archived message handed over. */
  lemma FirstSyncFailsNothingIff(all: seq<Delivery>, user: string, live: seq<Value>, keys: seq<string>,
                                 blobs: map<string, seq<Value>>, key: nat, name: Naming, sessions: Sessions,
                                 stored: set<string>, ingested: set<string>, log: seq<Delivery>)
    requires FromRuns(all) && Injective(name) && log <= Inbox(all, user) && Fits(sessions, log, name)
    requires forall k :: k in keys ==> k in blobs && k !in ingested
    requires NewEntries(Joined(Blobs(keys, blobs)) + live, log, key, name, stored)
    ensures var f := Fetched(live, keys, blobs, key, sessions, stored, ingested);
            && (f.failed == {} <==> NoLateShare(log, live, key, sessions, name))
            && (f.failed == {} ==> f.candidates == keys)
            && (f.failed == {} ==> forall v :: v in Joined(Blobs(keys, blobs)) && IsMessage(v) ==> v in f.messages)
  {
    PartOfInbox(all, user, log);
    FetchIff(Joined(Blobs(keys, blobs)), live, log, key, name, sessions, stored, keys, blobs, ingested);
  }

  /** The live half of the case in point: one share at `high`. */
  lemma OneShareLive(session: string, me: nat, high: nat)
    ensures var live := [ShareEntry("3", session, high, me)];
            AfterLive(live, me, map[], {}) == Pass(map[session := Ready(high)], {}, [], [], {})
  {
    var b := ShareEntry("3", session, high, me);
    EntryFacts("3", "megolm.key_share", session, Sealed(session, high, me));
    var live := [b];
    assert live[..0] == [] && IdsIn([]) == {};
    assert ApplyShares(live, me, {}, map[]) == map[session := Ready(high)];
    assert OutcomeOf(b, {}, map[session := Ready(high)]) == Ignored;
    assert ApplyMessages(live, {}, map[session := Ready(high)]) == Batch([], {}, []);
    assert FailedOf(live, {}, map[session := Ready(high)]) == {};
    assert {} + IdsIn([]) == {};
  }

  /** The archived half: a share the device does not need any more, and a message that fails. */
  lemma ShareThenMessage(session: string, me: nat, low: nat, high: nat)
    requires low < high
    ensures var m := MessageEntry("2", session, low);
            var known: Sessions := map[session := Ready(high)];
            var old_ := [ShareEntry("1", session, low, me), m];
            && ApplyShares(old_, me, {}, known) == known
            && ApplyMessages(old_, {}, known) == Batch([], {}, []) && FailedOf(old_, {}, known) == {m}
            && Decrypts(m, Ready(low))
  {
    var a, m := ShareEntry("1", session, low, me), MessageEntry("2", session, low);
    EntryFacts("1", "megolm.key_share", session, Sealed(session, low, me));
    EntryFacts("2", "megolm.message", session, Ciphertext(session, low, true));
    var known: Sessions := map[session := Ready(high)];
    var old_ := [a, m];
    var none: seq<Value> := [];
    assert old_[0..0] == none && old_[0..1] == old_[..1] == [a] && old_[0..2] == old_ && [a][..0] == none;
    ApplySharesNext(old_, 0, 0, me, {}, known);
    ApplySharesNext(old_, 0, 1, me, {}, known);
    assert OutcomeOf(m, {}, known) == Failed && OutcomeOf(a, {}, known) == Ignored;
    assert ApplyMessages([a], {}, known) == Batch([], {}, []) && FailedOf([a], {}, known) == {};
  }

  /** The case in point, for any session and any two indices: it was shared twice, the first share
      and a message are archived, the second share is live. The message fails, although its own
      share is right there in the archive, and the archive is proposed for marking all the same. */
  lemma LateLiveShareFails(session: string, me: nat, low: nat, high: nat)
    requires low < high
    ensures var m := MessageEntry("2", session, low);
            var blobs := map["day" := [ShareEntry("1", session, low, me), m]];
            var f := Fetched([ShareEntry("3", session, high, me)], ["day"], blobs, me, map[], {}, {});
            f.failed == {m} && f.candidates == ["day"] && Decrypts(m, Ready(low))
  {
    var blobs := map["day" := [ShareEntry("1", session, low, me), MessageEntry("2", session, low)]];
    OneShareLive(session, me, high);
    ShareThenMessage(session, me, low, high);
    var p := Pass(map[session := Ready(high)], {}, [], [], {});
    var none: seq<string> := [];
    assert ["day"][..0] == none && OverArchives(p, none, {}, blobs, me) == p;
    assert AddArchive(p, "day", {}, blobs, me).candidates == ["day"];
  }
}
