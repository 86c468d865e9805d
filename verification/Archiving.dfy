/** One user's inbox over days: envelopes arrive with ascending ids and compactions fold them into
    the day's archive. What the archives and the live prefix hold, listed in key order, stays the
    whole inbox in delivery order. */
module Archiving {
  import opened Wrappers
  import opened Lex
  import opened SortedStore
  import opened Cbor
  import opened CompactionHandler
  import D = Delivery
  import Ingest

  /** `log` is everything that arrived, in order. */
  datatype Inbox = Inbox(log: seq<Value>, live: map<string, Value>, archives: map<string, seq<Value>>)

  const Empty := Inbox([], map[], map[])

  datatype Step = Put(v: Value) | Compact(upTo: string, today: string, ulid: string)

  /** Ids ascend as ULIDs do, and days do not go back. */
  ghost predicate Enabled(s: Inbox, step: Step)
  {
    match step
    case Put(v) => MsgId(v).Some? && forall e :: e in s.log ==> Less(Ingest.IdOf(e), Ingest.IdOf(v))
    case Compact(_, today, ulid) => today + "-" + ulid !in s.archives && DaysGoOn(s.archives, today)
  }

  ghost predicate DaysGoOn(archives: map<string, seq<Value>>, today: string)
  {
    forall k :: k in archives ==> today <= k || Less(k, today)
  }

  /** A compaction nothing disturbs. */
  ghost function Compacted(s: Inbox, upTo: string, today: string, key: string): Inbox
  {
    var keys := LiveUpTo(s.live, upTo);
    if keys == [] then s
    else Inbox(s.log, s.live - (set k | k in keys),
               (s.archives - (set k | k in SameDay(s.archives, today)))[key := Folded(s.live, s.archives, upTo, today)])
  }

  ghost function Apply(s: Inbox, step: Step): Inbox
    requires Enabled(s, step)
  {
    match step
    case Put(v) => Inbox(s.log + [v], s.live[Ingest.IdOf(v) := v], s.archives)
    case Compact(upTo, today, ulid) => Compacted(s, upTo, today, today + "-" + ulid)
  }

  ghost predicate Possible(s: Inbox, steps: seq<Step>)
    decreases |steps|
  {
    steps == [] || (Enabled(s, steps[0]) && Possible(Apply(s, steps[0]), steps[1..]))
  }

  ghost function Exec(s: Inbox, steps: seq<Step>): Inbox
    requires Possible(s, steps)
    decreases |steps|
  {
    if steps == [] then s else Exec(Apply(s, steps[0]), steps[1..])
  }

  /** The compaction is the handler's. */
  lemma CompactedIsUndisturbed(s: Inbox, upTo: string, today: string, key: string)
    ensures var t := Compacted(s, upTo, today, key);
            var n := |LiveUpTo(s.live, upTo)|;
            Undisturbed(s.live, s.archives, upTo, today, key, t.live, t.archives, Done(n, if n == 0 then "" else key))
  {
  }

  ghost function ArchiveKeys(s: Inbox): seq<string>
  {
    Matching(s.archives.Keys, "", None)
  }

  ghost function LiveKeys(s: Inbox): seq<string>
  {
    Matching(s.live.Keys, "", None)
  }

  ghost predicate IdsAscend(log: seq<Value>)
  {
    && (forall e :: e in log ==> MsgId(e).Some?)
    && forall i, j :: 0 <= i < j < |log| ==> Less(Ingest.IdOf(log[i]), Ingest.IdOf(log[j]))
  }

  /** Live objects are kept under their ids. */
  ghost predicate Keyed(live: map<string, Value>, log: seq<Value>)
  {
    forall k :: k in live ==> live[k] in log && Ingest.IdOf(live[k]) == k
  }

  ghost predicate InOrder(s: Inbox)
  {
    && EntriesAt(s.archives, ArchiveKeys(s)) + ValuesAt(s.live, LiveKeys(s)) == s.log
    && IdsAscend(s.log) && Keyed(s.live, s.log)
  }

  // ---- arrivals ----

  lemma KeysAfterPut(live: map<string, Value>, id: string, v: Value)
    requires forall k :: k in live ==> Less(k, id)
    ensures Matching(live[id := v].Keys, "", None) == Matching(live.Keys, "", None) + [id]
  {
    var keys, after := Matching(live.Keys, "", None), Matching(live[id := v].Keys, "", None);
    MatchingFacts(live.Keys, "", None);
    MatchingFacts(live[id := v].Keys, "", None);
    forall i | 0 <= i < |keys| ensures Less(keys[i], id) { assert keys[i] in keys; }
    forall k ensures k in after <==> k in keys + [id] { }
    AscendingUnique(after, keys + [id]);
  }

  lemma ValuesAfterPut(live: map<string, Value>, keys: seq<string>, id: string, v: Value)
    requires id !in keys
    ensures ValuesAt(live[id := v], keys + [id]) == ValuesAt(live, keys) + [v]
  {
    var after := live[id := v];
    assert (keys + [id])[..|keys|] == keys;
    ValuesFrame(live, after, keys);
  }

  lemma KeyedAfterPut(live: map<string, Value>, log: seq<Value>, v: Value)
    requires Keyed(live, log)
    ensures Keyed(live[Ingest.IdOf(v) := v], log + [v])
  {
  }

  lemma IdAboveLive(live: map<string, Value>, log: seq<Value>, id: string)
    requires Keyed(live, log) && forall e :: e in log ==> Less(Ingest.IdOf(e), id)
    ensures (forall k :: k in live ==> Less(k, id)) && id !in Matching(live.Keys, "", None)
  {
    forall k | k in live ensures Less(k, id) { assert live[k] in log; }
    MatchingFacts(live.Keys, "", None);
    LessIrreflexive(id);
  }

  lemma AppendLast(a: seq<Value>, b: seq<Value>, v: Value)
    ensures a + (b + [v]) == a + b + [v]
  {
  }

  lemma PutStep(s: Inbox, v: Value)
    requires InOrder(s) && Enabled(s, Put(v))
    ensures InOrder(Apply(s, Put(v)))
  {
    var id, keys := Ingest.IdOf(v), LiveKeys(s);
    IdAboveLive(s.live, s.log, id);
    KeysAfterPut(s.live, id, v);
    ValuesAfterPut(s.live, keys, id, v);
    AppendLast(EntriesAt(s.archives, ArchiveKeys(s)), ValuesAt(s.live, keys), v);
    KeyedAfterPut(s.live, s.log, v);
    AscendMore(s.log, v);
  }

  lemma AscendMore(log: seq<Value>, v: Value)
    requires IdsAscend(log) && MsgId(v).Some? && forall e :: e in log ==> Less(Ingest.IdOf(e), Ingest.IdOf(v))
    ensures IdsAscend(log + [v])
  {
    var all := log + [v];
    forall i, j | 0 <= i < j < |all| ensures Less(Ingest.IdOf(all[i]), Ingest.IdOf(all[j])) {
      assert all[i] == log[i] && log[i] in log;
    }
  }

  // ---- compactions ----

  /** What is compacted comes before what stays. */
  lemma LiveSplits(live: map<string, Value>, upTo: string)
    ensures var u := LiveUpTo(live, upTo);
            var stays := live - (set k | k in u);
            Matching(live.Keys, "", None) == u + Matching(stays.Keys, "", None)
  {
    var all, u := Matching(live.Keys, "", None), LiveUpTo(live, upTo);
    var stays := live - (set k | k in u);
    var rest := Matching(stays.Keys, "", None);
    MatchingFacts(live.Keys, "", None);
    MatchingFacts(stays.Keys, "", None);
    LiveUpToFacts(live, upTo);
    UpToAscending(all, upTo);
    forall i, j | 0 <= i < j < |u + rest| ensures Less((u + rest)[i], (u + rest)[j]) {
      if i < |u| <= j {
        var a, b := u[i], rest[j - |u|];
        assert a in u && b in rest;
        LessTotal(b, upTo);
        if a != upTo { LessTransitive(a, upTo, b); }
      }
    }
    forall k ensures k in all <==> k in u + rest { }
    AscendingUnique(all, u + rest);
  }

  lemma NotBelowPrefix(prefix: string, k: string)
    requires prefix <= k
    ensures AtMost(prefix, k)
  {
    var rest := k[|prefix|..];
    assert k == prefix + rest && prefix == prefix + "";
    LessUnderPrefix(prefix, "", rest);
  }

  /** The archives of earlier days, in order. */
  ghost function Earlier(archives: map<string, seq<Value>>, today: string): seq<string>
  {
    Sorted(set k | k in archives && !(today <= k))
  }

  lemma EarlierBefore(archives: map<string, seq<Value>>, today: string, later: seq<string>)
    requires DaysGoOn(archives, today) && Ascending(later) && forall k :: k in later ==> today <= k
    ensures Ascending(Earlier(archives, today) + later)
  {
    var e := Earlier(archives, today);
    SortedFacts(set k | k in archives && !(today <= k));
    var all := e + later;
    forall i, j | 0 <= i < j < |all| ensures Less(all[i], all[j]) {
      if i < |e| <= j {
        var a, b := e[i], later[j - |e|];
        assert a in e && b in later;
        NotBelowPrefix(today, b);
        if b != today { LessTransitive(a, today, b); }
      }
    }
  }

  lemma ArchivesSplit(archives: map<string, seq<Value>>, today: string)
    requires DaysGoOn(archives, today)
    ensures Matching(archives.Keys, "", None) == Earlier(archives, today) + SameDay(archives, today)
  {
    MatchingFacts(archives.Keys, "", None);
    MatchingFacts(archives.Keys, today, None);
    SortedFacts(set k | k in archives && !(today <= k));
    EarlierBefore(archives, today, SameDay(archives, today));
    AscendingUnique(Matching(archives.Keys, "", None), Earlier(archives, today) + SameDay(archives, today));
  }

  lemma ArchivesAfter(archives: map<string, seq<Value>>, today: string, key: string, folded: seq<Value>)
    requires DaysGoOn(archives, today) && today <= key && key !in archives
    ensures var after := (archives - (set k | k in SameDay(archives, today)))[key := folded];
            Matching(after.Keys, "", None) == Earlier(archives, today) + [key]
  {
    var after := (archives - (set k | k in SameDay(archives, today)))[key := folded];
    var keys := Earlier(archives, today) + [key];
    MatchingFacts(after.Keys, "", None);
    MatchingFacts(archives.Keys, today, None);
    SortedFacts(set k | k in archives && !(today <= k));
    EarlierBefore(archives, today, [key]);
    forall k ensures k in Matching(after.Keys, "", None) <==> k in keys {
      assert k in after <==> k == key || (k in archives && !(today <= k));
    }
    AscendingUnique(Matching(after.Keys, "", None), keys);
  }

  lemma {:induction false} EntriesConcat(archives: map<string, seq<Value>>, a: seq<string>, b: seq<string>)
    ensures EntriesAt(archives, a + b) == EntriesAt(archives, a) + EntriesAt(archives, b)
  {
    if b == [] {
      assert a + b == a;
    } else {
      var n := |b| - 1;
      assert (a + b)[..|a| + n] == a + b[..n];
      EntriesConcat(archives, a, b[..n]);
    }
  }

  lemma {:induction false} EntriesFrame(archives: map<string, seq<Value>>, after: map<string, seq<Value>>,
                                        keys: seq<string>)
    requires forall k :: k in keys ==> (k in archives <==> k in after) && (k in archives ==> archives[k] == after[k])
    ensures EntriesAt(archives, keys) == EntriesAt(after, keys)
  {
    if keys != [] { EntriesFrame(archives, after, keys[..|keys| - 1]); }
  }

  lemma NoneBefore(a: seq<Value>, k: nat)
    requires IdsAscend(a) && k < |a|
    ensures MsgId(a[k]).Some? && !HasId(a[..k], MsgId(a[k]).value)
  {
    assert a[k] in a;
    forall i | 0 <= i < k ensures MsgId(a[..k][i]) != MsgId(a[k]) {
      assert a[i] in a;
      LessIrreflexive(Ingest.IdOf(a[k]));
    }
  }

  /** Deduplication leaves distinct ids alone. */
  lemma {:induction false} DistinctUnchanged(a: seq<Value>, k: nat)
    requires IdsAscend(a) && k <= |a|
    ensures FirstOccurrences(a[..k]) == a[..k]
    decreases k
  {
    if k > 0 {
      DistinctUnchanged(a, k - 1);
      NoneBefore(a, k - 1);
      assert a[..k][..k - 1] == a[..k - 1] && a[..k] == a[..k - 1] + [a[k - 1]];
    }
  }

  lemma AscendSlice(a: seq<Value>, i: nat, j: nat)
    requires IdsAscend(a) && i <= j <= |a|
    ensures IdsAscend(a[i..j])
  {
    forall e | e in a[i..j] ensures MsgId(e).Some? { assert e in a; }
  }

  lemma FoldedInOrder(log: seq<Value>, before: seq<Value>, x: seq<Value>, after: seq<Value>)
    requires IdsAscend(log) && log == before + x + after
    ensures Dedup(x) == x
  {
    assert x == log[|before|..|before| + |x|];
    AscendSlice(log, |before|, |before| + |x|);
    DistinctUnchanged(x, |x|);
    assert x[..|x|] == x;
    DedupIsFirstOccurrences(x);
  }

  lemma SingleArchive(archives: map<string, seq<Value>>, key: string)
    requires key in archives
    ensures EntriesAt(archives, [key]) == archives[key]
  {
    assert [key][..0] == [];
    assert EntriesAt(archives, [key]) == EntriesAt(archives, [key][..0]) + archives[key];
  }

  lemma CompactStep(s: Inbox, upTo: string, today: string, key: string)
    requires InOrder(s) && DaysGoOn(s.archives, today) && today <= key && key !in s.archives
    ensures InOrder(Compacted(s, upTo, today, key))
  {
    var u := LiveUpTo(s.live, upTo);
    if u != [] {
      var t := Compacted(s, upTo, today, key);
      var e, d := Earlier(s.archives, today), SameDay(s.archives, today);
      var folded := Folded(s.live, s.archives, upTo, today);
      LiveSplits(s.live, upTo);
      ValuesConcat(s.live, u, LiveKeys(t));
      MatchingFacts(t.live.Keys, "", None);
      ValuesFrame(s.live, t.live, LiveKeys(t));
      ArchivesSplit(s.archives, today);
      ArchivesAfter(s.archives, today, key, folded);
      EntriesConcat(s.archives, e, d);
      EntriesConcat(t.archives, e, [key]);
      EarlierKept(s.archives, t.archives, today, key, folded);
      SingleArchive(t.archives, key);
      var x := EntriesAt(s.archives, d) + ValuesAt(s.live, u);
      Regrouped(EntriesAt(s.archives, e), EntriesAt(s.archives, d), ValuesAt(s.live, u), ValuesAt(s.live, LiveKeys(t)));
      FoldedInOrder(s.log, EntriesAt(s.archives, e), x, ValuesAt(s.live, LiveKeys(t)));
    }
  }

  lemma Regrouped(a: seq<Value>, b: seq<Value>, c: seq<Value>, d: seq<Value>)
    ensures a + b + (c + d) == a + (b + c) + d
  {
  }

  lemma EarlierKept(archives: map<string, seq<Value>>, after: map<string, seq<Value>>, today: string, key: string,
                    folded: seq<Value>)
    requires after == (archives - (set k | k in SameDay(archives, today)))[key := folded] && key !in archives
    ensures EntriesAt(archives, Earlier(archives, today)) == EntriesAt(after, Earlier(archives, today))
  {
    SortedFacts(set k | k in archives && !(today <= k));
    MatchingFacts(archives.Keys, today, None);
    EntriesFrame(archives, after, Earlier(archives, today));
  }

  lemma OrderStep(s: Inbox, step: Step)
    requires InOrder(s) && Enabled(s, step)
    ensures InOrder(Apply(s, step))
  {
    match step
    case Put(v) => PutStep(s, v);
    case Compact(upTo, today, ulid) =>
      assert today <= today + "-" + ulid;
      CompactStep(s, upTo, today, today + "-" + ulid);
  }

  lemma {:induction false} OrderExec(s: Inbox, steps: seq<Step>)
    requires InOrder(s) && Possible(s, steps)
    ensures InOrder(Exec(s, steps))
    decreases |steps|
  {
    if steps != [] {
      OrderStep(s, steps[0]);
      OrderExec(Apply(s, steps[0]), steps[1..]);
    }
  }

  lemma EmptyInOrder()
    ensures InOrder(Empty)
  {
    MatchingFacts(Empty.live.Keys, "", None);
    MatchingFacts(Empty.archives.Keys, "", None);
    NonemptyHasElement(LiveKeys(Empty));
    NonemptyHasElement(ArchiveKeys(Empty));
  }

  /** Whatever arrived and however often it was compacted, the archives in listing order followed
      by the live envelopes in key order are everything that arrived, once each, in order. */
  lemma InboxStaysInOrder(steps: seq<Step>)
    requires Possible(Empty, steps)
    ensures var s := Exec(Empty, steps);
            EntriesAt(s.archives, ArchiveKeys(s)) + ValuesAt(s.live, LiveKeys(s)) == s.log && IdsAscend(s.log)
  {
    EmptyInOrder();
    OrderExec(Empty, steps);
  }

  // ---- and so the archives are readable ----

  lemma {:induction false} JoinedArchives(archives: map<string, seq<Value>>, keys: seq<string>)
    requires forall k :: k in keys ==> k in archives
    ensures D.Joined(D.Blobs(keys, archives)) == EntriesAt(archives, keys)
  {
    if keys != [] {
      JoinedArchives(archives, keys[..|keys| - 1]);
      D.BlobsNext(keys, archives);
    }
  }

  lemma AscendingAreDistinct(log: seq<Value>)
    requires IdsAscend(log)
    ensures D.DistinctEntryIds(log)
  {
    forall i, j | 0 <= i < j < |log| ensures Ingest.IdOf(log[i]) != Ingest.IdOf(log[j]) {
      LessIrreflexive(Ingest.IdOf(log[i]));
    }
  }

  /** Senders, compaction and receiver composed: when everything that arrived has been compacted,
      over however many days and runs, a device that syncs the archives in listing order proposes
      every one for marking, fails nothing, and materializes each message it did not have once, in
      the order it arrived. */
  lemma CompactedInboxIsIngested(steps: seq<Step>, all: seq<D.Delivery>, user: string, p: Ingest.Pass, key: nat,
                                 name: D.Naming, ingested: set<string>)
    requires Possible(Empty, steps) && Exec(Empty, steps).live == map[]
    requires D.FromRuns(all) && D.Injective(name)
    requires D.Encodes(Exec(Empty, steps).log, D.Inbox(all, user), key, name)
    requires D.SharesUnseen(Exec(Empty, steps).log, p.seen) && D.Fits(p.sessions, D.Inbox(all, user), name)
    requires forall k :: k in Exec(Empty, steps).archives ==> k !in ingested
    ensures var s := Exec(Empty, steps);
            var q := Ingest.OverArchives(p, ArchiveKeys(s), ingested, s.archives, key);
            && q.candidates == p.candidates + ArchiveKeys(s) && q.failed == p.failed
            && q.messages == p.messages + D.Unseen(s.log, p.seen)
  {
    var s := Exec(Empty, steps);
    InboxStaysInOrder(steps);
    MatchingFacts(s.live.Keys, "", None);
    MatchingFacts(s.archives.Keys, "", None);
    NonemptyHasElement(LiveKeys(s));
    assert ValuesAt(s.live, []) == [] && EntriesAt(s.archives, ArchiveKeys(s)) + []
        == EntriesAt(s.archives, ArchiveKeys(s));
    JoinedArchives(s.archives, ArchiveKeys(s));
    AscendingAreDistinct(s.log);
    D.ArchivedInboxIsIngested(all, user, p, ArchiveKeys(s), ingested, s.archives, key, name);
  }
}
