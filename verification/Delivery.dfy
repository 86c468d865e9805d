/** From the sending devices to the receiving one: what the senders' runs deliver is always
    readable when it is read in the order it was delivered. */
module Delivery {
  import opened Wrappers
  import opened Cbor
  import opened Ingest
  import O = Overlap
  import S = Sessions

  /** One envelope as it landed, with the device that sent it. */
  datatype Delivery = Delivery(sender: nat, envelope: S.Envelope)

  /** What one device delivered. */
  function Of(all: seq<Delivery>, sender: nat): seq<S.Envelope>
  {
    if all == [] then []
    else
      var n := |all| - 1;
      Of(all[..n], sender) + (if all[n].sender == sender then [all[n].envelope] else [])
  }

  /** What landed in one user's inbox. */
  function Inbox(all: seq<Delivery>, user: string): seq<Delivery>
  {
    if all == [] then []
    else
      var n := |all| - 1;
      Inbox(all[..n], user) + (if all[n].envelope.toUser == user then [all[n]] else [])
  }

  /** What some run of sends one after the other delivers. */
  ghost predicate BySends(log: seq<S.Envelope>)
  {
    exists me, steps :: log == S.Exec(S.Start(me), steps).delivered
  }

  /** What some run of overlapping sends that land in order delivers. */
  ghost predicate ByOverlap(log: seq<S.Envelope>)
  {
    exists me, es :: O.CanRun(O.Begin(me), es) && O.InOrderRun(O.Begin(me), es)
                  && log == O.Final(O.Begin(me), es).delivered
  }

  /** Any interleaving of what runs of any number of sending devices deliver. */
  ghost predicate FromRuns(all: seq<Delivery>)
  {
    forall d: nat :: BySends(Of(all, d)) || ByOverlap(Of(all, d))
  }

  lemma RunsAreOrderly(log: seq<S.Envelope>)
    requires BySends(log) || ByOverlap(log)
    ensures S.KeysFirst(log) && S.Ascending(log)
  {
    if BySends(log) {
      var me, steps :| log == S.Exec(S.Start(me), steps).delivered;
      S.KeysArriveFirst(me, steps);
      S.IndicesNeverGoDown(me, steps);
    } else {
      var me, es :| O.CanRun(O.Begin(me), es) && O.InOrderRun(O.Begin(me), es)
                 && log == O.Final(O.Begin(me), es).delivered;
      O.InOrderAscends(me, es);
    }
  }

  // ---- an inbox is orderly ----

  predicate SameSession(a: Delivery, b: Delivery)
  {
    a.sender == b.sender && a.envelope.content.session == b.envelope.content.session
  }

  ghost predicate Shared(before: seq<Delivery>, d: Delivery)
  {
    exists e :: e in before && SameSession(e, d) && e.envelope.content.KeyShare?
             && e.envelope.toUser == d.envelope.toUser && e.envelope.content.index <= d.envelope.content.index
  }

  ghost predicate NotBelow(before: seq<Delivery>, d: Delivery)
  {
    forall e :: e in before && SameSession(e, d) ==> e.envelope.content.index <= d.envelope.content.index
  }

  /** Each message follows a share of its session to the same user at an index no later, and
      no session's indices go down. */
  ghost predicate Orderly(log: seq<Delivery>)
  {
    forall p :: 0 <= p < |log| ==>
      (log[p].envelope.content.Message? ==> Shared(log[..p], log[p])) && NotBelow(log[..p], log[p])
  }

  lemma OrderlyNext(log: seq<Delivery>, d: Delivery)
    requires Orderly(log) && (d.envelope.content.Message? ==> Shared(log, d)) && NotBelow(log, d)
    ensures Orderly(log + [d])
  {
    var all := log + [d];
    forall p | 0 <= p < |all|
      ensures (all[p].envelope.content.Message? ==> Shared(all[..p], all[p])) && NotBelow(all[..p], all[p])
    {
      assert all[..p] == log[..p];
      if p == |log| { assert log[..p] == log; }
    }
  }

  lemma {:induction false} OfMembers(all: seq<Delivery>, sender: nat)
    ensures forall e :: e in Of(all, sender) <==> Delivery(sender, e) in all
  {
    if all != [] {
      var n := |all| - 1;
      OfMembers(all[..n], sender);
      assert forall d :: d in all <==> d in all[..n] || d == all[n];
    }
  }

  ghost predicate EachOrderly(all: seq<Delivery>)
  {
    forall d: nat :: S.KeysFirst(Of(all, d)) && S.Ascending(Of(all, d))
  }

  lemma PrefixOrderly(log: seq<S.Envelope>, e: S.Envelope)
    requires S.KeysFirst(log + [e]) && S.Ascending(log + [e])
    ensures S.KeysFirst(log) && S.Ascending(log)
  {
    var all := log + [e];
    assert forall p :: 0 <= p < |log| ==> all[p] == log[p];
    forall p | 0 <= p < |log| && log[p].content.Message?
      ensures S.KeyBefore(log, p, log[p].toUser, log[p].content.session, log[p].content.index)
    {
      assert S.KeyBefore(all, p, all[p].toUser, all[p].content.session, all[p].content.index);
    }
  }

  /** One device's last envelope against all that landed before it. */
  lemma LastOrderly(before: seq<Delivery>, d: Delivery)
    requires var log := Of(before, d.sender) + [d.envelope]; S.KeysFirst(log) && S.Ascending(log)
    ensures (d.envelope.content.Message? ==> Shared(before, d)) && NotBelow(before, d)
  {
    var mine := Of(before, d.sender);
    var log := mine + [d.envelope];
    var n := |mine|;
    OfMembers(before, d.sender);
    if d.envelope.content.Message? {
      assert S.KeyBefore(log, n, log[n].toUser, log[n].content.session, log[n].content.index);
      var q :| 0 <= q < n && log[q].toUser == d.envelope.toUser && log[q].content.KeyShare?
            && log[q].content.session == d.envelope.content.session
            && log[q].content.index <= d.envelope.content.index;
      assert mine[q] in mine && Delivery(d.sender, mine[q]) in before;
    }
    forall e | e in before && SameSession(e, d) ensures e.envelope.content.index <= d.envelope.content.index {
      assert e == Delivery(d.sender, e.envelope) && e.envelope in mine;
      var q :| 0 <= q < n && mine[q] == e.envelope;
      assert log[q] == mine[q] && log[n] == d.envelope;
    }
  }

  lemma {:induction false} AllOrderly(all: seq<Delivery>)
    requires EachOrderly(all)
    ensures Orderly(all)
  {
    if all != [] {
      var n := |all| - 1;
      var before := all[..n];
      assert all == before + [all[n]];
      forall d: nat ensures S.KeysFirst(Of(before, d)) && S.Ascending(Of(before, d)) {
        assert S.KeysFirst(Of(all, d)) && S.Ascending(Of(all, d));
        assert all[n].sender != d ==> Of(all, d) == Of(before, d);
        if all[n].sender == d { PrefixOrderly(Of(before, d), all[n].envelope); }
      }
      AllOrderly(before);
      assert S.KeysFirst(Of(all, all[n].sender));
      LastOrderly(before, all[n]);
      OrderlyNext(before, all[n]);
    }
  }

  lemma {:induction false} InboxMembers(all: seq<Delivery>, user: string)
    ensures forall d :: d in Inbox(all, user) <==> d in all && d.envelope.toUser == user
  {
    if all != [] {
      var n := |all| - 1;
      InboxMembers(all[..n], user);
      assert forall d :: d in all <==> d in all[..n] || d == all[n];
    }
  }

  lemma OrderlyPrefix(log: seq<Delivery>, n: nat)
    requires Orderly(log) && n <= |log|
    ensures Orderly(log[..n])
    ensures n < |log| ==>
              (log[n].envelope.content.Message? ==> Shared(log[..n], log[n])) && NotBelow(log[..n], log[n])
  {
    assert forall p :: 0 <= p < n ==> log[..n][p] == log[p] && log[..n][..p] == log[..p];
  }

  /** Nothing another user received matters to this one. */
  lemma InboxKeeps(before: seq<Delivery>, user: string, d: Delivery)
    requires d.envelope.toUser == user && NotBelow(before, d)
    requires d.envelope.content.Message? ==> Shared(before, d)
    ensures NotBelow(Inbox(before, user), d)
    ensures d.envelope.content.Message? ==> Shared(Inbox(before, user), d)
  {
    InboxMembers(before, user);
  }

  lemma {:induction false} InboxIsOrderly(all: seq<Delivery>, user: string)
    requires Orderly(all)
    ensures Orderly(Inbox(all, user))
  {
    if all != [] {
      var n := |all| - 1;
      OrderlyPrefix(all, n);
      InboxIsOrderly(all[..n], user);
      if all[n].envelope.toUser == user {
        InboxKeeps(all[..n], user, all[n]);
        OrderlyNext(Inbox(all[..n], user), all[n]);
      } else {
        assert Inbox(all, user) == Inbox(all[..n], user);
      }
    }
  }

  /** However the runs of the senders interleave, every inbox is orderly. */
  lemma InboxOfRuns(all: seq<Delivery>, user: string)
    requires FromRuns(all)
    ensures Orderly(Inbox(all, user))
  {
    forall d: nat ensures S.KeysFirst(Of(all, d)) && S.Ascending(Of(all, d)) {
      RunsAreOrderly(Of(all, d));
    }
    AllOrderly(all);
    InboxIsOrderly(all, user);
  }

  // ---- what an envelope looks like to its recipient ----

  /** The session id of a sender's session. */
  type Naming = (nat, nat) -> string

  ghost predicate Injective(name: Naming)
  {
    forall a: nat, b: nat, c: nat, d: nat :: name(a, b) == name(c, d) ==> a == c && b == d
  }

  function NameOf(name: Naming, d: Delivery): string
  {
    name(d.sender, d.envelope.content.session)
  }

  /** An entry that carries this delivery to the holder of sharing key `key`. */
  predicate Carries(v: Value, d: Delivery, key: nat, name: Naming)
  {
    match d.envelope.content
    case KeyShare(_, index) => IsKeyShare(v) && Unseal(v, key) == Some((NameOf(name, d), index))
    case Message(_, index) =>
      && ProperMessage(v) && SessionOf(v) == Some(NameOf(name, d))
      && Payload(v, "ciphertext") == Some(Ciphertext(NameOf(name, d), index, true))
  }

  function Entry(id: string, contentType: string, session: string, payload: Value): Value
  {
    Map([(Text("msg_id"), Text(id)), (Text("content_type"), Text(contentType)),
         (Text("payload"), Map([(Text("session_id"), Text(session)), (Text("ciphertext"), payload)]))])
  }

  function ShareEntry(id: string, session: string, index: nat, key: nat): Value
  {
    Entry(id, "megolm.key_share", session, Sealed(session, index, key))
  }

  function MessageEntry(id: string, session: string, index: nat): Value
  {
    Entry(id, "megolm.message", session, Ciphertext(session, index, true))
  }

  /** What the sender builds is such an entry. */
  lemma EntryFacts(id: string, contentType: string, session: string, payload: Value)
    ensures var v := Entry(id, contentType, session, payload);
            && IdOf(v) == id && GetText(v, "content_type") == Some(contentType)
            && SessionOf(v) == Some(session) && Payload(v, "ciphertext") == Some(payload)
  {
    var inner := [(Text("session_id"), Text(session)), (Text("ciphertext"), payload)];
    var outer := [(Text("msg_id"), Text(id)), (Text("content_type"), Text(contentType)), (Text("payload"), Map(inner))];
    assert inner[1..][0].0 == Text("ciphertext") && outer[1..][0].0 == Text("content_type");
    assert outer[1..][1..][0].0 == Text("payload");
    assert Lookup(inner, "ciphertext") == Lookup(inner[1..], "ciphertext") == Some(payload);
    assert Lookup(outer, "content_type") == Lookup(outer[1..], "content_type") == Some(Text(contentType));
    assert Lookup(outer[1..], "payload") == Lookup(outer[1..][1..], "payload") == Some(Map(inner));
    assert Lookup(outer, "payload") == Lookup(outer[1..], "payload");
  }

  lemma EntryCarries(id: string, d: Delivery, key: nat, name: Naming)
    ensures var c := d.envelope.content;
            Carries(if c.KeyShare? then ShareEntry(id, NameOf(name, d), c.index, key)
                    else MessageEntry(id, NameOf(name, d), c.index), d, key, name)
  {
    var c := d.envelope.content;
    EntryFacts(id, "megolm.key_share", NameOf(name, d), Sealed(NameOf(name, d), c.index, key));
    EntryFacts(id, "megolm.message", NameOf(name, d), Ciphertext(NameOf(name, d), c.index, true));
  }

  ghost predicate Encodes(entries: seq<Value>, log: seq<Delivery>, key: nat, name: Naming)
  {
    |entries| == |log| && forall i :: 0 <= i < |log| ==> Carries(entries[i], log[i], key, name)
  }

  /** The envelopes as their senders build them, under the ids given. */
  function Entries(log: seq<Delivery>, ids: seq<string>, key: nat, name: Naming): (entries: seq<Value>)
    requires |ids| == |log|
    ensures |entries| == |log|
  {
    seq(|log|, i requires 0 <= i < |log| =>
      var c := log[i].envelope.content;
      if c.KeyShare? then ShareEntry(ids[i], NameOf(name, log[i]), c.index, key)
      else MessageEntry(ids[i], NameOf(name, log[i]), c.index))
  }

  /** Such envelopes carry any log of deliveries, whatever their ids. */
  lemma EntriesCarry(log: seq<Delivery>, ids: seq<string>, key: nat, name: Naming)
    requires |ids| == |log|
    ensures var entries := Entries(log, ids, key, name);
            Encodes(entries, log, key, name) && forall i :: 0 <= i < |log| ==> IdOf(entries[i]) == ids[i]
  {
    var entries := Entries(log, ids, key, name);
    forall i | 0 <= i < |log| ensures Carries(entries[i], log[i], key, name) && IdOf(entries[i]) == ids[i] {
      EntryCarries(ids[i], log[i], key, name);
      var c := log[i].envelope.content;
      EntryFacts(ids[i], "megolm.key_share", NameOf(name, log[i]), Sealed(NameOf(name, log[i]), c.index, key));
      EntryFacts(ids[i], "megolm.message", NameOf(name, log[i]), Ciphertext(NameOf(name, log[i]), c.index, true));
    }
  }

  ghost predicate DistinctEntryIds(entries: seq<Value>)
  {
    forall i, j :: 0 <= i < j < |entries| ==> IdOf(entries[i]) != IdOf(entries[j])
  }

  /** No share of these is taken for one already dealt with. */
  ghost predicate SharesUnseen(entries: seq<Value>, seen: set<string>)
  {
    forall i :: 0 <= i < |entries| && IsKeyShare(entries[i]) ==> IdOf(entries[i]) !in seen
  }

  // ---- which record the device keeps ----

  /** The index of the first fresh share of a session. */
  function FirstShare(envelopes: seq<Value>, me: nat, seen: set<string>, session: string): Option<nat>
  {
    if envelopes == [] then None
    else
      var n := |envelopes| - 1;
      var v := envelopes[n];
      var before := FirstShare(envelopes[..n], me, seen, session);
      if before.Some? then before
      else if IsKeyShare(v) && IdOf(v) !in seen && Unseal(v, me).Some? && Unseal(v, me).value.0 == session
      then Some(Unseal(v, me).value.1)
      else None
  }

  /** A batch gives a session not yet known its first share's index, whatever shares follow. */
  lemma {:induction false} FirstShareIsKept(envelopes: seq<Value>, me: nat, seen: set<string>, sessions: Sessions,
                                            session: string)
    requires session !in sessions
    ensures var after := ApplyShares(envelopes, me, seen, sessions);
            var first := FirstShare(envelopes, me, seen, session);
            (session in after <==> first.Some?) && (first.Some? ==> after[session] == Ready(first.value))
  {
    if envelopes != [] { FirstShareIsKept(envelopes[..|envelopes| - 1], me, seen, sessions, session); }
  }

  /** So a message of a session new to the device opens if and only if the first fresh share of
      that session, not the earliest, is at an index no later than the message's. */
  lemma {:induction false} OpensIffFirstShare(envelopes: seq<Value>, me: nat, seen: set<string>, sessions: Sessions,
                                              v: Value, index: nat)
    requires ProperMessage(v) && SessionOf(v).value !in sessions && IdOf(v) !in seen && !IsKeyShare(v)
    requires Payload(v, "ciphertext") == Some(Ciphertext(SessionOf(v).value, index, true))
    ensures var after := ApplyShares(envelopes, me, seen, sessions);
            var first := FirstShare(envelopes, me, seen, SessionOf(v).value);
            OutcomeOf(v, seen, after) ==
              if first.None? then Skipped else if first.value <= index then Materialized else Failed
  {
    FirstShareIsKept(envelopes, me, seen, sessions, SessionOf(v).value);
  }

  /** Two shares of one session out of order: the later one would open the message, and it fails. */
  lemma LateShareFails(session: string, me: nat, low: nat, high: nat)
    requires low < high
    ensures var m := MessageEntry("3", session, low);
            var batch := [ShareEntry("1", session, high, me), ShareEntry("2", session, low, me), m];
            var after := ApplyShares(batch, me, {}, map[]);
            OutcomeOf(m, {}, after) == Failed && Decrypts(m, Ready(low))
  {
    var a, b := ShareEntry("1", session, high, me), ShareEntry("2", session, low, me);
    var m := MessageEntry("3", session, low);
    EntryFacts("1", "megolm.key_share", session, Sealed(session, high, me));
    EntryFacts("2", "megolm.key_share", session, Sealed(session, low, me));
    EntryFacts("3", "megolm.message", session, Ciphertext(session, low, true));
    var batch := [a, b, m];
    assert batch[..2] == [a, b] && [a, b][..1] == [a] && [a][..0] == [];
    assert FirstShare([a], me, {}, session) == Some(high);
    assert FirstShare([a, b], me, {}, session) == Some(high);
    assert FirstShare(batch, me, {}, session) == FirstShare(batch[..2], me, {}, session);
    OpensIffFirstShare(batch, me, {}, map[], m, low);
  }

  // ---- reading in order ----

  /** Every share among the first `p` is on record. */
  ghost predicate Known(sessions: Sessions, log: seq<Delivery>, p: nat, name: Naming)
  {
    forall i :: 0 <= i < p && i < |log| && log[i].envelope.content.KeyShare? ==> NameOf(name, log[i]) in sessions
  }

  /** Whatever is on record opens all messages of its session. */
  ghost predicate Fits(sessions: Sessions, log: seq<Delivery>, name: Naming)
  {
    forall i :: 0 <= i < |log| && log[i].envelope.content.Message? && NameOf(name, log[i]) in sessions ==>
      sessions[NameOf(name, log[i])].Ready? && sessions[NameOf(name, log[i])].first <= log[i].envelope.content.index
  }

  lemma EarlierKnown(log: seq<Delivery>, p: nat, i: nat, sessions: Sessions, name: Naming)
    requires Orderly(log) && Known(sessions, log, p, name) && i < p <= |log| && log[i].envelope.content.Message?
    ensures NameOf(name, log[i]) in sessions
  {
    assert Shared(log[..i], log[i]);
    var e :| e in log[..i] && SameSession(e, log[i]) && e.envelope.content.KeyShare?;
    assert NameOf(name, e) == NameOf(name, log[i]);
  }

  /** A share new to the device fits: messages before it would have had an earlier share, and
      those after it are at no lower index. */
  lemma ShareFits(log: seq<Delivery>, p: nat, sessions: Sessions, name: Naming)
    requires Orderly(log) && Injective(name) && p < |log| && log[p].envelope.content.KeyShare?
    requires Fits(sessions, log, name) && Known(sessions, log, p, name)
    ensures var after := AddInbound(sessions, NameOf(name, log[p]), log[p].envelope.content.index);
            Fits(after, log, name) && Known(after, log, p + 1, name)
  {
    var after := AddInbound(sessions, NameOf(name, log[p]), log[p].envelope.content.index);
    forall i | 0 <= i < |log| && log[i].envelope.content.Message? && NameOf(name, log[i]) in after
      ensures after[NameOf(name, log[i])].Ready? && after[NameOf(name, log[i])].first <= log[i].envelope.content.index
    {
      if i < p {
        EarlierKnown(log, p, i, sessions, name);
      } else {
        assert NotBelow(log[..i], log[i]);
        assert i > p ==> log[p] in log[..i];
      }
    }
  }

  function AddShare(sessions: Sessions, v: Value, key: nat, seen: set<string>): Sessions
  {
    if IsKeyShare(v) && IdOf(v) !in seen && Unseal(v, key).Some?
    then AddInbound(sessions, Unseal(v, key).value.0, Unseal(v, key).value.1) else sessions
  }

  lemma ApplySharesNext(entries: seq<Value>, a: nat, p: nat, key: nat, seen: set<string>, sessions: Sessions)
    requires a <= p < |entries|
    ensures ApplyShares(entries[a..p + 1], key, seen, sessions)
         == AddShare(ApplyShares(entries[a..p], key, seen, sessions), entries[p], key, seen)
  {
    var chunk := entries[a..p + 1];
    assert chunk[..|chunk| - 1] == entries[a..p] && chunk[|chunk| - 1] == entries[p];
  }

  /** One entry of the share pass. */
  lemma EntryFits(v: Value, log: seq<Delivery>, p: nat, key: nat, seen: set<string>, sessions: Sessions, name: Naming)
    requires Orderly(log) && Injective(name) && p < |log| && Carries(v, log[p], key, name)
    requires IsKeyShare(v) ==> IdOf(v) !in seen
    requires Fits(sessions, log, name) && Known(sessions, log, p, name)
    ensures var after := AddShare(sessions, v, key, seen); Fits(after, log, name) && Known(after, log, p + 1, name)
  {
    if log[p].envelope.content.KeyShare? { ShareFits(log, p, sessions, name); }
  }

  ghost predicate FitTo(sessions: Sessions, log: seq<Delivery>, p: nat, name: Naming)
  {
    Fits(sessions, log, name) && Known(sessions, log, p, name)
  }

  /** Whatever each entry of the share pass keeps, the pass keeps. */
  lemma {:induction false} SharePass(entries: seq<Value>, a: nat, b: nat, key: nat, seen: set<string>,
                                     sessions: Sessions, keeps: (Sessions, nat) -> bool)
    requires a <= b <= |entries| && keeps(sessions, a)
    requires forall t, i: nat :: a <= i < b && keeps(t, i) ==> keeps(AddShare(t, entries[i], key, seen), i + 1)
    ensures keeps(ApplyShares(entries[a..b], key, seen, sessions), b)
    decreases b
  {
    if a == b {
      assert entries[a..b] == [];
    } else {
      SharePass(entries, a, b - 1, key, seen, sessions, keeps);
      ApplySharesNext(entries, a, b - 1, key, seen, sessions);
    }
  }

  lemma SharesFit(entries: seq<Value>, log: seq<Delivery>, a: nat, b: nat, key: nat, seen: set<string>,
                  sessions: Sessions, name: Naming)
    requires Orderly(log) && Injective(name) && Encodes(entries, log, key, name) && SharesUnseen(entries, seen)
    requires a <= b <= |entries| && FitTo(sessions, log, a, name)
    ensures FitTo(ApplyShares(entries[a..b], key, seen, sessions), log, b, name)
  {
    var keeps := (t, i: nat) => FitTo(t, log, i, name);
    forall t, i: nat | a <= i < b && keeps(t, i) ensures keeps(AddShare(t, entries[i], key, seen), i + 1) {
      EntryFits(entries[i], log, i, key, seen, t, name);
    }
    SharePass(entries, a, b, key, seen, sessions, keeps);
  }

  /** The messages of a batch that are not yet stored. */
  function Unseen(entries: seq<Value>, seen: set<string>): seq<Value>
  {
    if entries == [] then []
    else
      var n := |entries| - 1;
      var v := entries[n];
      Unseen(entries[..n], seen) + (if IsMessage(v) && IdOf(v) !in seen then [v] else [])
  }

  ghost predicate AllOpen(entries: seq<Value>, sessions: Sessions)
  {
    forall i :: 0 <= i < |entries| && IsMessage(entries[i]) ==>
      ProperMessage(entries[i]) && SessionOf(entries[i]).value in sessions
      && Decrypts(entries[i], sessions[SessionOf(entries[i]).value])
  }

  lemma {:induction false} UnseenMembers(entries: seq<Value>, seen: set<string>)
    ensures forall v :: v in Unseen(entries, seen) <==> v in entries && IsMessage(v) && IdOf(v) !in seen
  {
    if entries != [] {
      var n := |entries| - 1;
      UnseenMembers(entries[..n], seen);
      assert forall v :: v in entries <==> v in entries[..n] || v == entries[n];
    }
  }

  lemma NotAmong(a: seq<Value>, id: string)
    requires forall v :: v in a ==> IdOf(v) != id
    ensures id !in IdsIn(a)
  {
  }

  lemma Apart(entries: seq<Value>, a: nat, i: nat)
    requires DistinctEntryIds(entries) && a <= i < |entries|
    ensures forall w :: w in entries[..a] ==> IdOf(w) != IdOf(entries[i])
  {
  }

  lemma OpenNext(before: seq<Value>, v: Value, seen: set<string>, sessions: Sessions)
    requires IdOf(v) !in IdsIn(before)
    requires IsMessage(v) ==>
               ProperMessage(v) && SessionOf(v).value in sessions && Decrypts(v, sessions[SessionOf(v).value])
    ensures var b := Batch(before, seen + IdsIn(before), []);
            var after := before + (if IsMessage(v) && IdOf(v) !in seen then [v] else []);
            && Note(b, v, OutcomeOf(v, b.seen, sessions)) == Batch(after, seen + IdsIn(after), [])
            && !OutcomeOf(v, b.seen, sessions).Failed?
  {
    IdsInConcat(before, [v]);
    assert IdsIn([v]) == {IdOf(v)};
  }

  lemma AllOpenPrefix(entries: seq<Value>, n: nat, sessions: Sessions)
    requires AllOpen(entries, sessions) && DistinctEntryIds(entries) && n < |entries|
    ensures AllOpen(entries[..n], sessions) && DistinctEntryIds(entries[..n])
    ensures IsMessage(entries[n]) ==>
              ProperMessage(entries[n]) && SessionOf(entries[n]).value in sessions
              && Decrypts(entries[n], sessions[SessionOf(entries[n]).value])
  {
  }

  lemma PrefixApart(entries: seq<Value>, n: nat, seen: set<string>)
    requires DistinctEntryIds(entries) && n < |entries|
    ensures IdOf(entries[n]) !in IdsIn(Unseen(entries[..n], seen))
  {
    UnseenMembers(entries[..n], seen);
    Apart(entries, n, n);
    NotAmong(Unseen(entries[..n], seen), IdOf(entries[n]));
  }

  /** A batch all of whose messages open is materialized once each, in order. */
  lemma {:induction false} OpenBatch(entries: seq<Value>, seen: set<string>, sessions: Sessions)
    requires AllOpen(entries, sessions) && DistinctEntryIds(entries)
    ensures ApplyMessages(entries, seen, sessions)
         == Batch(Unseen(entries, seen), seen + IdsIn(Unseen(entries, seen)), [])
    ensures FailedOf(entries, seen, sessions) == {}
  {
    if entries == [] {
      assert IdsIn([]) == {};
    } else {
      var n := |entries| - 1;
      AllOpenPrefix(entries, n, sessions);
      OpenBatch(entries[..n], seen, sessions);
      PrefixApart(entries, n, seen);
      OpenNext(Unseen(entries[..n], seen), entries[n], seen, sessions);
    }
  }

  lemma ChunkOpens(entries: seq<Value>, log: seq<Delivery>, a: nat, b: nat, key: nat, sessions: Sessions, name: Naming)
    requires Orderly(log) && Encodes(entries, log, key, name) && a <= b <= |entries|
    requires Fits(sessions, log, name) && Known(sessions, log, b, name)
    ensures AllOpen(entries[a..b], sessions)
  {
    var chunk := entries[a..b];
    forall i | 0 <= i < |chunk| && IsMessage(chunk[i])
      ensures ProperMessage(chunk[i]) && SessionOf(chunk[i]).value in sessions
           && Decrypts(chunk[i], sessions[SessionOf(chunk[i]).value])
    {
      var p := a + i;
      assert chunk[i] == entries[p] && Carries(entries[p], log[p], key, name);
      EarlierKnown(log, b, p, sessions, name);
    }
  }

  /** The batches one after the other, as the sync reads them. */
  function ReadAll(p: Pass, chunks: seq<seq<Value>>, me: nat): Pass
  {
    if chunks == [] then p
    else
      var n := |chunks| - 1;
      AddBatch(ReadAll(p, chunks[..n], me), chunks[n], me)
  }

  function Joined(chunks: seq<seq<Value>>): seq<Value>
  {
    if chunks == [] then [] else Joined(chunks[..|chunks| - 1]) + chunks[|chunks| - 1]
  }

  /** The skips of the batch read after pass `p`. */
  function SkipsOf(p: Pass, envelopes: seq<Value>, me: nat): seq<Value>
  {
    ApplyMessages(envelopes, p.seen, ApplyShares(envelopes, me, p.seen, p.sessions)).skipped
  }

  ghost predicate NoSkips(p: Pass, chunks: seq<seq<Value>>, me: nat)
  {
    forall k :: 0 <= k < |chunks| ==> SkipsOf(ReadAll(p, chunks[..k], me), chunks[k], me) == []
  }

  /** Where reading stands after the first `a` entries. */
  ghost predicate ReadTo(p: Pass, q: Pass, entries: seq<Value>, log: seq<Delivery>, a: nat, name: Naming)
    requires a <= |entries|
  {
    && Fits(q.sessions, log, name) && Known(q.sessions, log, a, name)
    && q == p.(sessions := q.sessions, messages := p.messages + Unseen(entries[..a], p.seen),
               seen := p.seen + IdsIn(Unseen(entries[..a], p.seen)))
  }

  lemma {:induction false} UnseenConcat(x: seq<Value>, y: seq<Value>, seen: set<string>, seen': set<string>)
    requires forall v :: v in y ==> (IdOf(v) in seen <==> IdOf(v) in seen')
    ensures Unseen(x + y, seen) == Unseen(x, seen) + Unseen(y, seen')
  {
    if y == [] {
      assert x + y == x;
    } else {
      var n := |y| - 1;
      assert (x + y)[..|x| + n] == x + y[..n];
      UnseenConcat(x, y[..n], seen, seen');
    }
  }

  /** What has been read so far has none of the ids still to come. */
  lemma SeenApart(entries: seq<Value>, a: nat, b: nat, seen: set<string>)
    requires DistinctEntryIds(entries) && a <= b <= |entries|
    ensures forall i :: a <= i < b ==>
              (IdOf(entries[i]) in seen <==> IdOf(entries[i]) in seen + IdsIn(Unseen(entries[..a], seen)))
  {
    UnseenMembers(entries[..a], seen);
    forall i | a <= i < b ensures IdOf(entries[i]) !in IdsIn(Unseen(entries[..a], seen)) {
      Apart(entries, a, i);
      NotAmong(Unseen(entries[..a], seen), IdOf(entries[i]));
    }
  }

  lemma SharesStillUnseen(entries: seq<Value>, log: seq<Delivery>, a: nat, key: nat, name: Naming, seen: set<string>)
    requires Encodes(entries, log, key, name) && DistinctEntryIds(entries) && SharesUnseen(entries, seen)
          && a <= |entries|
    ensures SharesUnseen(entries, seen + IdsIn(Unseen(entries[..a], seen)))
  {
    UnseenMembers(entries[..a], seen);
    forall i | 0 <= i < |entries| && IsKeyShare(entries[i])
      ensures IdOf(entries[i]) !in IdsIn(Unseen(entries[..a], seen))
    {
      forall w | w in Unseen(entries[..a], seen) ensures IdOf(w) != IdOf(entries[i]) {
        var j :| 0 <= j < a && entries[j] == w;
        assert i != j;
      }
      NotAmong(Unseen(entries[..a], seen), IdOf(entries[i]));
    }
  }

  lemma SlicesDistinct(entries: seq<Value>, a: nat, b: nat)
    requires DistinctEntryIds(entries) && a <= b <= |entries|
    ensures DistinctEntryIds(entries[a..b])
  {
  }

  /** What a batch adds is what it has that the device did not. */
  lemma UnseenSlice(entries: seq<Value>, a: nat, b: nat, seen: set<string>)
    requires DistinctEntryIds(entries) && a <= b <= |entries|
    ensures var old_ := Unseen(entries[..a], seen);
            var more := Unseen(entries[a..b], seen + IdsIn(old_));
            Unseen(entries[..b], seen) == old_ + more && IdsIn(Unseen(entries[..b], seen)) == IdsIn(old_) + IdsIn(more)
  {
    var old_ := Unseen(entries[..a], seen);
    var chunk := entries[a..b];
    SeenApart(entries, a, b, seen);
    assert forall v :: v in chunk ==> exists i :: a <= i < b && entries[i] == v;
    assert entries[..b] == entries[..a] + chunk;
    UnseenConcat(entries[..a], chunk, seen, seen + IdsIn(old_));
    IdsInConcat(old_, Unseen(chunk, seen + IdsIn(old_)));
  }

  lemma ReadChunk(p: Pass, q: Pass, entries: seq<Value>, log: seq<Delivery>, a: nat, b: nat, key: nat, name: Naming)
    requires Orderly(log) && Injective(name) && Encodes(entries, log, key, name)
    requires DistinctEntryIds(entries) && SharesUnseen(entries, p.seen)
    requires a <= b <= |entries| && ReadTo(p, q, entries, log, a, name)
    ensures SkipsOf(q, entries[a..b], key) == []
    ensures ReadTo(p, AddBatch(q, entries[a..b], key), entries, log, b, name)
  {
    var chunk := entries[a..b];
    SharesStillUnseen(entries, log, a, key, name, p.seen);
    SharesFit(entries, log, a, b, key, q.seen, q.sessions, name);
    var sessions := ApplyShares(chunk, key, q.seen, q.sessions);
    ChunkOpens(entries, log, a, b, key, sessions, name);
    SlicesDistinct(entries, a, b);
    OpenBatch(chunk, q.seen, sessions);
    UnseenSlice(entries, a, b, p.seen);
    BatchAdds(p, q, chunk, Unseen(entries[..a], p.seen), Unseen(chunk, q.seen), sessions, key);
  }

  lemma BatchAdds(p: Pass, q: Pass, chunk: seq<Value>, before: seq<Value>, more: seq<Value>, sessions: Sessions,
                  key: nat)
    requires q == p.(sessions := q.sessions, messages := p.messages + before, seen := p.seen + IdsIn(before))
    requires sessions == ApplyShares(chunk, key, q.seen, q.sessions)
    requires ApplyMessages(chunk, q.seen, sessions) == Batch(more, q.seen + IdsIn(more), [])
    requires FailedOf(chunk, q.seen, sessions) == {}
    ensures AddBatch(q, chunk, key) ==
              p.(sessions := sessions, messages := p.messages + (before + more),
                 seen := p.seen + (IdsIn(before) + IdsIn(more)))
  {
  }

  lemma {:induction false} JoinedPrefix(chunks: seq<seq<Value>>, k: nat)
    requires k <= |chunks|
    ensures Joined(chunks[..k]) <= Joined(chunks)
    decreases |chunks|
  {
    if k < |chunks| {
      var n := |chunks| - 1;
      JoinedPrefix(chunks[..n], k);
      assert chunks[..n][..k] == chunks[..k];
    } else {
      assert chunks[..k] == chunks;
    }
  }

  lemma JoinedNext(chunks: seq<seq<Value>>, k: nat)
    requires k < |chunks|
    ensures var a, b := |Joined(chunks[..k])|, |Joined(chunks[..k + 1])|;
            a <= b <= |Joined(chunks)| && Joined(chunks)[a..b] == chunks[k]
  {
    var next := chunks[..k + 1];
    assert next[..k] == chunks[..k];
    JoinedPrefix(chunks, k + 1);
    assert Joined(next) == Joined(chunks[..k]) + chunks[k];
  }

  lemma ReadAllNext(p: Pass, chunks: seq<seq<Value>>, k: nat, me: nat)
    requires k < |chunks|
    ensures ReadAll(p, chunks[..k + 1], me) == AddBatch(ReadAll(p, chunks[..k], me), chunks[k], me)
  {
    assert chunks[..k + 1][..k] == chunks[..k];
  }

  lemma ReadNext(p: Pass, chunks: seq<seq<Value>>, k: nat, log: seq<Delivery>, key: nat, name: Naming)
    requires Orderly(log) && Injective(name) && Encodes(Joined(chunks), log, key, name)
    requires DistinctEntryIds(Joined(chunks)) && SharesUnseen(Joined(chunks), p.seen)
    requires k < |chunks| && |Joined(chunks[..k])| <= |Joined(chunks)|
    requires ReadTo(p, ReadAll(p, chunks[..k], key), Joined(chunks), log, |Joined(chunks[..k])|, name)
    ensures |Joined(chunks[..k + 1])| <= |Joined(chunks)|
    ensures ReadTo(p, ReadAll(p, chunks[..k + 1], key), Joined(chunks), log, |Joined(chunks[..k + 1])|, name)
    ensures SkipsOf(ReadAll(p, chunks[..k], key), chunks[k], key) == []
  {
    JoinedNext(chunks, k);
    ReadAllNext(p, chunks, k, key);
    ReadChunk(p, ReadAll(p, chunks[..k], key), Joined(chunks), log,
              |Joined(chunks[..k])|, |Joined(chunks[..k + 1])|, key, name);
  }

  lemma {:induction false} ReadFirst(p: Pass, chunks: seq<seq<Value>>, k: nat, log: seq<Delivery>, key: nat,
                                     name: Naming)
    requires Orderly(log) && Injective(name) && Encodes(Joined(chunks), log, key, name)
    requires DistinctEntryIds(Joined(chunks)) && SharesUnseen(Joined(chunks), p.seen) && Fits(p.sessions, log, name)
    requires k <= |chunks|
    ensures |Joined(chunks[..k])| <= |Joined(chunks)|
    ensures ReadTo(p, ReadAll(p, chunks[..k], key), Joined(chunks), log, |Joined(chunks[..k])|, name)
    decreases k
  {
    if k == 0 {
      assert chunks[..0] == [] && Joined(chunks)[..0] == [] && IdsIn([]) == {};
    } else {
      ReadFirst(p, chunks, k - 1, log, key, name);
      ReadNext(p, chunks, k - 1, log, key, name);
    }
  }

  /** Entries in order, cut into batches anywhere. */
  lemma OrderlyIsReadable(log: seq<Delivery>, p: Pass, chunks: seq<seq<Value>>, key: nat, name: Naming)
    requires Orderly(log) && Injective(name) && Encodes(Joined(chunks), log, key, name)
    requires DistinctEntryIds(Joined(chunks)) && SharesUnseen(Joined(chunks), p.seen) && Fits(p.sessions, log, name)
    ensures NoSkips(p, chunks, key)
    ensures var q := ReadAll(p, chunks, key);
            && q.failed == p.failed
            && q.messages == p.messages + Unseen(Joined(chunks), p.seen)
            && q.seen == p.seen + IdsIn(Unseen(Joined(chunks), p.seen))
  {
    forall k | 0 <= k < |chunks| ensures SkipsOf(ReadAll(p, chunks[..k], key), chunks[k], key) == [] {
      ReadFirst(p, chunks, k, log, key, name);
      ReadNext(p, chunks, k, log, key, name);
    }
    ReadFirst(p, chunks, |chunks|, log, key, name);
    assert chunks[..|chunks|] == chunks && Joined(chunks)[..|Joined(chunks)|] == Joined(chunks);
  }

  /** Sending and receiving composed: whatever the senders' runs were and however they
      interleaved, a device that reads an inbox in the order it was delivered, cut into batches
      anywhere, skips nothing, fails nothing, and materializes each message it did not have
      exactly once, in order. It may start with records of its own as long as they fit. */
  lemma InboxIsReadable(all: seq<Delivery>, user: string, p: Pass, chunks: seq<seq<Value>>, key: nat, name: Naming)
    requires FromRuns(all) && Injective(name)
    requires Encodes(Joined(chunks), Inbox(all, user), key, name)
    requires DistinctEntryIds(Joined(chunks)) && SharesUnseen(Joined(chunks), p.seen)
    requires Fits(p.sessions, Inbox(all, user), name)
    ensures NoSkips(p, chunks, key)
    ensures var q := ReadAll(p, chunks, key);
            && q.failed == p.failed
            && q.messages == p.messages + Unseen(Joined(chunks), p.seen)
            && q.seen == p.seen + IdsIn(Unseen(Joined(chunks), p.seen))
  {
    InboxOfRuns(all, user);
    OrderlyIsReadable(Inbox(all, user), p, chunks, key, name);
  }

  // ---- an inbox that has been compacted ----

  function Blobs(keys: seq<string>, blobs: map<string, seq<Value>>): seq<seq<Value>>
    requires forall k :: k in keys ==> k in blobs
  {
    if keys == [] then [] else Blobs(keys[..|keys| - 1], blobs) + [blobs[keys[|keys| - 1]]]
  }

  lemma ArchiveIsBatch(q: Pass, candidates: seq<string>, key: string, ingested: set<string>,
                       blobs: map<string, seq<Value>>, me: nat)
    requires key in blobs && key !in ingested && SkipsOf(q, blobs[key], me) == []
    ensures AddArchive(q.(candidates := candidates), key, ingested, blobs, me)
         == AddBatch(q, blobs[key], me).(candidates := candidates + [key])
  {
  }

  lemma NoSkipsPrefix(p: Pass, chunks: seq<seq<Value>>, n: nat, me: nat)
    requires NoSkips(p, chunks, me) && n < |chunks|
    ensures NoSkips(p, chunks[..n], me) && SkipsOf(ReadAll(p, chunks[..n], me), chunks[n], me) == []
  {
    var fewer := chunks[..n];
    forall k | 0 <= k < |fewer| ensures SkipsOf(ReadAll(p, fewer[..k], me), fewer[k], me) == [] {
      assert fewer[..k] == chunks[..k];
    }
  }

  lemma BlobsNext(keys: seq<string>, blobs: map<string, seq<Value>>)
    requires keys != [] && forall k :: k in keys ==> k in blobs
    ensures var n := |keys| - 1; var chunks := Blobs(keys, blobs);
            |chunks| == |keys| && chunks[..n] == Blobs(keys[..n], blobs) && chunks[n] == blobs[keys[n]]
  {
    BlobsLength(keys[..|keys| - 1], blobs);
  }

  lemma OverArchivesNext(p: Pass, keys: seq<string>, ingested: set<string>, blobs: map<string, seq<Value>>, me: nat,
                         q: Pass)
    requires keys != [] && keys[|keys| - 1] in blobs && keys[|keys| - 1] !in ingested
    requires var n := |keys| - 1;
             OverArchives(p, keys[..n], ingested, blobs, me) == q.(candidates := p.candidates + keys[..n])
             && SkipsOf(q, blobs[keys[n]], me) == []
    ensures OverArchives(p, keys, ingested, blobs, me)
         == AddBatch(q, blobs[keys[|keys| - 1]], me).(candidates := p.candidates + keys)
  {
    var n := |keys| - 1;
    ArchiveIsBatch(q, p.candidates + keys[..n], keys[n], ingested, blobs, me);
    assert p.candidates + keys == p.candidates + keys[..n] + [keys[n]];
  }

  /** Archives without skips are batches, and each becomes a candidate. */
  lemma {:induction false} ArchivesAreBatches(p: Pass, keys: seq<string>, ingested: set<string>,
                                              blobs: map<string, seq<Value>>, me: nat)
    requires forall k :: k in keys ==> k in blobs && k !in ingested
    requires NoSkips(p, Blobs(keys, blobs), me)
    ensures OverArchives(p, keys, ingested, blobs, me)
         == ReadAll(p, Blobs(keys, blobs), me).(candidates := p.candidates + keys)
  {
    if keys == [] {
      assert p.candidates + keys == p.candidates;
    } else {
      var n := |keys| - 1;
      var chunks := Blobs(keys, blobs);
      BlobsNext(keys, blobs);
      NoSkipsPrefix(p, chunks, n, me);
      ArchivesAreBatches(p, keys[..n], ingested, blobs, me);
      OverArchivesNext(p, keys, ingested, blobs, me, ReadAll(p, chunks[..n], me));
      ReadAllNext(p, chunks, n, me);
      assert chunks[..n + 1] == chunks;
    }
  }

  lemma {:induction false} BlobsLength(keys: seq<string>, blobs: map<string, seq<Value>>)
    requires forall k :: k in keys ==> k in blobs
    ensures |Blobs(keys, blobs)| == |keys|
  {
    if keys != [] { BlobsLength(keys[..|keys| - 1], blobs); }
  }

  /** A device that finds its whole inbox in archives it has not ingested, in order, proposes
      every one of them for marking, with no failure. */
  lemma ArchivedInboxIsIngested(all: seq<Delivery>, user: string, p: Pass, keys: seq<string>, ingested: set<string>,
                                blobs: map<string, seq<Value>>, key: nat, name: Naming)
    requires FromRuns(all) && Injective(name)
    requires forall k :: k in keys ==> k in blobs && k !in ingested
    requires Encodes(Joined(Blobs(keys, blobs)), Inbox(all, user), key, name)
    requires DistinctEntryIds(Joined(Blobs(keys, blobs))) && SharesUnseen(Joined(Blobs(keys, blobs)), p.seen)
    requires Fits(p.sessions, Inbox(all, user), name)
    ensures var q := OverArchives(p, keys, ingested, blobs, key);
            && q.candidates == p.candidates + keys && q.failed == p.failed
            && q.messages == p.messages + Unseen(Joined(Blobs(keys, blobs)), p.seen)
  {
    InboxIsReadable(all, user, p, Blobs(keys, blobs), key, name);
    ArchivesAreBatches(p, keys, ingested, blobs, key);
  }
}
