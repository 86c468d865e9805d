/** The receiving side of inbox sync: which envelopes a batch materializes, and when an
    archive may be skipped forever. */
module Ingest {
  import opened Wrappers
  import opened Cbor

  /** An inbound session the device has a record of; an unreadable record fails to load. */
  datatype Inbound = Ready(first: nat) | Unreadable

  type Sessions = map<string, Inbound>

  function IdOf(v: Value): string {
    MsgId(v).GetOr("")
  }

  function Payload(v: Value, field: string): Option<Value>
  {
    match Get(v, "payload")
    case Some(p) => Get(p, field)
    case None => None
  }

  predicate IsKeyShare(v: Value) {
    GetText(v, "content_type") == Some("megolm.key_share")
  }

  predicate IsMessage(v: Value) {
    GetText(v, "content_type") == Some("megolm.message")
  }

  /** The session a message names; a message naming none is malformed. */
  function SessionOf(v: Value): Option<string>
  {
    match Payload(v, "session_id")
    case Some(Text(s)) => Some(s)
    case _ => None
  }

  predicate ProperMessage(v: Value) {
    IsMessage(v) && SessionOf(v).Some?
  }

  /** The session key a share yields to the holder of sharing key `me`. */
  function Unseal(v: Value, me: nat): Option<(string, nat)>
  {
    match Payload(v, "ciphertext")
    case Some(Sealed(session, index, recipient)) => if recipient == me then Some((session, index)) else None
    case _ => None
  }

  predicate Decrypts(v: Value, inbound: Inbound)
  {
    match Payload(v, "ciphertext")
    case Some(Ciphertext(session, index, intact)) =>
      SessionOf(v) == Some(session) && intact && inbound.Ready? && inbound.first <= index
    case _ => false
  }

  datatype Outcome = Ignored | Materialized | Skipped | Failed

  function OutcomeOf(v: Value, seen: set<string>, sessions: Sessions): Outcome
  {
    if IsKeyShare(v) || IdOf(v) in seen || !IsMessage(v) then Ignored
    else match SessionOf(v)
      case None => Failed
      case Some(s) =>
        if s !in sessions then Skipped
        else if Decrypts(v, sessions[s]) then Materialized
        else Failed
  }

  /** `addInbound`: the record already there wins, whatever its index. */
  function AddInbound(sessions: Sessions, session: string, index: nat): Sessions
  {
    if session in sessions then sessions else sessions[session := Ready(index)]
  }

  /** The key-shares-first pass. */
  function ApplyShares(envelopes: seq<Value>, me: nat, seen: set<string>, sessions: Sessions): Sessions
  {
    if envelopes == [] then sessions
    else
      var n := |envelopes| - 1;
      var v := envelopes[n];
      var before := ApplyShares(envelopes[..n], me, seen, sessions);
      if IsKeyShare(v) && IdOf(v) !in seen && Unseal(v, me).Some?
      then AddInbound(before, Unseal(v, me).value.0, Unseal(v, me).value.1)
      else before
  }

  datatype Batch = Batch(messages: seq<Value>, seen: set<string>, skipped: seq<Value>)

  /** The message pass. */
  function ApplyMessages(envelopes: seq<Value>, seen: set<string>, sessions: Sessions): Batch
  {
    if envelopes == [] then Batch([], seen, [])
    else
      var n := |envelopes| - 1;
      var b := ApplyMessages(envelopes[..n], seen, sessions);
      Note(b, envelopes[n], OutcomeOf(envelopes[n], b.seen, sessions))
  }

  function Note(b: Batch, v: Value, outcome: Outcome): Batch
  {
    match outcome
    case Materialized => b.(messages := b.messages + [v], seen := b.seen + {IdOf(v)})
    case Skipped => b.(skipped := b.skipped + [v])
    case _ => b
  }

  // ---- what a batch guarantees ----

  ghost predicate OpensInBatch(envelopes: seq<Value>, me: nat, seen: set<string>, session: string)
  {
    exists v :: v in envelopes && IsKeyShare(v) && IdOf(v) !in seen
             && Unseal(v, me).Some? && Unseal(v, me).value.0 == session
  }

  lemma {:induction false} SharesLearned(envelopes: seq<Value>, me: nat, seen: set<string>, sessions: Sessions)
    ensures var after := ApplyShares(envelopes, me, seen, sessions);
            && (forall s :: s in after <==> s in sessions || OpensInBatch(envelopes, me, seen, s))
            && (forall s :: s in sessions ==> after[s] == sessions[s])
  {
    if envelopes != [] {
      var n := |envelopes| - 1;
      SharesLearned(envelopes[..n], me, seen, sessions);
      assert envelopes == envelopes[..n] + [envelopes[n]];
      forall s ensures OpensInBatch(envelopes, me, seen, s) <==>
        (OpensInBatch(envelopes[..n], me, seen, s)
         || (IsKeyShare(envelopes[n]) && IdOf(envelopes[n]) !in seen
             && Unseal(envelopes[n], me).Some? && Unseal(envelopes[n], me).value.0 == s))
      {
        assert forall v :: v in envelopes <==> v in envelopes[..n] || v == envelopes[n];
      }
    }
  }

  /** Every message of the batch is accounted for: its id is seen, it was skipped for want of
      its session, or it failed although the device holds a record of its session. */
  lemma {:induction false} EveryMessageAccounted(envelopes: seq<Value>, seen: set<string>, sessions: Sessions)
    ensures var b := ApplyMessages(envelopes, seen, sessions);
            && seen <= b.seen
            && (forall v :: v in envelopes && ProperMessage(v) && !IsKeyShare(v) && IdOf(v) !in b.seen ==>
                  if SessionOf(v).value in sessions then !Decrypts(v, sessions[SessionOf(v).value]) else v in b.skipped)
            && (forall v :: v in b.skipped ==>
                  v in envelopes && ProperMessage(v) && IdOf(v) !in seen && SessionOf(v).value !in sessions)
            && (forall v :: v in b.messages ==>
                  && v in envelopes && ProperMessage(v) && IdOf(v) !in seen
                  && SessionOf(v).value in sessions && Decrypts(v, sessions[SessionOf(v).value]))
            && (forall id :: id in b.seen <==> id in seen || exists v :: v in b.messages && IdOf(v) == id)
  {
    if envelopes != [] {
      var n := |envelopes| - 1;
      var v := envelopes[n];
      EveryMessageAccounted(envelopes[..n], seen, sessions);
      var b := ApplyMessages(envelopes[..n], seen, sessions);
      var b' := ApplyMessages(envelopes, seen, sessions);
      assert forall w :: w in envelopes <==> w in envelopes[..n] || w == v;
      assert forall w :: w in b'.messages <==> w in b.messages || (w == v && |b.messages| < |b'.messages|);
      assert forall w :: w in b'.skipped <==> w in b.skipped || (w == v && |b.skipped| < |b'.skipped|);
    }
  }

  /** Nothing materializes twice. */
  lemma {:induction false} MaterializedOnce(envelopes: seq<Value>, seen: set<string>, sessions: Sessions)
    ensures var b := ApplyMessages(envelopes, seen, sessions);
            forall i, j :: 0 <= i < j < |b.messages| ==> IdOf(b.messages[i]) != IdOf(b.messages[j])
  {
    if envelopes != [] {
      MaterializedOnce(envelopes[..|envelopes| - 1], seen, sessions);
      EveryMessageAccounted(envelopes[..|envelopes| - 1], seen, sessions);
      var b := ApplyMessages(envelopes[..|envelopes| - 1], seen, sessions);
      assert forall i :: 0 <= i < |b.messages| ==> b.messages[i] in b.messages;
    }
  }

  /** A message whose session is known, or opens from any fresh share in the same batch, is
      never a recoverable skip; any other unseen message is one unless a copy materialized. */
  lemma SkippedExactlyUnknown(envelopes: seq<Value>, me: nat, seen: set<string>, sessions: Sessions, v: Value)
    requires v in envelopes && ProperMessage(v) && IdOf(v) !in seen
    ensures var b := ApplyMessages(envelopes, seen, ApplyShares(envelopes, me, seen, sessions));
            var known := SessionOf(v).value in sessions || OpensInBatch(envelopes, me, seen, SessionOf(v).value);
            && (known ==> v !in b.skipped)
            && (!known ==> v in b.skipped || IdOf(v) in b.seen)
  {
    SharesLearned(envelopes, me, seen, sessions);
    EveryMessageAccounted(envelopes, seen, ApplyShares(envelopes, me, seen, sessions));
  }

  ghost predicate Handled(entries: seq<Value>, ids: set<string>, failed: set<Value>)
  {
    forall v :: v in entries && ProperMessage(v) ==> IdOf(v) in ids || v in failed
  }

  /** The envelopes of the batch that the message pass fails to decrypt. */
  function FailedOf(envelopes: seq<Value>, seen: set<string>, sessions: Sessions): set<Value>
  {
    if envelopes == [] then {}
    else
      var n := |envelopes| - 1;
      var v := envelopes[n];
      FailedOf(envelopes[..n], seen, sessions)
        + (if ProperMessage(v) && OutcomeOf(v, ApplyMessages(envelopes[..n], seen, sessions).seen, sessions).Failed?
           then {v} else {})
  }

  /** Each message of the batch ends up seen, skipped or failed. */
  lemma {:induction false} SeenSkippedOrFailed(envelopes: seq<Value>, seen: set<string>, sessions: Sessions)
    ensures var b := ApplyMessages(envelopes, seen, sessions);
            forall v :: v in envelopes && ProperMessage(v) ==>
              IdOf(v) in b.seen || v in b.skipped || v in FailedOf(envelopes, seen, sessions)
  {
    if envelopes != [] {
      var n := |envelopes| - 1;
      SeenSkippedOrFailed(envelopes[..n], seen, sessions);
      assert forall w :: w in envelopes <==> w in envelopes[..n] || w == envelopes[n];
    }
  }

  /** No recoverable skip means everything is materialized or failed under a known session. */
  lemma {:induction false} NoSkipHandled(envelopes: seq<Value>, seen: set<string>, sessions: Sessions)
    requires ApplyMessages(envelopes, seen, sessions).skipped == []
    ensures Handled(envelopes, ApplyMessages(envelopes, seen, sessions).seen, FailedOf(envelopes, seen, sessions))
  {
    SeenSkippedOrFailed(envelopes, seen, sessions);
  }

  // ---- a whole sync ----

  /** What a pass over a list of archives has produced so far. */
  datatype Pass = Pass(
    sessions: Sessions, seen: set<string>, messages: seq<Value>, candidates: seq<string>, failed: set<Value>)

  function AddBatch(p: Pass, envelopes: seq<Value>, me: nat): Pass
  {
    var sessions := ApplyShares(envelopes, me, p.seen, p.sessions);
    var b := ApplyMessages(envelopes, p.seen, sessions);
    p.(sessions := sessions, seen := b.seen, messages := p.messages + b.messages,
       failed := p.failed + FailedOf(envelopes, p.seen, sessions))
  }

  function AddArchive(p: Pass, key: string, ingested: set<string>, blobs: map<string, seq<Value>>, me: nat): Pass
  {
    if key in ingested || key !in blobs then p
    else
      var sessions := ApplyShares(blobs[key], me, p.seen, p.sessions);
      var p' := AddBatch(p, blobs[key], me);
      if ApplyMessages(blobs[key], p.seen, sessions).skipped == []
      then p'.(candidates := p'.candidates + [key]) else p'
  }

  function OverArchives(p: Pass, keys: seq<string>, ingested: set<string>, blobs: map<string, seq<Value>>,
                        me: nat): Pass
  {
    if keys == [] then p
    else
      var n := |keys| - 1;
      AddArchive(OverArchives(p, keys[..n], ingested, blobs, me), keys[n], ingested, blobs, me)
  }

  function IdsIn(messages: seq<Value>): set<string>
  {
    set v | v in messages :: IdOf(v)
  }

  /** Along a pass, seen ids are the ones it started from or has a message for, and each
      candidate archive is handled. */
  ghost predicate PassSafe(p: Pass, start: set<string>, blobs: map<string, seq<Value>>)
  {
    && start <= p.seen <= start + IdsIn(p.messages)
    && forall k :: k in p.candidates ==> k in blobs && Handled(blobs[k], p.seen, p.failed)
  }

  lemma AddBatchSafe(p: Pass, envelopes: seq<Value>, me: nat, start: set<string>, blobs: map<string, seq<Value>>)
    requires PassSafe(p, start, blobs)
    ensures PassSafe(AddBatch(p, envelopes, me), start, blobs)
  {
    var sessions := ApplyShares(envelopes, me, p.seen, p.sessions);
    var b := ApplyMessages(envelopes, p.seen, sessions);
    EveryMessageAccounted(envelopes, p.seen, sessions);
    assert forall v :: v in p.messages + b.messages <==> v in p.messages || v in b.messages;
    assert IdsIn(p.messages + b.messages) == IdsIn(p.messages) + IdsIn(b.messages);
  }

  lemma {:induction false} OverArchivesSafe(
    p: Pass, keys: seq<string>, ingested: set<string>, blobs: map<string, seq<Value>>, me: nat, start: set<string>)
    requires PassSafe(p, start, blobs)
    ensures PassSafe(OverArchives(p, keys, ingested, blobs, me), start, blobs)
  {
    if keys != [] {
      var n := |keys| - 1;
      OverArchivesSafe(p, keys[..n], ingested, blobs, me, start);
      var q := OverArchives(p, keys[..n], ingested, blobs, me);
      if keys[n] !in ingested && keys[n] in blobs {
        var envelopes := blobs[keys[n]];
        AddBatchSafe(q, envelopes, me, start, blobs);
        var sessions := ApplyShares(envelopes, me, q.seen, q.sessions);
        if ApplyMessages(envelopes, q.seen, sessions).skipped == [] {
          NoSkipHandled(envelopes, q.seen, sessions);
        }
      }
    }
  }

  /** The whole fetch: the live batch with nothing seen, then the archives with the stored
      ids and this sync's live messages seen. */
  function Fetched(live: seq<Value>, keys: seq<string>, blobs: map<string, seq<Value>>, me: nat,
                   sessions: Sessions, stored: set<string>, ingested: set<string>): Pass
  {
    var l := AddBatch(Pass(sessions, {}, [], [], {}), live, me);
    OverArchives(l.(seen := stored + IdsIn(l.messages)), keys, ingested, blobs, me)
  }

  lemma FetchedSafe(live: seq<Value>, keys: seq<string>, blobs: map<string, seq<Value>>, me: nat,
                    sessions: Sessions, stored: set<string>, ingested: set<string>)
    ensures PassSafe(Fetched(live, keys, blobs, me, sessions, stored, ingested), stored, blobs)
  {
    var l := AddBatch(Pass(sessions, {}, [], [], {}), live, me);
    OverArchivesSafe(l.(seen := stored + IdsIn(l.messages)), keys, ingested, blobs, me, stored);
  }

  lemma IdsInConcat(a: seq<Value>, b: seq<Value>)
    ensures IdsIn(a + b) == IdsIn(a) + IdsIn(b)
  {
    assert forall v :: v in a + b <==> v in a || v in b;
  }

  lemma {:induction false} OverArchivesGrows(p: Pass, keys: seq<string>, ingested: set<string>,
                                             blobs: map<string, seq<Value>>, me: nat)
    ensures var q := OverArchives(p, keys, ingested, blobs, me); p.messages <= q.messages && p.failed <= q.failed
  {
    if keys != [] { OverArchivesGrows(p, keys[..|keys| - 1], ingested, blobs, me); }
  }

  /** What a fetch makes of everything it reads: a live message is handed over, failed, or of a
      session still unknown after the live shares; one in a candidate archive is stored already,
      handed over, or failed. */
  lemma FetchedDealsWith(live: seq<Value>, keys: seq<string>, blobs: map<string, seq<Value>>, me: nat,
                         sessions: Sessions, stored: set<string>, ingested: set<string>)
    ensures var f := Fetched(live, keys, blobs, me, sessions, stored, ingested);
            && (forall v :: v in live && ProperMessage(v) ==>
                  IdOf(v) in IdsIn(f.messages) || v in f.failed
                  || SessionOf(v).value !in ApplyShares(live, me, {}, sessions))
            && (forall k :: k in f.candidates ==> k in blobs && Handled(blobs[k], stored + IdsIn(f.messages), f.failed))
  {
    FetchedSafe(live, keys, blobs, me, sessions, stored, ingested);
    var known := ApplyShares(live, me, {}, sessions);
    var b := ApplyMessages(live, {}, known);
    EveryMessageAccounted(live, {}, known);
    SeenSkippedOrFailed(live, {}, known);
    var l := AddBatch(Pass(sessions, {}, [], [], {}), live, me);
    assert l.messages == b.messages;
    OverArchivesGrows(l.(seen := stored + IdsIn(l.messages)), keys, ingested, blobs, me);
  }
}
