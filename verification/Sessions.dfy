/** Sending: the outbound session, its rotation, and who has been given its key. `delivered`
    is the order in which envelopes first landed in anyone's inbox. */
module Sessions {
  import opened Wrappers

  const ROTATION_THRESHOLD := 100
  const SEND_ATTEMPTS := 3

  /** An outbound ratchet: its next message is encrypted at `index`, and its exported key
      decrypts from `index` on. */
  datatype Outbound = Outbound(id: nat, index: nat)

  datatype Content = KeyShare(session: nat, index: nat) | Message(session: nat, index: nat)

  datatype Envelope = Envelope(toUser: string, content: Content)

  /** `outbound`, `isNew` and `freed` live in memory; `stored` and `shares` survive a restart. A
      freed session is one whose rotation died half-way: every use of it throws. */
  datatype Sender = Sender(
    me: string, outbound: Option<Outbound>, isNew: bool, freed: bool,
    stored: Option<Outbound>, shares: set<(nat, string)>, made: nat, delivered: seq<Envelope>)

  function Start(me: string): Sender
  {
    Sender(me, None, false, false, None, {}, 0, [])
  }

  function WithoutSession(shares: set<(nat, string)>, session: nat): set<(nat, string)>
  {
    set p | p in shares && p.0 != session
  }

  /** How far replacing a session gets: each stage is the last one reached before it dies. */
  datatype Stage = Nothing | SharesCleared | StoredCleared | InMemory | Persisted | Whole

  /** The old session's share records are dropped first, when there is an old session. */
  function Retired(s: Sender, old_: Option<Outbound>, stage: Stage): Sender
  {
    if stage.Nothing? || old_.None? then s else s.(shares := WithoutSession(s.shares, old_.value.id))
  }

  /** A fresh ratchet in memory. */
  function Created(s: Sender): Sender
  {
    s.(outbound := Some(Outbound(s.made, 0)), isNew := false, freed := false, made := s.made + 1)
  }

  function Stored(s: Sender, stage: Stage): Sender
  {
    if stage.Persisted? || stage.Whole? then s.(stored := s.outbound) else s
  }

  /** `getOutbound` and start-up clear the stored session before they make the new one. */
  function Replaced(s: Sender, stage: Stage): Sender
  {
    var retired := Retired(s, s.stored, stage);
    if stage.Nothing? || stage.SharesCleared? then retired
    else
      var cleared := retired.(stored := None);
      if stage.StoredCleared? then cleared else Stored(Created(cleared), stage)
  }

  /** `getOutbound`: the cached session with its newness consumed, or a fresh one. */
  function GotOutbound(s: Sender, stage: Stage): Sender
  {
    if s.outbound.Some? then s.(isNew := false) else Replaced(s, stage)
  }

  predicate GetsNew(s: Sender) {
    s.outbound.None? || s.isNew
  }

  predicate NeedsRotation(o: Outbound) {
    o.index >= ROTATION_THRESHOLD
  }

  /** `rotate` frees the session in memory first, and makes the new one before it clears the
      stored one. */
  function Rotated(s: Sender, stage: Stage): Sender
  {
    var retired := Retired(s, s.outbound, stage);
    if stage.Nothing? || stage.SharesCleared? then retired.(freed := true)
    else if stage.InMemory? then Created(retired)
    else Stored(Created(retired.(stored := None)), stage)
  }

  /** The envelopes of one send, key shares before messages, recipient before self-copy. */
  function BatchFor(me: string, toUser: string, o: Outbound, needsShare: bool): seq<Envelope>
  {
    var share, msg := KeyShare(o.id, o.index), Message(o.id, o.index);
    (if !needsShare then []
     else if toUser == me then [Envelope(toUser, share)]
     else [Envelope(toUser, share), Envelope(me, share)])
    + (if toUser == me then [Envelope(toUser, msg)] else [Envelope(toUser, msg), Envelope(me, msg)])
  }

  /** One POST: how many envelopes the server's in-order loop wrote, and what came back. */
  datatype Reply = Accepted | ClientError | ServerError
  datatype Attempt = Attempt(landed: nat, reply: Reply)

  /** The prefix written over all attempts made, and whether the last one was accepted. An
      accepted attempt wrote everything; repeats overwrite the same objects. */
  function Posted(batch: seq<Envelope>, attempts: seq<Attempt>): (nat, bool)
  {
    if attempts == [] then (0, false)
    else
      var n := if attempts[0].reply.Accepted? || attempts[0].landed > |batch| then |batch| else attempts[0].landed;
      if attempts[0].reply.Accepted? then (n, true)
      else if attempts[0].reply.ClientError? then (n, false)
      else
        var (m, ok) := Posted(batch, attempts[1..]);
        (if n > m then n else m, ok)
  }

  /** Where a send stops, if anywhere; otherwise how its POSTs went and whether the share record
      was written. */
  datatype Fate =
    | CreateFails(at: Stage)
    | RotateFails(at: Stage)
    | SealFails
    | PersistFails
    | Post(attempts: seq<Attempt>, recorded: bool)

  function CreateStage(fate: Fate): Stage
  {
    if fate.CreateFails? then fate.at else Whole
  }

  function RotateStage(fate: Fate): Stage
  {
    if fate.RotateFails? then fate.at else Whole
  }

  /** Getting the session the send will use: the cached one, a fresh one, or a rotated one. */
  function Readied(s: Sender, fate: Fate): Sender
  {
    var s1 := GotOutbound(s, CreateStage(fate));
    if fate.CreateFails? || s1.freed || !NeedsRotation(s1.outbound.value) then s1
    else Rotated(s1, RotateStage(fate))
  }

  predicate IsNewSession(s: Sender)
  {
    GetsNew(s) || NeedsRotation(s.outbound.value)
  }

  /** The send throws before it has encrypted anything. */
  predicate Throws(s: Sender, fate: Fate)
  {
    fate.CreateFails? || fate.RotateFails? || fate.SealFails? || Readied(s, fate).freed
  }

  function Sent(s: Sender, toUser: string, fate: Fate): Sender
  {
    var s2 := Readied(s, fate);
    if Throws(s, fate) then s2
    else
      var o := s2.outbound.value;
      var needsShare := IsNewSession(s) || (o.id, toUser) !in s2.shares;
      if fate.PersistFails? then Encrypted(s2) else Posting(s2, toUser, needsShare, fate.attempts, fate.recorded)
  }

  /** The ratchet advances as the message is encrypted. */
  function Encrypted(s: Sender): Sender
    requires s.outbound.Some?
  {
    s.(outbound := Some(s.outbound.value.(index := s.outbound.value.index + 1)))
  }

  /** Encrypt, persist, post, and record the share. */
  function Posting(s: Sender, toUser: string, needsShare: bool, attempts: seq<Attempt>, recorded: bool): Sender
    requires s.outbound.Some?
  {
    var o := s.outbound.value;
    var batch := BatchFor(s.me, toUser, o, needsShare);
    var (n, ok) := Posted(batch, attempts);
    Delivered(Encrypted(s), batch[..if n > |batch| then |batch| else n],
              if ok && needsShare && recorded then {(o.id, toUser)} else {})
  }

  function Delivered(s: Sender, landed: seq<Envelope>, recorded: set<(nat, string)>): Sender
  {
    s.(stored := s.outbound, delivered := s.delivered + landed, shares := s.shares + recorded)
  }

  /** Memory is lost; a stored session is replaced, and start-up may die on the way, leaving no
      session in memory. */
  function Restarted(s: Sender, stage: Stage): Sender
  {
    var dead := s.(outbound := None, isNew := false, freed := false);
    if s.stored.None? then dead
    else if stage.Whole? then Replaced(dead, stage).(isNew := true)
    else Replaced(dead, stage).(outbound := None)
  }

  datatype Step = Send(toUser: string, fate: Fate) | Restart(stage: Stage)

  function Apply(s: Sender, step: Step): Sender
  {
    match step
    case Send(toUser, fate) => Sent(s, toUser, fate)
    case Restart(stage) => Restarted(s, stage)
  }

  function Exec(s: Sender, steps: seq<Step>): Sender
  {
    if steps == [] then s else Apply(Exec(s, steps[..|steps| - 1]), steps[|steps| - 1])
  }

  // ---- keys arrive before messages ----

  /** Before position `p`, this user was given the session's key at an index no later. */
  ghost predicate KeyBefore(log: seq<Envelope>, p: nat, user: string, session: nat, index: nat)
  {
    exists q :: 0 <= q < p && q < |log| && log[q].toUser == user && log[q].content.KeyShare?
             && log[q].content.session == session && log[q].content.index <= index
  }

  ghost predicate KeysFirst(log: seq<Envelope>)
  {
    forall p :: 0 <= p < |log| && log[p].content.Message? ==>
      KeyBefore(log, p, log[p].toUser, log[p].content.session, log[p].content.index)
  }

  /** Whoever the current session is recorded as shared with, and its owner, has its key. */
  ghost predicate SharesInv(s: Sender)
  {
    forall user :: s.outbound.Some? && (s.outbound.value.id, user) in s.shares ==>
      && KeyBefore(s.delivered, |s.delivered|, user, s.outbound.value.id, s.outbound.value.index)
      && KeyBefore(s.delivered, |s.delivered|, s.me, s.outbound.value.id, s.outbound.value.index)
  }

  /** The indices of one session never go down along the log. */
  ghost predicate Ascending(log: seq<Envelope>)
  {
    forall p, q :: 0 <= p < q < |log| && log[p].content.session == log[q].content.session ==>
      log[p].content.index <= log[q].content.index
  }

  /** No session beyond these has been used, and the current one only below its index. */
  ghost predicate Used(log: seq<Envelope>, made: nat, current: Option<Outbound>)
  {
    forall p :: 0 <= p < |log| ==>
      && log[p].content.session < made && log[p].content.index < ROTATION_THRESHOLD
      && (current.Some? && log[p].content.session == current.value.id ==> log[p].content.index < current.value.index)
  }

  /** Nobody counts as given this session. */
  ghost predicate Unshared(shares: set<(nat, string)>, session: nat)
  {
    forall user :: (session, user) !in shares
  }

  ghost predicate Inv(s: Sender)
  {
    && KeysFirst(s.delivered) && Ascending(s.delivered) && SharesInv(s)
    && Used(s.delivered, s.made, s.outbound)
    && (forall p :: p in s.shares ==> p.0 < s.made)
    && (s.outbound.Some? ==> s.outbound.value.id < s.made && s.outbound.value.index <= ROTATION_THRESHOLD)
    && (s.outbound.None? ==> !s.isNew && !s.freed)
    && (s.isNew ==> Unshared(s.shares, s.outbound.value.id))
  }

  lemma CreatedInv(s: Sender)
    requires Inv(s)
    ensures Inv(Created(s))
  {
  }

  lemma RetiredInv(s: Sender, old_: Option<Outbound>, stage: Stage)
    requires Inv(s)
    ensures Inv(Retired(s, old_, stage))
  {
  }

  lemma ReplacedInv(s: Sender, stage: Stage)
    requires Inv(s)
    ensures Inv(Replaced(s, stage))
  {
    RetiredInv(s, s.stored, stage);
    CreatedInv(Retired(s, s.stored, stage).(stored := None));
  }

  lemma RotatedInv(s: Sender, stage: Stage)
    requires Inv(s) && s.outbound.Some?
    ensures Inv(Rotated(s, stage))
  {
    RetiredInv(s, s.outbound, stage);
    var retired := Retired(s, s.outbound, stage);
    CreatedInv(retired);
    CreatedInv(retired.(stored := None));
  }

  lemma KeyBeforeGrows(log: seq<Envelope>, more: seq<Envelope>, p: nat, user: string, session: nat, index: nat,
                       index': nat)
    requires KeyBefore(log, p, user, session, index) && index <= index' && p <= |log|
    ensures KeyBefore(log + more, p, user, session, index')
    ensures KeyBefore(log + more, |log + more|, user, session, index')
  {
    var q :| 0 <= q < p && q < |log| && log[q].toUser == user && log[q].content.KeyShare?
          && log[q].content.session == session && log[q].content.index <= index;
    assert (log + more)[q] == log[q];
  }

  /** Any prefix of a batch keeps keys first: its shares come first, and when it carries none
      the recipient and the sender were given the key before. */
  lemma BatchKeysFirst(s: Sender, toUser: string, needsShare: bool, n: nat)
    requires Inv(s) && s.outbound.Some?
    requires !needsShare ==> (s.outbound.value.id, toUser) in s.shares
    requires n <= |BatchFor(s.me, toUser, s.outbound.value, needsShare)|
    ensures KeysFirst(s.delivered + BatchFor(s.me, toUser, s.outbound.value, needsShare)[..n])
  {
    var o := s.outbound.value;
    var batch := BatchFor(s.me, toUser, o, needsShare);
    var log, all := s.delivered, s.delivered + batch[..n];
    forall p | 0 <= p < |all| && all[p].content.Message?
      ensures KeyBefore(all, p, all[p].toUser, all[p].content.session, all[p].content.index)
    {
      var e := all[p];
      if p < |log| {
        assert log[p] == e;
        KeyBeforeGrows(log, batch[..n], p, e.toUser, e.content.session, e.content.index, e.content.index);
      } else {
        assert e == batch[p - |log|];
        if needsShare {
          var q := if e.toUser == toUser then |log| else |log| + 1;
          assert all[q] == batch[q - |log|] == Envelope(e.toUser, KeyShare(o.id, o.index));
        } else {
          assert KeyBefore(log, |log|, e.toUser, o.id, o.index);
          KeyBeforeGrows(log, batch[..n], |log|, e.toUser, o.id, o.index, o.index);
          var q :| 0 <= q < |log| && log[q].toUser == e.toUser && log[q].content.KeyShare?
                && log[q].content.session == o.id && log[q].content.index <= o.index;
          assert all[q] == log[q];
        }
      }
    }
  }

  /** After a whole batch with shares, recipient and sender both hold the key. */
  lemma BatchShares(s: Sender, toUser: string, needsShare: bool)
    requires Inv(s) && s.outbound.Some?
    requires !needsShare ==> (s.outbound.value.id, toUser) in s.shares
    ensures var o := s.outbound.value;
            var all := s.delivered + BatchFor(s.me, toUser, o, needsShare);
            KeyBefore(all, |all|, toUser, o.id, o.index + 1) && KeyBefore(all, |all|, s.me, o.id, o.index + 1)
  {
    var o := s.outbound.value;
    var batch := BatchFor(s.me, toUser, o, needsShare);
    var all := s.delivered + batch;
    if needsShare {
      assert all[|s.delivered|] == batch[0];
      assert toUser != s.me ==> all[|s.delivered| + 1] == batch[1];
    } else {
      KeyBeforeGrows(s.delivered, batch, |s.delivered|, toUser, o.id, o.index, o.index + 1);
      KeyBeforeGrows(s.delivered, batch, |s.delivered|, s.me, o.id, o.index, o.index + 1);
    }
  }

  lemma {:induction false} PostedBounds(batch: seq<Envelope>, attempts: seq<Attempt>)
    ensures var (n, ok) := Posted(batch, attempts); n <= |batch| && (ok ==> n == |batch|)
  {
    if attempts != [] { PostedBounds(batch, attempts[1..]); }
  }

  lemma BatchEntries(me: string, toUser: string, o: Outbound, needsShare: bool, k: nat)
    requires k < |BatchFor(me, toUser, o, needsShare)|
    ensures var c := BatchFor(me, toUser, o, needsShare)[k].content; c.session == o.id && c.index == o.index
  {
  }

  lemma EncryptedInv(s: Sender)
    requires Inv(s) && s.outbound.Some? && s.outbound.value.index < ROTATION_THRESHOLD
    ensures Inv(Encrypted(s))
  {
    var o := s.outbound.value;
    forall user | (o.id, user) in s.shares
      ensures KeyBefore(s.delivered, |s.delivered|, user, o.id, o.index + 1)
           && KeyBefore(s.delivered, |s.delivered|, s.me, o.id, o.index + 1)
    {
      assert s.delivered + [] == s.delivered;
      KeyBeforeGrows(s.delivered, [], |s.delivered|, user, o.id, o.index, o.index + 1);
      KeyBeforeGrows(s.delivered, [], |s.delivered|, s.me, o.id, o.index, o.index + 1);
    }
  }

  /** What lands is at the ratchet's index, above everything delivered for that session. */
  lemma LandedAscends(s: Sender, landed: seq<Envelope>)
    requires Inv(s) && s.outbound.Some? && s.outbound.value.index < ROTATION_THRESHOLD
    requires forall k :: 0 <= k < |landed| ==>
               landed[k].content.session == s.outbound.value.id && landed[k].content.index == s.outbound.value.index
    ensures Ascending(s.delivered + landed)
    ensures Used(s.delivered + landed, s.made, Encrypted(s).outbound)
  {
  }

  /** Whoever was or is now recorded has the key. */
  lemma LandedShares(s: Sender, toUser: string, needsShare: bool, n: nat, record: bool, user: string)
    requires Inv(s) && s.outbound.Some?
    requires !needsShare ==> (s.outbound.value.id, toUser) in s.shares
    requires n <= |BatchFor(s.me, toUser, s.outbound.value, needsShare)|
    requires record ==> n == |BatchFor(s.me, toUser, s.outbound.value, needsShare)|
    requires (s.outbound.value.id, user) in s.shares || (record && user == toUser)
    ensures var o := s.outbound.value;
            var all := s.delivered + BatchFor(s.me, toUser, o, needsShare)[..n];
            KeyBefore(all, |all|, user, o.id, o.index + 1) && KeyBefore(all, |all|, s.me, o.id, o.index + 1)
  {
    var o := s.outbound.value;
    var batch := BatchFor(s.me, toUser, o, needsShare);
    if (o.id, user) in s.shares {
      KeyBeforeGrows(s.delivered, batch[..n], |s.delivered|, user, o.id, o.index, o.index + 1);
      KeyBeforeGrows(s.delivered, batch[..n], |s.delivered|, s.me, o.id, o.index, o.index + 1);
    } else {
      assert batch[..n] == batch;
      BatchShares(s, toUser, needsShare);
    }
  }

  lemma PostingInv(s: Sender, toUser: string, needsShare: bool, attempts: seq<Attempt>, recorded: bool)
    requires Inv(s) && s.outbound.Some? && !s.isNew && s.outbound.value.index < ROTATION_THRESHOLD
    requires !needsShare ==> (s.outbound.value.id, toUser) in s.shares
    ensures Inv(Posting(s, toUser, needsShare, attempts, recorded))
  {
    var o := s.outbound.value;
    var batch := BatchFor(s.me, toUser, o, needsShare);
    PostedBounds(batch, attempts);
    var (n, ok) := Posted(batch, attempts);
    var t := Posting(s, toUser, needsShare, attempts, recorded);
    BatchKeysFirst(s, toUser, needsShare, n);
    forall k | 0 <= k < n ensures batch[k].content.session == o.id && batch[k].content.index == o.index {
      BatchEntries(s.me, toUser, o, needsShare, k);
    }
    LandedAscends(s, batch[..n]);
    forall user | (o.id, user) in t.shares
      ensures KeyBefore(t.delivered, |t.delivered|, user, o.id, o.index + 1)
           && KeyBefore(t.delivered, |t.delivered|, s.me, o.id, o.index + 1)
    {
      LandedShares(s, toUser, needsShare, n, ok && needsShare && recorded, user);
    }
  }

  lemma ReadiedInv(s: Sender, fate: Fate)
    requires Inv(s)
    ensures var s2 := Readied(s, fate);
            && Inv(s2)
            && (!Throws(s, fate) ==> s2.outbound.Some? && !s2.isNew && s2.outbound.value.index < ROTATION_THRESHOLD)
  {
    if s.outbound.None? { ReplacedInv(s, CreateStage(fate)); }
    var s1 := GotOutbound(s, CreateStage(fate));
    if !fate.CreateFails? && !s1.freed { RotatedInv(s1, RotateStage(fate)); }
  }

  lemma ReadiedKeepsLog(s: Sender, fate: Fate)
    ensures Readied(s, fate).delivered == s.delivered
  {
  }

  lemma SentInv(s: Sender, toUser: string, fate: Fate)
    requires Inv(s)
    ensures Inv(Sent(s, toUser, fate))
  {
    ReadiedInv(s, fate);
    var s2 := Readied(s, fate);
    if !Throws(s, fate) {
      if fate.PersistFails? {
        EncryptedInv(s2);
      } else {
        var needsShare := IsNewSession(s) || (s2.outbound.value.id, toUser) !in s2.shares;
        PostingInv(s2, toUser, needsShare, fate.attempts, fate.recorded);
      }
    }
  }

  lemma DeadInv(s: Sender)
    requires Inv(s)
    ensures Inv(s.(outbound := None, isNew := false, freed := false))
  {
  }

  lemma RestartedInv(s: Sender, stage: Stage)
    requires Inv(s)
    ensures Inv(Restarted(s, stage))
  {
    DeadInv(s);
    var dead := s.(outbound := None, isNew := false, freed := false);
    ReplacedInv(dead, stage);
    if s.stored.Some? && !stage.Whole? { DeadInv(Replaced(dead, stage)); }
  }

  lemma {:induction false} InvExec(me: string, steps: seq<Step>)
    ensures Inv(Exec(Start(me), steps))
  {
    if steps != [] {
      var n := |steps| - 1;
      InvExec(me, steps[..n]);
      match steps[n] {
        case Send(toUser, fate) => SentInv(Exec(Start(me), steps[..n]), toUser, fate);
        case Restart(stage) => RestartedInv(Exec(Start(me), steps[..n]), stage);
      }
    }
  }

  // ---- what replacing a session leaves ----

  /** The session in memory is the stored one, at index 0, given to nobody and never sent
      under. */
  ghost predicate BrandNew(s: Sender)
  {
    && s.outbound.Some? && s.stored == s.outbound && s.outbound.value.index == 0
    && Unshared(s.shares, s.outbound.value.id)
    && forall p :: 0 <= p < |s.delivered| ==> s.delivered[p].content.session != s.outbound.value.id
  }

  /** Nobody still counts as given a session that has left the store, and the records of all
      others stand. */
  ghost predicate OnlyRetired(s: Sender, s': Sender, old_: Option<Outbound>)
  {
    && s'.delivered == s.delivered && s'.shares <= s.shares
    && (old_.Some? && s'.stored != old_ ==> Unshared(s'.shares, old_.value.id))
    && forall p :: p in s.shares && (old_.None? || p.0 != old_.value.id) ==> p in s'.shares
  }

  lemma ReplacedFacts(s: Sender, stage: Stage)
    requires Inv(s)
    ensures OnlyRetired(s, Replaced(s, stage), s.stored)
    ensures stage.Whole? ==> BrandNew(Replaced(s, stage))
  {
  }

  /** Asking for the session when its key need not be shared anew changes nothing but the flag;
      otherwise nobody counts as having it, and one that was just made is brand new. */
  lemma GotOutboundFacts(s: Sender, stage: Stage)
    requires Inv(s)
    ensures var s' := GotOutbound(s, stage);
            && (!GetsNew(s) ==> s' == s)
            && (GetsNew(s) && s'.outbound.Some? ==> Unshared(s'.shares, s'.outbound.value.id) && !s'.isNew)
            && (s.outbound.None? && stage.Whole? ==> BrandNew(s'))
            && OnlyRetired(s, s', s.stored)
  {
    if s.outbound.None? {
      ReplacedFacts(s, stage);
      ReplacedInv(s, stage);
    }
  }

  /** After rotating, nobody counts as having the old session, or the brand-new one. */
  lemma RotatedFacts(s: Sender, stage: Stage)
    requires Inv(s) && s.outbound.Some?
    ensures var s' := Rotated(s, stage);
            && (stage.Whole? ==> BrandNew(s') && !s'.freed)
            && (!stage.Nothing? ==> Unshared(s'.shares, s.outbound.value.id))
            && s'.delivered == s.delivered
  {
  }

  /** A whole start-up leaves a brand-new session that will be shared anew with everyone; one
      that dies leaves none in memory, and records never outlive their stored session. */
  lemma RestartedFacts(s: Sender, stage: Stage)
    requires Inv(s)
    ensures var s' := Restarted(s, stage);
            && (if s.stored.Some? && stage.Whole? then BrandNew(s') && s'.isNew
                else s'.outbound.None? && !s'.isNew)
            && (s.stored.None? ==> s'.stored.None? && s'.shares == s.shares)
            && OnlyRetired(s, s', s.stored)
  {
    DeadInv(s);
    ReplacedFacts(s.(outbound := None, isNew := false, freed := false), stage);
  }

  // ---- what a send lands ----

  /** The client makes POST `i` when every one before it met a server error. */
  predicate Made(attempts: seq<Attempt>, i: nat)
  {
    i < |attempts| && forall j :: 0 <= j < i ==> attempts[j].reply.ServerError?
  }

  ghost predicate IsAccepted(attempts: seq<Attempt>)
  {
    exists i: nat :: Made(attempts, i) && attempts[i].reply.Accepted?
  }

  /** Some POST that is made writes this many envelopes, if there are so many. */
  ghost predicate Writes(attempts: seq<Attempt>, n: nat)
  {
    exists i: nat :: Made(attempts, i) && (attempts[i].reply.Accepted? || attempts[i].landed >= n)
  }

  lemma MadeLater(attempts: seq<Attempt>, i: nat)
    requires attempts != []
    ensures Made(attempts, i + 1) <==> attempts[0].reply.ServerError? && Made(attempts[1..], i)
  {
  }

  /** The first POST does it, or a later one after a server error. */
  lemma WritesFirstOrLater(attempts: seq<Attempt>, n: nat)
    requires attempts != []
    ensures Writes(attempts, n) <==>
              || attempts[0].reply.Accepted? || attempts[0].landed >= n
              || (attempts[0].reply.ServerError? && Writes(attempts[1..], n))
  {
    var rest := attempts[1..];
    if Writes(attempts, n) {
      var i: nat :| Made(attempts, i) && (attempts[i].reply.Accepted? || attempts[i].landed >= n);
      if i > 0 {
        MadeLater(attempts, i - 1);
        assert Made(rest, i - 1);
      }
    }
    if attempts[0].reply.ServerError? && Writes(rest, n) {
      var i: nat :| Made(rest, i) && (rest[i].reply.Accepted? || rest[i].landed >= n);
      MadeLater(attempts, i);
    }
    assert Made(attempts, 0);
  }

  lemma AcceptedFirstOrLater(attempts: seq<Attempt>)
    requires attempts != []
    ensures IsAccepted(attempts) <==>
              attempts[0].reply.Accepted? || (attempts[0].reply.ServerError? && IsAccepted(attempts[1..]))
  {
    var rest := attempts[1..];
    if IsAccepted(attempts) {
      var i: nat :| Made(attempts, i) && attempts[i].reply.Accepted?;
      if i > 0 {
        MadeLater(attempts, i - 1);
        assert Made(rest, i - 1);
      }
    }
    if attempts[0].reply.ServerError? && IsAccepted(rest) {
      var i: nat :| Made(rest, i) && rest[i].reply.Accepted?;
      MadeLater(attempts, i);
    }
    assert Made(attempts, 0);
  }

  /** What is written is the longest prefix any POST wrote, and all of it once one is accepted. */
  lemma {:induction false} PostedFacts(batch: seq<Envelope>, attempts: seq<Attempt>)
    ensures Posted(batch, attempts).1 <==> IsAccepted(attempts)
    ensures forall n: nat :: 0 < n <= |batch| ==> (n <= Posted(batch, attempts).0 <==> Writes(attempts, n))
  {
    if attempts != [] {
      PostedFacts(batch, attempts[1..]);
      PostedBounds(batch, attempts[1..]);
      AcceptedFirstOrLater(attempts);
      forall n: nat | 0 < n <= |batch| ensures n <= Posted(batch, attempts).0 <==> Writes(attempts, n) {
        WritesFirstOrLater(attempts, n);
      }
    }
  }

  /** One of the envelopes of a send: to its recipient or to the sender, at the index the
      message is encrypted at, and a key only when keys are sent. */
  ghost predicate Belongs(e: Envelope, me: string, toUser: string, o: Outbound, withKey: bool)
  {
    && (e.toUser == toUser || e.toUser == me)
    && e.content.session == o.id && e.content.index == o.index
    && (e.content.KeyShare? ==> withKey)
  }

  ghost predicate Carries(landed: seq<Envelope>, me: string, toUser: string, o: Outbound, withKey: bool)
  {
    && (forall k :: 0 <= k < |landed| ==> Belongs(landed[k], me, toUser, o, withKey))
    && forall k, l :: 0 <= k < l < |landed| ==> landed[k] != landed[l]
  }

  ghost predicate CarriesAll(landed: seq<Envelope>, me: string, toUser: string, o: Outbound, withKey: bool)
  {
    forall e :: Belongs(e, me, toUser, o, withKey) ==> e in landed
  }

  /** A batch holds each of its envelopes once: a message for each of the two users, and a key
      for each when keys are sent. */
  lemma BatchIsWhole(me: string, toUser: string, o: Outbound, needsShare: bool)
    ensures var batch := BatchFor(me, toUser, o, needsShare);
            && |batch| <= 4
            && Carries(batch, me, toUser, o, needsShare) && CarriesAll(batch, me, toUser, o, needsShare)
  {
    var batch := BatchFor(me, toUser, o, needsShare);
    forall e | Belongs(e, me, toUser, o, needsShare) ensures e in batch {
      var messages := if needsShare then (if toUser == me then 1 else 2) else 0;
      if e.content.KeyShare? {
        assert e == batch[if e.toUser == toUser then 0 else 1];
      } else {
        assert e == batch[if e.toUser == toUser then messages else messages + 1];
      }
    }
  }

  /** The session in use carries the send, one index on; a session that has reached its limit,
      or none, gives way to the next one made. */
  ghost predicate Carrier(s: Sender, s': Sender)
  {
    s'.outbound == Some(if s.outbound.Some? && s.outbound.value.index < 100
                        then Outbound(s.outbound.value.id, s.outbound.value.index + 1)
                        else Outbound(s.made, 1))
  }

  lemma ReadiedFacts(s: Sender, toUser: string, fate: Fate)
    requires Inv(s) && !Throws(s, fate)
    ensures var s2 := Readied(s, fate);
            && s2.outbound.Some? && !s.freed && s2.me == s.me && s2.delivered == s.delivered
            && Carrier(s, Encrypted(s2))
            && ((s2.outbound.value.id, toUser) in s2.shares <==> (s2.outbound.value.id, toUser) in s.shares)
            && (IsNewSession(s) ==> (s2.outbound.value.id, toUser) !in s.shares)
            && s2.shares <= s.shares
  {
  }

  /** What was delivered since is the sender's and the recipient's copy of one message, each at
      most once, with the session's key for both at most once, and only when the recipient was
      not on record as having it; all of them when it is `whole`. */
  ghost predicate Lands(s: Sender, s': Sender, toUser: string, whole: bool)
  {
    && s'.outbound.Some? && s'.outbound.value.index > 0 && s.delivered <= s'.delivered
    && var o := Outbound(s'.outbound.value.id, s'.outbound.value.index - 1);
       var withKey := (o.id, toUser) !in s.shares;
       var landed := s'.delivered[|s.delivered|..];
       && Carries(landed, s.me, toUser, o, withKey)
       && (whole ==> CarriesAll(landed, s.me, toUser, o, withKey))
  }

  /** A share is recorded for the recipient alone, and only by an accepted send. */
  ghost predicate Records(s: Sender, s': Sender, toUser: string, accepted: bool, recorded: bool)
  {
    && (accepted && recorded ==> s'.outbound.Some? && (s'.outbound.value.id, toUser) in s'.shares)
    && forall p :: p in s'.shares && p !in s.shares ==>
         accepted && s'.outbound.Some? && p == (s'.outbound.value.id, toUser)
  }

  /** A send that is not stopped before its first POST. A POST that is accepted, or writes to
      its end, leaves everything there. */
  lemma SendLands(s: Sender, toUser: string, attempts: seq<Attempt>, recorded: bool)
    requires Inv(s) && !s.freed
    ensures var t := Sent(s, toUser, Post(attempts, recorded));
            && Carrier(s, t) && t.stored == t.outbound
            && Lands(s, t, toUser, Writes(attempts, 4))
            && Records(s, t, toUser, IsAccepted(attempts), recorded)
  {
    var fate := Post(attempts, recorded);
    ReadiedFacts(s, toUser, fate);
    var s2 := Readied(s, fate);
    var needsShare := IsNewSession(s) || (s2.outbound.value.id, toUser) !in s2.shares;
    PostingLands(s2, toUser, needsShare, attempts, recorded);
  }

  /** The same for a send that may stop anywhere. */
  lemma SendDoes(s: Sender, toUser: string, fate: Fate)
    requires Inv(s)
    ensures var t := Sent(s, toUser, fate);
            && Inv(t) && s.delivered <= t.delivered
            && (!fate.Post? || s.freed ==> t.delivered == s.delivered)
            && ((fate.Post? || fate.PersistFails?) && !s.freed ==> Carrier(s, t))
            && (fate.Post? && !s.freed ==> t.stored == t.outbound && Lands(s, t, toUser, Writes(fate.attempts, 4)))
            && (fate.Post? && IsAccepted(fate.attempts) ==> Writes(fate.attempts, 4))
            && Records(s, t, toUser, fate.Post? && !s.freed && IsAccepted(fate.attempts),
                       fate.Post? && fate.recorded)
  {
    SentInv(s, toUser, fate);
    ReadiedKeepsLog(s, fate);
    if fate.Post? && IsAccepted(fate.attempts) { AcceptedWrites(fate.attempts, 4); }
    if fate.Post? && !s.freed {
      SendLands(s, toUser, fate.attempts, fate.recorded);
    } else if fate.PersistFails? && !s.freed {
      ReadiedFacts(s, toUser, fate);
    }
  }

  lemma PostingLands(s: Sender, toUser: string, needsShare: bool, attempts: seq<Attempt>, recorded: bool)
    requires s.outbound.Some?
    ensures var t := Posting(s, toUser, needsShare, attempts, recorded);
            && s.delivered <= t.delivered
            && (var landed := t.delivered[|s.delivered|..];
                && Carries(landed, s.me, toUser, s.outbound.value, needsShare)
                && (Writes(attempts, 4) ==> CarriesAll(landed, s.me, toUser, s.outbound.value, needsShare)))
            && t.shares == s.shares + (if IsAccepted(attempts) && needsShare && recorded
                                       then {(s.outbound.value.id, toUser)} else {})
  {
    var batch := BatchFor(s.me, toUser, s.outbound.value, needsShare);
    var t := Posting(s, toUser, needsShare, attempts, recorded);
    PostedBounds(batch, attempts);
    PostedFacts(batch, attempts);
    BatchIsWhole(s.me, toUser, s.outbound.value, needsShare);
    var n := Posted(batch, attempts).0;
    assert t.delivered[|s.delivered|..] == batch[..n];
    if Writes(attempts, 4) {
      WritesFewer(attempts, 4, |batch|);
      assert batch[..n] == batch;
    }
  }

  lemma AcceptedWrites(attempts: seq<Attempt>, n: nat)
    requires IsAccepted(attempts)
    ensures Writes(attempts, n)
  {
  }

  lemma WritesFewer(attempts: seq<Attempt>, n: nat, m: nat)
    requires Writes(attempts, n) && m <= n
    ensures Writes(attempts, m)
  {
  }

  // ---- a freed session ----

  /** Exactly when a send leaves a freed session behind: it found one, or it was to rotate and
      died before it had made the new session. */
  lemma FreedIff(s: Sender, toUser: string, fate: Fate)
    requires Inv(s)
    ensures Sent(s, toUser, fate).freed <==>
              s.freed || (&& fate.RotateFails? && (fate.at.Nothing? || fate.at.SharesCleared?)
                          && s.outbound.Some? && NeedsRotation(s.outbound.value))
  {
  }

  predicate NoRestart(steps: seq<Step>)
  {
    forall i :: 0 <= i < |steps| ==> steps[i].Send?
  }

  /** Until a restart nothing is ever sent under a freed session, or under any other. */
  lemma {:induction false} FreedSendsNothing(s: Sender, steps: seq<Step>)
    requires s.freed && s.outbound.Some? && NoRestart(steps)
    ensures var t := Exec(s, steps);
            && t.freed && t.outbound == s.outbound && t.stored == s.stored
            && t.shares == s.shares && t.delivered == s.delivered
  {
    if steps != [] { FreedSendsNothing(s, steps[..|steps| - 1]); }
  }

  /** A restart ends it, whatever stage it reaches. */
  lemma RestartUnfrees(s: Sender, stage: Stage)
    requires Inv(s)
    ensures !Restarted(s, stage).freed
  {
    RestartedInv(s, stage);
  }

  function Accepted(toUser: string): Step
  {
    Send(toUser, Post([Attempt(0, Reply.Accepted)], false))
  }

  lemma AfterSends(me: string, toUser: string, n: nat) returns (steps: seq<Step>)
    requires n <= ROTATION_THRESHOLD
    ensures var s := Exec(Start(me), steps); !s.freed && (n > 0 ==> s.outbound == Some(Outbound(0, n)))
    ensures n == 0 ==> steps == []
  {
    steps := [];
    if n > 0 {
      var before := AfterSends(me, toUser, n - 1);
      steps := before + [Accepted(toUser)];
      assert steps[..|steps| - 1] == before;
    }
  }

  /** It is reached, for any device and recipient: after as many sends as a session allows, the
      rotation that is due dies before it has cleared the share records. */
  lemma FreedIsReached(me: string, toUser: string) returns (steps: seq<Step>)
    ensures var s := Exec(Start(me), steps); s.freed && s.outbound.Some?
  {
    var before := AfterSends(me, toUser, ROTATION_THRESHOLD);
    steps := before + [Send(toUser, RotateFails(Nothing))];
    assert steps[..|steps| - 1] == before;
  }

  /** Over every run of sends that may fail anywhere, land in part and be retried, and of
      restarts: each message in anyone's inbox was preceded there by its session's key at an
      index no later, and no session is used past the rotation threshold. */
  lemma KeysArriveFirst(me: string, steps: seq<Step>)
    ensures var s := Exec(Start(me), steps);
            && KeysFirst(s.delivered)
            && (s.outbound.Some? ==> s.outbound.value.index <= ROTATION_THRESHOLD)
            && (forall p :: 0 <= p < |s.delivered| ==> s.delivered[p].content.index < ROTATION_THRESHOLD)
  {
    InvExec(me, steps);
  }

  /** Along the same runs a session's shares and messages land at indices that never go down. */
  lemma IndicesNeverGoDown(me: string, steps: seq<Step>)
    ensures Ascending(Exec(Start(me), steps).delivered)
  {
    InvExec(me, steps);
  }

  // ---- the session manager and the send itself ----

  class SessionManager {
    const me: string
    var outbound: Option<Outbound>
    var outboundIsNew: bool
    var freed: bool
    var stored: Option<Outbound>
    var shares: set<(nat, string)>
    var made: nat
    var delivered: seq<Envelope>

    ghost function Abs(): Sender
      reads this
    {
      Sender(me, outbound, outboundIsNew, freed, stored, shares, made, delivered)
    }

    ghost predicate Valid()
      reads this
    {
      Inv(Abs())
    }

    constructor (me: string)
      ensures Valid() && Abs() == Start(me)
    {
      this.me := me;
      outbound, outboundIsNew, freed, stored := None, false, false, None;
      shares, made, delivered := {}, 0, [];
    }

    method ClearKeyShares(session: nat)
      modifies this`shares
      ensures shares == WithoutSession(old(shares), session)
    {
      shares := set p | p in shares && p.0 != session;
    }

    method Create()
      modifies this
      ensures Abs() == Created(old(Abs()))
    {
      outbound := Some(Outbound(made, 0));
      made := made + 1;
      outboundIsNew := false;
      freed := false;
    }

    /** Retires the stored session and makes a fresh one, unless it dies on the way. */
    method Replace(stage: Stage)
      modifies this
      ensures Abs() == Replaced(old(Abs()), stage)
    {
      if stage.Nothing? { return; }
      if stored.Some? { ClearKeyShares(stored.value.id); }
      if stage.SharesCleared? { return; }
      stored := None;
      if stage.StoredCleared? { return; }
      Create();
      if stage.InMemory? { return; }
      stored := outbound;
    }

    /** The session to encrypt with, and whether its key must be shared whatever the records
        say; nothing when making one dies. */
    method GetOutbound(stage: Stage) returns (isNew: Option<bool>)
      requires Valid()
      modifies this
      ensures Valid() && Abs() == GotOutbound(old(Abs()), stage)
      ensures isNew.None? <==> old(outbound).None? && !stage.Whole?
      ensures isNew.Some? ==> isNew.value == GetsNew(old(Abs())) && outbound.Some? && !outboundIsNew
      ensures isNew == Some(true) ==> Unshared(shares, outbound.value.id)
      ensures isNew == Some(false) ==> Abs() == old(Abs())
      ensures isNew.Some? && old(outbound).None? ==> BrandNew(Abs())
      ensures OnlyRetired(old(Abs()), Abs(), old(stored))
    {
      GotOutboundFacts(Abs(), stage);
      ReplacedInv(Abs(), stage);
      if outbound.Some? {
        isNew := Some(outboundIsNew);
        outboundIsNew := false;
        return;
      }
      Replace(stage);
      isNew := if stage.Whole? then Some(true) else None;
    }

    /** Frees the session in memory, then forgets whom it was shared with. */
    method FreeOutbound(stage: Stage)
      requires outbound.Some?
      modifies this`freed, this`shares
      ensures Abs() == Retired(old(Abs()), old(outbound), stage).(freed := true)
    {
      freed := true;
      if !stage.Nothing? { ClearKeyShares(outbound.value.id); }
    }

    method Rotate(stage: Stage)
      requires Valid() && outbound.Some?
      modifies this
      ensures Valid() && Abs() == Rotated(old(Abs()), stage)
      ensures stage.Whole? ==> BrandNew(Abs())
      ensures !stage.Nothing? ==> Unshared(shares, old(outbound).value.id)
    {
      RotatedInv(Abs(), stage);
      RotatedFacts(Abs(), stage);
      FreeOutbound(stage);
      if stage.Nothing? || stage.SharesCleared? { return; }
      Create();
      if stage.InMemory? { return; }
      stored := None;
      if stage.StoredCleared? { return; }
      stored := outbound;
    }

    /** Up to three POSTs of the same envelopes; each writes them in order until it dies. */
    method Send(batch: seq<Envelope>, attempts: seq<Attempt>) returns (accepted: bool)
      requires |attempts| <= SEND_ATTEMPTS
      modifies this`delivered
      ensures accepted == Posted(batch, attempts).1 == IsAccepted(attempts)
      ensures Posted(batch, attempts).0 <= |batch|
      ensures delivered == old(delivered) + batch[..Posted(batch, attempts).0]
      ensures forall n: nat :: 0 < n <= |batch| ==>
                (|delivered| >= |old(delivered)| + n <==> Writes(attempts, n))
    {
      PostedBounds(batch, attempts);
      PostedFacts(batch, attempts);
      accepted := false;
      var landed: nat := 0;
      var i := 0;
      while i < |attempts|
        invariant i <= |attempts| && landed <= |batch| && !accepted
        invariant delivered == old(delivered) + batch[..landed]
        invariant Posted(batch, attempts).1 == Posted(batch, attempts[i..]).1
        invariant var rest := Posted(batch, attempts[i..]).0;
                  Posted(batch, attempts).0 == if landed > rest then landed else rest
      {
        PostedBounds(batch, attempts[i..]);
        assert attempts[i..][0] == attempts[i] && attempts[i..][1..] == attempts[i + 1..];
        var attempt := attempts[i];
        var n := if attempt.reply.Accepted? || attempt.landed > |batch| then |batch| else attempt.landed;
        landed := Write(batch, landed, n);
        i := i + 1;
        if attempt.reply.Accepted? { accepted := true; return; }
        if attempt.reply.ClientError? { return; }
      }
    }

    /** The server's loop over the envelopes; rewriting one already there changes nothing. */
    method Write(batch: seq<Envelope>, before: nat, n: nat) returns (landed: nat)
      requires before <= |batch| && n <= |batch|
      modifies this`delivered
      ensures landed == if before > n then before else n
      ensures delivered == old(delivered) + batch[before..landed]
    {
      landed := before;
      var i := 0;
      while i < n
        invariant i <= n
        invariant landed == if before > i then before else i
        invariant delivered == old(delivered) + batch[before..landed]
      {
        if i >= landed {
          assert batch[before..i + 1] == batch[before..i] + [batch[i]];
          delivered := delivered + [batch[i]];
          landed := i + 1;
        }
        i := i + 1;
      }
    }

    /** Gets the session to use, rotating one that has reached the threshold; nothing when that
        throws. */
    method ReadySession(fate: Fate) returns (isNew: Option<bool>)
      requires Valid()
      modifies this
      ensures Valid() && Abs() == Readied(old(Abs()), fate)
      ensures fate.CreateFails? || fate.RotateFails? || freed ==> isNew.None?
      ensures !(fate.CreateFails? || fate.RotateFails? || freed) ==>
                isNew == Some(IsNewSession(old(Abs()))) && outbound.Some?
    {
      ReadiedInv(Abs(), fate);
      isNew := GetOutbound(CreateStage(fate));
      if fate.CreateFails? || freed { return None; }
      if NeedsRotation(outbound.value) {
        Rotate(RotateStage(fate));
        isNew := Some(true);
      }
      if fate.RotateFails? { isNew := None; }
    }

    /** Builds the envelopes; the ratchet advances as the message is encrypted. */
    method Seal(toUser: string, needsShare: bool) returns (envelopes: seq<Envelope>)
      requires outbound.Some?
      modifies this`outbound
      ensures envelopes == BatchFor(me, toUser, old(outbound).value, needsShare)
      ensures Abs() == Encrypted(old(Abs()))
    {
      var session := outbound.value;
      envelopes := [];
      if needsShare {
        envelopes := envelopes + [Envelope(toUser, KeyShare(session.id, session.index))];
        if toUser != me {
          envelopes := envelopes + [Envelope(me, KeyShare(session.id, session.index))];
        }
      }
      outbound := Some(session.(index := session.index + 1));
      envelopes := envelopes + [Envelope(toUser, Message(session.id, session.index))];
      if toUser != me {
        envelopes := envelopes + [Envelope(me, Message(session.id, session.index))];
      }
    }

    /** Persists the ratchet, posts the envelopes and records the share. */
    method Deliver(envelopes: seq<Envelope>, share: set<(nat, string)>, fate: Fate) returns (ok: bool)
      requires fate.Post? && |fate.attempts| <= SEND_ATTEMPTS
      modifies this
      ensures ok == IsAccepted(fate.attempts)
      ensures var (n, accepted) := Posted(envelopes, fate.attempts);
              && ok == accepted && n <= |envelopes| && (ok ==> n == |envelopes|)
              && Abs() == Delivered(old(Abs()), envelopes[..n], if ok && fate.recorded then share else {})
    {
      stored := outbound;
      PostedBounds(envelopes, fate.attempts);
      ok := Send(envelopes, fate.attempts);
      if ok && fate.recorded { shares := shares + share; }
    }

    /** The half of a send after its session is ready. */
    method SendReadied(toUser: string, needsShare: bool, fate: Fate) returns (ok: bool)
      requires Inv(Abs()) && outbound.Some? && !outboundIsNew && outbound.value.index < ROTATION_THRESHOLD
      requires !needsShare ==> (outbound.value.id, toUser) in shares
      requires fate.PersistFails? || (fate.Post? && |fate.attempts| <= SEND_ATTEMPTS)
      modifies this
      ensures Abs() == if fate.PersistFails? then Encrypted(old(Abs()))
                       else Posting(old(Abs()), toUser, needsShare, fate.attempts, fate.recorded)
      ensures ok <==> fate.Post? && IsAccepted(fate.attempts)
      ensures old(delivered) <= delivered
      ensures ok ==> HasKey(toUser) && HasKey(me)
    {
      BatchShares(Abs(), toUser, needsShare);
      var share := if needsShare then {(outbound.value.id, toUser)} else {};
      var envelopes := Seal(toUser, needsShare);
      if fate.PersistFails? { return false; }
      ok := Deliver(envelopes, share, fate);
      assert ok ==> envelopes[..|envelopes|] == envelopes;
    }

    /** Encrypts and sends one payload, sharing the session key first where it is needed. What it
        lands is stated for every send that gets to its first POST; the send succeeds exactly
        when one of its POSTs is accepted. */
    method SendInnerPayload(toUser: string, fate: Fate) returns (ok: bool)
      requires Valid() && (fate.Post? ==> |fate.attempts| <= SEND_ATTEMPTS)
      modifies this
      ensures Valid() && Abs() == Sent(old(Abs()), toUser, fate)
      ensures ok <==> fate.Post? && !old(freed) && IsAccepted(fate.attempts)
      ensures old(delivered) <= delivered
      ensures !fate.Post? || old(freed) ==> delivered == old(delivered)
      ensures (fate.Post? || fate.PersistFails?) && !old(freed) ==> Carrier(old(Abs()), Abs())
      ensures fate.Post? && !old(freed) ==>
                stored == outbound && Lands(old(Abs()), Abs(), toUser, ok || Writes(fate.attempts, 4))
      ensures Records(old(Abs()), Abs(), toUser, ok, fate.Post? && fate.recorded)
      ensures ok ==> HasKey(toUser) && HasKey(me)
    {
      SendDoes(Abs(), toUser, fate);
      ReadiedInv(Abs(), fate);
      var isNew := ReadySession(fate);
      if isNew.None? || fate.SealFails? { return false; }
      var needsShare := isNew.value || (outbound.value.id, toUser) !in shares;
      ok := SendReadied(toUser, needsShare, fate);
    }

    /** The user's inbox holds the current session's key at an index below the ratchet's. */
    ghost predicate HasKey(user: string)
      reads this
    {
      outbound.Some? && KeyBefore(delivered, |delivered|, user, outbound.value.id, outbound.value.index)
    }

    /** A fresh start of the app; dying leaves no session in memory. */
    method Boot(stage: Stage)
      requires Valid()
      modifies this
      ensures Valid() && Abs() == Restarted(old(Abs()), stage)
      ensures old(stored).Some? && stage.Whole? ==> BrandNew(Abs()) && outboundIsNew
      ensures old(stored).None? || !stage.Whole? ==> outbound.None? && !outboundIsNew
      ensures old(stored).None? ==> stored.None? && shares == old(shares)
      ensures OnlyRetired(old(Abs()), Abs(), old(stored))
    {
      RestartedInv(Abs(), stage);
      RestartedFacts(Abs(), stage);
      outbound, outboundIsNew, freed := None, false, false;
      if stored.None? { return; }
      Replace(stage);
      if stage.Whole? {
        outboundIsNew := true;
      } else {
        outbound := None;
      }
    }
  }
}
