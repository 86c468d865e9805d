/** Sends of one device that overlap. Each send is cut at its awaits; which session it is handed
    is left open, so that whatever the session manager does meanwhile is covered. */
module Overlap {
  import opened Wrappers
  import opened Sessions

  /** Where a send is: handed a session, told whether to share its key, with the key exported,
      or with everything encrypted and its envelopes landing one by one. */
  datatype Phase =
    | Picked
    | Asked(needsShare: bool)
    | Built(share: Option<nat>)
    | Sending(share: Option<nat>, msg: nat, next: nat)

  datatype Flight = Flight(toUser: string, session: nat, isNew: bool, phase: Phase)

  /** `index` gives every ratchet made so far its next message index. */
  datatype State = State(
    me: string, made: nat, index: map<nat, nat>, shares: set<(nat, string)>,
    flights: map<nat, Flight>, delivered: seq<Envelope>)

  function Begin(me: string): State
  {
    State(me, 0, map[], {}, map[], [])
  }

  datatype Event =
    | Make
    | Forget(session: nat)                                          // its share records are cleared
    | Pick(t: nat, toUser: string, session: nat, isNew: bool)       // a session below the threshold
    | Ask(t: nat)
    | Build(t: nat)
    | Encrypt(t: nat)
    | Land(t: nat)
    | Record(t: nat)

  function Shares(me: string, f: Flight, share: Option<nat>): seq<Envelope>
  {
    match share
    case None => []
    case Some(i) =>
      var key := KeyShare(f.session, i);
      if f.toUser == me then [Envelope(f.toUser, key)] else [Envelope(f.toUser, key), Envelope(me, key)]
  }

  /** The envelopes of a send: its shares at the index exported, then its messages. */
  function Batch(me: string, f: Flight): seq<Envelope>
    requires f.phase.Sending?
  {
    var msg := Message(f.session, f.phase.msg);
    Shares(me, f, f.phase.share)
    + if f.toUser == me then [Envelope(f.toUser, msg)] else [Envelope(f.toUser, msg), Envelope(me, msg)]
  }

  predicate At(s: State, t: nat)
  {
    t in s.flights && s.flights[t].session in s.index
  }

  predicate CanLand(s: State, t: nat)
  {
    At(s, t) && s.flights[t].phase.Sending? && s.flights[t].phase.next < |Batch(s.me, s.flights[t])|
  }

  predicate Can(s: State, e: Event)
  {
    match e
    case Make => true
    case Forget(_) => true
    case Pick(t, _, session, _) => t !in s.flights && session in s.index && s.index[session] < ROTATION_THRESHOLD
    case Ask(t) => At(s, t) && s.flights[t].phase.Picked?
    case Build(t) => At(s, t) && s.flights[t].phase.Asked?
    case Encrypt(t) => At(s, t) && s.flights[t].phase.Built?
    case Land(t) => CanLand(s, t)
    case Record(t) =>
      && At(s, t) && s.flights[t].phase.Sending? && s.flights[t].phase.share.Some?
      && s.flights[t].phase.next == |Batch(s.me, s.flights[t])|
  }

  function Goto(s: State, t: nat, phase: Phase): State
    requires t in s.flights
  {
    s.(flights := s.flights[t := s.flights[t].(phase := phase)])
  }

  function Do(s: State, e: Event): State
    requires Can(s, e)
  {
    match e
    case Make => s.(made := s.made + 1, index := s.index[s.made := 0])
    case Forget(session) => s.(shares := WithoutSession(s.shares, session))
    case Pick(t, toUser, session, isNew) => s.(flights := s.flights[t := Flight(toUser, session, isNew, Picked)])
    case Ask(t) =>
      var f := s.flights[t];
      Goto(s, t, Asked(f.isNew || (f.session, f.toUser) !in s.shares))
    case Build(t) =>
      var f := s.flights[t];
      Goto(s, t, Built(if f.phase.needsShare then Some(s.index[f.session]) else None))
    case Encrypt(t) =>
      var f := s.flights[t];
      var i := s.index[f.session];
      Goto(s.(index := s.index[f.session := i + 1]), t, Sending(f.phase.share, i, 0))
    case Land(t) =>
      var f := s.flights[t];
      Goto(s.(delivered := s.delivered + [Batch(s.me, f)[f.phase.next]]), t, f.phase.(next := f.phase.next + 1))
    case Record(t) => s.(shares := s.shares + {(s.flights[t].session, s.flights[t].toUser)})
  }

  ghost predicate CanRun(s: State, es: seq<Event>)
    decreases |es|
  {
    es == [] || (Can(s, es[0]) && CanRun(Do(s, es[0]), es[1..]))
  }

  ghost function Final(s: State, es: seq<Event>): State
    requires CanRun(s, es)
    decreases |es|
  {
    if es == [] then s else Final(Do(s, es[0]), es[1..])
  }

  // ---- keys still come first ----

  ghost predicate Given(s: State, user: string, session: nat, index: nat)
  {
    KeyBefore(s.delivered, |s.delivered|, user, session, index)
  }

  /** Recipient and sender have been given the key. */
  ghost predicate HaveKey(s: State, toUser: string, session: nat, index: nat)
  {
    Given(s, toUser, session, index) && Given(s, s.me, session, index)
  }

  ghost predicate FlightInv(s: State, f: Flight)
  {
    && f.session in s.index
    && match f.phase
       case Picked => true
       case Asked(needsShare) => !needsShare ==> HaveKey(s, f.toUser, f.session, s.index[f.session])
       case Built(share) =>
         if share.Some? then share.value <= s.index[f.session] else HaveKey(s, f.toUser, f.session, s.index[f.session])
       case Sending(share, msg, next) =>
         && msg < s.index[f.session] && next <= |Batch(s.me, f)|
         && (if share.Some? then share.value <= msg else HaveKey(s, f.toUser, f.session, msg))
         && forall k :: 0 <= k < next ==> Batch(s.me, f)[k] in s.delivered
  }

  ghost predicate Inv(s: State)
  {
    && KeysFirst(s.delivered)
    && (forall k :: k in s.index ==> k < s.made)
    && (forall p :: p in s.shares ==> p.0 in s.index && HaveKey(s, p.1, p.0, s.index[p.0]))
    && (forall t :: t in s.flights ==> FlightInv(s, s.flights[t]))
  }

  /** What only ever grows. */
  ghost predicate Grows(s: State, s': State)
  {
    && s'.me == s.me && s.delivered <= s'.delivered
    && forall k :: k in s.index ==> k in s'.index && s.index[k] <= s'.index[k]
  }

  lemma StepGrows(s: State, e: Event)
    requires Can(s, e) && forall k :: k in s.index ==> k < s.made
    ensures Grows(s, Do(s, e)) && forall k :: k in Do(s, e).index ==> k < Do(s, e).made
  {
  }

  lemma HaveKeyGrows(s: State, s': State, toUser: string, session: nat, i: nat, i': nat)
    requires Grows(s, s') && HaveKey(s, toUser, session, i) && i <= i'
    ensures HaveKey(s', toUser, session, i')
  {
    var more := s'.delivered[|s.delivered|..];
    assert s.delivered + more == s'.delivered;
    KeyBeforeGrows(s.delivered, more, |s.delivered|, toUser, session, i, i');
    KeyBeforeGrows(s.delivered, more, |s.delivered|, s.me, session, i, i');
  }

  lemma FlightFrame(s: State, s': State, f: Flight)
    requires Grows(s, s') && FlightInv(s, f)
    ensures FlightInv(s', f)
  {
    match f.phase
    case Picked =>
    case Asked(needsShare) =>
      if !needsShare { HaveKeyGrows(s, s', f.toUser, f.session, s.index[f.session], s'.index[f.session]); }
    case Built(share) =>
      if share.None? { HaveKeyGrows(s, s', f.toUser, f.session, s.index[f.session], s'.index[f.session]); }
    case Sending(share, msg, next) =>
      if share.None? { HaveKeyGrows(s, s', f.toUser, f.session, msg, msg); }
  }

  lemma SharesFrame(s: State, s': State, p: (nat, string))
    requires Grows(s, s') && p.0 in s.index && HaveKey(s, p.1, p.0, s.index[p.0])
    ensures p.0 in s'.index && HaveKey(s', p.1, p.0, s'.index[p.0])
  {
    HaveKeyGrows(s, s', p.1, p.0, s.index[p.0], s'.index[p.0]);
  }

  /** A batch that carries shares and has got past them has given them out. */
  lemma SharesLanded(s: State, f: Flight, k: nat)
    requires FlightInv(s, f) && f.phase.Sending? && f.phase.share.Some?
    requires k < |Batch(s.me, f)| && k <= f.phase.next && Batch(s.me, f)[k].content.Message?
    ensures HaveKey(s, f.toUser, f.session, f.phase.msg)
  {
    var batch := Batch(s.me, f);
    assert batch[0] in s.delivered && (f.toUser != s.me ==> batch[1] in s.delivered);
  }

  lemma LandKeepsFirst(s: State, t: nat)
    requires Inv(s) && Can(s, Land(t))
    ensures KeysFirst(Do(s, Land(t)).delivered)
  {
    var f := s.flights[t];
    var e := Batch(s.me, f)[f.phase.next];
    var log, all := s.delivered, s.delivered + [e];
    if e.content.Message? && f.phase.share.Some? { SharesLanded(s, f, f.phase.next); }
    forall p | 0 <= p < |all| && all[p].content.Message?
      ensures KeyBefore(all, p, all[p].toUser, all[p].content.session, all[p].content.index)
    {
      var q := if p < |log| then p else |log|;
      assert all[p] == (if p < |log| then log[p] else e);
      KeyBeforeAppend(log, e, q, all[p].toUser, all[p].content.session, all[p].content.index);
    }
  }

  lemma KeyBeforeAppend(log: seq<Envelope>, e: Envelope, p: nat, user: string, session: nat, index: nat)
    requires KeyBefore(log, p, user, session, index) && p <= |log|
    ensures KeyBefore(log + [e], p, user, session, index)
  {
    KeyBeforeGrows(log, [e], p, user, session, index, index);
  }

  /** The flight that moves. */
  lemma OwnFlight(s: State, e: Event, t: nat)
    requires Inv(s) && Can(s, e) && t in Do(s, e).flights && (t in s.flights ==> Do(s, e).flights[t] != s.flights[t])
    ensures FlightInv(Do(s, e), Do(s, e).flights[t])
  {
    StepGrows(s, e);
    var s' := Do(s, e);
    match e
    case Encrypt(u) =>
      var f := s.flights[u];
      assert FlightInv(s, f);
      if f.phase.share.None? { HaveKeyGrows(s, s', f.toUser, f.session, s.index[f.session], s.index[f.session]); }
    case Land(u) => LandedFlight(s, u);
    case Build(u) => assert FlightInv(s, s.flights[u]);
    case _ =>
  }

  lemma LandedFlight(s: State, t: nat)
    requires Inv(s) && Can(s, Land(t))
    ensures FlightInv(Do(s, Land(t)), Do(s, Land(t)).flights[t])
  {
    var s', f := Do(s, Land(t)), s.flights[t];
    StepGrows(s, Land(t));
    FlightFrame(s, s', f);
    assert Batch(s.me, s'.flights[t]) == Batch(s.me, f);
    assert s'.delivered[|s.delivered|] == Batch(s.me, f)[f.phase.next];
  }

  lemma RecordedShares(s: State, t: nat)
    requires Inv(s) && Can(s, Record(t))
    ensures var f := s.flights[t]; HaveKey(s, f.toUser, f.session, s.index[f.session])
  {
    var f := s.flights[t];
    assert FlightInv(s, f);
    SharesLanded(s, f, |Batch(s.me, f)| - 1);
    HaveKeyGrows(s, s, f.toUser, f.session, f.phase.msg, s.index[f.session]);
  }

  lemma InvStep(s: State, e: Event)
    requires Inv(s) && Can(s, e)
    ensures Inv(Do(s, e))
  {
    var s' := Do(s, e);
    StepGrows(s, e);
    if e.Land? { LandKeepsFirst(s, e.t); }
    forall p | p in s'.shares ensures p.0 in s'.index && HaveKey(s', p.1, p.0, s'.index[p.0]) {
      if p !in s.shares { RecordedShares(s, e.t); }
      SharesFrame(s, s', p);
    }
    forall t | t in s'.flights ensures FlightInv(s', s'.flights[t]) {
      if t in s.flights && s'.flights[t] == s.flights[t] {
        FlightFrame(s, s', s.flights[t]);
      } else {
        OwnFlight(s, e, t);
      }
    }
  }

  lemma {:induction false} InvRun(s: State, es: seq<Event>)
    requires Inv(s) && CanRun(s, es)
    ensures Inv(Final(s, es))
    decreases |es|
  {
    if es != [] {
      InvStep(s, es[0]);
      InvRun(Do(s, es[0]), es[1..]);
    }
  }

  /** However the sends of a device overlap, whichever sessions they are handed and wherever they
      stop, each message in an inbox follows a share of its session there at an index no later. */
  lemma KeysFirstThroughout(me: string, es: seq<Event>)
    requires CanRun(Begin(me), es)
    ensures KeysFirst(Final(Begin(me), es).delivered)
  {
    InvRun(Begin(me), es);
  }

  // ---- but indices may go down ----

  /** The index at which a flight's next envelope will land, once that is settled. */
  function NextIndex(me: string, f: Flight): Option<nat>
  {
    match f.phase
    case Built(Some(share)) => Some(share)
    case Sending(_, _, next) => if next < |Batch(me, f)| then Some(Batch(me, f)[next].content.index) else None
    case _ => None
  }

  /** Nothing of the same session is waiting to land below what lands now. */
  ghost predicate InOrder(s: State, e: Event)
  {
    e.Land? && CanLand(s, e.t) ==>
      forall u :: u in s.flights && s.flights[u].session == s.flights[e.t].session
                  && NextIndex(s.me, s.flights[u]).Some? ==>
        Batch(s.me, s.flights[e.t])[s.flights[e.t].phase.next].content.index <= NextIndex(s.me, s.flights[u]).value
  }

  ghost predicate InOrderRun(s: State, es: seq<Event>)
    requires CanRun(s, es)
    decreases |es|
  {
    es == [] || (InOrder(s, es[0]) && InOrderRun(Do(s, es[0]), es[1..]))
  }

  /** Everything delivered is below its ratchet and not above what is settled to land. */
  ghost predicate Settled(s: State, e: Envelope)
  {
    && e.content.session in s.index && e.content.index < s.index[e.content.session]
    && forall t ::
         t in s.flights && s.flights[t].session == e.content.session && NextIndex(s.me, s.flights[t]).Some? ==>
         e.content.index <= NextIndex(s.me, s.flights[t]).value
  }

  ghost predicate OrderInv(s: State)
  {
    && Inv(s) && Ascending(s.delivered)
    && forall p :: 0 <= p < |s.delivered| ==> Settled(s, s.delivered[p])
  }

  lemma BatchIndices(me: string, f: Flight, k: nat)
    requires f.phase.Sending? && k < |Batch(me, f)| && (f.phase.share.Some? ==> f.phase.share.value <= f.phase.msg)
    ensures var c := Batch(me, f)[k].content;
            c.session == f.session && c.index <= f.phase.msg
            && (forall j :: k <= j < |Batch(me, f)| ==> c.index <= Batch(me, f)[j].content.index)
  {
  }

  /** A flight that moves is never settled below what was delivered before. */
  lemma SettledStep(s: State, e: Event, d: Envelope)
    requires Inv(s) && Can(s, e) && Settled(s, d)
    ensures Settled(Do(s, e), d)
  {
    var s' := Do(s, e);
    StepGrows(s, e);
    forall t | t in s'.flights && s'.flights[t].session == d.content.session && NextIndex(s.me, s'.flights[t]).Some?
      ensures d.content.index <= NextIndex(s.me, s'.flights[t]).value
    {
      if !(t in s.flights && s'.flights[t] == s.flights[t]) { MovedFlight(s, e, t, d); }
    }
  }

  lemma MovedFlight(s: State, e: Event, t: nat, d: Envelope)
    requires Inv(s) && Can(s, e) && Settled(s, d) && t in Do(s, e).flights
    requires t in s.flights ==> Do(s, e).flights[t] != s.flights[t]
    requires var f := Do(s, e).flights[t]; f.session == d.content.session && NextIndex(s.me, f).Some?
    ensures d.content.index <= NextIndex(s.me, Do(s, e).flights[t]).value
  {
    if e.Land? {
      var f := s.flights[t];
      assert FlightInv(s, f);
      BatchIndices(s.me, f, f.phase.next);
      assert Batch(s.me, Do(s, e).flights[t]) == Batch(s.me, f);
    }
  }

  /** What lands in order is itself settled, and not below what landed before. */
  lemma LandedSettled(s: State, t: nat)
    requires OrderInv(s) && Can(s, Land(t)) && InOrder(s, Land(t))
    ensures var s' := Do(s, Land(t));
            Settled(s', s'.delivered[|s.delivered|]) && Ascending(s'.delivered)
  {
    var f, s' := s.flights[t], Do(s, Land(t));
    var d := Batch(s.me, f)[f.phase.next];
    assert FlightInv(s, f);
    BatchIndices(s.me, f, f.phase.next);
    assert NextIndex(s.me, f) == Some(d.content.index);
    assert Settled(s, d);
    SettledStep(s, Land(t), d);
    forall p | 0 <= p < |s.delivered| && s.delivered[p].content.session == d.content.session
      ensures s.delivered[p].content.index <= d.content.index
    {
      assert Settled(s, s.delivered[p]);
    }
  }

  lemma OrderStep(s: State, e: Event)
    requires OrderInv(s) && Can(s, e) && InOrder(s, e)
    ensures OrderInv(Do(s, e))
  {
    InvStep(s, e);
    var s' := Do(s, e);
    if e.Land? { LandedSettled(s, e.t); }
    forall p | 0 <= p < |s'.delivered| ensures Settled(s', s'.delivered[p]) {
      if p < |s.delivered| {
        assert s'.delivered[p] == s.delivered[p];
        SettledStep(s, e, s.delivered[p]);
      }
    }
  }

  lemma {:induction false} OrderRun(s: State, es: seq<Event>)
    requires OrderInv(s) && CanRun(s, es) && InOrderRun(s, es)
    ensures OrderInv(Final(s, es))
    decreases |es|
  {
    if es != [] {
      OrderStep(s, es[0]);
      OrderRun(Do(s, es[0]), es[1..]);
    }
  }

  /** Overlapping sends keep a session's indices in order as long as nothing lands above an
      envelope of the same session still to land. */
  lemma InOrderAscends(me: string, es: seq<Event>)
    requires CanRun(Begin(me), es) && InOrderRun(Begin(me), es)
    ensures KeysFirst(Final(Begin(me), es).delivered) && Ascending(Final(Begin(me), es).delivered)
  {
    OrderRun(Begin(me), es);
  }

  /** What the flight left behind does next. */
  function Resume(f: Flight, u: nat): seq<Event>
  {
    if f.phase.Built? then [Encrypt(u), Land(u)] else [Land(u)]
  }

  lemma TwoEvents(s: State, e: Event, e': Event)
    requires Can(s, e) && Can(Do(s, e), e')
    ensures CanRun(s, [e, e']) && Final(s, [e, e']) == Do(Do(s, e), e')
  {
    OneEvent(Do(s, e), e');
    assert [e, e'][1..] == [e'];
  }

  lemma OneEvent(s: State, e: Event)
    requires Can(s, e)
    ensures CanRun(s, [e]) && Final(s, [e]) == Do(s, e)
  {
    assert [e][1..] == [] && CanRun(Do(s, e), []) && Final(Do(s, e), []) == Do(s, e);
  }

  lemma BuiltGoesDown(s: State, u: nat, p: nat)
    requires Inv(s) && u in s.flights && s.flights[u].phase.Built? && s.flights[u].phase.share.Some?
    requires p < |s.delivered| && s.delivered[p].content.session == s.flights[u].session
    requires s.flights[u].phase.share.value < s.delivered[p].content.index
    ensures CanRun(s, [Encrypt(u), Land(u)]) && !Ascending(Final(s, [Encrypt(u), Land(u)]).delivered)
  {
    assert FlightInv(s, s.flights[u]);
    var r := Do(s, Encrypt(u));
    TwoEvents(s, Encrypt(u), Land(u));
    var last, n := Do(r, Land(u)), |s.delivered|;
    assert last.delivered[p] == s.delivered[p] && last.delivered[n] == Batch(s.me, r.flights[u])[0];
  }

  lemma SendingGoesDown(s: State, u: nat, p: nat)
    requires Can(s, Land(u)) && p < |s.delivered| && s.delivered[p].content.session == s.flights[u].session
    requires var d := Batch(s.me, s.flights[u])[s.flights[u].phase.next];
             d.content.session == s.flights[u].session && d.content.index < s.delivered[p].content.index
    ensures CanRun(s, [Land(u)]) && !Ascending(Final(s, [Land(u)]).delivered)
  {
    OneEvent(s, Land(u));
    var last, n := Do(s, Land(u)), |s.delivered|;
    assert last.delivered[p] == s.delivered[p];
    assert last.delivered[n] == Batch(s.me, s.flights[u])[s.flights[u].phase.next];
  }

  /** And only then: when an envelope lands above one still to land, that one, landing next,
      takes the session's indices down. */
  lemma DisorderGoesDown(s: State, t: nat, u: nat)
    requires Inv(s) && Can(s, Land(t)) && u in s.flights && s.flights[u].session == s.flights[t].session
    requires NextIndex(s.me, s.flights[u]).Some?
    requires NextIndex(s.me, s.flights[u]).value < Batch(s.me, s.flights[t])[s.flights[t].phase.next].content.index
    ensures var s' := Do(s, Land(t));
            var es := Resume(s.flights[u], u);
            CanRun(s', es) && !Ascending(Final(s', es).delivered)
  {
    var s', f := Do(s, Land(t)), s.flights[u];
    assert FlightInv(s, f) && FlightInv(s, s.flights[t]);
    assert u != t && s'.flights[u] == f;
    InvStep(s, Land(t));
    BatchIndices(s.me, s.flights[t], s.flights[t].phase.next);
    if f.phase.Built? {
      BuiltGoesDown(s', u, |s.delivered|);
    } else {
      BatchIndices(s.me, f, f.phase.next);
      SendingGoesDown(s', u, |s.delivered|);
    }
  }

  lemma {:induction false} Append(s: State, a: seq<Event>, b: seq<Event>)
    requires CanRun(s, a) && CanRun(Final(s, a), b)
    ensures CanRun(s, a + b) && Final(s, a + b) == Final(Final(s, a), b)
    decreases |a|
  {
    if a == [] {
      assert a + b == b;
    } else {
      assert (a + b)[1..] == a[1..] + b;
      Append(Do(s, a[0]), a[1..], b);
    }
  }

  /** Send `t` up to where all is encrypted and nothing has landed. */
  function Prepare(t: nat, toUser: string, session: nat): seq<Event>
  {
    [Pick(t, toUser, session, true), Ask(t), Build(t), Encrypt(t)]
  }

  lemma PrepareRuns(s: State, t: nat, toUser: string, k: nat)
    requires t !in s.flights && k in s.index && s.index[k] < ROTATION_THRESHOLD
    ensures var i := s.index[k];
            && CanRun(s, Prepare(t, toUser, k))
            && Final(s, Prepare(t, toUser, k)) ==
                 s.(index := s.index[k := i + 1],
                    flights := s.flights[t := Flight(toUser, k, true, Sending(Some(i), i, 0))])
  {
    var s1 := Do(s, Pick(t, toUser, k, true));
    var s2 := Do(s1, Ask(t));
    var s3 := Do(s2, Build(t));
    TwoEvents(s, Pick(t, toUser, k, true), Ask(t));
    TwoEvents(s2, Build(t), Encrypt(t));
    Append(s, [Pick(t, toUser, k, true), Ask(t)], [Build(t), Encrypt(t)]);
    assert [Pick(t, toUser, k, true), Ask(t)] + [Build(t), Encrypt(t)] == Prepare(t, toUser, k);
    var i := s.index[k];
    assert Do(s3, Encrypt(t)).flights == s.flights[t := Flight(toUser, k, true, Sending(Some(i), i, 0))];
  }

  /** The disorder as a run, for any device and recipient: of two sends prepared one after the
      other the second lands first. */
  lemma DisorderIsReached(me: string, toUser: string)
    ensures var es := [Make] + Prepare(0, toUser, 0) + Prepare(1, toUser, 0) + [Land(1), Land(0)];
            && CanRun(Begin(me), es)
            && KeysFirst(Final(Begin(me), es).delivered) && !Ascending(Final(Begin(me), es).delivered)
  {
    var s := Begin(me);
    var s1 := Do(s, Make);
    OneEvent(s, Make);
    PrepareRuns(s1, 0, toUser, 0);
    var s2 := Final(s1, Prepare(0, toUser, 0));
    PrepareRuns(s2, 1, toUser, 0);
    var s3 := Final(s2, Prepare(1, toUser, 0));
    Append(s, [Make], Prepare(0, toUser, 0));
    Append(s, [Make] + Prepare(0, toUser, 0), Prepare(1, toUser, 0));
    InvRun(s, [Make] + Prepare(0, toUser, 0) + Prepare(1, toUser, 0));
    DisorderGoesDown(s3, 1, 0);
    var s4 := Do(s3, Land(1));
    OneEvent(s4, Land(0));
    TwoEvents(s3, Land(1), Land(0));
    Append(s, [Make] + Prepare(0, toUser, 0) + Prepare(1, toUser, 0), [Land(1), Land(0)]);
    InvRun(s, [Make] + Prepare(0, toUser, 0) + Prepare(1, toUser, 0) + [Land(1), Land(0)]);
  }

  // ---- and the threshold may be passed ----

  /** The sends that have been handed a session and have not encrypted yet. */
  ghost function Due(s: State, k: nat): set<nat>
  {
    set t | t in s.flights && s.flights[t].session == k && !s.flights[t].phase.Sending?
  }

  /** A session is handed out only while it has room for everyone who already holds it. */
  ghost predicate Roomy(s: State, e: Event)
    requires Can(s, e)
  {
    e.Pick? ==> s.index[e.session] + |Due(s, e.session)| < ROTATION_THRESHOLD
  }

  ghost predicate RoomyRun(s: State, es: seq<Event>)
    requires CanRun(s, es)
    decreases |es|
  {
    es == [] || (Roomy(s, es[0]) && RoomyRun(Do(s, es[0]), es[1..]))
  }

  /** No session has more messages used and due than the threshold allows, and everything
      delivered is below its ratchet. */
  ghost predicate RoomInv(s: State)
  {
    && Inv(s)
    && (forall k :: k in s.index ==> s.index[k] + |Due(s, k)| <= ROTATION_THRESHOLD)
    && (forall p :: 0 <= p < |s.delivered| ==> Below(s, s.delivered[p]))
  }

  ghost predicate Below(s: State, e: Envelope)
  {
    e.content.session in s.index && e.content.index < s.index[e.content.session]
  }

  lemma DueAfter(s: State, e: Event, k: nat)
    requires Inv(s) && Can(s, e) && k in s.index
    ensures Due(Do(s, e), k) ==
              if e.Pick? && e.session == k then Due(s, k) + {e.t}
              else if e.Encrypt? && s.flights[e.t].session == k then Due(s, k) - {e.t}
              else Due(s, k)
  {
  }

  lemma RoomOf(s: State, e: Event, k: nat)
    requires RoomInv(s) && Can(s, e) && Roomy(s, e) && k in Do(s, e).index
    ensures Do(s, e).index[k] + |Due(Do(s, e), k)| <= ROTATION_THRESHOLD
  {
    if k in s.index {
      DueAfter(s, e, k);
      if e.Encrypt? && s.flights[e.t].session == k { assert e.t in Due(s, k); }
      if e.Pick? && e.session == k { assert e.t !in Due(s, k); }
    } else {
      forall t | t in s.flights ensures s.flights[t].session != k { assert FlightInv(s, s.flights[t]); }
      assert Due(Do(s, e), k) == {};
    }
  }

  lemma RoomStep(s: State, e: Event)
    requires RoomInv(s) && Can(s, e) && Roomy(s, e)
    ensures RoomInv(Do(s, e))
  {
    InvStep(s, e);
    StepGrows(s, e);
    var s' := Do(s, e);
    forall k | k in s'.index ensures s'.index[k] + |Due(s', k)| <= ROTATION_THRESHOLD { RoomOf(s, e, k); }
    forall p | 0 <= p < |s'.delivered| ensures Below(s', s'.delivered[p]) {
      if p < |s.delivered| {
        assert s'.delivered[p] == s.delivered[p] && Below(s, s.delivered[p]);
      } else {
        assert FlightInv(s, s.flights[e.t]);
        BatchIndices(s.me, s.flights[e.t], s.flights[e.t].phase.next);
      }
    }
  }

  lemma {:induction false} RoomRun(s: State, es: seq<Event>)
    requires RoomInv(s) && CanRun(s, es) && RoomyRun(s, es)
    ensures RoomInv(Final(s, es))
    decreases |es|
  {
    if es != [] {
      RoomStep(s, es[0]);
      RoomRun(Do(s, es[0]), es[1..]);
    }
  }

  /** Overlapping sends stay within the threshold as long as no session is handed out while those
      already handed it could use it up. */
  lemma RoomyStaysWithin(me: string, es: seq<Event>)
    requires CanRun(Begin(me), es) && RoomyRun(Begin(me), es)
    ensures var s := Final(Begin(me), es);
            && (forall k :: k in s.index ==> s.index[k] <= ROTATION_THRESHOLD)
            && (forall p :: 0 <= p < |s.delivered| ==> s.delivered[p].content.index < ROTATION_THRESHOLD)
  {
    RoomRun(Begin(me), es);
    var s := Final(Begin(me), es);
    forall p | 0 <= p < |s.delivered| ensures s.delivered[p].content.index < ROTATION_THRESHOLD {
      assert Below(s, s.delivered[p]);
    }
  }

  /** A send brought to where everything is encrypted. */
  lemma Finish(s: State, t: nat) returns (es: seq<Event>)
    requires Inv(s) && t in s.flights && !s.flights[t].phase.Sending?
    ensures CanRun(s, es) && Inv(Final(s, es))
    ensures var f, s' := s.flights[t], Final(s, es);
            && f.session in s.index && f.session in s'.index
            && s'.index[f.session] == s.index[f.session] + 1 && Due(s', f.session) == Due(s, f.session) - {t}
    decreases if s.flights[t].phase.Picked? then 2 else if s.flights[t].phase.Asked? then 1 else 0
  {
    assert FlightInv(s, s.flights[t]);
    var e := match s.flights[t].phase
      case Picked => Ask(t)
      case Asked(_) => Build(t)
      case _ => Encrypt(t);
    DueAfter(s, e, s.flights[t].session);
    InvStep(s, e);
    OneEvent(s, e);
    es := [e];
    if !e.Encrypt? {
      var rest := Finish(Do(s, e), t);
      Append(s, [e], rest);
      es := [e] + rest;
    }
  }

  /** Everyone who holds a session may still encrypt under it. */
  lemma {:induction false} AllFinish(s: State, k: nat) returns (es: seq<Event>)
    requires Inv(s) && k in s.index
    ensures CanRun(s, es) && k in Final(s, es).index && Final(s, es).index[k] == s.index[k] + |Due(s, k)|
    decreases |Due(s, k)|
  {
    es := [];
    if Due(s, k) != {} {
      var t :| t in Due(s, k);
      var first := Finish(s, t);
      var rest := AllFinish(Final(s, first), k);
      Append(s, first, rest);
      es := first + rest;
    }
  }

  /** And only then: once a session is handed out without room, the sends that hold it can take
      it past the threshold. */
  lemma CrowdedPassesThreshold(s: State, e: Event) returns (es: seq<Event>)
    requires Inv(s) && Can(s, e) && e.Pick? && !Roomy(s, e)
    ensures CanRun(Do(s, e), es)
    ensures e.session in Final(Do(s, e), es).index && Final(Do(s, e), es).index[e.session] > ROTATION_THRESHOLD
  {
    InvStep(s, e);
    DueAfter(s, e, e.session);
    assert e.t !in Due(s, e.session);
    es := AllFinish(Do(s, e), e.session);
  }

  /** After `n` whole preparations of sends on one session. */
  lemma {:induction false} Prepared(me: string, toUser: string, n: nat) returns (es: seq<Event>)
    requires n <= ROTATION_THRESHOLD
    ensures CanRun(Begin(me), es)
    ensures var s := Final(Begin(me), es);
            && s.index == map[0 := n] && Due(s, 0) == {} && (forall t :: t in s.flights ==> t < n)
  {
    if n == 0 {
      es := [Make];
      OneEvent(Begin(me), Make);
    } else {
      var before := Prepared(me, toUser, n - 1);
      var s := Final(Begin(me), before);
      PrepareRuns(s, n - 1, toUser, 0);
      Append(Begin(me), before, Prepare(n - 1, toUser, 0));
      es := before + Prepare(n - 1, toUser, 0);
    }
  }

  /** A session handed out without room is reached, for any device and recipient: after all but
      one of the messages a session may carry, two sends are handed it before either encrypts;
      the second hand-out is the crowded one, and the session passes the threshold. */
  lemma OverlapPassesThreshold(me: string, toUser: string) returns (es: seq<Event>, more: seq<Event>)
    ensures CanRun(Begin(me), es) && Inv(Final(Begin(me), es))
    ensures var s, e := Final(Begin(me), es), Pick(ROTATION_THRESHOLD, toUser, 0, true);
            && Can(s, e) && !Roomy(s, e) && CanRun(Do(s, e), more)
            && 0 in Final(Do(s, e), more).index && Final(Do(s, e), more).index[0] > ROTATION_THRESHOLD
  {
    var n := ROTATION_THRESHOLD - 1;
    var before := Prepared(me, toUser, n);
    var s := Final(Begin(me), before);
    InvRun(Begin(me), before);
    var e := Pick(n, toUser, 0, true);
    OneEvent(s, e);
    Append(Begin(me), before, [e]);
    es := before + [e];
    DueAfter(s, e, 0);
    InvStep(s, e);
    assert |{n}| == 1;
    more := CrowdedPassesThreshold(Do(s, e), Pick(ROTATION_THRESHOLD, toUser, 0, true));
  }
}
