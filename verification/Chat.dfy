/** The two-pass materializer: originals become bubbles, and each one's edit and delete
    amendments are applied in id order. */
module Chat {
  import opened Wrappers
  import opened Lex

  datatype MediaFile = MediaFile(url: string, name: string)

  /** A parsed plaintext. */
  datatype Inner =
    | Text(body: string)
    | Media(caption: string, file: MediaFile)
    | Amendment(target: string, action: string, newBody: Option<string>)
    | Unknown

  datatype Msg = Msg(id: string, conversation: string, fromUser: string, inner: Inner, timestamp: int)

  datatype Bubble = Bubble(
    id: string, text: string, timestamp: int, sent: bool,
    media: Option<MediaFile>, editedAt: Option<int>, deleted: bool)

  predicate IsOriginal(m: Msg) {
    m.inner.Text? || m.inner.Media?
  }

  predicate Amends(m: Msg, target: string) {
    m.inner.Amendment? && m.inner.target == target
  }

  function Originals(msgs: seq<Msg>): seq<Msg>
  {
    if msgs == [] then []
    else
      var n := |msgs| - 1;
      Originals(msgs[..n]) + (if IsOriginal(msgs[n]) then [msgs[n]] else [])
  }

  function AmendmentsOf(msgs: seq<Msg>, target: string): seq<Msg>
  {
    if msgs == [] then []
    else
      var n := |msgs| - 1;
      AmendmentsOf(msgs[..n], target) + (if Amends(msgs[n], target) then [msgs[n]] else [])
  }

  /** The stable sort by id. */
  function InsertById(m: Msg, s: seq<Msg>): seq<Msg>
  {
    if s == [] then [m]
    else if Less(m.id, s[0].id) then [m] + s
    else [s[0]] + InsertById(m, s[1..])
  }

  function SortById(s: seq<Msg>): seq<Msg>
  {
    if s == [] then [] else InsertById(s[|s| - 1], SortById(s[..|s| - 1]))
  }

  function FreshBubble(m: Msg, userId: string): Bubble
    requires IsOriginal(m)
  {
    Bubble(m.id, if m.inner.Text? then m.inner.body else m.inner.caption, m.timestamp, m.fromUser == userId,
           if m.inner.Media? then Some(m.inner.file) else None, None, false)
  }

  predicate Deletes(am: Msg, orig: Msg)
    requires am.inner.Amendment?
  {
    am.fromUser == orig.fromUser && am.inner.action == "delete"
  }

  /** An edit that is authorized, well-formed, and not of a caption-less media bubble. */
  predicate Edits(am: Msg, orig: Msg, base: Bubble)
    requires am.inner.Amendment?
  {
    am.fromUser == orig.fromUser && am.inner.action == "edit" && am.inner.newBody.Some?
    && !(base.media.Some? && base.text == "")
  }

  function ApplyChain(base: Bubble, orig: Msg, chain: seq<Msg>): Bubble
    decreases chain
  {
    if chain == [] then base
    else
      var am := chain[0];
      if !am.inner.Amendment? then ApplyChain(base, orig, chain[1..])
      else if Deletes(am, orig) then base.(deleted := true, text := "", media := None)
      else if Edits(am, orig, base) then
        ApplyChain(base.(text := am.inner.newBody.value, editedAt := Some(am.timestamp)), orig, chain[1..])
      else ApplyChain(base, orig, chain[1..])
  }

  function Materialize(orig: Msg, msgs: seq<Msg>, userId: string): Bubble
    requires IsOriginal(orig)
  {
    ApplyChain(FreshBubble(orig, userId), orig, SortById(AmendmentsOf(msgs, orig.id)))
  }

  function MaterializeAll(originals: seq<Msg>, msgs: seq<Msg>, userId: string): seq<Bubble>
    requires forall o :: o in originals ==> IsOriginal(o)
  {
    if originals == [] then []
    else
      var n := |originals| - 1;
      MaterializeAll(originals[..n], msgs, userId) + [Materialize(originals[n], msgs, userId)]
  }

  lemma {:induction false} OriginalsFacts(msgs: seq<Msg>)
    ensures forall m :: m in Originals(msgs) <==> m in msgs && IsOriginal(m)
  {
    if msgs != [] {
      var n := |msgs| - 1;
      OriginalsFacts(msgs[..n]);
      assert msgs == msgs[..n] + [msgs[n]];
      assert forall m :: m in msgs <==> m in msgs[..n] || m == msgs[n];
    }
  }

  lemma {:induction false} AmendmentsFacts(msgs: seq<Msg>, target: string)
    ensures forall m :: m in AmendmentsOf(msgs, target) <==> m in msgs && Amends(m, target)
  {
    if msgs != [] {
      var n := |msgs| - 1;
      AmendmentsFacts(msgs[..n], target);
      assert forall m :: m in msgs <==> m in msgs[..n] || m == msgs[n];
    }
  }

  lemma OriginalsOfOne(m: Msg)
    ensures Originals([m]) == if m.inner.Text? || m.inner.Media? then [m] else []
  {
    assert [m][..0] == [];
  }

  /** Originals come out in the history's order, each where it stood. */
  lemma {:induction false} OriginalsConcat(a: seq<Msg>, b: seq<Msg>)
    ensures Originals(a + b) == Originals(a) + Originals(b)
  {
    if b == [] {
      assert a + b == a;
    } else {
      var n := |b| - 1;
      OriginalsConcat(a, b[..n]);
      assert (a + b)[..|a + b| - 1] == a + b[..n];
    }
  }

  function ToMessages(msgs: seq<Msg>, userId: string): seq<Bubble>
  {
    OriginalsFacts(msgs);
    MaterializeAll(Originals(msgs), msgs, userId)
  }

  // ---- the loops ----

  method MaterializeOne(m: Msg, chain: seq<Msg>, userId: string) returns (base: Bubble)
    requires IsOriginal(m)
    ensures base == ApplyChain(FreshBubble(m, userId), m, chain)
  {
    base := Bubble(m.id, "", m.timestamp, m.fromUser == userId, None, None, false);
    match m.inner {
      case Text(body) => base := base.(text := body);
      case Media(caption, file) => base := base.(text := caption, media := Some(file));
    }
    var i := 0;
    while i < |chain|
      invariant i <= |chain|
      invariant ApplyChain(FreshBubble(m, userId), m, chain) == ApplyChain(base, m, chain[i..])
    {
      assert chain[i..][0] == chain[i] && chain[i..][1..] == chain[i + 1..];
      var am := chain[i];
      i := i + 1;
      if !am.inner.Amendment? { continue; }
      if am.fromUser != m.fromUser { continue; }
      if am.inner.action == "delete" {
        base := base.(deleted := true);
        base := base.(text := "", media := None);
        return;
      }
      if am.inner.action == "edit" {
        if am.inner.newBody.None? { continue; }
        if base.media.Some? && base.text == "" { continue; }
        base := base.(text := am.inner.newBody.value, editedAt := Some(am.timestamp));
      }
    }
  }

  /** Each target's amendments, in input order. */
  ghost predicate Grouped(msgs: seq<Msg>, amendmentsByTarget: map<string, seq<Msg>>)
  {
    forall t :: AmendmentsOf(msgs, t) == if t in amendmentsByTarget then amendmentsByTarget[t] else []
  }

  /** First pass: partition into originals and amendments by target. */
  method Partition(msgs: seq<Msg>) returns (originals: seq<Msg>, amendmentsByTarget: map<string, seq<Msg>>)
    ensures originals == Originals(msgs)
    ensures Grouped(msgs, amendmentsByTarget)
  {
    amendmentsByTarget, originals := map[], [];
    var i := 0;
    while i < |msgs|
      invariant i <= |msgs|
      invariant originals == Originals(msgs[..i])
      invariant Grouped(msgs[..i], amendmentsByTarget)
    {
      assert msgs[..i + 1][..i] == msgs[..i];
      var m := msgs[i];
      if m.inner.Amendment? {
        var list := if m.inner.target in amendmentsByTarget then amendmentsByTarget[m.inner.target] else [];
        amendmentsByTarget := amendmentsByTarget[m.inner.target := list + [m]];
      } else if !m.inner.Unknown? {
        originals := originals + [m];
      }
      i := i + 1;
    }
    assert msgs[..i] == msgs;
  }

  /** One original of the second pass. */
  method RenderOne(m: Msg, amendmentsByTarget: map<string, seq<Msg>>, userId: string, ghost msgs: seq<Msg>)
    returns (bubble: Bubble)
    requires IsOriginal(m) && Grouped(msgs, amendmentsByTarget)
    ensures bubble == Materialize(m, msgs, userId)
  {
    var chain := if m.id in amendmentsByTarget then amendmentsByTarget[m.id] else [];
    assert AmendmentsOf(msgs, m.id) == chain;
    bubble := MaterializeOne(m, SortById(chain), userId);
  }

  lemma MaterializeNext(originals: seq<Msg>, n: nat, msgs: seq<Msg>, userId: string)
    requires n < |originals| && forall o :: o in originals ==> IsOriginal(o)
    ensures MaterializeAll(originals[..n + 1], msgs, userId)
         == MaterializeAll(originals[..n], msgs, userId) + [Materialize(originals[n], msgs, userId)]
  {
    assert originals[..n + 1][..n] == originals[..n];
  }

  /** Second pass. */
  method RenderAll(originals: seq<Msg>, amendmentsByTarget: map<string, seq<Msg>>, userId: string, ghost msgs: seq<Msg>)
    returns (bubbles: seq<Bubble>)
    requires Grouped(msgs, amendmentsByTarget) && forall o :: o in originals ==> IsOriginal(o)
    ensures bubbles == MaterializeAll(originals, msgs, userId)
  {
    bubbles := [];
    var i := 0;
    while i < |originals|
      invariant i <= |originals|
      invariant bubbles == MaterializeAll(originals[..i], msgs, userId)
    {
      var bubble := RenderOne(originals[i], amendmentsByTarget, userId, msgs);
      MaterializeNext(originals, i, msgs, userId);
      bubbles := bubbles + [bubble];
      i := i + 1;
    }
    assert originals[..i] == originals;
  }

  method RenderMessages(msgs: seq<Msg>, userId: string) returns (bubbles: seq<Bubble>)
    ensures bubbles == ToMessages(msgs, userId)
  {
    var originals, amendmentsByTarget := Partition(msgs);
    OriginalsFacts(msgs);
    bubbles := RenderAll(originals, amendmentsByTarget, userId, msgs);
  }

  // ---- sorting ----

  ghost predicate DistinctIds(s: seq<Msg>)
  {
    forall i, j :: 0 <= i < j < |s| ==> s[i].id != s[j].id
  }

  ghost predicate AscendingIds(s: seq<Msg>)
  {
    forall i, j :: 0 <= i < j < |s| ==> Less(s[i].id, s[j].id)
  }

  lemma {:induction false} InsertFacts(m: Msg, s: seq<Msg>)
    requires AscendingIds(s) && forall x :: x in s ==> x.id != m.id
    ensures AscendingIds(InsertById(m, s))
    ensures forall x :: x in InsertById(m, s) <==> x in s || x == m
  {
    var r := InsertById(m, s);
    if s != [] {
      LessTotal(m.id, s[0].id);
      assert s[0] in s;
      if Less(m.id, s[0].id) {
        forall j | 0 < j < |r| ensures Less(r[0].id, r[j].id) {
          if j > 1 { LessTransitive(m.id, s[0].id, s[j - 1].id); }
        }
      } else {
        InsertFacts(m, s[1..]);
        var t := InsertById(m, s[1..]);
        forall j | 0 < j < |r| ensures Less(r[0].id, r[j].id) {
          assert r[j] == t[j - 1] && t[j - 1] in t;
          assert r[j] == m || r[j] in s[1..];
        }
        assert forall x :: x in s <==> x == s[0] || x in s[1..];
      }
    }
  }

  lemma {:induction false} SortFacts(s: seq<Msg>)
    requires DistinctIds(s)
    ensures AscendingIds(SortById(s))
    ensures forall x :: x in SortById(s) <==> x in s
  {
    if s != [] {
      var n := |s| - 1;
      SortFacts(s[..n]);
      assert forall x :: x in s <==> x in s[..n] || x == s[n];
      InsertFacts(s[n], SortById(s[..n]));
    }
  }

  lemma {:induction false} AscendingIdsUnique(a: seq<Msg>, b: seq<Msg>)
    requires AscendingIds(a) && AscendingIds(b)
    requires forall x :: x in a <==> x in b
    ensures a == b
  {
    if a == [] {
      SomeElement(b);
    } else {
      assert a[0] in b;
      SomeElement(b);
      assert b[0] in a;
      var i :| 0 <= i < |b| && b[i] == a[0];
      var j :| 0 <= j < |a| && a[j] == b[0];
      if i != 0 && j != 0 { LessAsymmetric(b[0].id, b[i].id); }
      LessIrreflexive(a[0].id);
      assert a[0] == b[0];
      forall x ensures x in a[1..] <==> x in b[1..] {
        if x in a[1..] { assert x in a; assert x in b; }
        if x in b[1..] { assert x in b; assert x in a; }
      }
      AscendingIdsUnique(a[1..], b[1..]);
    }
  }

  lemma SomeElement(b: seq<Msg>)
    ensures b == [] || exists x :: x in b
  {
    if b != [] { assert b[0] in b; }
  }

  lemma {:induction false} AmendmentsDistinct(msgs: seq<Msg>, target: string)
    requires DistinctIds(msgs)
    ensures DistinctIds(AmendmentsOf(msgs, target))
  {
    if msgs != [] {
      var n := |msgs| - 1;
      AmendmentsDistinct(msgs[..n], target);
      AmendmentsFacts(msgs[..n], target);
      var before := AmendmentsOf(msgs[..n], target);
      assert forall i :: 0 <= i < |before| ==> before[i] in before;
    }
  }

  /** The sorted chain of a target depends only on which amendments are stored. */
  lemma ChainUnordered(a: seq<Msg>, b: seq<Msg>, target: string)
    requires DistinctIds(a) && DistinctIds(b)
    requires forall m :: Amends(m, target) ==> (m in a <==> m in b)
    ensures SortById(AmendmentsOf(a, target)) == SortById(AmendmentsOf(b, target))
  {
    AmendmentsFacts(a, target);
    AmendmentsFacts(b, target);
    AmendmentsDistinct(a, target);
    AmendmentsDistinct(b, target);
    SortFacts(AmendmentsOf(a, target));
    SortFacts(AmendmentsOf(b, target));
    AscendingIdsUnique(SortById(AmendmentsOf(a, target)), SortById(AmendmentsOf(b, target)));
  }

  // ---- the theorems ----

  lemma {:induction false} MaterializeAllFrame(originals: seq<Msg>, a: seq<Msg>, b: seq<Msg>, userId: string)
    requires forall o :: o in originals ==> IsOriginal(o)
    requires forall o :: o in originals ==> Materialize(o, a, userId) == Materialize(o, b, userId)
    ensures MaterializeAll(originals, a, userId) == MaterializeAll(originals, b, userId)
  {
    if originals != [] {
      MaterializeAllFrame(originals[..|originals| - 1], a, b, userId);
    }
  }

  /** The same messages render the same, whatever order the amendments arrived in. */
  lemma ArrivalOrderIrrelevant(a: seq<Msg>, b: seq<Msg>, userId: string)
    requires DistinctIds(a) && DistinctIds(b)
    requires Originals(a) == Originals(b)
    requires forall m: Msg :: m.inner.Amendment? ==> (m in a <==> m in b)
    ensures ToMessages(a, userId) == ToMessages(b, userId)
  {
    OriginalsFacts(a);
    forall o | o in Originals(a) ensures Materialize(o, a, userId) == Materialize(o, b, userId) {
      ChainUnordered(a, b, o.id);
    }
    MaterializeAllFrame(Originals(a), a, b, userId);
  }

  lemma {:induction false} ApplyChainKeeps(base: Bubble, orig: Msg, chain: seq<Msg>)
    ensures var r := ApplyChain(base, orig, chain);
            r.id == base.id && r.timestamp == base.timestamp && r.sent == base.sent
    decreases chain
  {
    if chain != [] && chain[0].inner.Amendment? && Edits(chain[0], orig, base) && !Deletes(chain[0], orig) {
      var edited := base.(text := chain[0].inner.newBody.value, editedAt := Some(chain[0].timestamp));
      ApplyChainKeeps(edited, orig, chain[1..]);
    } else if chain != [] {
      ApplyChainKeeps(base, orig, chain[1..]);
    }
  }

  lemma MaterializeKeeps(orig: Msg, msgs: seq<Msg>, userId: string)
    requires IsOriginal(orig)
    ensures var r := Materialize(orig, msgs, userId);
            r.id == orig.id && r.timestamp == orig.timestamp && r.sent == (orig.fromUser == userId)
  {
    ApplyChainKeeps(FreshBubble(orig, userId), orig, SortById(AmendmentsOf(msgs, orig.id)));
  }

  lemma {:induction false} RenderedAt(originals: seq<Msg>, msgs: seq<Msg>, userId: string, i: nat)
    requires forall o :: o in originals ==> IsOriginal(o)
    ensures |MaterializeAll(originals, msgs, userId)| == |originals|
    ensures i < |originals| ==> MaterializeAll(originals, msgs, userId)[i] == Materialize(originals[i], msgs, userId)
  {
    if originals != [] { RenderedAt(originals[..|originals| - 1], msgs, userId, i); }
  }

  /** One bubble per original of the history, in the history's order and with its id, timestamp
      and direction. */
  lemma RendersOriginalsInOrder(msgs: seq<Msg>, userId: string)
    ensures var r, originals := ToMessages(msgs, userId), Originals(msgs);
            && |r| == |originals|
            && forall i :: 0 <= i < |r| ==>
                 && IsOriginal(originals[i])
                 && r[i] == Materialize(originals[i], msgs, userId)
                 && r[i].id == originals[i].id && r[i].timestamp == originals[i].timestamp
                 && r[i].sent == (originals[i].fromUser == userId)
  {
    var originals := Originals(msgs);
    OriginalsFacts(msgs);
    RenderedAt(originals, msgs, userId, 0);
    forall i | 0 <= i < |originals|
      ensures var b := MaterializeAll(originals, msgs, userId)[i];
              && IsOriginal(originals[i])
              && b == Materialize(originals[i], msgs, userId)
              && b.id == originals[i].id && b.timestamp == originals[i].timestamp
              && b.sent == (originals[i].fromUser == userId)
    {
      assert originals[i] in originals;
      RenderedAt(originals, msgs, userId, i);
      MaterializeKeeps(originals[i], msgs, userId);
    }
  }

  predicate Authorized(am: Msg, orig: Msg) {
    am.fromUser == orig.fromUser
  }

  function AuthorizedOnly(chain: seq<Msg>, orig: Msg): seq<Msg>
  {
    if chain == [] then []
    else (if Authorized(chain[0], orig) then [chain[0]] else []) + AuthorizedOnly(chain[1..], orig)
  }

  lemma {:induction false} UnauthorizedSkipped(base: Bubble, orig: Msg, chain: seq<Msg>)
    ensures ApplyChain(base, orig, chain) == ApplyChain(base, orig, AuthorizedOnly(chain, orig))
    decreases chain
  {
    if chain != [] {
      var am := chain[0];
      var rest := AuthorizedOnly(chain[1..], orig);
      if Authorized(am, orig) {
        assert AuthorizedOnly(chain, orig)[1..] == rest;
      } else {
        assert AuthorizedOnly(chain, orig) == rest;
      }
      if am.inner.Amendment? && Edits(am, orig, base) && !Deletes(am, orig) {
        UnauthorizedSkipped(base.(text := am.inner.newBody.value, editedAt := Some(am.timestamp)), orig, chain[1..]);
      } else {
        UnauthorizedSkipped(base, orig, chain[1..]);
      }
    }
  }

  lemma {:induction false} AuthorizedOnlyFacts(chain: seq<Msg>, orig: Msg)
    requires AscendingIds(chain)
    ensures AscendingIds(AuthorizedOnly(chain, orig))
    ensures forall m :: m in AuthorizedOnly(chain, orig) <==> m in chain && Authorized(m, orig)
  {
    if chain != [] {
      AuthorizedOnlyFacts(chain[1..], orig);
      var rest := AuthorizedOnly(chain[1..], orig);
      assert forall j :: 0 <= j < |rest| ==> rest[j] in rest && rest[j] in chain[1..];
      assert forall m :: m in chain <==> m == chain[0] || m in chain[1..];
    }
  }

  /** A bubble depends only on the amendments by the original's own sender: anyone else's may
      be added or removed freely. */
  lemma OnlyTheSenderAmends(orig: Msg, a: seq<Msg>, b: seq<Msg>, userId: string)
    requires IsOriginal(orig) && DistinctIds(a) && DistinctIds(b)
    requires forall m :: Amends(m, orig.id) && Authorized(m, orig) ==> (m in a <==> m in b)
    ensures Materialize(orig, a, userId) == Materialize(orig, b, userId)
  {
    var ca, cb := SortById(AmendmentsOf(a, orig.id)), SortById(AmendmentsOf(b, orig.id));
    AmendmentsFacts(a, orig.id);
    AmendmentsFacts(b, orig.id);
    AmendmentsDistinct(a, orig.id);
    AmendmentsDistinct(b, orig.id);
    SortFacts(AmendmentsOf(a, orig.id));
    SortFacts(AmendmentsOf(b, orig.id));
    AuthorizedOnlyFacts(ca, orig);
    AuthorizedOnlyFacts(cb, orig);
    AscendingIdsUnique(AuthorizedOnly(ca, orig), AuthorizedOnly(cb, orig));
    UnauthorizedSkipped(FreshBubble(orig, userId), orig, ca);
    UnauthorizedSkipped(FreshBubble(orig, userId), orig, cb);
  }

  /** Up to and including the authorized delete `d`. */
  function UpToDelete(chain: seq<Msg>, d: Msg): seq<Msg>
  {
    if chain == [] then [] else if chain[0] == d then [d] else [chain[0]] + UpToDelete(chain[1..], d)
  }

  lemma {:induction false} DeleteCuts(base: Bubble, orig: Msg, chain: seq<Msg>, d: Msg)
    requires d in chain && d.inner.Amendment? && Deletes(d, orig)
    ensures ApplyChain(base, orig, chain) == ApplyChain(base, orig, UpToDelete(chain, d))
    ensures var r := ApplyChain(base, orig, chain); r.deleted && r.text == "" && r.media == None
    decreases chain
  {
    var am := chain[0];
    if am != d {
      var cut := UpToDelete(chain, d);
      assert cut[0] == am && cut[1..] == UpToDelete(chain[1..], d);
      if am.inner.Amendment? && Edits(am, orig, base) && !Deletes(am, orig) {
        DeleteCuts(base.(text := am.inner.newBody.value, editedAt := Some(am.timestamp)), orig, chain[1..], d);
      } else {
        DeleteCuts(base, orig, chain[1..], d);
      }
    }
  }

  lemma {:induction false} UpToDeleteFacts(chain: seq<Msg>, d: Msg)
    requires AscendingIds(chain) && d in chain
    ensures AscendingIds(UpToDelete(chain, d))
    ensures forall m :: m in UpToDelete(chain, d) <==> m in chain && (m == d || Less(m.id, d.id))
  {
    if chain[0] == d {
      forall m | m in chain && Less(m.id, d.id) ensures m == d {
        var i :| 0 <= i < |chain| && chain[i] == m;
        if i > 0 { LessAsymmetric(d.id, m.id); }
      }
      assert forall m :: m in [d] <==> m == d;
    } else {
      UpToDeleteFacts(chain[1..], d);
      var rest := UpToDelete(chain[1..], d);
      assert forall m :: m in chain <==> m == chain[0] || m in chain[1..];
      assert forall j :: 0 <= j < |rest| ==> rest[j] in rest && rest[j] in chain[1..];
      assert UpToDelete(chain, d) == [chain[0]] + rest;
      assert Less(chain[0].id, d.id);
    }
  }

  /** Delete is final: once an authorized delete is stored the bubble is a placeholder, and no
      amendment with a larger id changes it any more. */
  lemma DeleteIsFinal(orig: Msg, a: seq<Msg>, b: seq<Msg>, d: Msg, userId: string)
    requires IsOriginal(orig) && DistinctIds(a) && DistinctIds(b)
    requires d in a && d in b && Amends(d, orig.id) && Deletes(d, orig)
    requires forall m :: Amends(m, orig.id) && Less(m.id, d.id) ==> (m in a <==> m in b)
    ensures Materialize(orig, a, userId) == Materialize(orig, b, userId)
    ensures var r := Materialize(orig, a, userId); r.deleted && r.text == "" && r.media == None
  {
    var ca, cb := SortById(AmendmentsOf(a, orig.id)), SortById(AmendmentsOf(b, orig.id));
    AmendmentsFacts(a, orig.id);
    AmendmentsFacts(b, orig.id);
    AmendmentsDistinct(a, orig.id);
    AmendmentsDistinct(b, orig.id);
    SortFacts(AmendmentsOf(a, orig.id));
    SortFacts(AmendmentsOf(b, orig.id));
    UpToDeleteFacts(ca, d);
    UpToDeleteFacts(cb, d);
    AscendingIdsUnique(UpToDelete(ca, d), UpToDelete(cb, d));
    DeleteCuts(FreshBubble(orig, userId), orig, ca, d);
    DeleteCuts(FreshBubble(orig, userId), orig, cb, d);
  }

  // ---- edits ----

  /** A well-formed edit by the original's sender. */
  predicate IsEdit(m: Msg, orig: Msg)
  {
    && m.inner.Amendment? && m.inner.target == orig.id && m.fromUser == orig.fromUser
    && m.inner.action == "edit" && m.inner.newBody.Some?
  }

  predicate IsDelete(m: Msg, orig: Msg)
  {
    m.inner.Amendment? && m.inner.target == orig.id && m.fromUser == orig.fromUser && m.inner.action == "delete"
  }

  /** The edit a bubble shows: the one with the greatest id, except that the first edit to empty
      a media caption shuts out all later ones. */
  predicate Decides(e: Msg, orig: Msg, msgs: seq<Msg>)
  {
    && e in msgs && IsEdit(e, orig)
    && (forall m :: m in msgs && IsEdit(m, orig) && m != e ==>
          Less(m.id, e.id) || (orig.inner.Media? && e.inner.newBody.value == ""))
    && (forall m :: m in msgs && IsEdit(m, orig) && m != e && orig.inner.Media? && m.inner.newBody.value == "" ==>
          e.inner.newBody.value == "" && Less(e.id, m.id))
  }

  predicate Frozen(base: Bubble)
  {
    base.media.Some? && base.text == ""
  }

  lemma HeadBelow(chain: seq<Msg>)
    requires chain != [] && AscendingIds(chain)
    ensures AscendingIds(chain[1..])
    ensures forall m :: m in chain <==> m == chain[0] || m in chain[1..]
    ensures forall m :: m in chain[1..] ==> Less(chain[0].id, m.id)
  {
    var rest := chain[1..];
    forall m | m in rest ensures Less(chain[0].id, m.id) {
      var j :| 0 <= j < |rest| && rest[j] == m;
      assert chain[j + 1] == m;
    }
  }

  lemma DecidesFirst(orig: Msg, chain: seq<Msg>)
    requires chain != [] && AscendingIds(chain) && IsEdit(chain[0], orig)
    requires (orig.inner.Media? && chain[0].inner.newBody.value == "")
             || forall m :: m in chain[1..] ==> !IsEdit(m, orig)
    ensures Decides(chain[0], orig, chain)
  {
    HeadBelow(chain);
  }

  lemma DecidesLater(e: Msg, orig: Msg, chain: seq<Msg>)
    requires chain != [] && AscendingIds(chain) && Decides(e, orig, chain[1..])
    requires IsEdit(chain[0], orig) && orig.inner.Media? ==> chain[0].inner.newBody.value != ""
    ensures Decides(e, orig, chain)
  {
    HeadBelow(chain);
  }

  ghost predicate Shows(r: Bubble, e: Msg, orig: Msg, chain: seq<Msg>)
  {
    Decides(e, orig, chain) && r.text == e.inner.newBody.value && r.editedAt == Some(e.timestamp)
  }

  ghost predicate NoEdit(chain: seq<Msg>, orig: Msg)
  {
    forall m :: m in chain ==> !IsEdit(m, orig)
  }

  /** Over a sorted chain without a delete, starting from any bubble. */
  lemma {:induction false} ChainDecides(base: Bubble, orig: Msg, chain: seq<Msg>) returns (e: Msg)
    requires AscendingIds(chain) && base.media.Some? == orig.inner.Media?
    requires forall m :: m in chain ==> Amends(m, orig.id) && !IsDelete(m, orig)
    ensures var r := ApplyChain(base, orig, chain);
            && r.media == base.media && r.deleted == base.deleted
            && (if Frozen(base) || NoEdit(chain, orig) then r == base else Shows(r, e, orig, chain))
    decreases chain
  {
    e := orig;
    if chain != [] {
      HeadBelow(chain);
      var am, rest := chain[0], chain[1..];
      if IsEdit(am, orig) && !Frozen(base) {
        var edited := base.(text := am.inner.newBody.value, editedAt := Some(am.timestamp));
        e := ChainDecides(edited, orig, rest);
        if Frozen(edited) || NoEdit(rest, orig) {
          e := am;
          DecidesFirst(orig, chain);
        } else {
          DecidesLater(e, orig, chain);
        }
      } else {
        e := ChainDecides(base, orig, rest);
        if !Frozen(base) && !NoEdit(rest, orig) { DecidesLater(e, orig, chain); }
      }
    }
  }

  lemma SameDecides(e: Msg, orig: Msg, a: seq<Msg>, b: seq<Msg>)
    requires Decides(e, orig, a) && forall m :: IsEdit(m, orig) ==> (m in a <==> m in b)
    ensures Decides(e, orig, b)
  {
  }

  /** Without a delete by its sender, a bubble shows its own text and file, or the deciding edit
      and its time. A media message without caption ignores edits. */
  lemma ShowsDecidingEdit(orig: Msg, msgs: seq<Msg>, userId: string)
    requires IsOriginal(orig) && DistinctIds(msgs)
    requires forall m :: m in msgs ==> !IsDelete(m, orig)
    ensures var r := Materialize(orig, msgs, userId);
            var own := if orig.inner.Text? then orig.inner.body else orig.inner.caption;
            && !r.deleted && r.media == (if orig.inner.Media? then Some(orig.inner.file) else None)
            && (if (orig.inner.Media? && own == "") || NoEdit(msgs, orig) then r.text == own && r.editedAt == None
                else exists e :: Shows(r, e, orig, msgs))
  {
    var chain := SortById(AmendmentsOf(msgs, orig.id));
    AmendmentsFacts(msgs, orig.id);
    AmendmentsDistinct(msgs, orig.id);
    SortFacts(AmendmentsOf(msgs, orig.id));
    var e := ChainDecides(FreshBubble(orig, userId), orig, chain);
    assert forall m :: IsEdit(m, orig) ==> (m in chain <==> m in msgs);
    assert NoEdit(chain, orig) <==> NoEdit(msgs, orig);
    if !Frozen(FreshBubble(orig, userId)) && !NoEdit(chain, orig) {
      SameDecides(e, orig, chain, msgs);
      assert Shows(Materialize(orig, msgs, userId), e, orig, msgs);
    }
  }
}
