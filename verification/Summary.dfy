/** The conversation list's summary, recomputed from a full history, and its agreement with the
    last bubble the chat renders. */
module Summary {
  import opened Wrappers
  import opened Lex
  import opened Chat

  /** What a row shows. A deleted message leaves empty text. */
  datatype Summary = Summary(text: Inner, timestamp: int, deleted: bool)

  /** Later by timestamp, ties broken by id. */
  predicate Later(m: Msg, than: Msg)
  {
    m.timestamp > than.timestamp || (m.timestamp == than.timestamp && Less(than.id, m.id))
  }

  function Latest(originals: seq<Msg>): Msg
    requires originals != []
  {
    var n := |originals| - 1;
    if n == 0 then originals[0]
    else
      var l := Latest(originals[..n]);
      if Later(originals[n], l) then originals[n] else l
  }

  /** The amendment chain as the summary reads it: deleted or not, and the last edit that moves
      a text preview. */
  function ReadChain(orig: Msg, chain: seq<Msg>, edited: Option<string>): (bool, Option<string>)
    decreases chain
  {
    if chain == [] then (false, edited)
    else
      var am := chain[0];
      if !am.inner.Amendment? || am.fromUser != orig.fromUser then ReadChain(orig, chain[1..], edited)
      else if am.inner.action == "delete" then (true, edited)
      else if am.inner.action == "edit" && am.inner.newBody.Some? && orig.inner.Text?
      then ReadChain(orig, chain[1..], am.inner.newBody)
      else ReadChain(orig, chain[1..], edited)
  }

  function Summarized(orig: Msg, chain: seq<Msg>): Summary
  {
    var (deleted, edited) := ReadChain(orig, chain, None);
    if deleted then Summary(Text(""), orig.timestamp, true)
    else Summary(if edited.Some? then Text(edited.value) else orig.inner, orig.timestamp, false)
  }

  function Summarize(msgs: seq<Msg>): Option<Summary>
  {
    var originals := Originals(msgs);
    if originals == [] then None
    else
      var l := Latest(originals);
      Some(Summarized(l, SortById(AmendmentsOf(msgs, l.id))))
  }

  // ---- the loops ----

  method FindLatest(originals: seq<Msg>) returns (latest: Msg)
    requires originals != []
    ensures latest == Latest(originals)
  {
    latest := originals[0];
    var i := 1;
    while i < |originals|
      invariant 1 <= i <= |originals|
      invariant latest == Latest(originals[..i])
    {
      assert originals[..i + 1][..i] == originals[..i];
      if Later(originals[i], latest) { latest := originals[i]; }
      i := i + 1;
    }
    assert originals[..i] == originals;
  }

  method FollowChain(latest: Msg, chain: seq<Msg>) returns (deleted: bool, editedBody: Option<string>)
    ensures (deleted, editedBody) == ReadChain(latest, chain, None)
  {
    deleted, editedBody := false, None;
    var i := 0;
    while i < |chain|
      invariant 0 <= i <= |chain| && !deleted
      invariant ReadChain(latest, chain, None) == ReadChain(latest, chain[i..], editedBody)
    {
      assert chain[i..][0] == chain[i] && chain[i..][1..] == chain[i + 1..];
      var am := chain[i];
      i := i + 1;
      if !am.inner.Amendment? { continue; }
      if am.fromUser != latest.fromUser { continue; }
      if am.inner.action == "delete" {
        deleted := true;
        break;
      }
      if am.inner.action == "edit" && am.inner.newBody.Some? && latest.inner.Text? {
        editedBody := am.inner.newBody;
      }
    }
  }

  method SummarizeConversation(msgs: seq<Msg>) returns (summary: Option<Summary>)
    ensures summary == Summarize(msgs)
  {
    var originals, amendmentsByTarget := Partition(msgs);
    if |originals| == 0 { return None; }
    var latest := FindLatest(originals);
    var chain := SortById(if latest.id in amendmentsByTarget then amendmentsByTarget[latest.id] else []);
    var deleted, editedBody := FollowChain(latest, chain);
    if deleted {
      return Some(Summary(Text(""), latest.timestamp, true));
    }
    return Some(Summary(if editedBody.Some? then Text(editedBody.value) else latest.inner, latest.timestamp, false));
  }

  // ---- agreement with the chat ----

  lemma {:induction false} ChainAgrees(base: Bubble, orig: Msg, chain: seq<Msg>, edited: Option<string>)
    requires IsOriginal(orig) && !base.deleted
    requires orig.inner.Text? ==> base.media.None? && base.text == edited.GetOr(orig.inner.body)
    ensures var b := ApplyChain(base, orig, chain);
            var (deleted, edited') := ReadChain(orig, chain, edited);
            && b.deleted == deleted
            && (deleted ==> b.text == "")
            && (!deleted && orig.inner.Text? ==> b.text == edited'.GetOr(orig.inner.body))
    decreases chain
  {
    if chain != [] && !(chain[0].inner.Amendment? && Deletes(chain[0], orig)) {
      var am := chain[0];
      if am.inner.Amendment? && Edits(am, orig, base) {
        ChainAgrees(base.(text := am.inner.newBody.value, editedAt := Some(am.timestamp)), orig, chain[1..],
                    if orig.inner.Text? then am.inner.newBody else edited);
      } else {
        ChainAgrees(base, orig, chain[1..], edited);
      }
    }
  }

  /** The order the message index yields. */
  ghost predicate InOrder(msgs: seq<Msg>)
  {
    forall i, j :: 0 <= i < j < |msgs| ==> Later(msgs[j], msgs[i])
  }

  lemma {:induction false} OriginalsInOrder(msgs: seq<Msg>)
    requires InOrder(msgs)
    ensures InOrder(Originals(msgs))
  {
    if msgs != [] {
      var n := |msgs| - 1;
      OriginalsInOrder(msgs[..n]);
      OriginalsFacts(msgs[..n]);
      var before := Originals(msgs[..n]);
      assert forall i :: 0 <= i < |before| ==> before[i] in before && before[i] in msgs[..n];
    }
  }

  lemma {:induction false} LatestIsLast(s: seq<Msg>)
    requires s != [] && InOrder(s)
    ensures Latest(s) == s[|s| - 1]
  {
    if |s| > 1 { LatestIsLast(s[..|s| - 1]); }
  }

  /** A summary and a bubble tell the same story of one original. */
  ghost predicate Describes(summary: Summary, bubble: Bubble, orig: Msg)
  {
    && summary.timestamp == bubble.timestamp && summary.deleted == bubble.deleted
    && summary.text ==
         if bubble.deleted then Text("") else if orig.inner.Text? then Text(bubble.text) else orig.inner
  }

  lemma SummarizedDescribes(orig: Msg, chain: seq<Msg>, userId: string)
    requires IsOriginal(orig)
    ensures Describes(Summarized(orig, chain), ApplyChain(FreshBubble(orig, userId), orig, chain), orig)
  {
    ChainAgrees(FreshBubble(orig, userId), orig, chain, None);
    ApplyChainKeeps(FreshBubble(orig, userId), orig, chain);
    if orig.inner.Media? { MediaNeverEdited(orig, chain, None); }
    var b := ApplyChain(FreshBubble(orig, userId), orig, chain);
    var r := ReadChain(orig, chain, None);
    assert !r.0 && orig.inner.Text? && r.1.None? ==> b.text == orig.inner.body;
  }

  /** For any history in (timestamp, id) order with an original in it, the summary describes the
      last bubble the chat renders: same message and timestamp, same deleted flag, and for a
      text message the same text after all authorized edits. */
  lemma SummaryMatchesLastBubble(msgs: seq<Msg>, userId: string)
    requires InOrder(msgs) && Originals(msgs) != []
    ensures var bubbles := ToMessages(msgs, userId);
            var orig := Originals(msgs)[|Originals(msgs)| - 1];
            && |bubbles| == |Originals(msgs)| && Summarize(msgs).Some?
            && bubbles[|bubbles| - 1].id == orig.id
            && Describes(Summarize(msgs).value, bubbles[|bubbles| - 1], orig)
  {
    OriginalsFacts(msgs);
    var originals := Originals(msgs);
    RendersOriginalsInOrder(msgs, userId);
    OriginalsInOrder(msgs);
    LatestIsLast(originals);
    var orig := originals[|originals| - 1];
    SummarizedDescribes(orig, SortById(AmendmentsOf(msgs, orig.id)), userId);
  }

  lemma {:induction false} MediaNeverEdited(orig: Msg, chain: seq<Msg>, edited: Option<string>)
    requires !orig.inner.Text?
    ensures ReadChain(orig, chain, edited).1 == edited
  {
    if chain != [] { MediaNeverEdited(orig, chain[1..], edited); }
  }

  // ---- the summary depends only on what is stored ----

  lemma LaterTransitive(a: Msg, b: Msg, c: Msg)
    requires Later(a, b) && Later(b, c)
    ensures Later(a, c)
  {
    if a.timestamp == c.timestamp { LessTransitive(c.id, b.id, a.id); }
  }

  lemma {:induction false} LatestIsMax(s: seq<Msg>)
    requires s != [] && DistinctIds(s)
    ensures Latest(s) in s && forall m :: m in s ==> m == Latest(s) || Later(Latest(s), m)
  {
    var n := |s| - 1;
    assert forall m :: m in s <==> m in s[..n] || m == s[n];
    if n > 0 {
      LatestIsMax(s[..n]);
      var l := Latest(s[..n]);
      LessTotal(l.id, s[n].id);
      if Later(s[n], l) {
        forall m | m in s[..n] ensures Later(s[n], m) {
          if m != l { LaterTransitive(s[n], l, m); }
        }
      }
    }
  }

  lemma LatestUnordered(a: seq<Msg>, b: seq<Msg>)
    requires a != [] && b != [] && DistinctIds(a) && DistinctIds(b)
    requires forall m :: m in a <==> m in b
    ensures Latest(a) == Latest(b)
  {
    LatestIsMax(a);
    LatestIsMax(b);
    if Latest(a) != Latest(b) { LessAsymmetricWhen(Latest(a), Latest(b)); }
  }

  lemma LessAsymmetricWhen(a: Msg, b: Msg)
    ensures !(Later(a, b) && Later(b, a))
  {
    if Less(a.id, b.id) { LessAsymmetric(a.id, b.id); }
  }

  lemma {:induction false} OriginalsDistinct(msgs: seq<Msg>)
    requires DistinctIds(msgs)
    ensures DistinctIds(Originals(msgs))
  {
    if msgs != [] {
      var n := |msgs| - 1;
      OriginalsDistinct(msgs[..n]);
      OriginalsFacts(msgs[..n]);
      var before := Originals(msgs[..n]);
      assert forall i :: 0 <= i < |before| ==> before[i] in before;
    }
  }

  /** The summary is a function of the set of stored messages, whatever order they are read in. */
  lemma SummarizeUnordered(a: seq<Msg>, b: seq<Msg>)
    requires DistinctIds(a) && DistinctIds(b)
    requires forall m :: m in a <==> m in b
    ensures Summarize(a) == Summarize(b)
  {
    OriginalsFacts(a);
    OriginalsFacts(b);
    OriginalsDistinct(a);
    OriginalsDistinct(b);
    SomeElement(Originals(a));
    SomeElement(Originals(b));
    if Originals(a) != [] && Originals(b) != [] {
      LatestUnordered(Originals(a), Originals(b));
      ChainUnordered(a, b, Latest(Originals(a)).id);
    }
  }
}
