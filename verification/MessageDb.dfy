/** The message store and its per-conversation rows: `saveMessages` keeps the rows up to date
    incrementally, and they must equal what a recomputation from the full history would give. */
module MessageDb {
  import opened Wrappers
  import opened Lex
  import opened Chat
  import opened Summary

  datatype Row = Row(text: Inner, timestamp: int, deleted: bool, count: nat)

  type Rows = map<string, Row>

  /** What a batch says about one conversation: its newest original so far, and how many. */
  datatype Update = Update(text: Inner, ts: int, count: nat)

  // ---- what saving does ----

  function AddUpdate(updates: map<string, Update>, m: Msg): map<string, Update>
  {
    if m.inner.Amendment? then updates
    else if m.conversation !in updates then updates[m.conversation := Update(m.inner, m.timestamp, 1)]
    else
      var prev := updates[m.conversation];
      updates[m.conversation :=
        if m.timestamp > prev.ts then Update(m.inner, m.timestamp, prev.count + 1) else prev.(count := prev.count + 1)]
  }

  function Updates(batch: seq<Msg>): map<string, Update>
  {
    if batch == [] then map[] else AddUpdate(Updates(batch[..|batch| - 1]), batch[|batch| - 1])
  }

  function AmendedConversations(batch: seq<Msg>): set<string>
  {
    set m | m in batch && m.inner.Amendment? :: m.conversation
  }

  /** `put`: replace the record with this id, or add one. */
  function Put(table: seq<Msg>, m: Msg): seq<Msg>
  {
    if table == [] then [m]
    else if table[0].id == m.id then [m] + table[1..]
    else [table[0]] + Put(table[1..], m)
  }

  function PutAll(table: seq<Msg>, batch: seq<Msg>): seq<Msg>
  {
    if batch == [] then table else Put(PutAll(table, batch[..|batch| - 1]), batch[|batch| - 1])
  }

  function InConversation(table: seq<Msg>, c: string): seq<Msg>
  {
    if table == [] then []
    else
      var n := |table| - 1;
      InConversation(table[..n], c) + (if table[n].conversation == c then [table[n]] else [])
  }

  function Updated(existing: Option<Row>, u: Update): Row
  {
    var keepExisting := existing.Some? && existing.value.timestamp > u.ts;
    var before := if existing.Some? then existing.value.timestamp else 0;
    Row(if keepExisting then existing.value.text else u.text,
        if before > u.ts then before else u.ts,
        keepExisting && existing.value.deleted,
        (if existing.Some? then existing.value.count else 0) + u.count)
  }

  function RowOf(rows: Rows, c: string): Option<Row>
  {
    if c in rows then Some(rows[c]) else None
  }

  function Written(rows: Rows, updates: map<string, Update>): Rows
  {
    map c | c in rows.Keys + updates.Keys :: if c in updates then Updated(RowOf(rows, c), updates[c]) else rows[c]
  }

  function Recomputed(rows: Rows, table: seq<Msg>, amended: set<string>): Rows
  {
    map c | c in rows ::
      var s := Summarize(InConversation(table, c));
      if c in amended && s.Some? then Row(s.value.text, s.value.timestamp, s.value.deleted, rows[c].count) else rows[c]
  }

  function RowsAfter(rows: Rows, table: seq<Msg>, batch: seq<Msg>): Rows
  {
    Recomputed(Written(rows, Updates(batch)), PutAll(table, batch), AmendedConversations(batch))
  }

  lemma RecomputedAlso(rows: Rows, table: seq<Msg>, amended: set<string>, c: string)
    ensures Recomputed(Recomputed(rows, table, amended), table, {c}) == Recomputed(rows, table, amended + {c})
  {
  }

  // ---- the method ----

  class Db {
    var messages: seq<Msg>
    var rows: Rows

    constructor ()
      ensures messages == [] && rows == map[]
    {
      messages, rows := [], map[];
    }

    method Group(batch: seq<Msg>) returns (convUpdates: map<string, Update>, amendedConvs: set<string>)
      ensures convUpdates == Updates(batch) && amendedConvs == AmendedConversations(batch)
    {
      convUpdates, amendedConvs := map[], {};
      var i := 0;
      while i < |batch|
        invariant i <= |batch|
        invariant convUpdates == Updates(batch[..i]) && amendedConvs == AmendedConversations(batch[..i])
      {
        assert batch[..i + 1][..i] == batch[..i] && batch[..i + 1] == batch[..i] + [batch[i]];
        var msg := batch[i];
        i := i + 1;
        if msg.inner.Amendment? {
          amendedConvs := amendedConvs + {msg.conversation};
          continue;
        }
        if msg.conversation !in convUpdates {
          convUpdates := convUpdates[msg.conversation := Update(msg.inner, msg.timestamp, 1)];
        } else {
          var prev := convUpdates[msg.conversation];
          if msg.timestamp > prev.ts {
            convUpdates := convUpdates[msg.conversation := Update(msg.inner, msg.timestamp, prev.count + 1)];
          } else {
            convUpdates := convUpdates[msg.conversation := prev.(count := prev.count + 1)];
          }
        }
      }
      assert batch[..i] == batch;
    }

    /** Writes the updated rows one conversation at a time. */
    method WriteRows(convUpdates: map<string, Update>)
      modifies this`rows
      ensures rows == Written(old(rows), convUpdates)
    {
      var left := convUpdates.Keys;
      while left != {}
        invariant left <= convUpdates.Keys
        invariant rows == Written(old(rows), map c | c in convUpdates && c !in left :: convUpdates[c])
        decreases left
      {
        var c :| c in left;
        rows := rows[c := Updated(RowOf(rows, c), convUpdates[c])];
        left := left - {c};
      }
      assert (map c | c in convUpdates && c !in left :: convUpdates[c]) == convUpdates;
    }

    /** Recomputes the rows of the amended conversations from their full history. */
    method RecomputeAmendedSummaries(convIds: set<string>)
      modifies this`rows
      ensures rows == Recomputed(old(rows), messages, convIds)
    {
      var left := convIds;
      while left != {}
        invariant left <= convIds
        invariant rows == Recomputed(old(rows), messages, convIds - left)
        decreases left
      {
        var c :| c in left;
        RecomputedAlso(old(rows), messages, convIds - left, c);
        left := left - {c};
        RecomputeSummary(c);
        assert convIds - left == convIds - (left + {c}) + {c};
      }
      assert convIds - left == convIds;
    }

    method RecomputeSummary(c: string)
      modifies this`rows
      ensures rows == Recomputed(old(rows), messages, {c})
    {
      if c !in rows { return; }
      var history := History(c);
      var summary := SummarizeConversation(history);
      if summary.None? { return; }
      var s, current := summary.value, rows[c];
      if s.text == current.text && s.timestamp == current.timestamp && s.deleted == current.deleted { return; }
      rows := rows[c := Row(s.text, s.timestamp, s.deleted, current.count)];
    }

    method History(c: string) returns (history: seq<Msg>)
      ensures history == InConversation(messages, c)
    {
      history := [];
      var i := 0;
      while i < |messages|
        invariant i <= |messages| && history == InConversation(messages[..i], c)
      {
        assert messages[..i + 1][..i] == messages[..i];
        if messages[i].conversation == c { history := history + [messages[i]]; }
        i := i + 1;
      }
      assert messages[..i] == messages;
    }

    method SaveMessages(batch: seq<Msg>)
      modifies this
      ensures messages == PutAll(old(messages), batch)
      ensures rows == RowsAfter(old(rows), old(messages), batch)
    {
      if |batch| == 0 { return; }
      var convUpdates, amendedConvs := Group(batch);
      var i := 0;
      while i < |batch|
        invariant i <= |batch| && messages == PutAll(old(messages), batch[..i]) && rows == old(rows)
      {
        assert batch[..i + 1][..i] == batch[..i];
        messages := Put(messages, batch[i]);
        i := i + 1;
      }
      assert batch[..i] == batch;
      WriteRows(convUpdates);
      if amendedConvs != {} {
        RecomputeAmendedSummaries(amendedConvs);
      }
    }
  }

  // ---- the rows equal a recomputation ----

  /** The row a full recomputation would give this conversation. */
  function Recomputation(history: seq<Msg>): Option<Row>
  {
    RowFrom(Summarize(history), |Originals(history)|)
  }

  function RowFrom(summary: Option<Summary>, count: nat): Option<Row>
  {
    match summary
    case None => None
    case Some(s) => Some(Row(s.text, s.timestamp, s.deleted, count))
  }

  lemma SummaryExists(history: seq<Msg>)
    ensures Summarize(history).Some? <==> Originals(history) != []
  {
  }

  lemma SummaryTime(history: seq<Msg>)
    requires Originals(history) != []
    ensures Summarize(history).Some?
    ensures Summarize(history).value.timestamp == Latest(Originals(history)).timestamp
  {
  }

  ghost predicate FaithfulIn(rows: Rows, table: seq<Msg>, c: string)
  {
    RowOf(rows, c) == Recomputation(InConversation(table, c))
  }

  ghost predicate Faithful(rows: Rows, table: seq<Msg>)
  {
    forall c :: FaithfulIn(rows, table, c)
  }

  /** An id names one message. */
  ghost predicate OneMessagePerId(all: seq<Msg>)
  {
    forall m, n :: m in all && n in all && m.id == n.id ==> m == n
  }

  /** Message `i` of the batch is already stored, or stands in the batch before. */
  predicate Repeats(table: seq<Msg>, batch: seq<Msg>, i: nat)
    requires i < |batch|
  {
    batch[i] in table || batch[i] in batch[..i]
  }

  /** The messages of the batch that are new. */
  function New(table: seq<Msg>, batch: seq<Msg>): seq<Msg>
  {
    if batch == [] then []
    else
      var n := |batch| - 1;
      New(table, batch[..n]) + (if Repeats(table, batch, n) then [] else [batch[n]])
  }

  lemma {:induction false} PutStored(table: seq<Msg>, i: nat)
    requires DistinctIds(table) && i < |table|
    ensures Put(table, table[i]) == table
  {
    assert [table[0]] + table[1..] == table;
    if i > 0 {
      assert table[0].id != table[i].id && table[1..][i - 1] == table[i];
      PutStored(table[1..], i - 1);
    }
  }

  lemma {:induction false} PutFresh(table: seq<Msg>, m: Msg)
    requires forall x :: x in table ==> x.id != m.id
    ensures Put(table, m) == table + [m]
  {
    if table != [] { PutFresh(table[1..], m); }
  }

  lemma {:induction false} NewFacts(table: seq<Msg>, batch: seq<Msg>)
    ensures forall m :: m in New(table, batch) <==> m in batch && m !in table
  {
    if batch != [] {
      var n := |batch| - 1;
      NewFacts(table, batch[..n]);
      assert forall m :: m in batch <==> m in batch[..n] || m == batch[n];
    }
  }

  /** The last record of its id in the batch. */
  ghost predicate LastOfId(batch: seq<Msg>, m: Msg)
  {
    exists i :: 0 <= i < |batch| && batch[i] == m && forall j :: i < j < |batch| ==> batch[j].id != m.id
  }

  ghost predicate NamesId(batch: seq<Msg>, id: string)
  {
    exists i :: 0 <= i < |batch| && batch[i].id == id
  }

  lemma {:induction false} PutRecords(table: seq<Msg>, m: Msg)
    requires DistinctIds(table)
    ensures DistinctIds(Put(table, m))
    ensures forall x :: x in Put(table, m) <==> x == m || (x in table && x.id != m.id)
  {
    if table != [] {
      var rest := table[1..];
      assert forall i :: 0 <= i < |rest| ==> rest[i].id != table[0].id;
      assert forall x :: x in table <==> x == table[0] || x in rest;
      if table[0].id == m.id {
        assert forall x :: x in [m] + rest <==> x == m || x in rest;
      } else {
        PutRecords(rest, m);
        var r := Put(rest, m);
        assert forall i :: 0 <= i < |r| ==> r[i] in r;
        assert forall x :: x in Put(table, m) <==> x == table[0] || x in r;
      }
    }
  }

  /** After a save each id of the batch has its last record there, whatever was stored under it,
      and every other record stands. */
  lemma {:induction false} SavedRecords(table: seq<Msg>, batch: seq<Msg>)
    requires DistinctIds(table)
    ensures DistinctIds(PutAll(table, batch))
    ensures forall x :: x in PutAll(table, batch) <==> LastOfId(batch, x) || (x in table && !NamesId(batch, x.id))
  {
    if batch != [] {
      var n := |batch| - 1;
      SavedRecords(table, batch[..n]);
      PutRecords(PutAll(table, batch[..n]), batch[n]);
      forall x ensures LastOfId(batch, x) <==> x == batch[n] || (LastOfId(batch[..n], x) && x.id != batch[n].id) {
        LastOfNext(batch, x);
      }
      forall id ensures NamesId(batch, id) <==> id == batch[n].id || NamesId(batch[..n], id) {
        NamesNext(batch, id);
      }
    }
  }

  lemma LastOfLonger(batch: seq<Msg>, x: Msg)
    requires batch != [] && LastOfId(batch, x) && x != batch[|batch| - 1]
    ensures LastOfId(batch[..|batch| - 1], x) && x.id != batch[|batch| - 1].id
  {
    var n := |batch| - 1;
    var i :| 0 <= i < |batch| && batch[i] == x && forall j :: i < j < |batch| ==> batch[j].id != x.id;
    assert batch[..n][i] == x;
    assert forall j :: i < j < n ==> batch[..n][j] == batch[j];
  }

  lemma LastOfShorter(batch: seq<Msg>, x: Msg)
    requires batch != [] && LastOfId(batch[..|batch| - 1], x) && x.id != batch[|batch| - 1].id
    ensures LastOfId(batch, x)
  {
    var n := |batch| - 1;
    var rest := batch[..n];
    var i :| 0 <= i < n && rest[i] == x && forall j :: i < j < n ==> rest[j].id != x.id;
    assert forall j :: 0 <= j < n ==> batch[j] == rest[j];
  }

  lemma LastOfNext(batch: seq<Msg>, x: Msg)
    requires batch != []
    ensures LastOfId(batch, x) <==>
              || x == batch[|batch| - 1]
              || (LastOfId(batch[..|batch| - 1], x) && x.id != batch[|batch| - 1].id)
  {
    var n := |batch| - 1;
    if LastOfId(batch, x) && x != batch[n] { LastOfLonger(batch, x); }
    if LastOfId(batch[..n], x) && x.id != batch[n].id { LastOfShorter(batch, x); }
  }

  lemma NamesNext(batch: seq<Msg>, id: string)
    requires batch != []
    ensures NamesId(batch, id) <==> id == batch[|batch| - 1].id || NamesId(batch[..|batch| - 1], id)
  {
    var n := |batch| - 1;
    if NamesId(batch[..n], id) {
      var i :| 0 <= i < n && batch[..n][i].id == id;
      assert batch[i].id == id;
    }
    if NamesId(batch, id) && id != batch[n].id {
      var i :| 0 <= i < |batch| && batch[i].id == id;
      assert batch[..n][i].id == id;
    }
  }

  lemma PutOne(table: seq<Msg>, m: Msg)
    requires DistinctIds(table) && forall x :: x in table && x.id == m.id ==> x == m
    ensures Put(table, m) == (if m in table then table else table + [m]) && DistinctIds(Put(table, m))
  {
    if m in table {
      var i :| 0 <= i < |table| && table[i] == m;
      PutStored(table, i);
    } else {
      PutFresh(table, m);
    }
  }

  lemma PutNext(table: seq<Msg>, batch: seq<Msg>)
    requires batch != [] && OneMessagePerId(table + batch)
    requires DistinctIds(table + New(table, batch[..|batch| - 1]))
    ensures var before := table + New(table, batch[..|batch| - 1]);
            Put(before, batch[|batch| - 1]) == table + New(table, batch) && DistinctIds(table + New(table, batch))
  {
    var n := |batch| - 1;
    var before := table + New(table, batch[..n]);
    NewFacts(table, batch[..n]);
    assert batch[n] in table + batch;
    forall x | x in before ensures x in table + batch {
      assert x in table || x in batch[..n];
    }
    PutOne(before, batch[n]);
    assert batch[n] in before <==> Repeats(table, batch, n);
    if Repeats(table, batch, n) {
      assert New(table, batch) == New(table, batch[..n]);
    } else {
      assert table + (New(table, batch[..n]) + [batch[n]]) == before + [batch[n]];
    }
  }

  /** Saving a message again changes nothing; saving new ones appends them. */
  lemma {:induction false} PutAllNew(table: seq<Msg>, batch: seq<Msg>)
    requires DistinctIds(table) && OneMessagePerId(table + batch)
    ensures PutAll(table, batch) == table + New(table, batch) && DistinctIds(PutAll(table, batch))
  {
    if batch == [] {
      assert table + [] == table;
    } else {
      var n := |batch| - 1;
      assert forall m :: m in table + batch[..n] ==> m in table + batch;
      PutAllNew(table, batch[..n]);
      PutNext(table, batch);
    }
  }

  lemma {:induction false} InConversationConcat(a: seq<Msg>, b: seq<Msg>, c: string)
    ensures InConversation(a + b, c) == InConversation(a, c) + InConversation(b, c)
  {
    if b == [] {
      assert a + b == a;
    } else {
      assert (a + b)[..|a| + |b| - 1] == a + b[..|b| - 1];
      InConversationConcat(a, b[..|b| - 1], c);
    }
  }

  lemma {:induction false} AmendmentsConcat(a: seq<Msg>, b: seq<Msg>, t: string)
    ensures AmendmentsOf(a + b, t) == AmendmentsOf(a, t) + AmendmentsOf(b, t)
  {
    if b == [] {
      assert a + b == a;
    } else {
      assert (a + b)[..|a| + |b| - 1] == a + b[..|b| - 1];
      AmendmentsConcat(a, b[..|b| - 1], t);
    }
  }

  lemma {:induction false} InConversationFacts(table: seq<Msg>, c: string)
    ensures forall m :: m in InConversation(table, c) <==> m in table && m.conversation == c
  {
    if table != [] {
      var n := |table| - 1;
      InConversationFacts(table[..n], c);
      assert forall m :: m in table <==> m in table[..n] || m == table[n];
    }
  }

  /** The originals of one conversation. */
  function OriginalsIn(all: seq<Msg>, c: string): seq<Msg>
  {
    Originals(InConversation(all, c))
  }

  // ---- what a batch says about a conversation ----

  /** What the grouping pass counts: everything but amendments. */
  function Counted(msgs: seq<Msg>): seq<Msg>
  {
    if msgs == [] then []
    else
      var n := |msgs| - 1;
      Counted(msgs[..n]) + (if msgs[n].inner.Amendment? then [] else [msgs[n]])
  }

  function Winner(counted: seq<Msg>): Msg
    requires counted != []
  {
    var n := |counted| - 1;
    if n == 0 then counted[0]
    else
      var w := Winner(counted[..n]);
      if counted[n].timestamp > w.timestamp then counted[n] else w
  }

  /** The grouping pass's winner is the first message, in batch order, with the greatest
      timestamp. */
  lemma {:induction false} WinnerIsFirstGreatest(counted: seq<Msg>)
    requires counted != []
    ensures exists i :: 0 <= i < |counted| && counted[i] == Winner(counted)
              && (forall j :: 0 <= j < i ==> counted[j].timestamp < counted[i].timestamp)
    ensures forall j :: 0 <= j < |counted| ==> counted[j].timestamp <= Winner(counted).timestamp
  {
    var n := |counted| - 1;
    if n == 0 {
      assert counted[0] == Winner(counted);
    } else {
      WinnerIsFirstGreatest(counted[..n]);
      assert forall j :: 0 <= j < n ==> counted[..n][j] == counted[j];
      if counted[n].timestamp > Winner(counted[..n]).timestamp {
        assert counted[n] == Winner(counted);
      } else {
        var i :| 0 <= i < n && counted[..n][i] == Winner(counted[..n])
              && (forall j :: 0 <= j < i ==> counted[..n][j].timestamp < counted[..n][i].timestamp);
        assert counted[i] == Winner(counted);
      }
    }
  }

  function UpdateOf(updates: map<string, Update>, c: string): Option<Update>
  {
    if c in updates then Some(updates[c]) else None
  }

  function Newest(counted: seq<Msg>): Option<Update>
  {
    if counted == [] then None
    else Some(Update(Winner(counted).inner, Winner(counted).timestamp, |counted|))
  }

  lemma NewestStep(o: seq<Msg>, m: Msg)
    ensures Newest(o + [m]) ==
      match Newest(o)
      case None => Some(Update(m.inner, m.timestamp, 1))
      case Some(u) =>
        Some(if m.timestamp > u.ts then Update(m.inner, m.timestamp, u.count + 1) else u.(count := u.count + 1))
  {
    assert (o + [m])[..|o|] == o;
  }

  lemma InConversationStep(all: seq<Msg>, c: string)
    requires all != []
    ensures var n := |all| - 1;
            Counted(InConversation(all, c)) == Counted(InConversation(all[..n], c))
              + if all[n].conversation == c && !all[n].inner.Amendment? then [all[n]] else []
  {
    var n := |all| - 1;
    var before := InConversation(all[..n], c);
    if all[n].conversation == c {
      assert InConversation(all, c)[..|before|] == before;
    } else {
      assert InConversation(all, c) == before && Counted(before) + [] == Counted(before);
    }
  }

  /** The grouping pass finds each conversation's winner and counts its messages. */
  lemma {:induction false} UpdateFacts(batch: seq<Msg>, c: string)
    ensures UpdateOf(Updates(batch), c) == Newest(Counted(InConversation(batch, c)))
  {
    if batch != [] {
      var n := |batch| - 1;
      UpdateFacts(batch[..n], c);
      InConversationStep(batch, c);
      var before := Counted(InConversation(batch[..n], c));
      assert before + [] == before;
      NewestStep(before, batch[n]);
    }
  }

  predicate NoUnknown(msgs: seq<Msg>)
  {
    forall m :: m in msgs ==> !m.inner.Unknown?
  }

  lemma {:induction false} CountedOriginals(msgs: seq<Msg>)
    ensures |Originals(msgs)| <= |Counted(msgs)|
    ensures |Originals(msgs)| == |Counted(msgs)| <==> NoUnknown(msgs)
    ensures NoUnknown(msgs) ==> Counted(msgs) == Originals(msgs)
  {
    if msgs != [] {
      CountedOriginals(msgs[..|msgs| - 1]);
      assert forall m :: m in msgs <==> m in msgs[..|msgs| - 1] || m == msgs[|msgs| - 1];
    }
  }

  // ---- what stored amendments do to an original ----

  /** A stored authorized delete. */
  predicate DeletedBy(h: seq<Msg>, orig: Msg)
  {
    exists am :: am in h && Amends(am, orig.id) && Deletes(am, orig)
  }

  /** A well-formed edit by the original's sender. */
  predicate IsEdit(am: Msg, orig: Msg)
  {
    Amends(am, orig.id) && am.fromUser == orig.fromUser && am.inner.action == "edit" && am.inner.newBody.Some?
  }

  predicate NewestEdit(h: seq<Msg>, orig: Msg, e: Msg)
  {
    e in h && IsEdit(e, orig) && forall o :: o in h && IsEdit(o, orig) ==> o == e || Less(o.id, e.id)
  }

  predicate HasEdit(h: seq<Msg>, orig: Msg)
  {
    exists am :: am in h && IsEdit(am, orig)
  }

  /** What a caller reads off the table: the newest edit of the text has this body, or there is
      no edit and the text itself has it; a media message shows itself. */
  ghost predicate Shows(h: seq<Msg>, orig: Msg, x: Inner)
  {
    if !orig.inner.Text? then x == orig.inner
    else if HasEdit(h, orig) then x.Text? && forall e :: NewestEdit(h, orig, e) ==> e.inner.newBody.value == x.body
    else x == orig.inner
  }

  lemma {:induction false} ReadChainFacts(orig: Msg, chain: seq<Msg>, edited: Option<string>)
    requires AscendingIds(chain) && forall am :: am in chain ==> Amends(am, orig.id)
    ensures var r := ReadChain(orig, chain, edited);
            && (r.0 <==> DeletedBy(chain, orig))
            && (!r.0 && orig.inner.Text? ==>
                  if HasEdit(chain, orig) then exists e :: NewestEdit(chain, orig, e) && r.1 == e.inner.newBody
                  else r.1 == edited)
    decreases chain
  {
    if chain != [] {
      var am, rest := chain[0], chain[1..];
      assert am in chain && Amends(am, orig.id);
      assert forall x :: x in chain <==> x == am || x in rest;
      var edited' := if IsEdit(am, orig) && orig.inner.Text? then am.inner.newBody else edited;
      ReadChainFacts(orig, rest, edited');
      if !Deletes(am, orig) {
        var r := ReadChain(orig, rest, edited');
        assert r == ReadChain(orig, chain, edited);
        if !r.0 && orig.inner.Text? {
          if HasEdit(rest, orig) {
            var e :| NewestEdit(rest, orig, e) && r.1 == e.inner.newBody;
            FirstIsLess(chain, e);
            assert NewestEdit(chain, orig, e);
          } else if IsEdit(am, orig) {
            assert NewestEdit(chain, orig, am);
          }
        }
      }
    }
  }

  lemma FirstIsLess(chain: seq<Msg>, e: Msg)
    requires AscendingIds(chain) && chain != [] && e in chain[1..]
    ensures Less(chain[0].id, e.id)
  {
    var i :| 0 <= i < |chain| - 1 && chain[1..][i] == e;
    assert chain[i + 1] == e;
  }

  lemma NewestEditUnique(h: seq<Msg>, orig: Msg, d: Msg, e: Msg)
    requires NewestEdit(h, orig, d) && NewestEdit(h, orig, e)
    ensures d == e
  {
    if d != e { LessAsymmetric(d.id, e.id); }
  }

  /** The stored amendments of an original in sorted order are the stored amendments of it. */
  lemma ChainIsStored(h: seq<Msg>, orig: Msg)
    requires DistinctIds(h)
    ensures var chain := SortById(AmendmentsOf(h, orig.id));
            && AscendingIds(chain)
            && (forall am :: am in chain <==> am in h && Amends(am, orig.id))
            && (DeletedBy(chain, orig) <==> DeletedBy(h, orig))
            && (HasEdit(chain, orig) <==> HasEdit(h, orig))
            && (forall e :: NewestEdit(chain, orig, e) <==> NewestEdit(h, orig, e))
  {
    AmendmentsFacts(h, orig.id);
    AmendmentsDistinct(h, orig.id);
    SortFacts(AmendmentsOf(h, orig.id));
  }

  /** What the summary shows of an original, read off the table. */
  lemma SummarizedShows(h: seq<Msg>, orig: Msg, x: Inner)
    requires IsOriginal(orig) && DistinctIds(h)
    ensures var s := Summarized(orig, SortById(AmendmentsOf(h, orig.id)));
            && s.timestamp == orig.timestamp && (s.deleted <==> DeletedBy(h, orig))
            && (!s.deleted ==> (s.text == x <==> Shows(h, orig, x)))
  {
    var chain := SortById(AmendmentsOf(h, orig.id));
    ChainIsStored(h, orig);
    ReadChainFacts(orig, chain, None);
    var r := ReadChain(orig, chain, None);
    if !r.0 {
      if !orig.inner.Text? {
        MediaNeverEdited(orig, chain, None);
      } else if HasEdit(h, orig) {
        var e :| NewestEdit(chain, orig, e) && r.1 == e.inner.newBody;
        forall d | NewestEdit(h, orig, d) ensures d == e { NewestEditUnique(h, orig, d, e); }
      }
    }
  }

  // ---- one conversation, one batch ----

  /** The row after the additive pass. */
  function RowWritten(existing: Option<Row>, u: Option<Update>): Option<Row>
  {
    if u.Some? then Some(Updated(existing, u.value)) else existing
  }

  /** The row after the recomputing pass. */
  function RowReconciled(row: Option<Row>, summary: Option<Summary>): Option<Row>
  {
    if row.None? || summary.None? then row
    else Some(Row(summary.value.text, summary.value.timestamp, summary.value.deleted, row.value.count))
  }

  lemma RowAfter(rows: Rows, table: seq<Msg>, batch: seq<Msg>, c: string)
    ensures var row := RowWritten(RowOf(rows, c), UpdateOf(Updates(batch), c));
            RowOf(RowsAfter(rows, table, batch), c) ==
              if c in AmendedConversations(batch)
              then RowReconciled(row, Summarize(InConversation(PutAll(table, batch), c))) else row
  {
  }

  /** A conversation's stored newest is strictly newer than the batch's winner. */
  predicate Kept(old_: seq<Msg>, new_: seq<Msg>)
    requires new_ != []
  {
    old_ != [] && Latest(old_).timestamp > Winner(new_).timestamp
  }

  /** The winner takes the row at its own time, and is what the (timestamp, id)-latest original
      shows under the stored amendments. */
  ghost predicate WinnerShown(h: seq<Msg>, old_: seq<Msg>, new_: seq<Msg>)
    requires new_ != []
  {
    var l := Latest(old_ + new_);
    (old_ != [] || Winner(new_).timestamp >= 0) && !DeletedBy(h, l) && Shows(h, l, Winner(new_).inner)
  }

  predicate HasAmendment(b: seq<Msg>)
  {
    exists am :: am in b && am.inner.Amendment?
  }

  /** When a batch `b` leaves the row of a conversation with history `h` right: it holds no
      unknown kinds, and it brings an amendment (so the row is recomputed), or no original, or
      only originals older than the row, or its winner is what must be shown. */
  ghost predicate RowRight(h: seq<Msg>, b: seq<Msg>)
  {
    NoUnknown(b)
    && (HasAmendment(b) || Originals(b) == [] || Kept(Originals(h), Originals(b))
        || WinnerShown(h, Originals(h), Originals(b)))
  }

  lemma {:induction false} LatestTime(s: seq<Msg>)
    requires s != []
    ensures Latest(s) in s && forall m :: m in s ==> m.timestamp <= Latest(s).timestamp
  {
    var n := |s| - 1;
    assert forall m :: m in s <==> m in s[..n] || m == s[n];
    if n > 0 { LatestTime(s[..n]); }
  }

  lemma {:induction false} LatestKept(a: seq<Msg>, b: seq<Msg>)
    requires a != [] && forall m :: m in b ==> m.timestamp < Latest(a).timestamp
    ensures Latest(a + b) == Latest(a)
  {
    if b == [] {
      assert a + b == a;
    } else {
      var n := |b| - 1;
      assert (a + b)[..|a| + n] == a + b[..n] && b[n] in b;
      LatestKept(a, b[..n]);
    }
  }

  lemma WinnerTime(a: seq<Msg>, b: seq<Msg>)
    requires b != [] && !Kept(a, b)
    ensures Latest(a + b).timestamp == Winner(b).timestamp
  {
    WinnerIsFirstGreatest(b);
    LatestTime(a + b);
    assert exists i :: 0 <= i < |b| && b[i] == Winner(b);
    assert Winner(b) in b && Winner(b) in a + b;
    if a != [] { LatestTime(a); }
    assert forall m :: m in a + b <==> m in a || m in b;
  }

  lemma NoAmendmentsOf(b: seq<Msg>, t: string)
    requires !HasAmendment(b)
    ensures AmendmentsOf(b, t) == []
  {
    AmendmentsFacts(b, t);
    SomeElement(AmendmentsOf(b, t));
  }

  /** The recomputed summary after a batch without amendments. */
  lemma SummaryOfBoth(h: seq<Msg>, b: seq<Msg>)
    requires !HasAmendment(b) && Originals(h) + Originals(b) != []
    ensures var l := Latest(Originals(h) + Originals(b));
            Summarize(h + b) == Some(Summarized(l, SortById(AmendmentsOf(h, l.id))))
  {
    OriginalsConcat(h, b);
    var l := Latest(Originals(h) + Originals(b));
    AmendmentsConcat(h, b, l.id);
    NoAmendmentsOf(b, l.id);
    assert AmendmentsOf(h + b, l.id) == AmendmentsOf(h, l.id);
  }

  lemma RowKept(s: Option<Summary>, n: nat, u: Update)
    requires s.Some? && s.value.timestamp > u.ts
    ensures RowWritten(RowFrom(s, n), Some(u)) == RowFrom(s, n + u.count)
  {
  }

  lemma RowTaken(s: Option<Summary>, n: nat, u: Update, s': Option<Summary>)
    requires s'.Some? && s'.value.timestamp == u.ts && (s.Some? ==> s.value.timestamp <= u.ts) && (s.None? ==> n == 0)
    ensures RowWritten(RowFrom(s, n), Some(u)) == RowFrom(s', n + u.count)
       <==> (s.Some? || u.ts >= 0) && s'.value.text == u.text && !s'.value.deleted
  {
  }

  /** A conversation whose newest stays the newest. */
  lemma KeptSummary(h: seq<Msg>, b: seq<Msg>)
    requires !HasAmendment(b) && Originals(b) != [] && Kept(Originals(h), Originals(b))
    ensures Summarize(h + b) == Summarize(h)
  {
    var o, n := Originals(h), Originals(b);
    WinnerIsFirstGreatest(n);
    assert forall m :: m in n ==> m.timestamp < Latest(o).timestamp;
    LatestKept(o, n);
    SummaryOfBoth(h, b);
  }

  lemma KeptRowOf(s: Option<Summary>, o: seq<Msg>, n: seq<Msg>, s': Option<Summary>)
    requires n != [] && s' == s && s.Some? && s.value.timestamp > Winner(n).timestamp
    ensures RowWritten(RowFrom(s, |o|), Newest(n)) == RowFrom(s', |o + n|)
  {
    RowKept(s, |o|, Newest(n).value);
  }

  lemma KeptRow(h: seq<Msg>, b: seq<Msg>)
    requires !HasAmendment(b) && Originals(b) != [] && Kept(Originals(h), Originals(b))
    ensures RowWritten(Recomputation(h), Newest(Originals(b))) == Recomputation(h + b)
  {
    KeptSummary(h, b);
    OriginalsConcat(h, b);
    SummaryTime(h);
    WinnerIsFirstGreatest(Originals(b));
    KeptRowOf(Summarize(h), Originals(h), Originals(b), Summarize(h + b));
  }

  /** What the recomputation shows when the batch's winner takes the row. */
  lemma TakenSummary(h: seq<Msg>, b: seq<Msg>)
    requires DistinctIds(h) && !HasAmendment(b) && Originals(b) != [] && !Kept(Originals(h), Originals(b))
    ensures var w, l, s := Winner(Originals(b)), Latest(Originals(h) + Originals(b)), Summarize(h + b);
            && s.Some? && s.value.timestamp == w.timestamp && (s.value.deleted <==> DeletedBy(h, l))
            && (!s.value.deleted ==> (s.value.text == w.inner <==> Shows(h, l, w.inner)))
  {
    var o, n := Originals(h), Originals(b);
    WinnerTime(o, n);
    SummaryOfBoth(h, b);
    OriginalsFacts(h);
    OriginalsFacts(b);
    LatestTime(o + n);
    SummarizedShows(h, Latest(o + n), Winner(n).inner);
  }

  lemma TakenRowOf(h: seq<Msg>, o: seq<Msg>, n: seq<Msg>, s: Option<Summary>, s': Option<Summary>)
    requires n != [] && !Kept(o, n) && (s.Some? <==> o != [])
    requires s.Some? ==> s.value.timestamp == Latest(o).timestamp
    requires s'.Some? && s'.value.timestamp == Winner(n).timestamp
    requires s'.value.deleted <==> DeletedBy(h, Latest(o + n))
    requires !s'.value.deleted ==> (s'.value.text == Winner(n).inner <==> Shows(h, Latest(o + n), Winner(n).inner))
    ensures RowWritten(RowFrom(s, |o|), Newest(n)) == RowFrom(s', |o + n|) <==> WinnerShown(h, o, n)
  {
    RowTaken(s, |o|, Newest(n).value, s');
  }

  lemma TakenRow(h: seq<Msg>, b: seq<Msg>)
    requires DistinctIds(h) && !HasAmendment(b) && Originals(b) != [] && !Kept(Originals(h), Originals(b))
    ensures RowWritten(Recomputation(h), Newest(Originals(b))) == Recomputation(h + b)
       <==> WinnerShown(h, Originals(h), Originals(b))
  {
    TakenSummary(h, b);
    SummaryExists(h);
    if Originals(h) != [] { SummaryTime(h); }
    TakenRowOf(h, Originals(h), Originals(b), Summarize(h), Summarize(h + b));
    OriginalsConcat(h, b);
  }

  /** Without amendments or unknown kinds in the batch. */
  lemma PlainRow(h: seq<Msg>, b: seq<Msg>)
    requires DistinctIds(h) && !HasAmendment(b) && NoUnknown(b)
    ensures RowWritten(Recomputation(h), Newest(Originals(b))) == Recomputation(h + b) <==> RowRight(h, b)
  {
    if Originals(b) == [] {
      OriginalsFacts(b);
      SomeElement(b);
      assert h + b == h;
    } else if Kept(Originals(h), Originals(b)) {
      KeptRow(h, b);
    } else {
      TakenRow(h, b);
    }
  }

  lemma RowAmended(s: Option<Summary>, n: nat, u: Option<Update>, s': Option<Summary>)
    requires s'.Some? <==> s.Some? || u.Some?
    requires s.None? ==> n == 0
    ensures RowReconciled(RowWritten(RowFrom(s, n), u), s') == RowFrom(s', n + if u.Some? then u.value.count else 0)
  {
  }

  lemma AmendedRowOf(s: Option<Summary>, o: seq<Msg>, o': seq<Msg>, s': Option<Summary>)
    requires (s.Some? <==> o != []) && (s'.Some? <==> o + o' != [])
    ensures RowReconciled(RowWritten(RowFrom(s, |o|), Newest(o')), s') == RowFrom(s', |o + o'|)
  {
    RowAmended(s, |o|, Newest(o'), s');
  }

  lemma AmendedRow(h: seq<Msg>, b: seq<Msg>)
    ensures RowReconciled(RowWritten(Recomputation(h), Newest(Originals(b))), Summarize(h + b)) == Recomputation(h + b)
  {
    SummaryExists(h);
    SummaryExists(h + b);
    OriginalsConcat(h, b);
    AmendedRowOf(Summarize(h), Originals(h), Originals(b), Summarize(h + b));
  }

  /** With an unknown kind in the batch the count is off, whatever else happens. */
  lemma Miscounted(s: Option<Summary>, n: nat, u: Update, s': Option<Summary>, n': nat)
    requires n + u.count > n' && (s.None? ==> n == 0)
    ensures RowWritten(RowFrom(s, n), Some(u)) != RowFrom(s', n')
    ensures RowReconciled(RowWritten(RowFrom(s, n), Some(u)), s') != RowFrom(s', n')
  {
  }

  lemma AmendedIff(batch: seq<Msg>, c: string)
    ensures c in AmendedConversations(batch) <==> HasAmendment(InConversation(batch, c))
  {
    InConversationFacts(batch, c);
  }

  lemma {:induction false} InConversationDistinct(table: seq<Msg>, c: string)
    requires DistinctIds(table)
    ensures DistinctIds(InConversation(table, c))
  {
    if table != [] {
      var n := |table| - 1;
      InConversationDistinct(table[..n], c);
      InConversationFacts(table[..n], c);
      var before := InConversation(table[..n], c);
      assert forall i :: 0 <= i < |before| ==> before[i] in before;
    }
  }

  lemma {:induction false} AllCounted(b: seq<Msg>, k: nat)
    requires k <= |b| && forall i :: 0 <= i < |b| ==> !b[i].inner.Amendment?
    ensures Counted(b[..k]) == b[..k]
    decreases k
  {
    if k > 0 {
      AllCounted(b, k - 1);
      assert b[..k][..k - 1] == b[..k - 1];
      assert b[..k] == b[..k - 1] + [b[k - 1]];
    }
  }

  lemma NothingToCount(b: seq<Msg>)
    requires !HasAmendment(b)
    ensures Counted(b) == b
  {
    forall i | 0 <= i < |b| ensures !b[i].inner.Amendment? { assert b[i] in b; }
    AllCounted(b, |b|);
    assert b[..|b|] == b;
  }

  /** No counted message of this conversation is saved a second time. */
  ghost predicate NoneRepeated(table: seq<Msg>, batch: seq<Msg>, c: string)
  {
    forall i :: 0 <= i < |batch| && batch[i].conversation == c && !batch[i].inner.Amendment? ==>
      !Repeats(table, batch, i)
  }

  lemma {:induction false} RepeatsUncounted(table: seq<Msg>, batch: seq<Msg>, c: string)
    ensures var b, b0 := Counted(InConversation(batch, c)), Counted(InConversation(New(table, batch), c));
            && |b0| <= |b| && (|b0| == |b| <==> NoneRepeated(table, batch, c))
            && (NoneRepeated(table, batch, c) ==> b0 == b)
  {
    if batch != [] {
      var n := |batch| - 1;
      RepeatsUncounted(table, batch[..n], c);
      InConversationStep(batch, c);
      var before := New(table, batch[..n]);
      if Repeats(table, batch, n) {
        assert New(table, batch) == before;
      } else {
        InConversationStep(before + [batch[n]], c);
        assert (before + [batch[n]])[..|before|] == before;
      }
      RepeatsStep(table, batch, c);
    }
  }

  lemma RepeatsStep(table: seq<Msg>, batch: seq<Msg>, c: string)
    requires batch != []
    ensures var n := |batch| - 1;
            NoneRepeated(table, batch, c) <==>
              NoneRepeated(table, batch[..n], c)
              && (batch[n].conversation == c && !batch[n].inner.Amendment? ==> !Repeats(table, batch, n))
  {
    var n := |batch| - 1;
    forall i | 0 <= i < n ensures Repeats(table, batch[..n], i) <==> Repeats(table, batch, i) {
      assert batch[..n][..i] == batch[..i];
    }
  }

  lemma OnlyNew(table: seq<Msg>, batch: seq<Msg>, c: string)
    ensures forall m :: m in InConversation(New(table, batch), c) ==> m in InConversation(batch, c)
  {
    NewFacts(table, batch);
    InConversationFacts(batch, c);
    InConversationFacts(New(table, batch), c);
  }

  lemma {:induction false} OriginalsAreCounted(b: seq<Msg>)
    ensures Originals(Counted(b)) == Originals(b)
  {
    if b != [] {
      var n := |b| - 1;
      OriginalsAreCounted(b[..n]);
      if !b[n].inner.Amendment? {
        assert Counted(b)[..|Counted(b[..n])|] == Counted(b[..n]);
      } else {
        assert Counted(b) == Counted(b[..n]) && Originals(b) == Originals(b[..n]);
      }
    }
  }

  /** A repeated or unknown message makes the count too high. */
  lemma CountTooHigh(h: seq<Msg>, b: seq<Msg>, b0: seq<Msg>)
    requires |Counted(b0)| <= |Counted(b)|
    requires |Counted(b0)| == |Counted(b)| ==> Counted(b0) == Counted(b) && !NoUnknown(b)
    ensures RowWritten(Recomputation(h), Newest(Counted(b))) != Recomputation(h + b0)
    ensures RowReconciled(RowWritten(Recomputation(h), Newest(Counted(b))), Summarize(h + b0)) != Recomputation(h + b0)
  {
    CountedOriginals(b);
    CountedOriginals(b0);
    OriginalsAreCounted(b);
    OriginalsAreCounted(b0);
    SummaryExists(h);
    OriginalsConcat(h, b0);
    assert |Originals(b0)| < |Counted(b)|;
    Miscounted(Summarize(h), |Originals(h)|, Newest(Counted(b)).value, Summarize(h + b0), |Originals(h + b0)|);
  }

  /** One conversation, one batch, whatever its kinds and timestamps and whether or not it was
      saved before: exactly when the row stays what a recomputation gives. */
  lemma RowAfterSave(rows: Rows, table: seq<Msg>, batch: seq<Msg>, c: string)
    requires DistinctIds(table) && OneMessagePerId(table + batch)
    requires RowOf(rows, c) == Recomputation(InConversation(table, c))
    ensures RowOf(RowsAfter(rows, table, batch), c) == Recomputation(InConversation(PutAll(table, batch), c))
       <==> NoneRepeated(table, batch, c) && RowRight(InConversation(table, c), InConversation(batch, c))
  {
    var h, b, b0 := InConversation(table, c), InConversation(batch, c), InConversation(New(table, batch), c);
    PutAllNew(table, batch);
    InConversationConcat(table, New(table, batch), c);
    UpdateFacts(batch, c);
    RowAfter(rows, table, batch, c);
    AmendedIff(batch, c);
    RepeatsUncounted(table, batch, c);
    OnlyNew(table, batch, c);
    if !NoneRepeated(table, batch, c) || !NoUnknown(b) {
      CountTooHigh(h, b, b0);
    } else {
      CountedOriginals(b);
      CountedOriginals(b0);
      if HasAmendment(b) {
        AmendedRow(h, b0);
      } else {
        NothingToCount(b);
        NothingToCount(b0);
        InConversationDistinct(table, c);
        PlainRow(h, b);
      }
    }
  }

  ghost predicate RightIn(table: seq<Msg>, batch: seq<Msg>, c: string)
  {
    NoneRepeated(table, batch, c) && RowRight(InConversation(table, c), InConversation(batch, c))
  }

  /** When a batch leaves every row right, read off the batch and the table. */
  ghost predicate BatchRight(table: seq<Msg>, batch: seq<Msg>)
  {
    forall c :: RightIn(table, batch, c)
  }

  /** Saving a batch keeps every row equal to its recomputation exactly when the batch is right. */
  lemma SaveRefinesRecomputation(rows: Rows, table: seq<Msg>, batch: seq<Msg>)
    requires DistinctIds(table) && OneMessagePerId(table + batch) && Faithful(rows, table)
    ensures Faithful(RowsAfter(rows, table, batch), PutAll(table, batch)) <==> BatchRight(table, batch)
  {
    forall c ensures FaithfulIn(RowsAfter(rows, table, batch), PutAll(table, batch), c) <==> RightIn(table, batch, c) {
      assert FaithfulIn(rows, table, c);
      RowAfterSave(rows, table, batch, c);
    }
  }

  // ---- whole runs ----

  function TableOfRun(batches: seq<seq<Msg>>): seq<Msg>
  {
    if batches == [] then [] else PutAll(TableOfRun(batches[..|batches| - 1]), batches[|batches| - 1])
  }

  function RowsOfRun(batches: seq<seq<Msg>>): Rows
  {
    if batches == [] then map[]
    else
      var n := |batches| - 1;
      RowsAfter(RowsOfRun(batches[..n]), TableOfRun(batches[..n]), batches[n])
  }

  /** Over the whole run an id names one message. */
  ghost predicate OneMessagePerIdInRun(batches: seq<seq<Msg>>)
  {
    forall i, j :: 0 <= i < |batches| && 0 <= j < |batches| ==> OneMessagePerId(batches[i] + batches[j])
  }

  lemma {:induction false} TableFacts(batches: seq<seq<Msg>>)
    requires OneMessagePerIdInRun(batches)
    ensures DistinctIds(TableOfRun(batches))
    ensures forall m :: m in TableOfRun(batches) <==> exists i :: 0 <= i < |batches| && m in batches[i]
  {
    if batches != [] {
      var n := |batches| - 1;
      PrefixOneMessage(batches, n);
      TableFacts(batches[..n]);
      var table := TableOfRun(batches[..n]);
      NextOneMessage(batches, n, table);
      PutAllNew(table, batches[n]);
      NewFacts(table, batches[n]);
      assert forall m :: m in TableOfRun(batches) <==> m in table || m in batches[n];
      forall m | exists i :: 0 <= i < |batches| && m in batches[i] ensures m in TableOfRun(batches) {
        var i :| 0 <= i < |batches| && m in batches[i];
        assert i < n ==> batches[..n][i] == batches[i];
      }
    }
  }

  lemma PrefixOneMessage(batches: seq<seq<Msg>>, k: nat)
    requires OneMessagePerIdInRun(batches) && k <= |batches|
    ensures OneMessagePerIdInRun(batches[..k])
  {
    forall i, j | 0 <= i < k && 0 <= j < k ensures OneMessagePerId(batches[..k][i] + batches[..k][j]) {
      assert OneMessagePerId(batches[i] + batches[j]);
    }
  }

  lemma NextOneMessage(batches: seq<seq<Msg>>, k: nat, table: seq<Msg>)
    requires OneMessagePerIdInRun(batches) && k < |batches|
    requires forall m :: m in table ==> exists i :: 0 <= i < k && m in batches[..k][i]
    ensures OneMessagePerId(table + batches[k])
  {
    var all := table + batches[k];
    forall m, n | m in all && n in all && m.id == n.id ensures m == n {
      var i := SomeBatch(batches, k, table, m);
      var j := SomeBatch(batches, k, table, n);
      assert OneMessagePerId(batches[i] + batches[j]);
      assert m in batches[i] + batches[j] && n in batches[i] + batches[j];
    }
  }

  lemma SomeBatch(batches: seq<seq<Msg>>, k: nat, table: seq<Msg>, m: Msg) returns (i: nat)
    requires k < |batches| && m in table + batches[k]
    requires forall x :: x in table ==> exists i :: 0 <= i < k && x in batches[..k][i]
    ensures i <= k && m in batches[i]
  {
    if m in batches[k] {
      i := k;
    } else {
      assert m in table;
      i :| 0 <= i < k && m in batches[..k][i];
    }
  }

  ghost predicate FaithfulAt(batches: seq<seq<Msg>>, k: nat)
    requires k <= |batches|
  {
    Faithful(RowsOfRun(batches[..k]), TableOfRun(batches[..k]))
  }

  ghost predicate RightAt(batches: seq<seq<Msg>>, k: nat)
    requires k < |batches|
  {
    BatchRight(TableOfRun(batches[..k]), batches[k])
  }

  lemma RunStep(batches: seq<seq<Msg>>, k: nat)
    requires OneMessagePerIdInRun(batches) && k < |batches| && FaithfulAt(batches, k)
    ensures FaithfulAt(batches, k + 1) <==> RightAt(batches, k)
  {
    PrefixOneMessage(batches, k);
    TableFacts(batches[..k]);
    NextOneMessage(batches, k, TableOfRun(batches[..k]));
    assert batches[..k + 1][..k] == batches[..k];
    SaveRefinesRecomputation(RowsOfRun(batches[..k]), TableOfRun(batches[..k]), batches[k]);
  }

  lemma {:induction false} FaithfulUpTo(batches: seq<seq<Msg>>, k: nat)
    requires OneMessagePerIdInRun(batches) && k <= |batches|
    requires forall i :: 0 <= i < k ==> RightAt(batches, i)
    ensures FaithfulAt(batches, k)
  {
    if k > 0 {
      FaithfulUpTo(batches, k - 1);
      RunStep(batches, k - 1);
    }
  }

  /** Over any run of saves the rows equal a recomputation after every one of them exactly when
      every batch is right where it comes. */
  lemma RunFaithfulIff(batches: seq<seq<Msg>>)
    requires OneMessagePerIdInRun(batches)
    ensures (forall k :: 0 <= k <= |batches| ==> FaithfulAt(batches, k))
       <==> (forall k :: 0 <= k < |batches| ==> RightAt(batches, k))
  {
    if forall k :: 0 <= k <= |batches| ==> FaithfulAt(batches, k) {
      forall k | 0 <= k < |batches| ensures RightAt(batches, k) {
        assert FaithfulAt(batches, k) && FaithfulAt(batches, k + 1);
        RunStep(batches, k);
      }
    }
    if forall k :: 0 <= k < |batches| ==> RightAt(batches, k) {
      forall k | 0 <= k <= |batches| ensures FaithfulAt(batches, k) { FaithfulUpTo(batches, k); }
    }
  }

  // ---- ordinary runs ----

  predicate SameChat(a: Msg, b: Msg)
  {
    IsOriginal(a) && IsOriginal(b) && a.conversation == b.conversation
  }

  /** No two originals of one conversation share a timestamp, and no new one precedes the epoch. */
  ghost predicate CleanTimes(table: seq<Msg>, batch: seq<Msg>)
  {
    && (forall m :: m in batch && IsOriginal(m) ==> m.timestamp >= 0)
    && (forall m, n :: m in table + batch && n in table + batch && SameChat(m, n) ==>
          (m.timestamp == n.timestamp ==> m == n))
  }

  /** No amendment in `table` waits for a message of `batch`. */
  ghost predicate NoneEarly(table: seq<Msg>, batch: seq<Msg>)
  {
    forall am, m :: am in table && m in batch ==> !Amends(am, m.id)
  }

  /** New messages of known kinds, clean times, and no amendment saved before the batch of its
      target. */
  ghost predicate Clean(table: seq<Msg>, batch: seq<Msg>)
  {
    && NoUnknown(batch) && CleanTimes(table, batch) && NoneEarly(table, batch)
    && forall i :: 0 <= i < |batch| && !batch[i].inner.Amendment? ==> !Repeats(table, batch, i)
  }

  lemma CleanWinnerShown(table: seq<Msg>, batch: seq<Msg>, c: string)
    requires Clean(table, batch)
    requires OriginalsIn(batch, c) != [] && !Kept(OriginalsIn(table, c), OriginalsIn(batch, c))
    ensures WinnerShown(InConversation(table, c), OriginalsIn(table, c), OriginalsIn(batch, c))
  {
    var h, o, n := InConversation(table, c), OriginalsIn(table, c), OriginalsIn(batch, c);
    var w, l := Winner(n), Latest(o + n);
    WinnerTime(o, n);
    WinnerIsFirstGreatest(n);
    LatestTime(o + n);
    OriginalsInFacts(table, c);
    OriginalsInFacts(batch, c);
    assert w in n && l in o + n;
    assert w in table + batch && l in table + batch && SameChat(w, l);
    InConversationFacts(table, c);
    assert forall am :: am in h ==> !Amends(am, w.id);
  }

  lemma OriginalsInFacts(all: seq<Msg>, c: string)
    ensures forall m :: m in OriginalsIn(all, c) <==> m in all && m.conversation == c && IsOriginal(m)
  {
    InConversationFacts(all, c);
    OriginalsFacts(InConversation(all, c));
  }

  lemma CleanIsRight(table: seq<Msg>, batch: seq<Msg>)
    requires Clean(table, batch)
    ensures BatchRight(table, batch)
  {
    forall c ensures NoneRepeated(table, batch, c) && RowRight(InConversation(table, c), InConversation(batch, c)) {
      InConversationFacts(batch, c);
      if OriginalsIn(batch, c) != [] && !Kept(OriginalsIn(table, c), OriginalsIn(batch, c)) {
        CleanWinnerShown(table, batch, c);
      }
    }
  }

  /** After any run of clean batches every row equals a recomputation from everything saved, and
      its count is the number of originals saved. */
  lemma RunStaysFaithful(batches: seq<seq<Msg>>)
    requires OneMessagePerIdInRun(batches)
    requires forall k :: 0 <= k < |batches| ==> Clean(TableOfRun(batches[..k]), batches[k])
    ensures Faithful(RowsOfRun(batches), TableOfRun(batches))
  {
    forall k | 0 <= k < |batches| ensures RightAt(batches, k) { CleanIsRight(TableOfRun(batches[..k]), batches[k]); }
    FaithfulUpTo(batches, |batches|);
    assert batches[..|batches|] == batches;
  }

  // ---- runs of one or two single messages ----

  lemma SinglesOneMessage(first: Msg, second: Msg)
    requires first.id != second.id || first == second
    ensures OneMessagePerIdInRun([[first], [second]]) && OneMessagePerIdInRun([[first]])
  {
    var run := [[first], [second]];
    forall i, j | 0 <= i < 2 && 0 <= j < 2 ensures OneMessagePerId(run[i] + run[j]) {
      assert forall m :: m in run[i] + run[j] ==> m == first || m == second;
    }
    assert forall i :: 0 <= i < 1 ==> [[first]][i] == run[i];
  }

  lemma SingleTable(m: Msg)
    ensures TableOfRun([[m]]) == [m]
  {
    assert [[m]][..0] == [] && [m][..0] == [];
    assert PutAll([], [m]) == Put([], m);
  }

  lemma OneInConversation(m: Msg, c: string)
    ensures InConversation([m], c) == if m.conversation == c then [m] else []
  {
    assert [m][..0] == [];
  }

  lemma EmptyRight(h: seq<Msg>)
    ensures RowRight(h, [])
  {
  }

  /** Saving one new message is right exactly when it is for its own conversation. */
  lemma SingleRight(table: seq<Msg>, m: Msg)
    requires m !in table
    ensures BatchRight(table, [m]) <==> RowRight(InConversation(table, m.conversation), [m])
  {
    OneInConversation(m, m.conversation);
    assert [m][..0] == [];
    forall c | c != m.conversation ensures RightIn(table, [m], c) {
      OneInConversation(m, c);
      EmptyRight(InConversation(table, c));
    }
    assert RightIn(table, [m], m.conversation) <==> RowRight(InConversation(table, m.conversation), [m]);
  }

  lemma SingleOriginal(m: Msg)
    requires IsOriginal(m)
    ensures Originals([m]) == [m] && !HasAmendment([m]) && NoUnknown([m])
  {
    assert [m][..0] == [];
    assert Originals([m][..0]) == [];
  }

  lemma FirstStep(m: Msg)
    ensures FaithfulAt([[m]], 1) <==> RowRight([], [m])
  {
    SinglesOneMessage(m, m);
    SingleRight([], m);
    assert [[m]][..0] == [];
    assert FaithfulAt([[m]], 0);
    RunStep([[m]], 0);
  }

  lemma FirstRow(m: Msg)
    requires IsOriginal(m)
    ensures RowRight([], [m]) <==> m.timestamp >= 0
  {
    SingleOriginal(m);
    assert [] + [m] == [m];
    assert Winner([m]) == m && Latest([m]) == m;
  }

  /** A first original is shown at its own time if and only if that is not before the epoch. */
  lemma FirstRightIff(m: Msg)
    requires IsOriginal(m)
    ensures FaithfulAt([[m]], 1) <==> m.timestamp >= 0
  {
    FirstStep(m);
    FirstRow(m);
  }

  lemma FaithfulAtPrefix(first: Msg, second: Msg)
    ensures FaithfulAt([[first], [second]], 1) <==> FaithfulAt([[first]], 1)
  {
    assert [[first], [second]][..1] == [[first]][..1];
  }

  lemma SecondStep(first: Msg, second: Msg)
    requires first.id != second.id && first.conversation == second.conversation
    requires FaithfulAt([[first], [second]], 1)
    ensures FaithfulAt([[first], [second]], 2) <==> RowRight([first], [second])
  {
    var run := [[first], [second]];
    SinglesOneMessage(first, second);
    SingleTable(first);
    assert run[..1] == [[first]];
    OneInConversation(first, first.conversation);
    SingleRight([first], second);
    RunStep(run, 1);
  }

  /** Two originals of one instant saved in turn: the rows stay right if and only if the second
      has the larger id or shows the same thing. */
  lemma TieRightIff(first: Msg, second: Msg)
    requires SameChat(first, second) && first.id != second.id && first.timestamp == second.timestamp >= 0
    ensures FaithfulAt([[first], [second]], 1)
    ensures FaithfulAt([[first], [second]], 2) <==> Less(first.id, second.id) || first.inner == second.inner
  {
    FirstRightIff(first);
    FaithfulAtPrefix(first, second);
    SecondStep(first, second);
    SingleOriginal(first);
    SingleOriginal(second);
    var both := [first] + [second];
    assert both[..1] == [first];
    assert Latest(both) == if Less(first.id, second.id) then second else first;
    assert forall am :: am in [first] ==> !am.inner.Amendment?;
    assert !DeletedBy([first], Latest(both)) && !HasEdit([first], Latest(both));
  }

  /** An amendment saved before its target: the rows stay right if and only if it is no
      authorized delete, and no edit of a text to another body. */
  lemma EarlyRightIff(am: Msg, m: Msg)
    requires IsOriginal(m) && Amends(am, m.id) && am.id != m.id && am.conversation == m.conversation && m.timestamp >= 0
    ensures FaithfulAt([[am], [m]], 1)
    ensures FaithfulAt([[am], [m]], 2)
       <==> !Deletes(am, m) && !(IsEdit(am, m) && m.inner.Text? && am.inner.newBody != Some(m.inner.body))
  {
    FirstAmendmentRight(am);
    FaithfulAtPrefix(am, m);
    SecondStep(am, m);
    SingleOriginal(m);
    assert [am][..0] == [] && Originals([am]) == [];
    assert [] + [m] == [m];
    assert am in [am] && forall x :: x in [am] ==> x == am;
    assert DeletedBy([am], m) <==> Deletes(am, m);
    assert HasEdit([am], m) <==> IsEdit(am, m);
    assert forall e :: NewestEdit([am], m, e) <==> e == am && IsEdit(am, m);
  }

  lemma FirstAmendmentRight(am: Msg)
    requires am.inner.Amendment?
    ensures FaithfulAt([[am]], 1)
  {
    FirstStep(am);
    assert am in [am] && HasAmendment([am]);
  }

  lemma NotRightAgain(m: Msg)
    requires IsOriginal(m)
    ensures !BatchRight([m], [m])
  {
    assert Repeats([m], [m], 0);
    assert !RightIn([m], [m], m.conversation);
  }

  /** An original saved twice is counted twice. */
  lemma SavedTwiceMiscounts(m: Msg)
    requires IsOriginal(m)
    ensures FaithfulAt([[m], [m]], 1) ==> !FaithfulAt([[m], [m]], 2)
  {
    SinglesOneMessage(m, m);
    SingleTable(m);
    assert [[m], [m]][..1] == [[m]];
    NotRightAgain(m);
    if FaithfulAt([[m], [m]], 1) { RunStep([[m], [m]], 1); }
  }
}
