/** The `POST /v1/store/compact` handler itself, written against a server whose other
    handlers may run at every await. */
module CompactionHandler {
  import opened Wrappers
  import opened Lex
  import opened SortedStore
  import opened Cbor
  import opened Compaction

  const PAGE := 100

  datatype Reply = BadRequest | Failed | Done(archived: nat, archiveKey: string)

  /** The keys at or below a boundary, in order. */
  ghost function UpTo(keys: seq<string>, boundary: string): seq<string>
  {
    if keys == [] then []
    else (if AtMost(keys[0], boundary) then [keys[0]] else []) + UpTo(keys[1..], boundary)
  }

  /** At or below the boundary. */
  predicate Within(keys: seq<string>, boundary: string)
  {
    forall k :: k in keys ==> AtMost(k, boundary)
  }

  lemma {:induction false} UpToFacts(keys: seq<string>, boundary: string)
    ensures forall k :: k in UpTo(keys, boundary) <==> k in keys && AtMost(k, boundary)
  {
    if keys != [] { UpToFacts(keys[1..], boundary); }
  }

  lemma {:induction false} UpToConcat(a: seq<string>, b: seq<string>, boundary: string)
    ensures UpTo(a + b, boundary) == UpTo(a, boundary) + UpTo(b, boundary)
  {
    if a == [] {
      assert a + b == b;
    } else {
      assert (a + b)[1..] == a[1..] + b;
      UpToConcat(a[1..], b, boundary);
    }
  }

  /** Once a page ends past the boundary, nothing after it is at or below the boundary. */
  lemma PastBoundary(rest: seq<string>, last: string, boundary: string)
    requires Less(boundary, last)
    requires forall k :: k in rest ==> Less(last, k)
    ensures UpTo(rest, boundary) == []
  {
    var u := UpTo(rest, boundary);
    UpToFacts(rest, boundary);
    if u != [] {
      assert u[0] in u;
      LessTransitive(boundary, last, u[0]);
      LessAsymmetric(boundary, u[0]);
    }
  }

  /** What the paging loop gains from one page: either it is done, or fewer keys remain. */
  lemma PageStep(keys: set<string>, upTo: string, cursor: Option<string>)
    ensures var page := PageOf(keys, "", PAGE, cursor);
            var lastPast := |page.keys| > 0 && Less(upTo, page.keys[|page.keys| - 1]);
            var rest := UpTo(Matching(keys, "", cursor), upTo);
            if page.next.Some? && !lastPast then
              && rest == UpTo(page.keys, upTo) + UpTo(Matching(keys, "", page.next), upTo)
              && |Matching(keys, "", page.next)| < |Matching(keys, "", cursor)|
            else rest == UpTo(page.keys, upTo)
  {
    var page := PageOf(keys, "", PAGE, cursor);
    if page.next.Some? {
      PageResumes(keys, "", PAGE, cursor);
      var rest := Matching(keys, "", page.next);
      UpToConcat(page.keys, rest, upTo);
      MatchingFacts(keys, "", page.next);
      if Less(upTo, page.next.value) {
        PastBoundary(rest, page.next.value, upTo);
      }
    }
  }

  lemma DayPage(keys: set<string>, today: string, cursor: Option<string>)
    ensures var page := PageOf(keys, today, PAGE, cursor);
            if page.next.Some? then
              && Matching(keys, today, cursor) == page.keys + Matching(keys, today, page.next)
              && |Matching(keys, today, page.next)| < |Matching(keys, today, cursor)|
            else Matching(keys, today, cursor) == page.keys
  {
    if PageOf(keys, today, PAGE, cursor).next.Some? { PageResumes(keys, today, PAGE, cursor); }
  }

  /** What one turn of the paging loop adds, and what it leaves for later. */
  ghost predicate Turned(keys: set<string>, upTo: string, cursor: Option<string>, next: Option<string>,
                         before: seq<string>, after: seq<string>)
  {
    var rest := UpTo(Matching(keys, "", cursor), upTo);
    if next.Some? then
      && before + rest == after + UpTo(Matching(keys, "", next), upTo)
      && |Matching(keys, "", next)| < |Matching(keys, "", cursor)|
    else before + rest == after
  }

  ghost predicate DayTurned(keys: set<string>, today: string, cursor: Option<string>, next: Option<string>,
                            before: seq<string>, after: seq<string>)
  {
    if next.Some? then
      && before + Matching(keys, today, cursor) == after + Matching(keys, today, next)
      && |Matching(keys, today, next)| < |Matching(keys, today, cursor)|
    else before + Matching(keys, today, cursor) == after
  }

  function ValuesAt(live: map<string, Value>, keys: seq<string>): seq<Value>
  {
    if keys == [] then []
    else
      var n := |keys| - 1;
      ValuesAt(live, keys[..n]) + (if keys[n] in live then [live[keys[n]]] else [])
  }

  function EntriesAt(archives: map<string, seq<Value>>, keys: seq<string>): seq<Value>
  {
    if keys == [] then []
    else
      var n := |keys| - 1;
      EntriesAt(archives, keys[..n]) + (if keys[n] in archives then archives[keys[n]] else [])
  }

  ghost function LiveUpTo(live: map<string, Value>, upTo: string): seq<string>
  {
    UpTo(Matching(live.Keys, "", None), upTo)
  }

  ghost function SameDay(archives: map<string, seq<Value>>, today: string): seq<string>
  {
    Matching(archives.Keys, today, None)
  }

  /** What one undisturbed compaction writes. */
  ghost function Folded(live: map<string, Value>, archives: map<string, seq<Value>>, upTo: string,
                        today: string): seq<Value>
  {
    Dedup(EntriesAt(archives, SameDay(archives, today)) + ValuesAt(live, LiveUpTo(live, upTo)))
  }

  // ---- histories of the state machine ----

  ghost predicate History(trace: seq<Step>, s: State)
  {
    Possible(Init, trace) && Exec(Init, trace) == s
  }

  lemma {:induction false} ExecAppend(s: State, trace: seq<Step>, step: Step)
    requires Possible(s, trace) && Enabled(Exec(s, trace), step)
    ensures Possible(s, trace + [step]) && Exec(s, trace + [step]) == Apply(Exec(s, trace), step)
    decreases |trace|
  {
    var longer := trace + [step];
    if trace == [] {
      assert longer[1..] == [] && longer[0] == step;
      assert Possible(Apply(s, step), longer[1..]) && Exec(Apply(s, step), longer[1..]) == Apply(s, step);
    } else {
      assert longer[1..] == trace[1..] + [step] && longer[0] == trace[0];
      ExecAppend(Apply(s, trace[0]), trace[1..], step);
    }
  }

  lemma PresentWasPut(trace: seq<Step>, s: State)
    requires History(trace, s)
    ensures forall k :: k in s.archives ==> WasPut(s, k)
  {
    InvExec(Init, trace);
    forall k | k in s.archives ensures WasPut(s, k) {
      assert Logged(s, k);
      var p :| 0 <= p < |s.puts| && s.puts[p] == Archive(k, s.archives[k]);
    }
  }

  ghost predicate LiveDeleted(trace: seq<Step>, r: nat, keys: seq<string>)
  {
    forall k :: k in keys ==> DeleteLive(r, k) in trace
  }

  ghost predicate ArchivesDeleted(trace: seq<Step>, r: nat, keys: seq<string>)
  {
    forall k :: k in keys ==> DeleteArchive(r, k) in trace
  }

  /** What a run that answered success has done: it put the merge of what it read under its own
      key, then deleted every key it listed, and nothing else; the live ones are all at or below
      the boundary. */
  ghost predicate Completed(trace: seq<Step>, s: State, r: nat, upTo: string, key: string, archived: nat)
  {
    && r in s.runs && s.runs[r].output.Some? && s.runs[r].output.value < |s.puts|
    && s.puts[s.runs[r].output.value] == Archive(key, Merged(s.runs[r]))
    && archived == |s.runs[r].newObjects| && Within(s.runs[r].toCompact, upTo)
    && LiveDeleted(trace, r, s.runs[r].toCompact) && ArchivesDeleted(trace, r, s.runs[r].listed)
  }

  /** Nothing of run `r` deletes what it has not listed. */
  ghost predicate DeletesOnlyListed(trace: seq<Step>, s: State, r: nat)
  {
    r in s.runs ==> forall i :: 0 <= i < |trace| ==> DeletesListed(trace[i], r, s.runs[r])
  }

  lemma LiveDeletedNext(before: seq<Step>, after: seq<Step>, r: nat, keys: seq<string>, i: nat)
    requires i < |keys| && before <= after && LiveDeleted(before, r, keys[..i]) && DeleteLive(r, keys[i]) in after
    ensures LiveDeleted(after, r, keys[..i + 1])
    ensures var next := keys[..i + 1]; (set k | k in next) == (set k | k in keys[..i]) + {keys[i]}
  {
    assert keys[..i + 1] == keys[..i] + [keys[i]];
    DeletedStays(before, after, r, keys[..i]);
  }

  lemma ArchivesDeletedNext(before: seq<Step>, after: seq<Step>, r: nat, keys: seq<string>, i: nat)
    requires i < |keys| && before <= after && ArchivesDeleted(before, r, keys[..i])
          && DeleteArchive(r, keys[i]) in after
    ensures ArchivesDeleted(after, r, keys[..i + 1])
    ensures var next := keys[..i + 1]; (set k | k in next) == (set k | k in keys[..i]) + {keys[i]}
  {
    assert keys[..i + 1] == keys[..i] + [keys[i]];
    forall k | k in keys[..i] ensures DeleteArchive(r, k) in after {
      var j :| 0 <= j < |before| && before[j] == DeleteArchive(r, k);
      assert after[j] == DeleteArchive(r, k);
    }
  }

  lemma DeletedStays(before: seq<Step>, after: seq<Step>, r: nat, keys: seq<string>)
    requires before <= after && LiveDeleted(before, r, keys)
    ensures LiveDeleted(after, r, keys)
  {
    forall k | k in keys ensures DeleteLive(r, k) in after {
      var i :| 0 <= i < |before| && before[i] == DeleteLive(r, k);
      assert after[i] == DeleteLive(r, k);
    }
  }

  lemma {:induction false} PutsGrow(s: State, steps: seq<Step>)
    requires Possible(s, steps)
    ensures s.puts <= Exec(s, steps).puts
    decreases |steps|
  {
    if steps != [] { PutsGrow(Apply(s, steps[0]), steps[1..]); }
  }

  lemma {:induction false} ExecSplit(s: State, a: seq<Step>, b: seq<Step>)
    requires Possible(s, a + b)
    ensures Possible(s, a) && Possible(Exec(s, a), b) && Exec(Exec(s, a), b) == Exec(s, a + b)
    decreases |a|
  {
    if a == [] {
      assert a + b == b;
    } else {
      assert (a + b)[1..] == a[1..] + b;
      ExecSplit(Apply(s, a[0]), a[1..], b);
    }
  }

  /** The log of archives written only grows along a history. */
  lemma PutStays(before: seq<Step>, after: seq<Step>, n: nat)
    requires before <= after && Possible(Init, before) && Possible(Init, after) && n < |Exec(Init, before).puts|
    ensures n < |Exec(Init, after).puts| && Exec(Init, after).puts[n] == Exec(Init, before).puts[n]
  {
    var more := after[|before|..];
    assert after == before + more;
    ExecSplit(Init, before, more);
    PutsGrow(Exec(Init, before), more);
  }

  class Server {
    const live: MemStore<Value>
    const archives: MemStore<seq<Value>>
    ghost var st: State
    ghost var trace: seq<Step>   // every step taken so far

    ghost predicate Valid()
      reads this, live, archives
    {
      && (live as object) != archives as object
      && live.Valid() && archives.Valid()
      && st.live == live.objects && st.archives == archives.objects
      && History(trace, st)
    }

    constructor ()
      ensures Valid() && st == Init && fresh(live) && fresh(archives)
    {
      live := new MemStore<Value>();
      archives := new MemStore<seq<Value>>();
      st := Init;
      trace := [];
      new;
    }

    /** An await inside run `r`: other handlers take any number of steps, none of them `r`'s
        and none writing the archive key `mine` (ULIDs are unique), and the backend may fail.
        When `quiet`, nothing else runs and nothing fails. */
    method Await(ghost r: nat, ghost mine: string, quiet: bool) returns (ok: bool)
      requires Valid()
      modifies this, live, archives
      ensures Valid() && old(trace) <= trace
      ensures (r in st.runs <==> r in old(st).runs) && (r in st.runs ==> st.runs[r] == old(st).runs[r])
      ensures WasPut(st, mine) <==> WasPut(old(st), mine)
      ensures quiet ==> ok && st == old(st) && trace == old(trace)
    {
      ok := true;
      if !quiet { ok := *; }
    }

    ghost method Take(step: Step)
      requires History(trace, st) && Enabled(st, step)
      modifies this`st, this`trace
      ensures st == Apply(old(st), step)
      ensures History(trace, st) && trace == old(trace) + [step]
    {
      ExecAppend(Init, trace, step);
      st := Apply(st, step);
      trace := trace + [step];
    }

    /** One listing of the live prefix, keeping the keys the boundary lets through. */
    method LivePage(ghost r: nat, ghost mine: string, upTo: string, quiet: bool, cursor: Option<string>)
      returns (ok: bool, page: Page, kept: seq<string>)
      requires Valid() && r in st.runs && st.runs[r].readLive == 0 && st.runs[r].listed == [] && st.runs[r].output.None?
      modifies this, live, archives
      ensures Valid() && old(trace) <= trace
      ensures WasPut(st, mine) <==> WasPut(old(st), mine)
      ensures r in st.runs && st.runs[r] == old(st).runs[r].(toCompact := old(st).runs[r].toCompact + kept)
      ensures quiet ==> st.live == old(st).live && st.archives == old(st).archives
      ensures quiet ==> ok && page == PageOf(old(live.objects.Keys), "", PAGE, cursor)
      ensures ok ==> kept == UpTo(page.keys, upTo)
      ensures Within(kept, upTo)
    {
      kept := [];
      page := Page([], None);
      ok := Await(r, mine, quiet);
      if !ok { return; }
      page := live.ListObjects("", PAGE, cursor);
      kept := Keep(page.keys, upTo);
      UpToFacts(page.keys, upTo);
      Take(ListLive(r, kept));
    }

    /** One turn of the paging loop; `next` is where to go on, if anywhere. */
    method LiveTurn(ghost r: nat, ghost mine: string, upTo: string, quiet: bool, cursor: Option<string>,
                    toCompact: seq<string>)
      returns (ok: bool, next: Option<string>, toCompact': seq<string>)
      requires Valid() && r in st.runs && st.runs[r] == FreshRun.(toCompact := toCompact)
      modifies this, live, archives
      ensures Valid() && old(trace) <= trace
      ensures WasPut(st, mine) <==> WasPut(old(st), mine)
      ensures r in st.runs && st.runs[r] == FreshRun.(toCompact := toCompact')
      ensures quiet ==> st.live == old(st).live && st.archives == old(st).archives
      ensures quiet ==> ok && Turned(old(live.objects.Keys), upTo, cursor, next, toCompact, toCompact')
      ensures Within(toCompact, upTo) ==> Within(toCompact', upTo)
    {
      var page, kept;
      ok, page, kept := LivePage(r, mine, upTo, quiet, cursor);
      toCompact' := toCompact + kept;
      next := None;
      if !ok { return; }
      var lastPast := |page.keys| > 0 && Less(upTo, page.keys[|page.keys| - 1]);
      if quiet { PageStep(old(live.objects.Keys), upTo, cursor); }
      if page.next.Some? && !lastPast { next := page.next; }
    }

    /** Lists, page by page, the live keys at or below the boundary. */
    method CollectLive(ghost r: nat, ghost mine: string, upTo: string, quiet: bool, patience: nat)
      returns (ok: bool, toCompact: seq<string>)
      requires Valid() && r in st.runs && st.runs[r] == FreshRun
      modifies this, live, archives
      ensures Valid() && old(trace) <= trace
      ensures WasPut(st, mine) <==> WasPut(old(st), mine)
      ensures r in st.runs && st.runs[r] == FreshRun.(toCompact := toCompact)
      ensures quiet ==> st.live == old(st).live && st.archives == old(st).archives
      ensures quiet ==> ok && toCompact == LiveUpTo(old(live.objects), upTo)
      ensures Within(toCompact, upTo)
    {
      var cursor: Option<string> := None;
      var left := patience;
      toCompact := [];
      ghost var keys, all := live.objects.Keys, LiveUpTo(live.objects, upTo);
      while true
        invariant Valid() && old(trace) <= trace
        invariant WasPut(st, mine) <==> WasPut(old(st), mine)
        invariant r in st.runs && st.runs[r] == FreshRun.(toCompact := toCompact)
        invariant quiet ==> st.live == old(st).live && st.archives == old(st).archives
        invariant quiet ==> all == toCompact + UpTo(Matching(keys, "", cursor), upTo)
        invariant Within(toCompact, upTo)
        decreases if quiet then |Matching(keys, "", cursor)| else left
      {
        if !quiet {
          if left == 0 { ok := false; return; }
          left := left - 1;
        }
        var next;
        ok, next, toCompact := LiveTurn(r, mine, upTo, quiet, cursor, toCompact);
        if !ok { return; }
        if next.None? { break; }
        cursor := next;
      }
    }

    /** The page's keys that the boundary check lets through. */
    method Keep(keys: seq<string>, upTo: string) returns (kept: seq<string>)
      ensures kept == UpTo(keys, upTo)
    {
      kept := [];
      var i := 0;
      while i < |keys|
        invariant i <= |keys|
        invariant UpTo(keys, upTo) == kept + UpTo(keys[i..], upTo)
      {
        assert keys[i..][0] == keys[i] && keys[i..][1..] == keys[i + 1..];
        if AtMost(keys[i], upTo) {
          kept := kept + [keys[i]];
        }
        i := i + 1;
      }
    }

    /** One GET of the reading loop; an object that is gone adds nothing. */
    method ReadOneLive(ghost r: nat, ghost mine: string, toCompact: seq<string>, i: nat, newObjects: seq<Value>,
                       quiet: bool)
      returns (ok: bool, more: seq<Value>)
      requires i < |toCompact| && Valid() && r in st.runs
      requires st.runs[r] == FreshRun.(toCompact := toCompact, readLive := i, newObjects := newObjects)
      modifies this, live, archives
      ensures Valid() && old(trace) <= trace
      ensures WasPut(st, mine) <==> WasPut(old(st), mine)
      ensures r in st.runs
      ensures ok ==> st.runs[r] == FreshRun.(toCompact := toCompact, readLive := i + 1, newObjects := newObjects + more)
      ensures quiet ==> ok && st.live == old(st).live && st.archives == old(st).archives
      ensures quiet ==> more == if toCompact[i] in old(st).live then [old(st).live[toCompact[i]]] else []
    {
      more := [];
      ok := Await(r, mine, quiet);
      if !ok { return; }
      var got := live.GetObject(toCompact[i]);
      Take(GetLive(r));
      if got.Some? { more := [got.value]; }
    }

    method ReadLive(ghost r: nat, ghost mine: string, toCompact: seq<string>, quiet: bool)
      returns (ok: bool, newObjects: seq<Value>)
      requires Valid() && r in st.runs && st.runs[r] == FreshRun.(toCompact := toCompact)
      modifies this, live, archives
      ensures Valid() && old(trace) <= trace
      ensures WasPut(st, mine) <==> WasPut(old(st), mine)
      ensures r in st.runs
      ensures ok ==> st.runs[r] == FreshRun.(toCompact := toCompact, readLive := |toCompact|, newObjects := newObjects)
      ensures quiet ==> (ok && newObjects == ValuesAt(old(live.objects), toCompact)
                     && st.live == old(st).live && st.archives == old(st).archives)
    {
      ok := true;
      newObjects := [];
      var i := 0;
      ghost var s0, t0 := st, trace;
      while i < |toCompact|
        invariant i <= |toCompact| && ok
        invariant Valid() && t0 <= trace
        invariant WasPut(st, mine) <==> WasPut(s0, mine)
        invariant r in st.runs
        invariant st.runs[r] == FreshRun.(toCompact := toCompact, readLive := i, newObjects := newObjects)
        invariant quiet ==> st.live == s0.live && st.archives == s0.archives
        invariant quiet ==> newObjects == ValuesAt(s0.live, toCompact[..i])
      {
        var more;
        ok, more := ReadOneLive(r, mine, toCompact, i, newObjects, quiet);
        if !ok { return; }
        assert toCompact[..i + 1][..i] == toCompact[..i];
        i := i + 1;
        newObjects := newObjects + more;
      }
      assert toCompact[..i] == toCompact;
    }

    method ArchivePage(ghost r: nat, ghost mine: string, today: string, quiet: bool, cursor: Option<string>)
      returns (ok: bool, page: Page)
      requires Valid() && r in st.runs && st.runs[r].readArchives == 0 && st.runs[r].output.None?
      requires 0 < |st.runs[r].toCompact| == st.runs[r].readLive
      modifies this, live, archives
      ensures Valid() && old(trace) <= trace
      ensures WasPut(st, mine) <==> WasPut(old(st), mine)
      ensures r in st.runs && st.runs[r] == old(st).runs[r].(listed := old(st).runs[r].listed + page.keys)
      ensures quiet ==> st.live == old(st).live && st.archives == old(st).archives
      ensures quiet ==> ok && page == PageOf(old(archives.objects.Keys), today, PAGE, cursor)
    {
      page := Page([], None);
      ok := Await(r, mine, quiet);
      if !ok { return; }
      page := archives.ListObjects(today, PAGE, cursor);
      Take(ListArchives(r, page.keys));
    }

    method ArchiveTurn(ghost r: nat, ghost mine: string, today: string, quiet: bool, cursor: Option<string>,
                       listed: seq<string>)
      returns (ok: bool, next: Option<string>, listed': seq<string>)
      requires Valid() && r in st.runs && st.runs[r].listed == listed
      requires st.runs[r].readArchives == 0 && st.runs[r].output.None?
      requires 0 < |st.runs[r].toCompact| == st.runs[r].readLive
      modifies this, live, archives
      ensures Valid() && old(trace) <= trace
      ensures WasPut(st, mine) <==> WasPut(old(st), mine)
      ensures r in st.runs && st.runs[r] == old(st).runs[r].(listed := listed')
      ensures quiet ==> st.live == old(st).live && st.archives == old(st).archives
      ensures quiet ==> ok && DayTurned(old(archives.objects.Keys), today, cursor, next, listed, listed')
    {
      var page;
      ok, page := ArchivePage(r, mine, today, quiet, cursor);
      listed' := listed + page.keys;
      if quiet { DayPage(old(archives.objects.Keys), today, cursor); }
      next := page.next;
    }

    method CollectArchives(ghost r: nat, ghost mine: string, today: string, quiet: bool, patience: nat)
      returns (ok: bool, listed: seq<string>)
      requires Valid() && r in st.runs && st.runs[r].listed == []
      requires st.runs[r].readArchives == 0 && st.runs[r].output.None?
      requires 0 < |st.runs[r].toCompact| == st.runs[r].readLive
      modifies this, live, archives
      ensures Valid() && old(trace) <= trace
      ensures WasPut(st, mine) <==> WasPut(old(st), mine)
      ensures r in st.runs && st.runs[r] == old(st).runs[r].(listed := listed)
      ensures quiet ==> st.live == old(st).live && st.archives == old(st).archives
      ensures quiet ==> ok && listed == SameDay(old(archives.objects), today)
    {
      var cursor: Option<string> := None;
      var left := patience;
      listed := [];
      ghost var keys, all := archives.objects.Keys, SameDay(archives.objects, today);
      while true
        invariant Valid() && old(trace) <= trace
        invariant WasPut(st, mine) <==> WasPut(old(st), mine)
        invariant r in st.runs && st.runs[r] == old(st).runs[r].(listed := listed)
        invariant quiet ==> st.live == old(st).live && st.archives == old(st).archives
        invariant quiet ==> all == listed + Matching(keys, today, cursor)
        decreases if quiet then |Matching(keys, today, cursor)| else left
      {
        if !quiet {
          if left == 0 { ok := false; return; }
          left := left - 1;
        }
        var next;
        ok, next, listed := ArchiveTurn(r, mine, today, quiet, cursor, listed);
        if !ok { return; }
        if next.None? { break; }
        cursor := next;
      }
    }

    method ReadArchives(ghost r: nat, ghost mine: string, listed: seq<string>, quiet: bool)
      returns (ok: bool, existing: seq<Value>)
      requires Valid() && r in st.runs
      requires st.runs[r].listed == listed && 0 < |st.runs[r].toCompact| == st.runs[r].readLive
      requires st.runs[r].readArchives == 0 && st.runs[r].existing == [] && st.runs[r].output.None?
      modifies this, live, archives
      ensures Valid() && old(trace) <= trace
      ensures WasPut(st, mine) <==> WasPut(old(st), mine)
      ensures r in st.runs
      ensures ok ==> st.runs[r] == old(st).runs[r].(readArchives := |listed|, existing := existing)
      ensures quiet ==> (ok && existing == EntriesAt(old(archives.objects), listed)
                     && st.live == old(st).live && st.archives == old(st).archives)
    {
      ok := true;
      existing := [];
      var i := 0;
      ghost var s0, t0 := st, trace;
      while i < |listed|
        invariant i <= |listed| && ok
        invariant Valid() && t0 <= trace
        invariant WasPut(st, mine) <==> WasPut(s0, mine)
        invariant r in st.runs && st.runs[r] == s0.runs[r].(readArchives := i, existing := existing)
        invariant quiet ==> st.live == s0.live && st.archives == s0.archives
        invariant quiet ==> existing == EntriesAt(s0.archives, listed[..i])
      {
        ok := Await(r, mine, quiet);
        if !ok { return; }
        var got := archives.GetObject(listed[i]);
        Take(GetArchive(r));
        assert listed[..i + 1][..i] == listed[..i];
        i := i + 1;
        if got.Some? {
          existing := existing + got.value;
        }
      }
      assert listed[..i] == listed;
    }

    method DropLive(ghost r: nat, ghost mine: string, key: string, quiet: bool) returns (ok: bool)
      requires Valid() && r in st.runs && st.runs[r].output.Some? && key in st.runs[r].toCompact
      modifies this, live, archives
      ensures Valid() && old(trace) <= trace
      ensures r in st.runs && st.runs[r] == old(st).runs[r]
      ensures quiet ==> ok && st.archives == old(st).archives && st.live == old(st).live - {key}
      ensures ok ==> DeleteLive(r, key) in trace
    {
      ok := Await(r, mine, quiet);
      if !ok { return; }
      live.DeleteObject(key);
      Take(DeleteLive(r, key));
      assert trace[|trace| - 1] == DeleteLive(r, key);
    }

    method DeleteCompacted(ghost r: nat, ghost mine: string, keys: seq<string>, quiet: bool) returns (ok: bool)
      requires Valid() && r in st.runs && st.runs[r].output.Some? && st.runs[r].toCompact == keys
      modifies this, live, archives
      ensures Valid() && old(trace) <= trace
      ensures r in st.runs && st.runs[r] == old(st).runs[r]
      ensures quiet ==> ok && st.archives == old(st).archives && st.live == old(st).live - (set k | k in keys)
      ensures ok ==> LiveDeleted(trace, r, keys)
    {
      ok := true;
      var i := 0;
      while i < |keys|
        invariant i <= |keys| && ok
        invariant Valid() && old(trace) <= trace
        invariant r in st.runs && st.runs[r] == old(st).runs[r]
        invariant quiet ==> st.archives == old(st).archives && st.live == old(st).live - (set k | k in keys[..i])
        invariant LiveDeleted(trace, r, keys[..i])
      {
        ghost var before := trace;
        ok := DropLive(r, mine, keys[i], quiet);
        if !ok { return; }
        LiveDeletedNext(before, trace, r, keys, i);
        i := i + 1;
      }
      assert keys[..i] == keys;
    }

    method DropArchive(ghost r: nat, ghost mine: string, key: string, quiet: bool) returns (ok: bool)
      requires Valid() && r in st.runs && st.runs[r].output.Some? && key in st.runs[r].listed
      modifies this, live, archives
      ensures Valid() && old(trace) <= trace
      ensures r in st.runs && st.runs[r] == old(st).runs[r]
      ensures quiet ==> ok && st.live == old(st).live && st.archives == old(st).archives - {key}
      ensures ok ==> DeleteArchive(r, key) in trace
    {
      ok := Await(r, mine, quiet);
      if !ok { return; }
      archives.DeleteObject(key);
      Take(DeleteArchive(r, key));
      assert trace[|trace| - 1] == DeleteArchive(r, key);
    }

    method DeleteMerged(ghost r: nat, ghost mine: string, keys: seq<string>, quiet: bool) returns (ok: bool)
      requires Valid() && r in st.runs && st.runs[r].output.Some? && st.runs[r].listed == keys
      modifies this, live, archives
      ensures Valid() && old(trace) <= trace
      ensures r in st.runs && st.runs[r] == old(st).runs[r]
      ensures quiet ==> ok && st.live == old(st).live && st.archives == old(st).archives - (set k | k in keys)
      ensures ok ==> ArchivesDeleted(trace, r, keys)
    {
      ok := true;
      var i := 0;
      while i < |keys|
        invariant i <= |keys| && ok
        invariant Valid() && old(trace) <= trace
        invariant r in st.runs && st.runs[r] == old(st).runs[r]
        invariant quiet ==> st.live == old(st).live && st.archives == old(st).archives - (set k | k in keys[..i])
        invariant ArchivesDeleted(trace, r, keys[..i])
      {
        ghost var before := trace;
        ok := DropArchive(r, mine, keys[i], quiet);
        if !ok { return; }
        ArchivesDeletedNext(before, trace, r, keys, i);
        i := i + 1;
      }
      assert keys[..i] == keys;
    }

    /** The listing and reading half of the handler. */
    method Gather(ghost r: nat, ghost mine: string, upTo: string, today: string, quiet: bool, patience: nat)
      returns (ok: bool, toCompact: seq<string>, newObjects: seq<Value>, listed: seq<string>, existing: seq<Value>)
      requires Valid() && r in st.runs && st.runs[r] == FreshRun
      modifies this, live, archives
      ensures Valid() && old(trace) <= trace
      ensures WasPut(st, mine) <==> WasPut(old(st), mine)
      ensures r in st.runs
      ensures ok && toCompact != [] ==>
                st.runs[r] == Run(toCompact, |toCompact|, newObjects, listed, |listed|, existing, None)
      ensures ok && toCompact == [] ==> st.runs[r] == FreshRun
      ensures Within(toCompact, upTo)
      ensures quiet ==> st.live == old(st).live && st.archives == old(st).archives
      ensures quiet ==> ok && toCompact == LiveUpTo(old(live.objects), upTo)
      ensures quiet && toCompact != [] ==>
                && newObjects == ValuesAt(old(live.objects), toCompact)
                && listed == SameDay(old(archives.objects), today)
                && existing == EntriesAt(old(archives.objects), listed)
    {
      newObjects, listed, existing := [], [], [];
      ok, toCompact := CollectLive(r, mine, upTo, quiet, patience);
      if !ok || |toCompact| == 0 { return; }
      ok, newObjects := ReadLive(r, mine, toCompact, quiet);
      if !ok { return; }
      ok, listed := CollectArchives(r, mine, today, quiet, patience);
      if !ok { return; }
      ok, existing := ReadArchives(r, mine, listed, quiet);
    }

    /** The writing half: deletion waits until the merged archive is in the store. */
    method Replace(ghost r: nat, key: string, toCompact: seq<string>, newObjects: seq<Value>,
                   listed: seq<string>, existing: seq<Value>, quiet: bool)
      returns (ok: bool)
      requires Valid() && r in st.runs && !WasPut(st, key) && toCompact != []
      requires st.runs[r] == Run(toCompact, |toCompact|, newObjects, listed, |listed|, existing, None)
      modifies this, live, archives
      ensures Valid() && old(trace) <= trace
      ensures ok ==>
                && r in st.runs && st.runs[r].output.Some? && st.runs[r].(output := None) == old(st).runs[r]
                && st.runs[r].output.value < |st.puts|
                && st.puts[st.runs[r].output.value] == Archive(key, Merged(st.runs[r]))
                && LiveDeleted(trace, r, toCompact) && ArchivesDeleted(trace, r, listed)
      ensures quiet ==> ok && live.objects == old(live.objects) - (set k | k in toCompact)
      ensures quiet ==>
                archives.objects == old(archives.objects)[key := Dedup(existing + newObjects)] - (set k | k in listed)
    {
      var merged := DeduplicateByMsgId(existing + newObjects);
      ok := Await(r, key, quiet);
      if !ok { return; }
      archives.PutObject(key, merged);
      ghost var n := |st.puts|;
      Take(PutArchive(r, key));
      assert st.puts[n] == Archive(key, Merged(st.runs[r]));
      ghost var t1 := trace;
      ok := DeleteCompacted(r, key, toCompact, quiet);
      if !ok { return; }
      ghost var t2 := trace;
      ok := DeleteMerged(r, key, listed, quiet);
      if !ok { return; }
      DeletedStays(t2, trace, r, toCompact);
      PutStays(t1, trace, n);
    }

    /** The handler. Whatever the other handlers do and wherever it gives up, what it did is
        part of a run of the state machine; undisturbed, it moves exactly the live objects at
        or below the boundary into one archive that also holds the day's earlier ones. */
    method StoreCompact(ghost r: nat, upTo: string, today: string, ulid: string, quiet: bool, patience: nat)
      returns (reply: Reply)
      requires Valid() && r !in st.runs && !WasPut(st, today + "-" + ulid)
      modifies this, live, archives
      ensures Valid() && old(trace) <= trace
      ensures upTo == "" <==> reply == BadRequest
      ensures upTo == "" ==> st == old(st)
      ensures reply.Done? ==>
                if reply.archiveKey == "" then reply.archived == 0 && r in st.runs && st.runs[r] == FreshRun
                else (&& reply.archiveKey == today + "-" + ulid
                      && Completed(trace, st, r, upTo, reply.archiveKey, reply.archived))
      ensures DeletesOnlyListed(trace, st, r)
      ensures quiet && upTo != "" ==>
                Undisturbed(old(live.objects), old(archives.objects), upTo, today, today + "-" + ulid,
                            live.objects, archives.objects, reply)
    {
      if upTo == "" {
        OnlyListedDeleted(Init, trace, r);
        return BadRequest;
      }
      reply := CompactRun(r, upTo, today, ulid, quiet, patience);
      OnlyListedDeleted(Init, trace, r);
    }

    /** Everything after the request is accepted. */
    method CompactRun(ghost r: nat, upTo: string, today: string, ulid: string, quiet: bool, patience: nat)
      returns (reply: Reply)
      requires Valid() && r !in st.runs && !WasPut(st, today + "-" + ulid) && upTo != ""
      modifies this, live, archives
      ensures Valid() && old(trace) <= trace && reply != BadRequest
      ensures reply.Done? ==>
                if reply.archiveKey == "" then reply.archived == 0 && r in st.runs && st.runs[r] == FreshRun
                else (&& reply.archiveKey == today + "-" + ulid
                      && Completed(trace, st, r, upTo, reply.archiveKey, reply.archived))
      ensures quiet ==>
                Undisturbed(old(live.objects), old(archives.objects), upTo, today, today + "-" + ulid,
                            live.objects, archives.objects, reply)
    {
      var key := today + "-" + ulid;
      ghost var archives0 := archives.objects;
      PresentWasPut(trace, st);
      Take(Start(r));
      var ok, toCompact, newObjects, listed, existing := Gather(r, key, upTo, today, quiet, patience);
      if !ok { return Failed; }
      if |toCompact| == 0 { return Done(0, ""); }
      ok := Replace(r, key, toCompact, newObjects, listed, existing, quiet);
      if !ok { return Failed; }
      reply := Done(|newObjects|, key);
      if quiet {
        UndisturbedEffect(old(live.objects), archives0, upTo, today, key);
      }
    }
  }

  /** The effect of a compaction nothing else interferes with. */
  ghost predicate Undisturbed(
    live: map<string, Value>, archives: map<string, seq<Value>>, upTo: string, today: string, key: string,
    live': map<string, Value>, archives': map<string, seq<Value>>, reply: Reply)
  {
    var keys := LiveUpTo(live, upTo);
    if keys == [] then reply == Done(0, "") && live' == live && archives' == archives
    else
      && reply == Done(|keys|, key)
      && live' == live - (set k | k in keys)
      && archives' == (archives - (set k | k in SameDay(archives, today)))[key := Folded(live, archives, upTo, today)]
  }

  lemma UndisturbedEffect(
    live: map<string, Value>, archives: map<string, seq<Value>>, upTo: string, today: string, key: string)
    requires LiveUpTo(live, upTo) != [] && key !in archives
    ensures var keys := LiveUpTo(live, upTo);
            Undisturbed(live, archives, upTo, today, key, live - (set k | k in keys),
              archives[key := Folded(live, archives, upTo, today)] - (set k | k in SameDay(archives, today)),
              Done(|ValuesAt(live, keys)|, key))
  {
    LiveUpToFacts(live, upTo);
    ValuesPresent(live, LiveUpTo(live, upTo));
    MatchingFacts(archives.Keys, today, None);
    var gone := set k | k in SameDay(archives, today);
    assert archives[key := Folded(live, archives, upTo, today)] - gone
        == (archives - gone)[key := Folded(live, archives, upTo, today)];
  }

  /** The paging loop gathers exactly the live keys at or below the boundary. */
  lemma LiveUpToFacts(live: map<string, Value>, upTo: string)
    ensures forall k :: k in LiveUpTo(live, upTo) <==> k in live && AtMost(k, upTo)
  {
    MatchingFacts(live.Keys, "", None);
    UpToFacts(Matching(live.Keys, "", None), upTo);
  }

  lemma {:induction false} ValuesPresent(live: map<string, Value>, keys: seq<string>)
    requires forall k :: k in keys ==> k in live
    ensures |ValuesAt(live, keys)| == |keys|
  {
    if keys != [] { ValuesPresent(live, keys[..|keys| - 1]); }
  }

  // ---- repeated compactions of one day ----

  lemma {:induction false} UpToAscending(keys: seq<string>, boundary: string)
    requires Ascending(keys)
    ensures Ascending(UpTo(keys, boundary))
  {
    if keys != [] {
      UpToAscending(keys[1..], boundary);
      UpToFacts(keys[1..], boundary);
      var rest := UpTo(keys[1..], boundary);
      assert forall j :: 0 <= j < |rest| ==> rest[j] in rest;
    }
  }

  lemma {:induction false} ValuesConcat(live: map<string, Value>, a: seq<string>, b: seq<string>)
    ensures ValuesAt(live, a + b) == ValuesAt(live, a) + ValuesAt(live, b)
  {
    if b == [] {
      assert a + b == a;
    } else {
      var n := |b| - 1;
      assert (a + b)[..|a| + n] == a + b[..n];
      ValuesConcat(live, a, b[..n]);
    }
  }

  lemma {:induction false} ValuesFrame(live: map<string, Value>, live': map<string, Value>, keys: seq<string>)
    requires forall k :: k in keys ==> (k in live <==> k in live') && (k in live ==> live[k] == live'[k])
    ensures ValuesAt(live, keys) == ValuesAt(live', keys)
  {
    if keys != [] { ValuesFrame(live, live', keys[..|keys| - 1]); }
  }

  /** Messages that sort after the earlier ones list after them. */
  lemma LiveUpToSplits(early: map<string, Value>, late: map<string, Value>, upTo: string)
    requires forall a, b :: a in early && b in late ==> Less(a, b)
    ensures LiveUpTo(early + late, upTo) == LiveUpTo(early, upTo) + LiveUpTo(late, upTo)
  {
    var a, b, c := LiveUpTo(early, upTo), LiveUpTo(late, upTo), LiveUpTo(early + late, upTo);
    LiveUpToFacts(early, upTo);
    LiveUpToFacts(late, upTo);
    LiveUpToFacts(early + late, upTo);
    MatchingFacts(early.Keys, "", None);
    MatchingFacts(late.Keys, "", None);
    MatchingFacts((early + late).Keys, "", None);
    UpToAscending(Matching(early.Keys, "", None), upTo);
    UpToAscending(Matching(late.Keys, "", None), upTo);
    UpToAscending(Matching((early + late).Keys, "", None), upTo);
    forall i, j | 0 <= i < j < |a + b| ensures Less((a + b)[i], (a + b)[j]) {
      if i < |a| <= j { assert a[i] in a && b[j - |a|] in b; }
    }
    AscendingUnique(a + b, c);
  }

  /** Two undisturbed compactions on one day leave the archive one compaction would have:
      the second folds the first's archive and the later messages into the same entries. */
  lemma TwoCompactionsEqualOne(
    early: map<string, Value>, late: map<string, Value>, archives: map<string, seq<Value>>,
    upTo: string, today: string, key: string, between: map<string, seq<Value>>)
    requires forall a, b :: a in early && b in late ==> Less(a, b)
    requires LiveUpTo(early, upTo) != [] && key !in archives && today <= key
    requires Undisturbed(early, archives, upTo, today, key,
               early - (set k | k in LiveUpTo(early, upTo)), between, Done(|LiveUpTo(early, upTo)|, key))
    ensures Folded(late, between, upTo, today) == Folded(early + late, archives, upTo, today)
  {
    var first := Folded(early, archives, upTo, today);
    OnlyArchiveOfTheDay(archives, between, today, key, first);
    var e, l := LiveUpTo(early, upTo), LiveUpTo(late, upTo);
    var earlier := EntriesAt(archives, SameDay(archives, today));
    BothBatches(early, late, upTo);
    FoldTwice(earlier, ValuesAt(early, e), ValuesAt(late, l));
  }

  lemma FoldTwice(a: seq<Value>, b: seq<Value>, c: seq<Value>)
    ensures Dedup(Dedup(a + b) + c) == Dedup(a + (b + c))
  {
    DedupIncremental(a + b, c);
    assert a + b + c == a + (b + c);
  }

  lemma OnlyArchiveOfTheDay(archives: map<string, seq<Value>>, between: map<string, seq<Value>>, today: string,
                            key: string, first: seq<Value>)
    requires today <= key && key !in archives
    requires between == (archives - (set k | k in SameDay(archives, today)))[key := first]
    ensures EntriesAt(between, SameDay(between, today)) == first
  {
    MatchingFacts(archives.Keys, today, None);
    MatchingFacts(between.Keys, today, None);
    var one := [key];
    forall k ensures k in SameDay(between, today) <==> k in one {
      assert k in one <==> k == key;
    }
    AscendingUnique(SameDay(between, today), one);
    assert one[..0] == [];
    assert EntriesAt(between, one) == EntriesAt(between, one[..0]) + between[key];
  }

  lemma BothBatches(early: map<string, Value>, late: map<string, Value>, upTo: string)
    requires forall a, b :: a in early && b in late ==> Less(a, b)
    ensures ValuesAt(early + late, LiveUpTo(early + late, upTo))
         == ValuesAt(early, LiveUpTo(early, upTo)) + ValuesAt(late, LiveUpTo(late, upTo))
  {
    var e, l := LiveUpTo(early, upTo), LiveUpTo(late, upTo);
    LiveUpToSplits(early, late, upTo);
    ValuesConcat(early + late, e, l);
    LiveUpToFacts(early, upTo);
    LiveUpToFacts(late, upTo);
    forall k | k in e ensures k !in late { if k in late { LessIrreflexive(k); } }
    ValuesFrame(early, early + late, e);
    ValuesFrame(late, early + late, l);
  }
}
