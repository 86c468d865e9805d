/** Read watermarks shared between devices: the merge is a join, and GET, merge, PUT without
    locking converges on the join of everything marked. */
module ReadMarkers {
  import opened Wrappers

  /** Conversation to watermark. */
  type Markers = map<string, int>

  /** A device's conversation rows; 0 stands for a row that has no watermark. */
  type Rows = map<string, int>

  function At(m: map<string, int>, c: string): int
  {
    if c in m then m[c] else 0
  }

  function Merge(a: Markers, b: Markers): Markers
  {
    map c | c in a.Keys + b.Keys && (c in a || b[c] > 0) ::
      if c in b && b[c] > At(a, c) then b[c] else a[c]
  }

  /** The entries already iterated over. */
  function Without(b: Markers, left: set<string>): Markers
  {
    map c | c in b && c !in left :: b[c]
  }

  method MergeMarkers(a: Markers, b: Markers) returns (out: Markers)
    ensures out == Merge(a, b)
  {
    out := a;
    var left := b.Keys;
    while left != {}
      invariant left <= b.Keys
      invariant out == Merge(a, Without(b, left))
      decreases left
    {
      var cid :| cid in left;
      MergeOneMore(a, b, left, cid);
      left := left - {cid};
      if b[cid] > At(out, cid) { out := out[cid := b[cid]]; }
    }
    assert Without(b, left) == b;
  }

  lemma MergeOneMore(a: Markers, b: Markers, left: set<string>, c: string)
    requires c in left && c in b
    ensures var out := Merge(a, Without(b, left));
            Merge(a, Without(b, left - {c})) == if b[c] > At(out, c) then out[c := b[c]] else out
  {
    var out, r := Merge(a, Without(b, left)), Merge(a, Without(b, left - {c}));
    assert forall x :: x != c ==> (x in out <==> x in r) && (x in out ==> out[x] == r[x]);
  }

  // ---- the join ----

  ghost predicate Positive(m: Markers)
  {
    forall c :: c in m ==> m[c] > 0
  }

  ghost predicate NonNegative(m: Rows)
  {
    forall c :: c in m ==> m[c] >= 0
  }

  ghost predicate Leq(a: map<string, int>, b: map<string, int>)
  {
    forall c :: At(a, c) <= At(b, c)
  }

  lemma LeqTransitive(a: map<string, int>, b: map<string, int>, c: map<string, int>)
    requires Leq(a, b) && Leq(b, c)
    ensures Leq(a, c)
  {
    forall x ensures At(a, x) <= At(c, x) { assert At(a, x) <= At(b, x) <= At(c, x); }
  }

  lemma LeqAntisymmetric(a: Markers, b: Markers)
    requires Positive(a) && Positive(b) && Leq(a, b) && Leq(b, a)
    ensures a == b
  {
    forall c ensures (c in a <==> c in b) && (c in a ==> a[c] == b[c]) {
      assert At(a, c) == At(b, c);
    }
  }

  /** On positive watermarks the merge is the least upper bound. */
  lemma MergeIsJoin(a: Markers, b: Markers)
    requires Positive(a) && Positive(b)
    ensures Positive(Merge(a, b)) && Leq(a, Merge(a, b)) && Leq(b, Merge(a, b))
    ensures forall u: map<string, int> :: Leq(a, u) && Leq(b, u) ==> Leq(Merge(a, b), u)
  {
    var m := Merge(a, b);
    forall u: map<string, int> | Leq(a, u) && Leq(b, u) ensures Leq(m, u) {
      forall c ensures At(m, c) <= At(u, c) { assert At(a, c) <= At(u, c) && At(b, c) <= At(u, c); }
    }
  }

  lemma MergeAssociative(a: Markers, b: Markers, c: Markers)
    requires Positive(a) && Positive(b) && Positive(c)
    ensures Merge(Merge(a, b), c) == Merge(a, Merge(b, c))
  {
    MergeIsJoin(a, b);
    MergeIsJoin(b, c);
    MergeIsJoin(Merge(a, b), c);
    MergeIsJoin(a, Merge(b, c));
    var l, r := Merge(Merge(a, b), c), Merge(a, Merge(b, c));
    LeqTransitive(a, Merge(a, b), l);
    LeqTransitive(b, Merge(a, b), l);
    LeqTransitive(b, Merge(b, c), r);
    LeqTransitive(c, Merge(b, c), r);
    LeqAntisymmetric(l, r);
  }

  lemma MergeIdempotent(a: Markers)
    ensures Merge(a, a) == a
  {
    assert Merge(a, a).Keys == a.Keys;
  }

  /** The merge commutes exactly when every watermark that only one side holds is positive. */
  lemma CommutesIffLonePositive(a: Markers, b: Markers)
    ensures Merge(a, b) == Merge(b, a)
       <==> forall c :: (c in a && c !in b ==> a[c] > 0) && (c in b && c !in a ==> b[c] > 0)
  {
    var l, r := Merge(a, b), Merge(b, a);
    forall c ensures (c in l <==> c in r) <==> (c in a && c !in b ==> a[c] > 0) && (c in b && c !in a ==> b[c] > 0) {}
    if forall c :: (c in a && c !in b ==> a[c] > 0) && (c in b && c !in a ==> b[c] > 0) {
      forall c | c in l ensures l[c] == r[c] {}
      assert l.Keys == r.Keys;
    }
  }

  // ---- what a device does ----

  function Marked(rows: Rows, c: string, ts: int): Rows
  {
    if c in rows && ts > rows[c] then rows[c := ts] else rows
  }

  function Loaded(rows: Rows): Markers
  {
    map c | c in rows && rows[c] != 0 :: rows[c]
  }

  /** The conversations where the merge is ahead of `base`. */
  function Ahead(merged: Markers, base: Markers): set<string>
  {
    set c | c in merged && merged[c] > At(base, c)
  }

  /** The rows after the merged watermarks of `todo` have been marked. */
  function Advanced(rows: Rows, merged: Markers, todo: set<string>): Rows
    requires todo <= merged.Keys
  {
    map c | c in rows :: if c in todo && merged[c] > rows[c] then merged[c] else rows[c]
  }

  function Uploaded(merged: Markers, remote: Markers, blob: Markers): Markers
  {
    if Ahead(merged, remote) == {} then blob else merged
  }

  /** How the GET of the blob ends. */
  datatype Fetch = Found | Failed | Throws

  /** The one encrypted blob all devices share. */
  class Remote {
    var blob: Markers
    constructor ()
      ensures blob == map[]
    {
      blob := map[];
    }
  }

  class Device {
    const remote: Remote
    var rows: Rows

    constructor (remote: Remote)
      ensures this.remote == remote && rows == map[]
    {
      this.remote := remote;
      rows := map[];
    }

    method MarkConversationRead(c: string, ts: int) returns (advanced: bool)
      modifies this`rows
      ensures rows == Marked(old(rows), c, ts)
      ensures advanced <==> rows != old(rows)
    {
      if c !in rows { return false; }
      if ts <= rows[c] { return false; }
      rows := rows[c := ts];
      return true;
    }

    method LoadReadMarkers() returns (markers: Markers)
      ensures markers == Loaded(rows)
    {
      markers := map[];
      var left := rows.Keys;
      while left != {}
        invariant left <= rows.Keys
        invariant markers == Loaded(map c | c in rows && c !in left :: rows[c])
        decreases left
      {
        var c :| c in left;
        left := left - {c};
        if rows[c] != 0 { markers := markers[c := rows[c]]; }
      }
      assert (map c | c in rows && c !in left :: rows[c]) == rows;
    }

    method ApplyMerged(merged: Markers, local: Markers, got: Markers)
      returns (localAdvanced: bool, aheadOfRemote: bool)
      modifies this`rows
      ensures rows == Advanced(old(rows), merged, Ahead(merged, local))
      ensures localAdvanced <==> rows != old(rows)
      ensures aheadOfRemote <==> Ahead(merged, got) != {}
    {
      localAdvanced, aheadOfRemote := false, false;
      var left := merged.Keys;
      while left != {}
        invariant left <= merged.Keys
        invariant rows == Advanced(old(rows), merged, Ahead(merged, local) - left)
        invariant localAdvanced <==> rows != old(rows)
        invariant aheadOfRemote <==> exists c :: c in Ahead(merged, got) && c !in left
        decreases left
      {
        var cid :| cid in left;
        AdvancedAlso(old(rows), merged, Ahead(merged, local) - left, cid);
        LeaveOne(Ahead(merged, local), left, cid);
        left := left - {cid};
        var advanced := ApplyOne(cid, merged[cid], local);
        if advanced { localAdvanced := true; }
        if merged[cid] > At(got, cid) { aheadOfRemote := true; }
      }
      assert Ahead(merged, local) - left == Ahead(merged, local);
    }

    method ApplyOne(cid: string, ts: int, local: Markers) returns (advanced: bool)
      modifies this`rows
      ensures rows == if ts > At(local, cid) then Marked(old(rows), cid, ts) else old(rows)
      ensures advanced <==> rows != old(rows)
    {
      advanced := false;
      if ts > At(local, cid) { advanced := MarkConversationRead(cid, ts); }
    }

    /** One sync that nothing interleaves with. A GET that fails reads as an empty blob; a blob
        that cannot be decrypted stops the sync before it does anything; a PUT that fails leaves
        the rows advanced. */
    method SyncReadMarkers(get: Fetch, putOk: bool) returns (result: Option<bool>)
      modifies this`rows, remote
      ensures get.Throws? ==> result == None && rows == old(rows) && remote.blob == old(remote.blob)
      ensures !get.Throws? ==>
                var got := if get.Found? then old(remote.blob) else map[];
                var local := Loaded(old(rows));
                var merged := Merge(local, got);
                && rows == Advanced(old(rows), merged, Ahead(merged, local))
                && remote.blob == (if putOk then Uploaded(merged, got, old(remote.blob)) else old(remote.blob))
                && result == if putOk || Ahead(merged, got) == {} then Some(rows != old(rows)) else None
    {
      if get.Throws? { return None; }
      var got: Markers := if get.Found? then remote.blob else map[];
      var local := LoadReadMarkers();
      var merged := MergeMarkers(local, got);
      var localAdvanced, aheadOfRemote := ApplyMerged(merged, local, got);
      if aheadOfRemote {
        if !putOk { return None; }
        remote.blob := merged;
      }
      return Some(localAdvanced);
    }
  }

  lemma LeaveOne(s: set<string>, left: set<string>, c: string)
    requires c in left
    ensures s - (left - {c}) == if c in s then s - left + {c} else s - left
  {
  }

  /** Marking one more merged watermark: the rows advance by it, and if it moves them they are
      no longer where they began. */
  lemma AdvancedAlso(rows: Rows, merged: Markers, todo: set<string>, c: string)
    requires todo <= merged.Keys && c in merged
    ensures var now := Advanced(rows, merged, todo);
            && Marked(now, c, merged[c]) == Advanced(rows, merged, todo + {c})
            && (now != rows ==> Marked(now, c, merged[c]) != rows)
            && (Marked(now, c, merged[c]) != now ==> Marked(now, c, merged[c]) != rows)
  {
    var now := Advanced(rows, merged, todo);
    if Marked(now, c, merged[c]) != now {
      assert Marked(now, c, merged[c])[c] > rows[c];
    } else if now != rows {
      assert Marked(now, c, merged[c]) == now;
    }
  }

  // ---- devices syncing in any interleaving ----

  datatype Flight =
    | Fetched(device: nat, remote: Markers)
    | Applying(device: nat, remote: Markers, local: Markers, todo: set<string>)

  /** A mark between its two transactions: it has read a smaller watermark and will write `ts`.
      `flight` is the sync that awaits it, if it is not the user's own. */
  datatype Pending = Pending(device: nat, c: string, ts: int, flight: Option<nat>)

  /** `marks` is the join of every user mark that was written. */
  datatype State = State(
    devices: seq<Rows>, pending: map<nat, Pending>, flights: map<nat, Flight>, blob: Markers, marks: Markers)

  datatype Event =
    | NewRow(d: nat, c: string)
    | MarkRead(p: nat, d: nat, c: string, ts: int)   // first transaction: the row is behind `ts`
    | MarkWrite(p: nat)                              // second transaction: put, whatever the row is now
    | Drop(p: nat)                                   // the tab closes in between
    | Get(f: nat, d: nat, found: bool)
    | Load(f: nat)
    | ApplyRead(f: nat, c: string, p: nat)
    | Finish(f: nat)
    | Stop(f: nat)

  function Start(n: nat): State
  {
    State(seq(n, i => map[]), map[], map[], map[], map[])
  }

  /** The sync is awaiting a mark. */
  predicate Busy(s: State, f: nat)
  {
    exists p :: p in s.pending && s.pending[p].flight == Some(f)
  }

  predicate Can(s: State, e: Event)
  {
    match e
    case NewRow(d, c) => d < |s.devices| && c !in s.devices[d]
    case MarkRead(p, d, c, ts) => d < |s.devices| && c in s.devices[d] && ts > s.devices[d][c] && p !in s.pending
    case MarkWrite(p) =>
      p in s.pending && s.pending[p].device < |s.devices| && s.pending[p].c in s.devices[s.pending[p].device]
    case Drop(p) => p in s.pending
    case Get(f, d, found) => d < |s.devices| && f !in s.flights && !Busy(s, f)
    case Load(f) => f in s.flights && s.flights[f].Fetched? && s.flights[f].device < |s.devices|
    case ApplyRead(f, c, p) =>
      && f in s.flights && s.flights[f].Applying? && s.flights[f].device < |s.devices| && !Busy(s, f)
      && c in s.flights[f].todo && c in Merge(s.flights[f].local, s.flights[f].remote) && p !in s.pending
    case Finish(f) => f in s.flights && s.flights[f].Applying? && s.flights[f].todo == {} && !Busy(s, f)
    case Stop(f) => f in s.flights
  }

  predicate Behind(rows: Rows, c: string, ts: int)
  {
    c in rows && ts > rows[c]
  }

  /** A GET that finds no blob, or fails, yields no markers; a stopped sync never uploads. */
  function Do(s: State, e: Event): State
    requires Can(s, e)
  {
    match e
    case NewRow(d, c) => s.(devices := s.devices[d := s.devices[d][c := 0]])
    case MarkRead(p, d, c, ts) => s.(pending := s.pending[p := Pending(d, c, ts, None)])
    case MarkWrite(p) =>
      var m := s.pending[p];
      s.(devices := s.devices[m.device := s.devices[m.device][m.c := m.ts]], pending := s.pending - {p},
         marks := if m.flight.None? then Merge(s.marks, map[m.c := m.ts]) else s.marks)
    case Drop(p) => s.(pending := s.pending - {p})
    case Get(f, d, found) => s.(flights := s.flights[f := Fetched(d, if found then s.blob else map[])])
    case Load(f) =>
      var fl := s.flights[f];
      var local := Loaded(s.devices[fl.device]);
      s.(flights := s.flights[f := Applying(fl.device, fl.remote, local, Ahead(Merge(local, fl.remote), local))])
    case ApplyRead(f, c, p) =>
      var fl := s.flights[f];
      var ts := Merge(fl.local, fl.remote)[c];
      s.(flights := s.flights[f := fl.(todo := fl.todo - {c})],
         pending := if Behind(s.devices[fl.device], c, ts) then s.pending[p := Pending(fl.device, c, ts, Some(f))]
                    else s.pending)
    case Finish(f) =>
      var fl := s.flights[f];
      s.(flights := s.flights - {f}, blob := Uploaded(Merge(fl.local, fl.remote), fl.remote, s.blob))
    case Stop(f) => s.(flights := s.flights - {f})
  }

  predicate CanRun(s: State, es: seq<Event>)
    decreases es
  {
    es == [] || (Can(s, es[0]) && CanRun(Do(s, es[0]), es[1..]))
  }

  function Final(s: State, es: seq<Event>): State
    requires CanRun(s, es)
    decreases es
  {
    if es == [] then s else Final(Do(s, es[0]), es[1..])
  }

  // ---- nothing passes the join of all marks ----

  ghost predicate FlightOk(fl: Flight, devices: nat, marks: Markers)
  {
    && fl.device < devices && Positive(fl.remote) && Leq(fl.remote, marks)
    && (fl.Applying? ==>
          && Positive(fl.local) && Leq(fl.local, marks)
          && fl.todo <= Merge(fl.local, fl.remote).Keys)
  }

  ghost predicate RowsOk(rows: Rows, marks: Markers)
  {
    NonNegative(rows) && Leq(rows, marks)
  }

  ghost predicate PendingOk(m: Pending, devices: seq<Rows>, marks: Markers)
  {
    && m.device < |devices| && m.c in devices[m.device] && m.ts > 0
    && (m.flight.Some? ==> m.ts <= At(marks, m.c))
  }

  ghost predicate Inv(s: State)
  {
    && Positive(s.marks) && Positive(s.blob) && Leq(s.blob, s.marks)
    && (forall d :: 0 <= d < |s.devices| ==> RowsOk(s.devices[d], s.marks))
    && (forall f :: f in s.flights ==> FlightOk(s.flights[f], |s.devices|, s.marks))
    && (forall p :: p in s.pending ==> PendingOk(s.pending[p], s.devices, s.marks))
  }

  lemma LoadedFacts(rows: Rows)
    requires NonNegative(rows)
    ensures Positive(Loaded(rows)) && forall c :: At(Loaded(rows), c) == At(rows, c)
  {
  }

  lemma MarkJoins(marks: Markers, c: string, ts: int)
    requires Positive(marks)
    ensures var m := Merge(marks, map[c := ts]);
            && Positive(m) && Leq(marks, m) && ts <= At(m, c)
            && forall x :: At(m, x) == if x == c && ts > At(marks, c) then ts else At(marks, x)
  {
  }

  lemma FlightKept(fl: Flight, devices: nat, marks: Markers, marks': Markers)
    requires FlightOk(fl, devices, marks) && Leq(marks, marks')
    ensures FlightOk(fl, devices, marks')
  {
    LeqTransitive(fl.remote, marks, marks');
    if fl.Applying? { LeqTransitive(fl.local, marks, marks'); }
  }

  lemma WrittenRow(rows: Rows, c: string, ts: int, marks: Markers)
    requires RowsOk(rows, marks) && 0 < ts <= At(marks, c)
    ensures RowsOk(rows[c := ts], marks)
  {
    forall x ensures At(rows[c := ts], x) <= At(marks, x) { assert At(rows, x) <= At(marks, x); }
  }

  lemma WriteKeeps(s: State, p: nat)
    requires Inv(s) && Can(s, MarkWrite(p))
    ensures Inv(Do(s, MarkWrite(p))) && Leq(s.marks, Do(s, MarkWrite(p)).marks)
  {
    var t, m := Do(s, MarkWrite(p)), s.pending[p];
    assert PendingOk(m, s.devices, s.marks);
    MarkJoins(s.marks, m.c, m.ts);
    LeqTransitive(s.blob, s.marks, t.marks);
    forall i | 0 <= i < |s.devices| ensures RowsOk(t.devices[i], t.marks) {
      assert RowsOk(s.devices[i], s.marks);
      LeqTransitive(s.devices[i], s.marks, t.marks);
      if i == m.device { WrittenRow(s.devices[i], m.c, m.ts, t.marks); }
    }
    forall f | f in t.flights ensures FlightOk(t.flights[f], |t.devices|, t.marks) {
      FlightKept(s.flights[f], |s.devices|, s.marks, t.marks);
    }
    forall q | q in t.pending ensures PendingOk(t.pending[q], t.devices, t.marks) {
      assert PendingOk(s.pending[q], s.devices, s.marks);
      assert At(s.marks, t.pending[q].c) <= At(t.marks, t.pending[q].c);
    }
  }

  lemma ApplyReadKeeps(s: State, f: nat, c: string, p: nat)
    requires Inv(s) && Can(s, ApplyRead(f, c, p))
    ensures Inv(Do(s, ApplyRead(f, c, p)))
  {
    var fl := s.flights[f];
    assert FlightOk(fl, |s.devices|, s.marks);
    MergeIsJoin(fl.local, fl.remote);
    var merged := Merge(fl.local, fl.remote);
    assert At(merged, c) <= At(s.marks, c);
    assert RowsOk(s.devices[fl.device], s.marks);
  }

  lemma LoadKeeps(s: State, f: nat)
    requires Inv(s) && Can(s, Load(f))
    ensures Inv(Do(s, Load(f)))
  {
    var t, fl := Do(s, Load(f)), s.flights[f];
    assert RowsOk(s.devices[fl.device], s.marks);
    LoadedFacts(s.devices[fl.device]);
    assert FlightOk(fl, |s.devices|, s.marks);
    var local := Loaded(s.devices[fl.device]);
    forall c ensures At(local, c) <= At(s.marks, c) { assert At(s.devices[fl.device], c) <= At(s.marks, c); }
    assert FlightOk(t.flights[f], |s.devices|, s.marks);
  }

  lemma NewRowKeeps(s: State, d: nat, c: string)
    requires Inv(s) && Can(s, NewRow(d, c))
    ensures Inv(Do(s, NewRow(d, c)))
  {
    var t := Do(s, NewRow(d, c));
    forall i | 0 <= i < |t.devices| ensures RowsOk(t.devices[i], t.marks) {
      assert RowsOk(s.devices[i], s.marks);
      forall x ensures At(t.devices[i], x) <= At(s.marks, x) { assert At(s.devices[i], x) <= At(s.marks, x); }
    }
    forall p | p in t.pending ensures PendingOk(t.pending[p], t.devices, t.marks) {
      assert PendingOk(s.pending[p], s.devices, s.marks);
    }
  }

  lemma StepKeeps(s: State, e: Event)
    requires Inv(s) && Can(s, e)
    ensures Inv(Do(s, e)) && Leq(s.marks, Do(s, e).marks) && |Do(s, e).devices| == |s.devices|
  {
    match e
    case NewRow(d, c) => NewRowKeeps(s, d, c);
    case MarkWrite(p) => WriteKeeps(s, p);
    case Load(f) => LoadKeeps(s, f);
    case ApplyRead(f, c, p) => ApplyReadKeeps(s, f, c, p);
    case Finish(f) =>
      assert FlightOk(s.flights[f], |s.devices|, s.marks);
      MergeIsJoin(s.flights[f].local, s.flights[f].remote);
    case MarkRead(p, d, c, ts) => assert RowsOk(s.devices[d], s.marks);
    case _ =>
  }

  lemma {:induction false} RunKeeps(s: State, es: seq<Event>)
    requires Inv(s) && CanRun(s, es)
    ensures Inv(Final(s, es)) && Leq(s.marks, Final(s, es).marks) && |Final(s, es).devices| == |s.devices|
    decreases es
  {
    if es != [] {
      var t := Do(s, es[0]);
      StepKeeps(s, es[0]);
      RunKeeps(t, es[1..]);
      LeqTransitive(s.marks, t.marks, Final(s, es).marks);
    }
  }

  /** Over any run of any number of devices, whatever overlaps, stops or fails and however the
      two transactions of marks interleave: no watermark, and not the blob either, passes the
      join of the user's marks. */
  lemma NeverAhead(n: nat, es: seq<Event>)
    requires CanRun(Start(n), es)
    ensures var t := Final(Start(n), es);
            && |t.devices| == n && Leq(t.blob, t.marks)
            && forall d :: 0 <= d < n ==> Leq(t.devices[d], t.marks)
  {
    assert Inv(Start(n));
    RunKeeps(Start(n), es);
    var t := Final(Start(n), es);
    forall d | 0 <= d < n ensures Leq(t.devices[d], t.marks) { assert RowsOk(t.devices[d], t.marks); }
  }

  // ---- when watermarks go down ----

  ghost predicate RowsGrow(a: Rows, b: Rows)
  {
    forall c :: c in a ==> c in b && a[c] <= b[c]
  }

  /** No device's watermark is lower in `t`. */
  ghost predicate NoneLower(s: State, t: State)
  {
    && |s.devices| == |t.devices|
    && forall d :: 0 <= d < |s.devices| ==> RowsGrow(s.devices[d], t.devices[d])
  }

  /** Exactly when a step lowers a watermark: it is the write half of a mark that the row has
      meanwhile passed. */
  lemma LowersIff(s: State, e: Event)
    requires Can(s, e)
    ensures !NoneLower(s, Do(s, e)) <==>
              e.MarkWrite? && s.pending[e.p].ts < s.devices[s.pending[e.p].device][s.pending[e.p].c]
  {
    var t := Do(s, e);
    if e.MarkWrite? {
      var m := s.pending[e.p];
      assert forall i :: 0 <= i < |s.devices| && i != m.device ==> t.devices[i] == s.devices[i];
      assert RowsGrow(s.devices[m.device], t.devices[m.device]) <==> s.devices[m.device][m.c] <= m.ts;
    }
  }

  predicate SameRow(a: Pending, b: Pending)
  {
    a.device == b.device && a.c == b.c
  }

  /** No write lands while a smaller mark of the same row is still pending. */
  ghost predicate Orderly(s: State, e: Event)
    requires Can(s, e)
  {
    e.MarkWrite? ==>
      forall q :: q in s.pending && q != e.p && SameRow(s.pending[q], s.pending[e.p]) ==>
        s.pending[e.p].ts <= s.pending[q].ts
  }

  /** Every pending mark is still at or above its row. */
  ghost predicate PendingAbove(s: State)
  {
    forall p :: p in s.pending ==>
      var m := s.pending[p];
      m.device < |s.devices| && m.c in s.devices[m.device] && s.devices[m.device][m.c] <= m.ts
  }

  lemma OrderlyKeepsAbove(s: State, e: Event)
    requires PendingAbove(s) && Can(s, e) && Orderly(s, e)
    ensures PendingAbove(Do(s, e)) && NoneLower(s, Do(s, e))
  {
    LowersIff(s, e);
    var t := Do(s, e);
    forall q | q in t.pending
      ensures var m := t.pending[q];
              m.device < |t.devices| && m.c in t.devices[m.device] && t.devices[m.device][m.c] <= m.ts
    {
      if e.MarkWrite? && SameRow(s.pending[q], s.pending[e.p]) { assert q != e.p; }
    }
  }

  /** The discipline is exact: starting with every pending mark above its row, a step is orderly
      if and only if no single step after it can lower a watermark. */
  lemma OrderlyIff(s: State, e: Event)
    requires PendingAbove(s) && Can(s, e)
    ensures Orderly(s, e) <==> forall e' :: Can(Do(s, e), e') ==> NoneLower(Do(s, e), Do(Do(s, e), e'))
  {
    var t := Do(s, e);
    if Orderly(s, e) {
      OrderlyKeepsAbove(s, e);
      forall e' | Can(t, e') ensures NoneLower(t, Do(t, e')) { LowersIff(t, e'); }
    } else {
      var q :| q in s.pending && q != e.p && SameRow(s.pending[q], s.pending[e.p])
            && s.pending[q].ts < s.pending[e.p].ts;
      assert Can(t, MarkWrite(q));
      LowersIff(t, MarkWrite(q));
    }
  }

  ghost predicate OrderlyRun(s: State, es: seq<Event>)
    requires CanRun(s, es)
    decreases es
  {
    es == [] || (Orderly(s, es[0]) && OrderlyRun(Do(s, es[0]), es[1..]))
  }

  lemma NoneLowerTransitive(s: State, t: State, u: State)
    requires NoneLower(s, t) && NoneLower(t, u)
    ensures NoneLower(s, u)
  {
    forall d | 0 <= d < |s.devices| ensures RowsGrow(s.devices[d], u.devices[d]) {
      assert RowsGrow(s.devices[d], t.devices[d]) && RowsGrow(t.devices[d], u.devices[d]);
    }
  }

  /** Over every run in which no write lands while a smaller mark of the same row is pending, no
      device's watermark ever goes down. */
  lemma {:induction false} OrderlyNeverDown(s: State, es: seq<Event>)
    requires PendingAbove(s) && CanRun(s, es) && OrderlyRun(s, es)
    ensures PendingAbove(Final(s, es)) && NoneLower(s, Final(s, es))
    decreases es
  {
    if es != [] {
      OrderlyKeepsAbove(s, es[0]);
      OrderlyNeverDown(Do(s, es[0]), es[1..]);
      NoneLowerTransitive(s, Do(s, es[0]), Final(s, es));
    }
  }

  /** Every mark is still held by some row. */
  ghost predicate RowsHoldMarks(s: State)
  {
    forall c :: c in s.marks ==> RowHeld(s, c, s.marks[c])
  }

  ghost predicate RowHeld(s: State, c: string, ts: int)
  {
    exists d :: 0 <= d < |s.devices| && ts <= At(s.devices[d], c)
  }

  lemma OrderlyKeepsHeld(s: State, e: Event)
    requires Inv(s) && PendingAbove(s) && Can(s, e) && Orderly(s, e) && RowsHoldMarks(s)
    ensures RowsHoldMarks(Do(s, e))
  {
    var t := Do(s, e);
    OrderlyKeepsAbove(s, e);
    forall c | c in t.marks ensures RowHeld(t, c, t.marks[c]) {
      if c in s.marks && t.marks[c] == s.marks[c] {
        var d :| 0 <= d < |s.devices| && s.marks[c] <= At(s.devices[d], c);
        assert s.marks[c] > 0;
        assert RowsGrow(s.devices[d], t.devices[d]);
        assert t.marks[c] <= At(t.devices[d], c);
      } else {
        var m := s.pending[e.p];
        assert t.marks[c] == m.ts && c == m.c;
        assert t.marks[c] <= At(t.devices[m.device], c);
      }
    }
  }

  lemma {:induction false} OrderlyRunHeld(s: State, es: seq<Event>)
    requires Inv(s) && PendingAbove(s) && RowsHoldMarks(s) && CanRun(s, es) && OrderlyRun(s, es)
    ensures RowsHoldMarks(Final(s, es))
    decreases es
  {
    if es != [] {
      StepKeeps(s, es[0]);
      OrderlyKeepsAbove(s, es[0]);
      OrderlyKeepsHeld(s, es[0]);
      OrderlyRunHeld(Do(s, es[0]), es[1..]);
    }
  }

  // ---- convergence ----

  /** What one sync does when nothing interleaves with it. */
  function SyncAlone(s: State, d: nat): State
    requires d < |s.devices|
  {
    var local := Loaded(s.devices[d]);
    var merged := Merge(local, s.blob);
    s.(devices := s.devices[d := Advanced(s.devices[d], merged, Ahead(merged, local))],
       blob := Uploaded(merged, s.blob, s.blob))
  }

  /** The flight of a sync that has just loaded. */
  function LoadedFlight(s: State, d: nat): Flight
    requires d < |s.devices|
  {
    var local := Loaded(s.devices[d]);
    Applying(d, s.blob, local, Ahead(Merge(local, s.blob), local))
  }

  lemma LoadAfterGet(s: State, d: nat, f: nat)
    requires d < |s.devices| && f !in s.flights && !Busy(s, f)
    ensures var s1 := Do(s, Get(f, d, true));
            Can(s1, Load(f)) && Do(s1, Load(f)) == s.(flights := s.flights[f := LoadedFlight(s, d)])
  {
    var s1 := Do(s, Get(f, d, true));
    assert s1.flights[f := LoadedFlight(s, d)] == s.flights[f := LoadedFlight(s, d)];
  }

  lemma GetThenLoad(s: State, d: nat, f: nat)
    requires Inv(s) && d < |s.devices| && f !in s.flights && !Busy(s, f)
    ensures var es := [Get(f, d, true), Load(f)];
            && CanRun(s, es) && Inv(Final(s, es))
            && Final(s, es) == s.(flights := s.flights[f := LoadedFlight(s, d)])
  {
    LoadAfterGet(s, d, f);
    TwoSteps(s, Get(f, d, true), Load(f));
    RunKeeps(s, [Get(f, d, true), Load(f)]);
  }

  lemma TwoSteps(s: State, a: Event, b: Event)
    requires Can(s, a) && Can(Do(s, a), b)
    ensures CanRun(s, [a, b]) && Final(s, [a, b]) == Do(Do(s, a), b)
  {
    var t := Do(s, a);
    assert [b][1..] == [] && [a, b][1..] == [b];
    assert CanRun(Do(t, b), []) && Final(Do(t, b), []) == Do(t, b);
    assert CanRun(t, [b]) && Final(t, [b]) == Do(t, b);
  }

  lemma FinishAlone(s: State, d: nat, f: nat)
    requires d < |s.devices| && f !in s.flights && !Busy(s, f)
    ensures var t := s.(flights := s.flights[f := LoadedFlight(s, d)]);
            && Can(AppliedRest(t, f), Finish(f))
            && Do(AppliedRest(t, f), Finish(f)) == SyncAlone(s, d)
  {
    var t := s.(flights := s.flights[f := LoadedFlight(s, d)]);
    assert AppliedRest(t, f).flights - {f} == s.flights;
  }

  /** The steps of a sync, run without interruption, are `SyncAlone`. */
  lemma SyncAloneIsRun(s: State, d: nat, f: nat) returns (es: seq<Event>)
    requires Inv(s) && d < |s.devices| && f !in s.flights && !Busy(s, f)
    ensures CanRun(s, es) && Final(s, es) == SyncAlone(s, d)
  {
    GetThenLoad(s, d, f);
    var begin := [Get(f, d, true), Load(f)];
    var s2 := Final(s, begin);
    var applies := ApplyAll(s2, f);
    FinishAlone(s, d, f);
    Extend(s2, applies, Finish(f));
    Append(s, begin, applies + [Finish(f)]);
    es := begin + (applies + [Finish(f)]);
  }

  lemma {:induction false} Append(s: State, a: seq<Event>, b: seq<Event>)
    requires CanRun(s, a) && CanRun(Final(s, a), b)
    ensures CanRun(s, a + b) && Final(s, a + b) == Final(Final(s, a), b)
    decreases a
  {
    if a == [] {
      assert a + b == b;
    } else {
      assert (a + b)[1..] == a[1..] + b;
      Append(Do(s, a[0]), a[1..], b);
    }
  }

  lemma Extend(s: State, es: seq<Event>, e: Event)
    requires CanRun(s, es) && Can(Final(s, es), e)
    ensures CanRun(s, es + [e]) && Final(s, es + [e]) == Do(Final(s, es), e)
  {
    assert [e][1..] == [];
    Append(s, es, [e]);
  }

  /** The state with one device's rows and one flight replaced. */
  function With(s: State, d: nat, rows: Rows, f: nat, fl: Flight): State
    requires d < |s.devices|
  {
    s.(devices := s.devices[d := rows], flights := s.flights[f := fl])
  }

  lemma AdvanceOne(rows: Rows, merged: Markers, todo: set<string>, c: string)
    requires todo <= merged.Keys && c in todo
    ensures Advanced(Marked(rows, c, merged[c]), merged, todo - {c}) == Advanced(rows, merged, todo)
  {
  }

  lemma WithTwice(s: State, d: nat, f: nat, rows: Rows, fl: Flight, rows': Rows, fl': Flight)
    requires d < |s.devices|
    ensures With(With(s, d, rows, f, fl), d, rows', f, fl') == With(s, d, rows', f, fl')
  {
    assert s.devices[d := rows][d := rows'] == s.devices[d := rows'];
    assert s.flights[f := fl][f := fl'] == s.flights[f := fl'];
  }

  /** One watermark of a flight applied: read, and if the row is behind, written. */
  lemma ApplyOneAlone(s: State, f: nat, c: string) returns (es: seq<Event>)
    requires Inv(s) && f in s.flights && s.flights[f].Applying? && c in s.flights[f].todo && !Busy(s, f)
    ensures FlightOk(s.flights[f], |s.devices|, s.marks)
    ensures var fl := s.flights[f];
            var merged := Merge(fl.local, fl.remote);
            && CanRun(s, es)
            && Final(s, es) == With(s, fl.device, Marked(s.devices[fl.device], c, merged[c]), f,
                                    fl.(todo := fl.todo - {c}))
  {
    var fl := s.flights[f];
    assert FlightOk(fl, |s.devices|, s.marks);
    var ts := Merge(fl.local, fl.remote)[c];
    var p := Fresh(s.pending.Keys);
    var t := Do(s, ApplyRead(f, c, p));
    if Behind(s.devices[fl.device], c, ts) {
      es := [ApplyRead(f, c, p), MarkWrite(p)];
      assert t.pending[p] == Pending(fl.device, c, ts, Some(f)) && t.pending - {p} == s.pending;
      TwoSteps(s, ApplyRead(f, c, p), MarkWrite(p));
    } else {
      es := [ApplyRead(f, c, p)];
      assert es[1..] == [];
      assert s.devices[fl.device := s.devices[fl.device]] == s.devices;
      assert CanRun(t, es[1..]) && Final(t, es[1..]) == t;
    }
  }

  /** The rest of a flight's watermarks applied. */
  function AppliedRest(s: State, f: nat): State
    requires f in s.flights && s.flights[f].Applying? && s.flights[f].device < |s.devices|
    requires s.flights[f].todo <= Merge(s.flights[f].local, s.flights[f].remote).Keys
  {
    var fl := s.flights[f];
    With(s, fl.device, Advanced(s.devices[fl.device], Merge(fl.local, fl.remote), fl.todo), f, fl.(todo := {}))
  }

  lemma AppliedRestStep(s: State, f: nat, c: string)
    requires Inv(s) && f in s.flights && s.flights[f].Applying? && c in s.flights[f].todo
    ensures FlightOk(s.flights[f], |s.devices|, s.marks)
    ensures var t := With(s, s.flights[f].device,
                          Marked(s.devices[s.flights[f].device], c, Merge(s.flights[f].local, s.flights[f].remote)[c]),
                          f, s.flights[f].(todo := s.flights[f].todo - {c}));
            AppliedRest(t, f) == AppliedRest(s, f)
  {
    var fl := s.flights[f];
    assert FlightOk(fl, |s.devices|, s.marks);
    var rows, merged := s.devices[fl.device], Merge(fl.local, fl.remote);
    var marked := Marked(rows, c, merged[c]);
    AdvanceOne(rows, merged, fl.todo, c);
    WithTwice(s, fl.device, f, marked, fl.(todo := fl.todo - {c}), Advanced(rows, merged, fl.todo), fl.(todo := {}));
  }

  lemma {:induction false} ApplyAll(s: State, f: nat) returns (es: seq<Event>)
    requires Inv(s) && f in s.flights && s.flights[f].Applying? && !Busy(s, f)
    ensures FlightOk(s.flights[f], |s.devices|, s.marks)
    ensures CanRun(s, es) && Final(s, es) == AppliedRest(s, f)
    decreases s.flights[f].todo
  {
    var fl := s.flights[f];
    assert FlightOk(fl, |s.devices|, s.marks);
    if fl.todo == {} {
      es := [];
      assert Advanced(s.devices[fl.device], Merge(fl.local, fl.remote), {}) == s.devices[fl.device];
      assert s.flights[f := fl] == s.flights;
    } else {
      var c :| c in fl.todo;
      var first := ApplyOneAlone(s, f, c);
      AppliedRestStep(s, f, c);
      RunKeeps(s, first);
      var rest := ApplyAll(Final(s, first), f);
      Append(s, first, rest);
      es := first + rest;
    }
  }

  /** Every row's watermark is exactly what `m` says. */
  ghost predicate CaughtUp(rows: Rows, m: Markers)
  {
    forall c :: c in rows ==> rows[c] == At(m, c)
  }

  lemma UploadFacts(rows: Rows, blob: Markers)
    requires NonNegative(rows) && Positive(blob)
    ensures var merged := Merge(Loaded(rows), blob);
            && Leq(rows, Uploaded(merged, blob, blob)) && Leq(blob, Uploaded(merged, blob, blob))
  {
    LoadedFacts(rows);
    var merged := Merge(Loaded(rows), blob);
    MergeIsJoin(Loaded(rows), blob);
    assert Leq(rows, merged) by {
      forall c ensures At(rows, c) <= At(merged, c) { assert At(Loaded(rows), c) <= At(merged, c); }
    }
    if Ahead(merged, blob) == {} {
      forall c ensures At(merged, c) <= At(blob, c) { assert c !in Ahead(merged, blob); }
      LeqTransitive(rows, merged, blob);
    }
  }

  lemma ApplyFacts(rows: Rows, blob: Markers)
    requires NonNegative(rows) && Positive(blob)
    ensures var local := Loaded(rows);
            var merged := Merge(local, blob);
            var r := Advanced(rows, merged, Ahead(merged, local));
            r.Keys == rows.Keys && forall c :: c in r ==> At(blob, c) <= r[c]
  {
    LoadedFacts(rows);
    MergeIsJoin(Loaded(rows), blob);
    var merged := Merge(Loaded(rows), blob);
    var r := Advanced(rows, merged, Ahead(merged, Loaded(rows)));
    forall c | c in r ensures At(blob, c) <= r[c] {
      assert At(blob, c) <= At(merged, c) && At(Loaded(rows), c) == rows[c];
    }
  }

  /** No higher than the larger of the row and the blob. */
  predicate WithinTwo(x: int, rows: Rows, blob: Markers, c: string)
  {
    x <= At(rows, c) || x <= At(blob, c)
  }

  lemma SyncWithin(rows: Rows, blob: Markers, c: string)
    requires NonNegative(rows) && Positive(blob)
    ensures var local := Loaded(rows);
            var merged := Merge(local, blob);
            && WithinTwo(At(Uploaded(merged, blob, blob), c), rows, blob, c)
            && WithinTwo(At(Advanced(rows, merged, Ahead(merged, local)), c), rows, blob, c)
  {
    LoadedFacts(rows);
  }

  lemma AfterSync(s: State, d: nat)
    requires Inv(s) && d < |s.devices|
    ensures var t := SyncAlone(s, d);
            && Inv(t) && t.marks == s.marks
            && Leq(s.devices[d], t.blob) && Leq(t.devices[d], t.blob) && Leq(s.blob, t.blob)
            && t.devices[d].Keys == s.devices[d].Keys
            && (forall c :: c in t.devices[d] ==> At(s.blob, c) <= t.devices[d][c])
            && (forall c :: WithinTwo(At(t.blob, c), s.devices[d], s.blob, c))
            && (forall c :: WithinTwo(At(t.devices[d], c), s.devices[d], s.blob, c))
  {
    var f := FreshFlight(s);
    var es := SyncAloneIsRun(s, d, f);
    RunKeeps(s, es);
    assert RowsOk(s.devices[d], s.marks);
    UploadFacts(s.devices[d], s.blob);
    ApplyFacts(s.devices[d], s.blob);
    forall c { SyncWithin(s.devices[d], s.blob, c); }
    var t := SyncAlone(s, d);
    forall c ensures At(t.devices[d], c) <= At(t.blob, c) {
      assert At(s.devices[d], c) <= At(t.blob, c) && At(s.blob, c) <= At(t.blob, c);
      assert WithinTwo(At(t.devices[d], c), s.devices[d], s.blob, c);
    }
  }

  /** A sync id that no flight and no pending mark carries. */
  lemma FreshFlight(s: State) returns (f: nat)
    ensures f !in s.flights && !Busy(s, f)
  {
    f := Fresh(s.flights.Keys + set p | p in s.pending && s.pending[p].flight.Some? :: s.pending[p].flight.value);
  }

  lemma Fresh(used: set<nat>) returns (f: nat)
    ensures f !in used
    ensures forall g :: g in used ==> g < f
    decreases used
  {
    if used == {} {
      f := 0;
    } else {
      var g :| g in used;
      var h := Fresh(used - {g});
      f := if g < h then h else g + 1;
      forall x | x in used ensures x < f {
        if x != g { assert x in used - {g}; }
      }
    }
  }

  predicate InRange(order: seq<nat>, n: nat)
  {
    forall i :: 0 <= i < |order| ==> order[i] < n
  }

  /** Syncs one at a time, in this order of devices. */
  function SyncRound(s: State, order: seq<nat>): State
    requires InRange(order, |s.devices|)
    decreases order
  {
    if order == [] then s else SyncRound(SyncAlone(s, order[0]), order[1..])
  }

  /** Every copy is at or below `m`. */
  ghost predicate Bounds(s: State, m: Markers)
  {
    Leq(s.blob, m) && forall d :: 0 <= d < |s.devices| ==> Leq(s.devices[d], m)
  }

  /** Some copy holds at least `ts` for this conversation. */
  ghost predicate Held(s: State, c: string, ts: int)
  {
    ts <= At(s.blob, c) || RowHeld(s, c, ts)
  }

  ghost predicate SameRows(s: State, t: State)
  {
    |s.devices| == |t.devices| && forall d :: 0 <= d < |s.devices| ==> t.devices[d].Keys == s.devices[d].Keys
  }

  lemma HeldBefore(s: State, d: nat, c: string, ts: int)
    requires Inv(s) && d < |s.devices| && Held(SyncAlone(s, d), c, ts)
    ensures Held(s, c, ts)
  {
    AfterSync(s, d);
    var t := SyncAlone(s, d);
    assert WithinTwo(At(t.blob, c), s.devices[d], s.blob, c) && WithinTwo(At(t.devices[d], c), s.devices[d], s.blob, c);
    if ts > At(t.blob, c) {
      var i :| 0 <= i < |t.devices| && ts <= At(t.devices[i], c);
      assert i != d ==> t.devices[i] == s.devices[i];
    }
  }

  /** A round of syncs: the blob ends at or above everything the synced devices had, they end at
      or below it, and nothing is invented. */
  lemma {:induction false} RoundCollects(s: State, order: seq<nat>)
    requires Inv(s) && InRange(order, |s.devices|)
    ensures var t := SyncRound(s, order);
            && Inv(t) && t.marks == s.marks && Leq(s.blob, t.blob) && SameRows(s, t)
            && (forall d :: d in order ==> Leq(s.devices[d], t.blob) && Leq(t.devices[d], t.blob))
            && (forall d :: 0 <= d < |s.devices| && d !in order ==> t.devices[d] == s.devices[d])
    decreases order
  {
    if order != [] {
      var d0 := order[0];
      AfterSync(s, d0);
      var s1, t := SyncAlone(s, d0), SyncRound(s, order);
      RoundCollects(s1, order[1..]);
      LeqTransitive(s.blob, s1.blob, t.blob);
      LeqTransitive(s.devices[d0], s1.blob, t.blob);
      forall d | d in order ensures Leq(s.devices[d], t.blob) && Leq(t.devices[d], t.blob) {
        if d in order[1..] {
          assert d != d0 ==> s1.devices[d] == s.devices[d];
        } else {
          assert d == d0 && t.devices[d] == s1.devices[d];
          LeqTransitive(s1.devices[d], s1.blob, t.blob);
        }
      }
      forall d | 0 <= d < |s.devices| && d !in order ensures t.devices[d] == s.devices[d] {
        assert d != d0 && d !in order[1..];
      }
    }
  }

  lemma {:induction false} RoundInventsNothing(s: State, order: seq<nat>, c: string, ts: int)
    requires Inv(s) && InRange(order, |s.devices|) && Held(SyncRound(s, order), c, ts)
    ensures Held(s, c, ts)
    decreases order
  {
    if order != [] {
      AfterSync(s, order[0]);
      RoundInventsNothing(SyncAlone(s, order[0]), order[1..], c, ts);
      HeldBefore(s, order[0], c, ts);
    }
  }

  /** Every device, in any order, any number of times. */
  ghost predicate Covers(order: seq<nat>, n: nat)
  {
    InRange(order, n) && forall d :: 0 <= d < n ==> d in order
  }

  /** After a round of all devices the blob holds, per conversation, the largest watermark any
      copy held, and no copy is above it. */
  lemma FirstRound(s: State, order: seq<nat>)
    requires Inv(s) && Covers(order, |s.devices|)
    ensures var t := SyncRound(s, order);
            && Inv(t) && t.marks == s.marks && SameRows(s, t) && Bounds(s, t.blob) && Bounds(t, t.blob)
            && forall c :: Held(s, c, At(t.blob, c))
  {
    RoundCollects(s, order);
    var t := SyncRound(s, order);
    forall c ensures Held(s, c, At(t.blob, c)) { RoundInventsNothing(s, order, c, At(t.blob, c)); }
  }

  /** Once no row is above the blob, a sync leaves the blob alone and lifts its rows to it. */
  lemma SyncSpreads(s: State, d: nat)
    requires Inv(s) && Bounds(s, s.blob) && d < |s.devices|
    ensures var t := SyncAlone(s, d);
            t.blob == s.blob && Bounds(t, t.blob) && CaughtUp(t.devices[d], t.blob)
  {
    AfterSync(s, d);
    var t := SyncAlone(s, d);
    forall c ensures At(t.blob, c) <= At(s.blob, c) {
      assert WithinTwo(At(t.blob, c), s.devices[d], s.blob, c);
      assert At(s.devices[d], c) <= At(s.blob, c);
    }
    LeqAntisymmetric(t.blob, s.blob);
    forall c | c in t.devices[d] ensures t.devices[d][c] == At(t.blob, c) {
      assert At(t.devices[d], c) <= At(t.blob, c);
    }
  }

  lemma {:induction false} RoundSpreads(s: State, order: seq<nat>)
    requires Inv(s) && Bounds(s, s.blob) && InRange(order, |s.devices|)
    ensures var t := SyncRound(s, order);
            && t.blob == s.blob && |t.devices| == |s.devices|
            && forall d :: 0 <= d < |s.devices| && (d in order || CaughtUp(s.devices[d], s.blob)) ==>
                 CaughtUp(t.devices[d], s.blob)
    decreases order
  {
    if order != [] {
      var d0 := order[0];
      AfterSync(s, d0);
      SyncSpreads(s, d0);
      var s1 := SyncAlone(s, d0);
      RoundSpreads(s1, order[1..]);
      var t := SyncRound(s, order);
      forall d | 0 <= d < |s.devices| && (d in order || CaughtUp(s.devices[d], s.blob))
        ensures CaughtUp(t.devices[d], s.blob)
      {
        if d != d0 { assert s1.devices[d] == s.devices[d]; assert d in order ==> d in order[1..]; }
      }
    }
  }

  /** The blob is the join of all marks if and only if every mark is still held by some copy. */
  lemma JoinIffHeld(s: State, t: State)
    requires Inv(s) && Inv(t) && t.marks == s.marks && Bounds(s, t.blob)
    requires forall c :: Held(s, c, At(t.blob, c))
    ensures t.blob == s.marks <==> forall c :: c in s.marks ==> Held(s, c, s.marks[c])
  {
    if t.blob == s.marks {
      forall c | c in s.marks ensures Held(s, c, s.marks[c]) { assert Held(s, c, At(t.blob, c)); }
    }
    if forall c :: c in s.marks ==> Held(s, c, s.marks[c]) {
      forall c ensures At(s.marks, c) <= At(t.blob, c) {
        if c in s.marks { HeldBelow(s, t.blob, c, s.marks[c]); } else { assert t.blob == t.blob; }
      }
      LeqAntisymmetric(t.blob, s.marks);
    }
  }

  lemma HeldBelow(s: State, m: Markers, c: string, ts: int)
    requires Bounds(s, m) && Held(s, c, ts)
    ensures ts <= At(m, c)
  {
    if ts <= At(s.blob, c) {
      assert At(s.blob, c) <= At(m, c);
    } else {
      var d :| 0 <= d < |s.devices| && ts <= At(s.devices[d], c);
      assert Leq(s.devices[d], m);
      assert At(s.devices[d], c) <= At(m, c);
    }
  }

  /** From any state any run reaches, with nothing else going on: after every device has synced
      once, one at a time, the blob holds exactly the largest watermark any copy held; after every
      device has synced again each one equals it on the conversations it has rows for. And that
      is the join of all marks if and only if every mark was still held by some copy. */
  lemma TwoRoundsConverge(n: nat, before: seq<Event>, first: seq<nat>, second: seq<nat>)
    requires CanRun(Start(n), before) && Covers(first, n) && Covers(second, n)
    ensures var s := Final(Start(n), before);
            && |s.devices| == n
            && var s1 := SyncRound(s, first);
            && |s1.devices| == n && Bounds(s, s1.blob) && (forall c :: Held(s, c, At(s1.blob, c)))
            && (s1.blob == s.marks <==> forall c :: c in s.marks ==> Held(s, c, s.marks[c]))
            && var s2 := SyncRound(s1, second);
            && SameRows(s, s2) && s2.blob == s1.blob
            && forall d :: 0 <= d < n ==> CaughtUp(s2.devices[d], s1.blob)
  {
    assert Inv(Start(n));
    RunKeeps(Start(n), before);
    var s := Final(Start(n), before);
    FirstRound(s, first);
    var s1 := SyncRound(s, first);
    JoinIffHeld(s, s1);
    RoundCollects(s1, second);
    RoundSpreads(s1, second);
  }

  /** After an orderly run, that is always so: the rounds bring every copy to the join of all
      marks. */
  lemma OrderlyRunsConverge(n: nat, before: seq<Event>, first: seq<nat>, second: seq<nat>)
    requires CanRun(Start(n), before) && OrderlyRun(Start(n), before) && Covers(first, n) && Covers(second, n)
    ensures var s := Final(Start(n), before);
            && |s.devices| == n
            && var s1 := SyncRound(s, first);
            && |s1.devices| == n && s1.blob == s.marks
            && var s2 := SyncRound(s1, second);
            && s2.blob == s.marks && |s2.devices| == n
            && forall d :: 0 <= d < n ==> CaughtUp(s2.devices[d], s.marks)
  {
    assert Inv(Start(n)) && PendingAbove(Start(n)) && RowsHoldMarks(Start(n));
    OrderlyRunHeld(Start(n), before);
    TwoRoundsConverge(n, before, first, second);
    var s := Final(Start(n), before);
    forall c | c in s.marks ensures Held(s, c, s.marks[c]) { assert RowHeld(s, c, s.marks[c]); }
  }

  // ---- the bad interleaving ----

  /** The run in which a mark of `low`, read first, lands on a mark of `high`. */
  function LateWrite(c: string, low: int, high: int): seq<Event>
  {
    [NewRow(0, c), MarkRead(0, 0, c, low), MarkRead(1, 0, c, high), MarkWrite(1), MarkWrite(0)]
  }

  /** One device with one row, and what is pending on it. */
  function OneRow(c: string, ts: int, pending: map<nat, Pending>, marks: Markers): State
  {
    State([map[c := ts]], pending, map[], map[], marks)
  }

  lemma LateWriteSteps(c: string, low: int, high: int)
    requires 0 < low < high
    ensures var a, b := Pending(0, c, low, None), Pending(0, c, high, None);
            && Can(Start(1), NewRow(0, c)) && Do(Start(1), NewRow(0, c)) == OneRow(c, 0, map[], map[])
            && Can(OneRow(c, 0, map[], map[]), MarkRead(0, 0, c, low))
            && Do(OneRow(c, 0, map[], map[]), MarkRead(0, 0, c, low)) == OneRow(c, 0, map[0 := a], map[])
            && Can(OneRow(c, 0, map[0 := a], map[]), MarkRead(1, 0, c, high))
            && Do(OneRow(c, 0, map[0 := a], map[]), MarkRead(1, 0, c, high)) == OneRow(c, 0, map[0 := a, 1 := b], map[])
  {
    assert Start(1).devices == [map[]];
  }

  lemma LateWriteLands(c: string, low: int, high: int)
    requires 0 < low < high
    ensures var a, b := Pending(0, c, low, None), Pending(0, c, high, None);
            && Can(OneRow(c, 0, map[0 := a, 1 := b], map[]), MarkWrite(1))
            && Do(OneRow(c, 0, map[0 := a, 1 := b], map[]), MarkWrite(1))
                 == OneRow(c, high, map[0 := a], map[c := high])
            && Can(OneRow(c, high, map[0 := a], map[c := high]), MarkWrite(0))
            && Do(OneRow(c, high, map[0 := a], map[c := high]), MarkWrite(0)) == OneRow(c, low, map[], map[c := high])
  {
    var a, b := Pending(0, c, low, None), Pending(0, c, high, None);
    assert map[0 := a, 1 := b] - {1} == map[0 := a];
    assert map[0 := a] - {0} == map[];
    assert Merge(map[], map[c := high]) == map[c := high];
    assert Merge(map[c := high], map[c := low]) == map[c := high];
    assert map[c := 0][c := high] == map[c := high] && map[c := high][c := low] == map[c := low];
    assert [map[c := 0]][0 := map[c := high]] == [map[c := high]];
    assert [map[c := high]][0 := map[c := low]] == [map[c := low]];
  }

  /** It is a run of one device, for any conversation and any two marks; it lowers the row from
      `high` to `low`, and no number of syncs brings `high` back. */
  lemma LateWriteForgets(c: string, low: int, high: int, first: seq<nat>)
    requires 0 < low < high && Covers(first, 1)
    ensures CanRun(Start(1), LateWrite(c, low, high))
    ensures var s := Final(Start(1), LateWrite(c, low, high));
            s == OneRow(c, low, map[], map[c := high]) && At(SyncRound(s, first).blob, c) == low
  {
    var es := LateWrite(c, low, high);
    var s := OneRow(c, low, map[], map[c := high]);
    LateWriteRuns(c, low, high);
    assert Inv(Start(1));
    RunKeeps(Start(1), es);
    FirstRound(s, first);
    var t := SyncRound(s, first);
    HeldBelow(s, t.blob, c, low) by { assert low <= At(s.devices[0], c); }
    assert Held(s, c, At(t.blob, c));
  }

  lemma LateWriteRuns(c: string, low: int, high: int)
    requires 0 < low < high
    ensures CanRun(Start(1), LateWrite(c, low, high))
    ensures Final(Start(1), LateWrite(c, low, high)) == OneRow(c, low, map[], map[c := high])
  {
    LateWriteSteps(c, low, high);
    LateWriteLands(c, low, high);
    var a, b := Pending(0, c, low, None), Pending(0, c, high, None);
    var s4, s5 := OneRow(c, high, map[0 := a], map[c := high]), OneRow(c, low, map[], map[c := high]);
    var es := LateWrite(c, low, high);
    StepThen(s4, es[4], s5, []);
    assert [es[4]] + [] == es[4..];
    StepThen(OneRow(c, 0, map[0 := a, 1 := b], map[]), es[3], s4, es[4..]);
    assert [es[3]] + es[4..] == es[3..];
    StepThen(OneRow(c, 0, map[0 := a], map[]), es[2], OneRow(c, 0, map[0 := a, 1 := b], map[]), es[3..]);
    assert [es[2]] + es[3..] == es[2..];
    StepThen(OneRow(c, 0, map[], map[]), es[1], OneRow(c, 0, map[0 := a], map[]), es[2..]);
    assert [es[1]] + es[2..] == es[1..];
    StepThen(Start(1), es[0], OneRow(c, 0, map[], map[]), es[1..]);
    assert [es[0]] + es[1..] == es;
  }

  lemma StepThen(s: State, e: Event, t: State, es: seq<Event>)
    requires Can(s, e) && Do(s, e) == t && CanRun(t, es)
    ensures CanRun(s, [e] + es) && Final(s, [e] + es) == Final(t, es)
  {
    assert ([e] + es)[1..] == es;
  }
}
