/** The retention sweep: one pass over the handle files that classifies each and wipes what has
    expired, page by page, while the keys it lists vanish under it. */
module Cleanup {
  import opened Wrappers
  import opened Lex
  import opened SortedStore

  // ---- paths ----

  function HandleKey(handle: string): string { "handles/" + handle + ".json" }
  function ProfileKey(uid: string): string { "users/" + (uid + "/" + "profile.json") }
  function LivePrefix(uid: string): string { "inbox/" + (uid + "/" + "live/") }
  function ArchivePrefix(uid: string): string { "inbox/" + (uid + "/" + "archive/") }

  function UserPrefixes(uid: string): seq<string>
  {
    ["users/" + (uid + "/"), "inbox/" + (uid + "/"), "keys/" + (uid + "/"), "media/" + (uid + "/")]
  }

  predicate UnderUser(uid: string, key: string)
  {
    exists i :: 0 <= i < 4 && UserPrefixes(uid)[i] <= key
  }

  predicate SlashFree(s: string)
  {
    '/' !in s
  }

  // ---- files ----

  /** A timestamp field: empty, not RFC 3339, or an instant in nanoseconds. */
  datatype Stamp = Blank | Malformed | Instant(t: int)

  datatype Profile = Profile(userId: string, handle: string, displayName: string, lastActive: Stamp, createdAt: Stamp)

  datatype File =
    | HandleFile(userId: string, releasedAt: Stamp)
    | ProfileFile(profile: Profile)
    | Other

  type Objects = map<string, File>

  const DAY := 86_400_000_000_000
  const ABANDONED_GRACE_DAYS := 7
  const HANDLE_COOLDOWN_DAYS := 30
  const HANDLES_PAGE_SIZE := 1000
  const WIPE_PAGE_SIZE := 1000

  datatype Opts = Opts(inactiveDays: int, batchSize: nat, dryRun: bool, now: int)

  datatype Policy = Abandoned | Inactive | Tombstone

  datatype Verdict = Unreadable | Keep | Match(policy: Policy, profile: Option<Profile>)

  // ---- classification ----

  ghost predicate NoneUnder(objects: Objects, prefix: string)
  {
    forall k :: k in objects ==> !(prefix <= k)
  }

  ghost predicate InboxEmpty(objects: Objects, uid: string)
  {
    NoneUnder(objects, LivePrefix(uid)) && NoneUnder(objects, ArchivePrefix(uid))
  }

  predicate Past(now: int, stamp: Stamp, days: int)
  {
    stamp.Instant? && now - stamp.t > days * DAY
  }

  ghost function ClassifyProfile(objects: Objects, uid: string, p: Profile, opts: Opts): Verdict
  {
    if p.displayName == "" && Past(opts.now, p.createdAt, ABANDONED_GRACE_DAYS) && InboxEmpty(objects, uid)
    then Match(Abandoned, Some(p))
    else if Past(opts.now, p.lastActive, opts.inactiveDays) then Match(Inactive, Some(p))
    else Keep
  }

  ghost function Classify(objects: Objects, key: string, opts: Opts): Verdict
  {
    if key !in objects || !objects[key].HandleFile? then Unreadable
    else
      var uid := objects[key].userId;
      if uid == "" then
        match objects[key].releasedAt
        case Blank => Keep
        case Malformed => Unreadable
        case Instant(_) =>
          if Past(opts.now, objects[key].releasedAt, HANDLE_COOLDOWN_DAYS) then Match(Tombstone, None) else Keep
      else if ProfileKey(uid) !in objects then Keep
      else if !objects[ProfileKey(uid)].ProfileFile? then Unreadable
      else ClassifyProfile(objects, uid, objects[ProfileKey(uid)].profile, opts)
  }

  // ---- what the verdicts mean ----

  /** The objects of a user, spelled out. */
  ghost predicate OfUser(uid: string, key: string)
  {
    "users/" + uid + "/" <= key || "inbox/" + uid + "/" <= key || "keys/" + uid + "/" <= key
    || "media/" + uid + "/" <= key
  }

  lemma UnderUserIs(uid: string, key: string)
    ensures UnderUser(uid, key) <==> OfUser(uid, key)
  {
    var ps := UserPrefixes(uid);
    assert ps[0] == "users/" + uid + "/" && ps[1] == "inbox/" + uid + "/";
    assert ps[2] == "keys/" + uid + "/" && ps[3] == "media/" + uid + "/";
  }

  /** The handle file names this user, whose profile this is. */
  ghost predicate Owns(objects: Objects, key: string, uid: string, p: Profile)
  {
    && key in objects && objects[key].HandleFile? && objects[key].userId == uid && uid != ""
    && "users/" + uid + "/profile.json" in objects
    && objects["users/" + uid + "/profile.json"] == ProfileFile(p)
  }

  ghost predicate HasMessage(objects: Objects, uid: string)
  {
    exists k :: k in objects && ("inbox/" + uid + "/live/" <= k || "inbox/" + uid + "/archive/" <= k)
  }

  /** A signup that came to nothing: no name, no message, and over a week old. */
  ghost predicate IsAbandoned(objects: Objects, uid: string, p: Profile, now: int)
  {
    && p.displayName == "" && !HasMessage(objects, uid)
    && p.createdAt.Instant? && now - p.createdAt.t > 7 * 86_400_000_000_000
  }

  ghost predicate IsInactive(p: Profile, opts: Opts)
  {
    p.lastActive.Instant? && opts.now - p.lastActive.t > opts.inactiveDays * 86_400_000_000_000
  }

  /** A handle released over thirty days ago. */
  ghost predicate IsExpired(objects: Objects, key: string, now: int)
  {
    && key in objects && objects[key].HandleFile? && objects[key].userId == ""
    && objects[key].releasedAt.Instant? && now - objects[key].releasedAt.t > 30 * 86_400_000_000_000
  }

  ghost predicate IsUnreadable(objects: Objects, key: string)
  {
    || key !in objects || !objects[key].HandleFile?
    || (objects[key].userId == "" && objects[key].releasedAt == Malformed)
    || (objects[key].userId != ""
        && "users/" + objects[key].userId + "/profile.json" in objects
        && !objects["users/" + objects[key].userId + "/profile.json"].ProfileFile?)
  }

  /** Each verdict is given exactly when its reason holds; abandonment goes before inactivity. */
  ghost predicate JudgedRightly(objects: Objects, key: string, opts: Opts, v: Verdict)
  {
    && (v == Unreadable <==> IsUnreadable(objects, key))
    && (v == Match(Tombstone, None) <==> IsExpired(objects, key, opts.now))
    && (forall uid, p :: Owns(objects, key, uid, p) ==>
          && (v == Match(Abandoned, Some(p)) <==> IsAbandoned(objects, uid, p, opts.now))
          && (v == Match(Inactive, Some(p)) <==> !IsAbandoned(objects, uid, p, opts.now) && IsInactive(p, opts)))
    && (v.Match? && v != Match(Tombstone, None) ==>
          v.policy != Tombstone && v.profile.Some? && Owns(objects, key, objects[key].userId, v.profile.value))
  }

  lemma InboxEmptyIs(objects: Objects, uid: string)
    ensures InboxEmpty(objects, uid) <==> !HasMessage(objects, uid)
  {
    assert LivePrefix(uid) == "inbox/" + uid + "/live/" && ArchivePrefix(uid) == "inbox/" + uid + "/archive/";
  }

  lemma ClassifyIsRight(objects: Objects, key: string, opts: Opts)
    ensures JudgedRightly(objects, key, opts, Classify(objects, key, opts))
  {
    if key in objects && objects[key].HandleFile? {
      var uid := objects[key].userId;
      assert ProfileKey(uid) == "users/" + uid + "/profile.json";
      InboxEmptyIs(objects, uid);
    }
  }

  // ---- what one run did ----

  datatype Entry =
    | Failed(key: string)
    | Kept(key: string)
    | Hit(key: string, policy: Policy, profile: Option<Profile>, done: bool)

  predicate Covers(e: Entry, key: string)
  {
    e.Hit? && (key == e.key || (e.profile.Some? && UnderUser(e.profile.value.userId, key)))
  }

  datatype CleanupResult = CleanupResult(
    handlesScanned: nat, abandoned: nat, inactive: nat, tombstones: nat, deleted: nat, errors: nat)

  function CountPolicy(log: seq<Entry>, p: Policy): nat
  {
    if log == [] then 0
    else
      var e := log[|log| - 1];
      CountPolicy(log[..|log| - 1], p) + if e.Hit? && e.policy == p then 1 else 0
  }

  function CountDone(log: seq<Entry>): nat
  {
    if log == [] then 0
    else
      var e := log[|log| - 1];
      CountDone(log[..|log| - 1]) + if e.Hit? && e.done then 1 else 0
  }

  function CountFailedDeletes(log: seq<Entry>): nat
  {
    if log == [] then 0
    else
      var e := log[|log| - 1];
      CountFailedDeletes(log[..|log| - 1]) + if e.Hit? && !e.done then 1 else 0
  }

  function CountFailedReads(log: seq<Entry>): nat
  {
    if log == [] then 0
    else CountFailedReads(log[..|log| - 1]) + if log[|log| - 1].Failed? then 1 else 0
  }

  ghost predicate Tallied(res: CleanupResult, log: seq<Entry>)
  {
    && res.abandoned == CountPolicy(log, Abandoned) && res.inactive == CountPolicy(log, Inactive)
    && res.tombstones == CountPolicy(log, Tombstone) && res.deleted == CountDone(log)
    && res.errors == CountFailedReads(log) + CountFailedDeletes(log)
  }

  /** Every match is either deleted or counted as a failed delete. */
  lemma {:induction false} MatchesBalance(log: seq<Entry>)
    ensures CountPolicy(log, Abandoned) + CountPolicy(log, Inactive) + CountPolicy(log, Tombstone)
         == CountDone(log) + CountFailedDeletes(log)
  {
    if log != [] {
      MatchesBalance(log[..|log| - 1]);
      var e := log[|log| - 1];
      assert e.Hit? ==> e.policy == Abandoned || e.policy == Inactive || e.policy == Tombstone;
    }
  }

  // ---- paths are disjoint ----

  lemma SegmentUnique(u: string, v: string, rest: string)
    requires SlashFree(u) && SlashFree(v) && u + "/" <= v + "/" + rest
    ensures u == v
  {
    var a, b := u + "/", v + "/" + rest;
    var n := if |u| < |v| then |u| else |v|;
    assert a[n] == b[n];
    assert |u| == |v|;
    assert forall i :: 0 <= i < |u| ==> u[i] == a[i] && v[i] == b[i] && a[i] == b[i];
  }

  lemma HandleNotUnderUser(uid: string, key: string)
    requires "handles/" <= key
    ensures !UnderUser(uid, key)
  {
    assert key[0] == 'h';
    forall i | 0 <= i < 4 ensures !(UserPrefixes(uid)[i] <= key) {
      var p := UserPrefixes(uid)[i];
      assert p[0] != 'h';
    }
  }

  /** A prefix `root + u + "/"` reaches a key under another root or user only if both agree. */
  lemma OtherUser(uid: string, other: string, key: string, root: string, rest: string)
    requires SlashFree(uid) && SlashFree(other) && uid != other
    requires root == "users/" || root == "inbox/"
    requires key == root + (other + "/" + rest)
    ensures !UnderUser(uid, key)
  {
    if UnderUser(uid, key) {
      var i :| 0 <= i < 4 && UserPrefixes(uid)[i] <= key;
      var p := UserPrefixes(uid)[i];
      assert p[0] == key[0] == root[0];
      assert p == root + (uid + "/");
      assert uid + "/" == p[|root|..] && other + "/" + rest == key[|root|..];
      assert uid + "/" <= other + "/" + rest;
      SegmentUnique(uid, other, rest);
    }
  }

  // ---- classification does not depend on what earlier entries wiped ----

  /** Handle files and profiles name each other; user ids have no slash. */
  ghost predicate Agrees(objects: Objects, key: string)
  {
    key in objects && objects[key].HandleFile? && objects[key].userId != "" ==>
      var pk := ProfileKey(objects[key].userId);
      && SlashFree(objects[key].userId)
      && (pk in objects && objects[pk].ProfileFile? ==>
            && objects[pk].profile.userId == objects[key].userId
            && objects[pk].profile.handle != "" && HandleKey(objects[pk].profile.handle) == key)
  }

  ghost predicate Consistent(objects: Objects)
  {
    forall k :: "handles/" <= k ==> Agrees(objects, k)
  }

  ghost predicate Gone(log: seq<Entry>, dryRun: bool, key: string)
  {
    !dryRun && exists i :: 0 <= i < |log| && Covers(log[i], key)
  }

  /** Only what a logged match covers has been removed, and nothing has been rewritten. */
  ghost predicate Shrunk(before: Objects, now: Objects, log: seq<Entry>, dryRun: bool)
  {
    && (forall k :: k in now ==> k in before && now[k] == before[k])
    && (forall k :: k in before && k !in now ==> Gone(log, dryRun, k))
  }

  /** An entry says what the untouched store would have said of its key. */
  ghost predicate EntryOk(before: Objects, opts: Opts, e: Entry)
  {
    && "handles/" <= e.key && e.key in before
    && (e.Kept? ==> Classify(before, e.key, opts) == Keep)
    && (e.Hit? ==> Classify(before, e.key, opts) == Match(e.policy, e.profile))
  }

  ghost predicate LogOk(before: Objects, opts: Opts, log: seq<Entry>)
  {
    forall i :: 0 <= i < |log| ==> EntryOk(before, opts, log[i])
  }

  lemma ProfileOfHit(before: Objects, opts: Opts, e: Entry)
    requires Consistent(before) && EntryOk(before, opts, e) && e.Hit? && e.profile.Some?
    ensures var p := e.profile.value;
            && before[e.key].HandleFile? && p.userId == before[e.key].userId && SlashFree(p.userId)
            && p.handle != "" && HandleKey(p.handle) == e.key
  {
    assert Agrees(before, e.key);
  }

  lemma CoversNoOtherHandle(e: Entry, key: string)
    requires "handles/" <= key && key != e.key
    ensures !Covers(e, key)
  {
    if e.Hit? && e.profile.Some? { HandleNotUnderUser(e.profile.value.userId, key); }
  }

  /** A match on one handle covers nothing that another handle's classification reads. */
  lemma CoversOnlyItsOwn(before: Objects, opts: Opts, e: Entry, key: string, x: string)
    requires Consistent(before) && EntryOk(before, opts, e)
    requires "handles/" <= key && key in before && key != e.key
    requires before[key].HandleFile? && before[key].userId != "" && ProfileKey(before[key].userId) in before
    requires x == ProfileKey(before[key].userId)
             || LivePrefix(before[key].userId) <= x || ArchivePrefix(before[key].userId) <= x
    ensures !Covers(e, x)
  {
    var uid := before[key].userId;
    assert Agrees(before, key);
    assert e.key[0] == 'h' && ProfileKey(uid)[0] == 'u' && LivePrefix(uid)[0] == 'i' && ArchivePrefix(uid)[0] == 'i';
    if e.Hit? && e.profile.Some? {
      ProfileOfHit(before, opts, e);
      var other := e.profile.value.userId;
      if LivePrefix(uid) <= x {
        InboxOther(other, uid, x, "live/");
      } else if ArchivePrefix(uid) <= x {
        InboxOther(other, uid, x, "archive/");
      } else {
        OtherUser(other, uid, x, "users/", "profile.json");
      }
    }
  }

  lemma InboxOther(uid: string, other: string, x: string, tail: string)
    requires SlashFree(uid) && SlashFree(other) && uid != other
    requires "inbox/" + (other + "/" + tail) <= x
    ensures !UnderUser(uid, x) && x[0] == 'i'
  {
    var p := "inbox/" + (other + "/" + tail);
    var rest := x[|p|..];
    assert x == p + rest;
    assert x == "inbox/" + (other + "/" + (tail + rest));
    OtherUser(uid, other, x, "inbox/", tail + rest);
  }

  ghost predicate NotLogged(log: seq<Entry>, key: string)
  {
    forall i :: 0 <= i < |log| ==> log[i].key != key
  }

  lemma HandleStays(before: Objects, now: Objects, log: seq<Entry>, dryRun: bool, key: string)
    requires Shrunk(before, now, log, dryRun) && NotLogged(log, key)
    requires "handles/" <= key && key in before
    ensures key in now && now[key] == before[key]
  {
    forall i | 0 <= i < |log| ensures !Covers(log[i], key) { CoversNoOtherHandle(log[i], key); }
  }

  lemma ReadStays(before: Objects, now: Objects, log: seq<Entry>, opts: Opts, key: string, x: string)
    requires Consistent(before) && LogOk(before, opts, log)
    requires Shrunk(before, now, log, opts.dryRun) && NotLogged(log, key)
    requires "handles/" <= key && key in before
    requires before[key].HandleFile? && before[key].userId != "" && ProfileKey(before[key].userId) in before
    requires x == ProfileKey(before[key].userId)
             || LivePrefix(before[key].userId) <= x || ArchivePrefix(before[key].userId) <= x
    ensures x in before ==> x in now
  {
    forall i | 0 <= i < |log| ensures !Covers(log[i], x) { CoversOnlyItsOwn(before, opts, log[i], key, x); }
  }

  /** Whatever the sweep wiped so far, a handle not yet visited is classified as it would have
      been at the start. */
  lemma ClassifyUnchanged(before: Objects, now: Objects, log: seq<Entry>, opts: Opts, key: string)
    requires Consistent(before) && LogOk(before, opts, log)
    requires Shrunk(before, now, log, opts.dryRun) && NotLogged(log, key)
    requires "handles/" <= key && key in before
    ensures key in now && Classify(now, key, opts) == Classify(before, key, opts)
  {
    HandleStays(before, now, log, opts.dryRun, key);
    if before[key].HandleFile? && before[key].userId != "" && ProfileKey(before[key].userId) in before {
      var uid := before[key].userId;
      ReadStays(before, now, log, opts, key, ProfileKey(uid));
      forall x | x in before && (LivePrefix(uid) <= x || ArchivePrefix(uid) <= x) ensures x in now {
        ReadStays(before, now, log, opts, key, x);
      }
      assert InboxEmpty(now, uid) == InboxEmpty(before, uid);
    }
  }

  // ---- paging ----

  ghost function Handles(objects: Objects): seq<string>
  {
    Matching(objects.Keys, "handles/", None)
  }

  /** The log visits the handles in listing order, each once. */
  ghost predicate Visits(before: Objects, log: seq<Entry>)
  {
    && |log| <= |Handles(before)|
    && forall i :: 0 <= i < |log| ==> log[i].key == Handles(before)[i]
  }

  function CursorAt(handles: seq<string>, n: nat): Option<string>
    requires n <= |handles|
  {
    if n == 0 then None else Some(handles[n - 1])
  }

  lemma NextNotLogged(before: Objects, log: seq<Entry>, n: nat)
    requires Visits(before, log) && |log| <= n < |Handles(before)|
    ensures NotLogged(log, Handles(before)[n])
    ensures "handles/" <= Handles(before)[n] && Handles(before)[n] in before
  {
    var h := Handles(before);
    MatchingFacts(before.Keys, "handles/", None);
    assert h[n] in h;
    forall i | 0 <= i < |log| ensures log[i].key != h[n] { LessIrreflexive(h[n]); }
  }

  lemma TailIndex(h: seq<string>, n: nat, k: string) returns (i: nat)
    requires n <= |h| && k in h[n..]
    ensures n <= i < |h| && h[i] == k
  {
    var j :| 0 <= j < |h| - n && h[n..][j] == k;
    i := n + j;
  }

  lemma HandleMatches(before: Objects, i: nat, n: nat)
    requires n <= i < |Handles(before)|
    ensures Matches(Handles(before)[i], "handles/", CursorAt(Handles(before), n))
  {
    MatchingFacts(before.Keys, "handles/", None);
    assert Handles(before)[i] in Handles(before);
  }

  lemma RestListed(before: Objects, now: Objects, log: seq<Entry>, dryRun: bool, k: string)
    requires Visits(before, log) && Shrunk(before, now, log, dryRun) && k in Handles(before)[|log|..]
    ensures k in now && Matches(k, "handles/", CursorAt(Handles(before), |log|))
  {
    var i := TailIndex(Handles(before), |log|, k);
    HandleMatches(before, i, |log|);
    NextNotLogged(before, log, i);
    HandleStays(before, now, log, dryRun, k);
  }

  lemma ListedRest(before: Objects, now: Objects, log: seq<Entry>, dryRun: bool, k: string)
    requires Visits(before, log) && Shrunk(before, now, log, dryRun)
    requires k in now && Matches(k, "handles/", CursorAt(Handles(before), |log|))
    ensures k in Handles(before)[|log|..]
  {
    var h, n := Handles(before), |log|;
    MatchingFacts(before.Keys, "handles/", None);
    assert k in h;
    if n > 0 { AboveElement(h, n - 1, k); } else { assert h[0..] == h; }
  }

  lemma TailAscending(h: seq<string>, n: nat)
    requires Ascending(h) && n <= |h|
    ensures Ascending(h[n..])
  {
    assert forall i :: 0 <= i < |h| - n ==> h[n..][i] == h[n + i];
  }

  /** Although keys vanish, following the cursor lists exactly the handles not yet visited. */
  lemma RestOfHandles(before: Objects, now: Objects, log: seq<Entry>, dryRun: bool)
    requires Visits(before, log) && Shrunk(before, now, log, dryRun)
    ensures Matching(now.Keys, "handles/", CursorAt(Handles(before), |log|)) == Handles(before)[|log|..]
  {
    var cursor, rest := CursorAt(Handles(before), |log|), Handles(before)[|log|..];
    MatchingFacts(before.Keys, "handles/", None);
    TailAscending(Handles(before), |log|);
    MatchingFacts(now.Keys, "handles/", cursor);
    forall k ensures k in rest <==> k in Matching(now.Keys, "handles/", cursor) {
      if k in rest { RestListed(before, now, log, dryRun, k); }
      if k in now && Matches(k, "handles/", cursor) { ListedRest(before, now, log, dryRun, k); }
    }
    AscendingUnique(rest, Matching(now.Keys, "handles/", cursor));
  }

  // ---- the plan a fault-free run follows ----

  function EntryFor(key: string, v: Verdict): Entry
  {
    match v
    case Unreadable => Failed(key)
    case Keep => Kept(key)
    case Match(policy, profile) => Hit(key, policy, profile, true)
  }

  /** Everything a run is measured against, fixed when it starts: the store, its handle keys in
      order, and what the store then says of each. */
  datatype Ground = Ground(before: Objects, handles: seq<string>, verdicts: seq<Verdict>, dryRun: bool, batch: nat)

  ghost function GroundOf(before: Objects, opts: Opts): Ground
  {
    var h := Handles(before);
    Ground(before, h, seq(|h|, i requires 0 <= i < |h| => Classify(before, h[i], opts)), opts.dryRun, opts.batchSize)
  }

  /** Judge every handle in order until the budget is spent. */
  function Plan(handles: seq<string>, verdicts: seq<Verdict>, budget: nat): seq<Entry>
    requires |handles| == |verdicts|
    decreases handles
  {
    if handles == [] || budget == 0 then []
    else
      var e := EntryFor(handles[0], verdicts[0]);
      [e] + Plan(handles[1..], verdicts[1..], if e.Hit? then budget - 1 else budget)
  }

  /** The store without what the matches cover. */
  ghost function Wiped(before: Objects, log: seq<Entry>, dryRun: bool): Objects
  {
    map k | k in before && !Gone(log, dryRun, k) :: before[k]
  }

  // ---- the sweep ----

  ghost predicate Cleared(objects: Objects, e: Entry)
  {
    forall k :: k in objects ==> !Covers(e, k)
  }

  ghost predicate AllCleared(objects: Objects, log: seq<Entry>)
  {
    forall i :: 0 <= i < |log| && log[i].Hit? && log[i].done ==> Cleared(objects, log[i])
  }

  /** A match on a handle not yet visited removed only what it covers. */
  lemma ShrinksMore(before: Objects, mid: Objects, now: Objects, log: seq<Entry>, e: Entry, dryRun: bool)
    requires Shrunk(before, mid, log, dryRun)
    requires forall k :: k in now ==> k in mid && now[k] == mid[k]
    requires forall k :: k in mid && k !in now ==> !dryRun && Covers(e, k)
    ensures Shrunk(before, now, log + [e], dryRun)
  {
    var log' := log + [e];
    forall k | k in before && k !in now ensures Gone(log', dryRun, k) {
      if k in mid {
        assert Covers(log'[|log|], k);
      } else {
        var i :| 0 <= i < |log| && Covers(log[i], k);
        assert Covers(log'[i], k);
      }
    }
  }

  lemma ClearsMore(mid: Objects, now: Objects, log: seq<Entry>, e: Entry)
    requires AllCleared(mid, log) && forall k :: k in now ==> k in mid
    requires e.Hit? && e.done ==> Cleared(now, e)
    ensures AllCleared(now, log + [e])
  {
    var log' := log + [e];
    forall i | 0 <= i < |log'| && log'[i].Hit? && log'[i].done ensures Cleared(now, log'[i]) {
      if i < |log| { assert Cleared(mid, log[i]); }
    }
  }

  /** The counters after one more entry. */
  function Count(res: CleanupResult, e: Entry): CleanupResult
  {
    match e
    case Failed(_) => res.(errors := res.errors + 1)
    case Kept(_) => res
    case Hit(_, policy, _, done) =>
      var r := match policy
        case Abandoned => res.(abandoned := res.abandoned + 1)
        case Inactive => res.(inactive := res.inactive + 1)
        case Tombstone => res.(tombstones := res.tombstones + 1);
      if done then r.(deleted := r.deleted + 1) else r.(errors := r.errors + 1)
  }

  lemma CountsMore(res: CleanupResult, log: seq<Entry>, e: Entry)
    requires Tallied(res, log)
    ensures Tallied(Count(res, e), log + [e])
  {
    assert (log + [e])[..|log|] == log;
  }

  ghost predicate AllDone(log: seq<Entry>)
  {
    forall i :: 0 <= i < |log| && log[i].Hit? ==> log[i].done
  }

  lemma WipedExactly(before: Objects, now: Objects, log: seq<Entry>, dryRun: bool)
    requires Shrunk(before, now, log, dryRun) && AllDone(log) && (!dryRun ==> AllCleared(now, log))
    ensures now == Wiped(before, log, dryRun)
  {
    forall k | k in before ensures k in now <==> !Gone(log, dryRun, k) {
      if Gone(log, dryRun, k) {
        var i :| 0 <= i < |log| && Covers(log[i], k);
        assert Cleared(now, log[i]);
      }
    }
    assert now.Keys == Wiped(before, log, dryRun).Keys;
  }

  /** An entry says what the store at the start said of its key; with `reliable` it is done too. */
  predicate EntryAgrees(e: Entry, key: string, v: Verdict, reliable: bool)
  {
    && e.key == key
    && (e.Kept? ==> v == Keep)
    && (e.Hit? ==> v == Match(e.policy, e.profile))
    && (reliable ==> e == EntryFor(key, v))
  }

  /** The log visits the handles in listing order, each once. */
  ghost predicate LogAgrees(g: Ground, log: seq<Entry>, reliable: bool)
  {
    && |log| <= |g.handles| == |g.verdicts|
    && forall i :: 0 <= i < |log| ==> EntryAgrees(log[i], g.handles[i], g.verdicts[i], reliable)
  }

  /** Where a run stands after the entries of `log`. */
  ghost predicate Progress(g: Ground, now: Objects, log: seq<Entry>, res: CleanupResult, reliable: bool)
  {
    && Shrunk(g.before, now, log, g.dryRun)
    && (!g.dryRun ==> AllCleared(now, log))
    && LogAgrees(g, log, reliable)
    && Tallied(res, log) && res.deleted <= g.batch
    && (log != [] ==> CountDone(log[..|log| - 1]) < g.batch)
  }

  ghost predicate Judged(g: Ground, opts: Opts, n: nat)
  {
    n < |g.handles| == |g.verdicts| && g.verdicts[n] == Classify(g.before, g.handles[n], opts)
  }

  /** The handle keys, in listing order. */
  ghost predicate Lists(handles: seq<string>, objects: Objects)
  {
    Ascending(handles) && forall k :: k in handles <==> k in objects && "handles/" <= k
  }

  lemma ListsAreHandles(handles: seq<string>, objects: Objects)
    requires Lists(handles, objects)
    ensures handles == Handles(objects)
  {
    MatchingFacts(objects.Keys, "handles/", None);
    AscendingUnique(handles, Handles(objects));
  }

  ghost predicate Grounded(g: Ground, opts: Opts)
  {
    && Consistent(g.before) && Lists(g.handles, g.before) && |g.verdicts| == |g.handles|
    && g.dryRun == opts.dryRun && g.batch == opts.batchSize
    && forall n :: 0 <= n < |g.handles| ==> Judged(g, opts, n)
  }

  lemma GroundIsGrounded(before: Objects, opts: Opts)
    requires Consistent(before)
    ensures Grounded(GroundOf(before, opts), opts)
  {
    MatchingFacts(before.Keys, "handles/", None);
  }

  lemma ProgressLog(g: Ground, opts: Opts, now: Objects, log: seq<Entry>, res: CleanupResult, reliable: bool)
    requires Grounded(g, opts) && Progress(g, now, log, res, reliable)
    ensures LogOk(g.before, opts, log) && Visits(g.before, log) && g.handles == Handles(g.before)
  {
    ListsAreHandles(g.handles, g.before);
    forall i | 0 <= i < |log| ensures EntryOk(g.before, opts, log[i]) {
      assert Judged(g, opts, i);
      assert g.handles[i] in g.handles && EntryAgrees(log[i], g.handles[i], g.verdicts[i], reliable);
    }
  }

  /** What handling one key may have done to the store. */
  ghost predicate Stepped(g: Ground, mid: Objects, now: Objects, e: Entry, v: Verdict, reliable: bool)
  {
    && EntryAgrees(e, e.key, v, reliable)
    && (forall k :: k in now ==> k in mid && now[k] == mid[k])
    && (forall k :: k in mid && k !in now ==> !g.dryRun && Covers(e, k))
    && (!g.dryRun && e.Hit? && e.done ==> Cleared(now, e))
  }

  lemma ProgressMore(g: Ground, mid: Objects, now: Objects, log: seq<Entry>, res: CleanupResult, e: Entry,
                     reliable: bool)
    requires Progress(g, mid, log, res, reliable)
    requires |log| < |g.handles| && e.key == g.handles[|log|] && res.deleted < g.batch
    requires Stepped(g, mid, now, e, g.verdicts[|log|], reliable)
    ensures Progress(g, now, log + [e], Count(res, e), reliable)
  {
    CountsMore(res, log, e);
    ShrinksMore(g.before, mid, now, log, e, g.dryRun);
    if !g.dryRun { ClearsMore(mid, now, log, e); }
    assert (log + [e])[..|log|] == log;
  }

  class Sweeper {
    const store: MemStore<File>
    const reliable: bool

    /** With `reliable` no store operation fails. */
    constructor (store: MemStore<File>, reliable: bool)
      ensures this.store == store && this.reliable == reliable
    {
      this.store, this.reliable := store, reliable;
    }

    method Works() returns (ok: bool)
      ensures reliable ==> ok
    {
      ok := true;
      if !reliable { ok := *; }
    }

    method IsInboxEmpty(uid: string) returns (ok: bool, empty: bool)
      requires store.Valid()
      ensures reliable ==> ok
      ensures ok ==> (empty <==> InboxEmpty(store.objects, uid))
    {
      empty := true;
      var prefixes := [LivePrefix(uid), ArchivePrefix(uid)];
      var i := 0;
      ok := true;
      while i < 2
        invariant 0 <= i <= 2 && ok && empty
        invariant forall j :: 0 <= j < i ==> NoneUnder(store.objects, prefixes[j])
      {
        ok := Works();
        if !ok { return; }
        var page := store.ListObjects(prefixes[i], 1, None);
        FirstOfPage(store.objects, prefixes[i], 1);
        if |page.keys| > 0 {
          assert !NoneUnder(store.objects, prefixes[i]);
          empty := false;
          return;
        }
        i := i + 1;
      }
      assert NoneUnder(store.objects, prefixes[0]) && NoneUnder(store.objects, prefixes[1]);
    }

    method EvaluateProfile(uid: string, p: Profile, opts: Opts) returns (ok: bool, v: Verdict)
      requires store.Valid()
      ensures reliable ==> ok
      ensures ok ==> v == ClassifyProfile(store.objects, uid, p, opts)
    {
      ok, v := true, Keep;
      if p.displayName == "" {
        if p.createdAt.Instant? && opts.now - p.createdAt.t > ABANDONED_GRACE_DAYS * DAY {
          var empty;
          ok, empty := IsInboxEmpty(uid);
          if !ok { return; }
          if empty { return true, Match(Abandoned, Some(p)); }
        }
      }
      if p.lastActive != Blank {
        if p.lastActive.Instant? && opts.now - p.lastActive.t > opts.inactiveDays * DAY {
          return true, Match(Inactive, Some(p));
        }
      }
    }

    /** Classifies one handle file as the store now stands; `!ok` is a store failure. */
    method EvaluateUser(key: string, opts: Opts) returns (ok: bool, v: Verdict)
      requires store.Valid()
      ensures reliable ==> ok
      ensures ok ==> v == Classify(store.objects, key, opts) && JudgedRightly(store.objects, key, opts, v)
    {
      ClassifyIsRight(store.objects, key, opts);
      v := Unreadable;
      ok := Works();
      if !ok { return; }
      var data := store.GetObject(key);
      if data.None? || !data.value.HandleFile? { return; }
      var h := data.value;
      if h.userId == "" {
        if h.releasedAt == Blank { return true, Keep; }
        if h.releasedAt == Malformed { return; }
        if opts.now - h.releasedAt.t > HANDLE_COOLDOWN_DAYS * DAY { return true, Match(Tombstone, None); }
        return true, Keep;
      }
      ok := Works();
      if !ok { return; }
      var file := store.GetObject(ProfileKey(h.userId));
      if file.None? { return true, Keep; }
      if !file.value.ProfileFile? { return; }
      ok, v := EvaluateProfile(h.userId, file.value.profile, opts);
    }

    /** A batch delete; when it fails, any part of the batch may be gone. */
    method DeleteBatch(keys: seq<string>) returns (ok: bool)
      requires store.Valid()
      modifies store
      ensures store.Valid() && (reliable ==> ok)
      ensures store.objects.Keys <= old(store.objects).Keys
      ensures forall k :: k in old(store.objects) && k !in keys ==> k in store.objects
      ensures forall k :: k in store.objects ==> store.objects[k] == old(store.objects)[k]
      ensures ok ==> store.objects == old(store.objects) - (set k | k in keys)
    {
      ok := Works();
      if ok {
        store.DeleteObjects(keys);
      } else {
        var i := 0;
        while i < |keys|
          invariant i <= |keys| && store.Valid()
          invariant store.objects.Keys <= old(store.objects).Keys
          invariant forall k :: k in old(store.objects) && k !in keys ==> k in store.objects
          invariant forall k :: k in store.objects ==> store.objects[k] == old(store.objects)[k]
        {
          var gone: bool := *;
          if gone { store.DeleteObject(keys[i]); }
          i := i + 1;
        }
      }
    }

    /** Lists and deletes from the start until nothing is left under the prefix. */
    method WipePrefix(prefix: string) returns (ok: bool)
      requires store.Valid()
      modifies store
      ensures store.Valid() && (reliable ==> ok)
      ensures forall k :: k in store.objects ==> k in old(store.objects) && store.objects[k] == old(store.objects)[k]
      ensures forall k :: k in old(store.objects) && !(prefix <= k) ==> k in store.objects
      ensures ok ==> NoneUnder(store.objects, prefix)
    {
      while true
        invariant store.Valid()
        invariant forall k :: k in store.objects ==>
                  k in old(store.objects) && store.objects[k] == old(store.objects)[k]
        invariant forall k :: k in old(store.objects) && !(prefix <= k) ==> k in store.objects
        decreases |store.objects|
      {
        ok := Works();
        if !ok { return; }
        var page := store.ListObjects(prefix, WIPE_PAGE_SIZE, None);
        FirstOfPage(store.objects, prefix, WIPE_PAGE_SIZE);
        if |page.keys| == 0 { return; }
        var n := |page.keys|;
        ghost var was := store.objects;
        ok := DeleteBatch(page.keys);
        if !ok { return; }
        Fewer(was, page.keys);
        if n < WIPE_PAGE_SIZE { return; }
      }
    }

    /** Removes everything of a user: four prefixes, then the handle file. */
    method DeleteUser(p: Profile) returns (ok: bool)
      requires store.Valid()
      modifies store
      ensures store.Valid() && (reliable ==> ok)
      ensures forall k :: k in store.objects ==> k in old(store.objects) && store.objects[k] == old(store.objects)[k]
      ensures forall k :: k in old(store.objects) && k !in store.objects ==>
                && (UnderUser(p.userId, k) || (p.handle != "" && k == HandleKey(p.handle)))
                && (OfUser(p.userId, k) || (p.handle != "" && k == "handles/" + p.handle + ".json"))
      ensures ok ==> forall k :: k in store.objects ==> !UnderUser(p.userId, k) && !OfUser(p.userId, k)
      ensures ok && p.handle != "" ==> "handles/" + p.handle + ".json" !in store.objects
    {
      forall k ensures UnderUser(p.userId, k) <==> OfUser(p.userId, k) { UnderUserIs(p.userId, k); }
      var prefixes := UserPrefixes(p.userId);
      var i := 0;
      ok := true;
      while i < 4
        invariant 0 <= i <= 4 && store.Valid() && ok
        invariant forall k :: k in store.objects ==>
                  k in old(store.objects) && store.objects[k] == old(store.objects)[k]
        invariant forall k :: k in old(store.objects) && k !in store.objects ==> UnderUser(p.userId, k)
        invariant forall j :: 0 <= j < i ==> NoneUnder(store.objects, prefixes[j])
      {
        ok := WipePrefix(prefixes[i]);
        if !ok { return; }
        i := i + 1;
      }
      forall k | k in store.objects ensures !UnderUser(p.userId, k) {
        forall j | 0 <= j < 4 ensures !(UserPrefixes(p.userId)[j] <= k) {
          assert NoneUnder(store.objects, prefixes[j]);
        }
      }
      if p.handle != "" {
        ok := Works();
        if !ok { return; }
        store.DeleteObject(HandleKey(p.handle));
      }
    }

    /** Deletes what one match covers. */
    method DeleteMatch(key: string, policy: Policy, profile: Option<Profile>, ghost before: Objects, ghost opts: Opts)
      returns (ok: bool)
      requires store.Valid() && Consistent(before)
      requires EntryOk(before, opts, Hit(key, policy, profile, true))
      requires policy == Tombstone <==> profile.None?
      modifies store
      ensures store.Valid() && (reliable ==> ok)
      ensures forall k :: k in store.objects ==> k in old(store.objects) && store.objects[k] == old(store.objects)[k]
      ensures forall k :: k in old(store.objects) && k !in store.objects ==> Covers(Hit(key, policy, profile, ok), k)
      ensures ok ==> Cleared(store.objects, Hit(key, policy, profile, true))
    {
      if policy == Tombstone {
        ok := Works();
        if ok { store.DeleteObject(key); }
      } else {
        ProfileOfHit(before, opts, Hit(key, policy, profile, true));
        ok := DeleteUser(profile.value);
      }
    }

    /** Evaluates one handle and deletes it if it matches. */
    method SweepHandle(key: string, opts: Opts, res: CleanupResult, ghost g: Ground)
      returns (res': CleanupResult, ghost e: Entry)
      requires store.Valid() && Grounded(g, opts) && "handles/" <= key && key in g.before
      requires Classify(store.objects, key, opts) == Classify(g.before, key, opts)
      modifies store
      ensures store.Valid() && e.key == key && res' == Count(res, e)
      ensures Stepped(g, old(store.objects), store.objects, e, Classify(g.before, key, opts), reliable)
    {
      var evaluated, v := EvaluateUser(key, opts);
      if !evaluated || v == Unreadable {
        e, res' := Failed(key), res.(errors := res.errors + 1);
        return;
      }
      if v == Keep {
        e, res' := Kept(key), res;
        return;
      }
      res', e := SweepMatch(key, v.policy, v.profile, opts, res, g);
    }

    method SweepMatch(key: string, policy: Policy, profile: Option<Profile>, opts: Opts, res: CleanupResult,
                      ghost g: Ground)
      returns (res': CleanupResult, ghost e: Entry)
      requires store.Valid() && Grounded(g, opts) && "handles/" <= key && key in g.before
      requires Classify(g.before, key, opts) == Match(policy, profile)
      modifies store
      ensures store.Valid() && e.key == key && res' == Count(res, e)
      ensures Stepped(g, old(store.objects), store.objects, e, Match(policy, profile), reliable)
    {
      res' := match policy
        case Abandoned => res.(abandoned := res.abandoned + 1)
        case Inactive => res.(inactive := res.inactive + 1)
        case Tombstone => res.(tombstones := res.tombstones + 1);
      var done := true;
      if !opts.dryRun { done := DeleteMatch(key, policy, profile, g.before, opts); }
      e := Hit(key, policy, profile, done);
      if !done {
        res' := res'.(errors := res'.errors + 1);
        return;
      }
      res' := res'.(deleted := res'.deleted + 1);
    }

    /** The next handle, classified as it would have been at the start. */
    method SweepNext(key: string, opts: Opts, res: CleanupResult, ghost g: Ground, ghost log: seq<Entry>)
      returns (res': CleanupResult, ghost log': seq<Entry>)
      requires store.Valid() && Grounded(g, opts) && Progress(g, store.objects, log, res, reliable)
      requires |log| < |g.handles| && key == g.handles[|log|] && res.deleted < opts.batchSize
      modifies store
      ensures store.Valid() && Progress(g, store.objects, log', res', reliable)
      ensures |log'| == |log| + 1 && res'.handlesScanned == res.handlesScanned
    {
      NextUnchanged(g, opts, store.objects, log, res, reliable);
      ghost var mid, e := store.objects, Failed(key);
      res', e := SweepHandle(key, opts, res, g);
      ProgressMore(g, mid, store.objects, log, res, e, reliable);
      log' := log + [e];
    }

    /** One turn of the loop over a page: counts the handle, and stops once the batch is spent. */
    method SweepOrStop(key: string, ghost n: nat, opts: Opts, res: CleanupResult, ghost g: Ground,
                       ghost log: seq<Entry>)
      returns (stop: bool, res': CleanupResult, ghost log': seq<Entry>)
      requires store.Valid() && Grounded(g, opts) && Progress(g, store.objects, log, res, reliable)
      requires n == |log| < |g.handles| && key == g.handles[n]
      modifies store
      ensures store.Valid() && Progress(g, store.objects, log', res', reliable)
      ensures res'.handlesScanned == res.handlesScanned + 1
      ensures |log'| == if stop then |log| else |log| + 1
      ensures stop ==> res.deleted == res'.deleted == opts.batchSize
    {
      ScanCounts(g, store.objects, log, res, res.handlesScanned + 1, reliable);
      res', log' := res.(handlesScanned := res.handlesScanned + 1), log;
      stop := res'.deleted >= opts.batchSize;
      if !stop {
        res', log' := SweepNext(key, opts, res', g, log');
      }
    }

    method SweepPage(keys: seq<string>, opts: Opts, res: CleanupResult, ghost g: Ground, ghost log: seq<Entry>)
      returns (res': CleanupResult, ghost log': seq<Entry>)
      requires store.Valid() && Grounded(g, opts) && Progress(g, store.objects, log, res, reliable)
      requires res.handlesScanned == |log| && |log| + |keys| <= |g.handles|
      requires keys == g.handles[|log|..|log| + |keys|]
      modifies store
      ensures store.Valid() && Progress(g, store.objects, log', res', reliable)
      ensures |log| <= |log'| <= res'.handlesScanned <= |log'| + 1
      ensures res'.deleted < opts.batchSize ==> |log'| == |log| + |keys| && res'.handlesScanned == |log'|
      ensures |log'| == |log| + |keys| || res'.deleted == opts.batchSize
      ensures keys != [] && res.deleted < opts.batchSize ==> |log'| > |log|
    {
      res', log' := res, log;
      var i := 0;
      while i < |keys|
        invariant 0 <= i <= |keys|
        invariant store.Valid() && Progress(g, store.objects, log', res', reliable)
        invariant |log'| == |log| + i == res'.handlesScanned
        invariant i == 0 ==> res' == res
      {
        KeyOfPage(keys, g.handles, |log|, i);
        var stop;
        stop, res', log' := SweepOrStop(keys[i], |log| + i, opts, res', g, log');
        if stop { break; }
        i := i + 1;
      }
    }

    /** The listing at the cursor: the next stretch of the handles there at the start. */
    method ListHandles(opts: Opts, cursor: Option<string>, ghost g: Ground, ghost log: seq<Entry>,
                       ghost res: CleanupResult)
      returns (page: Page)
      requires store.Valid() && Grounded(g, opts) && Progress(g, store.objects, log, res, reliable)
      requires cursor == CursorAt(g.handles, |log|)
      ensures PageOfRest(page, g.handles, |log|)
    {
      page := store.ListObjects("handles/", HANDLES_PAGE_SIZE, cursor);
      NextPage(g, opts, store.objects, log, res, reliable);
    }

    /** One page: list at the cursor and sweep what comes back. */
    method SweepTurn(opts: Opts, cursor: Option<string>, res: CleanupResult, ghost g: Ground, ghost log: seq<Entry>)
      returns (ok: bool, next: Option<string>, res': CleanupResult, ghost log': seq<Entry>)
      requires store.Valid() && Grounded(g, opts) && Progress(g, store.objects, log, res, reliable)
      requires cursor == CursorAt(g.handles, |log|) && res.handlesScanned == |log| && res.deleted < opts.batchSize
      modifies store
      ensures store.Valid() && Progress(g, store.objects, log', res', reliable)
      ensures reliable ==> ok
      ensures |log'| <= res'.handlesScanned <= |log'| + 1
      ensures ok && res'.deleted < opts.batchSize ==> res'.handlesScanned == |log'|
      ensures ok && next.None? ==> |log'| == |g.handles| || res'.deleted == opts.batchSize
      ensures ok && next.Some? ==> |log'| > |log|
      ensures ok && next.Some? && res'.deleted < opts.batchSize ==> next == CursorAt(g.handles, |log'|)
    {
      next, res', log' := None, res, log;
      ok := Works();
      if !ok { return; }
      var page := ListHandles(opts, cursor, g, log, res);
      res', log' := SweepPage(page.keys, opts, res, g, log);
      next := page.next;
    }

    /** One sweep. `!ok` is a failed listing, which loses the counters. */
    method RunCleanup(opts: Opts) returns (ok: bool, res: CleanupResult, ghost log: seq<Entry>)
      requires store.Valid() && Consistent(store.objects)
      modifies store
      ensures store.Valid() && Progress(GroundOf(old(store.objects), opts), store.objects, log, res, reliable)
      ensures |log| <= res.handlesScanned <= |log| + 1
      ensures ok ==> |log| == |Handles(old(store.objects))| || res.deleted == opts.batchSize
      ensures reliable ==> ok
      ensures SparesInUse(old(store.objects), store.objects, opts)
    {
      ghost var g := GroundOf(store.objects, opts);
      GroundIsGrounded(store.objects, opts);
      res := CleanupResult(0, 0, 0, 0, 0, 0);
      log := [];
      var cursor: Option<string> := None;
      ok := true;
      while res.deleted < opts.batchSize
        invariant ok && store.Valid() && Progress(g, store.objects, log, res, reliable)
        invariant |log| <= res.handlesScanned <= |log| + 1
        invariant |log| <= |g.handles|
        invariant res.deleted < opts.batchSize ==> cursor == CursorAt(g.handles, |log|) && res.handlesScanned == |log|
        decreases |g.handles| - |log|
      {
        var next;
        ok, next, res, log := SweepTurn(opts, cursor, res, g, log);
        if !ok {
          AllInUseUntouched(g.before, store.objects, opts, log, res, reliable);
          return;
        }
        match next {
          case Some(c) => cursor := Some(c);
          case None => break;
        }
      }
      AllInUseUntouched(g.before, store.objects, opts, log, res, reliable);
    }
  }

  lemma KeyOfPage(keys: seq<string>, handles: seq<string>, n: nat, i: nat)
    requires n + |keys| <= |handles| && keys == handles[n..n + |keys|] && i < |keys|
    ensures keys[i] == handles[n + i]
  {
  }

  /** How many handles were scanned is no part of the balance. */
  lemma ScanCounts(g: Ground, now: Objects, log: seq<Entry>, res: CleanupResult, scanned: nat, reliable: bool)
    requires Progress(g, now, log, res, reliable)
    ensures Progress(g, now, log, res.(handlesScanned := scanned), reliable)
  {
  }

  lemma NextUnchanged(g: Ground, opts: Opts, now: Objects, log: seq<Entry>, res: CleanupResult, reliable: bool)
    requires Grounded(g, opts) && Progress(g, now, log, res, reliable) && |log| < |g.handles|
    ensures var key := g.handles[|log|];
            && "handles/" <= key && key in g.before
            && Classify(now, key, opts) == Classify(g.before, key, opts) == g.verdicts[|log|]
  {
    ProgressLog(g, opts, now, log, res, reliable);
    assert Judged(g, opts, |log|);
    NextNotLogged(g.before, log, |log|);
    ClassifyUnchanged(g.before, now, log, opts, g.handles[|log|]);
  }

  /** The first page of what is left of the handles. */
  ghost predicate PageOfRest(page: Page, handles: seq<string>, n: nat)
    requires n <= |handles|
  {
    var end := n + |page.keys|;
    && end <= |handles| && page.keys == handles[n..end]
    && (page.next.None? ==> end == |handles|)
    && (page.next.Some? ==> page.keys != [] && page.next == CursorAt(handles, end))
  }

  lemma PageOfTail(keys: set<string>, cursor: Option<string>, handles: seq<string>, n: nat)
    requires n <= |handles| && Matching(keys, "handles/", cursor) == handles[n..]
    ensures PageOfRest(PageOf(keys, "handles/", HANDLES_PAGE_SIZE, cursor), handles, n)
  {
  }

  /** The page at the cursor is the next stretch of the handles that were there at the start. */
  lemma NextPage(g: Ground, opts: Opts, now: Objects, log: seq<Entry>, res: CleanupResult, reliable: bool)
    requires Grounded(g, opts) && Progress(g, now, log, res, reliable)
    ensures PageOfRest(PageOf(now.Keys, "handles/", HANDLES_PAGE_SIZE, CursorAt(g.handles, |log|)), g.handles, |log|)
  {
    ProgressLog(g, opts, now, log, res, reliable);
    RestOfHandles(g.before, now, log, g.dryRun);
    PageOfTail(now.Keys, CursorAt(g.handles, |log|), g.handles, |log|);
  }

  lemma FirstOfPage(objects: Objects, prefix: string, limit: nat)
    requires limit > 0
    ensures var page := PageOf(objects.Keys, prefix, limit, None);
            && (page.keys == [] <==> NoneUnder(objects, prefix))
            && (forall k :: k in page.keys ==> k in objects && prefix <= k)
            && (|page.keys| < limit ==> NoneUnder(objects - (set k | k in page.keys), prefix))
  {
    var all := Matching(objects.Keys, prefix, None);
    MatchingFacts(objects.Keys, prefix, None);
    var page := PageOf(objects.Keys, prefix, limit, None);
    assert forall i :: 0 <= i < |page.keys| ==> page.keys[i] == all[i] && all[i] in all;
    if all != [] { assert page.keys[0] == all[0] && all[0] in all; }
  }

  lemma Fewer(objects: Objects, keys: seq<string>)
    requires keys != [] && forall k :: k in keys ==> k in objects
    ensures |objects - (set k | k in keys)| < |objects|
  {
    var gone := set k | k in keys;
    assert keys[0] in gone;
    var rest := objects - gone;
    assert rest.Keys == objects.Keys - gone;
    SmallerSet(rest.Keys, objects.Keys, keys[0]);
    assert |rest| == |rest.Keys| && |objects| == |objects.Keys|;
  }

  lemma SmallerSet(a: set<string>, b: set<string>, x: string)
    requires a <= b && x in b && x !in a
    ensures |a| < |b|
  {
    Subset(a, b - {x});
  }

  lemma {:induction false} Subset(a: set<string>, b: set<string>)
    requires a <= b
    ensures |a| <= |b|
  {
    if a != {} {
      var x :| x in a;
      Subset(a - {x}, b - {x});
    }
  }

  // ---- what a run means ----

  /** Deletes never exceed the batch, every match is deleted or counted among the errors, and
      the handle keys visited are the first ones of the starting listing, in order: none twice. */
  lemma SweepCounts(before: Objects, now: Objects, opts: Opts, log: seq<Entry>, res: CleanupResult, reliable: bool)
    requires Consistent(before) && Progress(GroundOf(before, opts), now, log, res, reliable)
    ensures res.deleted <= opts.batchSize
    ensures res.abandoned + res.inactive + res.tombstones == res.deleted + CountFailedDeletes(log)
    ensures res.errors == CountFailedReads(log) + CountFailedDeletes(log)
    ensures forall i, j :: 0 <= i < j < |log| ==> log[i].key != log[j].key
    ensures |log| == |Handles(before)| ==>
              forall k :: k in before && "handles/" <= k ==> exists i :: 0 <= i < |log| && log[i].key == k
  {
    MatchesBalance(log);
    GroundIsGrounded(before, opts);
    ProgressLog(GroundOf(before, opts), opts, now, log, res, reliable);
    MatchingFacts(before.Keys, "handles/", None);
    var h := Handles(before);
    forall i, j | 0 <= i < j < |log| ensures log[i].key != log[j].key { LessAsymmetric(h[i], h[j]); }
    if |log| == |h| {
      forall k | k in before && "handles/" <= k ensures exists i :: 0 <= i < |log| && log[i].key == k {
        assert k in h;
        var i :| 0 <= i < |h| && h[i] == k;
        assert log[i].key == k;
      }
    }
  }

  /** No object of an account the sweep kept is touched, whatever fails and whoever else is
      wiped: not its handle file, and nothing under its user's prefixes. */
  lemma KeptUntouched(before: Objects, now: Objects, opts: Opts, log: seq<Entry>, res: CleanupResult, reliable: bool,
                      key: string, x: string)
    requires Consistent(before) && Progress(GroundOf(before, opts), now, log, res, reliable)
    requires "handles/" <= key && key in before && !Classify(before, key, opts).Match?
    requires x in before
    requires x == key || (before[key].HandleFile? && before[key].userId != "" && UnderUser(before[key].userId, x))
    ensures x in now && now[x] == before[x]
  {
    GroundIsGrounded(before, opts);
    ProgressLog(GroundOf(before, opts), opts, now, log, res, reliable);
    forall i | 0 <= i < |log| ensures !Covers(log[i], x) {
      assert EntryOk(before, opts, log[i]);
      KeptNotCovered(before, opts, log[i], key, x);
    }
  }

  lemma SameRoot(root: string, a: string, b: string, x: string)
    requires SlashFree(a) && SlashFree(b) && root + (a + "/") <= x && root + (b + "/") <= x
    ensures a == b
  {
    var rest := x[|root|..];
    assert a + "/" <= rest && b + "/" <= rest;
    if |a| <= |b| {
      assert a + "/" <= b + "/" + "";
      SegmentUnique(a, b, "");
    } else {
      assert b + "/" <= a + "/" + "";
      SegmentUnique(b, a, "");
    }
  }

  /** A user's prefix is under no other user. */
  lemma UsersDisjoint(a: string, b: string, x: string)
    requires SlashFree(a) && SlashFree(b) && UnderUser(a, x) && UnderUser(b, x)
    ensures a == b
  {
    var i :| 0 <= i < 4 && UserPrefixes(a)[i] <= x;
    var j :| 0 <= j < 4 && UserPrefixes(b)[j] <= x;
    assert UserPrefixes(a)[i][0] == x[0] == UserPrefixes(b)[j][0];
    assert i == j;
    SameRoot(["users/", "inbox/", "keys/", "media/"][i], a, b, x);
  }

  lemma UsersApart(a: string, b: string, x: string)
    requires SlashFree(a) && SlashFree(b)
    ensures UnderUser(a, x) && UnderUser(b, x) ==> a == b
  {
    if UnderUser(a, x) && UnderUser(b, x) { UsersDisjoint(a, b, x); }
  }

  lemma KeptNotCovered(before: Objects, opts: Opts, e: Entry, key: string, x: string)
    requires Consistent(before) && EntryOk(before, opts, e)
    requires "handles/" <= key && key in before && !Classify(before, key, opts).Match?
    requires x == key || (before[key].HandleFile? && before[key].userId != "" && UnderUser(before[key].userId, x))
    ensures !Covers(e, x)
  {
    if x == key {
      if e.key != key { CoversNoOtherHandle(e, key); }
    } else {
      var uid := before[key].userId;
      if "handles/" <= x { HandleNotUnderUser(uid, x); }
      if e.Hit? && e.profile.Some? {
        ProfileOfHit(before, opts, e);
        assert Agrees(before, key) && Agrees(before, e.key);
        assert e.key != key && e.profile.value.userId != uid;
        UsersApart(uid, e.profile.value.userId, x);
      }
    }
  }

  lemma ClearedPrefixes(now: Objects, e: Entry)
    requires Cleared(now, e) && e.Hit? && e.profile.Some?
    ensures forall x :: x in now ==> !OfUser(e.profile.value.userId, x)
  {
    forall x | x in now ensures !OfUser(e.profile.value.userId, x) {
      assert !Covers(e, x);
      UnderUserIs(e.profile.value.userId, x);
    }
  }

  lemma HitHasProfile(before: Objects, opts: Opts, e: Entry)
    requires EntryOk(before, opts, e) && e.Hit?
    ensures e.policy == Tombstone <==> e.profile.None?
  {
  }

  /** A deletion that completed leaves nothing under the user's four prefixes, and no handle. */
  lemma CompletedWipeIsEmpty(before: Objects, now: Objects, opts: Opts, log: seq<Entry>, res: CleanupResult,
                             reliable: bool, n: nat)
    requires Consistent(before) && Progress(GroundOf(before, opts), now, log, res, reliable) && !opts.dryRun
    requires n < |log| && log[n].Hit? && log[n].done
    ensures log[n].key !in now
    ensures log[n].policy != Tombstone ==>
              log[n].profile.Some? && forall x :: x in now ==> !OfUser(log[n].profile.value.userId, x)
  {
    var e := log[n];
    assert Cleared(now, e);
    assert Covers(e, e.key);
    EntryOfLog(before, now, opts, log, res, reliable, n);
    HitHasProfile(before, opts, e);
    if e.policy != Tombstone { ClearedPrefixes(now, e); }
  }

  lemma EntryOfLog(before: Objects, now: Objects, opts: Opts, log: seq<Entry>, res: CleanupResult, reliable: bool,
                   n: nat)
    requires Consistent(before) && Progress(GroundOf(before, opts), now, log, res, reliable) && n < |log|
    ensures EntryOk(before, opts, log[n])
  {
    GroundIsGrounded(before, opts);
    ProgressLog(GroundOf(before, opts), opts, now, log, res, reliable);
  }

  /** An account active within the threshold, or never, that has a name or a message or is under a
      week old. */
  ghost predicate InUse(objects: Objects, key: string, uid: string, opts: Opts)
  {
    exists p :: Owns(objects, key, uid, p) && !IsInactive(p, opts) && !IsAbandoned(objects, uid, p, opts.now)
  }

  /** Whatever fails and whoever else is wiped, no object of an account in use is touched. */
  lemma InUseUntouched(before: Objects, now: Objects, opts: Opts, log: seq<Entry>, res: CleanupResult, reliable: bool,
                       key: string, uid: string, x: string)
    requires Consistent(before) && Progress(GroundOf(before, opts), now, log, res, reliable)
    requires "handles/" <= key && InUse(before, key, uid, opts)
    requires x in before && (x == key || OfUser(uid, x))
    ensures x in now && now[x] == before[x]
  {
    ClassifyIsRight(before, key, opts);
    UnderUserIs(uid, x);
    KeptUntouched(before, now, opts, log, res, reliable, key, x);
  }

  ghost predicate SparesInUse(before: Objects, now: Objects, opts: Opts)
  {
    forall key, uid, x :: "handles/" <= key && InUse(before, key, uid, opts) && (x == key || OfUser(uid, x)) ==>
      x in before ==> x in now && now[x] == before[x]
  }

  lemma AllInUseUntouched(before: Objects, now: Objects, opts: Opts, log: seq<Entry>, res: CleanupResult,
                          reliable: bool)
    requires Consistent(before) && Progress(GroundOf(before, opts), now, log, res, reliable)
    ensures SparesInUse(before, now, opts)
  {
    forall key, uid, x |
      "handles/" <= key && InUse(before, key, uid, opts) && (x == key || OfUser(uid, x)) && x in before
      ensures x in now && now[x] == before[x]
    {
      InUseUntouched(before, now, opts, log, res, reliable, key, uid, x);
    }
  }

  /** Nor is a handle whose release is not yet thirty days old. */
  lemma CoolingUntouched(before: Objects, now: Objects, opts: Opts, log: seq<Entry>, res: CleanupResult,
                         reliable: bool, key: string)
    requires Consistent(before) && Progress(GroundOf(before, opts), now, log, res, reliable)
    requires "handles/" <= key && key in before && before[key].HandleFile? && before[key].userId == ""
    requires !IsExpired(before, key, opts.now)
    ensures key in now && now[key] == before[key]
  {
    ClassifyIsRight(before, key, opts);
    KeptUntouched(before, now, opts, log, res, reliable, key, key);
  }

  /** A whole pass with no failure leaves nothing of an abandoned or inactive account, and no
      expired handle. */
  lemma ExpiredGone(before: Objects, now: Objects, opts: Opts, log: seq<Entry>, res: CleanupResult, key: string)
    requires Consistent(before) && Progress(GroundOf(before, opts), now, log, res, true) && !opts.dryRun
    requires |log| == |Handles(before)| && "handles/" <= key && key in before
    ensures IsExpired(before, key, opts.now) ==> key !in now
    ensures forall uid, p ::
              Owns(before, key, uid, p) && (IsAbandoned(before, uid, p, opts.now) || IsInactive(p, opts)) ==>
                key !in now && forall x :: x in now ==> !OfUser(uid, x)
  {
    ClassifyIsRight(before, key, opts);
    SweepCounts(before, now, opts, log, res, true);
    var i :| 0 <= i < |log| && log[i].key == key;
    assert EntryAgrees(log[i], key, Classify(before, key, opts), true);
    if log[i].Hit? {
      CompletedWipeIsEmpty(before, now, opts, log, res, true, i);
      if log[i].profile.Some? {
        EntryOfLog(before, now, opts, log, res, true, i);
        ProfileOfHit(before, opts, log[i]);
      }
    }
  }

  /** A dry run changes nothing. */
  lemma DryRunChangesNothing(before: Objects, now: Objects, opts: Opts, log: seq<Entry>, res: CleanupResult,
                             reliable: bool)
    requires Progress(GroundOf(before, opts), now, log, res, reliable) && opts.dryRun
    ensures now == before
  {
    assert now.Keys == before.Keys;
  }

  lemma {:induction false} PlanFollowed(handles: seq<string>, verdicts: seq<Verdict>, budget: nat, log: seq<Entry>)
    requires |log| <= |handles| == |verdicts|
    requires forall i :: 0 <= i < |log| ==> log[i] == EntryFor(handles[i], verdicts[i])
    requires CountDone(log) <= budget && (log != [] ==> CountDone(log[..|log| - 1]) < budget)
    requires |log| == |handles| || CountDone(log) == budget
    ensures log == Plan(handles, verdicts, budget)
    decreases handles
  {
    if log != [] {
      var e := log[0];
      CountDoneHead(log);
      var rest := log[1..];
      if rest != [] {
        CountDoneHead(log[..|log| - 1]);
        assert log[..|log| - 1][1..] == rest[..|rest| - 1];
      } else {
        assert log[..0] == [];
      }
      PlanFollowed(handles[1..], verdicts[1..], if e.Hit? then budget - 1 else budget, rest);
      assert log == [e] + rest;
    }
  }

  lemma {:induction false} CountDoneHead(log: seq<Entry>)
    requires log != []
    ensures CountDone(log) == (if log[0].Hit? && log[0].done then 1 else 0) + CountDone(log[1..])
  {
    if |log| > 1 {
      CountDoneHead(log[..|log| - 1]);
      assert log[..|log| - 1][1..] == log[1..][..|log| - 2];
    }
  }

  /** With no failure, the sweep is classify-then-wipe: every handle is judged against the store
      as it was at the start, in order, until the batch is spent, and what is left is the start
      without exactly what the matches cover. */
  lemma SweepRefinesClassifyThenWipe(before: Objects, now: Objects, opts: Opts, log: seq<Entry>, res: CleanupResult)
    requires Progress(GroundOf(before, opts), now, log, res, true)
    requires |log| == |Handles(before)| || res.deleted == opts.batchSize
    ensures var g := GroundOf(before, opts);
            && log == Plan(g.handles, g.verdicts, opts.batchSize)
            && now == Wiped(before, log, opts.dryRun)
  {
    var g := GroundOf(before, opts);
    forall i | 0 <= i < |log| ensures log[i] == EntryFor(g.handles[i], g.verdicts[i]) {
      assert EntryAgrees(log[i], g.handles[i], g.verdicts[i], true);
    }
    PlanFollowed(g.handles, g.verdicts, opts.batchSize, log);
    WipedExactly(before, now, log, opts.dryRun);
  }
}
