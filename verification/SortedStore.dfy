/** The object store: a sorted map from keys to values with cursor paging. */
module SortedStore {
  import opened Wrappers
  import opened Lex

  datatype Page = Page(keys: seq<string>, next: Option<string>)

  predicate Matches(k: string, prefix: string, cursor: Option<string>)
  {
    prefix <= k && (cursor.None? || Less(cursor.value, k))
  }

  /** All keys a listing may return, in order. */
  ghost function Matching(keys: set<string>, prefix: string, cursor: Option<string>): (r: seq<string>)
  {
    Sorted(set k | k in keys && Matches(k, prefix, cursor))
  }

  lemma MatchingFacts(keys: set<string>, prefix: string, cursor: Option<string>)
    ensures Ascending(Matching(keys, prefix, cursor))
    ensures forall k :: k in Matching(keys, prefix, cursor) <==> k in keys && Matches(k, prefix, cursor)
  {
    SortedFacts(set k | k in keys && Matches(k, prefix, cursor));
  }

  /** One page: the first `limit` matches, and a cursor at its last key when more remain. */
  ghost function PageOf(keys: set<string>, prefix: string, limit: nat, cursor: Option<string>): Page
  {
    var all := Matching(keys, prefix, cursor);
    if |all| > limit
    then Page(all[..limit], if limit == 0 then None else Some(all[limit - 1]))
    else Page(all, None)
  }

  /** A page is ascending, holds keys of the store under the prefix and above the cursor, and
      misses none below its end; it is full exactly when it has a cursor, its last key. */
  lemma PageFacts(keys: set<string>, prefix: string, limit: nat, cursor: Option<string>)
    requires limit > 0
    ensures var page := PageOf(keys, prefix, limit, cursor);
            && Ascending(page.keys) && |page.keys| <= limit
            && (forall k :: k in page.keys ==>
                  k in keys && prefix <= k && (cursor.Some? ==> Less(cursor.value, k)))
            && (page.next.Some? ==> |page.keys| == limit && page.next.value == page.keys[limit - 1])
            && (forall k :: k in keys && prefix <= k && (cursor.Some? ==> Less(cursor.value, k)) ==>
                  k in page.keys || (page.next.Some? && Less(page.next.value, k)))
            && (page.next.Some? ==> exists k :: k in keys && prefix <= k && Less(page.next.value, k))
  {
    var all := Matching(keys, prefix, cursor);
    var page := PageOf(keys, prefix, limit, cursor);
    MatchingFacts(keys, prefix, cursor);
    forall k | k in page.keys ensures k in all {
      var i :| 0 <= i < |page.keys| && page.keys[i] == k;
      assert all[i] == k;
    }
    if |all| > limit {
      forall k | k in all && k !in page.keys ensures Less(all[limit - 1], k) {
        assert all == all[..limit] + all[limit..];
        var i :| 0 <= i < |all| - limit && all[limit..][i] == k;
        assert all[limit + i] == k;
      }
      assert all[limit] in all && Less(all[limit - 1], all[limit]);
    }
  }

  lemma {:induction false} CountBelow(all: seq<string>, i: nat)
    requires Ascending(all) && i <= |all|
    ensures |set k | k in all[..i]| == i
    decreases i
  {
    var below := all[..i];
    if i == 0 {
      assert (set k | k in below) == {};
    } else {
      CountBelow(all, i - 1);
      var before := all[..i - 1];
      assert below == before + [all[i - 1]];
      if all[i - 1] in before { LessIrreflexive(all[i - 1]); }
      assert (set k | k in below) == (set k | k in before) + {all[i - 1]};
    }
  }

  lemma BelowElement(keys: set<string>, all: seq<string>, i: nat)
    requires Ascending(all) && i < |all| && forall k :: k in all <==> k in keys
    ensures |set k | k in keys && Less(k, all[i])| == i
  {
    var before := all[..i];
    forall k ensures k in before <==> k in keys && Less(k, all[i]) {
      if k in keys && Less(k, all[i]) {
        var j :| 0 <= j < |all| && all[j] == k;
        if j >= i { LessIrreflexive(k); if j > i { LessAsymmetric(k, all[i]); } }
        assert before[j] == k;
      }
    }
    assert (set k | k in keys && Less(k, all[i])) == (set k | k in before);
    CountBelow(all, i);
  }

  /** The first page of all keys has those with fewer than `limit` keys below them. */
  lemma FirstPageHas(keys: set<string>, limit: nat, k: string)
    ensures k in PageOf(keys, "", limit, None).keys <==> k in keys && |set l | l in keys && Less(l, k)| < limit
  {
    var all := Matching(keys, "", None);
    MatchingFacts(keys, "", None);
    var page := PageOf(keys, "", limit, None).keys;
    assert page == if |all| > limit then all[..limit] else all;
    assert forall l :: l in page ==> l in all;
    if k in keys {
      assert k in all;
      var i :| 0 <= i < |all| && all[i] == k;
      BelowElement(keys, all, i);
      if i < |page| { assert page[i] == k; }
      forall j | 0 <= j < |page| && page[j] == k ensures j == i { LessIrreflexive(k); }
    }
  }

  /** In an ascending sequence the elements after position `n` are those above element `n`. */
  lemma AboveElement(all: seq<string>, n: nat, k: string)
    requires Ascending(all) && n < |all| && k in all
    ensures k in all[n + 1..] <==> Less(all[n], k)
  {
    var i :| 0 <= i < |all| && all[i] == k;
    if i > n {
      assert all[n + 1..][i - n - 1] == k;
    } else {
      if i == n { LessIrreflexive(k); } else { LessAsymmetric(k, all[n]); }
      assert forall j :: n < j < |all| ==> Less(all[i], all[j]);
      LessIrreflexive(k);
    }
  }

  /** The matches past position `limit - 1` are those above the key there. */
  lemma MatchesAbove(keys: set<string>, prefix: string, limit: nat, cursor: Option<string>, k: string)
    requires 0 < limit < |Matching(keys, prefix, cursor)|
    ensures var all := Matching(keys, prefix, cursor);
            k in all[limit..] <==> k in keys && Matches(k, prefix, Some(all[limit - 1]))
  {
    var all := Matching(keys, prefix, cursor);
    MatchingFacts(keys, prefix, cursor);
    var last := all[limit - 1];
    assert last in all;
    if k in all {
      AboveElement(all, limit - 1, k);
    } else if cursor.Some? && k in keys && Matches(k, prefix, Some(last)) {
      LessTransitive(cursor.value, last, k);
    }
  }

  lemma AscendingTail(all: seq<string>, n: nat)
    requires Ascending(all) && n <= |all|
    ensures Ascending(all[n..])
  {
    assert forall i :: 0 <= i < |all| - n ==> all[n..][i] == all[n + i];
  }

  lemma RestAbove(keys: set<string>, prefix: string, limit: nat, cursor: Option<string>)
    requires 0 < limit < |Matching(keys, prefix, cursor)|
    ensures var all := Matching(keys, prefix, cursor);
            all[limit..] == Matching(keys, prefix, Some(all[limit - 1]))
  {
    var all := Matching(keys, prefix, cursor);
    var next := Some(all[limit - 1]);
    MatchingFacts(keys, prefix, cursor);
    MatchingFacts(keys, prefix, next);
    AscendingTail(all, limit);
    forall k ensures k in all[limit..] <==> k in Matching(keys, prefix, next) {
      MatchesAbove(keys, prefix, limit, cursor, k);
    }
    AscendingUnique(all[limit..], Matching(keys, prefix, next));
  }

  /** Following a page's cursor yields exactly the matches the page left out. */
  lemma PageResumes(keys: set<string>, prefix: string, limit: nat, cursor: Option<string>)
    requires PageOf(keys, prefix, limit, cursor).next.Some?
    ensures var page := PageOf(keys, prefix, limit, cursor);
            Matching(keys, prefix, cursor) == page.keys + Matching(keys, prefix, page.next)
            && 0 < |page.keys| && page.next == Some(page.keys[|page.keys| - 1])
            && page.next.value in keys
  {
    var all := Matching(keys, prefix, cursor);
    RestAbove(keys, prefix, limit, cursor);
    MatchingFacts(keys, prefix, cursor);
    assert all[limit - 1] in all;
    assert all == all[..limit] + all[limit..];
  }

  lemma RemoveAt(order: seq<string>, i: nat)
    requires Ascending(order) && i < |order|
    ensures var r := order[..i] + order[i + 1..];
            Ascending(r) && forall k :: k in r <==> k in order && k != order[i]
  {
    var r := order[..i] + order[i + 1..];
    assert forall j :: 0 <= j < |r| ==> r[j] == if j < i then order[j] else order[j + 1];
    LessIrreflexive(order[i]);
    forall k | k in order && k != order[i] ensures k in r {
      var j :| 0 <= j < |order| && order[j] == k;
      assert r[if j < i then j else j - 1] == k;
    }
  }

  /** The in-memory store: keys kept in order beside their values. */
  class MemStore<V> {
    var order: seq<string>
    var objects: map<string, V>

    ghost predicate Valid()
      reads this
    {
      Ascending(order) && forall k :: k in order <==> k in objects
    }

    constructor ()
      ensures Valid() && objects == map[]
    {
      order := [];
      objects := map[];
    }

    method GetObject(key: string) returns (r: Option<V>)
      ensures r == if key in objects then Some(objects[key]) else None
    {
      r := if key in objects then Some(objects[key]) else None;
    }

    method PutObject(key: string, data: V)
      requires Valid()
      modifies this
      ensures Valid()
      ensures objects == old(objects)[key := data]
    {
      var i := 0;
      while i < |order| && Less(order[i], key)
        invariant i <= |order|
        invariant forall j :: 0 <= j < i ==> Less(order[j], key)
      {
        i := i + 1;
      }
      if i == |order| || order[i] != key {
        ghost var was := order;
        if i < |order| {
          LessTotal(order[i], key);
          forall j | i <= j < |order| ensures Less(key, order[j]) {
            if i < j { LessTransitive(key, order[i], order[j]); }
          }
        }
        order := order[..i] + [key] + order[i..];
        assert was == was[..i] + was[i..];
        forall k ensures k in order <==> k in was || k == key {
          if k in was { assert k in was[..i] || k in was[i..]; }
          if k == key { assert order[i] == key; }
        }
      }
      objects := objects[key := data];
    }

    method DeleteObject(key: string)
      requires Valid()
      modifies this
      ensures Valid()
      ensures objects == old(objects) - {key}
    {
      if key in objects {
        var i := 0;
        while i < |order| && order[i] != key
          invariant i <= |order| && order == old(order)
          invariant key !in order[..i]
        {
          i := i + 1;
        }
        assert order[..|order|] == order;
        assert i < |order|;
        RemoveAt(order, i);
        order := order[..i] + order[i + 1..];
        objects := objects - {key};
      }
    }

    method DeleteObjects(keys: seq<string>)
      requires Valid()
      modifies this
      ensures Valid()
      ensures objects == old(objects) - (set k | k in keys)
    {
      var i := 0;
      while i < |keys|
        invariant i <= |keys|
        invariant Valid()
        invariant objects == old(objects) - (set k | k in keys[..i])
      {
        DeleteObject(keys[i]);
        assert keys[..i + 1] == keys[..i] + [keys[i]];
        i := i + 1;
      }
      assert keys[..i] == keys;
    }

    method ListObjects(prefix: string, limit: nat, cursor: Option<string>) returns (page: Page)
      requires Valid()
      ensures page == PageOf(objects.Keys, prefix, limit, cursor)
      ensures forall k :: k in page.keys ==> k in objects
    {
      var keys: seq<string> := [];
      var i := 0;
      while i < |order|
        invariant i <= |order|
        invariant Ascending(keys)
        invariant forall j :: 0 <= j < |keys| ==> keys[j] in order[..i]
        invariant forall k :: k in keys <==> k in order[..i] && Matches(k, prefix, cursor)
      {
        assert order[..i + 1] == order[..i] + [order[i]];
        if Matches(order[i], prefix, cursor) {
          keys := keys + [order[i]];
        }
        i := i + 1;
      }
      assert order[..i] == order;
      MatchingFacts(objects.Keys, prefix, cursor);
      AscendingUnique(keys, Matching(objects.Keys, prefix, cursor));
      if |keys| > limit {
        keys := keys[..limit];
        page := Page(keys, if |keys| == 0 then None else Some(keys[|keys| - 1]));
      } else {
        page := Page(keys, None);
      }
    }
  }
}
