/** Archive entries and their deduplication by message id. */
module Cbor {
  import opened Wrappers

  datatype Value =
    | Text(s: string)
    | Number(n: int)
    | Array(items: seq<Value>)
    | Map(pairs: seq<(Value, Value)>)
    | Sealed(session: string, index: nat, recipient: nat)      // a session key sealed to a sharing key
    | Ciphertext(session: string, index: nat, intact: bool)    // a ratchet-encrypted payload

  /** The value under the first pair whose key is this text. */
  function Lookup(pairs: seq<(Value, Value)>, key: string): Option<Value>
  {
    if pairs == [] then None
    else if pairs[0].0 == Text(key) then Some(pairs[0].1)
    else Lookup(pairs[1..], key)
  }

  function Get(entry: Value, key: string): Option<Value>
  {
    if entry.Map? then Lookup(entry.pairs, key) else None
  }

  function GetText(entry: Value, key: string): Option<string>
  {
    match Get(entry, key)
    case Some(Text(s)) => Some(s)
    case _ => None
  }

  function MsgId(entry: Value): Option<string>
  {
    GetText(entry, "msg_id")
  }

  ghost predicate HasId(a: seq<Value>, id: string)
  {
    exists i :: 0 <= i < |a| && MsgId(a[i]) == Some(id)
  }

  function IdsOf(a: seq<Value>): set<string>
  {
    set e | e in a && MsgId(e).Some? :: MsgId(e).value
  }

  lemma IdsConcat(a: seq<Value>, b: seq<Value>)
    ensures IdsOf(a + b) == IdsOf(a) + IdsOf(b)
  {
    assert forall e :: e in a + b <==> e in a || e in b;
  }

  function IdSet(entry: Value): set<string>
  {
    if MsgId(entry).Some? then {MsgId(entry).value} else {}
  }

  lemma IdsOfNext(entries: seq<Value>, n: nat)
    requires n < |entries|
    ensures IdsOf(entries[..n + 1]) == IdsOf(entries[..n]) + IdSet(entries[n])
  {
    assert entries[..n + 1] == entries[..n] + [entries[n]];
    IdsConcat(entries[..n], [entries[n]]);
    assert forall e :: e in [entries[n]] <==> e == entries[n];
  }

  function DedupFrom(a: seq<Value>, seen: set<string>): seq<Value>
  {
    if a == [] then []
    else if MsgId(a[0]).None? then [a[0]] + DedupFrom(a[1..], seen)
    else if MsgId(a[0]).value in seen then DedupFrom(a[1..], seen)
    else [a[0]] + DedupFrom(a[1..], seen + {MsgId(a[0]).value})
  }

  function Dedup(a: seq<Value>): seq<Value>
  {
    DedupFrom(a, {})
  }

  /** The loop over a growing hash set and result vector. */
  method DeduplicateByMsgId(objects: seq<Value>) returns (result: seq<Value>)
    ensures result == Dedup(objects)
  {
    var seen: set<string> := {};
    result := [];
    var i := 0;
    while i < |objects|
      invariant i <= |objects|
      invariant Dedup(objects) == result + DedupFrom(objects[i..], seen)
    {
      var obj := objects[i];
      var id := MsgId(obj);
      assert objects[i..][0] == obj && objects[i..][1..] == objects[i + 1..];
      i := i + 1;
      if id.Some? {
        if id.value in seen {
          continue;
        }
        seen := seen + {id.value};
      }
      result := result + [obj];
    }
  }

  /** Reference: read in order, an entry stays when it has no id or no earlier entry has its id. */
  ghost function FirstOccurrences(a: seq<Value>): seq<Value>
  {
    if a == [] then []
    else
      var n := |a| - 1;
      var id := MsgId(a[n]);
      FirstOccurrences(a[..n]) + (if id.Some? && HasId(a[..n], id.value) then [] else [a[n]])
  }

  lemma {:induction false} DedupFromConcat(a: seq<Value>, b: seq<Value>, seen: set<string>)
    ensures DedupFrom(a + b, seen) == DedupFrom(a, seen) + DedupFrom(b, seen + IdsOf(a))
  {
    if a == [] {
      assert a + b == b && seen + IdsOf(a) == seen;
    } else {
      assert (a + b)[1..] == a[1..] + b;
      var id := MsgId(a[0]);
      var seen' := if id.Some? then seen + {id.value} else seen;
      assert IdsOf(a) == IdsOf(a[1..]) + (if id.Some? then {id.value} else {}) by {
        assert forall e :: e in a <==> e == a[0] || e in a[1..];
      }
      assert seen' + IdsOf(a[1..]) == seen + IdsOf(a);
      assert id.Some? && id.value in seen ==> seen' == seen;
      DedupFromConcat(a[1..], b, seen');
    }
  }

  lemma {:induction false} DedupFromIds(a: seq<Value>, seen: set<string>)
    ensures IdsOf(DedupFrom(a, seen)) == IdsOf(a) - seen
    ensures forall e :: e in DedupFrom(a, seen) ==> e in a
    ensures DedupFrom(DedupFrom(a, seen), seen) == DedupFrom(a, seen)
  {
    if a != [] {
      var id := MsgId(a[0]);
      var seen' := if id.Some? then seen + {id.value} else seen;
      assert id.Some? && id.value in seen ==> seen' == seen;
      DedupFromIds(a[1..], seen');
      var rest := DedupFrom(a[1..], seen');
      var all := DedupFrom(a, seen);
      assert forall e :: e in a <==> e == a[0] || e in a[1..];
      if id.None? || id.value !in seen {
        assert all == [a[0]] + rest && all[1..] == rest;
        assert forall e :: e in all <==> e == a[0] || e in rest;
        assert IdsOf(all) == IdsOf(rest) + (if id.Some? then {id.value} else {});
      }
    }
  }

  lemma DedupIds(a: seq<Value>)
    ensures IdsOf(Dedup(a)) == IdsOf(a)
    ensures forall e :: e in Dedup(a) ==> e in a
  {
    DedupFromIds(a, {});
  }

  lemma HasIdIffInIds(a: seq<Value>, id: string)
    ensures HasId(a, id) <==> id in IdsOf(a)
  {
    if HasId(a, id) {
      var i :| 0 <= i < |a| && MsgId(a[i]) == Some(id);
      assert a[i] in a;
    }
  }

  /** Deduplication keeps, in order, every id-less entry and each id's first occurrence. */
  lemma {:induction false} DedupIsFirstOccurrences(a: seq<Value>)
    ensures Dedup(a) == FirstOccurrences(a)
  {
    if a != [] {
      var n := |a| - 1;
      var id := MsgId(a[n]);
      DedupIsFirstOccurrences(a[..n]);
      assert a[..n] + [a[n]] == a;
      DedupFromConcat(a[..n], [a[n]], {});
      if id.Some? { HasIdIffInIds(a[..n], id.value); }
    }
  }

  /** Folding in two batches one after the other equals folding them at once. */
  lemma DedupIncremental(a: seq<Value>, b: seq<Value>)
    ensures Dedup(Dedup(a) + b) == Dedup(a + b)
  {
    var d := Dedup(a);
    DedupFromIds(a, {});
    var ids := IdsOf(a);
    assert {} + IdsOf(d) == ids && {} + ids == ids && ids - {} == ids;
    assert Dedup(d + b) == Dedup(d) + DedupFrom(b, ids) by { DedupFromConcat(d, b, {}); }
    assert Dedup(a + b) == Dedup(a) + DedupFrom(b, ids) by { DedupFromConcat(a, b, {}); }
  }
}
