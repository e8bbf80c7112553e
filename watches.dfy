/**
 * The watch list: an ordered, duplicate-free list of keys, the operations
 * that add and remove a key given in wire form, its serialisation, and its
 * persistence in a string store (the browser's `localStorage`).
 */
module Watches {
  import opened Wrappers
  import opened KvKeys
  import opened WatchBody

  /** The name of the stored item that holds the watch list. */
  const WatchesKey: string := "kview__panel_watches"

  /** A string store: item names to item texts. */
  type Store = map<string, string>

  /** No two elements of the list are equal keys. */
  predicate NoDuplicates(ws: seq<Key>)
  {
    forall i, j :: 0 <= i < j < |ws| ==> ws[i] != ws[j]
  }

  /** `r` is `s` with some elements left out, the rest in their order. */
  predicate IsSubsequence(r: seq<Key>, s: seq<Key>)
    decreases |s|
  {
    r == [] || (s != [] && ((r[0] == s[0] && IsSubsequence(r[1..], s[1..])) || IsSubsequence(r, s[1..])))
  }

  /** `watches.some(k => equals(kvKey, k))`. */
  function SomeEquals(ws: seq<Key>, key: Key): (r: bool)
    ensures r <==> key in ws
  {
    if ws == [] then false
    else
      assert ws == [ws[0]] + ws[1..];
      KeyEquals(key, ws[0]) || SomeEquals(ws[1..], key)
  }

  /** `watches.filter(k => !equals(kvKey, k))`. */
  function Without(ws: seq<Key>, key: Key): (r: seq<Key>)
    ensures forall x :: x in r <==> x in ws && x != key
  {
    if ws == [] then []
    else
      assert ws == [ws[0]] + ws[1..];
      if KeyEquals(key, ws[0]) then Without(ws[1..], key)
      else [ws[0]] + Without(ws[1..], key)
  }

  /** `addWatch`: decodes the key (which may throw) and appends it to a copy
      of the list unless an equal key is already there. */
  function AddWatch(c: Codec, key: WireKey, watches: seq<Key>): (r: Option<seq<Key>>)
    ensures r.None? <==> c.toKey(key).None?
    ensures r.Some? ==> c.toKey(key).value in r.value
    ensures r.Some? && c.toKey(key).value in watches ==> r.value == watches
    ensures r.Some? && c.toKey(key).value !in watches ==> r.value == watches + [c.toKey(key).value]
  {
    match c.toKey(key)
    case None => None
    case Some(kvKey) =>
      if SomeEquals(watches, kvKey) then Some(watches) else Some(watches + [kvKey])
  }

  /** `deleteWatch`: decodes the key (which may throw) and keeps every element
      not equal to it. */
  function DeleteWatch(c: Codec, key: WireKey, watches: seq<Key>): (r: Option<seq<Key>>)
    ensures r.None? <==> c.toKey(key).None?
    ensures r.Some? ==> c.toKey(key).value !in r.value
    ensures r.Some? ==> forall x :: x in r.value <==> x in watches && x != c.toKey(key).value
    ensures r.Some? ==> IsSubsequence(r.value, watches)
    ensures r.Some? ==> multiset(r.value) == multiset(watches)[c.toKey(key).value := 0]
  {
    match c.toKey(key)
    case None => None
    case Some(kvKey) =>
      WithoutIsSubsequence(watches, kvKey);
      WithoutMultiset(watches, kvKey);
      Some(Without(watches, kvKey))
  }

  /** Filtering keeps the other elements in their original order. */
  lemma {:induction false} WithoutIsSubsequence(ws: seq<Key>, key: Key)
    ensures IsSubsequence(Without(ws, key), ws)
    decreases |ws|
  {
    if ws != [] {
      WithoutIsSubsequence(ws[1..], key);
      var rest := Without(ws[1..], key);
      if !KeyEquals(key, ws[0]) {
        assert ([ws[0]] + rest)[1..] == rest;
      }
    }
  }

  /** Filtering drops every copy of the key and keeps every copy of every
      other element. */
  lemma {:induction false} WithoutMultiset(ws: seq<Key>, key: Key)
    ensures multiset(Without(ws, key)) == multiset(ws)[key := 0]
    decreases |ws|
  {
    if ws != [] {
      WithoutMultiset(ws[1..], key);
      assert ws == [ws[0]] + ws[1..];
      assert multiset(ws) == multiset{ws[0]} + multiset(ws[1..]);
    }
  }

  /** A list without the key is returned unchanged. */
  lemma {:induction false} WithoutAbsent(ws: seq<Key>, key: Key)
    requires key !in ws
    ensures Without(ws, key) == ws
    decreases |ws|
  {
    if ws != [] {
      assert ws[0] != key;
      assert forall x :: x in ws[1..] ==> x in ws;
      WithoutAbsent(ws[1..], key);
      assert [ws[0]] + ws[1..] == ws;
    }
  }

  /** Filtering a duplicate-free list gives a duplicate-free list. */
  lemma {:induction false} WithoutNoDuplicates(ws: seq<Key>, key: Key)
    requires NoDuplicates(ws)
    ensures NoDuplicates(Without(ws, key))
    decreases |ws|
  {
    if ws != [] {
      assert NoDuplicates(ws[1..]) by {
        forall i, j | 0 <= i < j < |ws[1..]| ensures ws[1..][i] != ws[1..][j] {
          assert ws[1..][i] == ws[i + 1] && ws[1..][j] == ws[j + 1];
        }
      }
      WithoutNoDuplicates(ws[1..], key);
      var rest := Without(ws[1..], key);
      if !KeyEquals(key, ws[0]) {
        assert ws[0] !in ws[1..] by {
          forall j | 0 <= j < |ws[1..]| ensures ws[1..][j] != ws[0] {
            assert ws[1..][j] == ws[j + 1];
          }
        }
        assert ws[0] !in rest;
        var r := [ws[0]] + rest;
        forall i, j | 0 <= i < j < |r| ensures r[i] != r[j] {
          if i == 0 {
            assert r[j] == rest[j - 1];
          } else {
            assert r[i] == rest[i - 1] && r[j] == rest[j - 1];
          }
        }
      }
    }
  }

  /** `deleteWatch` of a key that is not in the list returns the list. */
  lemma DeleteWatchAbsent(c: Codec, key: WireKey, watches: seq<Key>)
    requires c.toKey(key).Some? && c.toKey(key).value !in watches
    ensures DeleteWatch(c, key, watches) == Some(watches)
  {
    WithoutAbsent(watches, c.toKey(key).value);
  }

  /** Deleting twice is deleting once. */
  lemma DeleteWatchIdempotent(c: Codec, key: WireKey, watches: seq<Key>)
    requires DeleteWatch(c, key, watches).Some?
    ensures DeleteWatch(c, key, DeleteWatch(c, key, watches).value) == DeleteWatch(c, key, watches)
  {
    DeleteWatchAbsent(c, key, DeleteWatch(c, key, watches).value);
  }

  /** `deleteWatch` keeps a duplicate-free list duplicate-free. */
  lemma DeleteWatchNoDuplicates(c: Codec, key: WireKey, watches: seq<Key>)
    requires DeleteWatch(c, key, watches).Some?
    ensures NoDuplicates(watches) ==> NoDuplicates(DeleteWatch(c, key, watches).value)
  {
    if NoDuplicates(watches) {
      WithoutNoDuplicates(watches, c.toKey(key).value);
    }
  }

  /** Adding twice is adding once. */
  lemma AddWatchIdempotent(c: Codec, key: WireKey, watches: seq<Key>)
    requires AddWatch(c, key, watches).Some?
    ensures AddWatch(c, key, AddWatch(c, key, watches).value) == AddWatch(c, key, watches)
  {
  }

  /** `addWatch` keeps a duplicate-free list duplicate-free. */
  lemma AddWatchNoDuplicates(c: Codec, key: WireKey, watches: seq<Key>)
    requires AddWatch(c, key, watches).Some?
    ensures NoDuplicates(watches) ==> NoDuplicates(AddWatch(c, key, watches).value)
  {
  }

  /** Adding two keys: both are present afterwards, without duplicates. */
  lemma AddTwoWatches(c: Codec, k1: WireKey, k2: WireKey, watches: seq<Key>)
    requires NoDuplicates(watches)
    requires AddWatch(c, k1, watches).Some? && AddWatch(c, k2, AddWatch(c, k1, watches).value).Some?
    ensures var r := AddWatch(c, k2, AddWatch(c, k1, watches).value).value;
            c.toKey(k1).value in r && c.toKey(k2).value in r && NoDuplicates(r)
  {
  }

  /** `serialize`: `watches.map(keyToJSON)`. */
  function Serialize(c: Codec, watches: seq<Key>): (r: seq<WireKey>)
    ensures |r| == |watches|
    ensures forall i :: 0 <= i < |watches| ==> r[i] == c.keyToJSON(watches[i])
  {
    if watches == [] then [] else [c.keyToJSON(watches[0])] + Serialize(c, watches[1..])
  }

  /** `wires.map(toKey)`: fails as a whole when one element fails. */
  function DecodeAll(c: Codec, wires: seq<WireKey>): (r: Option<seq<Key>>)
    ensures r.Some? <==> forall i :: 0 <= i < |wires| ==> c.toKey(wires[i]).Some?
    ensures r.Some? ==> |r.value| == |wires|
    ensures r.Some? ==> forall i :: 0 <= i < |wires| ==> c.toKey(wires[i]) == Some(r.value[i])
  {
    if wires == [] then Some([])
    else
      match c.toKey(wires[0])
      case None => None
      case Some(k) =>
        match DecodeAll(c, wires[1..])
        case None =>
          assert forall i :: 0 < i < |wires| ==> wires[i] == wires[1..][i - 1];
          None
        case Some(ks) =>
          assert forall i :: 0 < i < |wires| ==> wires[i] == wires[1..][i - 1];
          Some([k] + ks)
  }

  /** Under the codec round trip, decoding a serialised list gives it back. */
  lemma DecodeSerialized(c: Codec, watches: seq<Key>)
    requires RoundTrips(c)
    ensures DecodeAll(c, Serialize(c, watches)) == Some(watches)
  {
    var r := DecodeAll(c, Serialize(c, watches));
    assert r.Some?;
    assert r.value == watches;
  }

  /** `getWatches`: the stored list, or the empty list when the item is
      absent, empty, unparsable or holds a key that cannot be decoded. */
  function GetWatches(c: Codec, store: Store): (r: seq<Key>)
    ensures (&& WatchesKey in store
             && store[WatchesKey] != ""
             && c.parse(store[WatchesKey]).Some?
             && forall i :: 0 <= i < |c.parse(store[WatchesKey]).value| ==>
                              c.toKey(c.parse(store[WatchesKey]).value[i]).Some?) ==>
              && |r| == |c.parse(store[WatchesKey]).value|
              && forall i :: 0 <= i < |r| ==> c.toKey(c.parse(store[WatchesKey]).value[i]) == Some(r[i])
    ensures WatchesKey !in store || store[WatchesKey] == "" ==> r == []
    ensures WatchesKey in store && c.parse(store[WatchesKey]).None? ==> r == []
    ensures r != [] ==>
              && WatchesKey in store
              && c.parse(store[WatchesKey]).Some?
              && var wires := c.parse(store[WatchesKey]).value;
                 |wires| == |r| && forall i :: 0 <= i < |r| ==> c.toKey(wires[i]) == Some(r[i])
    ensures (&& WatchesKey in store
             && c.parse(store[WatchesKey]).Some?
             && exists i :: 0 <= i < |c.parse(store[WatchesKey]).value|
                              && c.toKey(c.parse(store[WatchesKey]).value[i]).None?) ==> r == []
  {
    if WatchesKey in store && store[WatchesKey] != "" then
      match c.parse(store[WatchesKey])
      case None => []
      case Some(wires) =>
        match DecodeAll(c, wires)
        case None => []
        case Some(keys) => keys
    else []
  }

  /** `setWatches`: stores the stringified serialised list under the item
      name; other items are left alone. */
  function SetWatches(c: Codec, store: Store, watches: seq<Key>): (r: Store)
    ensures r.Keys == store.Keys + {WatchesKey}
    ensures r[WatchesKey] == c.stringify(Serialize(c, watches))
    ensures forall name :: name in store && name != WatchesKey ==> r[name] == store[name]
  {
    store[WatchesKey := c.stringify(Serialize(c, watches))]
  }

  /** What is saved is what is loaded. */
  lemma PersistRoundTrip(c: Codec, store: Store, watches: seq<Key>)
    requires RoundTrips(c)
    ensures GetWatches(c, SetWatches(c, store, watches)) == watches
  {
  }

  /** Why a watch request was refused. */
  datatype WatchError = InvalidBody(error: ParseError) | UndecodableKey

  /** The answer to a watch request. */
  datatype Response = Ok | BadRequest(reason: WatchError)

  /** `PUT /api/watch`: parse the body, then replace the registry by the result
      of `addWatch`; a refused request leaves the registry as it was. */
  function PutWatch(c: Codec, body: Json, registry: seq<Key>): (r: (Response, seq<Key>))
    ensures r.0.Ok? <==> ValidBody(body) && c.toKey(ParseWatchBody(body).value).Some?
    ensures r.0.Ok? ==> AddWatch(c, ParseWatchBody(body).value, registry) == Some(r.1)
    ensures r.0.Ok? ==> c.toKey(ParseWatchBody(body).value).value in r.1
    ensures r.0.Ok? ==> forall k :: k in registry ==> k in r.1
    ensures r.0.BadRequest? ==> r.1 == registry
    ensures NoDuplicates(registry) ==> NoDuplicates(r.1)
  {
    match ParseWatchBody(body)
    case Failure(e) => (BadRequest(InvalidBody(e)), registry)
    case Success(key) =>
      match AddWatch(c, key, registry)
      case None => (BadRequest(UndecodableKey), registry)
      case Some(w) =>
        AddWatchNoDuplicates(c, key, registry);
        (Ok, w)
  }

  /** `DELETE /api/watch`: parse the body, then replace the registry by the
      result of `deleteWatch`; a refused request leaves it as it was. */
  function DeleteWatchRequest(c: Codec, body: Json, registry: seq<Key>): (r: (Response, seq<Key>))
    ensures r.0.Ok? <==> ValidBody(body) && c.toKey(ParseWatchBody(body).value).Some?
    ensures r.0.Ok? ==> DeleteWatch(c, ParseWatchBody(body).value, registry) == Some(r.1)
    ensures r.0.Ok? ==> c.toKey(ParseWatchBody(body).value).value !in r.1
    ensures r.0.Ok? ==> forall k :: k in registry && k != c.toKey(ParseWatchBody(body).value).value ==> k in r.1
    ensures r.0.BadRequest? ==> r.1 == registry
    ensures NoDuplicates(registry) ==> NoDuplicates(r.1)
  {
    match ParseWatchBody(body)
    case Failure(e) => (BadRequest(InvalidBody(e)), registry)
    case Success(key) =>
      match DeleteWatch(c, key, registry)
      case None => (BadRequest(UndecodableKey), registry)
      case Some(w) =>
        DeleteWatchNoDuplicates(c, key, registry);
        (Ok, w)
  }

  /** A PUT then a DELETE of the same key: after the PUT the listing holds the
      key's wire form, after the DELETE the key is gone. */
  lemma PutThenDelete(c: Codec, key: WireKey, registry: seq<Key>)
    requires c.toKey(key).Some?
    ensures var put := PutWatch(c, BodyToJson(key), registry);
            && put.0.Ok?
            && c.keyToJSON(c.toKey(key).value) in Serialize(c, put.1)
            && var del := DeleteWatchRequest(c, BodyToJson(key), put.1);
               del.0.Ok? && c.toKey(key).value !in del.1
  {
    BodyRoundTrip(key);
    var put := PutWatch(c, BodyToJson(key), registry);
    var k := c.toKey(key).value;
    var i :| 0 <= i < |put.1| && put.1[i] == k;
    assert Serialize(c, put.1)[i] == c.keyToJSON(k);
  }
}
