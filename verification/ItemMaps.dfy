/** The replicated map: items stored under the hexadecimal text of their key's digest. */
module ItemMaps {
  import opened Common
  import opened ItemCodec
  import Hex

  /** The sixteen bytes of an MD5 sum. */
  type Digest = d: seq<byte> | |d| == 16 witness seq(16, i => 0)

  /** md5.Sum: any function to digests. Freedom from collisions is a hypothesis where it is needed. */
  type Hash = seq<byte> -> Digest

  function Index(md5: Hash, key: seq<byte>): (text: string) {
    Hex.Encode(md5(key))
  }

  function Stored(md5: Hash, m: map<string, Item>, item: Item): (m': map<string, Item>) {
    m[Index(md5, Bytes(item.key)) := item]
  }

  function Lookup(md5: Hash, m: map<string, Item>, key: seq<byte>): (item: Option<Item>) {
    var k := Index(md5, key);
    if k in m then Some(m[k]) else None
  }

  function PutAll(md5: Hash, items: seq<Item>): (m: map<string, Item>) {
    if items == [] then map[]
    else Stored(md5, PutAll(md5, items[..|items| - 1]), items[|items| - 1])
  }

  lemma PutAllOneMore(md5: Hash, items: seq<Item>, item: Item)
    ensures PutAll(md5, items + [item]) == Stored(md5, PutAll(md5, items), item)
  {
    assert (items + [item])[..|items + [item]| - 1] == items;
  }

  /** The type ItemMap of raft/item.go. */
  class ItemMap {
    const md5: Hash
    var entries: map<string, Item>

    constructor (md5: Hash)
      ensures this.md5 == md5 && entries == map[]
    {
      this.md5 := md5;
      entries := map[];
    }

    method Put(item: Item)
      modifies this
      ensures entries == Stored(md5, old(entries), item)
      ensures Lookup(md5, entries, Bytes(item.key)) == Some(item)
    {
      var sum := md5(Bytes(item.key));
      var k := Hex.Encode(sum);
      entries := entries[k := item];
    }

    method Get(key: seq<byte>) returns (item: Item, found: bool)
      ensures found <==> Lookup(md5, entries, key).Some?
      ensures item == if found then Lookup(md5, entries, key).value else FRESH
    {
      var sum := md5(key);
      var k := Hex.Encode(sum);
      found := k in entries;
      item := if found then entries[k] else FRESH;
    }
  }

  /** The last item of a sequence whose key has the digest of the given key. */
  function LastWithDigest(md5: Hash, items: seq<Item>, key: seq<byte>): (item: Option<Item>) {
    if items == [] then None
    else
      var last := items[|items| - 1];
      if md5(Bytes(last.key)) == md5(key) then Some(last) else LastWithDigest(md5, items[..|items| - 1], key)
  }

  lemma IndexInjective(md5: Hash, a: seq<byte>, b: seq<byte>)
    ensures Index(md5, a) == Index(md5, b) <==> md5(a) == md5(b)
  {
    Hex.EncodeInjective(md5(a), md5(b));
  }

  /** After any sequence of Puts, Get answers with the last item put under a key of the same digest. */
  lemma {:induction false} GetIsLastPut(md5: Hash, items: seq<Item>, key: seq<byte>)
    ensures Lookup(md5, PutAll(md5, items), key) == LastWithDigest(md5, items, key)
  {
    if items != [] {
      var init, last := items[..|items| - 1], items[|items| - 1];
      GetIsLastPut(md5, init, key);
      IndexInjective(md5, Bytes(last.key), key);
    }
  }

  /** The map users have in mind: key bytes to the item last written under them. */
  function PlainMap(items: seq<Item>): (m: map<seq<byte>, Item>) {
    if items == [] then map[]
    else
      var last := items[|items| - 1];
      PlainMap(items[..|items| - 1])[Bytes(last.key) := last]
  }

  ghost predicate InjectiveOn(md5: Hash, keys: set<seq<byte>>) {
    forall a, b | a in keys && b in keys && md5(a) == md5(b) :: a == b
  }

  /** Get agrees with the plain map on a key. */
  ghost predicate Agrees(md5: Hash, items: seq<Item>, key: seq<byte>) {
    Lookup(md5, PutAll(md5, items), key)
    == if key in PlainMap(items) then Some(PlainMap(items)[key]) else None
  }

  lemma {:induction false} PlainMapKeys(items: seq<Item>, key: seq<byte>)
    requires key in PlainMap(items)
    ensures Bytes(PlainMap(items)[key].key) == key
  {
    if Bytes(items[|items| - 1].key) != key {
      PlainMapKeys(items[..|items| - 1], key);
    }
  }

  lemma {:induction false} AgreesWithoutCollision(md5: Hash, items: seq<Item>, key: seq<byte>)
    requires forall k | k in PlainMap(items).Keys && md5(k) == md5(key) :: k == key
    ensures Agrees(md5, items, key)
  {
    if items != [] {
      var init, last := items[..|items| - 1], items[|items| - 1];
      assert Bytes(last.key) in PlainMap(items);
      assert forall k :: k in PlainMap(init) ==> k in PlainMap(items);
      AgreesWithoutCollision(md5, init, key);
      IndexInjective(md5, Bytes(last.key), key);
    }
  }

  /**
   * The hashed map is the plain last-write-wins map on the keys used exactly when no two of them collide:
   * two colliding keys share one slot, which can hold the item of only one of them.
   */
  lemma RefinesPlainMap(md5: Hash, items: seq<Item>)
    ensures (forall key | key in PlainMap(items) :: Agrees(md5, items, key))
       <==> InjectiveOn(md5, PlainMap(items).Keys)
  {
    if InjectiveOn(md5, PlainMap(items).Keys) {
      forall key | key in PlainMap(items) ensures Agrees(md5, items, key) {
        AgreesWithoutCollision(md5, items, key);
      }
    }
    if forall key | key in PlainMap(items) :: Agrees(md5, items, key) {
      forall a, b | a in PlainMap(items).Keys && b in PlainMap(items).Keys && md5(a) == md5(b) ensures a == b {
        assert Agrees(md5, items, a) && Agrees(md5, items, b);
        PlainMapKeys(items, a);
        PlainMapKeys(items, b);
      }
    }
  }

  /** Without collisions the stored map has no other slots: it is the image of the plain map. */
  lemma {:induction false} StoredMapIsImage(md5: Hash, items: seq<Item>)
    requires InjectiveOn(md5, PlainMap(items).Keys)
    ensures PutAll(md5, items).Keys == set key | key in PlainMap(items) :: Index(md5, key)
    ensures forall key | key in PlainMap(items) ::
      Index(md5, key) in PutAll(md5, items) && PutAll(md5, items)[Index(md5, key)] == PlainMap(items)[key]
  {
    StoredKeys(md5, items);
    RefinesPlainMap(md5, items);
    forall key | key in PlainMap(items)
      ensures Index(md5, key) in PutAll(md5, items) && PutAll(md5, items)[Index(md5, key)] == PlainMap(items)[key]
    {
      assert Agrees(md5, items, key);
    }
  }

  lemma {:induction false} StoredKeys(md5: Hash, items: seq<Item>)
    ensures PutAll(md5, items).Keys == set key | key in PlainMap(items) :: Index(md5, key)
  {
    if items != [] {
      var init, last := items[..|items| - 1], items[|items| - 1];
      StoredKeys(md5, init);
      assert PlainMap(items).Keys == PlainMap(init).Keys + {Bytes(last.key)};
    }
  }
}
