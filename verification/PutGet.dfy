/** From PutItem on one node to Get on any node that applied the entry. */
module PutGet {
  import opened Common
  import opened RaftTypes
  import opened ItemCodec
  import ItemMaps
  import opened Driver
  import opened ItemRuns

  /** Whether an entry puts an item whose key has the digest of the given key. */
  ghost predicate Overwrites(s: Setup, e: Entry, key: seq<byte>) {
    ItemOf(s.decode, e) != [] && s.md5(Bytes(ItemOf(s.decode, e)[0].key)) == s.md5(key)
  }

  lemma {:induction false} LastPutStays(s: Setup, entries: seq<Entry>, p: nat, key: seq<byte>)
    requires p < |entries| && Overwrites(s, entries[p], key)
    requires forall q | p < q < |entries| :: !Overwrites(s, entries[q], key)
    ensures ItemMaps.LastWithDigest(s.md5, ItemsOf(s.decode, entries), key)
         == Some(ItemOf(s.decode, entries[p])[0])
  {
    var init, last := entries[..|entries| - 1], entries[|entries| - 1];
    var items := ItemsOf(s.decode, init);
    if ItemOf(s.decode, last) != [] {
      var item := ItemOf(s.decode, last)[0];
      assert ItemsOf(s.decode, entries) == items + [item];
      assert (items + [item])[..|items + [item]| - 1] == items;
    } else {
      assert ItemsOf(s.decode, entries) == items;
    }
    if p < |init| {
      LastPutStays(s, init, p, key);
    }
  }

  /**
   * A proposed item that was committed and processed is what Get finds, up to nil for empty, whatever other
   * entries and batch boundaries surround it, as long as no later entry puts an item of the same digest.
   */
  lemma PutThenGet(s: Setup, storage: Storage, cs: seq<Choice>, item: Item, p: nat)
    requires DecodesItems(s.decode)
    requires p < |Exec(s, Initial(s, storage), cs).done|
    requires var e := Exec(s, Initial(s, storage), cs).done[p]; e.kind.Normal? && e.data == Some(Marshal(item))
    requires forall q | p < q < |Exec(s, Initial(s, storage), cs).done| ::
      !Overwrites(s, Exec(s, Initial(s, storage), cs).done[q], Bytes(item.key))
    ensures var d := Exec(s, Initial(s, storage), cs);
      var found := ItemMaps.Lookup(s.md5, d.items, Bytes(item.key));
      && found == Some(Trimmed(item))
      && Bytes(found.value.key) == Bytes(item.key) && Bytes(found.value.value) == Bytes(item.value)
  {
    var d := Exec(s, Initial(s, storage), cs);
    RunsAreGood(s, storage, cs);
    RoundTrip(item);
    assert s.decode(Marshal(item)) == Some(Trimmed(item));
    LastPutStays(s, d.done, p, Bytes(item.key));
    ItemMaps.GetIsLastPut(s.md5, ItemsOf(s.decode, d.done), Bytes(item.key));
  }

  /** A text that Marshal wrote is never nil or empty: addEntry does not skip it as raft's own entry. */
  lemma ProposalIsNotSkipped(s: Setup, d: State, item: Item, e: Entry, o: EntryOutcome)
    requires DecodesItems(s.decode) && e.kind.Normal? && e.data == Some(Marshal(item))
    requires o.callbackOk || !s.hasCallback
    ensures Marshal(item) != ""
    ensures AddEntry(s, d, e, o).ok
    ensures AddEntry(s, d, e, o).after.items == ItemMaps.Stored(s.md5, d.items, Trimmed(item))
  {
    RoundTrip(item);
    assert s.decode(Marshal(item)) == Some(Trimmed(item));
  }
}
