/** The bounded cache of sentence audio and word timings. */
module SpeechCache {
  import opened Wrappers

  type Key(==, !new)

  datatype Word = Word(text: string, start: real, end: real)

  /** Lengths are in bytes. */
  datatype Asset = Asset(audio: seq<bv8>, contentType: string, words: seq<Word>, aligned: bool)

  datatype Entry = Entry(key: Key, asset: Asset)

  /** Zero or less means no limit. */
  datatype Limits = Limits(entries: int, bytes: int)

  function WordBytes(words: seq<Word>): nat {
    if words == [] then 0 else WordBytes(words[..|words| - 1]) + |words[|words| - 1].text| + 16
  }

  function Size(asset: Asset): nat {
    |asset.audio| + |asset.contentType| + WordBytes(asset.words)
  }

  method ReaderSpeechAssetSize(asset: Asset) returns (size: nat)
    ensures size == Size(asset)
  {
    size := |asset.audio| + |asset.contentType|;
    for i := 0 to |asset.words|
      invariant size == |asset.audio| + |asset.contentType| + WordBytes(asset.words[..i])
    {
      assert asset.words[..i + 1][..i] == asset.words[..i];
      size := size + |asset.words[i].text| + 16;
    }
    assert asset.words[..|asset.words|] == asset.words;
  }

  /** An empty asset has no size; every byte of audio, content type and text counts one, and every word sixteen more. */
  lemma {:induction false} SizeGrows(a: Asset, b: bv8, c: char, w: Word)
    ensures Size(a.(audio := a.audio + [b])) == Size(a) + 1
    ensures Size(a.(contentType := a.contentType + [c])) == Size(a) + 1
    ensures Size(a.(words := a.words + [w])) == Size(a) + |w.text| + 16
    ensures a.audio == [] && a.contentType == "" && a.words == [] ==> Size(a) == 0
  {
    assert (a.words + [w])[..|a.words|] == a.words;
  }

  // ---------------------------------------------------------------------------------------
  // The list the cache stands for, oldest entry first
  // ---------------------------------------------------------------------------------------

  predicate Distinct(list: seq<Entry>) {
    forall i, j :: 0 <= i < j < |list| ==> list[i].key != list[j].key
  }

  predicate Has(list: seq<Entry>, key: Key) {
    exists i :: 0 <= i < |list| && list[i].key == key
  }

  function Lookup(list: seq<Entry>, key: Key): Option<Asset> {
    if list == [] then None
    else if list[0].key == key then Some(list[0].asset)
    else Lookup(list[1..], key)
  }

  function Total(list: seq<Entry>): nat {
    if list == [] then 0 else Size(list[0].asset) + Total(list[1..])
  }

  function Remove(list: seq<Entry>, key: Key): seq<Entry> {
    if list == [] then []
    else if list[0].key == key then list[1..]
    else [list[0]] + Remove(list[1..], key)
  }

  /** No room for another entry of that many bytes. */
  predicate Full(list: seq<Entry>, limits: Limits, bytes: nat) {
    || (limits.entries > 0 && |list| >= limits.entries)
    || (limits.bytes > 0 && Total(list) + bytes > limits.bytes)
  }

  function Evict(list: seq<Entry>, limits: Limits, bytes: nat): seq<Entry> {
    if list != [] && Full(list, limits, bytes) then Evict(list[1..], limits, bytes) else list
  }

  predicate Oversize(asset: Asset, limits: Limits) {
    limits.bytes > 0 && Size(asset) > limits.bytes
  }

  function Insert(list: seq<Entry>, limits: Limits, key: Key, asset: Asset): seq<Entry> {
    var others := Remove(list, key);
    if Oversize(asset, limits) then others
    else Evict(others, limits, Size(asset)) + [Entry(key, asset)]
  }

  // ---------------------------------------------------------------------------------------
  // Facts about the list
  // ---------------------------------------------------------------------------------------

  lemma {:induction false} RemoveAt(list: seq<Entry>, key: Key, i: nat)
    requires i < |list| && list[i].key == key && forall k :: 0 <= k < i ==> list[k].key != key
    ensures Remove(list, key) == list[..i] + list[i + 1..]
    ensures Total(Remove(list, key)) == Total(list) - Size(list[i].asset)
  {
    if i > 0 {
      RemoveAt(list[1..], key, i - 1);
      assert list[..i] == [list[0]] + list[1..][..i - 1];
      assert list[1..][i..] == list[i + 1..];
    }
  }

  lemma {:induction false} Absent(list: seq<Entry>, key: Key)
    requires !Has(list, key)
    ensures Remove(list, key) == list && Lookup(list, key) == None
  {
    if list != [] {
      assert list[0].key != key;
      forall k | 0 <= k < |list[1..]| ensures list[1..][k].key != key {
        assert list[k + 1].key != key;
      }
      Absent(list[1..], key);
    }
  }

  lemma {:induction false} TotalAppend(list: seq<Entry>, e: Entry)
    ensures Total(list + [e]) == Total(list) + Size(e.asset)
  {
    if list == [] {
      assert list + [e] == [e];
    } else {
      assert (list + [e])[1..] == list[1..] + [e];
      TotalAppend(list[1..], e);
    }
  }

  /** Eviction takes the shortest oldest prefix that makes room: one entry fewer and there is none. */
  lemma {:induction false} EvictsShortestPrefix(list: seq<Entry>, limits: Limits, bytes: nat) returns (k: nat)
    ensures k <= |list| && Evict(list, limits, bytes) == list[k..]
    ensures k < |list| ==> !Full(list[k..], limits, bytes)
    ensures forall j :: 0 <= j < k ==> Full(list[j..], limits, bytes)
  {
    hide Full;
    assert list[0..] == list;
    if list != [] && Full(list, limits, bytes) {
      var k' := EvictsShortestPrefix(list[1..], limits, bytes);
      k := k' + 1;
      assert list[1..][k'..] == list[k..];
      forall j | 0 <= j < k ensures Full(list[j..], limits, bytes) {
        if j > 0 {
          assert list[1..][j - 1..] == list[j..];
        }
      }
    } else {
      k := 0;
    }
  }

  // ---------------------------------------------------------------------------------------
  // The cache
  // ---------------------------------------------------------------------------------------

  predicate Enumerates(order: seq<Key>, entries: map<Key, Asset>) {
    && (forall i :: 0 <= i < |order| ==> order[i] in entries)
    && (forall k :: k in entries ==> k in order)
    && forall i, j :: 0 <= i < j < |order| ==> order[i] != order[j]
  }

  function Listing(order: seq<Key>, entries: map<Key, Asset>): (list: seq<Entry>)
    requires Enumerates(order, entries)
    ensures |list| == |order|
    ensures forall i :: 0 <= i < |list| ==> list[i] == Entry(order[i], entries[order[i]])
  {
    seq(|order|, i requires 0 <= i < |order| => Entry(order[i], entries[order[i]]))
  }

  lemma {:induction false} DeleteEnumerates(order: seq<Key>, entries: map<Key, Asset>, i: nat)
    requires Enumerates(order, entries) && i < |order|
    ensures Enumerates(order[..i] + order[i + 1..], entries - {order[i]})
  {
    var order', entries' := order[..i] + order[i + 1..], entries - {order[i]};
    forall k | k in entries' ensures k in order' {
      var j :| 0 <= j < |order| && order[j] == k;
      assert order'[if j < i then j else j - 1] == k;
    }
  }

  lemma {:induction false} DeleteListing(order: seq<Key>, entries: map<Key, Asset>, i: nat)
    requires Enumerates(order, entries) && i < |order|
    requires Enumerates(order[..i] + order[i + 1..], entries - {order[i]})
    ensures Listing(order[..i] + order[i + 1..], entries - {order[i]})
         == Listing(order, entries)[..i] + Listing(order, entries)[i + 1..]
  {
    hide Listing;
    var list := Listing(order, entries);
    var order', entries' := order[..i] + order[i + 1..], entries - {order[i]};
    var list' := Listing(order', entries');
    forall j | 0 <= j < |list'| ensures list'[j] == (list[..i] + list[i + 1..])[j] {
      var m := if j < i then j else j + 1;
      assert order'[j] == order[m] && order'[j] in entries';
      assert list'[j] == list[m];
    }
  }

  /** Deleting one key from the map and its place in the order deletes one entry of the list. */
  lemma {:induction false} DeleteAt(order: seq<Key>, entries: map<Key, Asset>, i: nat)
    requires Enumerates(order, entries) && i < |order|
    ensures var order', entries' := order[..i] + order[i + 1..], entries - {order[i]};
            && Enumerates(order', entries')
            && Listing(order', entries') == Remove(Listing(order, entries), order[i])
            && Total(Listing(order', entries')) == Total(Listing(order, entries)) - Size(entries[order[i]])
            && |entries'| == |order'|
  {
    hide Size, Total, Remove, Listing;
    DeleteEnumerates(order, entries, i);
    DeleteListing(order, entries, i);
    RemoveAt(Listing(order, entries), order[i], i);
    SameSize(order[..i] + order[i + 1..], entries - {order[i]});
  }

  lemma {:induction false} SameSize(order: seq<Key>, entries: map<Key, Asset>)
    requires Enumerates(order, entries)
    ensures |entries| == |order|
  {
    if order == [] {
      assert entries.Keys == {};
    } else {
      var rest := entries - {order[0]};
      forall k | k in rest ensures k in order[1..] {
        var j :| 0 <= j < |order| && order[j] == k;
        assert order[1..][j - 1] == k;
      }
      SameSize(order[1..], rest);
      assert entries.Keys == rest.Keys + {order[0]};
    }
  }

  method Position(order: seq<Key>, key: Key) returns (i: nat)
    requires key in order
    ensures i < |order| && order[i] == key
  {
    i := 0;
    while order[i] != key
      invariant i < |order| && key in order[i..]
      decreases |order| - i
    {
      assert order[i..] == [order[i]] + order[i + 1..];
      i := i + 1;
    }
  }

  lemma {:induction false} AbsentKey(order: seq<Key>, entries: map<Key, Asset>, key: Key)
    requires Enumerates(order, entries) && key !in entries
    ensures Remove(Listing(order, entries), key) == Listing(order, entries)
    ensures Lookup(Listing(order, entries), key) == None
  {
    hide Remove, Lookup;
    var list := Listing(order, entries);
    assert forall k :: 0 <= k < |list| ==> list[k].key != key;
    Absent(list, key);
  }

  /** One round of the eviction loop. */
  lemma {:induction false} DropOldest(order: seq<Key>, entries: map<Key, Asset>, limits: Limits, bytes: nat)
    requires Enumerates(order, entries) && order != [] && Full(Listing(order, entries), limits, bytes)
    ensures order[0] in entries
    ensures var order', entries' := order[1..], entries - {order[0]};
            && Enumerates(order', entries') && |order'| == |entries'|
            && Total(Listing(order', entries')) == Total(Listing(order, entries)) - Size(entries[order[0]])
            && Evict(Listing(order', entries'), limits, bytes) == Evict(Listing(order, entries), limits, bytes)
  {
    hide Size, Total, Full, Remove, Listing, Evict;
    assert order[..0] + order[1..] == order[1..];
    DeleteAt(order, entries, 0);
    EvictStep(Listing(order, entries), limits, bytes);
  }

  lemma {:induction false} EvictStep(list: seq<Entry>, limits: Limits, bytes: nat)
    ensures list == [] || !Full(list, limits, bytes) ==> Evict(list, limits, bytes) == list
    ensures list != [] && Full(list, limits, bytes) ==>
              Evict(list, limits, bytes) == Evict(Remove(list, list[0].key), limits, bytes)
  {
  }

  class ReaderSpeechCache {
    const limits: Limits
    var usedBytes: int
    var entries: map<Key, Asset>
    var order: seq<Key>

    ghost predicate Valid()
      reads this
    {
      Enumerates(order, entries) && usedBytes == Total(Listing(order, entries))
    }

    ghost function Contents(): seq<Entry>
      requires Valid()
      reads this
    {
      Listing(order, entries)
    }

    constructor (limits: Limits)
      ensures Valid() && this.limits == limits && Contents() == []
    {
      this.limits := limits;
      usedBytes := 0;
      entries := map[];
      order := [];
    }

    method Get(key: Key) returns (asset: Option<Asset>)
      requires Valid()
      ensures asset == Lookup(Contents(), key)
    {
      LookupListing(order, entries, key);
      return if key in entries then Some(entries[key]) else None;
    }

    method Forget(key: Key)
      requires Valid()
      modifies this`usedBytes, this`entries, this`order
      ensures Valid() && Contents() == Remove(old(Contents()), key)
      ensures |order| == |entries| && key !in entries
    {
      hide Remove, Total, Size, Listing;
      SameSize(order, entries);
      if key in entries {
        var existing := ReaderSpeechAssetSize(entries[key]);
        var i := Position(order, key);
        DeleteAt(order, entries, i);
        usedBytes := usedBytes - existing;
        entries := entries - {key};
        order := order[..i] + order[i + 1..];
      } else {
        AbsentKey(order, entries, key);
      }
    }

    method MakeRoom(bytes: nat)
      requires Valid() && |order| == |entries|
      modifies this`usedBytes, this`entries, this`order
      ensures Valid() && Contents() == Evict(old(Contents()), limits, bytes)
      ensures entries.Keys <= old(entries.Keys)
    {
      hide Evict, Total, Size, Enumerates, Listing;
      while |order| > 0
            && (|| (limits.entries > 0 && |entries| >= limits.entries)
                || (limits.bytes > 0 && usedBytes + bytes > limits.bytes))
        invariant Valid() && |order| == |entries| && entries.Keys <= old(entries.Keys)
        invariant Evict(Contents(), limits, bytes) == Evict(old(Contents()), limits, bytes)
        decreases |order|
      {
        DropOldest(order, entries, limits, bytes);
        var oldest := order[0];
        order := order[1..];
        var freed := ReaderSpeechAssetSize(entries[oldest]);
        usedBytes := usedBytes - freed;
        entries := entries - {oldest};
      }
      EvictStep(Contents(), limits, bytes);
    }

    method Put(key: Key, asset: Asset)
      requires Valid()
      modifies this`usedBytes, this`entries, this`order
      ensures Valid() && Contents() == Insert(old(Contents()), limits, key, asset)
    {
      Forget(key);
      var assetBytes := ReaderSpeechAssetSize(asset);
      if limits.bytes > 0 && assetBytes > limits.bytes {
        return;
      }
      MakeRoom(assetBytes);
      AppendEntry(order, entries, key, asset);
      entries := entries[key := asset];
      order := order + [key];
      usedBytes := usedBytes + assetBytes;
    }
  }

  lemma {:induction false} AppendEntry(order: seq<Key>, entries: map<Key, Asset>, key: Key, asset: Asset)
    requires Enumerates(order, entries) && key !in entries
    ensures Enumerates(order + [key], entries[key := asset])
    ensures Listing(order + [key], entries[key := asset]) == Listing(order, entries) + [Entry(key, asset)]
    ensures Total(Listing(order + [key], entries[key := asset])) == Total(Listing(order, entries)) + Size(asset)
  {
    var order', entries' := order + [key], entries[key := asset];
    forall k | k in entries' ensures k in order' {
      if k == key {
        assert order'[|order|] == k;
      } else {
        var j :| 0 <= j < |order| && order[j] == k;
        assert order'[j] == k;
      }
    }
    assert Enumerates(order', entries');
    assert Listing(order', entries') == Listing(order, entries) + [Entry(key, asset)];
    TotalAppend(Listing(order, entries), Entry(key, asset));
  }

  lemma {:induction false} LookupListing(order: seq<Key>, entries: map<Key, Asset>, key: Key)
    requires Enumerates(order, entries)
    ensures Lookup(Listing(order, entries), key) == if key in entries then Some(entries[key]) else None
  {
    var list := Listing(order, entries);
    if key in entries {
      var i :| 0 <= i < |order| && order[i] == key;
      LookupAt(list, i);
    } else {
      AbsentKey(order, entries, key);
    }
  }

  lemma {:induction false} LookupAt(list: seq<Entry>, i: nat)
    requires i < |list| && Distinct(list)
    ensures Lookup(list, list[i].key) == Some(list[i].asset)
  {
    if i > 0 {
      LookupAt(list[1..], i - 1);
    }
  }

  // ---------------------------------------------------------------------------------------
  // What every put keeps
  // ---------------------------------------------------------------------------------------

  predicate WithinLimits(list: seq<Entry>, limits: Limits) {
    && (limits.entries > 0 ==> |list| <= limits.entries)
    && (limits.bytes > 0 ==> Total(list) <= limits.bytes)
  }

  lemma {:induction false} RemoveShrinks(list: seq<Entry>, key: Key)
    ensures |Remove(list, key)| <= |list| && Total(Remove(list, key)) <= Total(list)
  {
    if list != [] && list[0].key != key {
      RemoveShrinks(list[1..], key);
    }
  }

  /** Both limits hold after a put, whatever the asset's size, if they held before. */
  lemma {:induction false} InsertKeepsLimits(list: seq<Entry>, limits: Limits, key: Key, asset: Asset)
    requires WithinLimits(list, limits)
    ensures WithinLimits(Insert(list, limits, key, asset), limits)
  {
    hide Remove, Evict, Size;
    RemoveShrinks(list, key);
    if !Oversize(asset, limits) {
      var others := Remove(list, key);
      var k := EvictsShortestPrefix(others, limits, Size(asset));
      TotalAppend(others[k..], Entry(key, asset));
    }
  }

  /** A put drops the oldest other entries, and none that could have stayed: with one of those dropped last kept, the new
      list would break a limit. An asset over the limit on bytes is not kept and drops nothing but its own key. */
  lemma {:induction false} DropsOnlyWhatMustGo(list: seq<Entry>, limits: Limits, key: Key, asset: Asset) returns (k: nat)
    ensures var others := Remove(list, key);
            if limits.bytes > 0 && Size(asset) > limits.bytes then Insert(list, limits, key, asset) == others
            else
              && k <= |others| && Insert(list, limits, key, asset) == others[k..] + [Entry(key, asset)]
              && forall j :: 0 <= j < k ==> !WithinLimits(others[j..] + [Entry(key, asset)], limits)
  {
    hide Remove, Evict, Size, Total;
    var others := Remove(list, key);
    k := EvictsShortestPrefix(others, limits, Size(asset));
    forall j | 0 <= j < k ensures !WithinLimits(others[j..] + [Entry(key, asset)], limits) {
      assert Full(others[j..], limits, Size(asset));
      TotalAppend(others[j..], Entry(key, asset));
    }
  }

  /** What fits stays: nothing is dropped when the other entries and the new one are within the limits. */
  lemma {:induction false} NothingDroppedThatFits(list: seq<Entry>, limits: Limits, key: Key, asset: Asset)
    requires WithinLimits(Remove(list, key) + [Entry(key, asset)], limits)
    ensures Insert(list, limits, key, asset) == Remove(list, key) + [Entry(key, asset)]
  {
    hide Remove, Evict, Size, Insert;
    var others := Remove(list, key);
    var k := DropsOnlyWhatMustGo(list, limits, key, asset);
    TotalAppend(others, Entry(key, asset));
    assert others[0..] == others;
  }

  /** The other entries are those of the other keys, in their order. */
  lemma {:induction false} RemoveKeepsOthers(list: seq<Entry>, key: Key)
    requires Distinct(list)
    ensures if Has(list, key) then exists i :: 0 <= i < |list| && list[i].key == key
                                          && Remove(list, key) == list[..i] + list[i + 1..]
            else Remove(list, key) == list
  {
    if Has(list, key) {
      var i :| 0 <= i < |list| && list[i].key == key;
      RemoveAt(list, key, i);
    } else {
      Absent(list, key);
    }
  }

  lemma {:induction false} LookupRemoved(list: seq<Entry>, key: Key, other: Key)
    requires Distinct(list)
    ensures Distinct(Remove(list, key))
    ensures Lookup(Remove(list, key), other) == if other == key then None else Lookup(list, other)
    ensures forall e :: e in Remove(list, key) ==> e in list && e.key != key
  {
    if list != [] {
      if list[0].key == key {
        assert forall k :: 0 <= k < |list[1..]| ==> list[1..][k] == list[k + 1];
        if other == key {
          Absent(list[1..], other);
        }
      } else {
        LookupRemoved(list[1..], key, other);
      }
    }
  }

  lemma {:induction false} LookupSuffix(list: seq<Entry>, k: nat, key: Key)
    requires k <= |list| && Distinct(list)
    ensures Distinct(list[k..])
    ensures Lookup(list[k..], key).Some? ==> Lookup(list[k..], key) == Lookup(list, key)
  {
    if k == 0 {
      assert list[0..] == list;
    } else {
      LookupSuffix(list[1..], k - 1, key);
      assert list[1..][k - 1..] == list[k..];
      if Lookup(list[k..], key).Some? {
        var j := LookupFrom(list[k..], key);
        assert list[k + j].key == key;
      }
    }
  }

  lemma {:induction false} LookupFrom(list: seq<Entry>, key: Key) returns (j: nat)
    requires Lookup(list, key).Some?
    ensures j < |list| && list[j] == Entry(key, Lookup(list, key).value)
  {
    if list[0].key == key {
      j := 0;
    } else {
      var j' := LookupFrom(list[1..], key);
      j := j' + 1;
    }
  }

  lemma {:induction false} LookupAppended(list: seq<Entry>, e: Entry, key: Key)
    ensures Lookup(list + [e], key)
         == if Lookup(list, key).Some? then Lookup(list, key) else if e.key == key then Some(e.asset) else None
  {
    if list == [] {
      assert list + [e] == [e];
    } else {
      assert (list + [e])[1..] == list[1..] + [e];
      LookupAppended(list[1..], e, key);
    }
  }

  /** After a put the key holds the asset, or nothing if it was too big; every other key holds what it did or nothing. */
  lemma {:induction false} InsertReads(list: seq<Entry>, limits: Limits, key: Key, asset: Asset, other: Key)
    requires Distinct(list)
    ensures Distinct(Insert(list, limits, key, asset))
    ensures Lookup(Insert(list, limits, key, asset), key) == if Oversize(asset, limits) then None else Some(asset)
    ensures other != key && Lookup(Insert(list, limits, key, asset), other).Some? ==>
              Lookup(Insert(list, limits, key, asset), other) == Lookup(list, other)
  {
    hide Evict, Remove, Lookup, Oversize, Full;
    var others := Remove(list, key);
    LookupRemoved(list, key, key);
    LookupRemoved(list, key, other);
    if !Oversize(asset, limits) {
      var k := EvictsShortestPrefix(others, limits, Size(asset));
      LookupSuffix(others, k, key);
      LookupSuffix(others, k, other);
      LookupAppended(others[k..], Entry(key, asset), key);
      LookupAppended(others[k..], Entry(key, asset), other);
      assert forall i :: 0 <= i < |others| ==> others[i] in others;
    }
  }

  // ---------------------------------------------------------------------------------------
  // Runs
  // ---------------------------------------------------------------------------------------

  function AfterPuts(puts: seq<Entry>, limits: Limits): seq<Entry> {
    if puts == [] then []
    else
      var last := puts[|puts| - 1];
      Insert(AfterPuts(puts[..|puts| - 1], limits), limits, last.key, last.asset)
  }

  function LastPut(puts: seq<Entry>, key: Key): Option<Asset> {
    if puts == [] then None
    else if puts[|puts| - 1].key == key then Some(puts[|puts| - 1].asset)
    else LastPut(puts[..|puts| - 1], key)
  }

  /** After any puts the limits hold, no key is listed twice, and what a key holds is the last asset put for it. */
  lemma {:induction false} RunKeepsSound(puts: seq<Entry>, limits: Limits, key: Key)
    ensures WithinLimits(AfterPuts(puts, limits), limits) && Distinct(AfterPuts(puts, limits))
    ensures Lookup(AfterPuts(puts, limits), key).Some? ==> Lookup(AfterPuts(puts, limits), key) == LastPut(puts, key)
  {
    hide Insert, Lookup, Oversize;
    if puts == [] {
      Absent([], key);
    } else {
      var last := puts[|puts| - 1];
      var before := AfterPuts(puts[..|puts| - 1], limits);
      RunKeepsSound(puts[..|puts| - 1], limits, key);
      InsertKeepsLimits(before, limits, last.key, last.asset);
      InsertReads(before, limits, last.key, last.asset, key);
    }
  }
}
