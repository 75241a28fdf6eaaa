/** One cycle of the TTL reaper and one sweep of the janitor. */
module Ttl {
  import opened Bytes
  import opened Keys
  import opened Storage
  import opened Meta

  /**
   * Whether a due entry's keys go away: always when its metadata is missing or unreadable; otherwise only
   * if its tier is configured and, for the janitor, its block file is absent.
   */
  predicate Drops(m: Store, files: Files, tiers: set<Tier>, id: BlockID, reaping: bool) {
    match GetBlockMeta(m, id)
    case None => true
    case Some(Err(_)) => true
    case Some(Ok(bm)) => bm.tier in tiers && (reaping || BlockPath(bm.tier, id) !in files)
  }

  function EntryKeys(e: ExpiredEntry): set<Bytes> {
    {BlockKey(e.id), ExpiryKey(e.hour, e.id)}
  }

  /** The keys a whole cycle deletes. */
  function DroppedKeys(m: Store, files: Files, tiers: set<Tier>, entries: seq<ExpiredEntry>,
                       reaping: bool): set<Bytes> {
    if entries == [] then {}
    else
      var (rest, e) := (DroppedKeys(m, files, tiers, entries[..|entries| - 1], reaping), entries[|entries| - 1]);
      if Drops(m, files, tiers, e.id, reaping) then rest + EntryKeys(e) else rest
  }

  function EntryPaths(m: Store, tiers: set<Tier>, id: BlockID): set<Path> {
    match GetBlockMeta(m, id)
    case Some(Ok(bm)) => if bm.tier in tiers then {BlockPath(bm.tier, id), BloomPath(bm.tier, id)} else {}
    case _ => {}
  }

  /** The files a whole reaper cycle unlinks. */
  function DroppedPaths(m: Store, tiers: set<Tier>, entries: seq<ExpiredEntry>): set<Path> {
    if entries == [] then {}
    else DroppedPaths(m, tiers, entries[..|entries| - 1]) + EntryPaths(m, tiers, entries[|entries| - 1].id)
  }

  lemma {:induction false} DroppedKeysExact(m: Store, files: Files, tiers: set<Tier>, entries: seq<ExpiredEntry>,
                                            reaping: bool, k: Bytes)
    ensures k in DroppedKeys(m, files, tiers, entries, reaping) <==>
      exists e :: e in entries && Drops(m, files, tiers, e.id, reaping) && k in EntryKeys(e)
  {
    hide Drops, EntryKeys;
    if entries != [] {
      var n := |entries| - 1;
      DroppedKeysExact(m, files, tiers, entries[..n], reaping, k);
      assert entries == entries[..n] + [entries[n]];
    }
  }

  lemma {:induction false} DroppedPathsExact(m: Store, tiers: set<Tier>, entries: seq<ExpiredEntry>, p: Path)
    ensures p in DroppedPaths(m, tiers, entries) <==> exists e :: e in entries && p in EntryPaths(m, tiers, e.id)
  {
    hide EntryPaths;
    if entries != [] {
      var n := |entries| - 1;
      DroppedPathsExact(m, tiers, entries[..n], p);
      assert entries == entries[..n] + [entries[n]];
    }
  }

  /** A block key goes exactly with a due entry of that block that is dropped. */
  lemma BlockKeyDropped(m: Store, files: Files, tiers: set<Tier>, entries: seq<ExpiredEntry>, reaping: bool,
                        id: BlockID)
    ensures BlockKey(id) in DroppedKeys(m, files, tiers, entries, reaping) <==>
      Drops(m, files, tiers, id, reaping) && exists e :: e in entries && e.id == id
  {
    hide Drops;
    DroppedKeysExact(m, files, tiers, entries, reaping, BlockKey(id));
    forall e: ExpiredEntry ensures BlockKey(id) in EntryKeys(e) <==> e.id == id {
      EncodeInjective(Block(id), Block(e.id));
      EncodeInjective(Block(id), Expiry(e.hour, e.id));
    }
  }

  // ----- cycles with failed metadata reads -----

  /** The metadata of this entry's block could not be read at this entry or at an earlier one. */
  ghost predicate Lost(entries: seq<ExpiredEntry>, misread: set<nat>, i: nat)
    requires i < |entries|
  {
    exists j: nat :: j <= i && j in misread && entries[j].id == entries[i].id
  }

  /** Whether the entry's keys go away: a metadata record that cannot be read counts as gone. */
  ghost predicate Falls(m: Store, files: Files, tiers: set<Tier>, entries: seq<ExpiredEntry>, misread: set<nat>,
                        reaping: bool, i: nat)
    requires i < |entries|
  {
    Lost(entries, misread, i) || Drops(m, files, tiers, entries[i].id, reaping)
  }

  /** The keys a cycle deletes at its first n entries when the metadata reads in misread fail. */
  ghost function CycleKeys(m: Store, files: Files, tiers: set<Tier>, entries: seq<ExpiredEntry>, misread: set<nat>,
                           reaping: bool, n: nat): set<Bytes>
    requires n <= |entries|
  {
    if n == 0 then {}
    else
      CycleKeys(m, files, tiers, entries, misread, reaping, n - 1)
      + if Falls(m, files, tiers, entries, misread, reaping, n - 1) then EntryKeys(entries[n - 1]) else {}
  }

  /** The files a reaper cycle unlinks at its first n entries: none of a block whose metadata could not be read. */
  ghost function CyclePaths(m: Store, tiers: set<Tier>, entries: seq<ExpiredEntry>, misread: set<nat>,
                            n: nat): set<Path>
    requires n <= |entries|
  {
    if n == 0 then {}
    else
      CyclePaths(m, tiers, entries, misread, n - 1)
      + if Lost(entries, misread, n - 1) then {} else EntryPaths(m, tiers, entries[n - 1].id)
  }

  lemma {:induction false} CycleKeysExact(m: Store, files: Files, tiers: set<Tier>, entries: seq<ExpiredEntry>,
                                          misread: set<nat>, reaping: bool, n: nat, k: Bytes)
    requires n <= |entries|
    ensures k in CycleKeys(m, files, tiers, entries, misread, reaping, n) <==>
      exists i: nat :: i < n && Falls(m, files, tiers, entries, misread, reaping, i) && k in EntryKeys(entries[i])
  {
    hide Falls, EntryKeys;
    if n > 0 { CycleKeysExact(m, files, tiers, entries, misread, reaping, n - 1, k); }
  }

  lemma {:induction false} CyclePathsExact(m: Store, tiers: set<Tier>, entries: seq<ExpiredEntry>, misread: set<nat>,
                                           n: nat, p: Path)
    requires n <= |entries|
    ensures p in CyclePaths(m, tiers, entries, misread, n) <==>
      exists i: nat :: i < n && !Lost(entries, misread, i) && p in EntryPaths(m, tiers, entries[i].id)
  {
    hide Lost, EntryPaths;
    if n > 0 { CyclePathsExact(m, tiers, entries, misread, n - 1, p); }
  }

  lemma BlockKeyFalls(m: Store, files: Files, tiers: set<Tier>, entries: seq<ExpiredEntry>, misread: set<nat>,
                      reaping: bool, n: nat, id: BlockID)
    requires n <= |entries|
    ensures BlockKey(id) in CycleKeys(m, files, tiers, entries, misread, reaping, n) <==>
      exists i: nat :: i < n && Falls(m, files, tiers, entries, misread, reaping, i) && entries[i].id == id
  {
    hide Falls, CycleKeys;
    CycleKeysExact(m, files, tiers, entries, misread, reaping, n, BlockKey(id));
    forall e: ExpiredEntry ensures BlockKey(id) in EntryKeys(e) <==> e.id == id { BlockKeyOfEntry(e, id); }
  }

  lemma BlockKeyOfEntry(e: ExpiredEntry, id: BlockID)
    ensures BlockKey(id) in EntryKeys(e) <==> e.id == id
  {
    EncodeInjective(Block(id), Block(e.id));
    EncodeInjective(Block(id), Expiry(e.hour, e.id));
  }

  /** Without a failed read a cycle deletes exactly what it should. */
  lemma CleanReads(m: Store, files: Files, tiers: set<Tier>, entries: seq<ExpiredEntry>, reaping: bool)
    ensures CycleKeys(m, files, tiers, entries, {}, reaping, |entries|) ==
        DroppedKeys(m, files, tiers, entries, reaping)
    ensures CyclePaths(m, tiers, entries, {}, |entries|) == DroppedPaths(m, tiers, entries)
  {
    hide Drops, EntryKeys, EntryPaths, CycleKeys, CyclePaths, DroppedKeys, DroppedPaths;
    forall k
      ensures k in CycleKeys(m, files, tiers, entries, {}, reaping, |entries|) <==>
        k in DroppedKeys(m, files, tiers, entries, reaping)
    {
      CycleKeysExact(m, files, tiers, entries, {}, reaping, |entries|, k);
      DroppedKeysExact(m, files, tiers, entries, reaping, k);
      if e :| e in entries && Drops(m, files, tiers, e.id, reaping) && k in EntryKeys(e) {
        var i: nat :| i < |entries| && entries[i] == e;
        assert Falls(m, files, tiers, entries, {}, reaping, i);
      }
    }
    forall p ensures p in CyclePaths(m, tiers, entries, {}, |entries|) <==> p in DroppedPaths(m, tiers, entries) {
      CyclePathsExact(m, tiers, entries, {}, |entries|, p);
      DroppedPathsExact(m, tiers, entries, p);
      if e :| e in entries && p in EntryPaths(m, tiers, e.id) {
        var i: nat :| i < |entries| && entries[i] == e;
        assert !Lost(entries, {}, i);
      }
    }
  }

  /**
   * Failed metadata reads leave the store as it should be exactly when they hit only entries whose keys go away
   * anyway. Any other failed read deletes the keys of a block that was to stay.
   */
  lemma MisreadsKeepStore(m: Store, files: Files, tiers: set<Tier>, now: uint64, reaping: bool, misread: set<nat>)
    ensures var entries := Expired(m, now);
      m - CycleKeys(m, files, tiers, entries, misread, reaping, |entries|) ==
          m - DroppedKeys(m, files, tiers, entries, reaping) <==>
        forall i: nat :: i in misread && i < |entries| ==> Drops(m, files, tiers, entries[i].id, reaping)
  {
    hide Drops, EntryKeys, CycleKeys, DroppedKeys, Expired, ExpiryKey;
    var entries := Expired(m, now);
    var cycle := CycleKeys(m, files, tiers, entries, misread, reaping, |entries|);
    var meant := DroppedKeys(m, files, tiers, entries, reaping);
    ExpiredExact(m, now);
    if forall i: nat :: i in misread && i < |entries| ==> Drops(m, files, tiers, entries[i].id, reaping) {
      forall k ensures k in cycle <==> k in meant {
        CycleKeysExact(m, files, tiers, entries, misread, reaping, |entries|, k);
        DroppedKeysExact(m, files, tiers, entries, reaping, k);
        if e :| e in entries && Drops(m, files, tiers, e.id, reaping) && k in EntryKeys(e) {
          var i: nat :| i < |entries| && entries[i] == e;
          assert Falls(m, files, tiers, entries, misread, reaping, i);
        }
      }
    } else {
      var i: nat :| i in misread && i < |entries| && !Drops(m, files, tiers, entries[i].id, reaping);
      var e := entries[i];
      var k := ExpiryKey(e.hour, e.id);
      assert e in entries && k in m;
      ExpiryKeyFate(m, files, tiers, entries, misread, reaping, i);
      assert k in m - meant && k !in m - cycle;
    }
  }

  lemma ExpiryKeyFate(m: Store, files: Files, tiers: set<Tier>, entries: seq<ExpiredEntry>, misread: set<nat>,
                      reaping: bool, i: nat)
    requires i < |entries|
    ensures Falls(m, files, tiers, entries, misread, reaping, i) ==>
      ExpiryKey(entries[i].hour, entries[i].id) in CycleKeys(m, files, tiers, entries, misread, reaping, |entries|)
    ensures i in misread ==> Falls(m, files, tiers, entries, misread, reaping, i)
    ensures ExpiryKey(entries[i].hour, entries[i].id) in DroppedKeys(m, files, tiers, entries, reaping) ==>
      Drops(m, files, tiers, entries[i].id, reaping)
  {
    hide Drops, CycleKeys, DroppedKeys;
    var e := entries[i];
    var k := ExpiryKey(e.hour, e.id);
    CycleKeysExact(m, files, tiers, entries, misread, reaping, |entries|, k);
    DroppedKeysExact(m, files, tiers, entries, reaping, k);
    forall x: ExpiredEntry ensures k in EntryKeys(x) ==> x == e {
      EncodeInjective(Expiry(e.hour, e.id), Expiry(x.hour, x.id));
      EncodeInjective(Expiry(e.hour, e.id), Block(x.id));
    }
  }

  /** No earlier entry is about the same block. */
  ghost predicate First(entries: seq<ExpiredEntry>, i: nat) {
    i < |entries| && forall j: nat :: j < i ==> entries[j].id != entries[i].id
  }

  lemma {:induction false} FirstOf(entries: seq<ExpiredEntry>, k: nat) returns (i: nat)
    requires k < |entries|
    ensures First(entries, i) && entries[i].id == entries[k].id && i <= k
    decreases k
  {
    if j: nat :| j < k && entries[j].id == entries[k].id { i := FirstOf(entries, j); } else { i := k; }
  }

  lemma PathOfOneBlock(m: Store, tiers: set<Tier>, p: Path, a: BlockID, b: BlockID)
    requires p in EntryPaths(m, tiers, a) && p in EntryPaths(m, tiers, b)
    ensures a == b
  {}

  /** A file that should go stays exactly when the metadata read at its block's first entry failed. */
  lemma MisreadKeepsFiles(m: Store, tiers: set<Tier>, entries: seq<ExpiredEntry>, misread: set<nat>, p: Path)
    requires p in DroppedPaths(m, tiers, entries)
    ensures p !in CyclePaths(m, tiers, entries, misread, |entries|) <==>
      exists i: nat :: First(entries, i) && i in misread && p in EntryPaths(m, tiers, entries[i].id)
  {
    hide CyclePaths, DroppedPaths, EntryPaths;
    CyclePathsExact(m, tiers, entries, misread, |entries|, p);
    DroppedPathsExact(m, tiers, entries, p);
    var e :| e in entries && p in EntryPaths(m, tiers, e.id);
    var k: nat :| k < |entries| && entries[k] == e;
    var i := FirstOf(entries, k);
    forall x: nat | x < |entries| && p in EntryPaths(m, tiers, entries[x].id)
      ensures entries[x].id == entries[i].id && x >= i && (i in misread ==> Lost(entries, misread, x))
    {
      PathOfOneBlock(m, tiers, p, entries[x].id, e.id);
    }
    assert Lost(entries, misread, i) ==> i in misread;
  }

  /** The files are as they should be exactly when no failed read was the first at a block that has any. */
  lemma MisreadsKeepFiles(m: Store, files: Files, tiers: set<Tier>, entries: seq<ExpiredEntry>, misread: set<nat>)
    ensures files - CyclePaths(m, tiers, entries, misread, |entries|) == files - DroppedPaths(m, tiers, entries) <==>
        forall i: nat :: i in misread && First(entries, i) ==> EntryPaths(m, tiers, entries[i].id) !! files.Keys
  {
    hide CyclePaths, DroppedPaths, EntryPaths;
    var cycle, meant := CyclePaths(m, tiers, entries, misread, |entries|), DroppedPaths(m, tiers, entries);
    forall p ensures p in cycle ==> p in meant {
      CyclePathsExact(m, tiers, entries, misread, |entries|, p);
      DroppedPathsExact(m, tiers, entries, p);
    }
    if forall i: nat :: i in misread && First(entries, i) ==> EntryPaths(m, tiers, entries[i].id) !! files.Keys {
      forall p | p in files && p in meant ensures p in cycle { MisreadKeepsFiles(m, tiers, entries, misread, p); }
    } else {
      var i: nat :| i in misread && First(entries, i) && !(EntryPaths(m, tiers, entries[i].id) !! files.Keys);
      var p :| p in EntryPaths(m, tiers, entries[i].id) && p in files.Keys;
      DroppedPathsExact(m, tiers, entries, p);
      assert entries[i] in entries;
      MisreadKeepsFiles(m, tiers, entries, misread, p);
      assert p in files - cycle && p !in files - meant;
    }
  }

  /** The failed read at this entry changes nothing: its keys go anyway, and the reaper had no file to unlink there. */
  ghost predicate Harmless(m: Store, files: Files, tiers: set<Tier>, entries: seq<ExpiredEntry>, reaping: bool, i: nat)
    requires i < |entries|
  {
    && Drops(m, files, tiers, entries[i].id, reaping)
    && (reaping && First(entries, i) ==> EntryPaths(m, tiers, entries[i].id) !! files.Keys)
  }

  /**
   * Failed metadata reads leave the outcome of a cycle, store and files, as it should be exactly when every one of
   * them is harmless. The others delete the keys of a block that was to stay, or leave behind files that no later
   * cycle finds.
   */
  lemma MisreadsHarmless(m: Store, files: Files, d: Durable, tiers: set<Tier>, now: uint64, reaping: bool,
                         misread: set<nat>)
    requires d.Valid()
    requires SweptTo(m, files, d, tiers, Expired(m, now), misread, reaping, |Expired(m, now)|)
    ensures var entries := Expired(m, now);
      && d.Current() == m - DroppedKeys(m, files, tiers, entries, reaping)
      && d.files == (if reaping then files - DroppedPaths(m, tiers, entries) else files) <==>
        forall i: nat :: i in misread && i < |entries| ==> Harmless(m, files, tiers, entries, reaping, i)
  {
    hide Drops, EntryPaths, CycleKeys, DroppedKeys, CyclePaths, DroppedPaths, Expired;
    MisreadsKeepStore(m, files, tiers, now, reaping, misread);
    MisreadsKeepFiles(m, files, tiers, Expired(m, now), misread);
  }

  /** One failed read makes the janitor delete the keys of a block whose file is there, whatever the block. */
  lemma MisreadDropsLiveBlock(id: BlockID, hour: uint64, bm: BlockMeta, file: File, tiers: set<Tier>, now: uint64)
    requires hour <= now < TWO64 - 1
    ensures var m := map[BlockKey(id) := EncodeBlockMeta(bm), ExpiryKey(hour, id) := []];
      var files := map[BlockPath(bm.tier, id) := file];
      && Expired(m, now) == [ExpiredEntry(id, hour)]
      && m - DroppedKeys(m, files, tiers, Expired(m, now), false) == m
      && BlockKey(id) !in m - CycleKeys(m, files, tiers, Expired(m, now), {0}, false, 1)
  {
    hide ExpiryKey, BlockKey, EncodeBlockMeta, DecodeBlockMeta, Expired;
    var m := map[BlockKey(id) := EncodeBlockMeta(bm), ExpiryKey(hour, id) := []];
    var files := map[BlockPath(bm.tier, id) := file];
    OneExpired(m, id, hour, now);
    var entries := [ExpiredEntry(id, hour)];
    EncodeInjective(Block(id), Expiry(hour, id));
    BlockMetaRoundTrip(bm, [], []);
    assert EncodeBlockMeta(bm) + [] == EncodeBlockMeta(bm);
    assert !Drops(m, files, tiers, id, false);
    assert entries[..0] == [];
    assert Lost(entries, {0}, 0);
  }

  lemma OneExpired(m: Store, id: BlockID, hour: uint64, now: uint64)
    requires hour <= now < TWO64 - 1 && m.Keys == {BlockKey(id), ExpiryKey(hour, id)}
    ensures Expired(m, now) == [ExpiredEntry(id, hour)]
  {
    hide ExpiryKey, BlockKey, Expired;
    var entries := Expired(m, now);
    ExpiredExact(m, now);
    forall e: ExpiredEntry ensures e in entries <==> e == ExpiredEntry(id, hour) {
      EncodeInjective(Expiry(e.hour, e.id), Expiry(hour, id));
      EncodeInjective(Expiry(e.hour, e.id), Block(id));
    }
    assert ExpiredEntry(id, hour) in entries;
    if |entries| > 1 {
      assert entries[0] in entries && entries[1] in entries;
      assert InOrder(entries[0], entries[1]);
      LessIrreflexive(id);
    }
    assert entries[0] in entries;
  }

  // ----- however a cycle ends -----

  /** m' is m without some of the keys in gone. */
  ghost predicate Within<K, V>(m: map<K, V>, m': map<K, V>, gone: set<K>) {
    && (forall k :: k in m' ==> k in m && m'[k] == m[k])
    && (forall k :: k in m && k !in gone ==> k in m')
  }

  lemma WithinSame<K, V>(m: map<K, V>, gone: set<K>)
    ensures Within(m, m, gone)
  {}

  lemma WithinStep<K, V>(m: map<K, V>, m': map<K, V>, m'': map<K, V>, gone: set<K>, more: set<K>)
    requires Within(m, m', gone) && Within(m', m'', more) && more <= gone
    ensures Within(m, m'', gone)
  {}

  lemma WithinMore<K, V>(m: map<K, V>, m': map<K, V>, gone: set<K>, gone': set<K>)
    requires Within(m, m', gone) && gone <= gone'
    ensures Within(m, m', gone')
  {}

  /** More failed reads delete no fewer keys; those at later entries do not matter to earlier ones. */
  lemma MoreMisreads(m: Store, files: Files, tiers: set<Tier>, entries: seq<ExpiredEntry>, misread: set<nat>,
                     reaping: bool, i: nat)
    requires i < |entries|
    ensures CycleKeys(m, files, tiers, entries, misread, reaping, |entries|) <=
        CycleKeys(m, files, tiers, entries, misread + {i}, reaping, |entries|)
    ensures CycleKeys(m, files, tiers, entries, misread, reaping, i) ==
        CycleKeys(m, files, tiers, entries, misread + {i}, reaping, i)
    ensures CyclePaths(m, tiers, entries, misread, i) == CyclePaths(m, tiers, entries, misread + {i}, i)
  {
    hide CycleKeys, CyclePaths, EntryKeys, EntryPaths, Drops;
    forall j: nat | j < |entries| ensures Lost(entries, misread, j) ==> Lost(entries, misread + {i}, j) {}
    forall j: nat | j < i ensures Lost(entries, misread, j) <==> Lost(entries, misread + {i}, j) {}
    forall k
      ensures k in CycleKeys(m, files, tiers, entries, misread, reaping, |entries|) ==>
        k in CycleKeys(m, files, tiers, entries, misread + {i}, reaping, |entries|)
    {
      CycleKeysExact(m, files, tiers, entries, misread, reaping, |entries|, k);
      CycleKeysExact(m, files, tiers, entries, misread + {i}, reaping, |entries|, k);
    }
    forall k
      ensures k in CycleKeys(m, files, tiers, entries, misread, reaping, i) <==>
        k in CycleKeys(m, files, tiers, entries, misread + {i}, reaping, i)
    {
      CycleKeysExact(m, files, tiers, entries, misread, reaping, i, k);
      CycleKeysExact(m, files, tiers, entries, misread + {i}, reaping, i, k);
    }
    forall p
      ensures p in CyclePaths(m, tiers, entries, misread, i) <==> p in CyclePaths(m, tiers, entries, misread + {i}, i)
    {
      CyclePathsExact(m, tiers, entries, misread, i, p);
      CyclePathsExact(m, tiers, entries, misread + {i}, i, p);
    }
  }

  ghost predicate Before(misread: set<nat>, i: nat) {
    forall j :: j in misread ==> j < i
  }

  /** What a successful read shows in a cleanly swept prefix agrees with the entry's fate. */
  lemma CleanChoice(m: Store, files: Files, tiers: set<Tier>, entries: seq<ExpiredEntry>, misread: set<nat>,
                    reaping: bool, i: nat)
    requires i < |entries| && Before(misread, i)
    ensures var seen := GetBlockMeta(m - CycleKeys(m, files, tiers, entries, misread, reaping, i), entries[i].id);
      && (seen.None? || seen.value.Err? ==>
            && Falls(m, files, tiers, entries, misread, reaping, i)
            && PathsGone(m, tiers, entries, misread, i))
      && (seen.Some? && seen.value.Ok? ==> !Lost(entries, misread, i) && GetBlockMeta(m, entries[i].id) == seen)
  {
    hide CycleKeys, CyclePaths, DecodeBlockMeta, BlockKey;
    var id := entries[i].id;
    BlockKeyFalls(m, files, tiers, entries, misread, reaping, i, id);
    if BlockKey(id) in CycleKeys(m, files, tiers, entries, misread, reaping, i) {
      var j: nat :| j < i && Falls(m, files, tiers, entries, misread, reaping, j) && entries[j].id == id;
      if !Lost(entries, misread, i) {
        assert !Lost(entries, misread, j);
        forall p | p in EntryPaths(m, tiers, id)
          ensures p in CyclePaths(m, tiers, entries, misread, i)
        {
          CyclePathsExact(m, tiers, entries, misread, i, p);
        }
      }
    }
    forall j: nat | j < i && j in misread ensures Lost(entries, misread, j) {}
  }

  /** In any partly swept store, an entry whose read succeeds and finds nothing falls anyway. */
  lemma AnyChoice(m: Store, m': Store, files: Files, tiers: set<Tier>, entries: seq<ExpiredEntry>, misread: set<nat>,
                  reaping: bool, i: nat)
    requires i < |entries| && Before(misread, i)
    requires Within(m, m', CycleKeys(m, files, tiers, entries, misread, reaping, |entries|))
    ensures var seen := GetBlockMeta(m', entries[i].id);
      && (seen.None? || seen.value.Err? ==> Falls(m, files, tiers, entries, misread, reaping, i))
      && (seen.Some? ==> GetBlockMeta(m, entries[i].id) == seen)
    ensures Falls(m, files, tiers, entries, misread, reaping, i) ==>
      EntryKeys(entries[i]) <= CycleKeys(m, files, tiers, entries, misread, reaping, |entries|)
    ensures EntryPaths(m, tiers, entries[i].id) <= DroppedPaths(m, tiers, entries)
  {
    hide CycleKeys, DroppedPaths, DecodeBlockMeta, BlockKey;
    var id := entries[i].id;
    BlockKeyFalls(m, files, tiers, entries, misread, reaping, |entries|, id);
    if BlockKey(id) in CycleKeys(m, files, tiers, entries, misread, reaping, |entries|) {
      var k: nat :| k < |entries| && Falls(m, files, tiers, entries, misread, reaping, k) && entries[k].id == id;
      if Lost(entries, misread, k) {
        var j: nat :| j <= k && j in misread && entries[j].id == entries[k].id;
        assert Lost(entries, misread, i);
      }
    }
    PathsDone(m, tiers, entries, id);
    if Falls(m, files, tiers, entries, misread, reaping, i) {
      forall k | k in EntryKeys(entries[i])
        ensures k in CycleKeys(m, files, tiers, entries, misread, reaping, |entries|)
      {
        CycleKeysExact(m, files, tiers, entries, misread, reaping, |entries|, k);
      }
    }
  }

  /** A read that fails makes its entry fall. */
  lemma MisreadFalls(m: Store, files: Files, tiers: set<Tier>, entries: seq<ExpiredEntry>, misread: set<nat>,
                     reaping: bool, i: nat)
    requires i < |entries| && i in misread
    ensures Lost(entries, misread, i) && Falls(m, files, tiers, entries, misread, reaping, i)
    ensures EntryKeys(entries[i]) <= CycleKeys(m, files, tiers, entries, misread, reaping, |entries|)
  {
    hide CycleKeys;
    assert Lost(entries, misread, i);
    forall k | k in EntryKeys(entries[i])
      ensures k in CycleKeys(m, files, tiers, entries, misread, reaping, |entries|)
    {
      CycleKeysExact(m, files, tiers, entries, misread, reaping, |entries|, k);
    }
  }

  /** The paths of an entry of the block are among those of a whole cycle. */
  lemma PathsDone(m: Store, tiers: set<Tier>, done: seq<ExpiredEntry>, id: BlockID)
    requires exists e :: e in done && e.id == id
    ensures EntryPaths(m, tiers, id) <= DroppedPaths(m, tiers, done)
  {
    var e :| e in done && e.id == id;
    forall p | p in EntryPaths(m, tiers, id)
      ensures p in DroppedPaths(m, tiers, done)
    {
      DroppedPathsExact(m, tiers, done, p);
    }
  }

  /** meta.DeleteBlockAndExpiry as one synced commit. */
  method DeleteEntry(disk: Disk, e: ExpiredEntry) returns (ok: bool)
    requires disk.Valid()
    modifies disk
    ensures disk.Valid() && disk.d.files == old(disk.d).files
    ensures ok ==> disk.d.Current() == old(disk.d).Current() - EntryKeys(e) && disk.d.synced == |disk.d.log| - 1
    ensures Within(old(disk.d).Current(), disk.d.Current(), EntryKeys(e))
    ensures disk.faults == old(disk.faults) + Fault(ok)
    ensures old(disk.history) <= disk.history && forall i :: |old(disk.history)| <= i < |disk.history| ==>
      && disk.history[i].Valid() && disk.history[i].files == old(disk.d).files
      && Within(old(disk.d).Current(), disk.history[i].Current(), EntryKeys(e))
  {
    DeleteBatchEffect(disk.d.Current(), e.hour, e.id);
    ok := disk.Commit(DeleteBlockAndExpiry(e.hour, e.id), true);
  }

  /** LocalStore.Delete: the block file, then the bloom file. */
  method DeleteFiles(disk: Disk, tier: Tier, id: BlockID) returns (ok: bool)
    requires disk.Valid()
    modifies disk
    ensures disk.Valid() && disk.d.log == old(disk.d).log && disk.d.synced == old(disk.d).synced
    ensures ok ==> disk.d.files == old(disk.d).files - {BlockPath(tier, id), BloomPath(tier, id)}
    ensures Within(old(disk.d).files, disk.d.files, {BlockPath(tier, id), BloomPath(tier, id)})
    ensures disk.faults == old(disk.faults) + Fault(ok)
    ensures old(disk.history) <= disk.history && forall i :: |old(disk.history)| <= i < |disk.history| ==>
      && disk.history[i].log == old(disk.d).log && disk.history[i].synced == old(disk.d).synced
      && disk.history[i].files.Keys <= old(disk.d).files.Keys
  {
    ok := disk.Remove(BlockPath(tier, id));
    if !ok { return; }
    ok := disk.Remove(BloomPath(tier, id));
  }

  // ----- files first, then keys -----

  /** A metadata read of this block failed. */
  ghost predicate LostBlock(entries: seq<ExpiredEntry>, misread: set<nat>, id: BlockID) {
    exists j: nat :: j in misread && j < |entries| && entries[j].id == id
  }

  /** A block whose metadata are gone has none of its files left, unless a read of its metadata failed. */
  ghost predicate Unstranded(m: Store, tiers: set<Tier>, entries: seq<ExpiredEntry>, misread: set<nat>, d: Durable) {
    d.Valid() && forall id :: BlockKey(id) in m && BlockKey(id) !in d.Current() ==>
        LostBlock(entries, misread, id) || EntryPaths(m, tiers, id) !! d.files.Keys
  }

  ghost predicate AllUnstranded(m: Store, tiers: set<Tier>, entries: seq<ExpiredEntry>, misread: set<nat>,
                                history: seq<Durable>, start: nat) {
    forall i :: start <= i < |history| ==> Unstranded(m, tiers, entries, misread, history[i])
  }

  /** Deleting the keys of this block strands nothing. */
  ghost predicate MayForget(m: Store, tiers: set<Tier>, entries: seq<ExpiredEntry>, misread: set<nat>, d: Durable,
                            id: BlockID)
    requires d.Valid()
  {
    || BlockKey(id) !in m || BlockKey(id) !in d.Current()
    || LostBlock(entries, misread, id) || EntryPaths(m, tiers, id) !! d.files.Keys
  }

  lemma MoreLost(m: Store, tiers: set<Tier>, entries: seq<ExpiredEntry>, misread: set<nat>, i: nat, d: Durable,
                 history: seq<Durable>, start: nat)
    requires Unstranded(m, tiers, entries, misread, d) && AllUnstranded(m, tiers, entries, misread, history, start)
    requires i < |entries|
    ensures Unstranded(m, tiers, entries, misread + {i}, d)
    ensures AllUnstranded(m, tiers, entries, misread + {i}, history, start)
    ensures LostBlock(entries, misread + {i}, entries[i].id)
  {
    hide EntryPaths;
    forall id | LostBlock(entries, misread, id) ensures LostBlock(entries, misread + {i}, id) {
      var j: nat :| j in misread && j < |entries| && entries[j].id == id;
      assert j in misread + {i};
    }
    assert i in misread + {i};
  }

  /** Deleting the keys of an entry. */
  lemma KeysForgotten(m: Store, tiers: set<Tier>, entries: seq<ExpiredEntry>, misread: set<nat>, d: Durable,
                      e: ExpiredEntry, d': Durable, history: seq<Durable>, history': seq<Durable>, start: nat)
    requires Unstranded(m, tiers, entries, misread, d) && MayForget(m, tiers, entries, misread, d, e.id)
    requires AllUnstranded(m, tiers, entries, misread, history, start) && start <= |history|
    requires d'.Valid() && d'.files == d.files && Within(d.Current(), d'.Current(), EntryKeys(e))
    requires history <= history' && forall i :: |history| <= i < |history'| ==>
      && history'[i].Valid() && history'[i].files == d.files
      && Within(d.Current(), history'[i].Current(), EntryKeys(e))
    ensures Unstranded(m, tiers, entries, misread, d')
    ensures AllUnstranded(m, tiers, entries, misread, history', start)
  {
    hide EntryPaths, LostBlock, Within;
    OneForgotten(m, tiers, entries, misread, d, e, d');
    forall i | start <= i < |history'| ensures Unstranded(m, tiers, entries, misread, history'[i]) {
      if i >= |history| { OneForgotten(m, tiers, entries, misread, d, e, history'[i]); }
    }
  }

  lemma OneForgotten(m: Store, tiers: set<Tier>, entries: seq<ExpiredEntry>, misread: set<nat>, d: Durable,
                     e: ExpiredEntry, d': Durable)
    requires Unstranded(m, tiers, entries, misread, d) && MayForget(m, tiers, entries, misread, d, e.id)
    requires d'.Valid() && d'.files == d.files && Within(d.Current(), d'.Current(), EntryKeys(e))
    ensures Unstranded(m, tiers, entries, misread, d')
  {
    hide EntryPaths, LostBlock, EntryKeys, BlockKey;
    forall id | BlockKey(id) in m && BlockKey(id) !in d'.Current()
      ensures LostBlock(entries, misread, id) || EntryPaths(m, tiers, id) !! d'.files.Keys
    {
      BlockKeyOfEntry(e, id);
    }
  }

  /** Unlinking files. */
  lemma FilesUnlinked(m: Store, tiers: set<Tier>, entries: seq<ExpiredEntry>, misread: set<nat>, d: Durable,
                      d': Durable, history: seq<Durable>, history': seq<Durable>, start: nat)
    requires Unstranded(m, tiers, entries, misread, d) && start <= |history|
    requires AllUnstranded(m, tiers, entries, misread, history, start)
    requires d'.log == d.log && d'.synced == d.synced && d'.files.Keys <= d.files.Keys
    requires history <= history' && forall i :: |history| <= i < |history'| ==>
      && history'[i].log == d.log && history'[i].synced == d.synced && history'[i].files.Keys <= d.files.Keys
    ensures Unstranded(m, tiers, entries, misread, d')
    ensures AllUnstranded(m, tiers, entries, misread, history', start)
  {
    hide EntryPaths, LostBlock;
    forall i | start <= i < |history'| ensures Unstranded(m, tiers, entries, misread, history'[i]) {
      if i >= |history| { assert history'[i].Valid() && history'[i].Current() == d.Current(); }
    }
  }

  lemma NoneStranded(d: Durable, tiers: set<Tier>, entries: seq<ExpiredEntry>, history: seq<Durable>)
    requires d.Valid()
    ensures Unstranded(d.Current(), tiers, entries, {}, d)
    ensures AllUnstranded(d.Current(), tiers, entries, {}, history, |history|)
  {}

  lemma FewerKeys(f: Files, f': Files, gone: set<Path>)
    requires Within(f, f', gone)
    ensures f'.Keys <= f.Keys
  {}

  lemma LostForgets(m: Store, tiers: set<Tier>, entries: seq<ExpiredEntry>, misread: set<nat>, d: Durable, id: BlockID)
    requires d.Valid() && LostBlock(entries, misread, id)
    ensures MayForget(m, tiers, entries, misread, d, id)
  {}

  lemma UnlinkedForgets(m: Store, tiers: set<Tier>, entries: seq<ExpiredEntry>, misread: set<nat>, d: Durable,
                        id: BlockID)
    requires d.Valid() && EntryPaths(m, tiers, id) !! d.files.Keys
    ensures MayForget(m, tiers, entries, misread, d, id)
  {}

  lemma SeenInPart(m: Store, files: Files, tiers: set<Tier>, entries: seq<ExpiredEntry>, misread: set<nat>, d: Durable,
                   id: BlockID)
    requires d.Valid() && SweptPart(m, files, d, tiers, entries, misread, true)
    ensures var seen := GetBlockMeta(d.Current(), id);
      seen.None? || seen.value.Err? ==> MayForget(m, tiers, entries, misread, d, id)
  {
    hide Within, CycleKeys, DroppedPaths, MayForget, GetBlockMeta;
    SeenForgets(m, files, tiers, entries, misread, d, id,
      CycleKeys(m, files, tiers, entries, misread, true, |entries|));
  }

  /** What the cycle read of the block allows it to delete the keys. */
  lemma SeenForgets(m: Store, files: Files, tiers: set<Tier>, entries: seq<ExpiredEntry>, misread: set<nat>, d: Durable,
                    id: BlockID, gone: set<Bytes>)
    requires d.Valid() && Within(m, d.Current(), gone)
    ensures GetBlockMeta(d.Current(), id).None? ==> MayForget(m, tiers, entries, misread, d, id)
    ensures GetBlockMeta(d.Current(), id).Some? && GetBlockMeta(d.Current(), id).value.Err? ==>
      MayForget(m, tiers, entries, misread, d, id)
  {
    hide LostBlock, DecodeBlockMeta, BlockKey;
  }

  /** How a sweep ended; a cycle that ignored a failed best-effort delete is not clean. */
  datatype Outcome = Completed(clean: bool) | Cancelled | Failed

  /**
   * A block whose metadata reads well is dropped by the reaper, with its two files, exactly if its tier is
   * configured.
   */
  lemma ReapAny(m: Store, files: Files, tiers: set<Tier>, id: BlockID)
    ensures var bm := GetBlockMeta(m, id);
      bm.Some? && bm.value.Ok? ==>
        && (Drops(m, files, tiers, id, true) <==> bm.value.value.tier in tiers)
        && EntryPaths(m, tiers, id) == if bm.value.value.tier in tiers
            then {BlockPath(bm.value.value.tier, id), BloomPath(bm.value.value.tier, id)} else {}
  {}

  lemma JanitorAny(m: Store, files: Files, tiers: set<Tier>, id: BlockID)
    ensures var bm := GetBlockMeta(m, id);
      bm.Some? && bm.value.Ok? ==>
        (Drops(m, files, tiers, id, false) <==>
            bm.value.value.tier in tiers && BlockPath(bm.value.value.tier, id) !in files)
  {}

  /** The keys and files that are gone when the first n entries were visited without a failed delete. */
  ghost predicate SweptTo(m: Store, files: Files, d: Durable, tiers: set<Tier>, entries: seq<ExpiredEntry>,
                          misread: set<nat>, reaping: bool, n: nat)
    requires d.Valid() && n <= |entries|
  {
    && d.Current() == m - CycleKeys(m, files, tiers, entries, misread, reaping, n)
    && d.files == if reaping then files - CyclePaths(m, tiers, entries, misread, n) else files
  }

  /** However the cycle went so far. */
  ghost predicate SweptPart(m: Store, files: Files, d: Durable, tiers: set<Tier>, entries: seq<ExpiredEntry>,
                            misread: set<nat>, reaping: bool)
    requires d.Valid()
  {
    && Within(m, d.Current(), CycleKeys(m, files, tiers, entries, misread, reaping, |entries|))
    && (if reaping then Within(files, d.files, DroppedPaths(m, tiers, entries)) else d.files == files)
  }

  /** Before the first entry. */
  lemma SweptNone(d: Durable, tiers: set<Tier>, entries: seq<ExpiredEntry>, reaping: bool)
    requires d.Valid()
    ensures SweptTo(d.Current(), d.files, d, tiers, entries, {}, reaping, 0)
    ensures SweptPart(d.Current(), d.files, d, tiers, entries, {}, reaping)
  {
    WithinSame(d.Current(), CycleKeys(d.Current(), d.files, tiers, entries, {}, reaping, |entries|));
    WithinSame(d.files, DroppedPaths(d.Current(), tiers, entries));
  }

  /** A metadata read at entry i failed. */
  lemma VisitMisread(m: Store, files: Files, d: Durable, tiers: set<Tier>, entries: seq<ExpiredEntry>,
                     misread: set<nat>, reaping: bool, i: nat)
    requires d.Valid() && i < |entries| && SweptPart(m, files, d, tiers, entries, misread, reaping)
    ensures SweptPart(m, files, d, tiers, entries, misread + {i}, reaping)
    ensures SweptTo(m, files, d, tiers, entries, misread, reaping, i) ==>
      SweptTo(m, files, d, tiers, entries, misread + {i}, reaping, i)
    ensures EntryKeys(entries[i]) <= CycleKeys(m, files, tiers, entries, misread + {i}, reaping, |entries|)
    ensures Lost(entries, misread + {i}, i)
  {
    hide Lost, Falls, EntryKeys, CycleKeys, CyclePaths, Within, DroppedPaths;
    MoreMisreads(m, files, tiers, entries, misread, reaping, i);
    WithinMore(m, d.Current(), CycleKeys(m, files, tiers, entries, misread, reaping, |entries|),
               CycleKeys(m, files, tiers, entries, misread + {i}, reaping, |entries|));
    MisreadFalls(m, files, tiers, entries, misread + {i}, reaping, i);
  }

  /** Nothing is left to unlink at entry i. */
  ghost predicate PathsGone(m: Store, tiers: set<Tier>, entries: seq<ExpiredEntry>, misread: set<nat>, i: nat)
    requires i < |entries|
  {
    Lost(entries, misread, i) || EntryPaths(m, tiers, entries[i].id) <= CyclePaths(m, tiers, entries, misread, i)
  }

  /** Entry i is dropped with its keys only: its metadata was gone, unreadable or misread, or the janitor cleans up. */
  lemma VisitDropKeys(m: Store, files: Files, d: Durable, d': Durable, tiers: set<Tier>, entries: seq<ExpiredEntry>,
                      misread: set<nat>, reaping: bool, i: nat)
    requires d.Valid() && d'.Valid() && i < |entries| && SweptPart(m, files, d, tiers, entries, misread, reaping)
    requires EntryKeys(entries[i]) <= CycleKeys(m, files, tiers, entries, misread, reaping, |entries|)
    requires Within(d.Current(), d'.Current(), EntryKeys(entries[i])) && d'.files == d.files
    ensures SweptPart(m, files, d', tiers, entries, misread, reaping)
    ensures SweptTo(m, files, d, tiers, entries, misread, reaping, i)
      && d'.Current() == d.Current() - EntryKeys(entries[i])
      && Falls(m, files, tiers, entries, misread, reaping, i) && (!reaping || PathsGone(m, tiers, entries, misread, i))
      ==> SweptTo(m, files, d', tiers, entries, misread, reaping, i + 1)
  {
    hide Lost, Falls, EntryKeys, Within, DroppedPaths, EntryPaths;
    WithinStep(m, d.Current(), d'.Current(), CycleKeys(m, files, tiers, entries, misread, reaping, |entries|),
               EntryKeys(entries[i]));
  }

  /** Entry i stays. */
  lemma VisitKeep(m: Store, files: Files, d: Durable, tiers: set<Tier>, entries: seq<ExpiredEntry>, misread: set<nat>,
                  reaping: bool, i: nat)
    requires d.Valid() && i < |entries| && SweptTo(m, files, d, tiers, entries, misread, reaping, i)
    requires !Falls(m, files, tiers, entries, misread, reaping, i)
    requires (!reaping || EntryPaths(m, tiers, entries[i].id) == {})
    ensures SweptTo(m, files, d, tiers, entries, misread, reaping, i + 1)
  {
    hide EntryPaths, EntryKeys;
  }

  /** The reaper unlinks the files of entry i. */
  lemma VisitUnlink(m: Store, files: Files, d: Durable, d': Durable, tiers: set<Tier>, entries: seq<ExpiredEntry>,
                    misread: set<nat>, i: nat)
    requires d.Valid() && d'.Valid() && i < |entries| && SweptPart(m, files, d, tiers, entries, misread, true)
    requires d'.Current() == d.Current() && Within(d.files, d'.files, EntryPaths(m, tiers, entries[i].id))
    requires EntryPaths(m, tiers, entries[i].id) <= DroppedPaths(m, tiers, entries)
    ensures SweptPart(m, files, d', tiers, entries, misread, true)
  {
    hide EntryPaths, Within, CycleKeys, DroppedPaths;
    WithinStep(files, d.files, d'.files, DroppedPaths(m, tiers, entries), EntryPaths(m, tiers, entries[i].id));
  }

  /** ... and then deletes its keys. */
  lemma VisitReap(m: Store, files: Files, d: Durable, d': Durable, tiers: set<Tier>, entries: seq<ExpiredEntry>,
                  misread: set<nat>, i: nat)
    requires d.Valid() && d'.Valid() && i < |entries| && SweptTo(m, files, d, tiers, entries, misread, true, i)
    requires !Lost(entries, misread, i) && Falls(m, files, tiers, entries, misread, true, i)
    requires d'.Current() == d.Current() - EntryKeys(entries[i])
    requires d'.files == d.files - EntryPaths(m, tiers, entries[i].id)
    ensures SweptTo(m, files, d', tiers, entries, misread, true, i + 1)
  {
    hide EntryPaths, EntryKeys, Falls, Lost;
  }

  /** What a read that did not fail tells about entry i. */
  lemma VisitRead(m: Store, files: Files, d: Durable, tiers: set<Tier>, entries: seq<ExpiredEntry>, misread: set<nat>,
                  reaping: bool, i: nat)
    requires d.Valid() && i < |entries| && Before(misread, i)
    requires SweptPart(m, files, d, tiers, entries, misread, reaping)
    ensures var seen := GetBlockMeta(d.Current(), entries[i].id);
      && (seen.None? || seen.value.Err? ==>
            EntryKeys(entries[i]) <= CycleKeys(m, files, tiers, entries, misread, reaping, |entries|))
      && (seen.Some? ==> GetBlockMeta(m, entries[i].id) == seen)
      && (SweptTo(m, files, d, tiers, entries, misread, reaping, i) ==>
            && (seen.None? || seen.value.Err? ==>
                  && Falls(m, files, tiers, entries, misread, reaping, i)
                  && PathsGone(m, tiers, entries, misread, i))
            && (seen.Some? && seen.value.Ok? ==> !Lost(entries, misread, i)))
    ensures Drops(m, files, tiers, entries[i].id, reaping) ==>
      && Falls(m, files, tiers, entries, misread, reaping, i)
      && EntryKeys(entries[i]) <= CycleKeys(m, files, tiers, entries, misread, reaping, |entries|)
    ensures Falls(m, files, tiers, entries, misread, reaping, i) ==>
      Lost(entries, misread, i) || Drops(m, files, tiers, entries[i].id, reaping)
    ensures EntryPaths(m, tiers, entries[i].id) <= DroppedPaths(m, tiers, entries)
  {
    hide Lost, EntryKeys, CycleKeys, CyclePaths, Within, DroppedPaths, EntryPaths, Drops, GetBlockMeta;
    CleanChoice(m, files, tiers, entries, misread, reaping, i);
    AnyChoice(m, d.Current(), files, tiers, entries, misread, reaping, i);
  }

  /**
   * Reaper.RunOnce; misread lists the entries whose metadata read failed. A clean completed cycle, from any
   * store and any files, leaves exactly the store without the keys of the entries that fall and the files
   * without theirs. A cycle that was cancelled or failed has deleted some of these keys, some of the files of
   * due blocks, and nothing else. No more reads failed than faults happened, and a cycle in which nothing failed
   * and whose context was never cancelled is complete and clean. In every state in which power could be lost, a
   * block whose keys the cycle deleted has lost its files before, unless its metadata could not be read.
   */
  method ReaperRunOnce(disk: Disk, tiers: set<Tier>, nowHour: uint64, cancelled: nat -> bool)
    returns (r: Outcome, ghost misread: set<nat>)
    requires disk.Valid()
    modifies disk
    ensures disk.Valid()
    ensures var (m, files) := (old(disk.d).Current(), old(disk.d).files);
      && SweptPart(m, files, disk.d, tiers, Expired(m, nowHour), misread, true)
      && (r == Completed(true) ==>
            SweptTo(m, files, disk.d, tiers, Expired(m, nowHour), misread, true, |Expired(m, nowHour)|))
    ensures old(disk.faults) + |misread| <= disk.faults
    ensures disk.faults == old(disk.faults) && (forall k :: !cancelled(k)) ==> r == Completed(true) && misread == {}
    ensures AllUnstranded(old(disk.d).Current(), tiers, Expired(old(disk.d).Current(), nowHour), misread, disk.history,
        |old(disk.history)|)
  {
    hide Drops, EntryKeys, EntryPaths, DroppedPaths, Expired, Within, GetBlockMeta, Lost, Falls, CycleKeys, CyclePaths,
         SweptTo, SweptPart, Unstranded, AllUnstranded, LostBlock, MayForget;
    ghost var m, files, start := disk.d.Current(), disk.d.files, |disk.history|;
    misread := {};
    var scan := ScanExpiredEntries(disk, nowHour);
    SweptNone(disk.d, tiers, Expired(m, nowHour), true);
    NoneStranded(disk.d, tiers, Expired(m, nowHour), disk.history);
    if scan.Err? { return Failed, misread; }
    var expired := scan.value;
    var clean := true;
    for i := 0 to |expired|
      invariant disk.Valid() && Before(misread, i) && SweptPart(m, files, disk.d, tiers, expired, misread, true)
      invariant clean ==> SweptTo(m, files, disk.d, tiers, expired, misread, true, i)
      invariant Unstranded(m, tiers, expired, misread, disk.d) && start <= |disk.history|
      invariant AllUnstranded(m, tiers, expired, misread, disk.history, start)
      invariant old(disk.faults) + |misread| + Fault(clean) <= disk.faults
    {
      if cancelled(2 * i) { return Cancelled, misread; }
      var entry := expired[i];
      ghost var d, past := disk.d, disk.history;
      var bm, failed := ReadBlockMeta(disk, entry.id);
      if failed {
        VisitMisread(m, files, d, tiers, expired, misread, true, i);
        MoreLost(m, tiers, expired, misread, i, d, past, start);
        misread := misread + {i};
        MisreadFalls(m, files, tiers, expired, misread, true, i);
      } else {
        VisitRead(m, files, d, tiers, expired, misread, true, i);
        ReapAny(m, files, tiers, entry.id);
        SeenInPart(m, files, tiers, expired, misread, d, entry.id);
      }
      if bm.None? || bm.value.Err? {
        assert MayForget(m, tiers, expired, misread, d, entry.id) by {
          if failed { LostForgets(m, tiers, expired, misread, d, entry.id); }
        }
        var ok := DeleteEntry(disk, entry);
        KeysForgotten(m, tiers, expired, misread, d, entry, disk.d, past, disk.history, start);
        VisitDropKeys(m, files, d, disk.d, tiers, expired, misread, true, i);
        if !ok { clean := false; }
        continue;
      }
      if bm.value.value.tier !in tiers {
        if clean { VisitKeep(m, files, d, tiers, expired, misread, true, i); }
        continue;
      }
      var removed := DeleteFiles(disk, bm.value.value.tier, entry.id);
      VisitUnlink(m, files, d, disk.d, tiers, expired, misread, i);
      FewerKeys(d.files, disk.d.files, EntryPaths(m, tiers, entry.id));
      FilesUnlinked(m, tiers, expired, misread, d, disk.d, past, disk.history, start);
      if !removed { return Failed, misread; }
      ghost var d1, past1 := disk.d, disk.history;
      assert MayForget(m, tiers, expired, misread, d1, entry.id) by {
        UnlinkedForgets(m, tiers, expired, misread, d1, entry.id);
      }
      var deleted := DeleteEntry(disk, entry);
      KeysForgotten(m, tiers, expired, misread, d1, entry, disk.d, past1, disk.history, start);
      VisitDropKeys(m, files, d1, disk.d, tiers, expired, misread, true, i);
      if !deleted { return Failed, misread; }
      if clean { VisitReap(m, files, d, disk.d, tiers, expired, misread, i); }
      if cancelled(2 * i + 1) { return Cancelled, misread; }
    }
    r := Completed(clean);
  }

  /**
   * Janitor.RunOnce. A clean completed sweep removes the keys of exactly the entries that fall. However it ends,
   * it deleted nothing else and touched no file.
   */
  method JanitorRunOnce(disk: Disk, tiers: set<Tier>, nowHour: uint64, cancelled: nat -> bool)
    returns (r: Outcome, ghost misread: set<nat>)
    requires disk.Valid()
    modifies disk
    ensures disk.Valid()
    ensures var (m, files) := (old(disk.d).Current(), old(disk.d).files);
      && SweptPart(m, files, disk.d, tiers, Expired(m, nowHour), misread, false)
      && (r == Completed(true) ==>
            SweptTo(m, files, disk.d, tiers, Expired(m, nowHour), misread, false, |Expired(m, nowHour)|))
    ensures old(disk.faults) + |misread| <= disk.faults
    ensures disk.faults == old(disk.faults) && (forall k :: !cancelled(k)) ==> r == Completed(true) && misread == {}
  {
    hide Drops, EntryKeys, EntryPaths, DroppedPaths, Expired, Within, GetBlockMeta, Lost, Falls, CycleKeys, CyclePaths,
         SweptTo, SweptPart;
    ghost var m, files := disk.d.Current(), disk.d.files;
    misread := {};
    var scan := ScanExpiredEntries(disk, nowHour);
    SweptNone(disk.d, tiers, Expired(m, nowHour), false);
    if scan.Err? { return Failed, misread; }
    var entries := scan.value;
    var clean := true;
    for i := 0 to |entries|
      invariant disk.Valid() && disk.d.files == files
      invariant Before(misread, i) && SweptPart(m, files, disk.d, tiers, entries, misread, false)
      invariant clean ==> SweptTo(m, files, disk.d, tiers, entries, misread, false, i)
      invariant old(disk.faults) + |misread| + Fault(clean) <= disk.faults
    {
      if cancelled(i) { return Cancelled, misread; }
      var entry := entries[i];
      ghost var d := disk.d;
      var bm, failed := ReadBlockMeta(disk, entry.id);
      if failed {
        VisitMisread(m, files, d, tiers, entries, misread, false, i);
        misread := misread + {i};
        MisreadFalls(m, files, tiers, entries, misread, false, i);
      } else {
        VisitRead(m, files, d, tiers, entries, misread, false, i);
        JanitorAny(m, files, tiers, entry.id);
      }
      if bm.None? || bm.value.Err? {
        var ok := DeleteEntry(disk, entry);
        VisitDropKeys(m, files, d, disk.d, tiers, entries, misread, false, i);
        if !ok { clean := false; }
        continue;
      }
      if bm.value.value.tier !in tiers {
        if clean { VisitKeep(m, files, d, tiers, entries, misread, false, i); }
        continue;
      }
      var known := disk.Attempt();
      if !known { return Failed, misread; }
      if BlockPath(bm.value.value.tier, entry.id) in disk.d.files {
        if clean { VisitKeep(m, files, d, tiers, entries, misread, false, i); }
        continue;
      }
      var deleted := DeleteEntry(disk, entry);
      VisitDropKeys(m, files, d, disk.d, tiers, entries, misread, false, i);
      if !deleted { return Failed, misread; }
    }
    r := Completed(clean);
  }

  // ----- what a clean cycle leaves, key by key -----

  /** The block has an expiry key of an hour up to now. */
  ghost predicate IsDue(m: Store, now: uint64, id: BlockID) {
    exists h: uint64 :: h <= now && ExpiryKey(h, id) in m
  }

  /** A block a cycle drops: it has no readable metadata, or a configured tier and, for the janitor, no block file. */
  ghost predicate Droppable(m: Store, files: Files, tiers: set<Tier>, reaping: bool, id: BlockID) {
    BlockKey(id) in m ==>
      var bm := DecodeBlockMeta(m[BlockKey(id)]);
      bm.Err? || (bm.value.tier in tiers && (reaping || BlockPath(bm.value.tier, id) !in files))
  }

  /**
   * A clean cycle without failed reads deletes the metadata of the due blocks it drops and their due expiry keys, and
   * the reaper the files that the metadata name. Blocks that are not due, or of a tier that is not configured, keep
   * all of theirs.
   */
  lemma CleanCycleExact(m: Store, files: Files, d: Durable, tiers: set<Tier>, now: uint64, reaping: bool, id: BlockID,
                        h: uint64, tier: Tier)
    requires d.Valid() && now < TWO64 - 1
    requires SweptTo(m, files, d, tiers, Expired(m, now), {}, reaping, |Expired(m, now)|)
    ensures var drop := Droppable(m, files, tiers, reaping, id);
      && (BlockKey(id) in d.Current() <==> BlockKey(id) in m && !(IsDue(m, now, id) && drop))
      && (ExpiryKey(h, id) in d.Current() <==> ExpiryKey(h, id) in m && !(h <= now && drop))
    ensures var unlink := reaping && IsDue(m, now, id) && tier in tiers && BlockKey(id) in m
        && DecodeBlockMeta(m[BlockKey(id)]).Ok? && DecodeBlockMeta(m[BlockKey(id)]).value.tier == tier;
      && (BlockPath(tier, id) in d.files <==> BlockPath(tier, id) in files && !unlink)
      && (BloomPath(tier, id) in d.files <==> BloomPath(tier, id) in files && !unlink)
  {
    hide CycleKeys, CyclePaths, DroppedKeys, DroppedPaths, Expired, ExpiryKey, BlockKey, DecodeBlockMeta;
    var entries := Expired(m, now);
    CleanReads(m, files, tiers, entries, reaping);
    ExpiredExact(m, now);
    BlockKeyDropped(m, files, tiers, entries, reaping, id);
    ExpiryKeyDropped(m, files, tiers, entries, reaping, h, id);
    DueMeans(m, now, id);
    PathsDropped(m, tiers, entries, id, tier);
    assert Drops(m, files, tiers, id, reaping) <==> Droppable(m, files, tiers, reaping, id);
  }

  lemma DueMeans(m: Store, now: uint64, id: BlockID)
    requires now < TWO64 - 1
    ensures IsDue(m, now, id) <==> exists e :: e in Expired(m, now) && e.id == id
    ensures forall h: uint64 :: ExpiredEntry(id, h) in Expired(m, now) <==> h <= now && ExpiryKey(h, id) in m
  {
    hide Expired, ExpiryKey;
    ExpiredExact(m, now);
    if h: uint64 :| h <= now && ExpiryKey(h, id) in m { assert ExpiredEntry(id, h) in Expired(m, now); }
  }

  lemma ExpiryKeyDropped(m: Store, files: Files, tiers: set<Tier>, entries: seq<ExpiredEntry>, reaping: bool, h: uint64,
                         id: BlockID)
    ensures ExpiryKey(h, id) in DroppedKeys(m, files, tiers, entries, reaping) <==>
      Drops(m, files, tiers, id, reaping) && ExpiredEntry(id, h) in entries
  {
    hide Drops, DroppedKeys;
    DroppedKeysExact(m, files, tiers, entries, reaping, ExpiryKey(h, id));
    forall e: ExpiredEntry ensures ExpiryKey(h, id) in EntryKeys(e) <==> e == ExpiredEntry(id, h) {
      EncodeInjective(Expiry(h, id), Block(e.id));
      EncodeInjective(Expiry(h, id), Expiry(e.hour, e.id));
    }
  }

  lemma PathsDropped(m: Store, tiers: set<Tier>, entries: seq<ExpiredEntry>, id: BlockID, tier: Tier)
    ensures var unlink := (exists e :: e in entries && e.id == id) && GetBlockMeta(m, id).Some?
        && GetBlockMeta(m, id).value.Ok? && GetBlockMeta(m, id).value.value.tier == tier && tier in tiers;
      && (BlockPath(tier, id) in DroppedPaths(m, tiers, entries) <==> unlink)
      && (BloomPath(tier, id) in DroppedPaths(m, tiers, entries) <==> unlink)
  {
    hide GetBlockMeta, DroppedPaths;
    DroppedPathsExact(m, tiers, entries, BlockPath(tier, id));
    DroppedPathsExact(m, tiers, entries, BloomPath(tier, id));
  }
}
