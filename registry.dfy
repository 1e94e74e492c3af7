/** The device registry: an ordered key/value store (Badger in the current
    code, Pebble in the earlier one) whose keys are the 8-byte little-endian
    encodings of IEEE addresses and whose values are gob-encoded device
    records. The store is a map; the order it iterates in is the byte order
    of the keys. */
module Registry {
  import opened Common
  import opened LittleEndian

  /** time.Time values are opaque instants here. */
  type Time = nat

  /** The stored record: the seven node fields the gateway saves. */
  datatype Device = Device(
    ieeeAddress: U64,
    networkAddress: U16,
    logicalType: U8,
    lqi: U8,
    depth: U8,
    lastDiscovered: Time,
    lastReceived: Time)

  /** Go's zero value `Device{}`. */
  const ZeroDevice: Device := Device(0, 0, 0, 0, 0, 0, 0)

  /** What a key holds: a record that gob decodes, or bytes it rejects. */
  datatype Stored = Encoded(device: Device) | Undecodable

  datatype Error = NotFound | DecodeError

  /** The outcome of GetDevices: the list, or nil together with an error. */
  datatype DeviceList = Listed(devices: seq<Device>) | Failed

  type Store = map<Key, Stored>

  /** Every record sits under the key of its own address; SaveDevice keeps this. */
  ghost predicate Valid(store: Store)
  {
    forall k :: k in store && store[k].Encoded? ==> PutUint64(store[k].device.ieeeAddress) == k
  }

  // ---------------------------------------------------------------------
  // Byte order of keys (bytes.Compare), the iteration order of the store.

  /** Lexicographic order on byte strings. */
  predicate KeyLess(a: seq<U8>, b: seq<U8>)
  {
    if a == [] then b != []
    else b != [] && (a[0] < b[0] || (a[0] == b[0] && KeyLess(a[1..], b[1..])))
  }

  lemma {:induction false} KeyLessIrreflexive(a: seq<U8>)
    ensures !KeyLess(a, a)
  {
    if a != [] {
      KeyLessIrreflexive(a[1..]);
    }
  }

  lemma {:induction false} KeyLessTransitive(a: seq<U8>, b: seq<U8>, c: seq<U8>)
    requires KeyLess(a, b) && KeyLess(b, c)
    ensures KeyLess(a, c)
  {
    if a != [] && a[0] == b[0] && b[0] == c[0] {
      KeyLessTransitive(a[1..], b[1..], c[1..]);
    }
  }

  lemma KeyLessAsymmetric(a: seq<U8>, b: seq<U8>)
    requires KeyLess(a, b)
    ensures !KeyLess(b, a)
  {
    if KeyLess(b, a) {
      KeyLessTransitive(a, b, a);
      KeyLessIrreflexive(a);
    }
  }

  /** Two distinct keys of equal length are always ordered one way or the other. */
  lemma {:induction false} KeyLessTotal(a: seq<U8>, b: seq<U8>)
    requires |a| == |b| && a != b
    ensures KeyLess(a, b) || KeyLess(b, a)
  {
    if a[0] == b[0] {
      assert a == [a[0]] + a[1..] && b == [b[0]] + b[1..];
      KeyLessTotal(a[1..], b[1..]);
    }
  }

  /** k is the first key of s in byte order. */
  predicate IsLeast(k: Key, s: set<Key>)
  {
    k in s && forall j :: j in s && j != k ==> KeyLess(k, j)
  }

  lemma {:induction false} LeastExists(s: set<Key>)
    requires s != {}
    ensures exists k :: IsLeast(k, s)
    decreases |s|
  {
    var x: Key :| x in s;
    var rest := s - {x};
    if rest == {} {
      assert s == {x};
      assert IsLeast(x, s);
    } else {
      LeastExists(rest);
      var y: Key :| IsLeast(y, rest);
      KeyLessTotal(x, y);
      if KeyLess(x, y) {
        forall j | j in s && j != x
          ensures KeyLess(x, j)
        {
          if j != y {
            KeyLessTransitive(x, y, j);
          }
        }
        assert IsLeast(x, s);
      } else {
        assert IsLeast(y, s);
      }
    }
  }

  lemma LeastUnique(k1: Key, k2: Key, s: set<Key>)
    requires IsLeast(k1, s) && IsLeast(k2, s)
    ensures k1 == k2
  {
    if k1 != k2 {
      KeyLessAsymmetric(k1, k2);
    }
  }

  /** The least key of a non-empty set. */
  ghost function Least(s: set<Key>): (k: Key)
    requires s != {}
    ensures IsLeast(k, s)
  {
    LeastExists(s);
    var k: Key :| IsLeast(k, s);
    k
  }

  /** The keys of s in the order the store's iterator visits them. */
  ghost function SortedKeys(s: set<Key>): (r: seq<Key>)
    decreases |s|
  {
    if s == {} then [] else [Least(s)] + SortedKeys(s - {Least(s)})
  }

  lemma {:induction false} SortedKeysSpec(s: set<Key>)
    ensures |SortedKeys(s)| == |s|
    ensures forall k :: k in SortedKeys(s) <==> k in s
    ensures forall i, j :: 0 <= i < j < |SortedKeys(s)| ==> KeyLess(SortedKeys(s)[i], SortedKeys(s)[j])
    decreases |s|
  {
    if s != {} {
      SortedKeysSpec(s - {Least(s)});
    }
  }

  /** The iterator starts at the least key and continues with the rest. */
  lemma SortedKeysFirst(s: set<Key>, k: Key)
    requires IsLeast(k, s)
    ensures SortedKeys(s) == [k] + SortedKeys(s - {k})
  {
    LeastUnique(k, Least(s), s);
  }

  // ---------------------------------------------------------------------
  // The operations, as functions of the store.

  /** SaveDevice: an upsert under the encoded address. */
  function Saved(store: Store, d: Device): Store
  {
    store[PutUint64(d.ieeeAddress) := Encoded(d)]
  }

  /** DeleteDevice: removes the key, whether or not it was there. */
  function Deleted(store: Store, address: U64): Store
  {
    store - {PutUint64(address)}
  }

  /** GetDevice: gob decodes into a zero Device, so a found record comes back
      as stored; a missing key or undecodable bytes give Device{} and an error. */
  function Lookup(store: Store, address: U64): (r: (Device, Option<Error>))
    ensures r.1 == None <==> (PutUint64(address) in store && store[PutUint64(address)].Encoded?)
    ensures r.1 == None ==> r.0 == store[PutUint64(address)].device
    ensures r.1 != None ==> r.0 == ZeroDevice
    ensures PutUint64(address) !in store ==> r.1 == Some(NotFound)
  {
    var key := PutUint64(address);
    if key !in store then (ZeroDevice, Some(NotFound))
    else match store[key]
      case Undecodable => (ZeroDevice, Some(DecodeError))
      case Encoded(d) => (d, None)
  }

  /** GetDevices presets IEEEAddress from the key and then gob decodes over it;
      gob leaves zero-valued fields out of the stream, so the key's address
      survives exactly when the stored address is 0. */
  function ListedDevice(key: Key, d: Device): (r: Device)
    ensures d.ieeeAddress != 0 ==> r == d
    ensures r.ieeeAddress == 0 <==> d.ieeeAddress == 0 && Uint64(key) == 0
  {
    if d.ieeeAddress == 0 then d.(ieeeAddress := Uint64(key)) else d
  }

  /** Visiting keys in order: the first undecodable value aborts with nil. */
  function Collect(store: Store, keys: seq<Key>): (r: DeviceList)
    requires forall k :: k in keys ==> k in store
  {
    if keys == [] then Listed([])
    else
      var last := keys[|keys| - 1];
      match Collect(store, keys[..|keys| - 1])
      case Failed => Failed
      case Listed(ds) =>
        match store[last]
        case Undecodable => Failed
        case Encoded(d) => Listed(ds + [ListedDevice(last, d)])
  }

  /** The walk fails exactly when some visited value does not decode, and
      otherwise yields one device per key, in key order. */
  lemma {:induction false} CollectSpec(store: Store, keys: seq<Key>)
    requires forall k :: k in keys ==> k in store
    ensures Collect(store, keys).Failed? <==> exists i :: 0 <= i < |keys| && store[keys[i]].Undecodable?
    ensures Collect(store, keys).Listed? ==> |Collect(store, keys).devices| == |keys|
    ensures Collect(store, keys).Listed? ==> forall i :: 0 <= i < |keys| ==>
      Collect(store, keys).devices[i] == ListedDevice(keys[i], store[keys[i]].device)
  {
    if keys != [] {
      var init := keys[..|keys| - 1];
      assert forall k :: k in init ==> k in keys;
      CollectSpec(store, init);
      assert forall i :: 0 <= i < |init| ==> init[i] == keys[i];
    }
  }

  /** Visiting one more key. */
  lemma CollectSnoc(store: Store, xs: seq<Key>, k: Key)
    requires forall j :: j in xs ==> j in store
    requires k in store
    ensures Collect(store, xs + [k]) == match Collect(store, xs)
      case Failed => Failed
      case Listed(ds) => (match store[k]
        case Undecodable => Failed
        case Encoded(d) => Listed(ds + [ListedDevice(k, d)]))
  {
    assert (xs + [k])[..|xs|] == xs;
  }

  /** Once the walk has failed, visiting more keys cannot undo it. */
  lemma {:induction false} CollectFailedSticks(store: Store, xs: seq<Key>, ys: seq<Key>)
    requires forall k :: k in xs + ys ==> k in store
    requires Collect(store, xs) == Failed
    ensures Collect(store, xs + ys) == Failed
  {
    assert forall k :: k in xs ==> k in xs + ys;
    CollectSpec(store, xs);
    var i :| 0 <= i < |xs| && store[xs[i]].Undecodable?;
    assert (xs + ys)[i] == xs[i];
    CollectSpec(store, xs + ys);
  }

  /** The result of GetDevices for a given store. */
  ghost function ListingOf(store: Store): DeviceList
  {
    SortedKeysSpec(store.Keys);
    Collect(store, SortedKeys(store.Keys))
  }

  // ---------------------------------------------------------------------
  // The store as an object.

  class DeviceDB {
    var store: Store

    /** NewDeviceDB over whatever is on disk. */
    constructor Open(onDisk: Store)
      ensures store == onDisk
    {
      store := onDisk;
    }

    method SaveDevice(d: Device)
      modifies this
      ensures store == Saved(old(store), d)
    {
      var key := PutUint64(d.ieeeAddress);
      store := store[key := Encoded(d)];
    }

    method DeleteDevice(address: U64)
      modifies this
      ensures store == Deleted(old(store), address)
    {
      var key := PutUint64(address);
      store := store - {key};
    }

    method GetDevice(address: U64) returns (d: Device, err: Option<Error>)
      ensures (d, err) == Lookup(store, address)
    {
      var key := PutUint64(address);
      if key !in store {
        return ZeroDevice, Some(NotFound);
      }
      match store[key]
      case Undecodable =>
        return ZeroDevice, Some(DecodeError);
      case Encoded(v) =>
        return v, None;
    }

    /** Iterates from the first key in byte order, appending each decoded record. */
    method GetDevices() returns (r: DeviceList)
      ensures r == ListingOf(store)
    {
      var s := store;
      var todo := s.Keys;
      ghost var visited: seq<Key> := [];
      var ret: seq<Device> := [];
      while todo != {}
        invariant todo <= s.Keys
        invariant forall j :: j in visited ==> j in s
        invariant visited + SortedKeys(todo) == SortedKeys(s.Keys)
        invariant Collect(s, visited) == Listed(ret)
        decreases |todo|
      {
        LeastExists(todo);
        var k: Key :| IsLeast(k, todo);
        VisitLeast(s, visited, todo, k);
        if s[k].Undecodable? {
          return Failed;
        }
        ret := ret + [ListedDevice(k, s[k].device)];
        visited := visited + [k];
        todo := todo - {k};
      }
      assert SortedKeys(todo) == [];
      assert visited == SortedKeys(s.Keys);
      return Listed(ret);
    }
  }

  /** One round of GetDevices: visiting the least remaining key either fails
      the whole listing or extends the prefix walked so far. */
  lemma VisitLeast(s: Store, visited: seq<Key>, todo: set<Key>, k: Key)
    requires todo <= s.Keys
    requires forall j :: j in visited ==> j in s
    requires visited + SortedKeys(todo) == SortedKeys(s.Keys)
    requires Collect(s, visited).Listed?
    requires IsLeast(k, todo)
    ensures visited + [k] + SortedKeys(todo - {k}) == SortedKeys(s.Keys)
    ensures s[k].Undecodable? ==> ListingOf(s) == Failed
    ensures s[k].Encoded? ==>
      Collect(s, visited + [k]) == Listed(Collect(s, visited).devices + [ListedDevice(k, s[k].device)])
  {
    SortedKeysFirst(todo, k);
    var rest := SortedKeys(todo - {k});
    assert visited + SortedKeys(todo) == (visited + [k]) + rest;
    VisitedInStore(s, visited + [k], rest);
    CollectSnoc(s, visited, k);
    if s[k].Undecodable? {
      CollectFailedSticks(s, visited + [k], rest);
    }
  }

  lemma VisitedInStore(s: Store, xs: seq<Key>, ys: seq<Key>)
    requires xs + ys == SortedKeys(s.Keys)
    ensures forall j :: j in xs + ys ==> j in s
    ensures forall j :: j in xs ==> j in s
  {
    SortedKeysSpec(s.Keys);
    assert forall j :: j in xs ==> j in xs + ys;
  }

  // ---------------------------------------------------------------------
  // Properties.

  /** Saving keeps every record under the key of its own address. */
  lemma SavePreservesValid(store: Store, d: Device)
    requires Valid(store)
    ensures Valid(Saved(store, d))
  {
  }

  /** Under that invariant the key preset in GetDevices never shows through. */
  lemma ListedDeviceOfValid(key: Key, d: Device)
    requires PutUint64(d.ieeeAddress) == key
    ensures ListedDevice(key, d) == d
  {
    if d.ieeeAddress == 0 {
      KeyRoundTrip(0);
    }
  }

  /** Saving twice for one address leaves the second record, and nothing else changes. */
  lemma SaveIsUpsert(store: Store, d1: Device, d2: Device)
    requires d1.ieeeAddress == d2.ieeeAddress
    ensures Saved(Saved(store, d1), d2) == Saved(store, d2)
    ensures |Saved(Saved(store, d1), d2).Keys| == |store.Keys| + (if PutUint64(d1.ieeeAddress) in store then 0 else 1)
  {
  }

  /** GetDevice after SaveDevice returns the saved record. */
  lemma LookupAfterSave(store: Store, d: Device)
    ensures Lookup(Saved(store, d), d.ieeeAddress) == (d, None)
  {
  }

  /** Saving one address leaves every other address as it was. */
  lemma SaveKeepsOthers(store: Store, d: Device, other: U64)
    requires other != d.ieeeAddress
    ensures Lookup(Saved(store, d), other) == Lookup(store, other)
  {
    if PutUint64(other) == PutUint64(d.ieeeAddress) {
      PutUint64Injective(other, d.ieeeAddress);
    }
  }

  /** DeleteDevice removes exactly that address; an absent one changes nothing. */
  lemma DeleteRemovesOnly(store: Store, address: U64, other: U64)
    ensures Lookup(Deleted(store, address), address) == (ZeroDevice, Some(NotFound))
    ensures other != address ==> Lookup(Deleted(store, address), other) == Lookup(store, other)
    ensures PutUint64(address) !in store ==> Deleted(store, address) == store
    ensures PutUint64(address) in store ==> |Deleted(store, address).Keys| == |store.Keys| - 1
  {
    if other != address && PutUint64(other) == PutUint64(address) {
      PutUint64Injective(other, address);
    }
  }

  /** GetDevices fails, returning no partial list, exactly when some stored
      value does not decode. */
  lemma ListingFailsIff(store: Store)
    ensures ListingOf(store).Failed? <==> exists k :: k in store && store[k].Undecodable?
  {
    var keys := SortedKeys(store.Keys);
    SortedKeysSpec(store.Keys);
    CollectSpec(store, keys);
    if exists k :: k in store && store[k].Undecodable? {
      var k :| k in store && store[k].Undecodable?;
      assert k in keys;
      var i :| 0 <= i < |keys| && keys[i] == k;
    }
  }

  /** On a valid store the i-th listed device is the record under the i-th key. */
  lemma ListingEntries(store: Store)
    requires Valid(store)
    requires ListingOf(store).Listed?
    ensures |ListingOf(store).devices| == |SortedKeys(store.Keys)|
    ensures forall i :: 0 <= i < |ListingOf(store).devices| ==>
      var d := ListingOf(store).devices[i];
      PutUint64(d.ieeeAddress) == SortedKeys(store.Keys)[i] &&
      PutUint64(d.ieeeAddress) in store && store[PutUint64(d.ieeeAddress)] == Encoded(d)
  {
    var keys := SortedKeys(store.Keys);
    SortedKeysSpec(store.Keys);
    CollectSpec(store, keys);
    ListingFailsIff(store);
    var ds := ListingOf(store).devices;
    forall i | 0 <= i < |ds|
      ensures PutUint64(ds[i].ieeeAddress) == keys[i] && store[keys[i]] == Encoded(ds[i])
    {
      assert keys[i] in store;
      ListedDeviceOfValid(keys[i], store[keys[i]].device);
    }
  }

  /** GetDevices on a valid store lists every record exactly once, in byte
      order of the keys. */
  lemma ListingOfValid(store: Store)
    requires Valid(store)
    requires ListingOf(store).Listed?
    ensures |ListingOf(store).devices| == |store|
    ensures forall i :: 0 <= i < |ListingOf(store).devices| ==>
      var d := ListingOf(store).devices[i];
      PutUint64(d.ieeeAddress) in store && store[PutUint64(d.ieeeAddress)] == Encoded(d)
    ensures forall k :: k in store ==>
      exists i :: 0 <= i < |ListingOf(store).devices| && PutUint64(ListingOf(store).devices[i].ieeeAddress) == k
    ensures forall i, j :: 0 <= i < j < |ListingOf(store).devices| ==>
      KeyLess(PutUint64(ListingOf(store).devices[i].ieeeAddress), PutUint64(ListingOf(store).devices[j].ieeeAddress))
  {
    var keys := SortedKeys(store.Keys);
    var ds := ListingOf(store).devices;
    SortedKeysSpec(store.Keys);
    ListingEntries(store);
    forall k | k in store
      ensures exists i :: 0 <= i < |ds| && PutUint64(ds[i].ieeeAddress) == k
    {
      assert k in keys;
      var i :| 0 <= i < |keys| && keys[i] == k;
      assert PutUint64(ds[i].ieeeAddress) == k;
    }
  }

  // ---------------------------------------------------------------------
  // The scenario of the registry tests.

  const FirstTestDevice: Device := Device(12345, 7890, 67, 33, 1, 0, 0)
  const SecondTestDevice: Device := Device(99999, 8888, 67, 33, 1, 0, 0)

  lemma TestKeys()
    ensures PutUint64(12345) == [0x39, 0x30, 0, 0, 0, 0, 0, 0]
    ensures PutUint64(99999) == [0x9F, 0x86, 0x01, 0, 0, 0, 0, 0]
  {
  }

  /** The store after saving the two test devices, keys in byte order. */
  lemma TestSortedKeys()
    ensures Saved(Saved(map[], FirstTestDevice), SecondTestDevice)
      == map[PutUint64(12345) := Encoded(FirstTestDevice), PutUint64(99999) := Encoded(SecondTestDevice)]
    ensures SortedKeys(Saved(Saved(map[], FirstTestDevice), SecondTestDevice).Keys)
      == [PutUint64(12345), PutUint64(99999)]
  {
    TestKeys();
    var k1, k2 := PutUint64(12345), PutUint64(99999);
    var store := Saved(Saved(map[], FirstTestDevice), SecondTestDevice);
    assert store.Keys == {k1, k2};
    var r := SortedKeys(store.Keys);
    SortedKeysSpec(store.Keys);
    assert KeyLess(k1, k2);
    assert |r| == 2 && r[0] in store.Keys && r[1] in store.Keys;
    if r[0] == k2 {
      KeyLessAsymmetric(k1, k2);
    }
  }

  /** Two saves list 12345 before 99999. */
  lemma TestListingOrder()
    ensures ListingOf(Saved(Saved(map[], FirstTestDevice), SecondTestDevice))
      == Listed([FirstTestDevice, SecondTestDevice])
  {
    TestSortedKeys();
    var k1, k2 := PutUint64(12345), PutUint64(99999);
    var store := Saved(Saved(map[], FirstTestDevice), SecondTestDevice);
    CollectSnoc(store, [], k1);
    assert [] + [k1] == [k1];
    CollectSnoc(store, [k1], k2);
    assert [k1] + [k2] == [k1, k2];
  }

  /** A store holding one decodable record lists just that record. */
  lemma ListingSingle(k: Key, d: Device)
    ensures ListingOf(map[k := Encoded(d)]) == Listed([ListedDevice(k, d)])
  {
    var store := map[k := Encoded(d)];
    assert store.Keys == {k};
    assert IsLeast(k, {k});
    SortedKeysFirst({k}, k);
    assert {k} - {k} == {};
    CollectSnoc(store, [], k);
    assert [] + [k] == [k];
  }

  /** Deleting 12345 afterwards leaves one device. */
  lemma TestDeleteLeavesOne()
    ensures ListingOf(Deleted(Saved(Saved(map[], FirstTestDevice), SecondTestDevice), 12345))
      == Listed([SecondTestDevice])
  {
    TestSortedKeys();
    TestKeys();
    var k2 := PutUint64(99999);
    assert Deleted(Saved(Saved(map[], FirstTestDevice), SecondTestDevice), 12345)
      == map[k2 := Encoded(SecondTestDevice)];
    ListingSingle(k2, SecondTestDevice);
  }

  /** Byte order of little-endian keys is not numeric order: 256 lists before 1. */
  lemma KeyOrderIsNotNumeric()
    ensures KeyLess(PutUint64(256), PutUint64(1))
  {
    assert PutUint64(256) == [0, 1, 0, 0, 0, 0, 0, 0];
    assert PutUint64(1) == [1, 0, 0, 0, 0, 0, 0, 0];
  }
}
