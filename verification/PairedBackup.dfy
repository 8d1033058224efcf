/** Capturing managed asset objects into a snapshot and restoring them from it. */
module PairedBackup {
  import opened Json
  import opened Sequences

  type Bytes = seq<bv8>
  type Provider = string

  const MAX_ENTRIES := 200000

  /** Identifies an object; an empty bucket stands for an absent one. */
  datatype Ref = Ref(provider: Provider, bucket: string, key: string)

  datatype Rendition = Rendition(kind: string, ref: Ref, mimeType: string, size: nat, checksum: Option<string>)

  /** `gone`: the lifecycle says deleted, or says when the stored object was deleted. */
  datatype Asset = Asset(
    id: string, campaignId: string, mimeType: string, size: nat, checksum: Option<string>, storage: Option<Ref>,
    gone: bool, renditions: seq<Rendition>)

  datatype Part = Primary | RenditionOf(kind: string)

  datatype StoredObject = StoredObject(
    asset: Asset, part: Part, ref: Ref, mimeType: string, size: nat, checksum: Option<string>, expected: bool)

  /** `path` numbers the captured file. */
  datatype Captured = Captured(path: nat, size: nat, checksum: string)

  datatype Entry = Entry(
    assetId: string, campaignId: string, part: Part, ref: Ref, mimeType: string, recordedSize: nat,
    recordedChecksum: Option<string>, captured: Option<Captured>)

  datatype Manifest = Manifest(
    createdAt: int, provider: Provider, assetCount: nat, storedCount: nat, totalSize: nat, inventory: string,
      entries: seq<Entry>)

  /** What is on the backup volume: a manifest and numbered files. */
  datatype Snapshot = Snapshot(manifest: Manifest, files: map<nat, Bytes>)

  datatype Identity = Identity(provider: Provider, snapshotId: string, createdAt: int)

  datatype Problem = TooManyEntries | ObjectMissing | SizeMismatch | ChecksumMismatch | WrongProvider | WrongIdentity
    | FileMissing | FileDamaged | WrongTotals | WrongInventory | RecordMissing | PutFailed | RefChanged | ReadBackFailed
    | ProviderUnreachable | DeleteFailed

  datatype Result<+T> = Ok(value: T) | Failed(why: Problem)

  /** Digests, and what is computed elsewhere from asset metadata. */
  datatype Functions = Functions(
    checksum: Bytes -> string,
    wellFormed: string -> bool,
    snapshotId: Manifest -> string,
    inventory: (seq<Asset>, Provider) -> string,
    defaultKey: Asset -> string)

  // ----- The objects of the assets -----

  predicate AssetOrder(a: Asset, b: Asset) {
    if a.campaignId == b.campaignId then Leq(a.id, b.id) else Leq(a.campaignId, b.campaignId)
  }

  predicate KindOrder(a: Rendition, b: Rendition) { Leq(a.kind, b.kind) }

  function PrimaryObject(a: Asset, provider: Provider, fns: Functions): StoredObject {
    var primary := if a.storage.Some? then a.storage.value else Ref(provider, "", fns.defaultKey(a));
    StoredObject(a, Primary, primary, a.mimeType, a.size, a.checksum, !a.gone && a.storage.Some?)
  }

  function RenditionObject(a: Asset): Rendition -> StoredObject {
    (r: Rendition) => StoredObject(a, RenditionOf(r.kind), r.ref, r.mimeType, r.size, r.checksum, !a.gone)
  }

  function ObjectsOf(a: Asset, provider: Provider, fns: Functions): seq<StoredObject> {
    [PrimaryObject(a, provider, fns)] + Map(SortBy(a.renditions, KindOrder), RenditionObject(a))
  }

  function AllObjects(assets: seq<Asset>, provider: Provider, fns: Functions): seq<StoredObject> {
    if assets == [] then [] else ObjectsOf(assets[0], provider, fns) + AllObjects(assets[1..], provider, fns)
  }

  function SnapshotObjects(assets: seq<Asset>, provider: Provider, fns: Functions): seq<StoredObject> {
    AllObjects(SortBy(assets, AssetOrder), provider, fns)
  }

  /** The object of an asset itself: where the asset says, or else under its default key. */
  ghost predicate IsPrimary(a: Asset, provider: Provider, fns: Functions, o: StoredObject) {
    && o.asset == a && o.part == Primary && o.mimeType == a.mimeType && o.size == a.size && o.checksum == a.checksum
    && (match a.storage case Some(ref) => o.ref == ref case None => o.ref == Ref(provider, "", fns.defaultKey(a)))
    && (o.expected <==> a.storage.Some? && !a.gone)
  }

  ghost predicate IsRendition(a: Asset, r: Rendition, o: StoredObject) {
    && o.asset == a && o.part == RenditionOf(r.kind) && o.ref == r.ref && o.mimeType == r.mimeType
    && o.size == r.size && o.checksum == r.checksum && (o.expected <==> !a.gone)
  }

  ghost predicate IsObjectOf(a: Asset, provider: Provider, fns: Functions, o: StoredObject) {
    IsPrimary(a, provider, fns, o) || exists r <- a.renditions :: IsRendition(a, r, o)
  }

  lemma ObjectsOfAre(a: Asset, provider: Provider, fns: Functions, o: StoredObject)
    ensures o in ObjectsOf(a, provider, fns) <==> IsObjectOf(a, provider, fns, o)
  {
    var sorted := SortBy(a.renditions, KindOrder);
    MapMembers(sorted, RenditionObject(a), o);
    forall r ensures r in sorted <==> r in a.renditions { SortByMembers(a.renditions, KindOrder, r); }
    forall r ensures IsRendition(a, r, o) <==> RenditionObject(a)(r) == o {}
    assert IsPrimary(a, provider, fns, o) <==> PrimaryObject(a, provider, fns) == o;
  }

  lemma {:induction false} AllObjectsAre(assets: seq<Asset>, provider: Provider, fns: Functions, o: StoredObject)
    ensures o in AllObjects(assets, provider, fns) <==> exists a <- assets :: IsObjectOf(a, provider, fns, o)
  {
    if assets != [] {
      ObjectsOfAre(assets[0], provider, fns, o);
      AllObjectsAre(assets[1..], provider, fns, o);
      assert assets == [assets[0]] + assets[1..];
    }
  }

  /** The objects a snapshot is about are those of the assets and of all their renditions. */
  lemma SnapshotObjectsAre(assets: seq<Asset>, provider: Provider, fns: Functions, o: StoredObject)
    ensures o in SnapshotObjects(assets, provider, fns) <==> exists a <- assets :: IsObjectOf(a, provider, fns, o)
  {
    AllObjectsAre(SortBy(assets, AssetOrder), provider, fns, o);
    forall a ensures a in SortBy(assets, AssetOrder) <==> a in assets { SortByMembers(assets, AssetOrder, a); }
  }

  /** By campaign, then by asset; of an asset first the object itself, then its renditions by kind. */
  ghost predicate InOrder(o: StoredObject, p: StoredObject) {
    if o.asset.campaignId != p.asset.campaignId then Less(o.asset.campaignId, p.asset.campaignId)
    else if o.asset.id != p.asset.id then Less(o.asset.id, p.asset.id)
    else
      && p.part.RenditionOf?
      && (o.part.RenditionOf? ==> o.part.kind == p.part.kind || Less(o.part.kind, p.part.kind))
  }

  ghost predicate AllInOrder(os: seq<StoredObject>) { forall i, j :: 0 <= i < j < |os| ==> InOrder(os[i], os[j]) }

  ghost predicate UniqueAssets(assets: seq<Asset>) {
    forall i, j :: 0 <= i < j < |assets| ==> AssetKey(assets[i]) != AssetKey(assets[j])
  }

  function AssetKey(a: Asset): (string, string) { (a.campaignId, a.id) }

  lemma KindsSorted(rs: seq<Rendition>)
    ensures SortedBy(SortBy(rs, KindOrder), KindOrder)
  {
    forall a, b ensures KindOrder(a, b) || KindOrder(b, a) { LeqTotal(a.kind, b.kind); }
    forall a, b, c | KindOrder(a, b) && KindOrder(b, c) ensures KindOrder(a, c) {
      LeqTransitive(a.kind, b.kind, c.kind);
    }
    SortBySorts(rs, KindOrder);
  }

  lemma AssetsSorted(assets: seq<Asset>)
    ensures SortedBy(SortBy(assets, AssetOrder), AssetOrder)
  {
    forall a, b ensures AssetOrder(a, b) || AssetOrder(b, a) {
      LeqTotal(a.campaignId, b.campaignId);
      LeqTotal(a.id, b.id);
    }
    forall a, b, c | AssetOrder(a, b) && AssetOrder(b, c) ensures AssetOrder(a, c) {
      LeqTotal(a.campaignId, b.campaignId);
      if a.campaignId == b.campaignId == c.campaignId {
        LeqTransitive(a.id, b.id, c.id);
      } else if a.campaignId != b.campaignId && b.campaignId != c.campaignId {
        LeqTransitive(a.campaignId, b.campaignId, c.campaignId);
      }
    }
    SortBySorts(assets, AssetOrder);
  }

  lemma ObjectsOfInOrder(a: Asset, provider: Provider, fns: Functions)
    ensures AllInOrder(ObjectsOf(a, provider, fns)) && forall o <- ObjectsOf(a, provider, fns) :: o.asset == a
  {
    var sorted, os := SortBy(a.renditions, KindOrder), ObjectsOf(a, provider, fns);
    KindsSorted(a.renditions);
    forall i, j | 0 <= i < j < |os| ensures InOrder(os[i], os[j]) {
      if i > 0 {
        assert KindOrder(sorted[i - 1], sorted[j - 1]);
        LeqIsLexicographic(sorted[i - 1].kind, sorted[j - 1].kind);
      }
    }
  }

  lemma AssetsApart(o: StoredObject, p: StoredObject)
    requires AssetOrder(o.asset, p.asset) && AssetKey(o.asset) != AssetKey(p.asset)
    ensures InOrder(o, p)
  {
    LeqIsLexicographic(o.asset.campaignId, p.asset.campaignId);
    LeqIsLexicographic(o.asset.id, p.asset.id);
  }

  lemma AppendInOrder(xs: seq<StoredObject>, ys: seq<StoredObject>)
    requires AllInOrder(xs) && AllInOrder(ys) && forall x <- xs, y <- ys :: InOrder(x, y)
    ensures AllInOrder(xs + ys)
  {
    forall i, j | 0 <= i < j < |xs + ys| ensures InOrder((xs + ys)[i], (xs + ys)[j]) {
      if i < |xs| <= j { assert xs[i] in xs && ys[j - |xs|] in ys; }
    }
  }

  lemma {:induction false} AllObjectsInOrder(assets: seq<Asset>, provider: Provider, fns: Functions)
    requires SortedBy(assets, AssetOrder) && UniqueAssets(assets)
    ensures AllInOrder(AllObjects(assets, provider, fns))
    ensures forall o <- AllObjects(assets, provider, fns) :: o.asset in assets
  {
    if assets != [] {
      var first, rest := ObjectsOf(assets[0], provider, fns), AllObjects(assets[1..], provider, fns);
      ObjectsOfInOrder(assets[0], provider, fns);
      AllObjectsInOrder(assets[1..], provider, fns);
      forall o <- first, p <- rest ensures InOrder(o, p) {
        var k :| 1 <= k < |assets| && assets[k] == p.asset;
        AssetsApart(o, p);
      }
      AppendInOrder(first, rest);
    }
  }

  /** A snapshot lists every object once, in an order that does not depend on that of the assets. */
  lemma SnapshotInOrder(assets: seq<Asset>, provider: Provider, fns: Functions)
    requires UniqueAssets(assets)
    ensures AllInOrder(SnapshotObjects(assets, provider, fns))
  {
    var sorted := SortBy(assets, AssetOrder);
    AssetsSorted(assets);
    CountKeys(assets, AssetKey);
    CountKeys(sorted, AssetKey);
    assert KeysOf(sorted, AssetKey) == KeysOf(assets, AssetKey) by {
      forall i | 0 <= i < |sorted| ensures AssetKey(sorted[i]) in KeysOf(assets, AssetKey) {
        SortByMembers(assets, AssetOrder, sorted[i]);
        var j :| 0 <= j < |assets| && assets[j] == sorted[i];
      }
      forall j | 0 <= j < |assets| ensures AssetKey(assets[j]) in KeysOf(sorted, AssetKey) {
        SortByMembers(assets, AssetOrder, assets[j]);
        var i :| 0 <= i < |sorted| && sorted[i] == assets[j];
      }
    }
    assert DistinctBy(assets, AssetKey);
    assert UniqueAssets(sorted);
    AllObjectsInOrder(sorted, provider, fns);
  }

  /** The refs under which the asset and its renditions are stored. */
  ghost predicate StoredUnder(a: Asset, ref: Ref) {
    a.storage == Some(ref) || exists r <- a.renditions :: r.ref == ref
  }

  lemma StoredUnderIs(assets: seq<Asset>, a: Asset, ref: Ref, provider: Provider, fns: Functions)
    returns (o: StoredObject)
    requires a in assets && StoredUnder(a, ref)
    ensures o in SnapshotObjects(assets, provider, fns) && o.ref == ref && o.asset == a
    ensures (o.expected <==> !a.gone) && !(o.part == Primary && o.asset.storage.None?)
  {
    if a.storage == Some(ref) {
      o := StoredObject(a, Primary, ref, a.mimeType, a.size, a.checksum, !a.gone);
      assert IsPrimary(a, provider, fns, o);
    } else {
      var r :| r in a.renditions && r.ref == ref;
      o := StoredObject(a, RenditionOf(r.kind), r.ref, r.mimeType, r.size, r.checksum, !a.gone);
      assert IsRendition(a, r, o);
    }
    SnapshotObjectsAre(assets, provider, fns, o);
  }

  // ----- Storage -----

  /** The stores of all providers together. An operation may fail; a failing put or delete may
      have had its effect or not, and a put may choose another place. */
  class ObjectStores {
    var objects: map<Ref, Bytes>
    const reachable: set<Provider>

    constructor (objects: map<Ref, Bytes>, reachable: set<Provider>)
      ensures this.objects == objects && this.reachable == reachable
    {
      this.objects, this.reachable := objects, reachable;
    }

    method Read(ref: Ref) returns (body: Option<Bytes>)
      ensures body == if ref in objects then Some(objects[ref]) else None
    {
      body := if ref in objects then Some(objects[ref]) else None;
    }

    method Put(ref: Ref, body: Bytes, elsewhere: Ref, written: bool, fails: bool) returns (at: Option<Ref>)
      modifies this`objects
      ensures at.None? <==> fails
      ensures objects == (if written || !fails then old(objects)[elsewhere := body] else old(objects))
      ensures at.Some? ==> at.value == elsewhere
    {
      if written || !fails { objects := objects[elsewhere := body]; }
      at := if fails then None else Some(elsewhere);
    }

    method Delete(ref: Ref, done: bool, fails: bool) returns (ok: bool)
      modifies this`objects
      ensures ok == !fails
      ensures objects == (if done || !fails then old(objects) - {ref} else old(objects))
    {
      if done || !fails { objects := objects - {ref}; }
      ok := !fails;
    }
  }

  /** How the stores behave in one restore: where each put goes and which operations fail. */
  datatype Behaviour = Behaviour(
    place: (nat, Ref) -> Ref, putFails: nat -> bool, putWritten: nat -> bool, deleteFails: nat -> bool,
      deleteDone: nat -> bool)

  // ----- Capturing -----

  function BaseEntry(o: StoredObject): Entry {
    Entry(o.asset.id, o.asset.campaignId, o.part, o.ref, o.mimeType, o.size, o.checksum, None)
  }

  /** An entry describes an object, and a captured entry's file holds the stored bytes. */
  ghost predicate Captures(e: Entry, o: StoredObject, files: map<nat, Bytes>, objects: map<Ref, Bytes>, fns: Functions)
  {
    && e.(captured := None) == BaseEntry(o) && (e.captured.Some? <==> o.expected)
    && (e.captured.Some? ==>
          && e.captured.value.path in files && o.ref in objects && files[e.captured.value.path] == objects[o.ref]
          && e.captured.value.size == |objects[o.ref]| == o.size
            && e.captured.value.checksum == fns.checksum(objects[o.ref]))
  }

  function StoredCount(entries: seq<Entry>): nat {
    if entries == [] then 0
    else StoredCount(entries[..|entries| - 1]) + if entries[|entries| - 1].captured.Some? then 1 else 0
  }

  function StoredSize(entries: seq<Entry>): nat {
    if entries == [] then 0
    else StoredSize(entries[..|entries| - 1]) + if entries[|entries| - 1].captured.Some? then
      entries[|entries| - 1].captured.value.size else 0
  }

  /** The object is there, with the size and, if it is a proper one, the checksum recorded for it. */
  ghost predicate Capturable(o: StoredObject, objects: map<Ref, Bytes>, reachable: set<Provider>, fns: Functions) {
    && o.ref.provider in reachable && o.ref in objects && |objects[o.ref]| == o.size
    && (o.checksum.Some? && fns.wellFormed(o.checksum.value) ==> o.checksum.value == fns.checksum(objects[o.ref]))
  }

  /** Reads one object and checks it against its metadata. */
  method CaptureObject(o: StoredObject, stores: ObjectStores, fns: Functions) returns (r: Result<Bytes>)
    ensures r.Ok? <==> Capturable(o, stores.objects, stores.reachable, fns)
    ensures r.Ok? ==> o.ref in stores.objects && r.value == stores.objects[o.ref] && |r.value| == o.size
    ensures r.Ok? && o.checksum.Some? && fns.wellFormed(o.checksum.value) ==> o.checksum.value == fns.checksum(r.value)
  {
    if o.ref.provider !in stores.reachable { return Failed(ProviderUnreachable); }
    var body := stores.Read(o.ref);
    if body.None? { return Failed(ObjectMissing); }
    if |body.value| != o.size { return Failed(SizeMismatch); }
    if o.checksum.Some? && fns.wellFormed(o.checksum.value) && o.checksum.value != fns.checksum(body.value) {
      return Failed(ChecksumMismatch);
    }
    r := Ok(body.value);
  }

  ghost predicate AllCaptured(entries: seq<Entry>, os: seq<StoredObject>, files: map<nat, Bytes>,
    objects: map<Ref, Bytes>, fns: Functions)
  {
    |entries| == |os| && forall i :: 0 <= i < |entries| ==> Captures(entries[i], os[i], files, objects, fns)
  }

  /** Captures one object as file `n`. */
  method CaptureEntry(o: StoredObject, n: nat, files0: map<nat, Bytes>, stores: ObjectStores, fns: Functions)
    returns (r: Result<(Entry, map<nat, Bytes>)>)
    requires n !in files0
    ensures r.Ok? <==> (o.expected ==> Capturable(o, stores.objects, stores.reachable, fns))
    ensures r.Ok? ==> Captures(r.value.0, o, r.value.1, stores.objects, fns) && FilesGrow(files0, r.value.1, n)
  {
    var entry := BaseEntry(o);
    if !o.expected { return Ok((entry, files0)); }
    var body := CaptureObject(o, stores, fns);
    if body.Failed? { return Failed(body.why); }
    r := Ok((entry.(captured := Some(Captured(n, |body.value|, fns.checksum(body.value)))), files0[n := body.value]));
  }

  ghost predicate FilesGrow(before: map<nat, Bytes>, after: map<nat, Bytes>, n: nat) {
    (forall p :: p in before ==> p in after && after[p] == before[p])
      && (forall p :: p in after ==> p in before || p == n)
  }

  lemma CapturedOneMore(
    entries: seq<Entry>, entry: Entry, os: seq<StoredObject>, n: nat, before: map<nat, Bytes>, after: map<nat, Bytes>,
    objects: map<Ref, Bytes>, fns: Functions)
    requires n < |os| && AllCaptured(entries, os[..n], before, objects, fns)
      && Captures(entry, os[n], after, objects, fns)
    requires FilesGrow(before, after, n)
    ensures AllCaptured(entries + [entry], os[..n + 1], after, objects, fns)
  {
    var more, first := entries + [entry], os[..n + 1];
    forall i | 0 <= i < |more| ensures Captures(more[i], first[i], after, objects, fns) {
      if i < n { assert Captures(entries[i], os[..n][i], before, objects, fns); }
    }
  }

  lemma TotalsOneMore(entries: seq<Entry>, entry: Entry)
    ensures StoredCount(entries + [entry]) == StoredCount(entries) + if entry.captured.Some? then 1 else 0
    ensures StoredSize(entries + [entry]) == StoredSize(entries) + if entry.captured.Some? then
      entry.captured.value.size else 0
  {
    assert (entries + [entry])[..|entries|] == entries;
  }

  method CaptureAll(os: seq<StoredObject>, stores: ObjectStores, fns: Functions)
    returns (r: Result<(seq<Entry>, map<nat, Bytes>)>, stored: nat, size: nat)
    ensures r.Ok? <==> forall o <- os :: o.expected ==> Capturable(o, stores.objects, stores.reachable, fns)
    ensures r.Ok? ==> AllCaptured(r.value.0, os, r.value.1, stores.objects, fns)
    ensures r.Ok? ==> stored == StoredCount(r.value.0) && size == StoredSize(r.value.0)
  {
    var entries: seq<Entry>, files: map<nat, Bytes> := [], map[];
    stored, size := 0, 0;
    for n := 0 to |os|
      invariant forall i :: 0 <= i < n && os[i].expected ==> Capturable(os[i], stores.objects, stores.reachable, fns)
      invariant AllCaptured(entries, os[..n], files, stores.objects, fns)
      invariant forall p :: p in files ==> p < n
      invariant stored == StoredCount(entries) && size == StoredSize(entries)
    {
      var step := CaptureEntry(os[n], n, files, stores, fns);
      if step.Failed? { return Failed(step.why), 0, 0; }
      CapturedOneMore(entries, step.value.0, os, n, files, step.value.1, stores.objects, fns);
      TotalsOneMore(entries, step.value.0);
      if step.value.0.captured.Some? { stored, size := stored + 1, size + step.value.0.captured.value.size; }
      entries, files := entries + [step.value.0], step.value.1;
    }
    assert os[..|os|] == os;
    r := Ok((entries, files));
  }

  method CreateSnapshot(assets: seq<Asset>, provider: Provider, stores: ObjectStores, createdAt: int, fns: Functions)
    returns (r: Result<(Identity, Snapshot)>)
    ensures r.Ok? <==>
      && |SnapshotObjects(assets, provider, fns)| <= 200000
      && forall o <- SnapshotObjects(assets, provider, fns) :: o.expected ==>
           Capturable(o, stores.objects, stores.reachable, fns)
    ensures r.Ok? ==> Sound(r.value.1, fns) && Names(r.value.0, r.value.1.manifest, fns)
    ensures r.Ok? ==> r.value.0.provider == provider && r.value.1.manifest.inventory == fns.inventory(assets, provider)
    ensures r.Ok?
      ==> AllCaptured(r.value.1.manifest.entries, SnapshotObjects(assets, provider, fns), r.value.1.files,
        stores.objects, fns)
  {
    var os := SnapshotObjects(assets, provider, fns);
    if |os| > MAX_ENTRIES { return Failed(TooManyEntries); }
    var captured, stored, size := CaptureAll(os, stores, fns);
    if captured.Failed? { return Failed(captured.why); }
    var (entries, files) := captured.value;
    CapturedIsSound(entries, os, files, stores.objects, fns);
    var m := Manifest(createdAt, provider, |assets|, stored, size, fns.inventory(assets, provider), entries);
    r := Ok((Identity(provider, fns.snapshotId(m), createdAt), Snapshot(m, files)));
  }

  lemma CapturedIsSound(entries: seq<Entry>, os: seq<StoredObject>, files: map<nat, Bytes>, objects: map<Ref, Bytes>,
    fns: Functions)
    requires AllCaptured(entries, os, files, objects, fns)
    ensures forall i :: 0 <= i < |entries| ==> FileFits(entries[i], files, fns)
  {
    forall i | 0 <= i < |entries| ensures FileFits(entries[i], files, fns) {
      assert Captures(entries[i], os[i], files, objects, fns);
    }
  }

  // ----- Verifying -----

  predicate FileFits(e: Entry, files: map<nat, Bytes>, fns: Functions) {
    e.captured.Some? ==>
      && e.captured.value.path in files
      && |files[e.captured.value.path]| == e.captured.value.size
      && fns.checksum(files[e.captured.value.path]) == e.captured.value.checksum
  }

  /** The files are those the manifest describes, and its totals are theirs. */
  predicate Sound(s: Snapshot, fns: Functions) {
    && (forall i :: 0 <= i < |s.manifest.entries| ==> FileFits(s.manifest.entries[i], s.files, fns))
    && s.manifest.storedCount == StoredCount(s.manifest.entries)
      && s.manifest.totalSize == StoredSize(s.manifest.entries)
  }

  predicate Names(id: Identity, m: Manifest, fns: Functions) {
    id.snapshotId == fns.snapshotId(m) && id.provider == m.provider && id.createdAt == m.createdAt
  }

  method VerifySnapshot(id: Identity, s: Snapshot, fns: Functions) returns (r: Result<Manifest>)
    ensures r.Ok? <==>
      && Sound(s, fns) && id.snapshotId == fns.snapshotId(s.manifest)
      && id.provider == s.manifest.provider && id.createdAt == s.manifest.createdAt
    ensures r.Ok? ==> r.value == s.manifest
  {
    var m := s.manifest;
    if !Names(id, m, fns) { return Failed(WrongIdentity); }
    var stored: nat, size: nat := 0, 0;
    for n := 0 to |m.entries|
      invariant forall i :: 0 <= i < n ==> FileFits(m.entries[i], s.files, fns)
      invariant stored == StoredCount(m.entries[..n]) && size == StoredSize(m.entries[..n])
    {
      assert m.entries[..n + 1][..n] == m.entries[..n];
      var e := m.entries[n];
      if e.captured.Some? {
        var c := e.captured.value;
        if c.path !in s.files { return Failed(FileMissing); }
        if |s.files[c.path]| != c.size || fns.checksum(s.files[c.path]) != c.checksum { return Failed(FileDamaged); }
        stored, size := stored + 1, size + |s.files[c.path]|;
      }
    }
    assert m.entries[..|m.entries|] == m.entries;
    if stored != m.storedCount || size != m.totalSize { return Failed(WrongTotals); }
    r := Ok(m);
  }

  // ----- Restoring -----

  /** The asset an id stands for; of several, the last. */
  function AssetById(assets: seq<Asset>, id: string): Option<Asset> {
    if assets == [] then None
    else if assets[|assets| - 1].id == id then Some(assets[|assets| - 1])
    else AssetById(assets[..|assets| - 1], id)
  }

  /** The refs of the first captured entries. */
  predicate Retained(entries: seq<Entry>, ref: Ref) {
    exists i :: 0 <= i < |entries| && entries[i].captured.Some? && entries[i].ref == ref
  }

  /** Entries that share a ref captured the same bytes. */
  ghost predicate SharedAgree(s: Snapshot) {
    forall i, j :: 0 <= i < |s.manifest.entries| && 0 <= j < |s.manifest.entries|
      ==> Agree(s.manifest.entries[i], s.manifest.entries[j], s.files)
  }

  ghost predicate Agree(e: Entry, f: Entry, files: map<nat, Bytes>) {
    e.captured.Some? && f.captured.Some? && e.ref == f.ref && e.captured.value.path in files
      && f.captured.value.path in files
    ==> files[e.captured.value.path] == files[f.captured.value.path]
  }

  /** Every entry captured so far is stored byte for byte. */
  ghost predicate Reproduced(entries: seq<Entry>, files: map<nat, Bytes>, objects: map<Ref, Bytes>) {
    forall i :: 0 <= i < |entries| ==> Stored(entries[i], files, objects)
  }

  ghost predicate Stored(e: Entry, files: map<nat, Bytes>, objects: map<Ref, Bytes>) {
    e.captured.Some? ==>
      e.captured.value.path in files && e.ref in objects && objects[e.ref] == files[e.captured.value.path]
  }

  /** Nothing changes but at the given places. */
  ghost predicate OnlyAt(before: map<Ref, Bytes>, after: map<Ref, Bytes>, places: iset<Ref>) {
    forall ref :: ref !in places
      ==> (ref in before <==> ref in after) && (ref in before && ref in after ==> before[ref] == after[ref])
  }

  /** A snapshot holds the same bytes wherever its entries share a ref. */
  lemma CapturedAgree(s: Snapshot, os: seq<StoredObject>, objects: map<Ref, Bytes>, fns: Functions)
    requires AllCaptured(s.manifest.entries, os, s.files, objects, fns)
    ensures SharedAgree(s)
  {
    var es := s.manifest.entries;
    forall i, j | 0 <= i < |es| && 0 <= j < |es| ensures Agree(es[i], es[j], s.files) {
      assert Captures(es[i], os[i], s.files, objects, fns) && Captures(es[j], os[j], s.files, objects, fns);
      assert es[i].ref == es[i].(captured := None).ref && es[j].ref == es[j].(captured := None).ref;
    }
  }

  /** Verification accepts a snapshot whose entries for one ref captured different bytes, as they
      may when the source changes between the two reads. */
  lemma DisagreeingIsSound(fns: Functions) returns (s: Snapshot)
    ensures Sound(s, fns) && !SharedAgree(s)
  {
    var ref := Ref("local", "", "key");
    var first := Entry("a", "camp", Primary, ref, "", 1, None, Some(Captured(0, 1, fns.checksum([0]))));
    var second := Entry("b", "camp", Primary, ref, "", 1, None, Some(Captured(1, 1, fns.checksum([1]))));
    var entries := [first, second];
    s := Snapshot(Manifest(0, "local", 2, 2, 2, "", entries), map[0 := [0], 1 := [1]]);
    assert entries[..1] == [first] && [first][..0] == [];
    assert StoredCount([]) == 0 && StoredCount([first]) == 1 && StoredCount(entries) == 2;
    assert StoredSize([]) == 0 && StoredSize([first]) == 1 && StoredSize(entries) == 2;
    assert !Agree(entries[0], entries[1], s.files);
  }

  /** The entry's asset is still of its campaign. */
  ghost predicate HasRecord(assets: seq<Asset>, e: Entry) {
    exists k :: 0 <= k < |assets| && assets[k].id == e.assetId && assets[k].campaignId == e.campaignId
      && forall j :: k < j < |assets| ==> assets[j].id != e.assetId
  }

  lemma {:induction false} AssetByIdIs(assets: seq<Asset>, e: Entry)
    ensures HasRecord(assets, e) <==>
      var a := AssetById(assets, e.assetId); a.Some? && a.value.campaignId == e.campaignId
  {
    if assets != [] {
      var q := assets[..|assets| - 1];
      if assets[|assets| - 1].id == e.assetId {
        assert assets[|assets| - 1].campaignId == e.campaignId ==> HasRecord(assets, e);
      } else {
        AssetByIdIs(q, e);
        if HasRecord(q, e) {
          var k :| 0 <= k < |q| && q[k].id == e.assetId && q[k].campaignId == e.campaignId
            && forall j :: k < j < |q| ==> q[j].id != e.assetId;
          assert assets[k].id == e.assetId;
          forall j | k < j < |assets| ensures assets[j].id != e.assetId { assert j < |q| ==> q[j] == assets[j]; }
        }
        if HasRecord(assets, e) {
          var k :| 0 <= k < |assets| && assets[k].id == e.assetId && assets[k].campaignId == e.campaignId
            && forall j :: k < j < |assets| ==> assets[j].id != e.assetId;
          assert q[k].id == e.assetId;
          forall j | k < j < |q| ensures q[j].id != e.assetId { assert q[j] == assets[j]; }
        }
      }
    }
  }

  /** The `n`-th put goes through, to where it should. */
  ghost predicate GoesThrough(e: Entry, n: nat, assets: seq<Asset>, reachable: set<Provider>, behaviour: Behaviour) {
    HasRecord(assets, e) && e.ref.provider in reachable && !behaviour.putFails(n) && behaviour.place(n, e.ref) == e.ref
  }

  /** Puts one captured object back and reads it again. */
  method RestoreEntry(e: Entry, n: nat, assets: seq<Asset>, files: map<nat, Bytes>, stores: ObjectStores,
    behaviour: Behaviour, fns: Functions)
    returns (r: Result<()>)
    requires e.captured.Some? && FileFits(e, files, fns)
    modifies stores`objects
    ensures r.Ok? <==> GoesThrough(e, n, assets, stores.reachable, behaviour)
    ensures r.Ok? ==> stores.objects == old(stores.objects)[e.ref := files[e.captured.value.path]]
    ensures r.Failed? ==>
      || stores.objects == old(stores.objects)
      || stores.objects == old(stores.objects)[behaviour.place(n, e.ref) := files[e.captured.value.path]]
  {
    AssetByIdIs(assets, e);
    var asset := AssetById(assets, e.assetId);
    if asset.None? || asset.value.campaignId != e.campaignId { return Failed(RecordMissing); }
    if e.ref.provider !in stores.reachable { return Failed(ProviderUnreachable); }
    var body := files[e.captured.value.path];
    var at := stores.Put(e.ref, body, behaviour.place(n, e.ref), behaviour.putWritten(n), behaviour.putFails(n));
    if at.None? { return Failed(PutFailed); }
    if at.value != e.ref { return Failed(RefChanged); }
    var back := stores.Read(e.ref);
    if back.None? || |back.value| != e.captured.value.size || fns.checksum(back.value) != e.captured.value.checksum {
      return Failed(ReadBackFailed);
    }
    r := Ok(());
  }

  /** The last captured entry for a ref. */
  function LastFor(entries: seq<Entry>, ref: Ref): (e: Option<Entry>)
    ensures e.Some? <==> Retained(entries, ref)
    ensures e.Some? ==> e.value in entries && e.value.captured.Some? && e.value.ref == ref
  {
    if entries == [] then None
    else
      var e := entries[|entries| - 1];
      if e.captured.Some? && e.ref == ref then
        assert Retained(entries, ref);
        Some(e)
      else
        LastFor(entries[..|entries| - 1], ref)
  }

  /** Every retained ref holds the bytes of its last entry. */
  ghost predicate LastStored(entries: seq<Entry>, files: map<nat, Bytes>, objects: map<Ref, Bytes>) {
    forall ref :: LastFor(entries, ref).Some? ==> Stored(LastFor(entries, ref).value, files, objects)
  }

  lemma LastStoredOneMore(entries: seq<Entry>, n: nat, files: map<nat, Bytes>, before: map<Ref, Bytes>,
    after: map<Ref, Bytes>)
    requires n < |entries| && LastStored(entries[..n], files, before)
    requires
      if entries[n].captured.Some? then
        entries[n].captured.value.path in files
          && after == before[entries[n].ref := files[entries[n].captured.value.path]]
      else after == before
    ensures LastStored(entries[..n + 1], files, after)
  {
    var first := entries[..n + 1];
    assert first[..n] == entries[..n];
    forall ref | LastFor(first, ref).Some? ensures Stored(LastFor(first, ref).value, files, after) {
      if !(first[n].captured.Some? && first[n].ref == ref) {
        assert LastFor(first, ref) == LastFor(entries[..n], ref);
      }
    }
  }

  /** Then every captured object is reproduced exactly when entries that share a ref agree. */
  lemma ReproducedIff(s: Snapshot, objects: map<Ref, Bytes>, fns: Functions)
    requires Sound(s, fns) && LastStored(s.manifest.entries, s.files, objects)
    ensures Reproduced(s.manifest.entries, s.files, objects) <==> SharedAgree(s)
  {
    var entries := s.manifest.entries;
    if SharedAgree(s) {
      forall i | 0 <= i < |entries| ensures Stored(entries[i], s.files, objects) {
        if entries[i].captured.Some? {
          assert Retained(entries, entries[i].ref) && FileFits(entries[i], s.files, fns);
          var last := LastFor(entries, entries[i].ref).value;
          var j :| 0 <= j < |entries| && entries[j] == last;
          assert Agree(entries[i], entries[j], s.files);
        }
      }
    }
    if Reproduced(entries, s.files, objects) {
      forall i, j | 0 <= i < |entries| && 0 <= j < |entries| ensures Agree(entries[i], entries[j], s.files) {
        assert Stored(entries[i], s.files, objects) && Stored(entries[j], s.files, objects);
      }
    }
  }

  ghost predicate AllGoThrough(entries: seq<Entry>, assets: seq<Asset>, reachable: set<Provider>, behaviour: Behaviour)
  {
    forall n: nat :: n < |entries| && entries[n].captured.Some? ==>
      GoesThrough(entries[n], n, assets, reachable, behaviour)
  }

  /** Writes every captured object back; of several for one ref, the last stays. */
  method PutBack(s: Snapshot, assets: seq<Asset>, stores: ObjectStores, behaviour: Behaviour, fns: Functions)
    returns (r: Result<()>)
    requires Sound(s, fns)
    modifies stores`objects
    ensures r.Ok? <==> AllGoThrough(s.manifest.entries, assets, stores.reachable, behaviour)
    ensures r.Ok? ==> LastStored(s.manifest.entries, s.files, stores.objects)
    ensures r.Ok? ==> (Reproduced(s.manifest.entries, s.files, stores.objects) <==> SharedAgree(s))
    ensures r.Ok? ==> OnlyAt(old(stores.objects), stores.objects, iset ref | Retained(s.manifest.entries, ref))
    ensures forall ref <- old(stores.objects) :: ref in stores.objects
  {
    var entries := s.manifest.entries;
    for n := 0 to |entries|
      invariant forall i :: 0 <= i < n && entries[i].captured.Some? ==>
        GoesThrough(entries[i], i, assets, stores.reachable, behaviour)
      invariant LastStored(entries[..n], s.files, stores.objects)
      invariant OnlyAt(old(stores.objects), stores.objects, iset ref | Retained(entries, ref))
      invariant forall ref <- old(stores.objects) :: ref in stores.objects
    {
      ghost var before := stores.objects;
      if entries[n].captured.Some? {
        assert FileFits(entries[n], s.files, fns);
        var step := RestoreEntry(entries[n], n, assets, s.files, stores, behaviour, fns);
        if step.Failed? { return step; }
        assert Retained(entries, entries[n].ref);
      }
      LastStoredOneMore(entries, n, s.files, before, stores.objects);
    }
    assert entries[..|entries|] == entries;
    ReproducedIff(s, stores.objects, fns);
    r := Ok(());
  }

  /** A known object that must not survive: removable, and not retained by the snapshot. */
  predicate Removable(o: StoredObject, entries: seq<Entry>) {
    !(o.part == Primary && o.asset.storage.None?) && !Retained(entries, o.ref)
  }

  ghost function RemovableRefs(os: seq<StoredObject>, entries: seq<Entry>): iset<Ref> {
    iset o | o in os && Removable(o, entries) :: o.ref
  }

  /** What holds after the first `n` known objects were considered. */
  ghost predicate Deleting(os: seq<StoredObject>, n: nat, entries: seq<Entry>,
    deleted: set<Ref>, before: map<Ref, Bytes>, after: map<Ref, Bytes>)
  {
    && n <= |os| && (forall i :: 0 <= i < n && Removable(os[i], entries) ==> os[i].ref in deleted)
    && (forall ref <- deleted :: ref !in after) && (forall ref <- after :: ref in before)
    && OnlyAt(before, after, RemovableRefs(os, entries))
  }

  lemma DeletingOneMore(
    os: seq<StoredObject>, n: nat, entries: seq<Entry>, deleted: set<Ref>, before: map<Ref, Bytes>,
      after: map<Ref, Bytes>)
    requires n < |os| && Removable(os[n], entries) && Deleting(os, n, entries, deleted, before, after)
    ensures Deleting(os, n + 1, entries, deleted + {os[n].ref}, before, after - {os[n].ref})
    ensures Deleting(os, n, entries, deleted, before, after - {os[n].ref})
  {
    assert os[n].ref in RemovableRefs(os, entries);
  }

  lemma DeletingPassed(
    os: seq<StoredObject>, n: nat, entries: seq<Entry>, deleted: set<Ref>, before: map<Ref, Bytes>,
      after: map<Ref, Bytes>)
    requires n < |os| && (!Removable(os[n], entries) || os[n].ref in deleted)
      && Deleting(os, n, entries, deleted, before, after)
    ensures Deleting(os, n + 1, entries, deleted, before, after)
  {}

  lemma DeletingDone(os: seq<StoredObject>, entries: seq<Entry>, deleted: set<Ref>, before: map<Ref, Bytes>,
    after: map<Ref, Bytes>)
    requires Deleting(os, |os|, entries, deleted, before, after)
    ensures forall o <- os :: Removable(o, entries) ==> o.ref !in after
  {}

  /** Deletes the known objects the snapshot does not retain, each ref once. */
  method DeleteOutside(removeAssets: seq<Asset>, entries: seq<Entry>, provider: Provider, stores: ObjectStores,
    behaviour: Behaviour, fns: Functions)
    returns (r: Result<()>)
    modifies stores`objects
    ensures (forall n: nat :: !behaviour.deleteFails(n))
      && (forall o <- SnapshotObjects(removeAssets, provider, fns) :: Removable(o, entries) ==>
            o.ref.provider in stores.reachable)
      ==> r.Ok?
    ensures r.Ok? ==> forall o <- SnapshotObjects(removeAssets, provider, fns) :: Removable(o, entries) ==>
      o.ref !in stores.objects
    ensures OnlyAt(old(stores.objects), stores.objects,
      RemovableRefs(SnapshotObjects(removeAssets, provider, fns), entries))
    ensures forall ref <- stores.objects :: ref in old(stores.objects)
  {
    var os := SnapshotObjects(removeAssets, provider, fns);
    var deleted: set<Ref> := {};
    for n := 0 to |os|
      invariant Deleting(os, n, entries, deleted, old(stores.objects), stores.objects)
    {
      if Removable(os[n], entries) && os[n].ref !in deleted {
        if os[n].ref.provider !in stores.reachable { return Failed(ProviderUnreachable); }
        DeletingOneMore(os, n, entries, deleted, old(stores.objects), stores.objects);
        var ok := stores.Delete(os[n].ref, behaviour.deleteDone(n), behaviour.deleteFails(n));
        if !ok { return Failed(DeleteFailed); }
        deleted := deleted + {os[n].ref};
      } else {
        DeletingPassed(os, n, entries, deleted, old(stores.objects), stores.objects);
      }
    }
    DeletingDone(os, entries, deleted, old(stores.objects), stores.objects);
    r := Ok(());
  }

  /** On success every retained ref holds the bytes of its last entry, so every captured
      object is stored byte for byte exactly when entries that share a ref agree; every known
      object that is not retained is gone, and nothing else has changed. Whatever happens, no
      retained ref that was there is gone. */
  method RestoreSnapshot(
    id: Identity, s: Snapshot, assets: seq<Asset>, removeAssets: seq<Asset>, provider: Provider,
    stores: ObjectStores, behaviour: Behaviour, fns: Functions)
    returns (r: Result<()>)
    modifies stores`objects
    ensures r.Ok? ==>
      && Sound(s, fns) && id.snapshotId == fns.snapshotId(s.manifest)
      && id.provider == s.manifest.provider && id.createdAt == s.manifest.createdAt
    ensures r.Ok? ==> id.provider == provider && s.manifest.inventory == fns.inventory(assets, provider)
    ensures r.Ok? ==> AllGoThrough(s.manifest.entries, assets, stores.reachable, behaviour)
    ensures
      && Sound(s, fns) && Names(id, s.manifest, fns) && id.provider == provider
      && s.manifest.inventory == fns.inventory(assets, provider)
      && AllGoThrough(s.manifest.entries, assets, stores.reachable, behaviour)
      && (forall n: nat :: !behaviour.deleteFails(n))
      && (forall a <- removeAssets, ref | StoredUnder(a, ref) && !Retained(s.manifest.entries, ref) ::
            ref.provider in stores.reachable)
      ==> r.Ok?
    ensures r.Ok? ==> LastStored(s.manifest.entries, s.files, stores.objects)
    ensures r.Ok? ==> (Reproduced(s.manifest.entries, s.files, stores.objects) <==> SharedAgree(s))
    ensures r.Ok? ==> forall a <- removeAssets, ref | StoredUnder(a, ref) && !Retained(s.manifest.entries, ref) ::
      ref !in stores.objects
    ensures r.Ok? ==> forall ref |
      !Retained(s.manifest.entries, ref) && forall a <- removeAssets :: !StoredUnder(a, ref) ::
        && (ref in stores.objects <==> ref in old(stores.objects))
        && (ref in stores.objects ==> stores.objects[ref] == old(stores.objects)[ref])
    ensures forall ref <- old(stores.objects) :: Retained(s.manifest.entries, ref) ==> ref in stores.objects
  {
    if provider != id.provider { return Failed(WrongProvider); }
    var verified := VerifySnapshot(id, s, fns);
    if verified.Failed? { return Failed(verified.why); }
    if fns.inventory(assets, id.provider) != s.manifest.inventory { return Failed(WrongInventory); }
    var put := PutBack(s, assets, stores, behaviour, fns);
    if put.Failed? { return put; }
    label put:
    ghost var between := stores.objects;
    forall o <- SnapshotObjects(removeAssets, provider, fns) | Removable(o, s.manifest.entries)
      ensures !Retained(s.manifest.entries, o.ref) && exists a <- removeAssets :: StoredUnder(a, o.ref) {
      RemovableIsStored(removeAssets, s.manifest.entries, o.ref, provider, fns);
    }
    r := DeleteOutside(removeAssets, s.manifest.entries, provider, stores, behaviour, fns);
    RetainedSurvive(s, between, stores.objects, SnapshotObjects(removeAssets, provider, fns));
    ReproducedIff(s, stores.objects, fns);
    forall ref | ref in RemovableRefs(SnapshotObjects(removeAssets, provider, fns), s.manifest.entries)
      ensures exists a <- removeAssets :: StoredUnder(a, ref) {
      RemovableIsStored(removeAssets, s.manifest.entries, ref, provider, fns);
    }
    if r.Ok? {
      forall a <- removeAssets, ref | StoredUnder(a, ref) && !Retained(s.manifest.entries, ref)
        ensures ref !in stores.objects {
        var o := StoredUnderIs(removeAssets, a, ref, provider, fns);
      }
    }
  }

  lemma RemovableIsStored(assets: seq<Asset>, entries: seq<Entry>, ref: Ref, provider: Provider, fns: Functions)
    requires ref in RemovableRefs(SnapshotObjects(assets, provider, fns), entries)
    ensures exists a <- assets :: StoredUnder(a, ref)
  {
    var o :| o in SnapshotObjects(assets, provider, fns) && Removable(o, entries) && o.ref == ref;
    SnapshotObjectsAre(assets, provider, fns, o);
    var a :| a in assets && IsObjectOf(a, provider, fns, o);
    assert StoredUnder(a, ref);
  }

  lemma RetainedSurvive(s: Snapshot, before: map<Ref, Bytes>, after: map<Ref, Bytes>, os: seq<StoredObject>)
    requires LastStored(s.manifest.entries, s.files, before)
    requires OnlyAt(before, after, RemovableRefs(os, s.manifest.entries))
    ensures LastStored(s.manifest.entries, s.files, after)
    ensures forall ref <- before :: Retained(s.manifest.entries, ref) ==> ref in after
  {
    var entries := s.manifest.entries;
    forall ref | LastFor(entries, ref).Some? ensures Stored(LastFor(entries, ref).value, s.files, after) {
      assert Stored(LastFor(entries, ref).value, s.files, before);
      assert Retained(entries, ref);
    }
  }

  /** Capturing and then restoring: when both succeed, every object the assets should have is in
      the target, with the bytes it had when it was captured. */
  method BackUpAndRestore(
    assets: seq<Asset>, provider: Provider, source: ObjectStores, createdAt: int,
    removeAssets: seq<Asset>, target: ObjectStores, behaviour: Behaviour, fns: Functions)
    returns (r: Result<()>)
    requires source != target
    modifies target`objects
    ensures r.Ok? ==> forall a <- assets, ref | !a.gone && StoredUnder(a, ref) ::
      ref in source.objects && ref in target.objects && target.objects[ref] == source.objects[ref]
  {
    var made := CreateSnapshot(assets, provider, source, createdAt, fns);
    if made.Failed? { return Failed(made.why); }
    var (id, s) := made.value;
    ghost var os := SnapshotObjects(assets, provider, fns);
    CapturedAgree(s, os, source.objects, fns);
    r := RestoreSnapshot(id, s, assets, removeAssets, provider, target, behaviour, fns);
    if r.Ok? {
      forall o <- os | o.expected
        ensures o.ref in source.objects && o.ref in target.objects && target.objects[o.ref] == source.objects[o.ref] {
        var i :| 0 <= i < |os| && os[i] == o;
        assert Captures(s.manifest.entries[i], os[i], s.files, source.objects, fns);
        assert Stored(s.manifest.entries[i], s.files, target.objects);
        assert s.manifest.entries[i].ref == s.manifest.entries[i].(captured := None).ref;
      }
      forall a <- assets, ref | !a.gone && StoredUnder(a, ref)
        ensures ref in source.objects && ref in target.objects && target.objects[ref] == source.objects[ref] {
        var o := StoredUnderIs(assets, a, ref, provider, fns);
      }
    }
  }
}
