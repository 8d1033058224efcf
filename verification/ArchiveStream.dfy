/** Reading and writing the framing over a stream that arrives in arbitrary chunks. */
module ArchiveStream {
  import opened Json
  import opened ArchiveFraming
  import opened Sequences

  const OUTPUT_CHUNK_BYTES: nat := 65536

  function Join(chunks: seq<Bytes>): Bytes {
    if chunks == [] then [] else chunks[0] + Join(chunks[1..])
  }

  lemma {:induction false} JoinAppend(a: seq<Bytes>, b: seq<Bytes>)
    ensures Join(a + b) == Join(a) + Join(b)
  {
    if a == [] {
      assert a + b == b;
    } else {
      JoinAppend(a[1..], b);
      assert (a + b)[0] == a[0] && (a + b)[1..] == a[1..] + b;
      Regrouped(a[0], Join(a[1..]), Join(b));
    }
  }

  lemma JoinOne(chunks: seq<Bytes>, chunk: Bytes)
    ensures Join(chunks + [chunk]) == Join(chunks) + chunk
  {
    JoinAppend(chunks, [chunk]);
    assert Join([chunk]) == chunk;
  }

  ghost predicate Pieces(chunks: seq<Bytes>) {
    forall i :: 0 <= i < |chunks| ==> 0 < |chunks[i]| <= OUTPUT_CHUNK_BYTES
  }

  // ----- Reading -----

  class Cursor {
    var source: seq<Bytes>
    var pending: Bytes
    var pendingOffset: nat
    var ended: bool
    var hashed: Bytes
    ghost const input: Bytes

    ghost predicate Valid()
      reads this
    {
      && pendingOffset <= |pending|
      && (ended ==> pending == [] && source == [])
      && hashed + Join(source) == input
    }

    /** The bytes not yet handed out, whatever chunks they are in. */
    ghost function Rest(): Bytes
      reads this
      requires Valid()
    {
      pending[pendingOffset..] + Join(source)
    }

    constructor (source: seq<Bytes>)
      ensures Valid() && Rest() == Join(source) && input == Join(source)
    {
      this.source, pending, pendingOffset, ended, hashed := source, [], 0, false, [];
      input := Join(source);
    }

    /** Moves to the next chunk that is not empty, or to the end. */
    method Pull()
      requires Valid() && pendingOffset == |pending|
      modifies this
      ensures Valid() && Rest() == old(Rest())
      ensures if old(Rest()) == [] then ended else !ended && pendingOffset < |pending|
      ensures ended ==> hashed == input
      decreases |source|
    {
      if ended { return; }
      if source == [] {
        pending, pendingOffset, ended := [], 0, true;
        return;
      }
      var chunk := source[0];
      source := source[1..];
      if chunk == [] {
        Pull();
      } else {
        hashed := hashed + chunk;
        pending, pendingOffset := chunk, 0;
      }
    }

    /** The next piece of the pending chunk, at most `remaining` bytes. */
    method TakePiece(remaining: nat) returns (chunk: Bytes)
      requires Valid() && pendingOffset < |pending| && remaining > 0
      modifies this
      ensures Valid() && 0 < |chunk| <= remaining && |chunk| <= OUTPUT_CHUNK_BYTES
      ensures old(Rest()) == chunk + Rest()
    {
      var available := |pending| - pendingOffset;
      var take := if remaining <= available then remaining else available;
      if take > OUTPUT_CHUNK_BYTES { take := OUTPUT_CHUNK_BYTES; }
      chunk := pending[pendingOffset..pendingOffset + take];
      assert pending[pendingOffset..] == chunk + pending[pendingOffset + take..];
      pendingOffset := pendingOffset + take;
    }

    /** Hands out exactly `length` bytes in bounded pieces, or fails when there are fewer. */
    method ConsumeExactly(length: nat) returns (ok: bool, pieces: seq<Bytes>)
      requires Valid()
      modifies this
      ensures Valid()
      ensures ok == (length <= |old(Rest())|)
      ensures ok ==> Join(pieces) == old(Rest())[..length] && Rest() == old(Rest())[length..] && Pieces(pieces)
    {
      ghost var all := Rest();
      var remaining: nat := length;
      pieces := [];
      while remaining > 0
        invariant Valid()
        invariant |Join(pieces)| + remaining == length && all == Join(pieces) + Rest() && Pieces(pieces)
      {
        if pendingOffset >= |pending| { Pull(); }
        if ended { return false, pieces; }
        var chunk := TakePiece(remaining);
        JoinOne(pieces, chunk);
        assert all == Join(pieces) + (chunk + Rest());
        remaining := remaining - |chunk|;
        pieces := pieces + [chunk];
      }
      assert all[..length] == Join(pieces) && all[length..] == Rest();
      ok := true;
    }

    method ReadExactly(length: nat) returns (r: Option<Bytes>)
      requires Valid()
      modifies this
      ensures Valid()
      ensures r.Some? == (length <= |old(Rest())|)
      ensures r.Some? ==> r.value == old(Rest())[..length] && Rest() == old(Rest())[length..]
    {
      var ok, pieces := ConsumeExactly(length);
      r := if ok then Some(Join(pieces)) else None;
    }

    method ReadUint32() returns (r: Option<nat>)
      requires Valid()
      modifies this
      ensures Valid()
      ensures r.Some? == (4 <= |old(Rest())|)
      ensures r.Some? ==> r.value == WordValue(old(Rest())[..4]) && Rest() == old(Rest())[4..]
    {
      var word := ReadExactly(4);
      r := if word.Some? then Some(WordValue(word.value)) else None;
    }

    method AssertEnd() returns (ok: bool)
      requires Valid()
      modifies this
      ensures Valid() && ok == (old(Rest()) == [])
      ensures ok ==> hashed == input
    {
      if pendingOffset < |pending| { return false; }
      Pull();
      ok := ended;
    }
  }

  function Prepend(fs: seq<Frame>, r: Result<seq<Frame>, Error>): Result<seq<Frame>, Error> {
    if r.Err? then r else Ok(fs + r.value)
  }

  datatype FrameRead = Finished | Failed(error: Error) | Read(frame: Frame, next: Progress)

  /** One frame, or the end mark together with the check that nothing follows it. */
  method ReadFrame(cursor: Cursor, p: Progress, codec: Codec) returns (r: FrameRead)
    requires cursor.Valid()
    modifies cursor
    ensures cursor.Valid()
    ensures match r
      case Finished => ParseFrames(old(cursor.Rest()), p, codec) == Ok([]) && cursor.hashed == cursor.input
      case Failed(e) => ParseFrames(old(cursor.Rest()), p, codec) == Err(e)
      case Read(f, next) =>
        && ParseFrames(old(cursor.Rest()), p, codec) == Prepend([f], ParseFrames(cursor.Rest(), next, codec))
        && |cursor.Rest()| < |old(cursor.Rest())|
  {
    var length := cursor.ReadUint32();
    if length.None? { return Failed(Truncated); }
    if length.value == 0 {
      var atEnd := cursor.AssertEnd();
      return if atEnd then Finished else Failed(TrailingBytes);
    }
    if length.value > MAX_HEADER_BYTES { return Failed(HeaderTooLarge); }
    var text := cursor.ReadExactly(length.value);
    if text.None? { return Failed(Truncated); }
    r := ReadBody(cursor, text.value, p, codec);
  }

  method ReadBody(cursor: Cursor, text: Bytes, p: Progress, codec: Codec) returns (r: FrameRead)
    requires cursor.Valid() && |text| <= MAX_HEADER_BYTES
    modifies cursor
    ensures cursor.Valid()
    ensures match r
      case Finished => false
      case Failed(e) => ParseBody(text, old(cursor.Rest()), p, codec) == Err(e)
      case Read(f, next) =>
        && ParseBody(text, old(cursor.Rest()), p, codec) == Prepend([f], ParseFrames(cursor.Rest(), next, codec))
        && |cursor.Rest()| <= |old(cursor.Rest())|
  {
    var header := codec.parseHeader(text);
    if header.None? { return Failed(BadHeader); }
    var refusal := Refusal(p, header.value);
    if refusal.Some? { return Failed(refusal.value); }
    var stored, pieces := cursor.ConsumeExactly(header.value.sizeBytes);
    if !stored { return Failed(Truncated); }
    var expected := cursor.ReadExactly(DIGEST_BYTES);
    if expected.None? { return Failed(Truncated); }
    var body := Join(pieces);
    var bad := DigestRefusal(p, header.value, codec.hash(body), expected.value);
    if bad.Some? { return Failed(bad.value); }
    r := Read(Frame(text, body), Advance(p, header.value));
  }

  /** Parsing a stream: the outcome and the digest depend only on the concatenated bytes. */
  method ParseArchiveStream(source: seq<Bytes>, limits: Limits, codec: Codec)
    returns (r: Result<Parsed, Error>, digest: Bytes)
    ensures r == Parse(Join(source), limits, codec)
    ensures r.Ok? ==> digest == codec.hash(Join(source))
  {
    digest := [];
    var cursor := new Cursor(source);
    var magic := cursor.ReadExactly(|MAGIC|);
    if magic.None? { return Err(Truncated), digest; }
    if magic.value != MAGIC { return Err(BadMagic), digest; }
    var length := cursor.ReadUint32();
    if length.None? { return Err(Truncated), digest; }
    r, digest := ParseAfterLength(cursor, length.value, limits, codec);
  }

  method ParseAfterLength(cursor: Cursor, length: nat, limits: Limits, codec: Codec)
    returns (r: Result<Parsed, Error>, digest: Bytes)
    requires cursor.Valid()
    modifies cursor
    ensures r == ParseMeta(length, old(cursor.Rest()), limits, codec)
    ensures r.Ok? ==> digest == codec.hash(cursor.input)
  {
    digest := [];
    if length == 0 { return Err(EmptyMetadata), digest; }
    if length > limits.maxMetadataBytes { return Err(MetadataTooLarge), digest; }
    var meta := cursor.ReadExactly(length);
    if meta.None? { return Err(Truncated), digest; }
    var archive := codec.parseMeta(meta.value);
    if archive.None? { return Err(BadMetadata), digest; }
    if archive.value.embedsFiles { return Err(EmbeddedFiles), digest; }
    var p := Start(archive.value, limits);
    ghost var whole := ParseFrames(cursor.Rest(), p, codec);
    var frames: seq<Frame> := [];
    assert whole.Ok? ==> [] + whole.value == whole.value;
    while true
      invariant cursor.Valid()
      invariant whole == Prepend(frames, ParseFrames(cursor.Rest(), p, codec))
      decreases |cursor.Rest()|
    {
      var next := ReadFrame(cursor, p, codec);
      match next {
        case Finished =>
          assert frames + [] == frames;
          break;
        case Failed(e) => return Err(e), digest;
        case Read(f, q) =>
          PrependTwice(frames, f, ParseFrames(cursor.Rest(), q, codec));
          frames, p := frames + [f], q;
      }
    }
    digest := codec.hash(cursor.hashed);
    r := Ok(Parsed(meta.value, archive.value, frames));
  }

  lemma PrependTwice(fs: seq<Frame>, f: Frame, r: Result<seq<Frame>, Error>)
    ensures Prepend(fs, Prepend([f], r)) == Prepend(fs + [f], r)
  {
    if r.Ok? { assert fs + ([f] + r.value) == fs + [f] + r.value; }
  }

  // ----- Writing -----

  datatype EncodeError =
    | TooManyAssets | AssetTooLargeToExport | ArchiveTooLarge | StreamingUnavailable | MetadataTooLargeToExport
      | BadFrameLength
    | HeaderTooLargeToExport | StoredLarger | StoredSizeMismatch | StoredChecksumMismatch

  function CountEmbeddable(assets: seq<Asset>): nat {
    if assets == [] then 0 else (if assets[0].embeddable then 1 else 0) + CountEmbeddable(assets[1..])
  }

  function SumEmbeddable(assets: seq<Asset>): nat {
    if assets == [] then 0 else (if assets[0].embeddable then assets[0].sizeBytes else 0) + SumEmbeddable(assets[1..])
  }

  /** The metadata promises an archive within the limits. */
  ghost predicate SizesFit(assets: seq<Asset>, limits: Limits) {
    && CountEmbeddable(assets) <= limits.maxAssetFiles
    && SumEmbeddable(assets) <= limits.maxEmbeddedAssetBytes
    && forall i :: 0 <= i < |assets| && assets[i].embeddable ==> assets[i].sizeBytes <= limits.maxAssetBytes
  }

  lemma {:induction false} EmbeddableSplit(assets: seq<Asset>, n: nat)
    requires n <= |assets|
    ensures CountEmbeddable(assets) == CountEmbeddable(assets[..n]) + CountEmbeddable(assets[n..])
    ensures SumEmbeddable(assets) == SumEmbeddable(assets[..n]) + SumEmbeddable(assets[n..])
  {
    if n == 0 {
      assert assets[0..] == assets;
    } else {
      EmbeddableSplit(assets[1..], n - 1);
      assert assets[1..][..n - 1] == assets[..n][1..];
      assert assets[1..][n - 1..] == assets[n..];
    }
  }

  /** Refuses exactly the archives whose metadata breaks a limit. */
  method AssertExportSize(assets: seq<Asset>, limits: Limits) returns (e: Option<EncodeError>)
    ensures e.None? <==> SizesFit(assets, limits)
  {
    var embeddedBytes, embeddedFiles := 0, 0;
    for n := 0 to |assets|
      invariant embeddedFiles == CountEmbeddable(assets[..n]) <= limits.maxAssetFiles
      invariant embeddedBytes == SumEmbeddable(assets[..n]) <= limits.maxEmbeddedAssetBytes
      invariant forall i :: 0 <= i < n && assets[i].embeddable ==> assets[i].sizeBytes <= limits.maxAssetBytes
    {
      EmbeddableSplit(assets[..n + 1], n);
      EmbeddableSplit(assets, n + 1);
      assert assets[..n + 1][..n] == assets[..n] && assets[..n + 1][n..] == [assets[n]];
      assert CountEmbeddable([assets[n]]) == if assets[n].embeddable then 1 else 0;
      assert SumEmbeddable([assets[n]]) == if assets[n].embeddable then assets[n].sizeBytes else 0;
      if !assets[n].embeddable { continue; }
      embeddedFiles := embeddedFiles + 1;
      if embeddedFiles > limits.maxAssetFiles { return Some(TooManyAssets); }
      if assets[n].sizeBytes > limits.maxAssetBytes { return Some(AssetTooLargeToExport); }
      embeddedBytes := embeddedBytes + assets[n].sizeBytes;
      if embeddedBytes > limits.maxEmbeddedAssetBytes { return Some(ArchiveTooLarge); }
    }
    assert assets[..|assets|] == assets;
    e := None;
  }

  /** The text side of the encoder. */
  datatype Printer = Printer(meta: Archive -> Bytes, header: Header -> Bytes)

  function HeaderOf(a: Asset): Header { Header(a.id, a.name, a.mimeType, a.sizeBytes) }

  /** Stored bytes of an asset, in the chunks the provider streams; None when there are none. */
  type Stored = Option<seq<Bytes>>

  predicate Exportable(a: Asset, stored: Stored, texts: Printer, codec: Codec) {
    !a.embeddable || stored.None? ||
      (&& |texts.header(HeaderOf(a))| <= MAX_HEADER_BYTES
       && |Join(stored.value)| == a.sizeBytes
       && (a.checksum.None? || a.checksum.value == codec.hash(Join(stored.value))))
  }

  function AssetFrames(a: Asset, stored: Stored, texts: Printer, codec: Codec): seq<Frame>
    requires Exportable(a, stored, texts, codec)
  {
    if !a.embeddable || stored.None? then [] else [Frame(texts.header(HeaderOf(a)), Join(stored.value))]
  }

  /** The frames an export writes, in asset order. */
  function ExportFrames(assets: seq<Asset>, stored: seq<Stored>, texts: Printer, codec: Codec): seq<Frame>
    requires |assets| == |stored|
    requires forall i :: 0 <= i < |assets| ==> Exportable(assets[i], stored[i], texts, codec)
  {
    if assets == [] then []
    else AssetFrames(assets[0], stored[0], texts, codec) + ExportFrames(assets[1..], stored[1..], texts, codec)
  }

  ghost predicate ExportSucceeds(a: Archive, stored: seq<Stored>, streams: bool, limits: Limits, texts: Printer,
    codec: Codec)
    requires |a.assets| == |stored|
  {
    && SizesFit(a.assets, limits) && streams
    && |texts.meta(a)| <= limits.maxMetadataBytes && |texts.meta(a)| < MAX_WORD
    && forall i :: 0 <= i < |a.assets| ==> Exportable(a.assets[i], stored[i], texts, codec)
  }

  /** Body of one asset: its stored chunks cut into bounded pieces. */
  method EncodeBody(size: nat, chunks: seq<Bytes>, total: nat, limits: Limits)
    returns (e: Option<EncodeError>, pieces: seq<Bytes>)
    requires total + size <= limits.maxEmbeddedAssetBytes
    ensures e.None? <==> |Join(chunks)| <= size
    ensures e.None? ==> Join(pieces) == Join(chunks) && Pieces(pieces)
  {
    pieces := [];
    var written := 0;
    for n := 0 to |chunks|
      invariant Join(pieces) == Join(chunks[..n]) && Pieces(pieces)
      invariant written == |Join(chunks[..n])| <= size
    {
      var chunk := chunks[n];
      JoinSplit(chunks, n);
      if written + |chunk| > size { return Some(StoredLarger), pieces; }
      written := written + |chunk|;
      if total + written > limits.maxEmbeddedAssetBytes { return Some(ArchiveTooLarge), pieces; }
      var offset := 0;
      ghost var before := pieces;
      while offset < |chunk|
        invariant offset <= |chunk|
        invariant Join(pieces) == Join(before) + chunk[..offset] && Pieces(pieces)
      {
        var end := if offset + OUTPUT_CHUNK_BYTES <= |chunk| then offset + OUTPUT_CHUNK_BYTES else |chunk|;
        JoinOne(pieces, chunk[offset..end]);
        assert chunk[..end] == chunk[..offset] + chunk[offset..end];
        pieces := pieces + [chunk[offset..end]];
        offset := end;
      }
      assert chunk[..|chunk|] == chunk;
    }
    assert chunks[..|chunks|] == chunks;
    e := None;
  }

  lemma JoinSplit(chunks: seq<Bytes>, n: nat)
    requires n < |chunks|
    ensures Join(chunks[..n + 1]) == Join(chunks[..n]) + chunks[n]
    ensures |Join(chunks)| >= |Join(chunks[..n + 1])|
  {
    JoinOne(chunks[..n], chunks[n]);
    assert chunks[..n + 1] == chunks[..n] + [chunks[n]];
    JoinAppend(chunks[..n + 1], chunks[n + 1..]);
    assert chunks == chunks[..n + 1] + chunks[n + 1..];
  }

  /** Everything between the metadata and the end mark. */
  function FrameBytes(fs: seq<Frame>, codec: Codec): Bytes {
    if fs == [] then [] else FrameWire(fs[0], codec) + FrameBytes(fs[1..], codec)
  }

  lemma {:induction false} FrameBytesAppend(a: seq<Frame>, b: seq<Frame>, codec: Codec)
    ensures FrameBytes(a + b, codec) == FrameBytes(a, codec) + FrameBytes(b, codec)
  {
    if a == [] {
      assert a + b == b;
    } else {
      FrameBytesAppend(a[1..], b, codec);
      assert (a + b)[0] == a[0] && (a + b)[1..] == a[1..] + b;
      Regrouped(FrameWire(a[0], codec), FrameBytes(a[1..], codec), FrameBytes(b, codec));
    }
  }

  lemma {:induction false} FramesWireEnds(fs: seq<Frame>, codec: Codec)
    ensures FramesWire(fs, codec) == FrameBytes(fs, codec) + Word(0)
  {
    if fs != [] { FramesWireEnds(fs[1..], codec); }
  }

  lemma {:induction false} ExportFramesStep(assets: seq<Asset>, stored: seq<Stored>, n: nat, texts: Printer,
    codec: Codec)
    requires |assets| == |stored| && n < |assets|
    requires forall i :: 0 <= i <= n ==> Exportable(assets[i], stored[i], texts, codec)
    ensures ExportFrames(assets[..n + 1], stored[..n + 1], texts, codec)
         == ExportFrames(assets[..n], stored[..n], texts, codec) + AssetFrames(assets[n], stored[n], texts, codec)
  {
    if n > 0 {
      ExportFramesStep(assets[1..], stored[1..], n - 1, texts, codec);
      assert assets[..n + 1][1..] == assets[1..][..n] && stored[..n + 1][1..] == stored[1..][..n];
      assert assets[..n][1..] == assets[1..][..n - 1] && stored[..n][1..] == stored[1..][..n - 1];
    }
  }

  /** One asset's frame: length, header, bounded pieces of the body, digest; nothing when it
      is external or has no stored bytes. */
  method EncodeAsset(a: Asset, stored: Stored, total: nat, limits: Limits, texts: Printer, codec: Codec)
    returns (e: Option<EncodeError>, out: seq<Bytes>)
    requires a.embeddable ==> total + a.sizeBytes <= limits.maxEmbeddedAssetBytes
    ensures e.None? <==> Exportable(a, stored, texts, codec)
    ensures e.None? ==> Join(out) == FrameBytes(AssetFrames(a, stored, texts, codec), codec)
  {
    out := [];
    if !a.embeddable || stored.None? { return None, out; }
    var header := texts.header(HeaderOf(a));
    if |header| > MAX_HEADER_BYTES { return Some(HeaderTooLargeToExport), out; }
    var body;
    e, body := EncodeBody(a.sizeBytes, stored.value, total, limits);
    if e.Some? { return; }
    if |Join(body)| != a.sizeBytes { return Some(StoredSizeMismatch), out; }
    var digest := codec.hash(Join(body));
    if a.checksum.Some? && a.checksum.value != digest { return Some(StoredChecksumMismatch), out; }
    out := [Word(|header|), header] + body + [digest];
    JoinAppend([Word(|header|), header] + body, [digest]);
    JoinAppend([Word(|header|), header], body);
    JoinPair(Word(|header|), header);
    assert Join([digest]) == digest;
    var f: Frame := Frame(header, Join(stored.value));
    assert FrameBytes([f], codec) == FrameWire(f, codec);
  }

  lemma JoinPair(a: Bytes, b: Bytes)
    ensures Join([a, b]) == a + b
  {
    assert [a, b][1..] == [b];
    assert Join([b]) == b;
  }

  /** Writes the archive; on success the output is the layout of its metadata and of the
      frames of its stored assets. */
  method EncodeArchiveStream(a: Archive, stored: seq<Stored>, streams: bool, limits: Limits, texts: Printer,
    codec: Codec)
    returns (e: Option<EncodeError>, out: seq<Bytes>)
    requires |a.assets| == |stored|
    ensures e.None? <==> ExportSucceeds(a, stored, streams, limits, texts, codec)
    ensures e.None? ==> Join(out) == Wire(texts.meta(a), ExportFrames(a.assets, stored, texts, codec), codec)
  {
    out := [];
    e := AssertExportSize(a.assets, limits);
    if e.Some? { return; }
    if !streams { return Some(StreamingUnavailable), out; }
    var meta := texts.meta(a);
    if |meta| > limits.maxMetadataBytes { return Some(MetadataTooLargeToExport), out; }
    if |meta| >= MAX_WORD { return Some(BadFrameLength), out; }
    var frames;
    e, frames := EncodeAssets(a.assets, stored, limits, texts, codec);
    if e.Some? { return; }
    out := [MAGIC, Word(|meta|), meta] + frames + [Word(0)];
    ghost var fs := ExportFrames(a.assets, stored, texts, codec);
    JoinAppend([MAGIC, Word(|meta|), meta] + frames, [Word(0)]);
    JoinAppend([MAGIC, Word(|meta|), meta], frames);
    assert [MAGIC, Word(|meta|), meta][1..] == [Word(|meta|), meta];
    JoinPair(Word(|meta|), meta);
    assert Join([Word(0)]) == Word(0);
    FramesWireEnds(fs, codec);
    ConcatLast(MAGIC, Word(|meta|), meta, FrameBytes(fs, codec), Word(0));
  }

  lemma ConcatLast(a: Bytes, b: Bytes, c: Bytes, d: Bytes, e: Bytes)
    ensures (a + (b + c)) + d + e == a + b + c + (d + e)
  {
  }

  method EncodeAssets(assets: seq<Asset>, stored: seq<Stored>, limits: Limits, texts: Printer, codec: Codec)
    returns (e: Option<EncodeError>, out: seq<Bytes>)
    requires |assets| == |stored| && SizesFit(assets, limits)
    ensures e.None? <==> forall i :: 0 <= i < |assets| ==> Exportable(assets[i], stored[i], texts, codec)
    ensures e.None? ==> Join(out) == FrameBytes(ExportFrames(assets, stored, texts, codec), codec)
  {
    out := [];
    var total: nat := 0;
    for n := 0 to |assets|
      invariant forall i :: 0 <= i < n ==> Exportable(assets[i], stored[i], texts, codec)
      invariant Join(out) == FrameBytes(ExportFrames(assets[..n], stored[..n], texts, codec), codec)
      invariant total + SumEmbeddable(assets[n..]) <= limits.maxEmbeddedAssetBytes
    {
      assert assets[n..][0] == assets[n] && assets[n..][1..] == assets[n + 1..];
      var more;
      e, more := EncodeAsset(assets[n], stored[n], total, limits, texts, codec);
      if e.Some? { return; }
      if assets[n].embeddable && stored[n].Some? { total := total + |Join(stored[n].value)|; }
      JoinAppend(out, more);
      ExportFramesStep(assets, stored, n, texts, codec);
      FrameBytesAppend(ExportFrames(assets[..n], stored[..n], texts, codec),
        AssetFrames(assets[n], stored[n], texts, codec), codec);
      out := out + more;
    }
    assert assets[..|assets|] == assets && stored[..|stored|] == stored;
    e := None;
  }

  // ----- Export then import -----

  ghost predicate UniqueAssetIds(assets: seq<Asset>) {
    forall i, j :: 0 <= i < j < |assets| ==> assets[i].id != assets[j].id
  }

  /** The texts written are the texts read back. */
  ghost predicate TextsRoundTrip(a: Archive, texts: Printer, codec: Codec) {
    && |texts.meta(a)| > 0 && codec.parseMeta(texts.meta(a)) == Some(a) && !a.embedsFiles
    && forall i {:trigger HeaderOf(a.assets[i])} :: 0 <= i < |a.assets| ==>
         var h := HeaderOf(a.assets[i]); |texts.header(h)| > 0 && codec.parseHeader(texts.header(h)) == Some(h)
  }

  lemma {:induction false} AssetByIdUnique(assets: seq<Asset>, i: nat)
    requires UniqueAssetIds(assets) && i < |assets|
    ensures AssetById(assets, assets[i].id) == Some(assets[i])
  {
    if i < |assets| - 1 { AssetByIdUnique(assets[..|assets| - 1], i); }
  }

  lemma {:induction false} ExportedFramesAcceptable(a: Archive, stored: seq<Stored>, limits: Limits, texts: Printer,
    codec: Codec, n: nat, p: Progress)
    requires |a.assets| == |stored| && n <= |a.assets|
    requires SizesFit(a.assets, limits) && UniqueAssetIds(a.assets) && TextsRoundTrip(a, texts, codec)
    requires forall i :: 0 <= i < |a.assets| ==> Exportable(a.assets[i], stored[i], texts, codec)
    requires p.assets == a.assets && p.limits == limits
    requires forall i :: n <= i < |a.assets| ==> a.assets[i].id !in p.seen
    requires p.total + SumEmbeddable(a.assets[n..]) <= limits.maxEmbeddedAssetBytes
    requires p.count + CountEmbeddable(a.assets[n..]) <= limits.maxAssetFiles
    ensures Acceptable(ExportFrames(a.assets[n..], stored[n..], texts, codec), p, codec)
    decreases |a.assets| - n
  {
    if n < |a.assets| {
      var asset, h := a.assets[n], HeaderOf(a.assets[n]);
      assert a.assets[n..][0] == asset && a.assets[n..][1..] == a.assets[n + 1..];
      assert stored[n..][0] == stored[n] && stored[n..][1..] == stored[n + 1..];
      var more := ExportFrames(a.assets[n + 1..], stored[n + 1..], texts, codec);
      if !asset.embeddable || stored[n].None? {
        ExportedFramesAcceptable(a, stored, limits, texts, codec, n + 1, p);
        assert [] + more == more;
      } else {
        AssetByIdUnique(a.assets, n);
        assert Refusal(p, h).None?;
        ExportedFramesAcceptable(a, stored, limits, texts, codec, n + 1, Advance(p, h));
        var f: Frame := Frame(texts.header(h), Join(stored[n].value));
        assert ([f] + more)[0] == f && ([f] + more)[1..] == more;
      }
    }
  }

  /** Whatever an export writes, an import under the same limits reads back: metadata,
      headers and bodies, for every way the bytes arrive. */
  lemma ExportThenImport(a: Archive, stored: seq<Stored>, limits: Limits, texts: Printer, codec: Codec)
    requires |a.assets| == |stored| && ExportSucceeds(a, stored, true, limits, texts, codec)
    requires DigestSized(codec) && UniqueAssetIds(a.assets) && TextsRoundTrip(a, texts, codec)
    ensures var fs := ExportFrames(a.assets, stored, texts, codec);
      Parse(Wire(texts.meta(a), fs, codec), limits, codec) == Ok(Parsed(texts.meta(a), a, fs))
  {
    assert a.assets[0..] == a.assets && stored[0..] == stored;
    ExportedFramesAcceptable(a, stored, limits, texts, codec, 0, Start(a, limits));
    WireParses(texts.meta(a), ExportFrames(a.assets, stored, texts, codec), limits, codec);
  }
}
