/** The OTTX framing of a campaign archive: its byte layout, what the parser accepts of a
    byte string, and the bijection between the two. */
module ArchiveFraming {
  import opened Json

  type byte = n: int | 0 <= n < 256
  type Bytes = seq<byte>

  datatype Result<+T, +E> = Ok(value: T) | Err(error: E)

  datatype Header = Header(assetId: string, name: string, mimeType: string, sizeBytes: nat)

  datatype Asset = Asset(id: string, name: string, mimeType: string, sizeBytes: nat, checksum: Option<Bytes>,
    embeddable: bool)

  /** The parts of the metadata the framing looks at; `rest` stands for all the others. */
  datatype Archive = Archive(assets: seq<Asset>, embedsFiles: bool, rest: string)

  datatype Limits = Limits(maxMetadataBytes: nat, maxAssetBytes: nat, maxEmbeddedAssetBytes: nat, maxAssetFiles: nat)

  /** Hashing and the JSON text of metadata and headers are given from outside. */
  datatype Codec = Codec(hash: Bytes -> Bytes, parseMeta: Bytes -> Option<Archive>,
    parseHeader: Bytes -> Option<Header>)

  ghost predicate DigestSized(codec: Codec) {
    forall b {:trigger codec.hash(b)} :: |codec.hash(b)| == DIGEST_BYTES
  }

  datatype Error =
    | BadMagic | EmptyMetadata | MetadataTooLarge | BadMetadata | EmbeddedFiles
    | HeaderTooLarge | BadHeader | DuplicateAsset | TooManyFiles | UnknownAsset | NotEmbeddable
    | MetadataMismatch | AssetTooLarge | AggregateTooLarge
    | ChecksumMismatch | MetadataChecksumMismatch | Truncated | TrailingBytes

  const MAGIC: Bytes := [79, 84, 84, 88, 83, 84, 82, 77, 49, 10]
  const DIGEST_BYTES: nat := 32
  const MAX_HEADER_BYTES: nat := 65536
  const MAX_WORD: nat := 0x1_0000_0000

  // ----- Lengths -----

  function Word(n: nat): (b: Bytes)
    requires n < MAX_WORD
    ensures |b| == 4
  {
    [n / 0x100_0000, n / 0x1_0000 % 256, n / 256 % 256, n % 256]
  }

  function WordValue(b: Bytes): (n: nat)
    requires |b| == 4
    ensures n < MAX_WORD
  {
    (b[0] as int) * 0x100_0000 + (b[1] as int) * 0x1_0000 + (b[2] as int) * 256 + b[3] as int
  }

  lemma WordRoundTrip(n: nat)
    requires n < MAX_WORD
    ensures WordValue(Word(n)) == n
  {
    assert n == n / 256 * 256 + n % 256;
    assert n / 256 == n / 0x1_0000 * 256 + n / 256 % 256;
    assert n / 0x1_0000 == n / 0x100_0000 * 256 + n / 0x1_0000 % 256;
  }

  /** The last digit, and the rest, of a number written to the base 256. */
  lemma LastDigit(x: nat, d: nat)
    requires d < 256
    ensures (x * 256 + d) / 256 == x && (x * 256 + d) % 256 == d
  {}

  lemma ValueRoundTrip(b: Bytes)
    requires |b| == 4
    ensures Word(WordValue(b)) == b
  {
    var n, b0, b1, b2, b3 := WordValue(b), b[0] as int, b[1] as int, b[2] as int, b[3] as int;
    LastDigit((b0 * 256 + b1) * 256 + b2, b3);
    LastDigit(b0 * 256 + b1, b2);
    LastDigit(b0, b1);
    assert n == ((b0 * 256 + b1) * 256 + b2) * 256 + b3;
    assert n / 0x1_0000 == n / 256 / 256 && n / 0x100_0000 == n / 256 / 256 / 256;
  }

  // ----- Layout -----

  /** One embedded asset: the text of its header, and its raw bytes. Neither side of the
      transport handles a longer header. */
  datatype AnyFrame = Frame(header: Bytes, body: Bytes)
  type Frame = f: AnyFrame | |f.header| <= MAX_HEADER_BYTES witness Frame([], [])

  function FrameWire(f: Frame, codec: Codec): Bytes {
    Word(|f.header|) + f.header + f.body + codec.hash(f.body)
  }

  function FramesWire(fs: seq<Frame>, codec: Codec): Bytes {
    if fs == [] then Word(0) else FrameWire(fs[0], codec) + FramesWire(fs[1..], codec)
  }

  function Wire(meta: Bytes, fs: seq<Frame>, codec: Codec): Bytes
    requires |meta| < MAX_WORD
  {
    MAGIC + Word(|meta|) + meta + FramesWire(fs, codec)
  }

  // ----- Checks of one header -----

  datatype Progress = Progress(assets: seq<Asset>, limits: Limits, seen: set<string>, total: nat, count: nat)

  /** The asset listed last under an id, as in a map filled in order. */
  function AssetById(assets: seq<Asset>, id: string): Option<Asset> {
    if assets == [] then None
    else if assets[|assets| - 1].id == id then Some(assets[|assets| - 1])
    else AssetById(assets[..|assets| - 1], id)
  }

  function Refusal(p: Progress, h: Header): Option<Error> {
    var asset := AssetById(p.assets, h.assetId);
    if h.assetId in p.seen then Some(DuplicateAsset)
    else if p.count >= p.limits.maxAssetFiles then Some(TooManyFiles)
    else if asset.None? then Some(UnknownAsset)
    else if !asset.value.embeddable then Some(NotEmbeddable)
    else if h.name != asset.value.name || h.mimeType != asset.value.mimeType
      || h.sizeBytes != asset.value.sizeBytes then Some(MetadataMismatch)
    else if h.sizeBytes > p.limits.maxAssetBytes then Some(AssetTooLarge)
    else if p.total + h.sizeBytes > p.limits.maxEmbeddedAssetBytes then Some(AggregateTooLarge)
    else None
  }

  function Advance(p: Progress, h: Header): Progress {
    p.(seen := p.seen + {h.assetId}, total := p.total + h.sizeBytes, count := p.count + 1)
  }

  function DigestRefusal(p: Progress, h: Header, actual: Bytes, expected: Bytes): Option<Error> {
    var asset := AssetById(p.assets, h.assetId);
    if actual != expected then Some(ChecksumMismatch)
    else if asset.Some? && asset.value.checksum.Some? && asset.value.checksum.value != actual then
      Some(MetadataChecksumMismatch)
    else None
  }

  // ----- The parser as a function of the whole input -----

  function ParseFrames(b: Bytes, p: Progress, codec: Codec): Result<seq<Frame>, Error>
    decreases |b|
  {
    if |b| < 4 then Err(Truncated)
    else
      var n, rest := WordValue(b[..4]), b[4..];
      if n == 0 then if rest == [] then Ok([]) else Err(TrailingBytes)
      else if n > MAX_HEADER_BYTES then Err(HeaderTooLarge)
      else if |rest| < n then Err(Truncated)
      else ParseBody(rest[..n], rest[n..], p, codec)
  }

  function ParseBody(text: Bytes, rest: Bytes, p: Progress, codec: Codec): Result<seq<Frame>, Error>
    requires |text| <= MAX_HEADER_BYTES
    decreases |rest|
  {
    var header := codec.parseHeader(text);
    if header.None? then Err(BadHeader)
    else
      var h := header.value;
      var refusal := Refusal(p, h);
      if refusal.Some? then Err(refusal.value)
      else if |rest| < h.sizeBytes then Err(Truncated)
      else
        var body, after := rest[..h.sizeBytes], rest[h.sizeBytes..];
        if |after| < DIGEST_BYTES then Err(Truncated)
        else
          var bad := DigestRefusal(p, h, codec.hash(body), after[..DIGEST_BYTES]);
          if bad.Some? then Err(bad.value)
          else
            var more := ParseFrames(after[DIGEST_BYTES..], Advance(p, h), codec);
            if more.Err? then more else Ok([Frame(text, body)] + more.value)
  }

  datatype Parsed = Parsed(meta: Bytes, archive: Archive, frames: seq<Frame>)

  function Start(a: Archive, limits: Limits): Progress { Progress(a.assets, limits, {}, 0, 0) }

  function Parse(b: Bytes, limits: Limits, codec: Codec): Result<Parsed, Error> {
    if |b| < |MAGIC| then Err(Truncated)
    else if b[..|MAGIC|] != MAGIC then Err(BadMagic)
    else if |b[|MAGIC|..]| < 4 then Err(Truncated)
    else ParseMeta(WordValue(b[|MAGIC|..][..4]), b[|MAGIC|..][4..], limits, codec)
  }

  function ParseMeta(n: nat, rest: Bytes, limits: Limits, codec: Codec): Result<Parsed, Error> {
    if n == 0 then Err(EmptyMetadata)
    else if n > limits.maxMetadataBytes then Err(MetadataTooLarge)
    else if |rest| < n then Err(Truncated)
    else
      var archive := codec.parseMeta(rest[..n]);
      if archive.None? then Err(BadMetadata)
      else if archive.value.embedsFiles then Err(EmbeddedFiles)
      else
        var frames := ParseFrames(rest[n..], Start(archive.value, limits), codec);
        if frames.Err? then Err(frames.error) else Ok(Parsed(rest[..n], archive.value, frames.value))
  }

  // ----- The bijection -----

  /** The frames the parser lets through, in the state it has reached. */
  predicate Acceptable(fs: seq<Frame>, p: Progress, codec: Codec) {
    fs == [] ||
    var f := fs[0];
    var header := codec.parseHeader(f.header);
    && 0 < |f.header|
    && header.Some?
    && Refusal(p, header.value).None?
    && |f.body| == header.value.sizeBytes
    && DigestRefusal(p, header.value, codec.hash(f.body), codec.hash(f.body)).None?
    && Acceptable(fs[1..], Advance(p, header.value), codec)
  }

  predicate AcceptableArchive(meta: Bytes, fs: seq<Frame>, limits: Limits, codec: Codec) {
    && 0 < |meta| < MAX_WORD && |meta| <= limits.maxMetadataBytes
    && codec.parseMeta(meta).Some? && !codec.parseMeta(meta).value.embedsFiles
    && Acceptable(fs, Start(codec.parseMeta(meta).value, limits), codec)
  }

  /** The header is that of an asset listed to be embedded, and the body is that asset's. */
  ghost predicate Fits(f: Frame, assets: seq<Asset>, limits: Limits, codec: Codec) {
    var h := codec.parseHeader(f.header);
    && f.header != [] && h.Some? && |f.body| == h.value.sizeBytes <= limits.maxAssetBytes
    && exists k :: ListedLast(assets, h.value.assetId, k) && Describes(h.value, assets[k])
         && (assets[k].checksum.Some? ==> assets[k].checksum.value == codec.hash(f.body))
  }

  ghost predicate ListedLast(assets: seq<Asset>, id: string, k: int) {
    0 <= k < |assets| && assets[k].id == id && forall j :: k < j < |assets| ==> assets[j].id != id
  }

  ghost predicate Describes(h: Header, a: Asset) {
    a.embeddable && h.name == a.name && h.mimeType == a.mimeType && h.sizeBytes == a.sizeBytes
  }

  ghost function IdOf(f: Frame, codec: Codec): Option<string> {
    var h := codec.parseHeader(f.header);
    if h.Some? then Some(h.value.assetId) else None
  }

  ghost function BodyBytes(fs: seq<Frame>): nat { if fs == [] then 0 else |fs[0].body| + BodyBytes(fs[1..]) }

  lemma {:induction false} AssetByIdIs(assets: seq<Asset>, id: string)
    ensures match AssetById(assets, id)
      case Some(a) => exists k :: ListedLast(assets, id, k) && assets[k] == a
      case None => forall k :: !ListedLast(assets, id, k)
  {
    if assets != [] {
      var q := assets[..|assets| - 1];
      if assets[|assets| - 1].id == id {
        assert ListedLast(assets, id, |assets| - 1);
      } else {
        AssetByIdIs(q, id);
        forall k: int ensures ListedLast(assets, id, k) <==> ListedLast(q, id, k) {
          if ListedLast(q, id, k) {
            forall j | k < j < |assets| ensures assets[j].id != id { assert j < |q| ==> q[j].id != id; }
          }
        }
      }
    }
  }

  lemma LastIsOne(assets: seq<Asset>, id: string, j: int, k: int)
    requires ListedLast(assets, id, j) && ListedLast(assets, id, k)
    ensures j == k
  {}

  /** One frame is let through exactly when it fits and keeps the count and the total in bounds. */
  lemma FrameFits(f: Frame, p: Progress, codec: Codec)
    ensures var header := codec.parseHeader(f.header);
      (&& 0 < |f.header| && header.Some? && Refusal(p, header.value).None? && |f.body| == header.value.sizeBytes
       && DigestRefusal(p, header.value, codec.hash(f.body), codec.hash(f.body)).None?)
      <==>
      (&& Fits(f, p.assets, p.limits, codec) && IdOf(f, codec).Some? && IdOf(f, codec).value !in p.seen
       && p.count < p.limits.maxAssetFiles && p.total + |f.body| <= p.limits.maxEmbeddedAssetBytes)
  {
    var header := codec.parseHeader(f.header);
    if header.Some? {
      var id := header.value.assetId;
      AssetByIdIs(p.assets, id);
      forall j, k | ListedLast(p.assets, id, j) && ListedLast(p.assets, id, k) ensures j == k {
        LastIsOne(p.assets, id, j, k);
      }
    }
  }

  ghost predicate OneEach(fs: seq<Frame>, codec: Codec) {
    forall i, j :: 0 <= i < j < |fs| ==> IdOf(fs[i], codec) != IdOf(fs[j], codec)
  }

  ghost predicate NoneSeen(fs: seq<Frame>, seen: set<string>, codec: Codec) {
    forall f <- fs :: IdOf(f, codec).Some? ==> IdOf(f, codec).value !in seen
  }

  lemma {:induction false} FramesFit(fs: seq<Frame>, p: Progress, codec: Codec)
    ensures Acceptable(fs, p, codec) <==>
      && (forall f <- fs :: Fits(f, p.assets, p.limits, codec)) && OneEach(fs, codec) && NoneSeen(fs, p.seen, codec)
      && (fs != [] ==> p.count + |fs| <= p.limits.maxAssetFiles
                       && p.total + BodyBytes(fs) <= p.limits.maxEmbeddedAssetBytes)
  {
    if fs != [] {
      FrameFits(fs[0], p, codec);
      assert forall f :: f in fs <==> f == fs[0] || f in fs[1..];
      var h := codec.parseHeader(fs[0].header);
      if h.Some? {
        var q := Advance(p, h.value);
        FramesFit(fs[1..], q, codec);
        FirstApart(fs, codec);
        assert NoneSeen(fs[1..], q.seen, codec) <==>
          NoneSeen(fs[1..], p.seen, codec) && forall f <- fs[1..] :: IdOf(f, codec) != IdOf(fs[0], codec);
      }
    }
  }

  lemma FirstApart(fs: seq<Frame>, codec: Codec)
    requires fs != []
    ensures OneEach(fs, codec) <==>
      OneEach(fs[1..], codec) && forall f <- fs[1..] :: IdOf(f, codec) != IdOf(fs[0], codec)
  {
    var rest := fs[1..];
    if OneEach(rest, codec) && forall f <- rest :: IdOf(f, codec) != IdOf(fs[0], codec) {
      forall i, j | 0 <= i < j < |fs| ensures IdOf(fs[i], codec) != IdOf(fs[j], codec) {
        assert fs[j] == rest[j - 1] && fs[j] in rest;
        if i > 0 { assert fs[i] == rest[i - 1]; }
      }
    }
    if OneEach(fs, codec) {
      forall i, j | 0 <= i < j < |rest| ensures IdOf(rest[i], codec) != IdOf(rest[j], codec) {
        assert rest[i] == fs[i + 1] && rest[j] == fs[j + 1];
      }
      forall f <- rest ensures IdOf(f, codec) != IdOf(fs[0], codec) {
        var i :| 0 <= i < |rest| && rest[i] == f;
        assert fs[i + 1] == f;
      }
    }
  }

  /** What the parser lets through: every frame is that of a listed asset, no asset comes twice,
      and the number of files and their bytes together stay within the limits. */
  lemma AcceptableIff(fs: seq<Frame>, a: Archive, limits: Limits, codec: Codec)
    ensures Acceptable(fs, Start(a, limits), codec) <==>
      && (forall f <- fs :: Fits(f, a.assets, limits, codec)) && OneEach(fs, codec)
      && |fs| <= limits.maxAssetFiles && BodyBytes(fs) <= limits.maxEmbeddedAssetBytes
  {
    FramesFit(fs, Start(a, limits), codec);
  }

  lemma {:induction false} FramesParse(fs: seq<Frame>, p: Progress, codec: Codec)
    requires DigestSized(codec) && Acceptable(fs, p, codec)
    ensures ParseFrames(FramesWire(fs, codec), p, codec) == Ok(fs)
  {
    if fs == [] {
      WordRoundTrip(0);
      assert Word(0)[..4] == Word(0);
    } else {
      var h := codec.parseHeader(fs[0].header).value;
      FramesParse(fs[1..], Advance(p, h), codec);
      BodyParses(fs[0], h, FramesWire(fs[1..], codec), p, codec, fs[1..]);
      HeaderParses(fs[0], FramesWire(fs[1..], codec), p, codec);
      assert fs == [fs[0]] + fs[1..];
    }
  }

  lemma Regroup(a: Bytes, b: Bytes, c: Bytes, d: Bytes, e: Bytes)
    ensures a + b + c + d + e == a + (b + (c + (d + e)))
  {
  }

  lemma HeaderParses(f: Frame, more: Bytes, p: Progress, codec: Codec)
    requires 0 < |f.header|
    ensures ParseFrames(FrameWire(f, codec) + more, p, codec)
      == ParseBody(f.header, f.body + (codec.hash(f.body) + more), p, codec)
  {
    var n := |f.header|;
    var tail := f.body + (codec.hash(f.body) + more);
    var b := FrameWire(f, codec) + more;
    WordRoundTrip(n);
    Regroup(Word(n), f.header, f.body, codec.hash(f.body), more);
    assert b[..4] == Word(n) && b[4..] == f.header + tail;
    assert b[4..][..n] == f.header && b[4..][n..] == tail;
  }

  lemma BodyParses(f: Frame, h: Header, more: Bytes, p: Progress, codec: Codec, fs: seq<Frame>)
    requires DigestSized(codec) && codec.parseHeader(f.header) == Some(h) && Refusal(p, h).None?
    requires |f.body| == h.sizeBytes && DigestRefusal(p, h, codec.hash(f.body), codec.hash(f.body)).None?
    requires ParseFrames(more, Advance(p, h), codec) == Ok(fs)
    ensures ParseBody(f.header, f.body + (codec.hash(f.body) + more), p, codec) == Ok([f] + fs)
  {
    var digest := codec.hash(f.body);
    var rest := f.body + (digest + more);
    assert rest[..h.sizeBytes] == f.body && rest[h.sizeBytes..] == digest + more;
    assert (digest + more)[..DIGEST_BYTES] == digest && (digest + more)[DIGEST_BYTES..] == more;
  }

  lemma {:induction false} ParsedFramesAreWire(b: Bytes, p: Progress, codec: Codec)
    requires ParseFrames(b, p, codec).Ok?
    ensures var fs := ParseFrames(b, p, codec).value;
      Acceptable(fs, p, codec) && b == FramesWire(fs, codec)
    decreases |b|
  {
    var n, rest := WordValue(b[..4]), b[4..];
    LengthFirst(b);
    if n != 0 {
      ParsedBodyIsWire(rest[..n], rest[n..], p, codec);
      assert rest == rest[..n] + rest[n..];
      FirstFrame(ParseFrames(b, p, codec).value, rest[n..], codec);
    }
  }

  lemma LengthFirst(b: Bytes)
    requires |b| >= 4
    ensures b == Word(WordValue(b[..4])) + b[4..]
  {
    ValueRoundTrip(b[..4]);
  }

  lemma FirstFrame(fs: seq<Frame>, tail: Bytes, codec: Codec)
    requires fs != [] && tail == fs[0].body + (codec.hash(fs[0].body) + FramesWire(fs[1..], codec))
    ensures FramesWire(fs, codec) == Word(|fs[0].header|) + (fs[0].header + tail)
  {
    Regroup(Word(|fs[0].header|), fs[0].header, fs[0].body, codec.hash(fs[0].body), FramesWire(fs[1..], codec));
  }

  lemma {:induction false} ParsedBodyIsWire(text: Bytes, tail: Bytes, p: Progress, codec: Codec)
    requires 0 < |text| <= MAX_HEADER_BYTES && ParseBody(text, tail, p, codec).Ok?
    ensures var fs := ParseBody(text, tail, p, codec).value;
      && Acceptable(fs, p, codec) && fs != [] && fs[0].header == text
      && tail == fs[0].body + (codec.hash(fs[0].body) + FramesWire(fs[1..], codec))
    decreases |tail|
  {
    var h := codec.parseHeader(text).value;
    var body, after := tail[..h.sizeBytes], tail[h.sizeBytes..];
    var digest, more := after[..DIGEST_BYTES], after[DIGEST_BYTES..];
    ParsedFramesAreWire(more, Advance(p, h), codec);
    var fs, gs := ParseBody(text, tail, p, codec).value, ParseFrames(more, Advance(p, h), codec).value;
    assert fs == [Frame(text, body)] + gs && fs[1..] == gs;
    assert tail == body + after && after == digest + more;
  }

  /** Everything laid out from acceptable parts is parsed back to those parts, byte for byte. */
  lemma WireParses(meta: Bytes, fs: seq<Frame>, limits: Limits, codec: Codec)
    requires DigestSized(codec) && AcceptableArchive(meta, fs, limits, codec)
    ensures Parse(Wire(meta, fs, codec), limits, codec) == Ok(Parsed(meta, codec.parseMeta(meta).value, fs))
  {
    FramesParse(fs, Start(codec.parseMeta(meta).value, limits), codec);
    WordRoundTrip(|meta|);
    MagicSplits(Word(|meta|), meta, FramesWire(fs, codec));
  }

  lemma MagicSplits(word: Bytes, meta: Bytes, frames: Bytes)
    requires |word| == 4
    ensures var b := MAGIC + word + meta + frames;
      && |b| >= |MAGIC| && b[..|MAGIC|] == MAGIC
      && |b[|MAGIC|..]| >= 4 && b[|MAGIC|..][..4] == word
      && b[|MAGIC|..][4..] == meta + frames
      && (meta + frames)[..|meta|] == meta && (meta + frames)[|meta|..] == frames
  {
    var b := MAGIC + word + meta + frames;
    assert b == MAGIC + (word + (meta + frames));
    assert b[|MAGIC|..] == word + (meta + frames);
  }

  /** Nothing else is accepted: a parsed input is the layout of exactly what was returned,
      with no byte skipped, added or left over. */
  lemma OnlyWireParses(b: Bytes, limits: Limits, codec: Codec)
    requires Parse(b, limits, codec).Ok?
    ensures var r := Parse(b, limits, codec).value;
      && AcceptableArchive(r.meta, r.frames, limits, codec)
      && codec.parseMeta(r.meta) == Some(r.archive)
      && b == Wire(r.meta, r.frames, codec)
  {
    var tail := b[|MAGIC|..];
    var n, rest := WordValue(tail[..4]), tail[4..];
    ValueRoundTrip(tail[..4]);
    assert b == MAGIC + tail && tail == Word(n) + rest && rest == rest[..n] + rest[n..];
    ParsedFramesAreWire(rest[n..], Start(codec.parseMeta(rest[..n]).value, limits), codec);
  }

  /** Hence different archives never share a byte string. */
  lemma WireInjective(m1: Bytes, f1: seq<Frame>, m2: Bytes, f2: seq<Frame>, limits: Limits, codec: Codec)
    requires DigestSized(codec) && AcceptableArchive(m1, f1, limits, codec) && AcceptableArchive(m2, f2, limits, codec)
    requires Wire(m1, f1, codec) == Wire(m2, f2, codec)
    ensures m1 == m2 && f1 == f2
  {
    WireParses(m1, f1, limits, codec);
    WireParses(m2, f2, limits, codec);
  }
}
