/** Base64 as the archive writes and reads it (section 4 of RFC 4648): encoding a stream with a
    carry, checking the shape of a text against a declared size, and decoding in chunks. */
module Base64 {
  import opened Json
  import opened ArchiveFraming
  import opened ArchiveStream
  import opened Sequences

  type sextet = n: int | 0 <= n < 64

  function Symbol(v: sextet): char {
    if v < 26 then (65 + v) as char
    else if v < 52 then (97 + v - 26) as char
    else if v < 62 then (48 + v - 52) as char
    else if v == 62 then '+' else '/'
  }

  predicate IsSymbol(c: char) {
    'A' <= c <= 'Z' || 'a' <= c <= 'z' || '0' <= c <= '9' || c == '+' || c == '/'
  }

  function ValueOf(c: char): sextet
    requires IsSymbol(c)
  {
    if 'A' <= c <= 'Z' then c as int - 65
    else if 'a' <= c <= 'z' then c as int - 97 + 26
    else if '0' <= c <= '9' then c as int - 48 + 52
    else if c == '+' then 62 else 63
  }

  lemma SymbolValue(v: sextet)
    ensures IsSymbol(Symbol(v)) && ValueOf(Symbol(v)) == v
  {
  }

  lemma ValueSymbol(c: char)
    requires IsSymbol(c)
    ensures Symbol(ValueOf(c)) == c
  {
  }

  // ----- Six bits and eight -----

  function S0(a: byte): sextet { a / 4 }
  function S1(a: byte, b: byte): sextet { a % 4 * 16 + b / 16 }
  function S2(b: byte, c: byte): sextet { b % 16 * 4 + c / 64 }
  function S3(c: byte): sextet { c % 64 }

  function First(q0: sextet, q1: sextet): byte { q0 * 4 + q1 / 16 }
  function Second(q1: sextet, q2: sextet): byte { q1 % 16 * 16 + q2 / 4 }
  function Third(q2: sextet, q3: sextet): byte { q2 % 4 * 64 + q3 }

  lemma BytesOfSextets(a: byte, b: byte, c: byte)
    ensures First(S0(a), S1(a, b)) == a
    ensures Second(S1(a, b), S2(b, c)) == b
    ensures Third(S2(b, c), S3(c)) == c
  {
  }

  lemma SextetsOfBytes(q0: sextet, q1: sextet, q2: sextet, q3: sextet)
    ensures S0(First(q0, q1)) == q0
    ensures S1(First(q0, q1), Second(q1, q2)) == q1
    ensures S2(Second(q1, q2), Third(q2, q3)) == q2
    ensures S3(Third(q2, q3)) == q3
  {
  }

  lemma SpareBits(q0: sextet, q1: sextet, q2: sextet)
    ensures S1(First(q0, q1), 0) == q1 <==> q1 % 16 == 0
    ensures S2(Second(q1, q2), 0) == q2 <==> q2 % 4 == 0
  {
  }

  lemma Listed<T>(s: seq<T>)
    ensures |s| == 1 ==> s == [s[0]]
    ensures |s| == 2 ==> s == [s[0], s[1]]
    ensures |s| >= 3 ==> s == [s[0], s[1], s[2]] + s[3..]
    ensures |s| == 4 ==> s == [s[0], s[1], s[2], s[3]]
    ensures |s| >= 4 ==> s[..4] == [s[0], s[1], s[2], s[3]]
  {
  }

  lemma Leading<T>(a: T, b: T, c: T, rest: seq<T>)
    ensures ([a, b, c] + rest)[3..] == rest
  {
  }

  // ----- Encoding -----

  function Quad(a: byte, b: byte, c: byte): string {
    [Symbol(S0(a)), Symbol(S1(a, b)), Symbol(S2(b, c)), Symbol(S3(c))]
  }

  function Encode(b: Bytes): string {
    if b == [] then ""
    else if |b| == 1 then [Symbol(S0(b[0])), Symbol(S1(b[0], 0)), '=', '=']
    else if |b| == 2 then [Symbol(S0(b[0])), Symbol(S1(b[0], b[1])), Symbol(S2(b[1], 0)), '=']
    else Quad(b[0], b[1], b[2]) + Encode(b[3..])
  }

  lemma {:induction false} EncodeSplit(a: Bytes, b: Bytes)
    requires |a| % 3 == 0
    ensures Encode(a + b) == Encode(a) + Encode(b)
  {
    if a == [] {
      assert a + b == b;
    } else {
      EncodeSplit(a[3..], b);
      assert (a + b)[3..] == a[3..] + b;
      assert Encode(a + b) == Quad(a[0], a[1], a[2]) + Encode(a[3..] + b);
      Regrouped(Quad(a[0], a[1], a[2]), Encode(a[3..]), Encode(b));
    }
  }

  /** What was read is the part encoded so far, whole triples, and what is carried. */
  ghost predicate Carried(all: Bytes, done: Bytes, carry: Bytes) {
    all == done + carry && |done| % 3 == 0 && |carry| < 3
  }

  lemma CarriedMore(all: Bytes, done: Bytes, carry: Bytes, chunk: Bytes, complete: Bytes, rest: Bytes)
    requires Carried(all, done, carry) && carry + chunk == complete + rest && |complete| % 3 == 0 && |rest| < 3
    ensures Carried(all + chunk, done + complete, rest)
  {
    Recut(done, carry, chunk, complete, rest);
    Threes(|done|, |complete|);
  }

  lemma Threes(m: nat, n: nat)
    requires m % 3 == 0 && n % 3 == 0
    ensures (m + n) % 3 == 0
  {}

  lemma Recut(done: Bytes, carry: Bytes, chunk: Bytes, complete: Bytes, rest: Bytes)
    requires carry + chunk == complete + rest
    ensures (done + carry) + chunk == (done + complete) + rest
  {
    Regrouped(done, carry, chunk);
    Regrouped(done, complete, rest);
  }

  lemma CarriedDone(all: Bytes, done: Bytes, carry: Bytes)
    requires Carried(all, done, carry)
    ensures Encode(done) + Encode(carry) == Encode(all) && (carry == [] ==> Encode(done) == Encode(all))
  {
    EncodeSplit(done, carry);
    if carry == [] { assert done + carry == done; }
  }

  /** Streaming with a carry of up to two bytes writes the encoding of the whole, however
      the bytes are split; it gives up exactly when there are too many. */
  method EncodeStream(chunks: seq<Bytes>, maxBytes: nat) returns (text: Option<string>)
    ensures text == if |Join(chunks)| <= maxBytes then Some(Encode(Join(chunks))) else None
  {
    var encoded := "";
    var carry: Bytes := [];
    ghost var done: Bytes := [];
    var sizeBytes := 0;
    for n := 0 to |chunks|
      invariant sizeBytes == |Join(chunks[..n])| <= maxBytes
      invariant Carried(Join(chunks[..n]), done, carry)
      invariant encoded == Encode(done)
    {
      JoinSplit(chunks, n);
      sizeBytes := sizeBytes + |chunks[n]|;
      if sizeBytes > maxBytes { return None; }
      var more, rest;
      ghost var complete;
      more, rest, complete := EncodeCarried(carry, chunks[n]);
      CarriedMore(Join(chunks[..n]), done, carry, chunks[n], complete, rest);
      EncodeSplit(done, complete);
      encoded, carry, done := encoded + more, rest, done + complete;
    }
    assert chunks[..|chunks|] == chunks;
    CarriedDone(Join(chunks), done, carry);
    if |carry| > 0 { encoded := encoded + Encode(carry); }
    text := Some(encoded);
  }

  /** One chunk: whole triples are encoded at once, the rest is carried over. */
  method EncodeCarried(carry: Bytes, chunk: Bytes) returns (text: string, rest: Bytes, ghost complete: Bytes)
    ensures carry + chunk == complete + rest && |complete| % 3 == 0 && |rest| < 3
    ensures text == Encode(complete)
  {
    var combined := if |carry| > 0 then carry + chunk else chunk;
    var completeBytes := |combined| - |combined| % 3;
    text := if completeBytes > 0 then Encode(combined[..completeBytes]) else "";
    rest := if completeBytes < |combined| then combined[completeBytes..] else [];
    complete := combined[..completeBytes];
    assert combined == complete + combined[completeBytes..];
  }

  // ----- Shape -----

  function EncodedLength(size: nat): nat { (size + 2) / 3 * 4 }

  function Padding(size: nat): nat { if size % 3 == 0 then 0 else 3 - size % 3 }

  /** Right length, symbols up to the padding, and only padding after. */
  predicate Shape(data: string, size: nat) {
    && |data| == EncodedLength(size)
    && forall i :: 0 <= i < |data| ==> if i >= |data| - Padding(size) then data[i] == '=' else IsSymbol(data[i])
  }

  method CanonicalBase64Shape(data: string, size: nat) returns (ok: bool)
    ensures ok == Shape(data, size)
  {
    if |data| != (size + 2) / 3 * 4 { return false; }
    var padding := if size % 3 == 0 then 0 else 3 - size % 3;
    var contentLength := |data| - padding;
    for index := 0 to |data|
      invariant forall i :: 0 <= i < index ==> if i >= contentLength then data[i] == '=' else IsSymbol(data[i])
    {
      if index >= contentLength {
        if data[index] != '=' { return false; }
        continue;
      }
      if !IsSymbol(data[index]) { return false; }
    }
    ok := true;
  }

  // ----- Decoding -----

  /** Decoding of text whose only foreign characters are padding: a quad with padding
      yields the bytes before it and ends the text. */
  function Decode(data: string): Bytes {
    if |data| < 4 || !IsSymbol(data[0]) || !IsSymbol(data[1]) then []
    else
      var q0, q1 := ValueOf(data[0]), ValueOf(data[1]);
      var first := First(q0, q1);
      if !IsSymbol(data[2]) then [first]
      else
        var q2 := ValueOf(data[2]);
        var second := Second(q1, q2);
        if !IsSymbol(data[3]) then [first, second]
        else
          var third := Third(q2, ValueOf(data[3]));
          [first, second, third] + Decode(data[4..])
  }

  /** Text without padding in its first part decodes part by part. */
  lemma {:induction false} DecodeSplit(a: string, b: string)
    requires |a| % 4 == 0 && forall i :: 0 <= i < |a| ==> IsSymbol(a[i])
    ensures Decode(a + b) == Decode(a) + Decode(b)
  {
    if a == [] {
      assert a + b == b;
    } else {
      DecodeSplit(a[4..], b);
      assert (a + b)[4..] == a[4..] + b;
      DecodeFirst(a + b);
      DecodeFirst(a);
      assert (a + b)[..4] == a[..4];
      Regrouped(Decode(a[..4]), Decode(a[4..]), Decode(b));
    }
  }

  lemma DecodeFirst(data: string)
    requires |data| >= 4 && forall i :: 0 <= i < 4 ==> IsSymbol(data[i])
    ensures Decode(data) == Decode(data[..4]) + Decode(data[4..])
  {
    assert data[..4][4..] == "";
  }

  lemma ShapeTail(data: string, size: nat)
    requires Shape(data, size) && size > 3
    ensures Shape(data[4..], size - 3) && forall i :: 0 <= i < 4 ==> IsSymbol(data[i])
  {
    ThreeFewer(size);
  }

  lemma ThreeFewer(size: nat)
    requires size >= 3
    ensures (size - 3) % 3 == size % 3 && EncodedLength(size - 3) == EncodedLength(size) - 4
      && Padding(size - 3) == Padding(size)
  {}

  lemma PadBitsTail(data: string, size: nat)
    requires Shape(data, size) && size > 3 && Shape(data[4..], size - 3)
    ensures PadBitsZero(data, size) <==> PadBitsZero(data[4..], size - 3)
  {
    ThreeFewer(size);
    var rest := data[4..];
    assert |rest| >= 4 && rest[|rest| - 3] == data[|data| - 3] && rest[|rest| - 2] == data[|data| - 2];
  }

  /** A text of the right shape decodes to exactly the declared number of bytes. */
  lemma {:induction false} ShapeGivesSize(data: string, size: nat)
    requires Shape(data, size)
    ensures |Decode(data)| == size
    decreases size
  {
    if size > 3 {
      ShapeTail(data, size);
      ShapeGivesSize(data[4..], size - 3);
    } else if size == 3 {
      assert |data[4..]| == 0;
    }
  }

  lemma DecodeSymbols(q0: sextet, q1: sextet, q2: sextet, q3: sextet, rest: string)
    ensures Decode([Symbol(q0), Symbol(q1), Symbol(q2), Symbol(q3)] + rest)
      == [First(q0, q1), Second(q1, q2), Third(q2, q3)] + Decode(rest)
    ensures Decode([Symbol(q0), Symbol(q1), '=', '=']) == [First(q0, q1)]
    ensures Decode([Symbol(q0), Symbol(q1), Symbol(q2), '=']) == [First(q0, q1), Second(q1, q2)]
  {
    SymbolValue(q0); SymbolValue(q1); SymbolValue(q2); SymbolValue(q3);
    var data := [Symbol(q0), Symbol(q1), Symbol(q2), Symbol(q3)] + rest;
    assert data[4..] == rest;
  }

  /** Decoding undoes encoding, ... */
  lemma {:induction false} DecodeEncode(b: Bytes)
    ensures Decode(Encode(b)) == b
  {
    if |b| >= 3 {
      DecodeEncode(b[3..]);
      DecodeSymbols(S0(b[0]), S1(b[0], b[1]), S2(b[1], b[2]), S3(b[2]), Encode(b[3..]));
      BytesOfSextets(b[0], b[1], b[2]);
      Listed(b);
    } else if |b| == 2 {
      DecodeSymbols(S0(b[0]), S1(b[0], b[1]), S2(b[1], 0), 0, "");
      BytesOfSextets(b[0], b[1], 0);
      Listed(b);
    } else if |b| == 1 {
      DecodeSymbols(S0(b[0]), S1(b[0], 0), 0, 0, "");
      BytesOfSextets(b[0], 0, 0);
      Listed(b);
    }
  }

  /** ... and every encoding passes the shape check for its size. */
  lemma {:induction false} EncodeShape(b: Bytes)
    ensures Shape(Encode(b), |b|)
  {
    if |b| >= 3 {
      EncodeShape(b[3..]);
      SymbolValue(S0(b[0])); SymbolValue(S1(b[0], b[1])); SymbolValue(S2(b[1], b[2])); SymbolValue(S3(b[2]));
      ShapePrepend(Quad(b[0], b[1], b[2]), Encode(b[3..]), |b| - 3);
    } else if |b| == 2 {
      SymbolValue(S0(b[0])); SymbolValue(S1(b[0], b[1])); SymbolValue(S2(b[1], 0));
    } else if |b| == 1 {
      SymbolValue(S0(b[0])); SymbolValue(S1(b[0], 0));
    }
  }

  lemma ShapePrepend(quad: string, data: string, size: nat)
    requires Shape(data, size) && |quad| == 4 && forall i :: 0 <= i < 4 ==> IsSymbol(quad[i])
    ensures Shape(quad + data, size + 3)
  {
    ThreeFewer(size + 3);
    assert Padding(size) <= |data|;
  }

  /** The bits an encoder leaves at zero before the padding are zero. */
  predicate PadBitsZero(data: string, size: nat)
    requires Shape(data, size)
  {
    && (size % 3 == 1 ==> ValueOf(data[|data| - 3]) % 16 == 0)
    && (size % 3 == 2 ==> ValueOf(data[|data| - 2]) % 4 == 0)
  }

  lemma SymbolInjective(v: sextet, w: sextet)
    ensures Symbol(v) == Symbol(w) <==> v == w
  {
    SymbolValue(v);
    SymbolValue(w);
  }

  /** Decoding and encoding four symbols gives them back. */
  lemma QuadBack(data: string)
    requires |data| >= 4 && forall i :: 0 <= i < 4 ==> IsSymbol(data[i])
    ensures Encode(Decode(data)) == data[..4] + Encode(Decode(data[4..]))
  {
    var q0, q1, q2, q3 := ValueOf(data[0]), ValueOf(data[1]), ValueOf(data[2]), ValueOf(data[3]);
    SextetsOfBytes(q0, q1, q2, q3);
    ValueSymbol(data[0]); ValueSymbol(data[1]); ValueSymbol(data[2]); ValueSymbol(data[3]);
    Leading(First(q0, q1), Second(q1, q2), Third(q2, q3), Decode(data[4..]));
    Listed(data);
  }

  lemma ShortBack(q0: sextet, q1: sextet, q2: sextet)
    ensures Encode(Decode([Symbol(q0), Symbol(q1), '=', '='])) == [Symbol(q0), Symbol(S1(First(q0, q1), 0)), '=', '=']
    ensures Encode(Decode([Symbol(q0), Symbol(q1), Symbol(q2), '=']))
         == [Symbol(q0), Symbol(q1), Symbol(S2(Second(q1, q2), 0)), '=']
  {
    DecodeSymbols(q0, q1, q2, 0, "");
    SextetsOfBytes(q0, q1, q2, 0);
  }

  lemma LastTwo(q0: sextet, q1: sextet)
    ensures var d := [Symbol(q0), Symbol(q1), '=', '=']; Encode(Decode(d)) == d <==> q1 % 16 == 0
  {
    ShortBack(q0, q1, 0);
    SymbolInjective(S1(First(q0, q1), 0), q1);
    SpareBits(q0, q1, 0);
    Differ([Symbol(q0), Symbol(q1), '=', '='], [Symbol(q0), Symbol(S1(First(q0, q1), 0)), '=', '='], 1);
  }

  lemma LastThree(q0: sextet, q1: sextet, q2: sextet)
    ensures var d := [Symbol(q0), Symbol(q1), Symbol(q2), '=']; Encode(Decode(d)) == d <==> q2 % 4 == 0
  {
    ShortBack(q0, q1, q2);
    SymbolInjective(S2(Second(q1, q2), 0), q2);
    SpareBits(q0, q1, q2);
    Differ([Symbol(q0), Symbol(q1), Symbol(q2), '='], [Symbol(q0), Symbol(q1), Symbol(S2(Second(q1, q2), 0)), '='], 2);
  }

  lemma Differ(s: string, t: string, i: nat)
    requires |s| == |t| == 4 && i < 4 && forall j :: 0 <= j < 4 && j != i ==> s[j] == t[j]
    ensures s == t <==> s[i] == t[i]
  {
  }

  lemma LastQuad(data: string, size: nat)
    requires Shape(data, size) && 1 <= size <= 2
    ensures size == 1 ==> data == [Symbol(ValueOf(data[0])), Symbol(ValueOf(data[1])), '=', '=']
    ensures size == 2 ==> data == [Symbol(ValueOf(data[0])), Symbol(ValueOf(data[1])), Symbol(ValueOf(data[2])), '=']
  {
    ValueSymbol(data[0]); ValueSymbol(data[1]);
    if size == 2 { ValueSymbol(data[2]); }
    Listed(data);
  }

  /** An accepted text is the encoding of its decoding exactly when its spare bits are zero:
      the check does not look at them. */
  lemma {:induction false} EncodeDecodeIff(data: string, size: nat)
    requires Shape(data, size)
    ensures Encode(Decode(data)) == data <==> PadBitsZero(data, size)
    decreases size
  {
    if size > 3 {
      ShapeTail(data, size);
      EncodeDecodeIff(data[4..], size - 3);
      PadBitsTail(data, size);
      QuadBack(data);
      SplitEquality(data, Encode(Decode(data[4..])));
    } else if size == 3 {
      QuadBack(data);
      assert data[4..] == "" && data[..4] == data;
    } else if size == 2 {
      LastQuad(data, size);
      LastThree(ValueOf(data[0]), ValueOf(data[1]), ValueOf(data[2]));
    } else if size == 1 {
      LastQuad(data, size);
      LastTwo(ValueOf(data[0]), ValueOf(data[1]));
    }
  }

  lemma SplitEquality(data: string, rest: string)
    requires |data| >= 4
    ensures data[..4] + rest == data <==> rest == data[4..]
  {
    assert data == data[..4] + data[4..];
    if data[..4] + rest == data { assert rest == (data[..4] + rest)[4..]; }
  }

  const CHUNK_CHARACTERS: nat := 65536

  /** The text up to `offset`, whole quads unless it is all of it, was decoded into `body`. */
  ghost predicate Decoded(data: string, offset: nat, body: Bytes) {
    offset <= |data| && (offset == |data| || offset % 4 == 0) && body == Decode(data[..offset])
  }

  /** The slices before the last hold no padding, so decoding goes slice by slice. */
  lemma DecodedMore(data: string, offset: nat, end: nat, size: nat, body: Bytes)
    requires Shape(data, size) && Decoded(data, offset, body) && offset < end <= |data|
      && (end == |data| || end % 4 == 0)
    ensures Decoded(data, end, body + Decode(data[offset..end])) && |body + Decode(data[offset..end])| <= size
  {
    SymbolsBefore(data, offset, size);
    DecodeSplit(data[..offset], data[offset..end]);
    assert data[..end] == data[..offset] + data[offset..end];
    PrefixNoLonger(data, end, size);
  }

  lemma SymbolsBefore(data: string, offset: nat, size: nat)
    requires Shape(data, size) && offset < |data| && offset % 4 == 0
    ensures forall i :: 0 <= i < offset ==> IsSymbol(data[i])
  {
    Quads(offset, (size + 2) / 3);
    assert Padding(size) <= 2;
  }

  lemma Quads(offset: nat, n: nat)
    requires offset % 4 == 0 && offset < n * 4
    ensures offset + 4 <= n * 4
  {}

  lemma DecodedAll(data: string, body: Bytes)
    requires Decoded(data, |data|, body)
    ensures body == Decode(data)
  {
    assert data[..|data|] == data;
  }

  /** Decodes a file in slices; the size guards inside the loop never fire. */
  method DecodeBase64File(data: string, expectedSize: nat) returns (r: Option<Bytes>)
    ensures r == if Shape(data, expectedSize) then Some(Decode(data)) else None
    ensures r.Some? ==> |r.value| == expectedSize
  {
    var shaped := CanonicalBase64Shape(data, expectedSize);
    if !shaped { return None; }
    ShapeGivesSize(data, expectedSize);
    var body: Bytes := [];
    var offset := 0;
    while offset < |data|
      invariant Decoded(data, offset, body)
    {
      var end := if offset + CHUNK_CHARACTERS <= |data| then offset + CHUNK_CHARACTERS else |data|;
      DecodedMore(data, offset, end, expectedSize, body);
      body := body + Decode(data[offset..end]);
      if |body| > expectedSize { return None; }
      offset := end;
    }
    DecodedAll(data, body);
    r := Some(body);
  }

  lemma {:induction false} PrefixNoLonger(data: string, n: nat, size: nat)
    requires Shape(data, size) && n <= |data|
    ensures |Decode(data[..n])| <= size
    decreases size
  {
    if n >= 4 && size > 3 {
      ShapeTail(data, size);
      PrefixNoLonger(data[4..], n - 4, size - 3);
      assert data[..n][4..] == data[4..][..n - 4];
    } else if n >= 4 {
      assert n == |data| && data[..n] == data;
      ShapeGivesSize(data, size);
    }
  }

  /** The validator's variant: the checksum of the decoded bytes, or nothing. */
  method CanonicalBase64Checksum(value: string, size: nat, codec: Codec) returns (checksum: Option<Bytes>)
    ensures checksum == if Shape(value, size) then Some(codec.hash(Decode(value))) else None
  {
    var body := DecodeBase64File(value, size);
    if body.None? { return None; }
    if |body.value| != size { return None; }
    checksum := Some(codec.hash(body.value));
  }

  /** An embedded file written by the export reads back as its bytes. */
  lemma Base64RoundTrip(chunks: seq<Bytes>)
    ensures Shape(Encode(Join(chunks)), |Join(chunks)|) && Decode(Encode(Join(chunks))) == Join(chunks)
  {
    DecodeEncode(Join(chunks));
    EncodeShape(Join(chunks));
  }

  /** Decoding is not injective: spare bits are ignored. */
  lemma SpareBitsIgnored()
    ensures Shape("QQ==", 1) && Shape("QR==", 1) && Decode("QQ==") == Decode("QR==") && "QQ==" != "QR=="
  {
    assert ValueOf('Q') == 16 && ValueOf('R') == 17;
  }
}
