/**
  The version 2 packfile writer. The compressor and the hash are parameters; the decoder
  below is written from Git's gitformat-pack document and serves as the specification.
 */
module Packfile {
  import opened Bytes
  import opened Io
  import opened Strconv
  import opened Wrappers

  datatype Codec = Codec(
    hash: seq<byte> -> seq<byte>,
    deflate: seq<byte> -> seq<byte>,
    inflate: seq<byte> -> Option<(seq<byte>, seq<byte>)>)

  /** The hash has 20 bytes; compressed data shows where it ends and can be undone. */
  ghost predicate Sound(c: Codec) {
    && (forall x: seq<byte> :: |c.hash(x)| == 20)
    && (forall d: seq<byte>, rest: seq<byte> :: c.inflate(c.deflate(d) + rest) == Some((d, rest)))
  }

  const BLOB: byte := 3
  const TREE: byte := 2

  datatype Object = Object(kind: byte, data: seq<byte>, sha: seq<byte>)

  datatype FileRef = FileRef(name: string, sha: string, size: nat)

  datatype TreeEntry = TreeEntry(mode: seq<byte>, name: seq<byte>, sha: seq<byte>)

  // ----- Object headers

  /** `b | 0x80` */
  function SetHighBit(b: byte): byte {
    if b < 128 then b + 128 else b
  }

  function SizeTail(n: nat): seq<byte> {
    if n == 0 then []
    else if n < 128 then [n]
    else [n % 128 + 128] + SizeTail(n / 128)
  }

  function ObjectHeader(kind: byte, size: nat): seq<byte> {
    var first := kind * 16 % 256 + size % 16;
    [if size >= 16 then SetHighBit(first) else first] + SizeTail(size / 16)
  }

  function DecodeSizeTail(b: seq<byte>): Option<(nat, seq<byte>)> {
    if b == [] then None
    else if b[0] < 128 then Some((b[0], b[1..]))
    else
      var r := DecodeSizeTail(b[1..]);
      if r.None? then None else Some((b[0] - 128 + 128 * r.value.0, r.value.1))
  }

  /** Three bits of type, four low bits of size, then seven bits of size a byte. */
  function DecodeHeader(b: seq<byte>): Option<(byte, nat, seq<byte>)> {
    if b == [] then None
    else
      var kind, low := b[0] / 16 % 8, b[0] % 16;
      if b[0] < 128 then Some((kind, low, b[1..]))
      else
        var r := DecodeSizeTail(b[1..]);
        if r.None? then None else Some((kind, low + 16 * r.value.0, r.value.1))
  }

  lemma {:induction false} SizeTailRoundTrip(n: nat, rest: seq<byte>)
    requires n > 0
    ensures DecodeSizeTail(SizeTail(n) + rest) == Some((n, rest))
  {
    if n >= 128 {
      SizeTailRoundTrip(n / 128, rest);
      assert (SizeTail(n) + rest)[1..] == SizeTail(n / 128) + rest;
    }
  }

  lemma FirstByteFields(kind: byte, low: int, high: int)
    requires kind < 8 && 0 <= low < 16 && (high == 0 || high == 128)
    ensures (kind * 16 % 256 + low + high) / 16 % 8 == kind
    ensures (kind * 16 % 256 + low + high) % 16 == low
  {
  }

  lemma HeaderRoundTrip(kind: byte, size: nat, rest: seq<byte>)
    requires kind < 8
    ensures DecodeHeader(ObjectHeader(kind, size) + rest) == Some((kind, size, rest))
  {
    var b := ObjectHeader(kind, size) + rest;
    FirstByteFields(kind, size % 16, if size >= 16 then 128 else 0);
    assert b[1..] == SizeTail(size / 16) + rest;
    if size >= 16 {
      SizeTailRoundTrip(size / 16, rest);
    }
  }

  lemma {:induction false} SizeTailMinimal(b: seq<byte>)
    requires DecodeSizeTail(b).Some?
    ensures |SizeTail(DecodeSizeTail(b).value.0)| + |DecodeSizeTail(b).value.1| <= |b|
  {
    if b[0] >= 128 {
      SizeTailMinimal(b[1..]);
    }
  }

  /** No other byte string that decodes to the same header is shorter. */
  lemma HeaderMinimal(b: seq<byte>)
    requires DecodeHeader(b).Some?
    ensures var (kind, size, rest) := DecodeHeader(b).value;
      |ObjectHeader(kind, size)| + |rest| <= |b|
  {
    if b[0] >= 128 {
      SizeTailMinimal(b[1..]);
    }
  }

  /** No header is a proper prefix of another. */
  lemma HeadersPrefixFree(kind1: byte, size1: nat, kind2: byte, size2: nat, rest: seq<byte>)
    requires kind1 < 8 && kind2 < 8
    requires ObjectHeader(kind1, size1) + rest == ObjectHeader(kind2, size2)
    ensures kind1 == kind2 && size1 == size2 && rest == []
  {
    HeaderRoundTrip(kind1, size1, rest);
    HeaderRoundTrip(kind2, size2, []);
    assert ObjectHeader(kind2, size2) + [] == ObjectHeader(kind2, size2);
  }

  // ----- The stream

  function EncodedObject(c: Codec, o: Object): seq<byte> {
    ObjectHeader(o.kind, |o.data|) + c.deflate(o.data)
  }

  function EncodedObjects(c: Codec, objects: seq<Object>): seq<byte> {
    if objects == [] then [] else EncodedObject(c, objects[0]) + EncodedObjects(c, objects[1..])
  }

  function StreamHeader(count: nat): (r: seq<byte>)
    ensures |r| == 12
  {
    Ascii("PACK") + PutUint32(2) + PutUint32(count % TWO_32)
  }

  /** Everything the checksum covers. */
  function Checked(c: Codec, objects: seq<Object>): seq<byte> {
    StreamHeader(|objects|) + EncodedObjects(c, objects)
  }

  function Stream(c: Codec, objects: seq<Object>): seq<byte> {
    Checked(c, objects) + c.hash(Checked(c, objects))
  }

  /** `n` whole objects from the front of `b`; types 6 and 7 need a base and are refused. */
  function DecodeObjects(c: Codec, b: seq<byte>, n: nat): (r: Option<(seq<(byte, seq<byte>)>, seq<byte>)>)
    ensures r.Some? ==> |r.value.0| == n
    decreases n
  {
    if n == 0 then Some(([], b))
    else
      var h := DecodeHeader(b);
      if h.None? || !(1 <= h.value.0 <= 4) then None
      else
        var (kind, size, packed) := h.value;
        var d := c.inflate(packed);
        if d.None? || |d.value.0| != size then None
        else
          var r := DecodeObjects(c, d.value.1, n - 1);
          if r.None? then None else Some(([(kind, d.value.0)] + r.value.0, r.value.1))
  }

  function DecodePack(c: Codec, b: seq<byte>): Option<seq<(byte, seq<byte>)>> {
    if |b| < 32 || b[..4] != Ascii("PACK") || Uint32(b, 4) != 2 then None
    else
      var r := DecodeObjects(c, b[12..], Uint32(b, 8));
      if r.Some? && r.value.1 == c.hash(b[..|b| - 20]) then Some(r.value.0) else None
  }

  function Contents(objects: seq<Object>): seq<(byte, seq<byte>)> {
    seq(|objects|, i requires 0 <= i < |objects| => (objects[i].kind, objects[i].data))
  }

  /** The objects `AddBlob` and `AddTree` make. */
  ghost predicate BlobsAndTrees(objects: seq<Object>) {
    forall i :: 0 <= i < |objects| ==> objects[i].kind == BLOB || objects[i].kind == TREE
  }

  lemma {:induction false} ObjectsRoundTrip(c: Codec, objects: seq<Object>, rest: seq<byte>)
    requires Sound(c) && BlobsAndTrees(objects)
    ensures DecodeObjects(c, EncodedObjects(c, objects) + rest, |objects|) == Some((Contents(objects), rest))
  {
    if objects == [] {
      assert EncodedObjects(c, objects) + rest == rest;
    } else {
      var o, after := objects[0], EncodedObjects(c, objects[1..]) + rest;
      var b := EncodedObjects(c, objects) + rest;
      assert b == ObjectHeader(o.kind, |o.data|) + (c.deflate(o.data) + after);
      ObjectsRoundTrip(c, objects[1..], rest);
      OneMoreObject(c, o, after, |objects| - 1, Contents(objects[1..]), rest);
      assert Contents(objects) == [(o.kind, o.data)] + Contents(objects[1..]);
    }
  }

  lemma OneMoreObject(c: Codec, o: Object, after: seq<byte>, n: nat, contents: seq<(byte, seq<byte>)>, rest: seq<byte>)
    requires Sound(c) && (o.kind == BLOB || o.kind == TREE)
    requires DecodeObjects(c, after, n) == Some((contents, rest))
    ensures DecodeObjects(c, ObjectHeader(o.kind, |o.data|) + (c.deflate(o.data) + after), n + 1) ==
            Some(([(o.kind, o.data)] + contents, rest))
  {
    HeaderRoundTrip(o.kind, |o.data|, c.deflate(o.data) + after);
  }

  lemma StreamFields(c: Codec, objects: seq<Object>)
    requires Sound(c)
    ensures var b := Stream(c, objects);
      && |b| >= 32 && b[..4] == Ascii("PACK") && Uint32(b, 4) == 2 && Uint32(b, 8) == |objects| % TWO_32
      && b[..|b| - 20] == Checked(c, objects) && b[|b| - 20..] == c.hash(b[..|b| - 20])
      && b[12..] == EncodedObjects(c, objects) + c.hash(Checked(c, objects))
  {
    var encoded, hash := EncodedObjects(c, objects), c.hash(Checked(c, objects));
    HeaderFields(Ascii("PACK"), |objects| % TWO_32, encoded + hash);
    Associates(StreamHeader(|objects|), encoded, hash);
    TakeAndDrop(StreamHeader(|objects|), encoded + hash);
    TakeAndDrop(Checked(c, objects), hash);
  }

  lemma TakeAndDrop(a: seq<byte>, b: seq<byte>)
    ensures (a + b)[..|a|] == a && (a + b)[|a|..] == b
  {
  }

  lemma Associates(a: seq<byte>, b: seq<byte>, c: seq<byte>)
    ensures (a + b) + c == a + (b + c)
  {
  }

  lemma HeaderFields(magic: seq<byte>, count: int, after: seq<byte>)
    requires |magic| == 4 && 0 <= count < TWO_32
    ensures var b := (magic + PutUint32(2) + PutUint32(count)) + after;
      b[..4] == magic && Uint32(b, 4) == 2 && Uint32(b, 8) == count
  {
    var b := (magic + PutUint32(2) + PutUint32(count)) + after;
    assert b == magic + (PutUint32(2) + (PutUint32(count) + after));
    Uint32OfPut(magic, 2, PutUint32(count) + after);
    assert b == (magic + PutUint32(2)) + (PutUint32(count) + after);
    Uint32OfPut(magic + PutUint32(2), count, after);
  }

  lemma DecodesFromFields(c: Codec, b: seq<byte>, objects: seq<Object>)
    requires Sound(c) && BlobsAndTrees(objects)
    requires |b| >= 32 && b[..4] == Ascii("PACK") && Uint32(b, 4) == 2 && Uint32(b, 8) == |objects|
    requires b[12..] == EncodedObjects(c, objects) + c.hash(b[..|b| - 20])
    ensures DecodePack(c, b) == Some(Contents(objects))
  {
    ObjectsRoundTrip(c, objects, c.hash(b[..|b| - 20]));
  }

  lemma DecodedCount(c: Codec, b: seq<byte>)
    requires DecodePack(c, b).Some?
    ensures |b| >= 32 && |DecodePack(c, b).value| == Uint32(b, 8)
  {
  }

  /** A reader gets back exactly the objects, in order, if and only if their number fits in 32 bits. */
  lemma PackRoundTrip(c: Codec, objects: seq<Object>)
    requires Sound(c) && BlobsAndTrees(objects)
    ensures DecodePack(c, Stream(c, objects)) == Some(Contents(objects)) <==> |objects| < TWO_32
  {
    var b := Stream(c, objects);
    StreamFields(c, objects);
    if |objects| < TWO_32 {
      DecodesFromFields(c, b, objects);
    } else if DecodePack(c, b).Some? {
      DecodedCount(c, b);
    }
  }

  // ----- Trees

  function EncodedEntry(e: TreeEntry): seq<byte> {
    e.mode + ([32] + (e.name + ([0] + e.sha)))
  }

  function TreeData(entries: seq<TreeEntry>): seq<byte> {
    if entries == [] then [] else EncodedEntry(entries[0]) + TreeData(entries[1..])
  }

  /** What comes before and after the first `stop`. */
  function Until(b: seq<byte>, stop: byte): (r: Option<(seq<byte>, seq<byte>)>)
    ensures r.Some? ==> |r.value.1| < |b| && stop !in r.value.0
  {
    if b == [] then None
    else if b[0] == stop then Some(([], b[1..]))
    else
      var r := Until(b[1..], stop);
      if r.None? then None else Some(([b[0]] + r.value.0, r.value.1))
  }

  function DecodeTree(b: seq<byte>): (r: Option<seq<TreeEntry>>)
    ensures r.Some? ==> forall i :: 0 <= i < |r.value| ==> Readable(r.value[i])
    decreases |b|
  {
    if b == [] then Some([])
    else
      var mode := Until(b, 32);
      if mode.None? then None
      else
        var name := Until(mode.value.1, 0);
        if name.None? || |name.value.1| < 20 then None
        else
          var rest := DecodeTree(name.value.1[20..]);
          if rest.None? then None
          else Some([TreeEntry(mode.value.0, name.value.0, name.value.1[..20])] + rest.value)
  }

  predicate Readable(e: TreeEntry) {
    32 !in e.mode && 0 !in e.name && |e.sha| == 20
  }

  lemma {:induction false} UntilRoundTrip(a: seq<byte>, stop: byte, rest: seq<byte>)
    requires stop !in a
    ensures Until(a + ([stop] + rest), stop) == Some((a, rest))
  {
    var b := a + ([stop] + rest);
    if a == [] {
      assert b == [stop] + rest;
      assert b[1..] == rest;
    } else {
      assert a == [a[0]] + a[1..];
      assert b[1..] == a[1..] + ([stop] + rest);
      UntilRoundTrip(a[1..], stop, rest);
    }
  }

  lemma {:induction false} TreeDecodes(entries: seq<TreeEntry>)
    requires forall i :: 0 <= i < |entries| ==> Readable(entries[i])
    ensures DecodeTree(TreeData(entries)) == Some(entries)
  {
    if entries != [] {
      var e, rest := entries[0], TreeData(entries[1..]);
      var afterName := e.sha + rest;
      assert TreeData(entries) == e.mode + ([32] + (e.name + ([0] + afterName)));
      UntilRoundTrip(e.mode, 32, e.name + ([0] + afterName));
      UntilRoundTrip(e.name, 0, afterName);
      assert afterName[..20] == e.sha && afterName[20..] == rest;
      TreeDecodes(entries[1..]);
      assert entries == [e] + entries[1..];
    }
  }

  /** Tree data can be read back exactly when no mode holds a space and no name a NUL. */
  lemma TreeRoundTrip(entries: seq<TreeEntry>)
    requires forall i :: 0 <= i < |entries| ==> |entries[i].sha| == 20
    ensures DecodeTree(TreeData(entries)) == Some(entries) <==>
            forall i :: 0 <= i < |entries| ==> 32 !in entries[i].mode && 0 !in entries[i].name
  {
    assert DecodeTree(TreeData(entries)) == Some(entries) ==> forall i :: 0 <= i < |entries| ==> Readable(entries[i]);
    if forall i :: 0 <= i < |entries| ==> 32 !in entries[i].mode && 0 !in entries[i].name {
      TreeDecodes(entries);
    }
  }

  // ----- The writer

  lemma {:induction false} EncodedObjectsConcat(c: Codec, a: seq<Object>, b: seq<Object>)
    ensures EncodedObjects(c, a + b) == EncodedObjects(c, a) + EncodedObjects(c, b)
  {
    if a == [] {
      assert a + b == b;
    } else {
      assert (a + b)[1..] == a[1..] + b;
      EncodedObjectsConcat(c, a[1..], b);
    }
  }

  lemma EncodedObjectsSnoc(c: Codec, objects: seq<Object>, i: nat)
    requires i < |objects|
    ensures EncodedObjects(c, objects[..i + 1]) == EncodedObjects(c, objects[..i]) + EncodedObject(c, objects[i])
    ensures EncodedObjects(c, objects[..i + 1]) <= EncodedObjects(c, objects)
  {
    assert objects[..i + 1] == objects[..i] + [objects[i]];
    EncodedObjectsConcat(c, objects[..i], [objects[i]]);
    assert EncodedObjects(c, [objects[i]]) == EncodedObject(c, objects[i]) + [];
    assert objects == objects[..i + 1] + objects[i + 1..];
    EncodedObjectsConcat(c, objects[..i + 1], objects[i + 1..]);
  }

  /** What has been hashed once `i` objects are written. */
  ghost function HashedAfter(c: Codec, objects: seq<Object>, i: nat): seq<byte>
    requires i <= |objects|
  {
    StreamHeader(|objects|) + EncodedObjects(c, objects[..i])
  }

  lemma HashedFirstAndLast(c: Codec, objects: seq<Object>)
    ensures HashedAfter(c, objects, 0) == StreamHeader(|objects|) <= Stream(c, objects)
    ensures HashedAfter(c, objects, |objects|) == Checked(c, objects)
  {
    assert objects[..|objects|] == objects;
    assert StreamHeader(|objects|) <= Checked(c, objects);
  }

  lemma HashedNext(c: Codec, objects: seq<Object>, i: nat)
    requires i < |objects|
    ensures HashedAfter(c, objects, i) + EncodedObject(c, objects[i]) == HashedAfter(c, objects, i + 1)
    ensures HashedAfter(c, objects, i + 1) <= Stream(c, objects)
  {
    EncodedObjectsSnoc(c, objects, i);
    assert HashedAfter(c, objects, i + 1) <= Checked(c, objects);
  }

  lemma {:induction false} TreeDataConcat(a: seq<TreeEntry>, b: seq<TreeEntry>)
    ensures TreeData(a + b) == TreeData(a) + TreeData(b)
  {
    if a == [] {
      assert a + b == b;
    } else {
      assert (a + b)[1..] == a[1..] + b;
      TreeDataConcat(a[1..], b);
    }
  }

  /** The Git object id of `data` under the given type name. */
  function ObjectId(c: Codec, kind: string, data: seq<byte>): seq<byte> {
    c.hash(Ascii(kind + " " + Itoa(|data|)) + [0] + data)
  }

  function HexDigit(n: int): char
    requires 0 <= n < 16
  {
    if n < 10 then ('0' as int + n) as char else ('a' as int + n - 10) as char
  }

  function Hex(b: seq<byte>): string {
    if b == [] then "" else [HexDigit(b[0] / 16), HexDigit(b[0] % 16)] + Hex(b[1..])
  }

  function HexValue(c: char): Option<int> {
    if '0' <= c <= '9' then Some(c as int - '0' as int)
    else if 'a' <= c <= 'f' then Some(c as int - 'a' as int + 10)
    else None
  }

  /** Two lower-case digits a byte. */
  function Unhex(text: string): Option<seq<byte>> {
    if text == "" then Some([])
    else if |text| == 1 then None
    else
      match (HexValue(text[0]), HexValue(text[1]), Unhex(text[2..]))
      case (Some(high), Some(low), Some(rest)) => Some([high * 16 + low] + rest)
      case _ => None
  }

  lemma {:induction false} HexBack(b: seq<byte>)
    ensures Unhex(Hex(b)) == Some(b) && |Hex(b)| == 2 * |b|
  {
    if b != [] {
      HexBack(b[1..]);
      assert Hex(b)[2..] == Hex(b[1..]);
      HexDigits(b[0]);
      assert b == [b[0]] + b[1..];
    }
  }

  lemma HexDigits(n: byte)
    ensures HexValue(HexDigit(n / 16)) == Some(n / 16) && HexValue(HexDigit(n % 16)) == Some(n % 16)
  {
  }

  /** A loose object, as Git hashes it: its type, a space, its length in decimal, a NUL and the data. */
  function DecodeLoose(b: seq<byte>): Option<(seq<byte>, seq<byte>)> {
    match Until(b, 32)
    case None => None
    case Some((kind, rest)) =>
      match Until(rest, 0)
      case None => None
      case Some((length, data)) => if Atoi(Text(length)) == Some(|data|) then Some((kind, data)) else None
  }

  function Text(b: seq<byte>): string {
    seq(|b|, i requires 0 <= i < |b| => b[i] as int as char)
  }

  /** The id is the hash of what decodes to the type and the data. */
  lemma ObjectIdIsOfLoose(c: Codec, kind: string, data: seq<byte>) returns (loose: seq<byte>)
    requires 32 !in Ascii(kind) && |data| < TWO_63
    ensures ObjectId(c, kind, data) == c.hash(loose) && DecodeLoose(loose) == Some((Ascii(kind), data))
  {
    var length := Ascii(Itoa(|data|));
    loose := Ascii(kind) + ([32] + (length + ([0] + data)));
    assert Ascii(kind + " " + Itoa(|data|)) + [0] + data == loose;
    DigitsAsBytes(|data|);
    UntilRoundTrip(Ascii(kind), 32, length + ([0] + data));
    UntilRoundTrip(length, 0, data);
    AtoiOfItoa(|data|);
  }

  lemma DigitsAsBytes(n: nat)
    ensures 0 !in Ascii(Itoa(n)) && Text(Ascii(Itoa(n))) == Itoa(n)
  {
    var digits := Itoa(n);
    assert AllDigits(digits);
    forall i | 0 <= i < |digits|
      ensures Ascii(digits)[i] != 0 && Text(Ascii(digits))[i] == digits[i]
    {
      assert IsDigit(digits[i]);
    }
  }

  /** `encodeObject` */
  method EncodeObject(c: Codec, o: Object) returns (buf: seq<byte>)
    ensures buf == EncodedObject(c, o)
  {
    var size: nat := |o.data|;
    var typeBits := o.kind * 16 % 256;
    var first: byte := typeBits + size % 16;
    size := size / 16;
    if size > 0 {
      first := SetHighBit(first);
    }
    buf := [first];
    while size > 0
      invariant buf + SizeTail(size) == ObjectHeader(o.kind, |o.data|)
    {
      var b: byte := size % 128;
      size := size / 128;
      if size > 0 {
        b := SetHighBit(b);
      }
      buf := buf + [b];
    }
    assert buf == buf + SizeTail(0);
    buf := buf + c.deflate(o.data);
  }

  lemma TakenFrom(chunk: seq<byte>, stream: seq<byte>, n: nat)
    requires chunk <= stream && n <= |chunk|
    ensures chunk[..n] == stream[..n]
  {
  }

  lemma Onward(before: seq<byte>, stream: seq<byte>, a: nat, b: nat)
    requires a <= b <= |stream|
    ensures (before + stream[..a]) + stream[a..b] == before + stream[..b]
  {
    assert stream[..a] + stream[a..b] == stream[..b];
  }

  class Writer {
    var objects: seq<Object>
    var files: seq<FileRef>

    ghost predicate Valid()
      reads this
    {
      BlobsAndTrees(objects)
    }

    constructor ()
      ensures Valid() && objects == [] && files == []
    {
      objects, files := [], [];
    }

    method AddBlob(c: Codec, data: seq<byte>) returns (sha: seq<byte>)
      requires Valid()
      modifies this`objects
      ensures Valid() && sha == ObjectId(c, "blob", data)
      ensures objects == old(objects) + [Object(3, data, sha)]
    {
      sha := ObjectId(c, "blob", data);
      objects := objects + [Object(BLOB, data, sha)];
    }

    method AddTree(c: Codec, entries: seq<TreeEntry>) returns (sha: seq<byte>)
      requires Valid()
      modifies this`objects
      ensures Valid() && sha == ObjectId(c, "tree", TreeData(entries))
      ensures objects == old(objects) + [Object(2, TreeData(entries), sha)]
    {
      var data: seq<byte> := [];
      for i := 0 to |entries|
        invariant data == TreeData(entries[..i]) && objects == old(objects)
      {
        TreeDataConcat(entries[..i], [entries[i]]);
        assert entries[..i + 1] == entries[..i] + [entries[i]];
        assert TreeData([entries[i]]) == EncodedEntry(entries[i]) + [];
        data := data + EncodedEntry(entries[i]);
      }
      assert entries[..|entries|] == entries;
      sha := ObjectId(c, "tree", data);
      objects := objects + [Object(TREE, data, sha)];
    }

    method AddFile(c: Codec, name: string, data: seq<byte>)
      modifies this`files
      ensures files == old(files) + [FileRef(name, Hex(ObjectId(c, "blob", data)), |data|)]
    {
      files := files + [FileRef(name, Hex(ObjectId(c, "blob", data)), |data|)];
    }

    /**
      `WriteTo`: the total is the number of bytes the sink took, those bytes open the
      stream, and success means all of it was taken.
     */
    method WriteTo(c: Codec, w: Sink<byte>) returns (total: nat, failed: bool)
      modifies w
      ensures total <= |Stream(c, objects)|
      ensures w.accepted == old(w.accepted) + Stream(c, objects)[..total]
      ensures !failed ==> total == |Stream(c, objects)|
    {
      ghost var start := w.accepted;
      HashedFirstAndLast(c, objects);
      var header := StreamHeader(|objects|);
      var n;
      n, failed := w.Write(header);
      total := n;
      TakenFrom(header, Stream(c, objects), n);
      if failed {
        return;
      }
      var hashed;
      hashed, total, failed := WriteObjects(c, w, header);
      Onward(start, Stream(c, objects), |header|, total);
      if failed {
        return;
      }
      n, failed := WriteChecksum(c, hashed, w, start);
      total := total + n;
    }

    /** The trailer, once everything it covers is out. */
    method WriteChecksum(c: Codec, hashed: seq<byte>, w: Sink<byte>, ghost start: seq<byte>) returns (n: nat, failed: bool)
      requires w.accepted == start + hashed
      modifies w
      ensures n <= |c.hash(hashed)| && (!failed ==> n == |c.hash(hashed)|)
      ensures w.accepted == start + (hashed + c.hash(hashed))[..|hashed| + n]
    {
      var checksum := c.hash(hashed);
      n, failed := w.Write(checksum);
      StillOpens(hashed + checksum, hashed, checksum, n);
      Associates(start, hashed, checksum[..n]);
    }

    /** The loop over the objects, once the header is out. */
    method WriteObjects(c: Codec, w: Sink<byte>, header: seq<byte>)
      returns (hashed: seq<byte>, total: nat, failed: bool)
      requires header == HashedAfter(c, objects, 0)
      modifies w
      ensures |header| <= total <= |Stream(c, objects)|
      ensures w.accepted == old(w.accepted) + Stream(c, objects)[|header|..total]
      ensures !failed ==> hashed == HashedAfter(c, objects, |objects|) && total == |hashed| && hashed <= Stream(c, objects)
    {
      ghost var stream := Stream(c, objects);
      HashedFirstAndLast(c, objects);
      hashed, total, failed := header, |header|, false;
      for i := 0 to |objects|
        invariant hashed == HashedAfter(c, objects, i) && header <= hashed <= stream
        invariant total == |hashed| && !failed && w.accepted == old(w.accepted) + stream[|header|..total]
      {
        var encoded := EncodeObject(c, objects[i]);
        var n;
        ghost var before := total;
        n, failed := w.Write(encoded);
        total := total + n;
        HashedNext(c, objects, i);
        StillOpens(stream, hashed, encoded, n);
        assert stream[before..total] == encoded[..n];
        assert stream[|header|..total] == stream[|header|..before] + stream[before..total];
        hashed := hashed + encoded;
        if failed {
          return;
        }
      }
    }
  }

  // ----- Incremental updates

  /** The objects of `current` whose hash is not in `have`. */
  function Missing(have: set<seq<byte>>, current: seq<Object>): seq<Object> {
    if current == [] then []
    else
      var n := |current| - 1;
      Missing(have, current[..n]) + if current[n].sha in have then [] else [current[n]]
  }

  /** `Delta` */
  method Delta(have: seq<seq<byte>>, current: seq<Object>) returns (delta: seq<Object>)
    ensures delta == Missing((set h | h in have), current)
  {
    var haveSet: set<seq<byte>> := {};
    for i := 0 to |have|
      invariant haveSet == (set h | h in have[..i])
    {
      haveSet := haveSet + {have[i]};
    }
    assert have[..|have|] == have;
    delta := [];
    for i := 0 to |current|
      invariant delta == Missing(haveSet, current[..i])
    {
      assert current[..i + 1][..i] == current[..i];
      if current[i].sha !in haveSet {
        delta := delta + [current[i]];
      }
    }
    assert current[..|current|] == current;
  }

  function Hashes(objects: seq<Object>): set<seq<byte>> {
    set o | o in objects :: o.sha
  }

  /** `a` is what is left of `b` after leaving some elements out. */
  predicate Subsequence<T(==)>(a: seq<T>, b: seq<T>) {
    if a == [] then true
    else if b == [] then false
    else
      || Subsequence(a, b[..|b| - 1])
      || (a[|a| - 1] == b[|b| - 1] && Subsequence(a[..|a| - 1], b[..|b| - 1]))
  }

  lemma HashesSnoc(objects: seq<Object>, o: Object)
    ensures Hashes(objects + [o]) == Hashes(objects) + {o.sha}
  {
    assert forall x :: x in objects + [o] <==> x in objects || x == o;
  }

  lemma {:induction false} MissingHashes(have: set<seq<byte>>, current: seq<Object>)
    ensures Hashes(Missing(have, current)) == Hashes(current) - have
  {
    if current != [] {
      var n := |current| - 1;
      MissingHashes(have, current[..n]);
      assert current == current[..n] + [current[n]];
      HashesSnoc(current[..n], current[n]);
      HashesSnoc(Missing(have, current[..n]), current[n]);
      if current[n].sha in have {
        assert Missing(have, current) == Missing(have, current[..n]);
      }
    }
  }

  lemma {:induction false} MissingInOrder(have: set<seq<byte>>, current: seq<Object>)
    ensures Subsequence(Missing(have, current), current)
  {
    if current != [] {
      var n := |current| - 1;
      MissingInOrder(have, current[..n]);
      if current[n].sha in have {
        assert Missing(have, current) == Missing(have, current[..n]);
      } else {
        assert Missing(have, current) == Missing(have, current[..n]) + [current[n]];
        assert Missing(have, current)[..|Missing(have, current)| - 1] == Missing(have, current[..n]);
      }
    }
  }

  /** What a client holds after `k` rounds of asking for the delta and keeping it. */
  function Held(have: set<seq<byte>>, versions: seq<seq<Object>>, k: nat): set<seq<byte>>
    requires k <= |versions|
    decreases k, 0
  {
    if k == 0 then have else Held(have, versions, k - 1) + Hashes(Sent(have, versions, k - 1))
  }

  function Sent(have: set<seq<byte>>, versions: seq<seq<Object>>, k: nat): seq<Object>
    requires k < |versions|
    decreases k, 1
  {
    Missing(Held(have, versions, k), versions[k])
  }

  lemma {:induction false} HeldGrows(have: set<seq<byte>>, versions: seq<seq<Object>>, j: nat, k: nat)
    requires j <= k <= |versions|
    ensures Held(have, versions, j) <= Held(have, versions, k)
    ensures forall i :: j <= i < k ==> Hashes(versions[i]) <= Held(have, versions, k)
  {
    if j < k {
      HeldGrows(have, versions, j, k - 1);
      MissingHashes(Held(have, versions, k - 1), versions[k - 1]);
    }
  }

  /**
    After every round the client holds all of that version; what it is sent it did not
    hold, keeps the version's order, and is never sent again in a later round.
   */
  lemma IncrementalSync(have: set<seq<byte>>, versions: seq<seq<Object>>, k: nat)
    requires k < |versions|
    ensures Hashes(versions[k]) <= Held(have, versions, k + 1)
    ensures Hashes(Sent(have, versions, k)) !! Held(have, versions, k)
    ensures Subsequence(Sent(have, versions, k), versions[k])
    ensures forall j :: 0 <= j < k ==> Hashes(Sent(have, versions, j)) !! Hashes(Sent(have, versions, k))
  {
    HeldGrows(have, versions, k, k + 1);
    MissingHashes(Held(have, versions, k), versions[k]);
    MissingInOrder(Held(have, versions, k), versions[k]);
    forall j | 0 <= j < k
      ensures Hashes(Sent(have, versions, j)) !! Hashes(Sent(have, versions, k))
    {
      SentIsHeld(have, versions, j, k);
    }
  }

  lemma SentIsHeld(have: set<seq<byte>>, versions: seq<seq<Object>>, j: nat, k: nat)
    requires j < k <= |versions|
    ensures Hashes(Sent(have, versions, j)) <= Held(have, versions, k)
  {
    HeldGrows(have, versions, j + 1, k);
  }

  // ----- Repeats within a round

  /** No two of the objects share a hash. */
  ghost predicate HashesDiffer(objects: seq<Object>) {
    forall i, j :: 0 <= i < j < |objects| ==> objects[i].sha != objects[j].sha
  }

  /** No two of the objects that are not held share a hash. */
  ghost predicate MissingDiffer(have: set<seq<byte>>, current: seq<Object>) {
    forall i, j :: 0 <= i < j < |current| && current[i].sha !in have && current[j].sha !in have ==>
      current[i].sha != current[j].sha
  }

  lemma HashesDifferSnoc(objects: seq<Object>, o: Object)
    ensures HashesDiffer(objects + [o]) <==> HashesDiffer(objects) && o.sha !in Hashes(objects)
  {
    var all := objects + [o];
    assert all[|objects|] == o && forall i :: 0 <= i < |objects| ==> all[i] == objects[i];
    if HashesDiffer(all) {
      forall i, j | 0 <= i < j < |objects|
        ensures objects[i].sha != objects[j].sha
      {
        assert all[i].sha != all[j].sha;
      }
      forall x | x in objects
        ensures x.sha != o.sha
      {
        var i :| 0 <= i < |objects| && objects[i] == x;
        assert all[i].sha != all[|objects|].sha;
      }
    } else if HashesDiffer(objects) {
      var i, j :| 0 <= i < j < |all| && all[i].sha == all[j].sha;
      assert j == |objects| && objects[i] in objects;
    }
  }

  lemma MissingDifferSnoc(have: set<seq<byte>>, current: seq<Object>, o: Object)
    ensures MissingDiffer(have, current + [o]) <==>
            MissingDiffer(have, current) && (o.sha !in have ==> o.sha !in Hashes(current))
  {
    var all := current + [o];
    assert all[|current|] == o && forall i :: 0 <= i < |current| ==> all[i] == current[i];
    if MissingDiffer(have, all) {
      forall i, j | 0 <= i < j < |current| && current[i].sha !in have && current[j].sha !in have
        ensures current[i].sha != current[j].sha
      {
        assert all[i].sha != all[j].sha;
      }
      forall x | x in current && o.sha !in have
        ensures x.sha != o.sha
      {
        var i :| 0 <= i < |current| && current[i] == x;
        assert all[i].sha !in have ==> all[i].sha != all[|current|].sha;
      }
    } else if MissingDiffer(have, current) {
      var i, j :| 0 <= i < j < |all| && all[i].sha !in have && all[j].sha !in have && all[i].sha == all[j].sha;
      assert j == |current| && current[i] in current;
    }
  }

  /**
    One round sends no hash twice if and only if no two objects of the version that are not
    held share one: `Delta` does not add what it sends to what is held.
   */
  lemma {:induction false} NoHashSentTwiceIff(have: set<seq<byte>>, current: seq<Object>)
    ensures HashesDiffer(Missing(have, current)) <==> MissingDiffer(have, current)
  {
    if current != [] {
      var n := |current| - 1;
      NoHashSentTwiceIff(have, current[..n]);
      assert current == current[..n] + [current[n]];
      MissingDifferSnoc(have, current[..n], current[n]);
      if current[n].sha in have {
        assert Missing(have, current) == Missing(have, current[..n]);
      } else {
        HashesDifferSnoc(Missing(have, current[..n]), current[n]);
        MissingHashes(have, current[..n]);
      }
    }
  }

  /** Two files with one content are both sent. */
  lemma EqualObjectsAreBothSent(o: Object)
    ensures Sent({}, [[o, o]], 0) == [o, o]
  {
    assert [o, o][..1] == [o] && [o][..0] == [];
    assert Missing({}, [o]) == [o];
  }

  // ----- The assumptions on the compressor can be met

  /** Each byte behind a one, and a zero at the end. */
  function Stored(d: seq<byte>): seq<byte> {
    if d == [] then [0] else [1, d[0]] + Stored(d[1..])
  }

  function Unstored(b: seq<byte>): Option<(seq<byte>, seq<byte>)> {
    if b == [] then None
    else if b[0] == 0 then Some(([], b[1..]))
    else if |b| == 1 then None
    else
      var r := Unstored(b[2..]);
      if r.None? then None else Some(([b[1]] + r.value.0, r.value.1))
  }

  lemma {:induction false} StoredRoundTrip(d: seq<byte>, rest: seq<byte>)
    ensures Unstored(Stored(d) + rest) == Some((d, rest))
  {
    if d != [] {
      assert d == [d[0]] + d[1..];
      assert (Stored(d) + rest)[2..] == Stored(d[1..]) + rest;
      StoredRoundTrip(d[1..], rest);
    }
  }

  lemma SoundCodecExists()
    ensures exists c: Codec :: Sound(c)
  {
    var c := Codec((x: seq<byte>) => seq(20, i => 0), Stored, Unstored);
    forall d: seq<byte>, rest: seq<byte>
      ensures c.inflate(c.deflate(d) + rest) == Some((d, rest))
    {
      StoredRoundTrip(d, rest);
    }
    assert Sound(c);
  }
}
