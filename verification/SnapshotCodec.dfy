/** The bytes of a snapshot: what is written, what is read back, and that a snapshot cut
    short is refused. Counts are 64 bits wide. */
module SnapshotCodec {
  import opened Basics
  import opened WalRecords
  import opened WalCodec

  const MAGIC: Word := 0x56444253
  const VERSION: HalfWord := 2
  const TEXT_COLUMN: Byte := 5

  /** One column as the snapshot has it: no term codes, no counts, postings or index. */
  datatype ColumnImage = ColumnImage(kind: Byte, data: seq<Long>, present: seq<bool>, dict: seq<Bytes>,
    rawText: seq<Bytes>)

  datatype MetaImage = MetaImage(fingerprint: Long, rows: Long, columns: seq<ColumnImage>, payload: seq<Bytes>)

  datatype Head = Head(dim: Word, metric: Byte, lsn: Long, nextExt: Long, liveCount: Long, deletedCount: Long)
  datatype RowImage = RowImage(intToExt: seq<Long>, deleted: seq<bool>, vectors: seq<seq<Word>>)

  /** The index, by its kind. Lists of ids are laid out like vectors: a count, and words. The
      greatest layer of a graph is the bit pattern of a signed number. */
  datatype IndexKind = BruteKind | IvfKind | HnswKind
  datatype NodeImage = NodeImage(data: seq<Word>, links: seq<seq<Word>>)
  datatype IndexImage =
    | Brute(dim: Long, stored: seq<seq<Word>>)
    | Ivf(trained: bool, nlist: Long, nprobe: Long, centroids: seq<seq<Word>>, lists: seq<seq<Word>>,
          rows: seq<seq<Word>>)
    | Hnsw(entry: Word, maxLayer: Word, efSearch: Long, nodes: seq<NodeImage>)

  function KindOf(x: IndexImage): IndexKind {
    match x case Brute(_, _) => BruteKind case Ivf(_, _, _, _, _, _) => IvfKind case Hnsw(_, _, _, _) => HnswKind
  }

  // The vectors that an index holds, in the order of their numbers.
  function VectorsOf(x: IndexImage): seq<seq<Word>> {
    match x
    case Brute(_, stored) => stored
    case Ivf(_, _, _, _, _, rows) => rows
    case Hnsw(_, _, _, nodes) => seq(|nodes|, i requires 0 <= i < |nodes| => nodes[i].data)
  }

  // The node store of a graph is reserved once; a longer one is not loaded.
  const MAX_ELEMENTS := 0x10_0000

  datatype Image = Image(head: Head, rows: RowImage, meta: MetaImage, index: IndexImage)

  // ----- lists -----

  // Items one after the other.
  function PutMany<T>(put: T -> Bytes, xs: seq<T>): Bytes {
    if xs == [] then [] else PutMany(put, xs[..|xs| - 1]) + put(xs[|xs| - 1])
  }

  function ReadMany<T>(read: Bytes -> Read<T>, s: Bytes, n: nat): Read<seq<T>> {
    if n == 0 then Got([], s)
    else
      var first := ReadMany(read, s, n - 1);
      if first.Overrun? then Overrun
      else
        var last := read(first.rest);
        if last.Overrun? then Overrun else Got(first.value + [last.value], last.rest)
  }

  // What is read back is what was put, whatever follows.
  ghost predicate Restores<T(!new)>(put: T -> Bytes, read: Bytes -> Read<T>, x: T) {
    forall t :: read(put(x) + t) == Got(x, t)
  }

  // A read that succeeds does not depend on what follows.
  ghost predicate Steady<T(!new)>(read: Bytes -> Read<T>) {
    forall s, t :: read(s).Got? ==> read(s + t) == Got(read(s).value, read(s).rest + t)
  }

  lemma {:induction false} ReadPutMany<T(!new)>(put: T -> Bytes, read: Bytes -> Read<T>, xs: seq<T>, t: Bytes)
    requires forall i :: 0 <= i < |xs| ==> Restores(put, read, xs[i])
    ensures ReadMany(read, PutMany(put, xs) + t, |xs|) == Got(xs, t)
  {
    if xs == [] {
      assert PutMany(put, xs) + t == t;
    } else {
      var rest, last := xs[..|xs| - 1], xs[|xs| - 1];
      assert PutMany(put, xs) + t == PutMany(put, rest) + (put(last) + t);
      ReadPutMany(put, read, rest, put(last) + t);
      assert Restores(put, read, last);
      assert xs == rest + [last];
    }
  }

  lemma {:induction false} ManySteady<T(!new)>(read: Bytes -> Read<T>, s: Bytes, n: nat, t: Bytes)
    requires Steady(read) && ReadMany(read, s, n).Got?
    ensures var r := ReadMany(read, s, n); ReadMany(read, s + t, n) == Got(r.value, r.rest + t)
  {
    if n > 0 { ManySteady(read, s, n - 1, t); }
  }

  // ----- counted lists -----

  // A count of 64 bits and the items.
  function PutList<T>(put: T -> Bytes, xs: seq<T>): Bytes {
    Put8(|xs| % LONG_LIMIT) + PutMany(put, xs)
  }

  function ReadList<T>(read: Bytes -> Read<T>, s: Bytes): Read<seq<T>> {
    var n := Read8(s);
    if n.Overrun? then Overrun else ReadMany(read, n.rest, n.value)
  }

  lemma ReadPutList<T(!new)>(put: T -> Bytes, read: Bytes -> Read<T>, xs: seq<T>, t: Bytes)
    requires |xs| < LONG_LIMIT && forall i :: 0 <= i < |xs| ==> Restores(put, read, xs[i])
    ensures ReadList(read, PutList(put, xs) + t) == Got(xs, t)
  {
    hide Read8, Put8, PutMany, ReadMany, Restores;
    assert PutList(put, xs) + t == Put8(|xs|) + (PutMany(put, xs) + t);
    ReadPut8(|xs|, PutMany(put, xs) + t);
    ReadPutMany(put, read, xs, t);
  }

  lemma Steady8(s: Bytes, t: Bytes)
    requires Read8(s).Got?
    ensures Read8(s + t) == Got(Read8(s).value, Read8(s).rest + t)
  {
    assert (s + t)[8..] == s[8..] + t;
  }

  lemma ListSteady<T(!new)>(read: Bytes -> Read<T>, s: Bytes, t: Bytes)
    requires Steady(read) && ReadList(read, s).Got?
    ensures var r := ReadList(read, s); ReadList(read, s + t) == Got(r.value, r.rest + t)
  {
    hide Read8, ReadMany;
    Steady8(s, t);
    ManySteady(read, Read8(s).rest, Read8(s).value, t);
  }

  // ----- the items -----

  function PutFlag(b: bool): Bytes { [if b then 1 else 0] }
  function ReadFlag(s: Bytes): Read<bool> {
    var b := Read1(s);
    if b.Overrun? then Overrun else Got(b.value != 0, b.rest)
  }

  function PutByte(b: Byte): Bytes { [b] }

  // Strings and payloads are counted lists of bytes, vectors of words.
  function PutLongs(xs: seq<Long>): Bytes { PutList(Put8, xs) }
  function PutBytes(xs: Bytes): Bytes { PutList(PutByte, xs) }
  function PutFloats(xs: seq<Word>): Bytes { PutList(Put4, xs) }
  function PutTexts(xs: seq<Bytes>): Bytes { PutList(PutBytes, xs) }
  function PutVectors(xs: seq<seq<Word>>): Bytes { PutList(PutFloats, xs) }

  function ReadLongs(s: Bytes): Read<seq<Long>> { ReadList(Read8, s) }
  function ReadBytes(s: Bytes): Read<Bytes> { ReadList(Read1, s) }
  function ReadFloats(s: Bytes): Read<seq<Word>> { ReadList(Read4, s) }
  function ReadTexts(s: Bytes): Read<seq<Bytes>> { ReadList(ReadBytes, s) }
  function ReadVectors(s: Bytes): Read<seq<seq<Word>>> { ReadList(ReadFloats, s) }

  predicate Short<T>(xs: seq<T>) { |xs| < LONG_LIMIT }
  predicate AllShort<T>(xs: seq<seq<T>>) { |xs| < LONG_LIMIT && forall i :: 0 <= i < |xs| ==> Short(xs[i]) }

  lemma RestoresByte(b: Byte)
    ensures Restores(PutByte, Read1, b)
  {
    forall t ensures Read1(PutByte(b) + t) == Got(b, t) { assert ([b] + t)[1..] == t; }
  }

  lemma RestoresFlag(b: bool)
    ensures Restores(PutFlag, ReadFlag, b)
  {
    forall t ensures ReadFlag(PutFlag(b) + t) == Got(b, t) { assert (PutFlag(b) + t)[1..] == t; }
  }

  lemma RestoresLong(v: Long)
    ensures Restores(Put8, Read8, v)
  {
    forall t ensures Read8(Put8(v) + t) == Got(v, t) { ReadPut8(v, t); }
  }

  lemma RestoresWord(w: Word)
    ensures Restores(Put4, Read4, w)
  {
    forall t ensures Read4(Put4(w) + t) == Got(w, t) { ReadPut4(w, t); }
  }

  lemma RestoresLongs(xs: seq<Long>)
    requires Short(xs)
    ensures Restores(PutLongs, ReadLongs, xs)
  {
    forall i | 0 <= i < |xs| ensures Restores(Put8, Read8, xs[i]) { RestoresLong(xs[i]); }
    forall t ensures ReadLongs(PutLongs(xs) + t) == Got(xs, t) { ReadPutList(Put8, Read8, xs, t); }
  }

  lemma RestoresBytes(xs: Bytes)
    requires Short(xs)
    ensures Restores(PutBytes, ReadBytes, xs)
  {
    forall i | 0 <= i < |xs| ensures Restores(PutByte, Read1, xs[i]) { RestoresByte(xs[i]); }
    forall t ensures ReadBytes(PutBytes(xs) + t) == Got(xs, t) { ReadPutList(PutByte, Read1, xs, t); }
  }

  lemma RestoresFloats(xs: seq<Word>)
    requires Short(xs)
    ensures Restores(PutFloats, ReadFloats, xs)
  {
    forall i | 0 <= i < |xs| ensures Restores(Put4, Read4, xs[i]) { RestoresWord(xs[i]); }
    forall t ensures ReadFloats(PutFloats(xs) + t) == Got(xs, t) { ReadPutList(Put4, Read4, xs, t); }
  }

  lemma RestoresTexts(xs: seq<Bytes>)
    requires AllShort(xs)
    ensures Restores(PutTexts, ReadTexts, xs)
  {
    hide ReadBytes, PutBytes;
    forall i | 0 <= i < |xs| ensures Restores(PutBytes, ReadBytes, xs[i]) { RestoresBytes(xs[i]); }
    forall t ensures ReadTexts(PutTexts(xs) + t) == Got(xs, t) { ReadPutList(PutBytes, ReadBytes, xs, t); }
  }

  lemma RestoresVectors(xs: seq<seq<Word>>)
    requires AllShort(xs)
    ensures Restores(PutVectors, ReadVectors, xs)
  {
    hide ReadFloats, PutFloats;
    forall i | 0 <= i < |xs| ensures Restores(PutFloats, ReadFloats, xs[i]) { RestoresFloats(xs[i]); }
    forall t ensures ReadVectors(PutVectors(xs) + t) == Got(xs, t) { ReadPutList(PutFloats, ReadFloats, xs, t); }
  }

  lemma ItemsSteady()
    ensures Steady(Read1) && Steady(Read4) && Steady(Read8) && Steady(ReadFlag)
  {
    hide Get4, Get8;
    forall s, t | Read1(s).Got? ensures Read1(s + t) == Got(Read1(s).value, Read1(s).rest + t) {}
    forall s, t | Read4(s).Got? ensures Read4(s + t) == Got(Read4(s).value, Read4(s).rest + t) { Steady4(s, t); }
    forall s, t | Read8(s).Got? ensures Read8(s + t) == Got(Read8(s).value, Read8(s).rest + t) { Steady8(s, t); }
  }

  lemma Steady4(s: Bytes, t: Bytes)
    requires Read4(s).Got?
    ensures Read4(s + t) == Got(Read4(s).value, Read4(s).rest + t)
  {
    assert (s + t)[4..] == s[4..] + t;
  }

  lemma ListsSteady()
    ensures Steady(ReadLongs) && Steady(ReadBytes) && Steady(ReadFloats) && Steady(ReadTexts) && Steady(ReadVectors)
  {
    ItemsSteady();
    forall s, t | ReadLongs(s).Got? ensures ReadLongs(s + t) == Got(ReadLongs(s).value, ReadLongs(s).rest + t) {
      ListSteady(Read8, s, t);
    }
    forall s, t | ReadBytes(s).Got? ensures ReadBytes(s + t) == Got(ReadBytes(s).value, ReadBytes(s).rest + t) {
      ListSteady(Read1, s, t);
    }
    forall s, t | ReadFloats(s).Got? ensures ReadFloats(s + t) == Got(ReadFloats(s).value, ReadFloats(s).rest + t) {
      ListSteady(Read4, s, t);
    }
    forall s, t | ReadTexts(s).Got? ensures ReadTexts(s + t) == Got(ReadTexts(s).value, ReadTexts(s).rest + t) {
      ListSteady(ReadBytes, s, t);
    }
    forall s, t | ReadVectors(s).Got? ensures ReadVectors(s + t) == Got(ReadVectors(s).value, ReadVectors(s).rest + t) {
      ListSteady(ReadFloats, s, t);
    }
  }

  // ----- two reads in a row -----

  function ReadPair<A, B>(first: Bytes -> Read<A>, second: Bytes -> Read<B>, s: Bytes): Read<(A, B)> {
    var a := first(s);
    if a.Overrun? then Overrun
    else
      var b := second(a.rest);
      if b.Overrun? then Overrun else Got((a.value, b.value), b.rest)
  }

  lemma PairRestores<A(!new), B(!new)>(
    putA: A -> Bytes, putB: B -> Bytes, readA: Bytes -> Read<A>, readB: Bytes -> Read<B>, a: A, b: B, t: Bytes)
    requires Restores(putA, readA, a) && Restores(putB, readB, b)
    ensures ReadPair(readA, readB, putA(a) + putB(b) + t) == Got((a, b), t)
  {
    assert putA(a) + putB(b) + t == putA(a) + (putB(b) + t);
  }

  lemma PairSteady<A(!new), B(!new)>(readA: Bytes -> Read<A>, readB: Bytes -> Read<B>, s: Bytes, t: Bytes)
    requires Steady(readA) && Steady(readB) && ReadPair(readA, readB, s).Got?
    ensures var r := ReadPair(readA, readB, s); ReadPair(readA, readB, s + t) == Got(r.value, r.rest + t)
  {
    assert readA(s + t) == Got(readA(s).value, readA(s).rest + t);
  }

  // ----- the parts of a snapshot -----

  // The head, from the magic number to the counts.
  function PutHead(h: Head): Bytes {
    Put4(MAGIC) + Put2(VERSION) + (Put4(h.dim) + [h.metric])
    + (Put8(h.lsn) + Put8(h.nextExt)) + (Put8(h.liveCount) + Put8(h.deletedCount))
  }

  function ReadLongPair(s: Bytes): Read<(Long, Long)> { ReadPair(Read8, Read8, s) }

  // Refused when the magic number or the version is wrong.
  function ReadHead(s: Bytes): Read<Head> {
    if |s| < 6 || Get4(s) != MAGIC || Get2(s[4..]) != VERSION then Overrun
    else
      var config := ReadPair(Read4, Read1, s[6..]);
      if config.Overrun? then Overrun
      else
        var a := ReadLongPair(config.rest);
        if a.Overrun? then Overrun
        else
          var b := ReadLongPair(a.rest);
          if b.Overrun? then Overrun
          else Got(Head(config.value.0, config.value.1, a.value.0, a.value.1, b.value.0, b.value.1), b.rest)
  }

  function PutFlags(xs: seq<bool>): Bytes { PutList(PutFlag, xs) }
  function ReadFlags(s: Bytes): Read<seq<bool>> { ReadList(ReadFlag, s) }

  function PutRows(r: RowImage): Bytes {
    PutLongs(r.intToExt) + PutFlags(r.deleted) + PutVectors(r.vectors)
  }

  function ReadRows(s: Bytes): Read<RowImage> {
    var a := ReadPair(ReadLongs, ReadFlags, s);
    if a.Overrun? then Overrun
    else
      var b := ReadVectors(a.rest);
      if b.Overrun? then Overrun else Got(RowImage(a.value.0, a.value.1, b.value), b.rest)
  }

  // A column: its flags are as many as its data, and only a text column has raw text.
  function PutColumn(c: ColumnImage): Bytes {
    [c.kind] + PutLongs(c.data) + PutMany(PutFlag, c.present) + PutTexts(c.dict)
    + (if c.kind == TEXT_COLUMN then PutTexts(c.rawText) else [])
  }

  function ReadColumn(s: Bytes): Read<ColumnImage> {
    var a := ReadPair(Read1, ReadLongs, s);
    if a.Overrun? then Overrun
    else
      var present := ReadMany(ReadFlag, a.rest, |a.value.1|);
      if present.Overrun? then Overrun
      else
        var dict := ReadTexts(present.rest);
        if dict.Overrun? then Overrun
        else
          var raw := if a.value.0 == TEXT_COLUMN then ReadTexts(dict.rest) else Got([], dict.rest);
          if raw.Overrun? then Overrun
          else Got(ColumnImage(a.value.0, a.value.1, present.value, dict.value, raw.value), raw.rest)
  }

  function PutColumns(cs: seq<ColumnImage>): Bytes { PutList(PutColumn, cs) }
  function ReadColumns(s: Bytes): Read<seq<ColumnImage>> { ReadList(ReadColumn, s) }

  function PutMetaImage(m: MetaImage): Bytes {
    Put8(m.fingerprint) + Put8(m.rows) + (PutColumns(m.columns) + PutTexts(m.payload))
  }

  function ReadMetaImage(s: Bytes): Read<MetaImage> {
    var a := ReadLongPair(s);
    if a.Overrun? then Overrun
    else
      var b := ReadPair(ReadColumns, ReadTexts, a.rest);
      if b.Overrun? then Overrun else Got(MetaImage(a.value.0, a.value.1, b.value.0, b.value.1), b.rest)
  }

  function PutNode(n: NodeImage): Bytes { PutFloats(n.data) + PutVectors(n.links) }

  function ReadNode(s: Bytes): Read<NodeImage> {
    var a := ReadPair(ReadFloats, ReadVectors, s);
    if a.Overrun? then Overrun else Got(NodeImage(a.value.0, a.value.1), a.rest)
  }

  function PutNodes(ns: seq<NodeImage>): Bytes { PutList(PutNode, ns) }

  function ReadNodes(s: Bytes): Read<seq<NodeImage>> {
    var n := Read8(s);
    if n.Got? && n.value > MAX_ELEMENTS then Overrun else ReadList(ReadNode, s)
  }

  // `serialize` of each kind of index.
  function PutIndex(x: IndexImage): Bytes {
    match x
    case Brute(dim, stored) => Put8(dim) + PutVectors(stored)
    case Ivf(trained, nlist, nprobe, centroids, lists, rows) =>
      PutFlag(trained) + Put8(nlist) + (Put8(nprobe) + PutVectors(centroids)) + (PutVectors(lists) + PutVectors(rows))
    case Hnsw(entry, maxLayer, efSearch, nodes) =>
      Put4(entry) + Put4(maxLayer) + (Put8(efSearch) + PutNodes(nodes))
  }

  function ReadBrute(s: Bytes): Read<IndexImage> {
    var a := ReadPair(Read8, ReadVectors, s);
    if a.Overrun? then Overrun else Got(Brute(a.value.0, a.value.1), a.rest)
  }

  function ReadIvf(s: Bytes): Read<IndexImage> {
    var a := ReadPair(ReadFlag, Read8, s);
    if a.Overrun? then Overrun
    else
      var b := ReadPair(Read8, ReadVectors, a.rest);
      if b.Overrun? then Overrun
      else
        var c := ReadPair(ReadVectors, ReadVectors, b.rest);
        if c.Overrun? then Overrun
        else Got(Ivf(a.value.0, a.value.1, b.value.0, b.value.1, c.value.0, c.value.1), c.rest)
  }

  function ReadHnsw(s: Bytes): Read<IndexImage> {
    var a := ReadPair(Read4, Read4, s);
    if a.Overrun? then Overrun
    else
      var b := ReadPair(Read8, ReadNodes, a.rest);
      if b.Overrun? then Overrun else Got(Hnsw(a.value.0, a.value.1, b.value.0, b.value.1), b.rest)
  }

  // The configuration says which index is read; the file does not.
  function IndexReader(kind: IndexKind): Bytes -> Read<IndexImage> {
    match kind case BruteKind => ReadBrute case IvfKind => ReadIvf case HnswKind => ReadHnsw
  }

  // `save_snapshot`.
  function Save(i: Image): Bytes {
    PutHead(i.head) + PutRows(i.rows) + (PutMetaImage(i.meta) + PutIndex(i.index))
  }

  function ReadImage(s: Bytes, kind: IndexKind): Read<Image> {
    var a := ReadPair(ReadHead, ReadRows, s);
    if a.Overrun? then Overrun
    else
      var b := ReadPair(ReadMetaImage, IndexReader(kind), a.rest);
      if b.Overrun? then Overrun else Got(Image(a.value.0, a.value.1, b.value.0, b.value.1), b.rest)
  }

  /** `load_snapshot`: the configuration, the schema's fingerprint and the number of columns
      must be those of the database that loads it. Bytes behind the index are not looked at. */
  function Load(s: Bytes, kind: IndexKind, dim: Word, metric: Byte, fingerprint: Long, columns: nat): Option<Image> {
    var r := ReadImage(s, kind);
    if r.Overrun? then None
    else if r.value.head.dim != dim || r.value.head.metric != metric then None
    else if r.value.meta.fingerprint != fingerprint || |r.value.meta.columns| != columns then None
    else Some(r.value)
  }

  // ----- every part comes back -----

  predicate ColumnFits(c: ColumnImage) {
    && |c.present| == |c.data| < LONG_LIMIT && AllShort(c.dict) && AllShort(c.rawText)
    && (c.kind != TEXT_COLUMN ==> c.rawText == [])
  }

  predicate IndexFits(x: IndexImage) {
    match x
    case Brute(_, stored) => AllShort(stored)
    case Ivf(_, _, _, centroids, lists, rows) => AllShort(centroids) && AllShort(lists) && AllShort(rows)
    case Hnsw(_, _, _, nodes) =>
      |nodes| <= MAX_ELEMENTS && forall i :: 0 <= i < |nodes| ==> Short(nodes[i].data) && AllShort(nodes[i].links)
  }

  // Every count fits 64 bits.
  predicate ImageFits(i: Image) {
    && Short(i.rows.intToExt) && Short(i.rows.deleted) && AllShort(i.rows.vectors)
    && Short(i.meta.columns) && AllShort(i.meta.payload) && IndexFits(i.index)
    && forall a :: 0 <= a < |i.meta.columns| ==> ColumnFits(i.meta.columns[a])
  }

  lemma RestoresFlags(xs: seq<bool>)
    requires Short(xs)
    ensures Restores(PutFlags, ReadFlags, xs)
  {
    forall i | 0 <= i < |xs| ensures Restores(PutFlag, ReadFlag, xs[i]) { RestoresFlag(xs[i]); }
    forall t ensures ReadFlags(PutFlags(xs) + t) == Got(xs, t) { ReadPutList(PutFlag, ReadFlag, xs, t); }
  }

  lemma ReadPutLongPair(a: Long, b: Long, t: Bytes)
    ensures ReadLongPair(Put8(a) + Put8(b) + t) == Got((a, b), t)
  {
    RestoresLong(a);
    RestoresLong(b);
    PairRestores(Put8, Put8, Read8, Read8, a, b, t);
  }

  lemma RestoresHead(h: Head)
    ensures Restores(PutHead, ReadHead, h)
  {
    hide Put2, Get2, Put4, Get4, Read4, Put8, Read1, Read8, ReadLongPair, ReadPair;
    forall t ensures ReadHead(PutHead(h) + t) == Got(h, t) {
      var d := Put8(h.liveCount) + Put8(h.deletedCount) + t;
      var c := Put8(h.lsn) + Put8(h.nextExt) + d;
      var b := Put4(h.dim) + PutByte(h.metric) + c;
      var s := PutHead(h) + t;
      assert s == Put4(MAGIC) + (Put2(VERSION) + b);
      GetPut4(MAGIC, Put2(VERSION) + b);
      assert s[4..] == Put2(VERSION) + b && s[6..] == b;
      GetPut2(VERSION, b);
      RestoresWord(h.dim);
      RestoresByte(h.metric);
      PairRestores(Put4, PutByte, Read4, Read1, h.dim, h.metric, c);
      ReadPutLongPair(h.lsn, h.nextExt, d);
      ReadPutLongPair(h.liveCount, h.deletedCount, t);
    }
  }

  lemma RestoresRows(r: RowImage)
    requires Short(r.intToExt) && Short(r.deleted) && AllShort(r.vectors)
    ensures Restores(PutRows, ReadRows, r)
  {
    hide PutLongs, ReadLongs, PutFlags, ReadFlags, PutVectors, ReadVectors, ReadPair;
    RestoresLongs(r.intToExt);
    RestoresFlags(r.deleted);
    RestoresVectors(r.vectors);
    forall t ensures ReadRows(PutRows(r) + t) == Got(r, t) {
      assert PutRows(r) + t == PutLongs(r.intToExt) + PutFlags(r.deleted) + (PutVectors(r.vectors) + t);
      PairRestores(PutLongs, PutFlags, ReadLongs, ReadFlags, r.intToExt, r.deleted, PutVectors(r.vectors) + t);
    }
  }

  lemma RestoresColumn(c: ColumnImage)
    requires ColumnFits(c)
    ensures Restores(PutColumn, ReadColumn, c)
  {
    hide PutLongs, ReadLongs, PutTexts, ReadTexts, ReadPair, PutMany, ReadMany, PutFlag, ReadFlag, AllShort;
    RestoresByte(c.kind);
    RestoresLongs(c.data);
    RestoresTexts(c.dict);
    RestoresTexts(c.rawText);
    forall i | 0 <= i < |c.present| ensures Restores(PutFlag, ReadFlag, c.present[i]) { RestoresFlag(c.present[i]); }
    forall t ensures ReadColumn(PutColumn(c) + t) == Got(c, t) {
      var raw := if c.kind == TEXT_COLUMN then PutTexts(c.rawText) else [];
      var tail := PutTexts(c.dict) + (raw + t);
      assert PutColumn(c) + t == PutByte(c.kind) + PutLongs(c.data) + (PutMany(PutFlag, c.present) + tail);
      PairRestores(PutByte, PutLongs, Read1, ReadLongs, c.kind, c.data, PutMany(PutFlag, c.present) + tail);
      ReadPutMany(PutFlag, ReadFlag, c.present, tail);
      assert raw == [] ==> raw + t == t;
    }
  }

  lemma RestoresMeta(m: MetaImage)
    requires Short(m.columns) && AllShort(m.payload) && forall a :: 0 <= a < |m.columns| ==> ColumnFits(m.columns[a])
    ensures Restores(PutMetaImage, ReadMetaImage, m)
  {
    hide PutColumn, ReadColumn, PutTexts, ReadTexts, ReadPair, ReadLongPair, Put8, Read8, AllShort;
    forall a | 0 <= a < |m.columns|
      ensures Restores(PutColumn, ReadColumn, m.columns[a])
    {
      RestoresColumn(m.columns[a]);
    }
    forall t ensures ReadColumns(PutColumns(m.columns) + t) == Got(m.columns, t) {
      ReadPutList(PutColumn, ReadColumn, m.columns, t);
    }
    assert Restores(PutColumns, ReadColumns, m.columns);
    RestoresTexts(m.payload);
    forall t ensures ReadMetaImage(PutMetaImage(m) + t) == Got(m, t) {
      var tail := PutColumns(m.columns) + PutTexts(m.payload) + t;
      assert PutMetaImage(m) + t == Put8(m.fingerprint) + Put8(m.rows) + tail;
      ReadPutLongPair(m.fingerprint, m.rows, tail);
      PairRestores(PutColumns, PutTexts, ReadColumns, ReadTexts, m.columns, m.payload, t);
    }
  }

  lemma RestoresNode(n: NodeImage)
    requires Short(n.data) && AllShort(n.links)
    ensures Restores(PutNode, ReadNode, n)
  {
    hide PutFloats, ReadFloats, PutVectors, ReadVectors, ReadPair;
    RestoresFloats(n.data);
    RestoresVectors(n.links);
    forall t ensures ReadNode(PutNode(n) + t) == Got(n, t) {
      PairRestores(PutFloats, PutVectors, ReadFloats, ReadVectors, n.data, n.links, t);
    }
  }

  lemma RestoresNodes(ns: seq<NodeImage>)
    requires |ns| <= MAX_ELEMENTS && forall i :: 0 <= i < |ns| ==> Short(ns[i].data) && AllShort(ns[i].links)
    ensures Restores(PutNodes, ReadNodes, ns)
  {
    hide PutNode, ReadNode, Put8, Read8, PutMany, ReadList;
    forall i | 0 <= i < |ns| ensures Restores(PutNode, ReadNode, ns[i]) { RestoresNode(ns[i]); }
    forall t ensures ReadNodes(PutNodes(ns) + t) == Got(ns, t) {
      assert PutNodes(ns) + t == Put8(|ns|) + (PutMany(PutNode, ns) + t);
      ReadPut8(|ns|, PutMany(PutNode, ns) + t);
      ReadPutList(PutNode, ReadNode, ns, t);
    }
  }

  lemma RestoresIndex(x: IndexImage)
    requires IndexFits(x)
    ensures Restores(PutIndex, IndexReader(KindOf(x)), x)
  {
    hide PutIndex, IndexFits, ReadBrute, ReadIvf, ReadHnsw;
    forall t ensures IndexReader(KindOf(x))(PutIndex(x) + t) == Got(x, t) {
      match x
      case Brute(_, _) => BruteBack(x, t);
      case Ivf(_, _, _, _, _, _) => IvfBack(x, t);
      case Hnsw(_, _, _, _) => HnswBack(x, t);
    }
  }

  lemma BruteBack(x: IndexImage, t: Bytes)
    requires x.Brute? && IndexFits(x)
    ensures ReadBrute(PutIndex(x) + t) == Got(x, t)
  {
    hide Put8, Read8, PutVectors, ReadVectors, ReadPair;
    RestoresLong(x.dim);
    RestoresVectors(x.stored);
    PairRestores(Put8, PutVectors, Read8, ReadVectors, x.dim, x.stored, t);
  }

  lemma IvfBack(x: IndexImage, t: Bytes)
    requires x.Ivf? && IndexFits(x)
    ensures ReadIvf(PutIndex(x) + t) == Got(x, t)
  {
    hide Put8, Read8, PutFlag, ReadFlag, PutVectors, ReadVectors, ReadPair, AllShort;
    RestoresFlag(x.trained);
    RestoresLong(x.nlist);
    RestoresLong(x.nprobe);
    RestoresVectors(x.centroids);
    RestoresVectors(x.lists);
    RestoresVectors(x.rows);
    var c := PutVectors(x.lists) + PutVectors(x.rows) + t;
    var b := Put8(x.nprobe) + PutVectors(x.centroids) + c;
    assert PutIndex(x) + t == PutFlag(x.trained) + Put8(x.nlist) + b;
    PairRestores(PutFlag, Put8, ReadFlag, Read8, x.trained, x.nlist, b);
    PairRestores(Put8, PutVectors, Read8, ReadVectors, x.nprobe, x.centroids, c);
    PairRestores(PutVectors, PutVectors, ReadVectors, ReadVectors, x.lists, x.rows, t);
  }

  lemma HnswBack(x: IndexImage, t: Bytes)
    requires x.Hnsw? && IndexFits(x)
    ensures ReadHnsw(PutIndex(x) + t) == Got(x, t)
  {
    hide Put4, Read4, Put8, Read8, PutNodes, ReadNodes, ReadPair, AllShort;
    RestoresWord(x.entry);
    RestoresWord(x.maxLayer);
    RestoresLong(x.efSearch);
    RestoresNodes(x.nodes);
    var b := Put8(x.efSearch) + PutNodes(x.nodes) + t;
    assert PutIndex(x) + t == Put4(x.entry) + Put4(x.maxLayer) + b;
    PairRestores(Put4, Put4, Read4, Read4, x.entry, x.maxLayer, b);
    PairRestores(Put8, PutNodes, Read8, ReadNodes, x.efSearch, x.nodes, t);
  }

  // A snapshot loads as what was saved, whatever follows it in the file.
  lemma LoadSaved(i: Image, t: Bytes)
    requires ImageFits(i)
    ensures ReadImage(Save(i) + t, KindOf(i.index)) == Got(i, t)
    ensures Load(Save(i) + t, KindOf(i.index), i.head.dim, i.head.metric, i.meta.fingerprint, |i.meta.columns|) ==
      Some(i)
  {
    hide PutHead, ReadHead, PutRows, ReadRows, PutMetaImage, ReadMetaImage, PutIndex, IndexReader, ReadPair, ColumnFits,
      IndexFits;
    RestoresHead(i.head);
    RestoresRows(i.rows);
    RestoresMeta(i.meta);
    RestoresIndex(i.index);
    var tail := PutMetaImage(i.meta) + PutIndex(i.index) + t;
    assert Save(i) + t == PutHead(i.head) + PutRows(i.rows) + tail;
    PairRestores(PutHead, PutRows, ReadHead, ReadRows, i.head, i.rows, tail);
    PairRestores(PutMetaImage, PutIndex, ReadMetaImage, IndexReader(KindOf(i.index)), i.meta, i.index, t);
  }

  // ----- a cut snapshot is refused -----

  lemma HeadSteady()
    ensures Steady(ReadHead)
  {
    hide Get2, Get4, Read4, Read1, Read8;
    ItemsSteady();
    forall s, t | ReadHead(s).Got? ensures ReadHead(s + t) == Got(ReadHead(s).value, ReadHead(s).rest + t) {
      assert (s + t)[6..] == s[6..] + t;
      GetSteady(s, t);
      PairSteady(Read4, Read1, s[6..], t);
      var config := ReadPair(Read4, Read1, s[6..]);
      PairSteady(Read8, Read8, config.rest, t);
      PairSteady(Read8, Read8, ReadLongPair(config.rest).rest, t);
    }
  }

  lemma GetSteady(s: Bytes, t: Bytes)
    requires |s| >= 6
    ensures Get4(s + t) == Get4(s) && Get2((s + t)[4..]) == Get2(s[4..])
  {
  }

  lemma RowsSteady()
    ensures Steady(ReadRows)
  {
    hide ReadLongs, ReadFlags, ReadVectors;
    ListsSteady();
    FlagsSteady();
    forall s, t | ReadRows(s).Got? ensures ReadRows(s + t) == Got(ReadRows(s).value, ReadRows(s).rest + t) {
      PairSteady(ReadLongs, ReadFlags, s, t);
      var a := ReadPair(ReadLongs, ReadFlags, s);
      assert ReadVectors(a.rest + t) == Got(ReadVectors(a.rest).value, ReadVectors(a.rest).rest + t);
    }
  }

  lemma FlagsSteady()
    ensures Steady(ReadFlags)
  {
    ItemsSteady();
    forall s, t | ReadFlags(s).Got? ensures ReadFlags(s + t) == Got(ReadFlags(s).value, ReadFlags(s).rest + t) {
      ListSteady(ReadFlag, s, t);
    }
  }

  lemma ColumnSteady()
    ensures Steady(ReadColumn)
  {
    hide ReadLongs, ReadTexts, Read1, ReadFlag, ReadMany;
    ListsSteady();
    ItemsSteady();
    forall s, t | ReadColumn(s).Got? ensures ReadColumn(s + t) == Got(ReadColumn(s).value, ReadColumn(s).rest + t) {
      PairSteady(Read1, ReadLongs, s, t);
      var a := ReadPair(Read1, ReadLongs, s);
      ManySteady(ReadFlag, a.rest, |a.value.1|, t);
      var present := ReadMany(ReadFlag, a.rest, |a.value.1|);
      assert ReadTexts(present.rest + t) == Got(ReadTexts(present.rest).value, ReadTexts(present.rest).rest + t);
      var dict := ReadTexts(present.rest);
      assert ReadTexts(dict.rest).Got? ==>
        ReadTexts(dict.rest + t) == Got(ReadTexts(dict.rest).value, ReadTexts(dict.rest).rest + t);
    }
  }

  lemma MetaSteady()
    ensures Steady(ReadMetaImage)
  {
    hide ReadColumn, ReadTexts, Read8;
    ColumnSteady();
    ListsSteady();
    ItemsSteady();
    forall s, t | ReadColumns(s).Got? ensures ReadColumns(s + t) == Got(ReadColumns(s).value, ReadColumns(s).rest + t) {
      ListSteady(ReadColumn, s, t);
    }
    assert Steady(ReadColumns);
    forall s, t | ReadMetaImage(s).Got?
      ensures ReadMetaImage(s + t) == Got(ReadMetaImage(s).value, ReadMetaImage(s).rest + t)
    {
      PairSteady(Read8, Read8, s, t);
      PairSteady(ReadColumns, ReadTexts, ReadLongPair(s).rest, t);
    }
  }

  lemma NodesSteady()
    ensures Steady(ReadNodes)
  {
    hide ReadFloats, ReadVectors, ReadMany, Read8;
    ListsSteady();
    ItemsSteady();
    forall s, t | ReadNode(s).Got? ensures ReadNode(s + t) == Got(ReadNode(s).value, ReadNode(s).rest + t) {
      PairSteady(ReadFloats, ReadVectors, s, t);
    }
    assert Steady(ReadNode);
    forall s, t | ReadNodes(s).Got? ensures ReadNodes(s + t) == Got(ReadNodes(s).value, ReadNodes(s).rest + t) {
      Steady8(s, t);
      ListSteady(ReadNode, s, t);
    }
  }

  lemma BruteSteady()
    ensures Steady(ReadBrute)
  {
    hide Read8, ReadVectors;
    ListsSteady();
    ItemsSteady();
    forall s, t | ReadBrute(s).Got? ensures ReadBrute(s + t) == Got(ReadBrute(s).value, ReadBrute(s).rest + t) {
      PairSteady(Read8, ReadVectors, s, t);
    }
  }

  lemma IvfSteady()
    ensures Steady(ReadIvf)
  {
    hide Read8, ReadFlag, ReadVectors;
    ListsSteady();
    ItemsSteady();
    forall s, t | ReadIvf(s).Got? ensures ReadIvf(s + t) == Got(ReadIvf(s).value, ReadIvf(s).rest + t) {
      PairSteady(ReadFlag, Read8, s, t);
      var a := ReadPair(ReadFlag, Read8, s);
      PairSteady(Read8, ReadVectors, a.rest, t);
      PairSteady(ReadVectors, ReadVectors, ReadPair(Read8, ReadVectors, a.rest).rest, t);
    }
  }

  lemma HnswSteady()
    ensures Steady(ReadHnsw)
  {
    hide Read4, Read8, ReadNodes;
    NodesSteady();
    ItemsSteady();
    forall s, t | ReadHnsw(s).Got? ensures ReadHnsw(s + t) == Got(ReadHnsw(s).value, ReadHnsw(s).rest + t) {
      PairSteady(Read4, Read4, s, t);
      PairSteady(Read8, ReadNodes, ReadPair(Read4, Read4, s).rest, t);
    }
  }

  lemma IndexSteady(kind: IndexKind)
    ensures Steady(IndexReader(kind))
  {
    BruteSteady();
    IvfSteady();
    HnswSteady();
  }

  // Every strict prefix of a snapshot is refused: none loads with less than was saved.
  lemma CutIsRefused(i: Image, n: nat, dim: Word, metric: Byte, fingerprint: Long, columns: nat)
    requires ImageFits(i) && n < |Save(i)|
    ensures Load(Save(i)[..n], KindOf(i.index), dim, metric, fingerprint, columns) == None
  {
    hide PutHead, ReadHead, PutRows, ReadRows, PutMetaImage, ReadMetaImage, PutIndex, IndexReader, ColumnFits,
      Save, ReadPair, IndexFits;
    var s, t := Save(i)[..n], Save(i)[n..];
    assert s + t == Save(i) + [];
    LoadSaved(i, []);
    if ReadImage(s, KindOf(i.index)).Got? {
      HeadSteady();
      RowsSteady();
      MetaSteady();
      IndexSteady(KindOf(i.index));
      PairSteady(ReadHead, ReadRows, s, t);
      PairSteady(ReadMetaImage, IndexReader(KindOf(i.index)), ReadPair(ReadHead, ReadRows, s).rest, t);
    }
  }
}
