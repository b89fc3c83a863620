/** Saving the database and loading it again: the map from ids to vectors and records comes
    back, with the dictionary codes it had, and everything derived is built afresh. */
module VectorDbSnapshot {
  import opened Basics
  import W = WalRecords
  import D = DurableThreads
  import K = WalCodec
  import C = SnapshotCodec
  import opened MetaColumn
  import opened MetaRows
  import opened MetaResolve
  import opened MetaTable
  import opened MetadataStores
  import opened VectorDbs

  // ----- columns -----

  function KindByte(k: Kind): (b: W.Byte)
    ensures b == C.TEXT_COLUMN <==> k.KText?
  {
    match k case KInt => 1 case KFloat => 2 case KBool => 3 case KTag => 4 case KText => 5
  }

  // A column's type byte is the one that its values begin with in the log.
  lemma KindByteAgrees(kind: Kind, v: W.AttrValue)
    requires KindFits(kind, v) && !v.Null? && K.AttrFits(v)
    ensures K.PutAttr(v) != [] && K.PutAttr(v)[0] == KindByte(kind)
  {
  }

  // What the types of the source grant: numbers and counts of 64 bits.
  ghost predicate Wide(c: Column) {
    && |c.data| < W.LONG_LIMIT && (forall i :: 0 <= i < |c.data| ==> c.data[i] < W.LONG_LIMIT)
    && C.AllShort(c.dict) && C.AllShort(c.rawText) && (!c.kind.KText? ==> c.rawText == [])
  }

  function AsLong(n: nat): W.Long { n % W.LONG_LIMIT }
  function AsLongs(ns: seq<nat>): (r: seq<W.Long>)
    ensures |r| == |ns| && forall i :: 0 <= i < |r| ==> r[i] == AsLong(ns[i])
  {
    seq(|ns|, i requires 0 <= i < |ns| => AsLong(ns[i]))
  }

  function PictureOf(c: Column): C.ColumnImage {
    C.ColumnImage(KindByte(c.kind), AsLongs(c.data), c.present, c.dict, c.rawText)
  }

  // The codes of a text row are not in the file: they come from its text and the dictionary.
  function TermsBack(dict: seq<Str>, present: seq<bool>, raw: seq<Str>): (r: seq<seq<nat>>)
    ensures |r| == |raw|
  {
    seq(|raw|, i requires 0 <= i < |raw| =>
      if i < |present| && present[i] then TermsOf(dict, Tokenize(raw[i])) else [])
  }

  function LengthsBack(present: seq<bool>, raw: seq<Str>): (r: seq<nat>)
    ensures |r| == |raw|
  {
    seq(|raw|, i requires 0 <= i < |raw| => if i < |present| && present[i] then |Tokenize(raw[i])| else 0)
  }

  // A column as `deserialize` leaves it: counters at zero, postings and index empty.
  function Restored(s: Spec, p: C.ColumnImage): Column {
    var c := Column(s.kind, p.data, p.present, [], [], p.rawText, p.dict, [], [], 0, 0,
      if s.indexed then Some([]) else None);
    var c1 := if s.kind.KText? then
      c.(terms := TermsBack(p.dict, p.present, p.rawText), docLen := LengthsBack(p.present, p.rawText))
    else c;
    c1.(count := Zeros(Width(c1)), postings := Nones(Width(c1)))
  }

  // A saved column comes back with the same values and the same codes.
  lemma RestoredSame(s: Spec, c: Column, n: nat)
    requires ShapeOK(c, n) && Wide(c) && c.kind == s.kind && (c.index.Some? <==> s.indexed)
    ensures var c' := Restored(s, PictureOf(c));
      && ShapeOK(c', n) && c'.kind == s.kind && (c'.index.Some? <==> s.indexed) && c'.dict == c.dict
      && forall i :: 0 <= i < n ==> Codes(c', i) == Codes(c, i) && ValueAt(c', i) == ValueAt(c, i)
  {
    hide TermsOf, Tokenize;
    var c' := Restored(s, PictureOf(c));
    assert PictureOf(c).data == c.data;
    forall i | 0 <= i < n ensures RowOK(c', i) && Codes(c', i) == Codes(c, i) && ValueAt(c', i) == ValueAt(c, i) {
      assert RowOK(c, i);
    }
  }

  // ----- images -----

  function RestoredAll(schema: seq<Spec>, ps: seq<C.ColumnImage>): (cs: seq<Column>)
    requires |ps| == |schema|
    ensures |cs| == |ps|
  {
    seq(|ps|, a requires 0 <= a < |ps| => Restored(schema[a], ps[a]))
  }

  // The map as the loading loop builds it.
  function Remapped(intToExt: seq<nat>, deleted: seq<bool>): map<nat, nat>
    requires |intToExt| == |deleted|
  {
    if intToExt == [] then map[]
    else
      var n := |intToExt| - 1;
      var m := Remapped(intToExt[..n], deleted[..n]);
      if deleted[n] then m else m[intToExt[n] := n]
  }

  // The file of a database: every row as stored, no live id twice, and counts that agree.
  ghost predicate ImageOK(schema: seq<Spec>, i: C.Image) {
    var n, live := |i.rows.intToExt|, Flags(i.rows.deleted);
    && C.ImageFits(i) && n < W.LONG_LIMIT
    && |i.rows.deleted| == |i.rows.vectors| == |i.meta.payload| == i.meta.rows == n
    && C.VectorsOf(i.index) == i.rows.vectors
    && |i.meta.columns| == |schema| && RowsStored(schema, RestoredAll(schema, i.meta.columns), n)
    && IdsOK(Remapped(i.rows.intToExt, i.rows.deleted), i.rows.intToExt, i.rows.deleted)
    && Bounded(i.rows.intToExt, i.head.nextExt)
    && i.head.liveCount == |Remapped(i.rows.intToExt, i.rows.deleted)| == |LiveIds(live)|
    && i.head.liveCount + i.head.deletedCount == n
  }

  // What an image says.
  ghost function Meaning(schema: seq<Spec>, i: C.Image): D.Rows
    requires ImageOK(schema, i)
  {
    StoredSized(schema, RestoredAll(schema, i.meta.columns), |i.rows.intToExt|);
    LogicalOf(Remapped(i.rows.intToExt, i.rows.deleted), i.rows.vectors,
              Records(RestoredAll(schema, i.meta.columns), i.meta.payload))
  }

  lemma StoredSized(schema: seq<Spec>, columns: seq<Column>, n: nat)
    requires RowsStored(schema, columns, n)
    ensures AllSized(columns, n)
  {
    forall a | 0 <= a < |columns| ensures Sized(columns[a], n) { ShapeWidth(columns[a], n); }
  }

  // On a kept table the loop rebuilds the very map that was there.
  lemma {:induction false} RemappedIs(extToInt: map<nat, nat>, intToExt: seq<nat>, deleted: seq<bool>, n: nat)
    requires IdsOK(extToInt, intToExt, deleted) && n <= |intToExt|
    ensures var m := Remapped(intToExt[..n], deleted[..n]);
      && (forall e :: e in m ==> e in extToInt && extToInt[e] == m[e] && m[e] < n)
      && forall i :: 0 <= i < n && !deleted[i] ==> intToExt[i] in m && m[intToExt[i]] == i
  {
    if n > 0 {
      RemappedIs(extToInt, intToExt, deleted, n - 1);
      assert intToExt[..n][..n - 1] == intToExt[..n - 1] && deleted[..n][..n - 1] == deleted[..n - 1];
    }
  }

  lemma RemappedWhole(extToInt: map<nat, nat>, intToExt: seq<nat>, deleted: seq<bool>)
    requires IdsOK(extToInt, intToExt, deleted)
    ensures Remapped(intToExt, deleted) == extToInt
  {
    var n := |intToExt|;
    RemappedIs(extToInt, intToExt, deleted, n);
    assert intToExt[..n] == intToExt && deleted[..n] == deleted;
    var m := Remapped(intToExt, deleted);
    forall e | e in extToInt ensures e in m && m[e] == extToInt[e] { assert intToExt[extToInt[e]] == e; }
  }

  // ----- saving -----

  datatype Config = Config(kind: C.IndexKind, dim: W.Word, metric: W.Byte, fingerprint: W.Long)

  function Pictures(columns: seq<Column>): (ps: seq<C.ColumnImage>)
    ensures |ps| == |columns| && forall a :: 0 <= a < |ps| ==> ps[a] == PictureOf(columns[a])
  {
    seq(|columns|, a requires 0 <= a < |columns| => PictureOf(columns[a]))
  }

  // Everything in the database fits the fields of the file.
  ghost predicate Savable(db: VDB)
    reads db, db.meta
  {
    && |db.intToExt| < W.LONG_LIMIT && db.nextExt < W.LONG_LIMIT && |db.schema| < W.LONG_LIMIT
    && C.AllShort(db.vectors) && C.AllShort(db.meta.payload)
    && forall a :: 0 <= a < |db.meta.columns| ==> Wide(db.meta.columns[a])
  }

  lemma ColumnsBack(schema: seq<Spec>, columns: seq<Column>, live: seq<bool>, trails: seq<Trail>, payload: seq<Str>)
    requires ColumnsOK(schema, columns, live, trails) && AllSized(columns, |live|) && |payload| == |live|
    requires forall a :: 0 <= a < |columns| ==> Wide(columns[a])
    ensures |columns| == |schema|
    ensures var cs := RestoredAll(schema, Pictures(columns));
      && RowsStored(schema, cs, |live|) && AllSized(cs, |live|) && Records(cs, payload) == Records(columns, payload)
      && forall a :: 0 <= a < |columns| ==> cs[a].dict == columns[a].dict && C.ColumnFits(Pictures(columns)[a])
    ensures forall a, i :: 0 <= a < |columns| && 0 <= i < |live| ==>
      Codes(RestoredAll(schema, Pictures(columns))[a], i) == Codes(columns[a], i)
  {
    hide CountsOK, IndexOK, PostingsOK, RowOK, ValueAt, Codes, Restored;
    var cs := RestoredAll(schema, Pictures(columns));
    forall a | 0 <= a < |columns|
      ensures ShapeOK(cs[a], |live|) && Sized(cs[a], |live|) && cs[a].kind == schema[a].kind
      ensures (cs[a].index.Some? <==> schema[a].indexed) && cs[a].dict == columns[a].dict
      ensures C.ColumnFits(Pictures(columns)[a])
      ensures forall i :: 0 <= i < |live| ==>
        Codes(cs[a], i) == Codes(columns[a], i) && ValueAt(cs[a], i) == ValueAt(columns[a], i)
    {
      assert FieldOK(schema[a], columns[a], live, trails[a]);
      RestoredSame(schema[a], columns[a], |live|);
    }
    SameRecords(columns, cs, payload);
  }

  ghost function ImageOf(db: VDB, config: Config, index: C.IndexImage, lsn: W.Long): C.Image
    reads db, db.meta
  {
    C.Image(
      C.Head(config.dim, config.metric, lsn, AsLong(db.nextExt), AsLong(db.liveCount), AsLong(db.deletedCount)),
      C.RowImage(AsLongs(db.intToExt), db.deleted, db.vectors),
      C.MetaImage(config.fingerprint, AsLong(|db.intToExt|), Pictures(db.meta.columns), db.meta.payload),
      index)
  }

  lemma ImageNumbers(db: VDB, config: Config, index: C.IndexImage, lsn: W.Long)
    requires db.Valid() && Savable(db)
    ensures var i := ImageOf(db, config, index, lsn);
      && i.rows.intToExt == db.intToExt && i.meta.rows == |db.intToExt| && i.head.nextExt == db.nextExt
      && i.head.liveCount == db.liveCount && i.head.deletedCount == db.deletedCount
      && Flags(i.rows.deleted) == db.meta.live && |i.rows.deleted| == |i.rows.vectors| == |db.intToExt|
      && IdsOK(db.extToInt, db.intToExt, db.deleted)
  {
    hide ColumnsOK, AllSized, LogicalOf, LiveIds, AllPending, Held, Records, TicketsOK, C.AllShort, Wide, Pictures;
    assert AsLongs(db.intToExt) == db.intToExt;
    assert Flags(db.deleted) == db.meta.live;
  }

  lemma ImageIsOK(db: VDB, config: Config, index: C.IndexImage, lsn: W.Long)
    requires db.Valid() && Savable(db) && Indexes(db, config, index)
    ensures ImageOK(db.schema, ImageOf(db, config, index, lsn))
    ensures Meaning(db.schema, ImageOf(db, config, index, lsn)) == db.Logical()
    ensures |db.schema| == |db.meta.columns|
  {
    hide ColumnsOK, LogicalOf, LiveIds, AllPending, Held, Records, TableOK, IdsOK, RestoredAll, RowsStored, Remapped,
      Wide, C.AllShort, C.ColumnFits;
    ColumnsBack(db.schema, db.meta.columns, db.meta.live, db.meta.trails, db.meta.payload);
    ImageNumbers(db, config, index, lsn);
    RemappedWhole(db.extToInt, db.intToExt, db.deleted);
  }

  predicate SameDicts(columns: seq<Column>, pictures: seq<C.ColumnImage>) {
    |pictures| == |columns| && forall a :: 0 <= a < |columns| ==> pictures[a].dict == columns[a].dict
  }

  // What the index of a database may look like from inside: the vectors are its rows.
  predicate Indexes(db: VDB, config: Config, index: C.IndexImage)
    reads db
  {
    C.KindOf(index) == config.kind && C.IndexFits(index) && C.VectorsOf(index) == db.index
  }

  // `save_snapshot`. Pending rows are saved as the tombstones they are for readers.
  method SaveSnapshot(db: VDB, config: Config, index: C.IndexImage, lsn: W.Long) returns (bytes: Str)
    requires db.Valid() && Savable(db) && Indexes(db, config, index)
    ensures var image := ImageOf(db, config, index, lsn);
      && bytes == C.Save(image) && ImageOK(db.schema, image) && Meaning(db.schema, image) == db.Logical()
      && image.head.nextExt == db.nextExt && image.head.lsn == lsn
      && image.head.dim == config.dim && image.head.metric == config.metric
      && image.meta.fingerprint == config.fingerprint && image.index == index
    ensures SameDicts(db.meta.columns, Pictures(db.meta.columns))
  {
    hide C.Save, ImageOK, Meaning, VDB.Valid, VDB.Logical, Wide;
    var pictures: seq<C.ColumnImage> := [];
    for a := 0 to |db.meta.columns|
      invariant |pictures| == a && forall i :: 0 <= i < a ==> pictures[i] == PictureOf(db.meta.columns[i])
    {
      pictures := pictures + [PictureOf(db.meta.columns[a])];
    }
    assert pictures == Pictures(db.meta.columns);
    var i := C.Image(
      C.Head(config.dim, config.metric, lsn, AsLong(db.nextExt), AsLong(db.liveCount), AsLong(db.deletedCount)),
      C.RowImage(AsLongs(db.intToExt), db.deleted, db.vectors),
      C.MetaImage(config.fingerprint, AsLong(|db.intToExt|), pictures, db.meta.payload),
      index);
    bytes := C.Save(i);
    ImageIsOK(db, config, index, lsn);
    ImageNumbers(db, config, index, lsn);
  }

  // ----- loading -----

  lemma {:induction false} NothingToIntern(c: Column, toks: seq<Str>)
    requires AllIn(toks, c.dict)
    ensures InternedAll(c, toks) == c
  {
    if toks != [] {
      assert toks[|toks| - 1] in c.dict;
      assert AllIn(toks[..|toks| - 1], c.dict);
      NothingToIntern(c, toks[..|toks| - 1]);
    }
  }

  // Whatever a text row says is in the dictionary.
  ghost predicate Spoken(p: C.ColumnImage) {
    forall i :: 0 <= i < |p.rawText| && i < |p.present| && p.present[i] ==> AllIn(Tokenize(p.rawText[i]), p.dict)
  }

  lemma StoredSpoken(s: Spec, p: C.ColumnImage, n: nat)
    requires ShapeOK(Restored(s, p), n) && s.kind.KText?
    ensures Spoken(p) && |p.rawText| == |p.present|
  {
    hide Tokenize, TermsOf;
    var c := Restored(s, p);
    forall i | 0 <= i < |p.rawText| && i < |p.present| && p.present[i] ensures AllIn(Tokenize(p.rawText[i]), p.dict) {
      assert RowOK(c, i);
    }
  }

  /** `deserialize` on one column. The texts are tokenized and interned again, which gives
      the codes they had, because the dictionary already has every token. */
  method RestoreColumn(meta: MetadataStore, a: nat, s: Spec, p: C.ColumnImage)
    requires a < |meta.columns|
    requires s.kind.KText? ==> Spoken(p) && |p.rawText| == |p.present|
    modifies meta`columns
    ensures meta.columns == old(meta.columns)[a := Restored(s, p)]
  {
    hide TermsOf, Tokenize, InternedAll;
    var c := Column(s.kind, p.data, p.present, [], [], p.rawText, p.dict, [], [], 0, 0,
      if s.indexed then Some([]) else None);
    meta.columns := meta.columns[a := c];
    ghost var was := meta.columns;
    if s.kind.KText? {
      var terms, docLen := [], [];
      for i := 0 to |p.rawText|
        invariant meta.columns == was && |terms| == |docLen| == i
        invariant forall j :: 0 <= j < i ==>
          terms[j] == TermsBack(p.dict, p.present, p.rawText)[j] && docLen[j] == LengthsBack(p.present, p.rawText)[j]
      {
        if p.present[i] {
          NothingToIntern(c, Tokenize(p.rawText[i]));
          var codes, length := meta.InternTerms(a, p.rawText[i]);
          terms, docLen := terms + [codes], docLen + [length];
        } else {
          terms, docLen := terms + [[]], docLen + [0];
        }
      }
      assert terms == TermsBack(p.dict, p.present, p.rawText) && docLen == LengthsBack(p.present, p.rawText);
      c := c.(terms := terms, docLen := docLen);
    }
    meta.columns := meta.columns[a := c.(count := Zeros(Width(c)), postings := Nones(Width(c)))];
  }

  method RestoreColumns(meta: MetadataStore, ps: seq<C.ColumnImage>, ghost n: nat)
    requires |meta.columns| == |meta.schema| == |ps| && RowsStored(meta.schema, RestoredAll(meta.schema, ps), n)
    modifies meta`columns
    ensures meta.columns == RestoredAll(meta.schema, ps)
  {
    hide Restored, ShapeOK, Mixed;
    ghost var was, done := meta.columns, RestoredAll(meta.schema, ps);
    MixedEnds(done, was);
    for a := 0 to |ps|
      invariant meta.columns == Mixed(done, was, a)
    {
      MixedStep(done, was, a);
      assert done[a] == Restored(meta.schema[a], ps[a]);
      if meta.schema[a].kind.KText? { StoredSpoken(meta.schema[a], ps[a], n); }
      RestoreColumn(meta, a, meta.schema[a], ps[a]);
    }
    assert meta.columns == done;
  }

  // The map of ids, from the rows that are not deleted.
  method Remap(intToExt: seq<nat>, deleted: seq<bool>) returns (m: map<nat, nat>)
    requires |intToExt| == |deleted|
    ensures m == Remapped(intToExt, deleted)
  {
    m := map[];
    for i := 0 to |intToExt|
      invariant m == Remapped(intToExt[..i], deleted[..i])
    {
      assert intToExt[..i + 1][..i] == intToExt[..i] && deleted[..i + 1][..i] == deleted[..i];
      if !deleted[i] { m := m[intToExt[i] := i]; }
    }
    assert intToExt[..|intToExt|] == intToExt && deleted[..|deleted|] == deleted;
  }

  // After loading, every row is posted once under its own codes.
  lemma LoadedIsValid(schema: seq<Spec>, i: C.Image)
    requires ImageOK(schema, i)
    ensures var n := |i.rows.intToExt|;
      && AliveBelow(i.rows.deleted, n) == Flags(i.rows.deleted)
      && TableOK(map[], Remapped(i.rows.intToExt, i.rows.deleted), i.rows.intToExt, i.rows.deleted)
      && Flags(Flags(i.rows.deleted)) == i.rows.deleted
  {
    hide RowsStored, C.ImageFits, LiveIds, Bounded;
    assert AliveBelow(i.rows.deleted, |i.rows.intToExt|) == Flags(i.rows.deleted);
    assert Flags(Flags(i.rows.deleted)) == i.rows.deleted;
  }

  // The numbers and arrays of a database, from an image.
  method LoadRows(db: VDB, i: C.Image)
    requires ImageOK(db.schema, i)
    modifies db
    ensures db.nextExt == i.head.nextExt && db.liveCount == i.head.liveCount && db.deletedCount == i.head.deletedCount
    ensures db.intToExt == i.rows.intToExt && db.deleted == i.rows.deleted
    ensures db.vectors == i.rows.vectors && db.index == C.VectorsOf(i.index)
    ensures db.extToInt == Remapped(i.rows.intToExt, i.rows.deleted) && db.pending == map[]
  {
    db.nextExt, db.liveCount, db.deletedCount := i.head.nextExt, i.head.liveCount, i.head.deletedCount;
    db.intToExt, db.deleted, db.vectors := i.rows.intToExt, i.rows.deleted, i.rows.vectors;
    db.extToInt := Remap(db.intToExt, db.deleted);
    db.index := C.VectorsOf(i.index);
    db.pending := map[];
  }

  /** `load_snapshot`, of a file that was saved. It is taken if and only if the file is for
      this configuration and schema. The kind of index is not in the file: it is read as the
      one that the configuration names. */
  method LoadSnapshot(db: VDB, config: Config, bytes: Str, ghost image: C.Image)
    returns (lsn: Option<nat>, index: Option<C.IndexImage>)
    requires db.Valid() && db.pending == map[] && ImageOK(db.schema, image) && bytes == C.Save(image)
    requires C.KindOf(image.index) == config.kind
    modifies db, db.meta
    ensures lsn.Some? <==>
      image.head.dim == config.dim && image.head.metric == config.metric && image.meta.fingerprint == config.fingerprint
    ensures lsn.Some? ==> db.Valid() && db.pending == map[] && db.Logical() == Meaning(db.schema, image)
    ensures index == if lsn.Some? then Some(image.index) else None
    ensures lsn.Some? ==> lsn.value == image.head.lsn && db.nextExt == image.head.nextExt
    ensures lsn.Some? ==> db.meta.trails == FreshTrails(|db.schema|, db.meta.live)
  {
    hide C.Save, C.ReadImage, ColumnsOK, AllSized, LogicalOf, LiveIds, AllPending, Held, Records, TableOK, RestoredAll,
      RowsStored, Remapped, Bounded, FreshTrails, Flags, AliveBelow, C.ImageFits, IdsOK;
    C.LoadSaved(image, []);
    assert bytes + [] == bytes;
    var loaded := C.Load(bytes, config.kind, config.dim, config.metric, config.fingerprint, |db.schema|);
    if loaded.None? { return None, None; }
    var i := loaded.value;
    assert i == image;
    MetaWidth(db.meta);
    StoredSized(db.schema, RestoredAll(db.schema, i.meta.columns), |i.rows.intToExt|);
    RestoreColumns(db.meta, i.meta.columns, |i.rows.intToExt|);
    db.meta.payload := i.meta.payload;
    db.meta.rows := i.meta.rows;
    db.meta.RebuildDerivedState(i.rows.deleted);
    LoadRows(db, i);
    LoadedIsValid(db.schema, i);
    NothingPending(db.meta.trails, db.vectors, db.meta.Contents());
    FreshSizes(|db.schema|, db.meta.live);
    lsn, index := Some(i.head.lsn), Some(i.index);
  }

  lemma MetaWidth(meta: MetadataStore)
    requires meta.Valid()
    ensures |meta.columns| == |meta.schema|
  {
  }
}
