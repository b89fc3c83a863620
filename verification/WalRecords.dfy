/** What the write-ahead log says: one logged operation per record. */
module WalRecords {
  const WORD_LIMIT: int := 0x1_0000_0000
  const LONG_LIMIT: int := 0x1_0000_0000_0000_0000

  type Byte = b: int | 0 <= b < 256
  type Word = w: int | 0 <= w < WORD_LIMIT
  type Long = w: int | 0 <= w < LONG_LIMIT

  /** One attribute value. Tag and Text carry their string; the rest carry eight raw bytes.
      The dictionary code that the source caches beside a tag's string is not part of it. */
  datatype AttrValue =
    | Null
    | Int64(raw: Long)
    | Float64(raw: Long)
    | Bool(raw: Long)
    | Tag(text: seq<Byte>)
    | Text(text: seq<Byte>)

  datatype Record = Record(attrs: seq<AttrValue>, payload: seq<Byte>)

  // The kinds of record, as the byte on disk.
  const INSERT: Byte := 1
  const DELETE: Byte := 2
  const UPDATE: Byte := 3
  const CHECKPOINT: Byte := 4
  const SET_META: Byte := 5

  /** A record of any kind. Vector components are the 32-bit patterns of their floats.
      `extId` is the snapshot's number in a checkpoint. */
  datatype WalRecord = WalRecord(kind: Byte, lsn: Long, extId: Long, vec: seq<Word>, meta: Record)

  predicate CarriesVector(kind: Byte) { kind == INSERT || kind == UPDATE }
  predicate CarriesMeta(kind: Byte) { CarriesVector(kind) || kind == SET_META }

  const NO_META := Record([], [])

  // What a log keeps of a record: fields that its kind does not carry are dropped.
  function Logged(r: WalRecord): WalRecord {
    r.(vec := if CarriesVector(r.kind) then r.vec else [], meta := if CarriesMeta(r.kind) then r.meta else NO_META)
  }
}
