/** Values shared by every part of the engine: ids, metadata, write operations and live records. */
module Core {

  datatype Option<+T> = None | Some(value: T)

  datatype Result<+T, +E> = Ok(value: T) | Err(error: E)

  const TWO_63 := 0x8000_0000_0000_0000

  /** Rust's `i64`. */
  type I64 = x: int | -TWO_63 <= x < TWO_63

  type Id = string
  type Document = string

  /** A vector. Components are exact reals: f32 rounding is not modelled. */
  type Embedding = seq<real>

  /** A metadata value. Floats are exact reals, so NaN and the infinities do not occur. */
  datatype Value =
    | Str(s: string)
    | Bool(b: bool)
    | Int(i: I64)
    | Float(f: real)

  type Metadata = map<string, Value>

  /** One logged write. */
  datatype Operation =
    | Add(id: Id, embedding: Embedding, metadata: Option<Metadata>, document: Option<Document>)
    | Upsert(id: Id, embedding: Embedding, metadata: Option<Metadata>, document: Option<Document>)
    | Update(id: Id, metadata: Option<Metadata>, document: Option<Document>)
    | Delete(id: Id)
  {
    /** Add and Upsert are the operations that carry a vector. */
    predicate Writes() {
      Add? || Upsert?
    }

    /** Every operation except Update fixes the whole record of its id. */
    predicate Decides(x: Id) {
      id == x && !Update?
    }
  }

  /** A live record. `embedding` is None for a record whose vector was moved to a segment file. */
  datatype Record = Record(
    id: Id,
    embedding: Option<Embedding>,
    metadata: Option<Metadata>,
    document: Option<Document>,
    seqNo: nat)
}
