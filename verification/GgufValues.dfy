/** Metadata values of a GGUF file, and the lookups that narrow them. */
module GgufValues {
  import opened ModelTypes
  import opened Utf8

  /** What the loader keeps of a value; floats are kept as their bit patterns. */
  datatype Value =
    | UInt32(u32: nat)
    | UInt64(u64: nat)
    | Int32(i32: int)
    | Int64(i64: int)
    | Float32(f32: nat)
    | Float64(f64: nat)
    | Bool(b: bool)
    | Text(text: Bytes)
    | UInt32s(u32s: seq<nat>)
    | Int32s(i32s: seq<int>)
    | Float32s(f32s: seq<nat>)
    | Texts(texts: seq<Bytes>)

  type Metadata = map<Bytes, Value>

  predicate Latin(s: string) {
    forall i :: 0 <= i < |s| ==> s[i] as int < 256
  }

  /** A literal as bytes. */
  function Literal(s: string): Bytes
    requires Latin(s)
  {
    seq(|s|, i requires 0 <= i < |s| => s[i] as int)
  }

  /** Conversion of an unsigned 32-bit value to a signed one. */
  function ToInt32(n: nat): int
    requires n < TWO_32
  {
    if n < 0x8000_0000 then n else n - TWO_32
  }

  function KvUInt32(kv: Metadata, key: Bytes, def: nat): nat {
    if key !in kv then def
    else match kv[key]
      case UInt32(n) => n
      case Int32(i) => i % TWO_32
      case UInt64(n) => n % TWO_32
      case _ => def
  }

  function KvString(kv: Metadata, key: Bytes, def: Bytes): Bytes {
    if key in kv && kv[key].Text? then kv[key].text else def
  }

  function KvStringArray(kv: Metadata, key: Bytes): seq<Bytes> {
    if key in kv && kv[key].Texts? then kv[key].texts else []
  }
}
