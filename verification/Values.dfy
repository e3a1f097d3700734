/** XML-RPC values and the library-wide options that affect reading and writing
    them. */
module Values {
  import opened Text
  import opened OrderedMap
  import Base64
  import DateTime

  datatype Value =
    | Nil
    | Int(i: int32)
    | Int64(l: int64)
    | Bool(b: bool)
    | Double(d: real)
    | Str(s: string)
    | Binary(data: bytes, text: string)  // text is the base64 form kept with the data, or ""
    | Date(tm: DateTime.Tm)
    | Struct(members: seq<Entry<Value>>)
    | Array(items: seq<Value>)

  /** Conversion of doubles to and from text, which this model leaves open. */
  datatype DoubleText = DoubleText(show: real -> string, parse: string -> Option<real>)

  datatype Options = Options(
    defaultInt: Option<int32>,
    defaultInt64: Option<int64>,
    omitStringTag: bool,
    doubles: DoubleText)

  /** The text in the base64 element of a binary value. */
  function BinaryText(data: bytes, text: string): string {
    if text != "" then text else Base64.Encode(data)
  }
}
