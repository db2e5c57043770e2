/** Python values as they travel through request data, validated payloads and responses. */
module Values {

  /**
   * A dynamically typed value: the shapes the request parser, the serializers
   * and the views pass around (JSON-like data plus uploaded files).
   */
  datatype Datum =
    | DNone
    | DBool(b: bool)
    | DInt(i: int)
    | DText(s: string)
    | DDecimal(text: string)              // a JSON float or a Decimal, kept as its decimal text
    | DFile(id: nat)                      // an uploaded file, opaque to the model
    | DList(items: seq<Datum>)
    | DDict(entries: map<string, Datum>)
}
