/**
 * The multipart parser that decodes JSON carried in form fields: after the
 * multipart body is parsed, each text value that looks like JSON is replaced
 * by its decoding when it decodes.
 */
module Parsers {
  import opened Wrappers
  import opened Values

  /** What the multipart parser returns: the form fields and, untouched, the uploaded files. */
  datatype DataAndFiles<F> = DataAndFiles(data: map<string, Datum>, files: F)

  /** A text value is tried as JSON when it contains '[' or '{'. */
  predicate LooksLikeJson(s: string) {
    '[' in s || '{' in s
  }

  /**
   * The value the parser keeps for one field, given the JSON decoder
   * (`json.loads`, None where it raises ValueError).
   */
  function DecodedValue(v: Datum, decode: string -> Option<Datum>): (r: Datum)
    ensures !v.DText? ==> r == v
    ensures v.DText? && !LooksLikeJson(v.s) ==> r == v
    ensures v.DText? && LooksLikeJson(v.s) && decode(v.s).Some? ==> r == decode(v.s).value
    ensures v.DText? && LooksLikeJson(v.s) && decode(v.s).None? ==> r == v
    ensures r != v ==> v.DText? && decode(v.s) == Some(r)
  {
    match v
    case DText(s) =>
      if LooksLikeJson(s) then
        match decode(s)
        case Some(j) => j
        case None => v
      else v
    case _ => v
  }

  /**
   * `MultiPartJSONParser.parse` after the multipart step: rebuild the field
   * mapping key by key. The result has the same keys, each value is the
   * decoded value of the original, and the files are passed through.
   */
  method Parse<F>(result: DataAndFiles<F>, decode: string -> Option<Datum>) returns (out: DataAndFiles<F>)
    ensures out.files == result.files
    ensures out.data.Keys == result.data.Keys
    ensures forall key :: key in result.data ==> out.data[key] == DecodedValue(result.data[key], decode)
  {
    var data: map<string, Datum> := map[];
    var pending := result.data.Keys;
    while pending != {}
      invariant pending <= result.data.Keys
      invariant data.Keys == result.data.Keys - pending
      invariant forall key :: key in data ==> data[key] == DecodedValue(result.data[key], decode)
      decreases pending
    {
      var key :| key in pending;
      var value := result.data[key];
      if !value.DText? {
        data := data[key := value];
      } else if LooksLikeJson(value.s) {
        var decoded := decode(value.s);
        if decoded.Some? {
          data := data[key := decoded.value];
        } else {
          data := data[key := value];
        }
      } else {
        data := data[key := value];
      }
      pending := pending - {key};
    }
    out := DataAndFiles(data, result.files);
  }
}
