/** `encode_json_and_file` in app.py: the envelope around a JSON value and
    the raw bytes of a file. Reading the file is not modelled; its bytes
    are the `fileBytes` argument. */
module App {
  import opened Results
  import opened StructPack
  import opened Envelope
  import Json

  function EncodeJsonAndFile(jsonData: Json.Value, dumps: Json.Value -> seq<byte>, fileBytes: seq<byte>): (r: Result<seq<byte>, StructError>)
    ensures r.Success? <==> |Json.JsonBytes(jsonData, dumps)| <= INT64_MAX && |fileBytes| <= INT64_MAX
    ensures r.Success? ==>
      var json := Json.JsonBytes(jsonData, dumps);
      && |r.value| == HEADER_SIZE + |json| + |fileBytes|
      && r.value[HEADER_SIZE..HEADER_SIZE + |json|] == json
      && r.value[HEADER_SIZE + |json|..] == fileBytes
      && (HasBinary(r.value[0]) <==> |fileBytes| > 0)
      && (HasJson(r.value[0]) <==> |json| > 0)
      && OnlyKnownFlags(r.value[0])
    ensures r.Success? && !Json.Truthy(jsonData) ==>
      && UnpackInt64(r.value[1..9]) == 0
      && !HasJson(r.value[0])
      && r.value[HEADER_SIZE..] == fileBytes
  {
    Encode(Json.JsonBytes(jsonData, dumps), fileBytes)
  }

  /** The file comes back byte for byte, and so does the JSON section. */
  lemma EncodeJsonAndFileRoundTrip(jsonData: Json.Value, dumps: Json.Value -> seq<byte>, fileBytes: seq<byte>)
    requires EncodeJsonAndFile(jsonData, dumps, fileBytes).Success?
    ensures Decode(EncodeJsonAndFile(jsonData, dumps, fileBytes).value)
         == Success(Decoded(Json.JsonBytes(jsonData, dumps), fileBytes))
  {
    DecodeEncode(Json.JsonBytes(jsonData, dumps), fileBytes);
  }
}
