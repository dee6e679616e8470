/** Decoded JSON, as the preview keeps it: numbers stay text, objects have unique keys. */
module JsonValue {
  import opened Common

  datatype Json =
    | Null
    | Bool(b: bool)
    | Numeral(digits: Text)
    | Str(text: Text)
    | Arr(items: seq<Json>)
    | Obj(fields: map<Text, Json>)
}
