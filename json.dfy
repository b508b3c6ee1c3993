/**
 * A value decoded by `json_decode($text, true)`. Only the shapes the plugin
 * distinguishes are told apart: a JSON object or list decodes to a PHP array,
 * kept here as its entries by key (a list's keys are its decimal indices);
 * floats are `JOther`.
 */
module Json {
  import opened PhpString

  datatype Value =
    | JNull
    | JBool(b: bool)
    | JInt(i: int)
    | JString(s: Bytes)
    | JArray(entries: map<Bytes, Value>)
    | JOther
}
