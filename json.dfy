/** JSON values as `json.load` returns them, with Python's truthiness, subscripting and `str()`.
    A JSON object is a `dict`, modelled as a `map` (key order is not kept). Numbers are integers. */
module Json {
  import opened Wrappers
  import opened Text

  datatype Json =
    | JNull
    | JBool(b: bool)
    | JNum(n: int)
    | JStr(s: string)
    | JArr(items: seq<Json>)
    | JObj(fields: map<string, Json>)

  /** The exceptions the modelled code lets propagate. */
  datatype PyError =
    | KeyError(key: string)   // `d[key]` on a dict without `key`
    | TypeError               // `v[key]` on a value that is not a dict, a slice bound that is not an int,
                              // or `dict.update` given a value that is not iterable or an unhashable key
    | ValueError              // `dict.update` given a sequence element that is not a pair
    | DecodeError             // `json.load` on text that is not JSON

  /** A JSON file as `open` and `json.load` find it: absent, not JSON, or a value. */
  datatype JsonFile = Missing | Unparsable | Parsed(content: Json)

  /** Python's `bool(value)`: `None`, `False`, `0`, `""`, `[]` and `{}` are falsy. */
  predicate Truthy(j: Json) {
    match j
    case JNull => false
    case JBool(b) => b
    case JNum(n) => n != 0
    case JStr(s) => s != ""
    case JArr(xs) => xs != []
    case JObj(m) => m != map[]
  }

  /** `value[key]`: the entry of a dict, a KeyError when the dict lacks the key, and a TypeError
      when the value is not a dict. */
  function Subscript(j: Json, key: string): (r: Result<Json, PyError>)
    ensures r.Ok? <==> j.JObj? && key in j.fields
    ensures r.Ok? ==> r.value == j.fields[key]
    ensures j.JObj? && key !in j.fields ==> r == Err(KeyError(key))
  {
    match j
    case JObj(m) => if key in m then Ok(m[key]) else Err(KeyError(key))
    case _ => Err(TypeError)
  }

  /** `str(value)` as an f-string writes a scalar; a list or dict is written as "". */
  function PyStr(j: Json): string {
    match j
    case JNull => "None"
    case JBool(b) => if b then "True" else "False"
    case JNum(n) => IntToString(n)
    case JStr(s) => s
    case _ => ""
  }

  /** The merge step shared by the two HTML extractors: load the data file, and when the
      extracted list is non-empty assign it to `data[key]` and write the data back. A missing or
      unparsable file, an empty list, or a top level that is not a dict (the assignment raises)
      ends in `False` with nothing written; every other top-level key is written back untouched. */
  method ReplaceKey(file: JsonFile, key: string, items: seq<Json>) returns (ok: bool, written: Option<Json>)
    ensures ok <==> file.Parsed? && file.content.JObj? && items != []
    ensures ok <==> written.Some?
    ensures ok ==> (written.value.JObj? && key in written.value.fields
      && written.value.fields[key] == JArr(items))
    ensures ok ==> forall k :: k != key ==> (k in written.value.fields <==> k in file.content.fields)
    ensures ok ==> forall k :: k != key && k in file.content.fields ==>
      written.value.fields[k] == file.content.fields[k]
  {
    if !file.Parsed? {
      return false, None;
    }
    var data := file.content;
    if items == [] {
      return false, None;
    }
    if !data.JObj? {
      return false, None;
    }
    var fields := data.fields;
    fields := fields[key := JArr(items)];
    return true, Some(JObj(fields));
  }
}
