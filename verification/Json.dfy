/** JSON values as the Gateway client reads them. */
module Json {
  import opened Prelude

  datatype Value = Null | Bool(b: bool) | Number(digits: string) | Str(text: string)
                 | Array(items: seq<Value>) | Object(fields: map<string, Value>)

  function Get(v: Value, key: string): Option<Value> {
    if v.Object? && key in v.fields then Some(v.fields[key]) else None
  }

  /** `get(key)` and `as_str`. */
  function GetStr(v: Value, key: string): Option<string> {
    if v.Object? && key in v.fields && v.fields[key].Str? then Some(v.fields[key].text) else None
  }

  /** The strings of an array field; other items, and other fields, are skipped. */
  function GetStrings(v: Value, key: string): seq<string> {
    if v.Object? && key in v.fields && v.fields[key].Array? then StringsOf(v.fields[key].items) else []
  }

  function StringsOf(items: seq<Value>): seq<string> {
    if items == [] then []
    else StringsOf(items[..|items| - 1]) + (if items[|items| - 1].Str? then [items[|items| - 1].text] else [])
  }
}
