// JSON values as the programs handle them. Parsing and printing of JSON text is not modelled:
// a fractional number carries its value in millionths together with the text its dump yields.
module Json {
  datatype Json =
    | Null
    | Bool(flag: bool)
    | Int(n: int)
    | Float(micro: int, dumped: string)
    | Str(text: string)
    | Arr(items: seq<Json>)
    | Obj(fields: map<string, Json>)

  function Strings(texts: seq<string>): (j: Json)
  {
    Arr(seq(|texts|, i requires 0 <= i < |texts| => Str(texts[i])))
  }
}
