/**
  The file system as the core sees it: a map from path to contents; a file
  exists (`fs.existsSync`) exactly when its path is a key. JSON files hold a JSON document
  (`JSON.stringify` followed by `JSON.parse` is taken to give the value
  back); other files hold bytes.
*/
module Files {

  datatype Json =
    | JNull
    | JBool(b: bool)
    | JNumber(n: real)
    | JString(str: string)
    | JArray(items: seq<Json>)
    | JObject(fields: seq<(string, Json)>)

  datatype Content = JsonDoc(doc: Json) | Bytes(data: seq<bv8>)

  type Fs = map<string, Content>
}
