/** JSON documents as the gateway sees them after parsing.  Objects are maps, because Python
    dictionaries and JavaScript objects compare and resolve by key and never by key order. */
module Json {
  import opened Options

  datatype Json =
    | Null
    | Bool(b: bool)
    | Int(i: int)
    | Float(r: real)
    | Str(s: string)
    | Arr(items: seq<Json>)
    | Obj(fields: map<string, Json>)
  {
    predicate Scalar() {
      !Arr? && !Obj?
    }
  }

  /** One step of an access path: a key of an object or an index of an array. */
  datatype Access = Key(key: string) | Index(index: nat)

  /** The value that `path` leads to in `doc`, if every step of it exists. */
  function Resolve(doc: Json, path: seq<Access>): Option<Json> {
    if path == [] then Some(doc)
    else match path[0]
      case Key(k) => if doc.Obj? && k in doc.fields then Resolve(doc.fields[k], path[1..]) else None
      case Index(i) => if doc.Arr? && i < |doc.items| then Resolve(doc.items[i], path[1..]) else None
  }

  /** The key labels of a path, with indices ignored. */
  function Labels(path: seq<Access>): seq<string> {
    if path == [] then []
    else if path[0].Key? then [path[0].key] + Labels(path[1..])
    else Labels(path[1..])
  }

  ghost predicate IndicesBelow(path: seq<Access>, bound: nat) {
    forall i | 0 <= i < |path| :: path[i].Index? ==> path[i].index < bound
  }
}
