/** gateway/middleware/response_optimizer.py: field stripping, skeletons and the response policy. */
module ResponseOptimizer {
  import opened Json
  import opened Options
  import opened Pruning

  const SKELETON_MAX_ARRAY_ITEMS: nat := 10
  const GZIP_MIN_SIZE: nat := 256

  // ---- Dotted fields ----

  /** `str.partition(".")` without the separator: a field without a dot and a field whose only dot
      is the last character both have an empty tail. */
  function Partition(field: string): (r: (string, string))
    ensures '.' !in r.0
    ensures field == r.0 + "." + r.1 || (field == r.0 && r.1 == "")
  {
    if field == "" then ("", "")
    else if field[0] == '.' then
      assert field == "" + "." + field[1..];
      ("", field[1..])
    else
      var (head, tail) := Partition(field[1..]);
      assert field == [field[0]] + field[1..];
      ([field[0]] + head, tail)
  }

  /** The key labels a field names, following the code's repeated `partition`: a trailing dot ends
      the path instead of adding an empty label. */
  function Keys(field: string): (keys: seq<string>)
    ensures keys != []
    decreases |field|
  {
    var (head, tail) := Partition(field);
    if tail == "" then [head] else [head] + Keys(tail)
  }

  function FieldPaths(fields: seq<string>): (paths: Paths)
    ensures [] !in paths
  {
    set f | f in fields :: Keys(f)
  }

  // ---- Stripping ----

  function TotalLength(fields: seq<string>): nat {
    if fields == [] then 0 else |fields[0]| + TotalLength(fields[1..])
  }

  lemma {:induction false} LengthOfMember(fields: seq<string>, field: string)
    requires field in fields
    ensures |field| <= TotalLength(fields)
  {
    if fields[0] != field { LengthOfMember(fields[1..], field); }
  }

  /** The effect of one path on one object. */
  function RemovePath(m: map<string, Json>, q: seq<string>): map<string, Json>
    requires q != []
  {
    if |q| == 1 then m - {q[0]}
    else if q[0] in m then m[q[0] := Prune(m[q[0]], {q[1..]})]
    else m
  }

  lemma {:induction false} TailsOfOne(q: seq<string>, k: string)
    requires q != []
    ensures Tails({q}, k) == if q[0] == k && |q| > 1 then {q[1..]} else {}
  {
  }

  lemma {:induction false} PruneOnePath(m: map<string, Json>, q: seq<string>)
    requires q != []
    ensures Prune(Obj(m), {q}) == Obj(RemovePath(m, q))
  {
    var p := Prune(Obj(m), {q}).fields;
    forall k | k in m
      ensures [k] == q <==> k == q[0] && |q| == 1
      ensures k != q[0] ==> Prune(m[k], Tails({q}, k)) == m[k]
      ensures k == q[0] && |q| > 1 ==> Prune(m[k], Tails({q}, k)) == Prune(m[k], {q[1..]})
    {
      TailsOfOne(q, k);
      if k != q[0] { PruneNothing(m[k]); }
    }
    assert p.Keys == RemovePath(m, q).Keys;
    assert p == RemovePath(m, q);
  }

  lemma PruneNothing(doc: Json)
    ensures Prune(doc, {}) == doc
  {
    UntouchedIfNoHit(doc, {});
  }

  lemma FieldPathsSnoc(fields: seq<string>, n: nat)
    requires n < |fields|
    ensures FieldPaths(fields[..n + 1]) == FieldPaths(fields[..n]) + {Keys(fields[n])}
  {
    assert fields[..n + 1] == fields[..n] + [fields[n]];
  }

  lemma TailIsSmaller(fields: seq<string>, n: nat)
    requires n < |fields| && Partition(fields[n]).1 != ""
    ensures TotalLength([Partition(fields[n]).1]) < TotalLength(fields)
  {
    LengthOfMember(fields, fields[n]);
    assert TotalLength([Partition(fields[n]).1]) == |Partition(fields[n]).1| + TotalLength([]);
  }

  lemma OneFieldPath(field: string)
    ensures FieldPaths([field]) == {Keys(field)}
  {
  }

  lemma StripStep(data: Json, fields: seq<string>, n: nat, m: map<string, Json>)
    requires n < |fields|
    requires Obj(m) == Prune(data, FieldPaths(fields[..n]))
    ensures Obj(RemovePath(m, Keys(fields[n]))) == Prune(data, FieldPaths(fields[..n + 1]))
  {
    FieldPathsSnoc(fields, n);
    PruneCompose(data, FieldPaths(fields[..n]), {Keys(fields[n])});
    PruneOnePath(m, Keys(fields[n]));
  }

  /** `_strip_fields`: the field-by-field loop over a copied dictionary computes the simultaneous
      pruning by all the paths the fields name. */
  method StripFields(data: Json, fields: seq<string>) returns (r: Json)
    ensures r == Prune(data, FieldPaths(fields))
    decreases TotalLength(fields), data
  {
    if |fields| == 0 {
      assert FieldPaths(fields) == {};
      PruneNothing(data);
      return data;
    }
    match data
    case Arr(items) =>
      var out: seq<Json> := [];
      for i := 0 to |items|
        invariant |out| == i
        invariant forall j | 0 <= j < i :: out[j] == Prune(items[j], FieldPaths(fields))
      {
        var item := StripFields(items[i], fields);
        out := out + [item];
      }
      return Arr(out);
    case Obj(m) =>
      var result := m;
      assert Obj(result) == Prune(data, FieldPaths(fields[..0])) by {
        assert FieldPaths(fields[..0]) == {};
        PruneNothing(data);
      }
      for n := 0 to |fields|
        invariant Obj(result) == Prune(data, FieldPaths(fields[..n]))
      {
        ghost var before := result;
        var (head, tail) := Partition(fields[n]);
        if tail != "" {
          if head in result {
            TailIsSmaller(fields, n);
            var stripped := StripFields(result[head], [tail]);
            result := result[head := stripped];
          }
        } else {
          result := result - {head};
        }
        assert result == RemovePath(before, Keys(fields[n])) by { OneFieldPath(tail); }
        StripStep(data, fields, n, before);
      }
      assert fields[..|fields|] == fields;
      return Obj(result);
    case _ =>
      return data;
  }

  /** `truncate` is pure recursion in the source; `Truncate` is its transcription. */
  method MakeSkeleton(data: Json, fields: seq<string>) returns (r: Json)
    ensures r == Truncate(Prune(data, FieldPaths(fields)), SKELETON_MAX_ARRAY_ITEMS)
  {
    var stripped := StripFields(data, fields);
    r := Truncate(stripped, SKELETON_MAX_ARRAY_ITEMS);
  }

  /** Neither the order of the fields nor their repetition matters. */
  lemma StripOrderIrrelevant(data: Json, fields: seq<string>, other: seq<string>)
    requires forall f :: f in fields <==> f in other
    ensures Prune(data, FieldPaths(fields)) == Prune(data, FieldPaths(other))
  {
    assert FieldPaths(fields) == FieldPaths(other);
  }

  lemma StripIdempotent(data: Json, fields: seq<string>)
    ensures var s := Prune(data, FieldPaths(fields)); Prune(s, FieldPaths(fields)) == s
  {
    var paths := FieldPaths(fields);
    PruneCompose(data, paths, paths);
    assert paths + paths == paths;
  }

  /** Exact access semantics of a skeleton: a path resolves in it iff it resolves in the input, no
      field names a prefix of its labels, and every index is below ten. */
  lemma SkeletonAccess(data: Json, fields: seq<string>, path: seq<Access>)
    ensures var s := Truncate(Prune(data, FieldPaths(fields)), SKELETON_MAX_ARRAY_ITEMS);
            && (Resolve(s, path).Some? <==>
                  && Resolve(data, path).Some?
                  && !Cut(FieldPaths(fields), Labels(path))
                  && IndicesBelow(path, SKELETON_MAX_ARRAY_ITEMS))
            && (Resolve(s, path).Some? && Resolve(data, path).value.Scalar() ==>
                  Resolve(s, path) == Resolve(data, path))
  {
    PruneAccess(data, FieldPaths(fields), path);
    TruncateAccess(Prune(data, FieldPaths(fields)), SKELETON_MAX_ARRAY_ITEMS, path);
  }

  // ---- Response policy ----

  datatype Quality = GOOD | DEGRADED | POOR | UNKNOWN

  datatype Reshape = Keep | Strip | Skeleton

  /** Which transformation a mode selects for a client. */
  function Policy(mode: string, quality: Quality, servedFromCache: bool): Reshape {
    if mode in {"removal", "combined"}
       || (mode == "adaptive" && (quality == DEGRADED || (quality == POOR && servedFromCache))) then Strip
    else if mode == "adaptive" && quality == POOR && !servedFromCache then Skeleton
    else Keep
  }

  function Reshaped(how: Reshape, doc: Json, fields: seq<string>): Json {
    match how
    case Keep => doc
    case Strip => Prune(doc, FieldPaths(fields))
    case Skeleton => Truncate(Prune(doc, FieldPaths(fields)), SKELETON_MAX_ARRAY_ITEMS)
  }

  /** What a reshaping would take away from a document. */
  ghost predicate Removes(how: Reshape, doc: Json, fields: seq<string>) {
    match how
    case Keep => false
    case Strip => Hits(doc, FieldPaths(fields))
    case Skeleton => Hits(doc, FieldPaths(fields)) || TooLong(doc, SKELETON_MAX_ARRAY_ITEMS)
  }

  lemma ReshapeFixpoint(how: Reshape, doc: Json, fields: seq<string>)
    ensures Reshaped(how, doc, fields) != doc <==> Removes(how, doc, fields)
  {
    PruneFixpoint(doc, FieldPaths(fields));
    SkeletonFixpoint(doc, FieldPaths(fields), SKELETON_MAX_ARRAY_ITEMS);
  }

  type Bytes = seq<bv8>

  /** The foreign codecs, used only through these hypotheses: parsing inverts serialising on what parsing and
      reshaping produce, and decompression inverts compression. */
  datatype Codec = Codec(
    loads: Bytes -> Option<Json>, dumps: Json -> Bytes,
    gzip: Bytes -> Bytes, gunzip: Bytes -> Bytes)
  {
    ghost predicate Faithful() {
      && (forall body, how, fields | loads(body).Some? ::
            var doc := Reshaped(how, loads(body).value, fields);
            loads(dumps(doc)) == Some(doc))
      && (forall body :: gunzip(gzip(body)) == body)
    }
  }

  /** `_transform_json`.  `tooDeep` is the interpreter's recursion limit striking while reshaping. */
  method TransformJson(codec: Codec, body: Bytes, fields: seq<string>, skeleton: bool, tooDeep: bool)
    returns (r: Bytes)
    ensures var how := if skeleton then Skeleton else Strip;
            match codec.loads(body)
            case None => r == body
            case Some(doc) =>
              r == if tooDeep || !Removes(how, doc, fields) then body else codec.dumps(Reshaped(how, doc, fields))
  {
    match codec.loads(body)
    case None => return body;
    case Some(data) =>
      if tooDeep { return body; }
      var transformed: Json;
      ReshapeFixpoint(if skeleton then Skeleton else Strip, data, fields);
      if skeleton {
        transformed := MakeSkeleton(data, fields);
      } else {
        transformed := StripFields(data, fields);
      }
      if transformed == data { return body; }
      return codec.dumps(transformed);
  }

  /** What `dispatch` reads from the request, the upstream response and the settings. */
  datatype Exchange = Exchange(
    optimizable: bool, isJson: bool, status: int, isGet: bool, noTransform: bool, encoded: bool,
    adaptationEnabled: bool, responseMode: string, quality: Quality, fields: seq<string>,
    servedFromCache: bool, acceptsGzip: bool, acceptsIdentity: bool, tooDeep: bool, body: Bytes)
  {
    predicate Handled() {
      optimizable && isJson && status == 200 && isGet && !noTransform && !encoded
    }

    function Mode(): string {
      if adaptationEnabled then responseMode else "full"
    }
  }

  datatype Outcome =
    | Passthrough
    | NotAcceptable
    | Sent(body: Bytes, gzipped: bool, noStore: bool, mode: string, adaptiveMode: string, completeness: string)

  /** The body the client recovers from a sent response. */
  function Decoded(codec: Codec, r: Outcome): Bytes
    requires r.Sent?
  {
    if r.gzipped then codec.gunzip(r.body) else r.body
  }

  /** Something is removed from the exchange's body. */
  ghost predicate Reduces(codec: Codec, x: Exchange) {
    && x.body != [] && codec.loads(x.body).Some? && !x.tooDeep
    && Removes(Policy(x.Mode(), x.quality, x.servedFromCache), codec.loads(x.body).value, x.fields)
  }

  /** The body before compression. */
  function PlainBody(codec: Codec, x: Exchange): Bytes {
    var how := Policy(x.Mode(), x.quality, x.servedFromCache);
    match codec.loads(x.body)
    case None => x.body
    case Some(doc) =>
      if x.body == [] || x.tooDeep || Reshaped(how, doc, x.fields) == doc then x.body
      else codec.dumps(Reshaped(how, doc, x.fields))
  }

  /** Compression is selected, acceptable to the client, worth trying, and makes the body smaller. */
  predicate Compresses(codec: Codec, x: Exchange) {
    var plain := PlainBody(codec, x);
    && (x.Mode() in {"compression", "combined"} || (x.Mode() == "adaptive" && x.quality in {DEGRADED, POOR}))
    && x.acceptsGzip && |plain| >= GZIP_MIN_SIZE && |codec.gzip(plain)| < |plain|
  }

  /** The part of `dispatch` that chooses and applies the transformation. */
  method ReduceBody(codec: Codec, x: Exchange) returns (newBody: Bytes)
    requires codec.Faithful()
    ensures newBody == PlainBody(codec, x)
    ensures newBody != x.body <==> Reduces(codec, x)
    ensures Reduces(codec, x) ==>
              codec.loads(newBody) ==
              Some(Reshaped(Policy(x.Mode(), x.quality, x.servedFromCache), codec.loads(x.body).value, x.fields))
  {
    var mode := if x.adaptationEnabled then x.responseMode else "full";
    newBody := x.body;
    var degradedLike := x.quality == DEGRADED || (x.quality == POOR && x.servedFromCache);
    var skeleton := mode == "adaptive" && x.quality == POOR && !x.servedFromCache;
    var removeFields := mode in {"removal", "combined"} || (mode == "adaptive" && degradedLike);
    if codec.loads(x.body).Some? {
      ReshapeFixpoint(Policy(mode, x.quality, x.servedFromCache), codec.loads(x.body).value, x.fields);
    }
    hide Removes, Reshaped;
    if removeFields && x.body != [] {
      newBody := TransformJson(codec, x.body, x.fields, false, x.tooDeep);
    } else if skeleton && x.body != [] {
      newBody := TransformJson(codec, x.body, x.fields, true, x.tooDeep);
    } else {
      assert Policy(mode, x.quality, x.servedFromCache) == Keep || x.body == [];
    }
  }

  /** What the selected policy does to a document, access path by access path. */
  lemma PolicyMeaning(mode: string, quality: Quality, servedFromCache: bool, doc: Json, fields: seq<string>,
                      path: seq<Access>)
    ensures var out := Reshaped(Policy(mode, quality, servedFromCache), doc, fields);
            if mode in {"removal", "combined"} || (mode == "adaptive" && quality in {DEGRADED, POOR}) then
              && (Resolve(out, path).Some? <==>
                    && Resolve(doc, path).Some? && !Cut(FieldPaths(fields), Labels(path))
                    && (mode == "adaptive" && quality == POOR && !servedFromCache ==> IndicesBelow(path, 10)))
              && (Resolve(out, path).Some? && Resolve(doc, path).value.Scalar() ==>
                    Resolve(out, path) == Resolve(doc, path))
            else out == doc
  {
    PruneAccess(doc, FieldPaths(fields), path);
    SkeletonAccess(doc, fields, path);
    hide Prune, Truncate, Resolve, Cut, IndicesBelow, Labels, FieldPaths;
  }

  /** The same for the body before compression. */
  lemma PlainMeaning(codec: Codec, x: Exchange)
    requires codec.Faithful()
    ensures var plain, doc := PlainBody(codec, x), codec.loads(x.body);
            var out := codec.loads(plain);
            if && (x.Mode() in {"removal", "combined"} || (x.Mode() == "adaptive" && x.quality in {DEGRADED, POOR}))
               && x.body != [] && doc.Some? && !x.tooDeep
            then
              && out.Some? && (out != doc <==> Reduces(codec, x)) && (out == doc ==> plain == x.body)
              && forall path ::
                   && (Resolve(out.value, path).Some? <==>
                         && Resolve(doc.value, path).Some? && !Cut(FieldPaths(x.fields), Labels(path))
                         && (x.Mode() == "adaptive" && x.quality == POOR && !x.servedFromCache ==>
                               IndicesBelow(path, 10)))
                   && (Resolve(out.value, path).Some? && Resolve(doc.value, path).value.Scalar() ==>
                         Resolve(out.value, path) == Resolve(doc.value, path))
            else plain == x.body && !Reduces(codec, x)
  {
    var doc, how := codec.loads(x.body), Policy(x.Mode(), x.quality, x.servedFromCache);
    if doc.Some? {
      ReshapeFixpoint(how, doc.value, x.fields);
      forall path {
        PolicyMeaning(x.Mode(), x.quality, x.servedFromCache, doc.value, x.fields, path);
      }
    }
    hide Reshaped, Removes, Resolve, Cut, IndicesBelow, Labels, FieldPaths;
  }

  lemma PlainParses(codec: Codec, x: Exchange)
    requires codec.Faithful() && codec.loads(x.body).Some? && x.body != [] && !x.tooDeep
    ensures codec.loads(PlainBody(codec, x)) ==
            Some(Reshaped(Policy(x.Mode(), x.quality, x.servedFromCache), codec.loads(x.body).value, x.fields))
  {
    hide Reshaped;
  }

  /** `dispatch` after the response has passed the first checks.  The marks are in terms of the policy. */
  method Adapt(codec: Codec, x: Exchange) returns (r: Outcome)
    requires codec.Faithful() && x.Handled()
    ensures !r.Passthrough?
    ensures r.Sent? ==> Decoded(codec, r) == PlainBody(codec, x)
    ensures r.Sent? && r.gzipped ==> r.body == codec.gzip(PlainBody(codec, x))
    ensures r.Sent? ==> (r.completeness == if Reduces(codec, x) then "reduced" else "full")
    ensures r.Sent? ==>
              r.adaptiveMode == if !Reduces(codec, x) then "none"
                                else if x.Mode() == "adaptive" && x.quality == POOR && !x.servedFromCache
                                then "skeleton" else "stripped"
    ensures r.Sent? ==> r.mode == x.Mode() && (if r.gzipped then x.acceptsGzip else x.acceptsIdentity)
    ensures r.Sent? ==> (r.noStore <==> r.body != x.body)
    ensures r.Sent? ==> (r.gzipped <==> Compresses(codec, x))
    ensures r == NotAcceptable <==> !Compresses(codec, x) && !x.acceptsIdentity
  {
    var mode := if x.adaptationEnabled then x.responseMode else "full";
    var skeleton := mode == "adaptive" && x.quality == POOR && !x.servedFromCache;
    var newBody := ReduceBody(codec, x);
    hide PlainBody, Reduces, Reshaped;
    var reduced := newBody != x.body;
    ghost var plain := newBody;

    var gzipped := false;
    if (mode in {"compression", "combined"} || (mode == "adaptive" && x.quality in {DEGRADED, POOR}))
       && x.acceptsGzip && |newBody| >= GZIP_MIN_SIZE
    {
      var compressed := codec.gzip(newBody);
      if |compressed| < |newBody| {
        newBody := compressed;
        gzipped := true;
      }
    }
    assert (if gzipped then codec.gunzip(newBody) else newBody) == plain;
    var noStore := newBody != x.body;
    if !gzipped && !x.acceptsIdentity {
      return NotAcceptable;
    }
    r := Sent(newBody, gzipped, noStore, mode,
              if skeleton && reduced then "skeleton" else if reduced then "stripped" else "none",
              if reduced then "reduced" else "full");
  }

  /** The policy part of `dispatch`.  In the modes and qualities that ask for it, and only there, exactly the access
      paths that a field cuts are gone from what the client decodes, and exactly for a POOR client of the adaptive
      mode whose body is not from the cache also those beyond the tenth item of an array; scalars are unchanged.
      The markers say what really happened; compression is used exactly where the mode and quality ask for it,
      the client accepts it and it pays; a client that cannot read the coding gets no body. */
  method Dispatch(codec: Codec, x: Exchange) returns (r: Outcome)
    requires codec.Faithful()
    ensures r == Passthrough <==>
            !(x.optimizable && x.isJson && x.status == 200 && x.isGet && !x.noTransform && !x.encoded)
    ensures r.Sent? ==> r.mode == if x.adaptationEnabled then x.responseMode else "full"
    ensures r.Sent? ==>
              var doc, out := codec.loads(x.body), codec.loads(Decoded(codec, r));
              if && (r.mode in {"removal", "combined"} || (r.mode == "adaptive" && x.quality in {DEGRADED, POOR}))
                 && x.body != [] && doc.Some? && !x.tooDeep
              then
                && out.Some?
                && (forall path ::
                      && (Resolve(out.value, path).Some? <==>
                            && Resolve(doc.value, path).Some? && !Cut(FieldPaths(x.fields), Labels(path))
                            && (r.mode == "adaptive" && x.quality == POOR && !x.servedFromCache ==>
                                  IndicesBelow(path, 10)))
                      && (Resolve(out.value, path).Some? && Resolve(doc.value, path).value.Scalar() ==>
                            Resolve(out.value, path) == Resolve(doc.value, path)))
                && (r.completeness == if out == doc then "full" else "reduced")
                && (out == doc ==> Decoded(codec, r) == x.body)
              else r.completeness == "full" && Decoded(codec, r) == x.body
    ensures r.Sent? ==>
              r.adaptiveMode == if r.completeness == "full" then "none"
                                else if r.mode == "adaptive" && x.quality == POOR && !x.servedFromCache then "skeleton"
                                else "stripped"
    ensures r.Sent? ==>
              var plain := Decoded(codec, r);
              && (r.gzipped <==>
                    && (|| r.mode in {"compression", "combined"}
                        || (r.mode == "adaptive" && x.quality in {DEGRADED, POOR}))
                    && x.acceptsGzip && |plain| >= 256 && |codec.gzip(plain)| < |plain|)
              && r.body == (if r.gzipped then codec.gzip(plain) else plain)
              && (r.gzipped || x.acceptsIdentity)
    ensures r.Sent? ==> (r.noStore <==> r.body != x.body)
    ensures r.Sent? ==> Decoded(codec, r) == PlainBody(codec, x)
    ensures r == NotAcceptable <==>
            var mode, plain := if x.adaptationEnabled then x.responseMode else "full", PlainBody(codec, x);
            && r != Passthrough && !x.acceptsIdentity
            && !(&& (mode in {"compression", "combined"} || (mode == "adaptive" && x.quality in {DEGRADED, POOR}))
                 && x.acceptsGzip && |plain| >= 256 && |codec.gzip(plain)| < |plain|)
  {
    if !x.optimizable { return Passthrough; }
    if !x.isJson { return Passthrough; }
    if x.status != 200 || !x.isGet { return Passthrough; }
    if x.noTransform { return Passthrough; }
    if x.encoded { return Passthrough; }
    r := Adapt(codec, x);
    PlainMeaning(codec, x);
  }
}
