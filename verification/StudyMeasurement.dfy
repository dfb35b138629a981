/** benchmarks/study_measurement.py: the counting validator of the controlled study, against the
    fixture of benchmarks/fixture/contract.py. */
module StudyMeasurement {
  import opened Collections
  import opened DottedPaths
  import opened Json
  import opened Options
  import opened Pruning
  import RO = ResponseOptimizer
  import JS = ExpressMiddleware

  // ---- The fixture ----

  const REQUIRED_FIELDS: seq<string> := ["id", "title", "meta.category"]
  const OPTIONAL_FIELDS: seq<string> := ["body", "meta.debug"]

  const REQUIRED_KEYS: seq<seq<string>> := [["id"], ["title"], ["meta", "category"]]
  const OPTIONAL_KEYS: seq<seq<string>> := [["body"], ["meta", "debug"]]

  /** The texts of the synthetic workload; the results below hold whatever they are. */
  datatype Fixture = Fixture(n: nat, title: nat -> string, body: string, debug: string, category: string) {
    /** Fixture item `index`, with or without each of its two optional fields. */
    function Partial(index: nat, withBody: bool, withDebug: bool): Json {
      var meta := map["category" := Str(category)];
      var meta' := if withDebug then meta["debug" := Str(debug)] else meta;
      var item := map["id" := Int(index), "title" := Str(title(index)), "meta" := Obj(meta')];
      Obj(if withBody then item["body" := Str(body)] else item)
    }

    function Item(index: nat): Json { Partial(index, true, true) }

    function Payload(): seq<Json> { seq(n, i requires 0 <= i < n => Item(i)) }
  }

  // ---- Field lookup ----

  function FieldAt(value: Json, keys: seq<string>): Option<Json> {
    if keys == [] then Some(value)
    else if value.Obj? && keys[0] in value.fields then FieldAt(value.fields[keys[0]], keys[1..])
    else None
  }

  /** `field_value`. */
  method FieldValue(item: Json, path: string) returns (r: Option<Json>)
    ensures r == FieldAt(item, Split(path))
  {
    var value := item;
    var keys := Split(path);
    for i := 0 to |keys|
      invariant FieldAt(item, keys) == FieldAt(value, keys[i..])
    {
      if !value.Obj? || keys[i] !in value.fields { return None; }
      value := value.fields[keys[i]];
      assert keys[i..][1..] == keys[i + 1..];
    }
    return Some(value);
  }

  lemma SplitTwo(path: string, a: string, b: string)
    requires '.' !in a && '.' !in b && path == a + "." + b
    ensures Split(path) == [a, b]
  {
    SplitPlain(b);
    SplitPrefix(a, b);
  }

  /** The fixture's dotted names and their segments. */
  ghost predicate Segments(paths: seq<string>, keys: seq<seq<string>>) {
    |paths| == |keys| && forall i | 0 <= i < |paths| :: Split(paths[i]) == keys[i]
  }

  lemma RequiredSegments()
    ensures Segments(REQUIRED_FIELDS, REQUIRED_KEYS)
  {
    forall i | 0 <= i < 3 ensures Split(REQUIRED_FIELDS[i]) == REQUIRED_KEYS[i] {
      if i < 2 {
        SplitPlain(REQUIRED_FIELDS[i]);
      } else {
        SplitTwo(REQUIRED_FIELDS[i], REQUIRED_KEYS[i][0], REQUIRED_KEYS[i][1]);
      }
    }
  }

  lemma OptionalSegments()
    ensures Segments(OPTIONAL_FIELDS, OPTIONAL_KEYS)
  {
    forall i | 0 <= i < 2 ensures Split(OPTIONAL_FIELDS[i]) == OPTIONAL_KEYS[i] {
      if i < 1 {
        SplitPlain(OPTIONAL_FIELDS[i]);
      } else {
        SplitTwo(OPTIONAL_FIELDS[i], OPTIONAL_KEYS[i][0], OPTIONAL_KEYS[i][1]);
      }
    }
  }

  /** A field list with its segments and without repetition. */
  ghost predicate Usable(paths: seq<string>, keys: seq<seq<string>>) {
    Segments(paths, keys) && forall i, j | 0 <= i < j < |paths| :: paths[i] != paths[j]
  }

  lemma FieldListsUsable()
    ensures Usable(REQUIRED_FIELDS, REQUIRED_KEYS) && Usable(OPTIONAL_FIELDS, OPTIONAL_KEYS)
  {
    RequiredSegments();
    OptionalSegments();
    hide Segments;
    assert |REQUIRED_FIELDS[0]| == 2 && |REQUIRED_FIELDS[1]| == 5 && |REQUIRED_FIELDS[2]| == 13;
    assert |OPTIONAL_FIELDS[0]| == 4 && |OPTIONAL_FIELDS[1]| == 10;
  }

  // ---- One item ----

  predicate Known(item: Json, n: nat) {
    && item.Obj? && "id" in item.fields
    && item.fields["id"].Int? && 0 <= item.fields["id"].i < n
  }

  predicate Agrees(fx: Fixture, item: Json, known: bool, index: nat, keys: seq<string>, mandatory: bool) {
    var f := FieldAt(item, keys);
    if f.Some? then known ==> f == FieldAt(fx.Item(index), keys) else !mandatory
  }

  function One(b: bool): nat { if b then 1 else 0 }

  /** The inner loop for one of the two counter dictionaries: count the fields that are present and
      compare their values with the fixture. */
  method CountFields(fx: Fixture, item: Json, known: bool, index: nat, paths: seq<string>,
                     mandatory: bool, counts: map<string, nat>)
    returns (counts': map<string, nat>, correct: bool)
    requires forall i, j | 0 <= i < j < |paths| :: paths[i] != paths[j]
    requires forall i | 0 <= i < |paths| :: paths[i] in counts
    ensures counts'.Keys == counts.Keys
    ensures forall i | 0 <= i < |paths| ::
              counts'[paths[i]] == counts[paths[i]] + One(FieldAt(item, Split(paths[i])).Some?)
    ensures correct <==> forall i | 0 <= i < |paths| :: Agrees(fx, item, known, index, Split(paths[i]), mandatory)
  {
    counts', correct := counts, true;
    for i := 0 to |paths|
      invariant counts'.Keys == counts.Keys
      invariant forall j | 0 <= j < i ::
                  counts'[paths[j]] == counts[paths[j]] + One(FieldAt(item, Split(paths[j])).Some?)
      invariant forall j | i <= j < |paths| :: counts'[paths[j]] == counts[paths[j]]
      invariant correct <==> forall j | 0 <= j < i :: Agrees(fx, item, known, index, Split(paths[j]), mandatory)
    {
      var found := FieldValue(item, paths[i]);
      if found.Some? {
        counts' := counts'[paths[i] := counts'[paths[i]] + 1];
      }
      if found.Some? && known {
        var expected := FieldValue(fx.Item(index), paths[i]);
        if found != expected { correct := false; }
      }
      if mandatory && found.None? { correct := false; }
    }
  }

  /** The structural checks on one object item. */
  predicate Shaped(item: Json)
    requires item.Obj?
  {
    && item.fields.Keys <= {"id", "title", "body", "meta"}
    && "meta" in item.fields && item.fields["meta"].Obj?
    && item.fields["meta"].fields.Keys <= {"category", "debug"}
  }

  predicate FieldsCorrect(fx: Fixture, item: Json, known: bool, index: nat, keys: seq<seq<string>>, mandatory: bool) {
    forall i | 0 <= i < |keys| :: Agrees(fx, item, known, index, keys[i], mandatory)
  }

  /** Everything the validator checks about one item. */
  predicate Accepted(fx: Fixture, item: Json) {
    && Known(item, fx.n) && Shaped(item)
    && FieldsCorrect(fx, item, true, item.fields["id"].i, REQUIRED_KEYS, true)
    && FieldsCorrect(fx, item, true, item.fields["id"].i, OPTIONAL_KEYS, false)
  }

  predicate HasBody(item: Json) { FieldAt(item, OPTIONAL_KEYS[0]).Some? }

  predicate HasDebug(item: Json) { FieldAt(item, OPTIONAL_KEYS[1]).Some? }

  lemma {:induction false} LookupOne(item: Json, k: string)
    requires item.Obj?
    ensures FieldAt(item, [k]) == if k in item.fields then Some(item.fields[k]) else None
  {
  }

  lemma {:induction false} LookupTwo(item: Json, k: string, l: string)
    requires item.Obj? && k in item.fields && item.fields[k].Obj?
    ensures FieldAt(item, [k, l]) ==
            if l in item.fields[k].fields then Some(item.fields[k].fields[l]) else None
  {
    assert [k, l][1..] == [l];
    LookupOne(item.fields[k], l);
  }

  lemma {:induction false} AcceptedIsPartial(fx: Fixture, item: Json)
    requires Accepted(fx, item)
    ensures item == fx.Partial(item.fields["id"].i, HasBody(item), HasDebug(item))
  {
    var index := item.fields["id"].i;
    var full := fx.Item(index);
    forall x | x == item || x == full
      ensures FieldAt(x, REQUIRED_KEYS[1]) == if "title" in x.fields then Some(x.fields["title"]) else None
      ensures FieldAt(x, OPTIONAL_KEYS[0]) == if "body" in x.fields then Some(x.fields["body"]) else None
      ensures var meta := x.fields["meta"].fields;
              && (FieldAt(x, REQUIRED_KEYS[2]) == if "category" in meta then Some(meta["category"]) else None)
              && (FieldAt(x, OPTIONAL_KEYS[1]) == if "debug" in meta then Some(meta["debug"]) else None)
    {
      LookupOne(x, "title");
      LookupOne(x, "body");
      LookupTwo(x, "meta", "category");
      LookupTwo(x, "meta", "debug");
    }
    assert Agrees(fx, item, true, index, REQUIRED_KEYS[1], true);
    assert Agrees(fx, item, true, index, REQUIRED_KEYS[2], true);
    assert Agrees(fx, item, true, index, OPTIONAL_KEYS[0], false);
    assert Agrees(fx, item, true, index, OPTIONAL_KEYS[1], false);
    var expected := fx.Partial(index, HasBody(item), HasDebug(item));
    assert item.fields["meta"].fields == expected.fields["meta"].fields;
    assert item.fields == expected.fields;
  }

  lemma {:induction false} PartialIsAccepted(fx: Fixture, index: nat, withBody: bool, withDebug: bool)
    requires index < fx.n
    ensures var item := fx.Partial(index, withBody, withDebug);
            && Accepted(fx, item) && item.fields["id"] == Int(index)
            && (HasBody(item) <==> withBody) && (HasDebug(item) <==> withDebug)
  {
    var item := fx.Partial(index, withBody, withDebug);
    forall x | x == item || x == fx.Item(index)
      ensures FieldAt(x, REQUIRED_KEYS[0]) == Some(Int(index))
      ensures FieldAt(x, REQUIRED_KEYS[1]) == Some(Str(fx.title(index)))
      ensures FieldAt(x, REQUIRED_KEYS[2]) == Some(Str(fx.category))
      ensures FieldAt(x, OPTIONAL_KEYS[0]) == if "body" in x.fields then Some(Str(fx.body)) else None
      ensures FieldAt(x, OPTIONAL_KEYS[1]) == if "debug" in x.fields["meta"].fields then Some(Str(fx.debug)) else None
    {
      LookupOne(x, "id");
      LookupOne(x, "title");
      LookupOne(x, "body");
      LookupTwo(x, "meta", "category");
      LookupTwo(x, "meta", "debug");
    }
  }

  // ---- The whole document ----

  /** How many items carry the field. */
  function Count(items: seq<Json>, keys: seq<string>): nat {
    if items == [] then 0
    else Count(items[..|items| - 1], keys) + One(FieldAt(items[|items| - 1], keys).Some?)
  }

  /** The identifiers of the items whose identifier is known, in order. */
  function KnownIds(items: seq<Json>, n: nat): seq<int> {
    if items == [] then []
    else
      var last := items[|items| - 1];
      KnownIds(items[..|items| - 1], n) + if Known(last, n) then [last.fields["id"].i] else []
  }

  lemma {:induction false} CountBounds(items: seq<Json>, keys: seq<string>)
    ensures Count(items, keys) <= |items|
    ensures Count(items, keys) == |items| <==> forall j | 0 <= j < |items| :: FieldAt(items[j], keys).Some?
    ensures Count(items, keys) == 0 <==> forall j | 0 <= j < |items| :: FieldAt(items[j], keys).None?
  {
    if items != [] { CountBounds(items[..|items| - 1], keys); }
  }

  lemma {:induction false} KnownIdsExact(items: seq<Json>, n: nat)
    requires forall j | 0 <= j < |items| :: Known(items[j], n)
    ensures |KnownIds(items, n)| == |items|
    ensures forall j | 0 <= j < |items| :: Known(items[j], n) && KnownIds(items, n)[j] == items[j].fields["id"].i
  {
    if items != [] { KnownIdsExact(items[..|items| - 1], n); }
  }

  predicate Sorted(s: seq<int>) {
    forall i, j | 0 <= i < j < |s| :: s[i] <= s[j]
  }

  predicate Increasing(s: seq<int>) {
    forall i, j | 0 <= i < j < |s| :: s[i] < s[j]
  }

  /** Distinct by size and equal to its sorted form is strictly increasing. */
  lemma IncreasingBySize(s: seq<int>)
    ensures |Elements(s)| == |s| && Sorted(s) <==> Increasing(s)
  {
    DistinctBySize(s);
  }

  /** A selection of fixture items in fixture order, each with or without its optional fields. */
  ghost predicate Selection(fx: Fixture, items: seq<Json>) {
    && (forall j | 0 <= j < |items| :: IsPartial(fx, items[j]))
    && (forall j, k | 0 <= j < k < |items| :: items[j].fields["id"].i < items[k].fields["id"].i)
  }

  ghost predicate IsPartial(fx: Fixture, item: Json) {
    Known(item, fx.n) && item == fx.Partial(item.fields["id"].i, HasBody(item), HasDebug(item))
  }

  /** The checks on one item amount to equality with a fixture item, up to its optional fields. */
  lemma AcceptedExact(fx: Fixture, item: Json)
    ensures Accepted(fx, item) <==> IsPartial(fx, item)
  {
    if Accepted(fx, item) { AcceptedIsPartial(fx, item); }
    if IsPartial(fx, item) { PartialIsAccepted(fx, item.fields["id"].i, HasBody(item), HasDebug(item)); }
  }

  /** The flags and counters say exactly that the document is a selection. */
  lemma SelectionExact(fx: Fixture, items: seq<Json>)
    ensures Selection(fx, items) <==>
            && (forall j | 0 <= j < |items| :: Accepted(fx, items[j]))
            && |Elements(KnownIds(items, fx.n))| == |items| && Sorted(KnownIds(items, fx.n))
  {
    hide Accepted, HasBody, HasDebug;
    IncreasingBySize(KnownIds(items, fx.n));
    forall j | 0 <= j < |items| ensures Accepted(fx, items[j]) <==> IsPartial(fx, items[j]) {
      AcceptedExact(fx, items[j]);
    }
    if forall j | 0 <= j < |items| :: IsPartial(fx, items[j]) { KnownIdsExact(items, fx.n); }
  }

  /** The first `count` fixture items, all with or all without their optional fields. */
  function Leading(fx: Fixture, count: nat, optional: bool): seq<Json> {
    seq(count, i requires 0 <= i < count => fx.Partial(i, optional, optional))
  }

  function Range(count: nat): seq<int> {
    seq(count, i => i)
  }

  lemma LeadingIsSelection(fx: Fixture, count: nat, optional: bool)
    requires count <= fx.n
    ensures Selection(fx, Leading(fx, count, optional))
    ensures KnownIds(Leading(fx, count, optional), fx.n) == Range(count)
  {
    var items := Leading(fx, count, optional);
    forall j | 0 <= j < |items|
      ensures Known(items[j], fx.n) && items[j].fields["id"].i == j
      ensures items[j] == fx.Partial(j, HasBody(items[j]), HasDebug(items[j]))
    {
      PartialIsAccepted(fx, j, optional, optional);
    }
    KnownIdsExact(items, fx.n);
  }

  lemma SelectionIndices(fx: Fixture, items: seq<Json>, count: nat)
    requires Selection(fx, items) && KnownIds(items, fx.n) == Range(count)
    ensures |items| == count <= fx.n
    ensures forall j | 0 <= j < count :: items[j] == fx.Partial(j, HasBody(items[j]), HasDebug(items[j]))
  {
    KnownIdsExact(items, fx.n);
    assert forall j | 0 <= j < |items| :: items[j].fields["id"].i == Range(count)[j] == j;
    if count > 0 { assert Known(items[count - 1], fx.n); }
  }

  lemma CountedIsLeading(fx: Fixture, items: seq<Json>, count: nat, optional: bool)
    requires Selection(fx, items) && KnownIds(items, fx.n) == Range(count)
    requires Count(items, OPTIONAL_KEYS[0]) + Count(items, OPTIONAL_KEYS[1]) == if optional then count * 2 else 0
    ensures count <= fx.n && items == Leading(fx, count, optional)
  {
    SelectionIndices(fx, items, count);
    hide Selection, KnownIds;
    CountBounds(items, OPTIONAL_KEYS[0]);
    CountBounds(items, OPTIONAL_KEYS[1]);
    forall j | 0 <= j < count ensures items[j] == fx.Partial(j, optional, optional) {
      assert HasBody(items[j]) == optional && HasDebug(items[j]) == optional;
    }
  }

  lemma LeadingIsCounted(fx: Fixture, items: seq<Json>, count: nat, optional: bool)
    requires count <= fx.n && items == Leading(fx, count, optional)
    ensures Selection(fx, items) && KnownIds(items, fx.n) == Range(count)
    ensures Count(items, OPTIONAL_KEYS[0]) + Count(items, OPTIONAL_KEYS[1]) == if optional then count * 2 else 0
  {
    LeadingIsSelection(fx, count, optional);
    hide Selection, KnownIds;
    forall j | 0 <= j < |items|
      ensures FieldAt(items[j], OPTIONAL_KEYS[0]).Some? <==> optional
      ensures FieldAt(items[j], OPTIONAL_KEYS[1]).Some? <==> optional
    {
      PartialIsAccepted(fx, j, optional, optional);
    }
    CountBounds(items, OPTIONAL_KEYS[0]);
    CountBounds(items, OPTIONAL_KEYS[1]);
  }

  /** The validator's counting: a selection with the identifiers 0..count-1 and all or none of the optional
      fields. */
  ghost predicate Counted(fx: Fixture, items: seq<Json>, count: nat, optional: bool) {
    && Selection(fx, items) && KnownIds(items, fx.n) == Range(count)
    && Count(items, OPTIONAL_KEYS[0]) + Count(items, OPTIONAL_KEYS[1]) == (if optional then count * 2 else 0)
  }

  /** Counting pins the document down: it is the leading part of the fixture, and conversely. */
  lemma LeadingByCounting(fx: Fixture, items: seq<Json>, count: nat, optional: bool)
    ensures Counted(fx, items, count, optional) <==> count <= fx.n && items == Leading(fx, count, optional)
  {
    hide Selection, KnownIds, Count, Range, Leading;
    if Counted(fx, items, count, optional) { CountedIsLeading(fx, items, count, optional); }
    if count <= fx.n && items == Leading(fx, count, optional) { LeadingIsCounted(fx, items, count, optional); }
  }

  // ---- The validator ----

  predicate Removal(mode: string, condition: string) {
    mode in {"removal", "combined"} || (mode == "adaptive" && condition != "GOOD")
  }

  predicate SkeletonMode(mode: string, condition: string) {
    mode == "adaptive" && condition == "POOR"
  }

  function ExpectedEncoding(mode: string, condition: string): string {
    if mode in {"compression", "combined"} || (mode == "adaptive" && condition != "GOOD") then "gzip" else "identity"
  }

  function ExpectedCount(fx: Fixture, mode: string, condition: string): nat {
    if SkeletonMode(mode, condition) then 10 else fx.n
  }

  /** What the validator reports; without a decoded JSON array it reports no counts and no validity. */
  datatype Observation =
    | Unmeasured(error: string)
    | Measured(itemCount: nat, requiredPresent: nat, optionalPresent: nat,
               requiredPreserved: bool, reduced: bool, fixtureValid: bool, modeValid: bool)
  {
    predicate FixtureValid() { Measured? && fixtureValid }
    predicate ModeValid() { Measured? && modeValid }
  }

  /** `content_observation` on a body whose coding was accepted; `parsed` is the outcome of JSON
      parsing and `encoding` the content coding, empty when the header is absent. */
  method ContentObservation(fx: Fixture, parsed: Option<Json>, encoding: string, mode: string, condition: string)
    returns (obs: Observation)
    ensures obs.Measured? <==> parsed.Some? && parsed.value.Arr?
    ensures parsed.None? ==> obs == Unmeasured("invalid_json")
    ensures parsed.Some? && !parsed.value.Arr? ==> obs == Unmeasured("fixture_not_array")
    ensures obs.Measured? ==>
              var items := parsed.value.items;
              && obs.itemCount == |items|
              && obs.requiredPresent ==
                   Count(items, REQUIRED_KEYS[0]) + Count(items, REQUIRED_KEYS[1]) + Count(items, REQUIRED_KEYS[2])
              && obs.optionalPresent == Count(items, OPTIONAL_KEYS[0]) + Count(items, OPTIONAL_KEYS[1])
              && (obs.requiredPreserved <==> forall j | 0 <= j < |items| :: RequiredPreserved(fx, items[j]))
    ensures obs.FixtureValid() <==>
            parsed.Some? && parsed.value.Arr? && parsed.value.items != [] && Selection(fx, parsed.value.items)
    ensures obs.FixtureValid() ==> (obs.reduced <==> parsed.value != Arr(fx.Payload()))
    ensures obs.ModeValid() <==>
            && (if encoding == "" then "identity" else encoding) == ExpectedEncoding(mode, condition)
            && ExpectedCount(fx, mode, condition) <= fx.n
            && parsed == Some(Arr(Leading(fx, ExpectedCount(fx, mode, condition), !Removal(mode, condition))))
    ensures obs.ModeValid() <==>
            var degraded := mode == "adaptive" && condition != "GOOD";
            var count := if mode == "adaptive" && condition == "POOR" then 10 else fx.n;
            && (if mode in {"compression", "combined"} || degraded then encoding == "gzip"
                else encoding in {"", "identity"})
            && count <= fx.n
            && parsed == Some(Arr(Leading(fx, count, !(mode in {"removal", "combined"} || degraded))))
    ensures && fx.n >= 10 && !(mode == "adaptive" && QualityOf(condition) == RO.UNKNOWN)
            && (if encoding == "" then "identity" else encoding) == ExpectedEncoding(mode, condition)
            ==> (obs.ModeValid() <==> parsed == Some(Optimized(fx, mode, condition)))
  {
    if fx.n >= 10 { ExpectationMatchesOptimizer(fx, mode, condition); }
    ExpectationMeans(fx, encoding, mode, condition);
    hide Leading, Optimized, Removal, ExpectedCount, ExpectedEncoding, Count, Selection, RequiredPreserved, QualityOf;
    if parsed.None? { return Unmeasured("invalid_json"); }
    if !parsed.value.Arr? { return Unmeasured("fixture_not_array"); }
    var data := parsed.value.items;
    var required: map<string, nat>, optional: map<string, nat>;
    var valuesCorrect: bool, requiredCorrect: bool, ids: seq<int>;
    required, optional, valuesCorrect, requiredCorrect, ids := ScanItems(fx, data);
    var requiredN := required[REQUIRED_FIELDS[0]] + required[REQUIRED_FIELDS[1]] + required[REQUIRED_FIELDS[2]];
    var optionalN := optional[OPTIONAL_FIELDS[0]] + optional[OPTIONAL_FIELDS[1]];
    obs := Conclude(fx, data, requiredN, optionalN, valuesCorrect, requiredCorrect, ids, encoding, mode, condition);
  }

  /** The expected coding, size and fields, mode by mode. */
  lemma ExpectationMeans(fx: Fixture, encoding: string, mode: string, condition: string)
    ensures var degraded := mode == "adaptive" && condition != "GOOD";
            && ((if encoding == "" then "identity" else encoding) == ExpectedEncoding(mode, condition) <==>
                  if mode in {"compression", "combined"} || degraded then encoding == "gzip"
                  else encoding in {"", "identity"})
            && ExpectedCount(fx, mode, condition) == (if mode == "adaptive" && condition == "POOR" then 10 else fx.n)
            && (Removal(mode, condition) <==> mode in {"removal", "combined"} || degraded)
  {
  }

  /** The part of `content_observation` after the loop: from counters, flags and identifiers to the report. */
  method Conclude(fx: Fixture, data: seq<Json>, requiredN: nat, optionalN: nat, itemsCorrect: bool,
                  requiredCorrect: bool, ids: seq<int>, encoding: string, mode: string, condition: string)
    returns (obs: Observation)
    requires optionalN == Count(data, OPTIONAL_KEYS[0]) + Count(data, OPTIONAL_KEYS[1])
    requires itemsCorrect <==> forall j | 0 <= j < |data| :: Accepted(fx, data[j])
    requires ids == KnownIds(data, fx.n)
    ensures obs.Measured? && obs.itemCount == |data| && obs.requiredPresent == requiredN
    ensures obs.optionalPresent == optionalN && obs.requiredPreserved == requiredCorrect
    ensures obs.fixtureValid <==> data != [] && Selection(fx, data)
    ensures obs.fixtureValid ==> (obs.reduced <==> data != fx.Payload())
    ensures obs.modeValid <==>
            && (if encoding == "" then "identity" else encoding) == ExpectedEncoding(mode, condition)
            && ExpectedCount(fx, mode, condition) <= fx.n
            && data == Leading(fx, ExpectedCount(fx, mode, condition), !Removal(mode, condition))
    ensures obs.modeValid <==>
            var degraded := mode == "adaptive" && condition != "GOOD";
            var count := if mode == "adaptive" && condition == "POOR" then 10 else fx.n;
            && (if mode in {"compression", "combined"} || degraded then encoding == "gzip"
                else encoding in {"", "identity"})
            && count <= fx.n && data == Leading(fx, count, !(mode in {"removal", "combined"} || degraded))
  {
    ExpectationMeans(fx, encoding, mode, condition);
    SelectionExact(fx, data);
    var valuesCorrect := itemsCorrect && |Elements(ids)| == |data| && Sorted(ids);
    var reduced := |data| < fx.n || optionalN < fx.n * |OPTIONAL_FIELDS|;
    if valuesCorrect { ReducedExact(fx, data); }
    var removal, skeleton := Removal(mode, condition), SkeletonMode(mode, condition);
    var expectedItems := if skeleton then 10 else fx.n;
    var actualEncoding := if encoding == "" then "identity" else encoding;
    LeadingByCounting(fx, data, expectedItems, !removal);
    hide Selection, Accepted, Count, KnownIds, Leading, Range, Elements, Sorted, Removal, ExpectedEncoding;
    var modeValid := && valuesCorrect && ids == Range(expectedItems)
                     && optionalN == (if removal then 0 else expectedItems * |OPTIONAL_FIELDS|)
                     && actualEncoding == ExpectedEncoding(mode, condition);
    obs := Measured(|data|, requiredN, optionalN, requiredCorrect, reduced, valuesCorrect && |data| > 0, modeValid);
  }

  /** For a selection, the counting test for `reduced` is inequality with the full fixture. */
  lemma ReducedExact(fx: Fixture, items: seq<Json>)
    requires Selection(fx, items)
    ensures (|items| < fx.n || Count(items, OPTIONAL_KEYS[0]) + Count(items, OPTIONAL_KEYS[1]) < fx.n * 2)
            <==> items != fx.Payload()
  {
    SelectionFits(fx, items);
    assert fx.Payload() == Leading(fx, fx.n, true);
    var counted := Count(items, OPTIONAL_KEYS[0]) + Count(items, OPTIONAL_KEYS[1]);
    assert counted <= 2 * |items| by {
      CountBounds(items, OPTIONAL_KEYS[0]);
      CountBounds(items, OPTIONAL_KEYS[1]);
    }
    LeadingByCounting(fx, items, fx.n, true);
  }

  lemma SelectionFits(fx: Fixture, items: seq<Json>)
    requires Selection(fx, items)
    ensures |items| <= fx.n
    ensures |items| == fx.n ==> KnownIds(items, fx.n) == Range(fx.n)
  {
    KnownIdsExact(items, fx.n);
    IncreasingFits(KnownIds(items, fx.n), fx.n);
  }

  /** An increasing sequence below `n` has at most `n` elements, and with `n` it is the range. */
  lemma {:induction false} IncreasingFits(ids: seq<int>, n: nat)
    requires Increasing(ids) && forall j | 0 <= j < |ids| :: 0 <= ids[j] < n
    ensures |ids| <= n
    ensures |ids| == n ==> forall j | 0 <= j < n :: ids[j] == j
  {
    if ids != [] {
      var last := ids[|ids| - 1];
      IncreasingFits(ids[..|ids| - 1], last);
    }
  }

  /** A counter dictionary holds the count of each of its fields. */
  predicate Tallied(counts: map<string, nat>, paths: seq<string>, keys: seq<seq<string>>, items: seq<Json>)
    requires |paths| == |keys|
  {
    forall i | 0 <= i < |paths| :: paths[i] in counts && counts[paths[i]] == Count(items, keys[i])
  }

  /** `CountFields` in terms of the running counts. */
  method Tally(fx: Fixture, ghost seen: seq<Json>, item: Json, known: bool, index: nat,
               paths: seq<string>, ghost keys: seq<seq<string>>, mandatory: bool, counts: map<string, nat>)
    returns (counts': map<string, nat>, correct: bool)
    requires Usable(paths, keys) && Tallied(counts, paths, keys, seen)
    ensures Tallied(counts', paths, keys, seen + [item])
    ensures correct <==> FieldsCorrect(fx, item, known, index, keys, mandatory)
  {
    counts', correct := CountFields(fx, item, known, index, paths, mandatory, counts);
    assert (seen + [item])[..|seen|] == seen;
  }

  method ZeroCounts(paths: seq<string>, ghost keys: seq<seq<string>>) returns (counts: map<string, nat>)
    requires |paths| == |keys|
    ensures Tallied(counts, paths, keys, [])
  {
    counts := map p | p in paths :: 0;
  }

  /** Both counter dictionaries hold the counts of their fields. */
  ghost predicate Tallies(required: map<string, nat>, optional: map<string, nat>, items: seq<Json>) {
    Tallied(required, REQUIRED_FIELDS, REQUIRED_KEYS, items) && Tallied(optional, OPTIONAL_FIELDS, OPTIONAL_KEYS, items)
  }

  /** The loop over the items. */
  method ScanItems(fx: Fixture, data: seq<Json>)
    returns (required: map<string, nat>, optional: map<string, nat>, valuesCorrect: bool, requiredCorrect: bool,
             ids: seq<int>)
    ensures Tallies(required, optional, data)
    ensures valuesCorrect <==> forall j | 0 <= j < |data| :: Accepted(fx, data[j])
    ensures requiredCorrect <==> forall j | 0 <= j < |data| :: RequiredPreserved(fx, data[j])
    ensures ids == KnownIds(data, fx.n)
  {
    required := ZeroCounts(REQUIRED_FIELDS, REQUIRED_KEYS);
    optional := ZeroCounts(OPTIONAL_FIELDS, OPTIONAL_KEYS);
    valuesCorrect, requiredCorrect, ids := true, true, [];
    assert data[..0] == [] && ids == KnownIds([], fx.n);
    hide Accepted, RequiredPreserved, Tallies, KnownIds;
    for k := 0 to |data|
      invariant Tallies(required, optional, data[..k])
      invariant valuesCorrect <==> forall j | 0 <= j < k :: Accepted(fx, data[j])
      invariant requiredCorrect <==> forall j | 0 <= j < k :: RequiredPreserved(fx, data[j])
      invariant ids == KnownIds(data[..k], fx.n)
    {
      var accepted: bool, preserved: bool;
      required, optional, accepted, preserved, ids := ScanItem(fx, data[..k], data[k], required, optional, ids);
      valuesCorrect := valuesCorrect && accepted;
      requiredCorrect := requiredCorrect && preserved;
      assert data[..k] + [data[k]] == data[..k + 1];
    }
    assert data[..|data|] == data;
  }

  predicate RequiredPreserved(fx: Fixture, item: Json) {
    Known(item, fx.n) && FieldsCorrect(fx, item, true, item.fields["id"].i, REQUIRED_KEYS, true)
  }

  /** An item that is no object has none of the fields. */
  lemma NotAnObject(seen: seq<Json>, item: Json, counts: map<string, nat>, paths: seq<string>, keys: seq<seq<string>>)
    requires !item.Obj? && |paths| == |keys| && Tallied(counts, paths, keys, seen)
    requires forall i | 0 <= i < |keys| :: keys[i] != []
    ensures Tallied(counts, paths, keys, seen + [item])
  {
    assert (seen + [item])[..|seen|] == seen;
    forall i | 0 <= i < |keys| ensures FieldAt(item, keys[i]).None? {}
  }

  /** One round of the loop: what it adds to the counters and whether it keeps the two flags. */
  method ScanItem(fx: Fixture, ghost seen: seq<Json>, item: Json,
                  required: map<string, nat>, optional: map<string, nat>, ids: seq<int>)
    returns (required': map<string, nat>, optional': map<string, nat>, accepted: bool, preserved: bool, ids': seq<int>)
    requires Tallies(required, optional, seen)
    requires ids == KnownIds(seen, fx.n)
    ensures Tallies(required', optional', seen + [item])
    ensures accepted <==> Accepted(fx, item)
    ensures preserved <==> RequiredPreserved(fx, item)
    ensures ids' == KnownIds(seen + [item], fx.n)
  {
    assert (seen + [item])[..|seen|] == seen;
    if !item.Obj? {
      NotAnObject(seen, item, required, REQUIRED_FIELDS, REQUIRED_KEYS);
      NotAnObject(seen, item, optional, OPTIONAL_FIELDS, OPTIONAL_KEYS);
      hide Tallied, Count;
      return required, optional, false, false, ids;
    }
    var known := Known(item, fx.n);
    var index := if known then item.fields["id"].i else 0;
    ids' := if known then ids + [index] else ids;
    assert ids' == KnownIds(seen + [item], fx.n);
    FieldListsUsable();
    hide KnownIds, Tallied, FieldsCorrect, Usable, Count;
    required', preserved := Tally(fx, seen, item, known, index, REQUIRED_FIELDS, REQUIRED_KEYS, true, required);
    optional', accepted := Tally(fx, seen, item, known, index, OPTIONAL_FIELDS, OPTIONAL_KEYS, false, optional);
    preserved := preserved && known;
    accepted := accepted && preserved && Shaped(item);
  }

  // ---- The validator against the optimizer ----

  function QualityOf(condition: string): RO.Quality {
    if condition == "GOOD" then RO.GOOD
    else if condition == "DEGRADED" then RO.DEGRADED
    else if condition == "POOR" then RO.POOR
    else RO.UNKNOWN
  }

  /** What the optimizer makes of the fixture on an uncached route. */
  function Optimized(fx: Fixture, mode: string, condition: string): Json {
    RO.Reshaped(RO.Policy(mode, QualityOf(condition), false), Arr(fx.Payload()), OPTIONAL_FIELDS)
  }

  lemma OptionalKeys(i: nat)
    requires i < 2
    ensures RO.Keys(OPTIONAL_FIELDS[i]) == OPTIONAL_KEYS[i]
  {
    OptionalSegments();
    JS.SplitVersusPartition(OPTIONAL_FIELDS[i]);
  }

  lemma OptionalPaths()
    ensures RO.FieldPaths(OPTIONAL_FIELDS) == {OPTIONAL_KEYS[0]} + {OPTIONAL_KEYS[1]}
  {
    hide RO.Keys;
    forall i: nat | i < 2 ensures RO.Keys(OPTIONAL_FIELDS[i]) == OPTIONAL_KEYS[i] { OptionalKeys(i); }
  }

  lemma {:induction false} WithoutBody(fx: Fixture, index: nat)
    ensures RO.RemovePath(fx.Item(index).fields, OPTIONAL_KEYS[0]) == fx.Partial(index, false, true).fields
  {
  }

  lemma {:induction false} MetaWithoutDebug(category: Json, debug: Json)
    ensures Prune(Obj(map["category" := category]["debug" := debug]), {["debug"]}) == Obj(map["category" := category])
  {
    var meta := map["category" := category]["debug" := debug];
    RO.PruneOnePath(meta, ["debug"]);
    assert meta - {"debug"} == map["category" := category];
  }

  lemma {:induction false} WithoutDebug(fx: Fixture, index: nat)
    ensures RO.RemovePath(fx.Partial(index, false, true).fields, OPTIONAL_KEYS[1]) ==
            fx.Partial(index, false, false).fields
  {
    MetaWithoutDebug(Str(fx.category), Str(fx.debug));
    hide Prune;
    assert OPTIONAL_KEYS[1][1..] == ["debug"];
  }

  lemma {:induction false} StrippedItem(fx: Fixture, index: nat)
    ensures Prune(fx.Item(index), RO.FieldPaths(OPTIONAL_FIELDS)) == fx.Partial(index, false, false)
  {
    OptionalPaths();
    PruneCompose(fx.Item(index), {OPTIONAL_KEYS[0]}, {OPTIONAL_KEYS[1]});
    RO.PruneOnePath(fx.Item(index).fields, OPTIONAL_KEYS[0]);
    WithoutBody(fx, index);
    RO.PruneOnePath(fx.Partial(index, false, true).fields, OPTIONAL_KEYS[1]);
    WithoutDebug(fx, index);
  }

  lemma {:induction false} TruncatedItem(fx: Fixture, index: nat, bound: nat)
    ensures Truncate(fx.Partial(index, false, false), bound) == fx.Partial(index, false, false)
  {
    var item := fx.Partial(index, false, false);
    var meta := item.fields["meta"];
    assert Truncate(meta, bound).fields == meta.fields;
    assert Truncate(item, bound).fields == item.fields;
  }

  /** The document the validator accepts is the one the optimizer produces, exactly when the condition
      is one the optimizer knows or the mode does not depend on it. */
  lemma ExpectationMatchesOptimizer(fx: Fixture, mode: string, condition: string)
    requires fx.n >= 10
    ensures Arr(Leading(fx, ExpectedCount(fx, mode, condition), !Removal(mode, condition))) ==
            Optimized(fx, mode, condition)
            <==> !(mode == "adaptive" && QualityOf(condition) == RO.UNKNOWN)
  {
    var expected := Leading(fx, ExpectedCount(fx, mode, condition), !Removal(mode, condition));
    forall i | 0 <= i < fx.n
      ensures Prune(fx.Item(i), RO.FieldPaths(OPTIONAL_FIELDS)) == fx.Partial(i, false, false)
      ensures Truncate(fx.Partial(i, false, false), 10) == fx.Partial(i, false, false)
    {
      StrippedItem(fx, i);
      TruncatedItem(fx, i, 10);
    }
    match RO.Policy(mode, QualityOf(condition), false)
    case Keep =>
      assert fx.Payload() == Leading(fx, fx.n, true);
      if mode == "adaptive" && QualityOf(condition) == RO.UNKNOWN {
        assert expected[0] == fx.Partial(0, false, false);
        assert "body" !in expected[0].fields && "body" in fx.Payload()[0].fields;
      }
    case Strip =>
      assert Optimized(fx, mode, condition).items == Leading(fx, fx.n, false);
    case Skeleton =>
      assert Optimized(fx, mode, condition).items == Leading(fx, 10, false);
  }

  /** One measured request: the gateway's reply to an uncached read of the fixture, and the validator's judgement
      of it.  The reply is judged valid for its mode exactly when the condition is known to the optimizer or
      does not matter, and compression, where the mode asks for it, was really used. */
  method MeasureReply(codec: RO.Codec, fx: Fixture, x: RO.Exchange, condition: string)
    returns (r: RO.Outcome, obs: Observation)
    requires codec.Faithful() && x.Handled() && fx.n >= 10
    requires x.body != [] && codec.loads(x.body) == Some(Arr(fx.Payload())) && !x.tooDeep
    requires x.fields == OPTIONAL_FIELDS && !x.servedFromCache && x.quality == QualityOf(condition)
    ensures r.Sent? ==>
              (obs.ModeValid() <==>
                && !(r.mode == "adaptive" && condition !in {"GOOD", "DEGRADED", "POOR"})
                && (r.mode in {"compression", "combined"} || (r.mode == "adaptive" && condition != "GOOD") ==>
                      r.gzipped))
  {
    r := RO.Dispatch(codec, x);
    obs := Unmeasured("no reply");
    if r.Sent? {
      RO.PlainParses(codec, x);
      ExpectationMatchesOptimizer(fx, r.mode, condition);
      var encoding := if r.gzipped then "gzip" else "";
      obs := ContentObservation(fx, codec.loads(RO.Decoded(codec, r)), encoding, r.mode, condition);
      hide Optimized, Leading;
    }
  }
}
