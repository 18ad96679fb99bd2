/** Flattening one parsed description into the summary record the dashboard
    shows (`buildDatasetSummary` in server.js). */
module Normalise {
  import opened Wrappers
  import opened JsValues
  import opened Text
  import opened Discovery

  /** The summary record. Fields copied from the description keep whatever
      JSON value the description holds; `null` marks the fields the source
      sets to `null`. `kind` is the source's `type` field (`type` is a Dafny
      keyword). `filePath` is the path relative to the dataset root. */
  datatype Summary = Summary(
    id: Json,
    name: Json,
    crop: Json,
    cropCode: Json,
    kind: Json,
    version: Json,
    numberOfData: Json,
    dataType: Json,
    storagePath: Json,
    generatedAt: Json,
    relatedGenotype: Json,
    filePath: string)

  /** `path.basename`: the file name. */
  function Basename(file: Path): string {
    if file == [] then "" else file[|file| - 1]
  }

  /** `path.dirname` of the relative path: the containing directory, or `.`
      for a file directly under the root. */
  function Dirname(file: Path): string {
    if |file| <= 1 then "." else Join(file[..|file| - 1])
  }

  /** `dataset.key` where `dataset` is `data.dataset || {}`. */
  function DatasetField(data: Json, key: string): Option<Json>
    requires data != Null
  {
    var dataset := Or(Get(data, "dataset"), Obj(map[]));
    Get(dataset, key)
  }

  /** The `??` chain `data.numberOfData ?? data.dataType?.numberOfPhenotype
      ?? data.dataType?.numberOfSNP`. */
  function NumberSource(data: Json): Option<Json>
    requires data != Null
  {
    var dataType := Get(data, "dataType");
    Coalesce(Coalesce(Get(data, "numberOfData"), Chain(dataType, "numberOfPhenotype")),
             Chain(dataType, "numberOfSNP"))
  }

  /** What every summary promises its readers: the fields with a non-empty
      default are truthy, `numberOfData` is a number or `null`, and the
      fields defaulted to `null` are either truthy or `null`. */
  predicate Normalised(s: Summary) {
    && Truthy(s.name) && Truthy(s.crop) && Truthy(s.kind) && Truthy(s.version)
    && (s.numberOfData.Num? || s.numberOfData == Null)
    && (Truthy(s.dataType) || s.dataType == Null)
    && (Truthy(s.generatedAt) || s.generatedAt == Null)
    && (Truthy(s.relatedGenotype) || s.relatedGenotype == Null)
    && (Truthy(s.cropCode) || s.cropCode == Str(""))
  }

  /** `buildDatasetSummary(data, filePath)`. It throws only when the parsed
      value is `null` (`null.dataset` is a TypeError), which is `None` here;
      every other parsed value, even a number or an array, yields a
      normalised summary whose `filePath` is the relative path. */
  function BuildDatasetSummary(data: Json, file: Path): (r: Option<Summary>)
    ensures r.None? <==> data == Null
    ensures r.Some? ==> Normalised(r.value)
    ensures r.Some? ==> r.value.filePath == Join(file)
    ensures r.Some? ==> Truthy(r.value.id) || Basename(file) == ""
  {
    if data == Null then None
    else
      var dataType := Get(data, "dataType");
      var number := NumberSource(data);
      Some(Summary(
        id := Or(Get(data, "id"), Str(Basename(file))),
        name := Or(DatasetField(data, "name"), Str("Unnamed dataset")),
        crop := Or(DatasetField(data, "crop"), Str("Unknown crop")),
        cropCode := Or(DatasetField(data, "cropCode"), Str("")),
        kind := Or(DatasetField(data, "type"), Or(Chain(dataType, "type"), Str("unknown"))),
        version := Or(Get(data, "version"), Str("N/A")),
        numberOfData := if number.Some? && number.value.Num? then number.value else Null,
        dataType := Or(Chain(dataType, "type"), Null),
        storagePath := Or(Chain(Get(data, "storage"), "locationOfFile"), Str(Dirname(file))),
        generatedAt := Or(Get(data, "generatedAt"), Null),
        relatedGenotype := Or(Get(data, "relatedGenotype"), Null),
        filePath := Join(file)))
  }

  /** `type` is `dataset.type` if truthy, else `dataType.type` if truthy,
      else `'unknown'`. */
  lemma TypeFallback(data: Json, file: Path)
    requires data != Null
    ensures var r := BuildDatasetSummary(data, file).value;
      var first, second := DatasetField(data, "type"), Chain(Get(data, "dataType"), "type");
      && (Present(first) ==> r.kind == first.value)
      && (!Present(first) && Present(second) ==> r.kind == second.value)
      && (!Present(first) && !Present(second) ==> r.kind == Str("unknown"))
  {
  }

  /** `numberOfData` is the first of `numberOfData`, `dataType.numberOfPhenotype`
      and `dataType.numberOfSNP` that is neither `null` nor `undefined`, kept
      only if it is a number: a present `0` is kept, a present non-number
      blocks the later fallbacks and gives `null`, and when all three are
      missing the result is `null`. */
  lemma NumberOfDataFallback(data: Json, file: Path)
    requires data != Null
    ensures var r := BuildDatasetSummary(data, file).value;
      var own := Get(data, "numberOfData");
      var phenotypes := Chain(Get(data, "dataType"), "numberOfPhenotype");
      var snps := Chain(Get(data, "dataType"), "numberOfSNP");
      && (!Nullish(own) ==> r.numberOfData == (if own.value.Num? then own.value else Null))
      && (Nullish(own) && !Nullish(phenotypes) ==>
            r.numberOfData == (if phenotypes.value.Num? then phenotypes.value else Null))
      && (Nullish(own) && Nullish(phenotypes) && !Nullish(snps) ==>
            r.numberOfData == (if snps.value.Num? then snps.value else Null))
      && (Nullish(own) && Nullish(phenotypes) && Nullish(snps) ==> r.numberOfData == Null)
  {
  }

  /** A present zero is kept (`??` does not treat `0` as missing), and a
      present string blocks a numeric fallback. */
  lemma NumberOfDataZeroAndBlocking(data: Json, file: Path, n: real)
    requires data.Obj? && "dataType" in data.fields && data.fields["dataType"].Obj?
    requires "numberOfSNP" in data.fields["dataType"].fields
    requires data.fields["dataType"].fields["numberOfSNP"] == Num(n)
    ensures "numberOfData" in data.fields && data.fields["numberOfData"] == Num(0.0) ==>
      BuildDatasetSummary(data, file).value.numberOfData == Num(0.0)
    ensures "numberOfData" in data.fields && data.fields["numberOfData"].Str? ==>
      BuildDatasetSummary(data, file).value.numberOfData == Null
  {
  }

  /** Falsy source fields take their defaults and truthy ones are copied:
      `name` 'Unnamed dataset', `crop` 'Unknown crop', `cropCode` '',
      `version` 'N/A', `id` the file's basename, and `dataType`,
      `generatedAt`, `relatedGenotype` null. */
  lemma FieldDefaults(data: Json, file: Path)
    requires data != Null
    ensures var r := BuildDatasetSummary(data, file).value;
      && r.name == (if Present(DatasetField(data, "name")) then DatasetField(data, "name").value else Str("Unnamed dataset"))
      && r.crop == (if Present(DatasetField(data, "crop")) then DatasetField(data, "crop").value else Str("Unknown crop"))
      && r.cropCode == (if Present(DatasetField(data, "cropCode")) then DatasetField(data, "cropCode").value else Str(""))
      && r.version == (if Present(Get(data, "version")) then Get(data, "version").value else Str("N/A"))
      && r.id == (if Present(Get(data, "id")) then Get(data, "id").value else Str(Basename(file)))
      && r.dataType == (if Present(Chain(Get(data, "dataType"), "type")) then Chain(Get(data, "dataType"), "type").value else Null)
      && r.generatedAt == (if Present(Get(data, "generatedAt")) then Get(data, "generatedAt").value else Null)
      && r.relatedGenotype == (if Present(Get(data, "relatedGenotype")) then Get(data, "relatedGenotype").value else Null)
  {
  }

  /** `filePath` is always the relative path; `storagePath` is
      `storage.locationOfFile` when truthy, otherwise the directory part of
      that same relative path. */
  lemma PathFields(data: Json, file: Path)
    requires data != Null
    ensures var r := BuildDatasetSummary(data, file).value;
      var location := Chain(Get(data, "storage"), "locationOfFile");
      && r.filePath == Join(file)
      && (Present(location) ==> r.storagePath == location.value)
      && (!Present(location) ==> r.storagePath == Str(Dirname(file)))
  {
  }

  /** A description with only a dataset name, a crop and a version: the
      rest takes its defaults and `numberOfData` is null, not zero. */
  lemma RiceDescriptionExample(data: Json)
    requires data == RiceDescription()
    ensures var r := BuildDatasetSummary(data, ["a", "x_description.json"]).value;
      && r.name == Str("Rice-A") && r.crop == Str("Rice") && r.version == Str("1.0")
      && r.kind == Str("unknown") && r.cropCode == Str("") && r.numberOfData == Null
      && r.storagePath == Str("a") && r.filePath == "a/x_description.json"
  {
    RiceValueFields(data, ["a", "x_description.json"]);
    RicePathFields(data);
  }

  lemma RiceValueFields(data: Json, file: Path)
    requires data == RiceDescription()
    ensures var r := BuildDatasetSummary(data, file).value;
      && r.name == Str("Rice-A") && r.crop == Str("Rice") && r.version == Str("1.0")
      && r.kind == Str("unknown") && r.cropCode == Str("") && r.numberOfData == Null
  {
    RiceDatasetFields(data);
    RiceTopLevelFields(data);
    FieldDefaults(data, file);
    TypeFallback(data, file);
    NumberOfDataFallback(data, file);
  }

  lemma RicePathFields(data: Json)
    requires data == RiceDescription()
    ensures var r := BuildDatasetSummary(data, ["a", "x_description.json"]).value;
      r.storagePath == Str("a") && r.filePath == "a/x_description.json"
  {
    var file: Path := ["a", "x_description.json"];
    assert file[..1] == ["a"];
    assert Join(file) == "a" + "/" + "x_description.json";
    RiceTopLevelFields(data);
    PathFields(data, file);
  }

  function RiceDescription(): Json {
    Obj(map[
      "dataset" := Obj(map["name" := Str("Rice-A"), "crop" := Str("Rice")]),
      "version" := Str("1.0")])
  }

  lemma RiceDatasetFields(data: Json)
    requires data == RiceDescription()
    ensures DatasetField(data, "name") == Some(Str("Rice-A"))
    ensures DatasetField(data, "crop") == Some(Str("Rice"))
    ensures DatasetField(data, "cropCode") == None
    ensures DatasetField(data, "type") == None
  {
    assert Get(data, "dataset") == Some(Obj(map["name" := Str("Rice-A"), "crop" := Str("Rice")]));
  }

  lemma RiceTopLevelFields(data: Json)
    requires data == RiceDescription()
    ensures Get(data, "version") == Some(Str("1.0"))
    ensures Get(data, "dataType") == None && Get(data, "numberOfData") == None
    ensures Get(data, "storage") == None
  {
  }
}
