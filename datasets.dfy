/**
 * prep_dataset and prepare_datasets: choosing the metadata file, running the
 * global_metadata loop over the shared `fields` dictionary, and shaping the
 * dataset document that gets written.
 */
module Datasets {
  import opened Wrappers
  import opened Errors
  import opened PyStrings
  import opened BandNames
  import opened Acquisitions
  import opened SceneIds
  import opened Corners

  /** A value in the `fields` dictionary: text, or a datetime (`creation_dt`). */
  datatype Value = Text(text: string) | Time(instant: int)

  /** The `fields` dictionary, created by prepare_datasets and updated in place by both functions. */
  class Fields {
    var entries: map<string, Value>

    constructor (initial: map<string, Value>)
      ensures entries == initial
    {
      entries := initial;
    }

    /** `fields.update(other)`: the keys of `other` are added or overwritten, the rest kept. */
    method Update(other: map<string, Value>)
      modifies this
      ensures entries == old(entries) + other
    {
      entries := entries + other;
    }
  }

  /** `fields[key]`, KeyError when the key is absent. */
  function Lookup(entries: map<string, Value>, key: string): Result<Value, Error>
  {
    if key in entries then Success(entries[key]) else Failure(MissingField(key))
  }

  /** `int(fields[key])` on the ASCII digit strings the scene-ID pattern yields. */
  function IntField(entries: map<string, Value>, key: string): Result<int, Error>
  {
    var v :- Lookup(entries, key);
    if v.Text? && v.text != [] && AllDigits(v.text) then Success(DecimalValue(v.text))
    else Failure(NotAnInteger(key))
  }

  /** A listed file that prep_dataset takes as the metadata file. */
  predicate IsMetafileName(name: string) {
    EndsWith(name, ".xml") && !EndsWith(name, "aux.xml")
  }

  /** The metadata file the listing loop leaves in `metafile`. */
  function Metafile(listing: seq<string>): Result<string, Error>
  {
    if listing == [] then Failure(NoMetadataFile)
    else if IsMetafileName(listing[|listing| - 1]) then Success(listing[|listing| - 1])
    else Metafile(listing[..|listing| - 1])
  }

  /** The chosen file is the LAST qualifying name; with none, `metafile` is unbound. */
  lemma {:induction false} MetafileIsLastQualifying(listing: seq<string>)
    ensures Metafile(listing).Failure? <==> forall i :: 0 <= i < |listing| ==> !IsMetafileName(listing[i])
    ensures Metafile(listing).Failure? ==> Metafile(listing).error == NoMetadataFile
    ensures Metafile(listing).Success? ==>
      exists k :: (0 <= k < |listing| && listing[k] == Metafile(listing).value && IsMetafileName(listing[k])
        && forall j :: k < j < |listing| ==> !IsMetafileName(listing[j]))
  {
    if listing != [] && !IsMetafileName(listing[|listing| - 1]) {
      var init := listing[..|listing| - 1];
      MetafileIsLastQualifying(init);
      assert forall i :: 0 <= i < |init| ==> init[i] == listing[i];
    }
  }

  /** `for file in os.listdir(path)`: each qualifying name overwrites `metafile`. */
  method SelectMetafile(listing: seq<string>) returns (r: Result<string, Error>)
    ensures r == Metafile(listing)
  {
    var metafile: Option<string> := None;
    var i := 0;
    while i < |listing|
      invariant 0 <= i <= |listing|
      invariant Metafile(listing[..i]) == if metafile.Some? then Success(metafile.value) else Failure(NoMetadataFile)
    {
      var file := listing[i];
      if EndsWith(file, ".xml") && !EndsWith(file, "aux.xml") {
        metafile := Some(file);
      }
      assert listing[..i + 1][..i] == listing[..i];
      i := i + 1;
    }
    assert listing[..i] == listing;
    if metafile.None? {
      return Failure(NoMetadataFile);
    }
    r := Success(metafile.value);
  }

  /** What one global_metadata pass puts into `fields`. */
  function AcquisitionFields(a: Acquisition): map<string, Value> {
    map["instrument" := Text(a.instrument), "satellite" := Text(a.satellite)]
  }

  /** The dictionary left by a loop over `items` that updates it with `delta` of each read item, stopping at the first failure. */
  function UpdatedBy<T, A>(items: seq<T>, read: T -> Result<A, Error>, delta: A -> map<string, Value>,
                           entries: map<string, Value>): map<string, Value>
    decreases |items|
  {
    if items == [] then entries
    else
      match read(items[0])
      case Failure(_) => entries
      case Success(a) => UpdatedBy(items[1..], read, delta, entries + delta(a))
  }

  /** When every item reads and every update has the same keys, only the last update shows. */
  lemma {:induction false} UpdatedByKeepsLast<T, A>(items: seq<T>, read: T -> Result<A, Error>,
                                                   delta: A -> map<string, Value>, keys: set<string>,
                                                   entries: map<string, Value>)
    requires AllReadBy(items, read) && items != []
    requires forall x: T :: read(x).Success? ==> delta(read(x).value).Keys == keys
    ensures UpdatedBy(items, read, delta, entries) == entries + delta(read(items[|items| - 1]).value)
    decreases |items|
  {
    var a := read(items[0]).value;
    var rest := items[1..];
    if rest != [] {
      assert forall i :: 0 <= i < |rest| ==> rest[i] == items[i + 1];
      UpdatedByKeepsLast(rest, read, delta, keys, entries + delta(a));
      var b := read(items[|items| - 1]).value;
      assert rest[|rest| - 1] == items[|items| - 1];
      assert entries + delta(a) + delta(b) == entries + delta(b);
    }
  }

  /** `fields` after the global_metadata loop, including the passes before a failing element. */
  function ScanFields(records: seq<GlobalMetadata>, entries: map<string, Value>): map<string, Value>
  {
    UpdatedBy(records, ReadRecord, AcquisitionFields, entries)
  }

  /** After a normal end, `fields` holds the LAST element's instrument and satellite, the rest unchanged. */
  lemma ScanFieldsKeepsLast(records: seq<GlobalMetadata>, entries: map<string, Value>)
    requires AllRead(records) && records != []
    ensures ScanFields(records, entries) == entries + AcquisitionFields(ReadRecord(records[|records| - 1]).value)
  {
    assert AllReadBy(records, ReadRecord);
    UpdatedByKeepsLast(records, ReadRecord, AcquisitionFields, {"instrument", "satellite"}, entries);
  }

  /**
   * prep_dataset's `for global_metadata` loop: each element's values overwrite
   * the loop variables and update `fields`; the first failing element raises.
   */
  method ReadGlobalMetadata(records: seq<GlobalMetadata>, fields: Fields) returns (r: Result<Option<Acquisition>, Error>)
    modifies fields
    ensures r == Scan(records, None)
    ensures fields.entries == ScanFields(records, old(fields.entries))
  {
    var last: Option<Acquisition> := None;
    var i := 0;
    while i < |records|
      invariant 0 <= i <= |records|
      invariant Scan(records, None) == Scan(records[i..], last)
      invariant ScanFields(records, old(fields.entries)) == ScanFields(records[i..], fields.entries)
    {
      assert records[i..][1..] == records[i + 1..];
      var a :- ReadRecord(records[i]);
      last := Some(a);
      fields.Update(AcquisitionFields(a));
      i := i + 1;
    }
    r := Success(last);
  }

  /** What rasterio reports for an image: its CRS as WKT and its bounds. */
  datatype Raster = Raster(crsWkt: string, bounds: Bounds<real>)

  datatype Projection = Projection(spatialReference: string, geoRefPoints: GeoRefPoints<real>)

  /** `get_projection`, given what rasterio reports for the image. */
  function GetProjection(raster: Raster): Projection {
    Projection(raster.crsWkt, CornersOf(raster.bounds))
  }

  datatype RefPoint = RefPoint(path: int, row: int)

  /** The dataset document prep_dataset returns; times are instants in seconds. */
  datatype Document = Document(
    id: string,
    processingLevel: Value,
    productType: Value,
    creationDt: Value,
    platformCode: Value,
    instrumentName: Value,
    groundstation: string,
    aos: int,
    los: int,
    fromDt: int,
    toDt: int,
    centerDt: int,
    formatName: string,
    projection: Projection,
    satelliteRefPointStart: RefPoint,
    satelliteRefPointEnd: RefPoint,
    bands: map<string, string>)

  const FormatName := "GeoTiff"

  /**
   * The metadata file is chosen and its global_metadata loop runs; the
   * variables the document reads are those of the last element, and with no
   * element they are unbound.
   */
  function Acquired(listing: seq<string>, records: seq<GlobalMetadata>): Result<Acquisition, Error>
  {
    var metafile :- Metafile(listing);
    var last :- Scan(records, None);
    if last.None? then Failure(NoGlobalMetadata) else Success(last.value)
  }

  /** The acquisition is read exactly when a metadata file is listed and it holds readable elements only, at least one. */
  lemma AcquiredSucceeds(listing: seq<string>, records: seq<GlobalMetadata>)
    ensures Acquired(listing, records).Success? <==> Metafile(listing).Success? && records != [] && AllRead(records)
    ensures Acquired(listing, records).Success? ==> Acquired(listing, records).value == ReadRecord(records[|records| - 1]).value
    ensures Metafile(listing).Failure? ==> Acquired(listing, records) == Failure(NoMetadataFile)
    ensures Metafile(listing).Success? && records == [] ==> Acquired(listing, records) == Failure(NoGlobalMetadata)
  {
    MetafileIsLastQualifying(listing);
    ScanSucceeds(records, None);
    if Scan(records, None).Success? {
      ScanKeepsLast(records, None);
    }
  }

  /** The five values the document takes from `fields`. */
  datatype Description = Description(level: Value, productType: Value, creation: Value, satellite: Value, instrument: Value)

  /** The keys the document reads from `fields` as they are. */
  const DocumentKeys: set<string> := {"level", "type", "creation_dt", "satellite", "instrument"}

  /** The order in which the document reads those keys. */
  const LookupOrder: seq<string> := ["level", "type", "creation_dt", "satellite", "instrument"]

  /** `fields["level"]`, `fields["type"]`, `fields["creation_dt"]`, `fields["satellite"]`, `fields["instrument"]`, in that order. */
  function Described(fields: map<string, Value>): Result<Description, Error>
  {
    var level :- Lookup(fields, "level");
    var productType :- Lookup(fields, "type");
    var creation :- Lookup(fields, "creation_dt");
    var satellite :- Lookup(fields, "satellite");
    var instrument :- Lookup(fields, "instrument");
    Success(Description(level, productType, creation, satellite, instrument))
  }

  /**
   * The lookups succeed exactly when every key is present; otherwise the
   * KeyError names the first absent key in reading order.
   */
  lemma DescribedSucceeds(fields: map<string, Value>)
    ensures Described(fields).Success? <==> DocumentKeys <= fields.Keys
    ensures Described(fields).Success? ==>
      (Described(fields).value ==
       Description(fields["level"], fields["type"], fields["creation_dt"], fields["satellite"], fields["instrument"]))
    ensures Described(fields).Failure? ==>
      exists i :: 0 <= i < |LookupOrder| && LookupOrder[i] !in fields
        && Described(fields).error == MissingField(LookupOrder[i])
        && forall j :: 0 <= j < i ==> LookupOrder[j] in fields
  {
    if "level" !in fields {
      assert LookupOrder[0] == "level";
    } else if "type" !in fields {
      assert LookupOrder[1] == "type";
    } else if "creation_dt" !in fields {
      assert LookupOrder[2] == "creation_dt";
    } else if "satellite" !in fields {
      assert LookupOrder[3] == "satellite";
    } else if "instrument" !in fields {
      assert LookupOrder[4] == "instrument";
    }
  }

  /** The `int(fields["path"])`, `int(fields["row"])` pair of the reference points. */
  function RefPointOf(fields: map<string, Value>): Result<RefPoint, Error>
  {
    var path :- IntField(fields, "path");
    var row :- IntField(fields, "row");
    Success(RefPoint(path, row))
  }

  /** The document built from the acquisition `a`, the dictionary `fields` and the GeoTIFF names `images`. */
  function Assemble(id: string, a: Acquisition, fields: map<string, Value>, images: seq<string>,
                    raster: string -> Raster): Result<Document, Error>
  {
    var bands :- Bands(images);
    var d :- Described(fields);
    var image :- FirstBandImage(images, bands);
    var refPoint :- RefPointOf(fields);
    Success(Document(id, d.level, d.productType, d.creation, d.satellite, d.instrument,
                     a.groundstation, a.aos, a.los, a.aos, a.los, a.center, FormatName,
                     GetProjection(raster(image)), refPoint, refPoint, bands))
  }

  /** The document exists exactly when the bands map does, there is an image, and the keys it reads are present. */
  lemma AssembleSucceeds(id: string, a: Acquisition, fields: map<string, Value>, images: seq<string>,
                         raster: string -> Raster)
    ensures Assemble(id, a, fields, images, raster).Success? <==>
      && AllBanded(images) && images != []
      && DocumentKeys <= fields.Keys
      && RefPointOf(fields).Success?
  {
    BandsSucceed(images);
    DescribedSucceeds(fields);
    if AllBanded(images) && images != [] {
      FirstBandImageIsLastOfBand(images);
    }
  }

  /** The document's fields: the acquisition window, the end times, the dictionary's values and the bands. */
  lemma AssembleShape(id: string, a: Acquisition, fields: map<string, Value>, images: seq<string>,
                      raster: string -> Raster)
    requires Assemble(id, a, fields, images, raster).Success?
    ensures var doc := Assemble(id, a, fields, images, raster).value;
      && doc.id == id
      && doc.fromDt == doc.aos == a.aos && doc.toDt == doc.los == a.los && doc.centerDt == a.center
      && doc.groundstation == a.groundstation
      && doc.processingLevel == fields["level"] && doc.productType == fields["type"]
      && doc.creationDt == fields["creation_dt"]
      && doc.platformCode == fields["satellite"] && doc.instrumentName == fields["instrument"]
      && RefPointOf(fields) == Success(doc.satelliteRefPointStart)
      && doc.satelliteRefPointStart == doc.satelliteRefPointEnd
      && doc.formatName == "GeoTiff"
      && Bands(images) == Success(doc.bands)
      && FirstBandImage(images, doc.bands).Success?
      && doc.projection == GetProjection(raster(FirstBandImage(images, doc.bands).value))
  {
    DescribedSucceeds(fields);
  }

  /**
   * The outcome of prep_dataset on a directory whose listing is `listing`,
   * whose metadata file holds the global_metadata elements `records`, with
   * `fields` holding `entries` on entry and `id` the generated UUID.
   */
  function PreparedDocument(entries: map<string, Value>, listing: seq<string>, records: seq<GlobalMetadata>,
                            raster: string -> Raster, id: string): Result<Document, Error>
  {
    var a :- Acquired(listing, records);
    Assemble(id, a, ScanFields(records, entries), TifNames(listing), raster)
  }

  /** `prep_dataset(fields, path)`; `fields` keeps the updates of the loop passes that ran. */
  method PrepDataset(fields: Fields, listing: seq<string>, records: seq<GlobalMetadata>,
                     raster: string -> Raster, id: string) returns (r: Result<Document, Error>)
    modifies fields
    ensures r == PreparedDocument(old(fields.entries), listing, records, raster, id)
    ensures fields.entries ==
      if Metafile(listing).Success? then ScanFields(records, old(fields.entries)) else old(fields.entries)
  {
    var metafile :- SelectMetafile(listing);
    var last :- ReadGlobalMetadata(records, fields);
    if last.None? {
      return Failure(NoGlobalMetadata);
    }
    var startTime, endTime := last.value.aos, last.value.los;
    var images := TifNames(listing);
    var bands :- Bands(images);
    var d :- Described(fields.entries);
    var image :- FirstBandImage(images, bands);
    var refPoint :- RefPointOf(fields.entries);
    r := Success(Document(id, d.level, d.productType, d.creation, d.satellite, d.instrument,
                          last.value.groundstation, last.value.aos, last.value.los, startTime, endTime,
                          last.value.center, FormatName, GetProjection(raster(image)),
                          refPoint, refPoint, bands));
  }

  /** prep_dataset's document: the last element's centre and window, satellite, instrument and groundstation, and the bands. */
  lemma PreparedDocumentShape(entries: map<string, Value>, listing: seq<string>, records: seq<GlobalMetadata>,
                              raster: string -> Raster, id: string)
    requires PreparedDocument(entries, listing, records, raster, id).Success?
    ensures Metafile(listing).Success? && records != [] && AllRead(records)
    ensures var doc := PreparedDocument(entries, listing, records, raster, id).value;
      var g := records[|records| - 1];
      && doc.id == id
      && doc.fromDt == doc.aos && doc.toDt == doc.los
      && doc.los - doc.aos == 24 && doc.centerDt - doc.aos == 12
      && doc.groundstation == Groundstation(g.lpgsMetadataFile)
      && doc.platformCode == Text(g.satellite)
      && doc.instrumentName == Text(g.instrument)
      && doc.satelliteRefPointStart == doc.satelliteRefPointEnd
      && doc.formatName == "GeoTiff"
      && Bands(TifNames(listing)) == Success(doc.bands)
      && FirstBandImage(TifNames(listing), doc.bands).Success?
      && doc.projection == GetProjection(raster(FirstBandImage(TifNames(listing), doc.bands).value))
    ensures var g := records[|records| - 1];
      && ReadRecord(g).Success?
      && var doc := PreparedDocument(entries, listing, records, raster, id).value;
      && doc.centerDt == ReadRecord(g).value.center
      && doc.aos == ReadRecord(g).value.aos && doc.los == ReadRecord(g).value.los
  {
    AcquiredSucceeds(listing, records);
    var a := Acquired(listing, records).value;
    ScanFieldsKeepsLast(records, entries);
    AssembleShape(id, a, ScanFields(records, entries), TifNames(listing), raster);
  }

  /** The scene-ID groups as `groupdict()` puts them into `fields`. */
  function SceneEntries(f: SceneFields): map<string, Value> {
    map["code" := Text(f.code), "path" := Text(f.path), "row" := Text(f.row),
        "productyear" := Text(f.productYear), "julianday" := Text(f.julianDay)]
  }

  const ProcessingLevel := "sr_refl"
  const ProductType := "LEDAPS"

  /** What prepare_datasets adds to `fields` before calling prep_dataset. */
  function ProductFields(creation: int): map<string, Value> {
    map["level" := Text(ProcessingLevel), "type" := Text(ProductType), "creation_dt" := Time(creation)]
  }

  /** The outcome of prepare_datasets on the dataset directory named `name`. */
  function PreparedScene(name: string, listing: seq<string>, records: seq<GlobalMetadata>,
                         raster: string -> Raster, id: string): Result<Document, Error>
  {
    var stem := Stem(name);
    match ParseSceneId(stem)
    case None => Failure(NotASceneId(stem))
    case Some(f) =>
      var creation :- CreationDate(f);
      PreparedDocument(SceneEntries(f) + ProductFields(creation), listing, records, raster, id)
  }

  /** `prepare_datasets(nbar_path)`: the scene fields, the creation date, then prep_dataset. */
  method PrepareDatasets(name: string, listing: seq<string>, records: seq<GlobalMetadata>,
                         raster: string -> Raster, id: string) returns (r: Result<Document, Error>)
    ensures r == PreparedScene(name, listing, records, raster, id)
  {
    var stem := Stem(name);
    var scene := ParseSceneId(stem);
    if scene.None? {
      return Failure(NotASceneId(stem));
    }
    var creation :- CreationDate(scene.value);
    var fields := new Fields(SceneEntries(scene.value));
    fields.Update(ProductFields(creation));
    r := PrepDataset(fields, listing, records, raster, id);
  }

  /** `int()` of a digit string held under `key`. */
  lemma IntFieldOfDigits(fields: map<string, Value>, key: string, digits: string)
    requires key in fields && fields[key] == Text(digits) && digits != [] && AllDigits(digits)
    ensures IntField(fields, key) == Success(DecimalValue(digits))
  {
  }

  /** The dictionary prepare_datasets hands to prep_dataset. */
  lemma SceneEntriesValues(f: SceneFields, creation: int)
    ensures var entries := SceneEntries(f) + ProductFields(creation);
      && {"path", "row", "level", "type", "creation_dt"} <= entries.Keys
      && entries["path"] == Text(f.path) && entries["row"] == Text(f.row)
      && entries["level"] == Text("sr_refl") && entries["type"] == Text("LEDAPS")
      && entries["creation_dt"] == Time(creation)
  {
  }

  /** The dictionary prep_dataset reads after the loop, for a scene ID `f` and creation date `creation`. */
  lemma SceneFieldsAfterLoop(f: SceneFields, creation: int, records: seq<GlobalMetadata>)
    requires WellFormed(f) && records != [] && AllRead(records)
    ensures var fields := ScanFields(records, SceneEntries(f) + ProductFields(creation));
      && DocumentKeys <= fields.Keys
      && fields["level"] == Text("sr_refl") && fields["type"] == Text("LEDAPS")
      && fields["creation_dt"] == Time(creation)
      && RefPointOf(fields) == Success(RefPoint(DecimalValue(f.path), DecimalValue(f.row)))
  {
    var entries := SceneEntries(f) + ProductFields(creation);
    ScanFieldsKeepsLast(records, entries);
    var fields := ScanFields(records, entries);
    var acquired := AcquisitionFields(ReadRecord(records[|records| - 1]).value);
    assert fields == entries + acquired;
    SceneEntriesKept(f, creation, acquired);
    IntFieldOfDigits(fields, "path", f.path);
    IntFieldOfDigits(fields, "row", f.row);
  }

  /** Updating the scene's dictionary with `instrument` and `satellite` keeps the rest of it. */
  lemma SceneEntriesKept(f: SceneFields, creation: int, acquired: map<string, Value>)
    requires acquired.Keys == {"instrument", "satellite"}
    ensures var fields := SceneEntries(f) + ProductFields(creation) + acquired;
      && DocumentKeys <= fields.Keys
      && fields["path"] == Text(f.path) && fields["row"] == Text(f.row)
      && fields["level"] == Text("sr_refl") && fields["type"] == Text("LEDAPS")
      && fields["creation_dt"] == Time(creation)
  {
    SceneEntriesValues(f, creation);
  }

  /**
   * prepare_datasets succeeds exactly when the stem is a scene ID with a
   * representable creation date, a metadata file is listed, there is at least
   * one global_metadata element and every one reads, and there is at least
   * one GeoTIFF and every GeoTIFF stem has a `_`.
   */
  lemma PreparedSceneSucceeds(name: string, listing: seq<string>, records: seq<GlobalMetadata>,
                              raster: string -> Raster, id: string)
    ensures PreparedScene(name, listing, records, raster, id).Success? <==>
      && ParseSceneId(Stem(name)).Some?
      && CreationDate(ParseSceneId(Stem(name)).value).Success?
      && Metafile(listing).Success?
      && records != [] && AllRead(records)
      && TifNames(listing) != [] && AllBanded(TifNames(listing))
  {
    AcquiredSucceeds(listing, records);
    var scene := ParseSceneId(Stem(name));
    if scene.Some? && CreationDate(scene.value).Success? && Acquired(listing, records).Success? {
      var f := scene.value;
      var creation := CreationDate(f).value;
      var entries := SceneEntries(f) + ProductFields(creation);
      SceneFieldsAfterLoop(f, creation, records);
      AssembleSucceeds(id, Acquired(listing, records).value, ScanFields(records, entries), TifNames(listing), raster);
    }
  }

  /** The prepared scene's product constants, creation date and reference points come from the scene ID. */
  lemma PreparedSceneDocument(name: string, listing: seq<string>, records: seq<GlobalMetadata>,
                              raster: string -> Raster, id: string)
    requires PreparedScene(name, listing, records, raster, id).Success?
    ensures ParseSceneId(Stem(name)).Some? && CreationDate(ParseSceneId(Stem(name)).value).Success?
    ensures var f := ParseSceneId(Stem(name)).value;
      var doc := PreparedScene(name, listing, records, raster, id).value;
      && doc.processingLevel == Text("sr_refl")
      && doc.productType == Text("LEDAPS")
      && doc.creationDt == Time(CreationDate(f).value)
      && doc.satelliteRefPointStart == doc.satelliteRefPointEnd == RefPoint(DecimalValue(f.path), DecimalValue(f.row))
  {
    var f := ParseSceneId(Stem(name)).value;
    var creation := CreationDate(f).value;
    var entries := SceneEntries(f) + ProductFields(creation);
    AcquiredSucceeds(listing, records);
    SceneFieldsAfterLoop(f, creation, records);
    AssembleShape(id, Acquired(listing, records).value, ScanFields(records, entries), TifNames(listing), raster);
  }
}
