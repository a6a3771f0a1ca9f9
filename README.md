# usgslsprepare, modelled in Dafny

`usgslsprepare.py` prepares a USGS Landsat surface-reflectance (LEDAPS) dataset
directory for ingestion into the Data Cube. It writes one metadata document per
directory. Most of the script is I/O glue. At its centre is a small set of
string and time rules that decide what goes into the document, and this project
models those rules and proves what they guarantee:

- **Scene IDs.** The directory's stem must start with a Landsat scene ID:
  `LC8`, `LE7` or `LT5`, then path, row, year and julian day as fixed-width
  ASCII digit groups. The match is anchored at the start. Anything after the
  16th character is ignored.
- **Creation date.** January 1 of the product year, parsed through
  `crazy_parse`, plus `julianday` whole days. The code subtracts nothing, so
  julian day 001 gives January 2. The model keeps that.
- **`crazy_parse`.** Parses `YYYYMMDD` + `T` + `HH:MM:SS`. When the plain parse
  raises ValueError and the text ends in `60` (a leap second), it parses the
  text with `00` there and adds one minute. Any other failure is raised
  unchanged.
- **Metadata file.** It is the last listed name ending in `.xml` but not in
  `aux.xml`. With none, `metafile` is unbound.
- **global_metadata loop.** Each element's centre time gives a 24-second
  window, `aos = centre − 12 s` and `los = aos + 24 s`. The ground station is
  `lpgs_metadata_file[16:19]`. Each pass overwrites the loop variables and
  updates the shared `fields` dictionary in place. The document takes the last
  element's values. With no element, `aos` is unbound.
- **Bands.** Each GeoTIFF name is turned into a layer name by `band_name`: the
  text after the stem's first `_`, minus one `B`/`b` when a digit follows it.
  The band map is a dict comprehension over the GeoTIFFs. The projection is
  read from the map's first value.
- **Document.** The document's fields, its identical start and end satellite
  reference points `(int(path), int(row))`, and the corner layout built from a
  raster's bounds.

Every Python exception the rules can raise is a constructor of `Errors.Error`,
and every operation that can raise returns a `Result`. Operations that never
raise, such as `Stem`, `Slice`, `Groundstation`, `CornersOf` and
`GetProjection`, return plain values.

Times are whole seconds since 0001-01-01T00:00:00, Python's `datetime.min`.
`datetime` arithmetic raises OverflowError past 9999-12-31T23:59:59, and so
does `DateTimes.AddSeconds`.

Inputs the script reads from outside are parameters of the model:

- The directory listing is a `seq<string>`. One listing serves both
  `os.listdir` and `path.glob('*.tif')`.
- The ESPA XML becomes the text of each `global_metadata` element's five
  children (`Acquisitions.GlobalMetadata`).
- What rasterio reports for an image is a function `string -> Raster`.
- The UUID is a string.

The modules follow the script's structure:

| module | file | models |
|---|---|---|
| `Wrappers`, `Errors` | `wrappers.dfy`, `errors.dfy` | Option/Result, and the exceptions the script raises |
| `PyStrings` | `py_strings.dfy` | `str.find`/`rfind`, slicing, `replace`, `endswith`, ASCII digits and `int()` of digit strings |
| `DateTimes` | `date_times.dfy` | the proleptic Gregorian calendar, `datetime + timedelta`, and the fixed timestamp shape |
| `BandNames` | `band_names.dfy` | `PurePath.stem`, `band_name`, `glob('*.tif')`, the band map and its first value |
| `Acquisitions` | `acquisitions.dfy` | `crazy_parse`, one pass of the global_metadata loop, and the loop's result |
| `SceneIds` | `scene_ids.dfy` | the scene-ID regular expression and the creation date |
| `Corners` | `corners.dfy` | the `geo_ref_points` layout of `get_projection` |
| `Datasets` | `datasets.dfy` | `prep_dataset` and `prepare_datasets`, the class `Fields` for the shared dictionary, and the two loops as methods |

The loops are methods with loop invariants:

- `Datasets.SelectMetafile` is the listing loop.
- `Datasets.ReadGlobalMetadata` is the global_metadata loop. It updates a
  `Fields` object.

Each method is proved equal to a specification function: `Metafile`,
`Acquisitions.Scan` and `ScanFields`. Those functions' properties are proved as
lemmas.

`Datasets.PrepDataset` and `Datasets.PrepareDatasets` follow the statements of
`prep_dataset` and `prepare_datasets`. They are proved equal to
`PreparedDocument` and `PreparedScene`, so errors are raised in the script's
order.

## Model

| member | source | states |
|---|---|---|
| PyStrings.Find | usgslsprepare.py:31 | `name.find('_')` is -1 exactly when the character is absent; otherwise it is the index of its first occurrence |
| PyStrings.RFind | usgslsprepare.py:30 | the last occurrence of a character, -1 exactly when absent (the suffix dot of `PurePath.stem`) |
| PyStrings.Slice | usgslsprepare.py:99 | a Python slice `s[i:j]` is clipped to the string: length `max(0, min(j, len) − i)`, characters `s[i + k]` |
| PyStrings.LastCharsIsSuffix | usgslsprepare.py:76 | `timestr[-2:] == "60"` exactly when `timestr` ends with `60` |
| PyStrings.Remove | usgslsprepare.py:93 | `replace("-", "")` leaves no `-`, keeps every other character, and changes nothing in a string without `-` |
| PyStrings.RemoveAppend | usgslsprepare.py:93 | `replace("-", "")` of a concatenation is the concatenation of the parts' results; a lone `-` goes and any other lone character stays, so the kept characters keep their order and count |
| PyStrings.DropLast | usgslsprepare.py:78 | definition of `timestr[:-2]`; its meaning is given by the CrazyParseWithLeapSecond and LeapSecondIsNextMinute rows |
| PyStrings.DecimalValue | usgslsprepare.py:132 | `int()` of an n-digit ASCII string is below 10ⁿ |
| PyStrings.Pad | usgslsprepare.py:161 | a number written in a field of fixed width is exactly that many ASCII digits |
| PyStrings.DecimalValueOfPad | usgslsprepare.py:161 | reading a zero-padded number back gives the number, for every number that fits the width |
| PyStrings.PadOfDecimalValue | usgslsprepare.py:161 | rewriting the value of a digit string at its own width gives the string back |
| DateTimes.AddSeconds | usgslsprepare.py:97 | definition of `datetime + timedelta(seconds=d)`: the sum, or OverflowError outside the range; the range's ends are fixed by the RangeEnds row, and ToSecondsInRange shows every valid date and time lies within it |
| DateTimes.RangeEnds | usgslsprepare.py:97 | the range starts at 0001-01-01T00:00:00 (`datetime.min`, second 0) and ends at 9999-12-31T23:59:59 (`datetime.max`), both valid dates and times |
| DateTimes.ToSecondsInRange | usgslsprepare.py:74 | every valid date and time from year 1 to 9999 is an instant within the `datetime` range |
| DateTimes.OrdinalOfNextDay | usgslsprepare.py:78 | the calendar day after a valid date is the next day number, across month and year ends |
| DateTimes.ParseTimestamp | usgslsprepare.py:74 | definition of `parser.parse` on the script's timestamps; its meaning is given by the ParseFieldsOfFormat, FormatOfParseFields, ParseTimestampExactly and ParseTimestampOfFormat rows |
| DateTimes.ParseFieldsOfFormat | usgslsprepare.py:74 | writing the fields as `YYYYMMDDTHH:MM:SS` and reading them gives back every field |
| DateTimes.FormatOfParseFields | usgslsprepare.py:74 | text whose fields read is exactly the writing of those fields, so only that shape is accepted |
| DateTimes.ParseTimestampExactly | usgslsprepare.py:74 | `parser.parse` succeeds exactly when the text is the writing of a valid date and time; the result is that instant; any other text raises ValueError naming it |
| DateTimes.ParseTimestampOfFormat | usgslsprepare.py:74 | every valid date and time parses from its writing to its own instant, which lies within the range |
| Acquisitions.CrazyParse | usgslsprepare.py:72-78 | definition of `crazy_parse`; its meaning is given by the LeapSecondNeverParses, CrazyParseWithoutLeapSecond, CrazyParseWithLeapSecond, LeapSecondIsNextMinute and LeapSecondAtEndOfDay rows |
| Acquisitions.LeapSecondNeverParses | usgslsprepare.py:72-76 | a timestamp ending in `60` never parses directly, because 60 is not a valid second |
| Acquisitions.CrazyParseWithoutLeapSecond | usgslsprepare.py:72-77 | without a trailing `60`, `crazy_parse` is the plain parse; its failure is raised unchanged |
| Acquisitions.CrazyParseWithLeapSecond | usgslsprepare.py:72-78 | with a trailing `60`, `crazy_parse` is the parse of the text with `00` there, plus 60 seconds; a failure of that parse is raised |
| Acquisitions.LeapSecondIsNextMinute | usgslsprepare.py:76-78 | `HH:MM:60` gives the instant 60 s after `HH:MM:00` |
| Acquisitions.NextMinuteAtEndOfDay | usgslsprepare.py:78 | one minute after 23:59:00 is midnight of the next calendar day, or OverflowError on 9999-12-31 |
| Acquisitions.LeapSecondAtEndOfDay | usgslsprepare.py:72-78 | `23:59:60` gives midnight of the next day, or OverflowError on 9999-12-31 |
| Acquisitions.CenterTimestamp | usgslsprepare.py:93-95 | definition of the text `acquisition_date + "T" + scene_center_time` handed to `crazy_parse`; its meaning is given by the RemoveDashes, TimeTextPrefix and CenterTimestampOfText rows |
| Acquisitions.Groundstation | usgslsprepare.py:98-99 | `lpgs_metadata_file[16:19]` never fails; it has length `min(3, max(0, len − 16))` and holds characters 16 onward |
| Acquisitions.AcquisitionWindow | usgslsprepare.py:96-97 | the window exists exactly when `centre − 12 s` and `centre + 12 s` are in range, and otherwise raises OverflowError; `los − aos = 24`, `centre − aos = 12`, `aos ≤ centre ≤ los` |
| Acquisitions.ReadRecord | usgslsprepare.py:90-99 | one pass of the loop: the window facts, the element's satellite and instrument, and the ground-station slice |
| Acquisitions.RemoveDashes | usgslsprepare.py:93 | `replace("-", "")` of digit groups joined by `-` is the groups side by side |
| Acquisitions.TimeTextPrefix | usgslsprepare.py:94 | `scene_center_time[:8]` of `HH:MM:SS` followed by any text is `HH:MM:SS` |
| Acquisitions.CenterTimestampOfText | usgslsprepare.py:93-95 | an `acquisition_date` of `YYYY-MM-DD` and a `scene_center_time` starting `HH:MM:SS` build exactly the `YYYYMMDDTHH:MM:SS` writing of those fields |
| Acquisitions.ReadRecordOfText | usgslsprepare.py:93-97 | an element whose texts write a valid date and time reads exactly when that instant ± 12 s is in range, and its `center_dt` is that instant |
| Acquisitions.ReadRecordOfLeapSecondText | usgslsprepare.py:72-97 | an element whose time text is `HH:MM:60` reads exactly when the instant 60 s after `HH:MM:00`, ± 12 s, is in range, and its `center_dt` is that instant |
| Acquisitions.Scan | usgslsprepare.py:90-103 | definition of the global_metadata loop's effect on `aos`, `los`, `center_dt` and `groundstation`; its meaning is given by the ScanBySucceeds, ScanByKeepsLast, ScanSucceeds and ScanKeepsLast rows |
| Acquisitions.ScanBySucceeds | usgslsprepare.py:90-100 | a loop over elements ends normally exactly when every element reads; otherwise the error raised is that of a failing element with every earlier element reading |
| Acquisitions.ScanByKeepsLast | usgslsprepare.py:90-103 | after a normal end the loop variables hold the last element's values, or their entry values when there is no element |
| Acquisitions.ScanSucceeds | usgslsprepare.py:90-100 | the global_metadata loop ends normally exactly when every element reads; otherwise the first failing element's error is raised |
| Acquisitions.ScanKeepsLast | usgslsprepare.py:90-103 | after the global_metadata loop, `aos`, `los`, `center_dt` and `groundstation` are the last element's |
| BandNames.Stem | usgslsprepare.py:30 | `path.stem` is a prefix of the name; a name without `.` is its own stem; otherwise the stem is the whole name or the part before a last `.` that is neither the first nor the last character |
| BandNames.StemOfTif | usgslsprepare.py:30 | the stem of a `.tif` file name longer than `.tif` is the name without `.tif` |
| BandNames.StartsWithBandDigit | usgslsprepare.py:35 | definition of `re.match(r"[Bb]\d+", …)`: a `B` or `b` followed by a digit at the start; its meaning inside `band_name` is given by the LayerOfSplit, LayerOfBandDigits and LayerOfBandWord rows |
| BandNames.LayerOf | usgslsprepare.py:31-39 | a stem has a layer name exactly when it contains `_` |
| BandNames.BandName | usgslsprepare.py:29-40 | `band_name` raises ValueError naming the file exactly when the stem has no `_`; otherwise it returns the stem's layer name |
| BandNames.LayerOfSplit | usgslsprepare.py:35-40 | for a stem split at its first `_`, the layer is the text after the `_`, less one leading `B`/`b` exactly when a digit follows it |
| BandNames.SplitAtFirstUnderscore | usgslsprepare.py:31 | every stem with a `_` splits at its first `_` into a prefix without `_` and the rest |
| BandNames.LayerOfBandDigits | usgslsprepare.py:35-36 | `x_b12extra` gives `12extra`: nothing after the digits is trimmed |
| BandNames.LayerOfBandWord | usgslsprepare.py:38-39 | `x_Band1` gives `Band1`: a `B` without a digit after it is kept |
| BandNames.TifNames | usgslsprepare.py:106 | `glob('*.tif')` yields exactly the listed names ending in `.tif` |
| BandNames.KeyedBy | usgslsprepare.py:104-106 | definition of a dict comprehension over a list with a key that may raise; its meaning is given by the KeyedBySucceeds and KeyedByContents rows |
| BandNames.Bands | usgslsprepare.py:104-106 | definition of the `images` comprehension keyed by `band_name`; its meaning is given by the BandsSucceed and BandsContents rows |
| BandNames.KeyedBySucceeds | usgslsprepare.py:104-106 | a dict comprehension succeeds exactly when every key succeeds; otherwise the first failing key's error is raised |
| BandNames.KeyedByContents | usgslsprepare.py:104-106 | every item's key is in the dict, and each key maps to the last item with that key |
| BandNames.BandsSucceed | usgslsprepare.py:104-106 | the band map exists exactly when every GeoTIFF stem has a `_`; otherwise ValueError names the first GeoTIFF without one |
| BandNames.BandsContents | usgslsprepare.py:104-106 | every GeoTIFF's band is a key, and each band maps to the last GeoTIFF with that band |
| BandNames.FirstBandImage | usgslsprepare.py:129 | definition of `list(images.values())[0]`, the first key's value in insertion order; its meaning is given by the FirstBandImageIsLastOfBand row |
| BandNames.FirstBandImageIsLastOfBand | usgslsprepare.py:129 | `list(images.values())[0]` exists when there is a GeoTIFF, and it is the last GeoTIFF with the first GeoTIFF's band |
| SceneIds.DigitField | usgslsprepare.py:153-156 | definition of `[0-9]{n}` at the start: the first n characters when they are ASCII digits, and the rest; its meaning within the pattern is given by the ParseSceneIdExactly and ParseSceneIdOfText rows |
| SceneIds.MissionCode | usgslsprepare.py:152 | definition of the `code` group at the start: the first three characters when they are `LC8`, `LE7` or `LT5`, and the rest; its meaning within the pattern is given by the ParseSceneIdExactly and ParseSceneIdOfText rows |
| SceneIds.ParseSceneId | usgslsprepare.py:150-158 | every match has a mission code and digit groups of widths 3, 3, 4 and 3 |
| SceneIds.ParseSceneIdExactly | usgslsprepare.py:150-158 | the pattern matches exactly when the stem starts with a mission code and 13 ASCII digits; the groups are then `stem[0:3]`, `stem[3:6]`, `stem[6:9]`, `stem[9:13]` and `stem[13:16]` |
| SceneIds.ParseSceneIdOfText | usgslsprepare.py:150-158 | a scene ID followed by any text matches and gives back its groups |
| SceneIds.CreationDate | usgslsprepare.py:161 | definition of `crazy_parse(productyear + '0101T00:00:00') + timedelta(days=int(julianday))`; its meaning is given by the NewYearTextIsFormat, CreationDateIsNewYearPlusDays and CreationDateInJanuary rows |
| SceneIds.NewYearText | usgslsprepare.py:161 | definition of `productyear + '0101T00:00:00'`; its meaning is given by the NewYearTextIsFormat row |
| SceneIds.NewYearTextIsFormat | usgslsprepare.py:161 | `productyear + '0101T00:00:00'` is the writing of January 1 of that year, midnight |
| SceneIds.CreationDateIsNewYearPlusDays | usgslsprepare.py:161 | `creation_dt` is January 1 of the product year plus `julianday` × 86400 s; year 0000 raises ValueError naming the text; a result past 9999-12-31 raises OverflowError |
| SceneIds.CreationDateInJanuary | usgslsprepare.py:161 | julian day d ≤ 030 gives January d + 1, so 001 gives January 2 |
| Corners.CornersOf | usgslsprepare.py:45-53 | definition of the `geo_ref_points` layout built from `img.bounds`; its meaning is given by the CornersKeepBounds and RectangleIsLayout rows |
| Corners.CornersKeepBounds | usgslsprepare.py:45-53 | the corners built from `(left, bottom, right, top)` form an axis-aligned rectangle that gives back all four bounds |
| Corners.RectangleIsLayout | usgslsprepare.py:45-53 | every axis-aligned rectangle of corners is the layout of its own bounds |
| Datasets.Fields.constructor | usgslsprepare.py:150-158 | `fields` starts out as the dictionary it is given |
| Datasets.Fields.Update | usgslsprepare.py:100 | `fields.update(d)` adds or overwrites the keys of `d` and keeps the others |
| Datasets.Lookup | usgslsprepare.py:110-114 | definition of `fields[key]` and its KeyError; its meaning is given by the DescribedSucceeds row |
| Datasets.IntField | usgslsprepare.py:132-133 | definition of `int(fields[key])`: KeyError for an absent key, ValueError for text that is not a non-empty string of ASCII digits; its meaning is given by the AssembleSucceeds and SceneFieldsAfterLoop rows |
| Datasets.IsMetafileName | usgslsprepare.py:84 | definition of `file.endswith(".xml") and (not file.endswith('aux.xml'))`; its meaning is given by the MetafileIsLastQualifying row |
| Datasets.Metafile | usgslsprepare.py:83-85 | definition of the name left in `metafile` by the listing loop, or UnboundLocalError; its meaning is given by the MetafileIsLastQualifying and SelectMetafile rows |
| Datasets.MetafileIsLastQualifying | usgslsprepare.py:83-85 | no metadata file exactly when no listed name ends in `.xml` without ending in `aux.xml`; otherwise the chosen file is such a name with no such name after it |
| Datasets.SelectMetafile | usgslsprepare.py:83-85 | the listing loop leaves in `metafile` the last qualifying name, or leaves it unbound |
| Datasets.AcquisitionFields | usgslsprepare.py:100 | definition of `{'instrument': instrument, 'satellite': satellite}`; its meaning is given by the ScanFieldsKeepsLast row |
| Datasets.UpdatedBy | usgslsprepare.py:90-100 | definition of a loop that updates a dictionary once per element until an element raises; its meaning is given by the UpdatedByKeepsLast row |
| Datasets.ScanFields | usgslsprepare.py:90-100 | definition of `fields` after the global_metadata loop; its meaning is given by the ScanFieldsKeepsLast and ReadGlobalMetadata rows |
| Datasets.UpdatedByKeepsLast | usgslsprepare.py:90-100 | when every element reads and every update has the same keys, the dictionary after the loop is its entry value updated by the last element only |
| Datasets.ScanFieldsKeepsLast | usgslsprepare.py:90-100 | after a normal end, `fields` holds the last element's `instrument` and `satellite`, and every other key keeps its entry value |
| Datasets.ReadGlobalMetadata | usgslsprepare.py:90-100 | the loop's outcome is `Scan`'s, and `fields` ends as `ScanFields` of its entry value, including the passes that ran before a failing element |
| Datasets.Acquired | usgslsprepare.py:83-103 | definition of the metadata file choice plus the global_metadata loop, up to `start_time`/`end_time`; its meaning is given by the AcquiredSucceeds row |
| Datasets.AcquiredSucceeds | usgslsprepare.py:83-103 | the loop variables are bound exactly when a metadata file is listed and at least one element is present and every element reads; they then hold the last element's values; with no metadata file the error is UnboundLocalError for `metafile`, with no element for `aos` |
| Datasets.Described | usgslsprepare.py:110-114 | definition of the five lookups in the dict literal's order; its meaning is given by the DescribedSucceeds row |
| Datasets.DescribedSucceeds | usgslsprepare.py:110-114 | the five lookups succeed exactly when all five keys are present, and give their values; otherwise KeyError names the first absent key in the order `level`, `type`, `creation_dt`, `satellite`, `instrument` |
| Datasets.GetProjection | usgslsprepare.py:43-54 | definition of `get_projection` on the raster's CRS text and bounds; its corner layout is given by the Corners.CornersKeepBounds and Corners.RectangleIsLayout rows |
| Datasets.Assemble | usgslsprepare.py:104-134 | definition of the document built after the loop, its lookups in the dict literal's order; its meaning is given by the DescribedSucceeds and AssembleSucceeds rows |
| Datasets.RefPointOf | usgslsprepare.py:132-133 | definition of `{'path': int(fields["path"]), 'row': int(fields["row"])}`; its meaning is given by the AssembleSucceeds and SceneFieldsAfterLoop rows |
| Datasets.AssembleSucceeds | usgslsprepare.py:104-134 | the document is built exactly when the band map exists, there is a GeoTIFF, the five keys are present and `path` and `row` convert |
| Datasets.PreparedDocument | usgslsprepare.py:81-140 | definition of `prep_dataset`'s outcome; its meaning is given by the AcquiredSucceeds, AssembleSucceeds and PreparedDocumentShape rows |
| Datasets.PrepDataset | usgslsprepare.py:81-140 | `prep_dataset` returns `PreparedDocument` of the entry `fields`; `fields` ends updated by the loop whenever a metadata file was found, and unchanged otherwise |
| Datasets.PreparedDocumentShape | usgslsprepare.py:95-134 | a prepared document has `center_dt`, `aos` and `los` of the last element's read (tied to its texts by ReadRecordOfText), and `from_dt = aos`, `to_dt = los`, `los − aos = 24 s`, `centre − aos = 12 s`; the last element's satellite, instrument and ground station; equal start and end reference points; the band map; and the projection of its first value |
| Datasets.PreparedScene | usgslsprepare.py:148-163 | definition of `prepare_datasets`' outcome; its meaning is given by the PreparedSceneSucceeds and PreparedSceneDocument rows |
| Datasets.PrepareDatasets | usgslsprepare.py:148-163 | `prepare_datasets` returns `PreparedScene`: no scene ID raises, then the creation date, then `prep_dataset` on the scene's fields |
| Datasets.SceneEntries | usgslsprepare.py:150-158 | definition of `groupdict()` of the scene-ID match; its meaning is given by the SceneFieldsAfterLoop and PreparedSceneDocument rows |
| Datasets.ProductFields | usgslsprepare.py:161 | definition of the `level`, `type` and `creation_dt` entries added to `fields`; its meaning is given by the SceneFieldsAfterLoop and PreparedSceneDocument rows |
| Datasets.SceneFieldsAfterLoop | usgslsprepare.py:158-161 | after the loop, `fields` still holds `sr_refl`, `LEDAPS`, the creation date and all five document keys, and `path`/`row` convert to their decimal values |
| Datasets.PreparedSceneSucceeds | usgslsprepare.py:148-163 | `prepare_datasets` succeeds exactly when the stem is a scene ID, its creation date is in range, a metadata file is listed, at least one element is present and every element reads, and there is at least one GeoTIFF and every GeoTIFF stem has a `_` |
| Datasets.PreparedSceneDocument | usgslsprepare.py:110-161 | a prepared scene's document has level `sr_refl`, type `LEDAPS`, the creation date, and start and end reference points equal to `(int(path), int(row))` of the scene ID |

## Left out

- XML parsing with ElementTree (usgslsprepare.py:87-98). The model takes each `global_metadata` element's five child texts as input. The AttributeError that `.find(...).text` raises for a missing child is not modelled, nor is the TypeError raised when an empty child's `.text` is None and is sliced: `scene_center_time`'s `[:8]` (usgslsprepare.py:94) and `lpgs_metadata_file`'s `[16:19]` (usgslsprepare.py:99).
- `os.listdir` and `Path.glob` are a single input listing, so the model assumes `glob('*.tif')` yields the `.tif` names in `os.listdir` order; Python guarantees neither order. BandNames.BandsContents and BandNames.FirstBandImageIsLastOfBand depend on that order.
- `get_projection` keeps only its corner layout and takes the CRS text and bounds as input. rasterio is not modelled, and neither are `get_coords`/`populate_coord` (osr's geodesy in floating point).
- The band map's value `{'path': name}` is modelled as the file name alone.
- `uuid.uuid4()` is random, so the id is a parameter.
- YAML output, logging and the click `main` loop are I/O. `prepare_datasets` returns its document, without the `(nbar, nbar_path)` pair.
- `_STATIONS` (usgslsprepare.py:21-26) is never referenced.
- `dataset_folder` (usgslsprepare.py:143-145) is never called.
- The bare `timedelta(days=...)` statement at usgslsprepare.py:160 has no effect.
- DateTimes.ParseTimestamp: dateutil's general parser is not modelled, only the `YYYYMMDDTHH:MM:SS` shape the script builds. For example, a `scene_center_time` shorter than 8 characters, or not zero-padded, is rejected here but may be accepted by dateutil.
- Fractional seconds are not modelled. `scene_center_time[:8]` drops them before parsing anyway.
- `str()` rendering of datetimes in the document is not modelled. The document holds instants.
- PyStrings.IsDigit covers ASCII digits only, by choice of model. Python's `\d` in `band_name` (usgslsprepare.py:35) also matches other Unicode decimal digits, and it runs on arbitrary GeoTIFF names: for `x_B١.tif` Python gives `١`, the model gives `B١`. DateTimes.ParseFields likewise reads only ASCII digits from the XML date and time texts. The scene-ID groups that `int()` converts come from `[0-9]` patterns and are ASCII anyway; `int()`'s signs and surrounding whitespace are not modelled.
- The document's `'lineage': {'source_datasets': {}}` entry (usgslsprepare.py:137) is a constant empty dictionary and is not carried by `Document`.
