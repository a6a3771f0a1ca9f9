/**
 * band_name and the band map of prep_dataset: how a GeoTIFF file name becomes
 * the name of the layer it holds.
 */
module BandNames {
  import opened Wrappers
  import opened Errors
  import opened PyStrings

  /** `PurePath.stem`: the name without its final suffix; a leading dot starts no suffix. */
  function Stem(name: string): (r: string)
    ensures |r| <= |name| && r == name[..|r|]
    ensures '.' !in name ==> r == name
    ensures r == name || (0 < |r| < |name| - 1 && name[|r|] == '.' && '.' !in name[|r| + 1..])
  {
    var i := RFind(name, '.');
    if 0 < i < |name| - 1 then name[..i] else name
  }

  /** The stem of a `.tif` file name is the name without `.tif`. */
  lemma StemOfTif(name: string)
    requires EndsWith(name, ".tif") && |name| > 4
    ensures Stem(name) == name[..|name| - 4]
  {
    var i := RFind(name, '.');
    assert name[|name| - 4] == '.';
    assert name[|name| - 3..] == "tif";
  }

  /** `re.match(r"[Bb]\d+", s)` with ASCII digits: a `B` or `b` followed by a digit. */
  predicate StartsWithBandDigit(s: string) {
    |s| >= 2 && (s[0] == 'B' || s[0] == 'b') && IsDigit(s[1])
  }

  /** The layer name read from a stem; None when the stem has no `_`. */
  function LayerOf(stem: string): (r: Option<string>)
    ensures r.None? <==> '_' !in stem
  {
    var position := Find(stem, '_');
    if position == -1 then None
    else
      var rest := stem[position + 1..];
      if StartsWithBandDigit(rest) then Some(stem[position + 2..]) else Some(rest)
  }

  /** `band_name(path)`: the layer name of a GeoTIFF, or ValueError naming the file. */
  function BandName(path: string): (r: Result<string, Error>)
    ensures r.Failure? <==> '_' !in Stem(path)
    ensures r.Failure? ==> r.error == UnexpectedTif(path)
    ensures r.Success? ==> LayerOf(Stem(path)) == Some(r.value)
  {
    match LayerOf(Stem(path))
    case None => Failure(UnexpectedTif(path))
    case Some(layer) => Success(layer)
  }

  /**
   * For a stem split at its first `_`, the layer is everything after the `_`,
   * less exactly one `B`/`b` when a digit follows it; nothing after the digits
   * is trimmed.
   */
  lemma {:induction false} LayerOfSplit(prefix: string, suffix: string)
    requires '_' !in prefix
    ensures LayerOf(prefix + "_" + suffix) ==
      Some(if StartsWithBandDigit(suffix) then suffix[1..] else suffix)
  {
    var stem := prefix + "_" + suffix;
    var position := Find(stem, '_');
    assert stem[|prefix|] == '_';
    assert stem[..|prefix|] == prefix;
    assert stem[position + 1..] == suffix;
  }

  /** Every stem with a `_` is such a split, at its first `_`. */
  lemma SplitAtFirstUnderscore(stem: string)
    requires '_' in stem
    ensures var p := Find(stem, '_');
      '_' !in stem[..p] && stem == stem[..p] + "_" + stem[p + 1..]
  {
  }

  /** Digits and whatever follows them stay in the layer name. */
  lemma LayerOfBandDigits()
    ensures LayerOf("x_b12extra") == Some("12extra")
  {
    assert "x" + "_" + "b12extra" == "x_b12extra";
    LayerOfSplit("x", "b12extra");
  }

  /** A `B` not followed by a digit is kept. */
  lemma LayerOfBandWord()
    ensures LayerOf("x_Band1") == Some("Band1")
  {
    assert "x" + "_" + "Band1" == "x_Band1";
    LayerOfSplit("x", "Band1");
  }

  /** `path.glob('*.tif')` over a directory listing, in listing order. */
  function TifNames(listing: seq<string>): (r: seq<string>)
    ensures forall name :: name in r <==> name in listing && EndsWith(name, ".tif")
  {
    if listing == [] then []
    else
      assert listing == [listing[0]] + listing[1..];
      (if EndsWith(listing[0], ".tif") then [listing[0]] else []) + TifNames(listing[1..])
  }

  /**
   * A dict comprehension `{key(x): x for x in items}`: items are taken in order,
   * so the first failing key raises and a later item with the same key replaces
   * an earlier one.
   */
  function KeyedBy(items: seq<string>, key: string -> Result<string, Error>): Result<map<string, string>, Error>
  {
    if items == [] then Success(map[])
    else
      var m :- KeyedBy(items[..|items| - 1], key);
      var k :- key(items[|items| - 1]);
      Success(m[k := items[|items| - 1]])
  }

  ghost predicate AllKeyed(items: seq<string>, key: string -> Result<string, Error>) {
    forall i :: 0 <= i < |items| ==> key(items[i]).Success?
  }

  lemma {:induction false} KeyedBySucceeds(items: seq<string>, key: string -> Result<string, Error>)
    ensures KeyedBy(items, key).Success? <==> AllKeyed(items, key)
    ensures KeyedBy(items, key).Failure? ==>
      exists i :: 0 <= i < |items| && key(items[i]).Failure?
        && KeyedBy(items, key).error == key(items[i]).error
        && AllKeyed(items[..i], key)
  {
    if items != [] {
      var n := |items| - 1;
      var init := items[..n];
      KeyedBySucceeds(init, key);
      if KeyedBy(init, key).Failure? {
        var i :| 0 <= i < |init| && key(init[i]).Failure? && KeyedBy(init, key).error == key(init[i]).error
          && AllKeyed(init[..i], key);
        assert init[i] == items[i];
        assert init[..i] == items[..i];
      } else if key(items[n]).Failure? {
        assert items[..n] == init;
      } else {
        assert forall i :: 0 <= i < n ==> init[i] == items[i];
      }
    }
  }

  lemma {:induction false} KeyedByContents(items: seq<string>, key: string -> Result<string, Error>)
    requires AllKeyed(items, key)
    ensures KeyedBy(items, key).Success?
    ensures forall i :: 0 <= i < |items| ==> key(items[i]).value in KeyedBy(items, key).value
    ensures forall k :: k in KeyedBy(items, key).value ==>
      exists i :: (0 <= i < |items| && key(items[i]).value == k && KeyedBy(items, key).value[k] == items[i]
        && forall j :: i < j < |items| ==> key(items[j]).value != k)
  {
    KeyedBySucceeds(items, key);
    if items != [] {
      var n := |items| - 1;
      var init := items[..n];
      assert forall i :: 0 <= i < n ==> init[i] == items[i];
      KeyedByContents(init, key);
      var m := KeyedBy(items, key).value;
      var last := key(items[n]).value;
      assert m == KeyedBy(init, key).value[last := items[n]];
      forall k | k in m
        ensures exists i :: (0 <= i < |items| && key(items[i]).value == k && m[k] == items[i]
          && forall j :: i < j < |items| ==> key(items[j]).value != k)
      {
        if k != last {
          var i :| 0 <= i < |init| && key(init[i]).value == k && KeyedBy(init, key).value[k] == init[i]
            && forall j :: i < j < |init| ==> key(init[j]).value != k;
          assert forall j :: i < j < |items| ==> key(items[j]).value != k;
        } else {
          assert key(items[n]).value == k && m[k] == items[n];
        }
      }
    }
  }

  /** The `images` dict of prep_dataset: band name to GeoTIFF file name. */
  function Bands(images: seq<string>): Result<map<string, string>, Error>
  {
    KeyedBy(images, BandName)
  }

  /** Every image has a band name: by BandName's contract, every stem has a `_`. */
  ghost predicate AllBanded(images: seq<string>) {
    forall i :: 0 <= i < |images| ==> '_' in Stem(images[i])
  }

  /** The band map exists exactly when every image's stem has a `_`; otherwise ValueError names the first bad image. */
  lemma BandsSucceed(images: seq<string>)
    ensures Bands(images).Success? <==> AllBanded(images)
    ensures Bands(images).Failure? ==>
      exists i :: 0 <= i < |images| && '_' !in Stem(images[i])
        && Bands(images).error == UnexpectedTif(images[i])
        && AllBanded(images[..i])
  {
    KeyedBySucceeds(images, BandName);
    if Bands(images).Failure? {
      var i :| 0 <= i < |images| && BandName(images[i]).Failure?
        && Bands(images).error == BandName(images[i]).error
        && AllKeyed(images[..i], BandName);
      assert forall j :: 0 <= j < i ==> images[..i][j] == images[j];
    }
  }

  /**
   * Every image's band is a key, and each key maps to the LAST image of that
   * band; no other keys exist.
   */
  lemma BandsContents(images: seq<string>)
    requires AllBanded(images)
    ensures Bands(images).Success?
    ensures forall i :: 0 <= i < |images| ==> BandName(images[i]).Success? && BandName(images[i]).value in Bands(images).value
    ensures forall band :: band in Bands(images).value ==>
      exists i :: (0 <= i < |images| && BandName(images[i]) == Success(band) && Bands(images).value[band] == images[i]
        && forall j :: i < j < |images| ==> BandName(images[j]) != Success(band))
  {
    KeyedByContents(images, BandName);
  }

  /**
   * `list(images.values())[0]`: the value of the first key inserted, which is
   * the band of the first image; IndexError when there are no images.
   */
  function FirstBandImage(images: seq<string>, bands: map<string, string>): Result<string, Error>
  {
    if images == [] then Failure(NoImages)
    else if BandName(images[0]).Success? && BandName(images[0]).value in bands then
      Success(bands[BandName(images[0]).value])
    else Failure(NoImages)
  }

  /** The image whose projection is read is the last one of the first image's band. */
  lemma FirstBandImageIsLastOfBand(images: seq<string>)
    requires AllBanded(images) && images != []
    ensures Bands(images).Success?
    ensures var r := FirstBandImage(images, Bands(images).value);
      && r.Success?
      && exists i :: (0 <= i < |images| && r.value == images[i] && BandName(images[i]) == BandName(images[0])
           && forall j :: i < j < |images| ==> BandName(images[j]) != BandName(images[0]))
  {
    BandsContents(images);
  }
}
