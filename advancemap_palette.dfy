/** The Advance Map 1.92 palette importer (`AdvanceMapParser::parsePalette`):
    a `.pal` file is a run of 4-byte records, red, green and blue followed
    by one byte the importer does not use. */
module AdvanceMapPalette {
  import opened Wrappers
  import opened AdvanceMapBytes

  /** One palette entry, the three channels `qRgb` packs. */
  datatype Color = Color(red: byte, green: byte, blue: byte)

  /** The colour whose record starts at offset `i`. */
  function ColorAt(data: Bytes, i: nat): Color
    requires i + 4 <= |data|
  {
    Color(data[i], data[i + 1], data[i + 2])
  }

  /** The colours of the first `n` records, appended one record at a time. */
  function Colors(data: Bytes, n: nat): (colors: seq<Color>)
    requires 4 * n <= |data|
    ensures |colors| == n
    ensures forall k :: 0 <= k < n ==> colors[k] == ColorAt(data, 4 * k)
  {
    if n == 0 then [] else Colors(data, n - 1) + [ColorAt(data, 4 * (n - 1))]
  }

  /** The palette a `.pal` file decodes to, or why it is rejected. */
  function DecodePalette(data: Bytes): Result<seq<Color>>
  {
    if |data| % 4 != 0 then Err(UnexpectedFormat) else Ok(Colors(data, |data| / 4))
  }

  /** A file is rejected exactly when its length is not a multiple of 4;
      otherwise colour `k` is bytes `4k`, `4k + 1` and `4k + 2` of record `k`. */
  lemma PaletteDecoding(data: Bytes)
    ensures DecodePalette(data).Err? <==> |data| % 4 != 0
    ensures DecodePalette(data).Err? ==> DecodePalette(data).error == UnexpectedFormat
    ensures DecodePalette(data).Ok? ==>
      var colors := DecodePalette(data).value;
      && 4 * |colors| == |data|
      && forall k :: 0 <= k < |colors| ==>
        colors[k] == Color(data[4 * k], data[4 * k + 1], data[4 * k + 2])
  {
  }

  /** An empty file is an empty palette. */
  lemma EmptyPalette()
    ensures DecodePalette([]) == Ok([])
  {
  }

  /** The fourth byte of every record is ignored: files that agree on the
      other three bytes of every record decode alike. */
  lemma {:induction false} FourthByteIgnored(data: Bytes, other: Bytes, n: nat)
    requires |data| == |other| && 4 * n <= |data|
    requires forall k :: 0 <= k < n ==>
      data[4 * k] == other[4 * k] && data[4 * k + 1] == other[4 * k + 1] && data[4 * k + 2] == other[4 * k + 2]
    ensures Colors(data, n) == Colors(other, n)
  {
    if n > 0 {
      FourthByteIgnored(data, other, n - 1);
      assert ColorAt(data, 4 * (n - 1)) == ColorAt(other, 4 * (n - 1));
    }
  }

  // ----- The inverse: writing a palette -----

  /** The record a colour is written as, its unused fourth byte zero. */
  function ColorBytes(c: Color): (bs: Bytes)
    ensures |bs| == 4
  {
    [c.red, c.green, c.blue, 0]
  }

  /** A `.pal` file holding `colors`, one record each. */
  function EncodePalette(colors: seq<Color>): (data: Bytes)
    ensures |data| == 4 * |colors|
  {
    if colors == [] then [] else EncodePalette(colors[..|colors| - 1]) + ColorBytes(colors[|colors| - 1])
  }

  /** Every record of an encoded palette holds the colour written there. */
  lemma {:induction false} EncodedRecords(colors: seq<Color>)
    ensures forall k :: 0 <= k < |colors| ==> ColorAt(EncodePalette(colors), 4 * k) == colors[k]
  {
    if colors != [] {
      var init, last := colors[..|colors| - 1], colors[|colors| - 1];
      EncodedRecords(init);
      var data := EncodePalette(colors);
      assert data == EncodePalette(init) + ColorBytes(last);
      forall k | 0 <= k < |colors|
        ensures ColorAt(data, 4 * k) == colors[k]
      {
        if k < |init| {
          assert ColorAt(EncodePalette(init), 4 * k) == init[k];
        }
      }
    }
  }

  /** Decoding an encoded palette gives the palette back. */
  lemma PaletteRoundTrip(colors: seq<Color>)
    ensures DecodePalette(EncodePalette(colors)) == Ok(colors)
  {
    var data := EncodePalette(colors);
    EncodedRecords(colors);
    assert |data| % 4 == 0 && |data| / 4 == |colors|;
    assert Colors(data, |colors|) == colors;
  }

  // ----- The importer -----

  /** `AdvanceMapParser::parsePalette`: decodes the file's contents (`None`
      when it could not be opened). */
  method ParsePalette(file: Option<Bytes>) returns (r: Result<seq<Color>>)
    ensures file.None? ==> r == Err(CouldNotOpen)
    ensures file.Some? ==> r == DecodePalette(file.value)
  {
    if file.None? {
      return Err(CouldNotOpen);
    }
    var data := file.value;
    if |data| % 4 != 0 {
      return Err(UnexpectedFormat);
    }
    var palette: seq<Color> := [];
    var i := 0;
    while i < |data|
      invariant i == 4 * |palette| <= |data|
      invariant palette == Colors(data, |palette|)
      decreases |data| - i
    {
      var red := data[i + 0];
      var green := data[i + 1];
      var blue := data[i + 2];
      palette := palette + [Color(red, green, blue)];
      i := i + 4;
    }
    return Ok(palette);
  }
}
