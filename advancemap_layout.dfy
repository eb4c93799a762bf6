/** The Advance Map 1.92 `.map` importer (`AdvanceMapParser::parseLayout`).

    A `.map` file starts with a 20-byte little-endian header: map width (0..3),
    map height (4..7), primary and secondary tileset indices (8..11, 12..15),
    border width (16) and border height (17).  Two variants exist and nothing
    in the file names them:
      - FRLG: the header border size is non-zero and the border words follow
        the header, then the map words;
      - RSE: the header border size is zero, the map words follow the header,
        and a border may sit at the end of the file, its width and height in
        the last 4 bytes.
    Either variant may carry a second copy of the map, which is ignored. */
module AdvanceMapLayout {
  import opened Wrappers
  import opened AdvanceMapBytes

  /** What the importer hands back: a `Layout` with its block data and, when
      one was found, its border. */
  datatype Layout = Layout(
    width: int,
    height: int,
    borderWidth: int,
    borderHeight: int,
    primaryTilesetLabel: string,
    secondaryTilesetLabel: string,
    blockdata: seq<uint16>,
    border: Option<seq<uint16>>)

  /** The project state the importer consults: its tileset label lists and
      defaults, and the border size used when a file declares none. */
  datatype ProjectContext = ProjectContext(
    tilesetLabelsOrdered: seq<string>,
    primaryTilesetLabels: seq<string>,
    secondaryTilesetLabels: seq<string>,
    defaultPrimaryTilesetLabel: string,
    defaultSecondaryTilesetLabel: string,
    defaultBorderWidth: int,
    defaultBorderHeight: int)

  // ----- The header -----

  function MapWidth(data: Bytes): nat
    requires |data| >= 20
  {
    Le32(data, 0)
  }

  function MapHeight(data: Bytes): nat
    requires |data| >= 20
  {
    Le32(data, 4)
  }

  function PrimaryTilesetNum(data: Bytes): nat
    requires |data| >= 20
  {
    Le32(data, 8)
  }

  function SecondaryTilesetNum(data: Bytes): nat
    requires |data| >= 20
  {
    Le32(data, 12)
  }

  /** Metatiles in the map grid (`mapWidth * mapHeight`). */
  function MapArea(data: Bytes): nat
    requires |data| >= 20
  {
    var w, h := MapWidth(data), MapHeight(data);
    ProductIsNat(w, h);
    w * h
  }

  /** Border tiles declared by the header: zero in RSE files. */
  function HeaderBorderTiles(data: Bytes): nat
    requires |data| >= 20
  {
    var bw, bh: nat := data[16], data[17];
    ProductIsNat(bw, bh);
    bw * bh
  }

  lemma ProductIsNat(a: nat, b: nat)
    ensures a * b >= 0
  {
  }

  /** Where the map words start: after the header and, in FRLG files, after
      the border words. */
  function MapDataOffset(data: Bytes): nat
    requires |data| >= 20
  {
    20 + 2 * HeaderBorderTiles(data)
  }

  /** Where the first copy of the map words ends. */
  function MapDataEnd(data: Bytes): nat
    requires |data| >= 20
  {
    MapDataOffset(data) + 2 * (MapArea(data))
  }

  // ----- The RSE trailing border -----

  /** The border width an RSE file may store in its last 4 bytes. */
  function TailBorderWidth(data: Bytes): uint16
    requires |data| >= 4
  {
    Le16(data, |data| - 4)
  }

  /** The border height an RSE file may store in its last 2 bytes. */
  function TailBorderHeight(data: Bytes): uint16
    requires |data| >= 4
  {
    Le16(data, |data| - 2)
  }

  /** Border tiles the tail pair declares. */
  function TailBorderTiles(data: Bytes): nat
    requires |data| >= 4
  {
    var bw, bh: nat := TailBorderWidth(data), TailBorderHeight(data);
    ProductIsNat(bw, bh);
    bw * bh
  }

  /** Where a trailing border of the size the tail declares would start. */
  function RseBorderOffset(data: Bytes): int
    requires |data| >= 4
  {
    |data| - (2 * TailBorderTiles(data) + 4)
  }

  /** The importer trusts the tail of an RSE file when there is room for it
      after the first map and the border it declares does not reach back into
      that map. */
  predicate RseTailAccepted(data: Bytes)
    requires |data| >= 20
  {
    && HeaderBorderTiles(data) == 0
    && |data| >= MapDataEnd(data) + 4
    && RseBorderOffset(data) >= MapDataEnd(data)
  }

  /** The importer computes sizes in 32-bit signed `int`; this model uses
      unbounded integers. This bound holds exactly when none of those size
      computations wraps around:
      - the width, height, map size and `mapDataEnd` of every header of an
        accepted size;
      - in an RSE file holding the first map, `mapDataEnd + 4`, and, when the
        tail is present, the size of the border it declares;
      - the doubled map size, which is computed only for an FRLG file holding
        the first map and for an RSE file whose tail is accepted.
      The tileset indices are not bounded. An index whose top byte is 0x80
      or more is negative in the importer and so falls back to the default
      label; the model falls back too, because such an index is at least 2^31,
      past the end of any list a `QList` can hold. */
  predicate FitsInInt(data: Bytes)
  {
    && |data| <= INT_MAX
    && (|data| >= 20 && |data| % 2 == 0 ==>
          && MapWidth(data) <= INT_MAX
          && MapHeight(data) <= INT_MAX
          && MapDataEnd(data) <= INT_MAX
          && (HeaderBorderTiles(data) == 0 && |data| >= MapDataEnd(data) ==>
                MapDataEnd(data) + 4 <= INT_MAX)
          && (HeaderBorderTiles(data) == 0 && |data| >= MapDataEnd(data) + 4 ==>
                2 * TailBorderTiles(data) + 4 <= INT_MAX)
          && (|data| >= MapDataEnd(data) && (HeaderBorderTiles(data) != 0 || RseTailAccepted(data)) ==>
                MapDataOffset(data) + 4 * MapArea(data) <= INT_MAX))
  }

  // ----- Tileset labels -----

  /** The label a tileset index resolves to: the entry of the ordered label
      list when the index is in range and that entry belongs to the slot's own
      label list, and the slot's default otherwise. */
  function ResolveTilesetLabel(ordered: seq<string>, index: nat, slotLabels: seq<string>,
                               fallback: string): (resolved: string)
    ensures resolved == fallback || resolved in slotLabels
    ensures index < |ordered| && ordered[index] in slotLabels ==> resolved == ordered[index]
    ensures !(index < |ordered| && ordered[index] in slotLabels) ==> resolved == fallback
  {
    var candidate := if index < |ordered| then ordered[index] else fallback;
    if candidate in slotLabels then candidate else fallback
  }

  // ----- The decoder, as a function of the file contents -----

  /** The border width, height and words a file declares: FRLG files in the
      header, RSE files (when the tail is accepted) in their last 4 bytes.
      Otherwise the header's sizes stand (one of them is zero) with no words. */
  function DeclaredBorder(data: Bytes): (nat, nat, seq<uint16>)
    requires 20 <= |data| && MapDataEnd(data) <= |data|
  {
    if HeaderBorderTiles(data) != 0 then
      (data[16] as nat, data[17] as nat, Words(data, 20, HeaderBorderTiles(data)))
    else if RseTailAccepted(data) then
      (TailBorderWidth(data) as nat, TailBorderHeight(data) as nat,
       Words(data, RseBorderOffset(data), TailBorderTiles(data)))
    else
      (data[16] as nat, data[17] as nat, [])
  }

  /** The layout a `.map` file decodes to, or why it is rejected. */
  function DecodeLayout(data: Bytes, ctx: ProjectContext): (r: Result<Layout>)
    requires FitsInInt(data)
  {
    if |data| < 20 || |data| % 2 != 0 then Err(UnexpectedSize)
    else if |data| < MapDataEnd(data) then Err(TooLittleData)
    else
      var (bw, bh, border) := DeclaredBorder(data);
      Ok(Layout(
        MapWidth(data),
        MapHeight(data),
        if bw == 0 then ctx.defaultBorderWidth else bw,
        if bh == 0 then ctx.defaultBorderHeight else bh,
        ResolveTilesetLabel(ctx.tilesetLabelsOrdered, PrimaryTilesetNum(data),
                            ctx.primaryTilesetLabels, ctx.defaultPrimaryTilesetLabel),
        ResolveTilesetLabel(ctx.tilesetLabelsOrdered, SecondaryTilesetNum(data),
                            ctx.secondaryTilesetLabels, ctx.defaultSecondaryTilesetLabel),
        Words(data, MapDataOffset(data), MapArea(data)),
        if border == [] then None else Some(border)))
  }

  // ----- What the decoder promises -----

  /** A file is rejected exactly when it is shorter than the header, of odd
      length, or shorter than the border and map its header declares. */
  lemma LayoutRejection(data: Bytes, ctx: ProjectContext)
    requires FitsInInt(data)
    ensures DecodeLayout(data, ctx).Err? <==>
      |data| < 20 || |data| % 2 != 0 || |data| < MapDataEnd(data)
    ensures DecodeLayout(data, ctx) == Err(UnexpectedSize) <==> |data| < 20 || |data| % 2 != 0
    ensures DecodeLayout(data, ctx) == Err(TooLittleData) <==>
      20 <= |data| && |data| % 2 == 0 && |data| < MapDataEnd(data)
  {
  }

  /** A bare header declaring a 0x8000 by 0x4000 map: its sizes fit in `int`,
      and it is rejected for having too little data. Doubling its map size
      would wrap, but the importer never gets that far. */
  lemma LargeHeaderRejected(ctx: ProjectContext)
    ensures var data: Bytes := [0, 0x80, 0, 0, 0, 0x40, 0, 0] + seq(12, _ => 0);
      FitsInInt(data) && DecodeLayout(data, ctx) == Err(TooLittleData)
  {
    var data: Bytes := [0, 0x80, 0, 0, 0, 0x40, 0, 0] + seq(12, _ => 0);
    assert MapWidth(data) == 0x8000 && MapHeight(data) == 0x4000 by {
      assert data[..4] == [0, 0x80, 0, 0] && data[4..8] == [0, 0x40, 0, 0];
    }
    assert HeaderBorderTiles(data) == 0;
  }

  /** An accepted file yields `width * height` block words, word `k` being the
      little-endian word at `mapDataOffset + 2k`, and the header's dimensions. */
  lemma LayoutBlockdata(data: Bytes, ctx: ProjectContext)
    requires FitsInInt(data) && DecodeLayout(data, ctx).Ok?
    ensures var layout := DecodeLayout(data, ctx).value;
      && layout.width == Le32(data, 0)
      && layout.height == Le32(data, 4)
      && |layout.blockdata| == layout.width * layout.height
      && forall k :: 0 <= k < |layout.blockdata| ==>
           layout.blockdata[k] == Le16(data, MapDataOffset(data) + 2 * k)
  {
    var layout := DecodeLayout(data, ctx).value;
    assert layout.blockdata == Words(data, MapDataOffset(data), MapArea(data));
  }

  /** FRLG files: the border is the header's `borderWidth * borderHeight`
      words, read right after the 20-byte header. */
  lemma FrlgBorder(data: Bytes, ctx: ProjectContext)
    requires FitsInInt(data) && DecodeLayout(data, ctx).Ok? && HeaderBorderTiles(data) != 0
    ensures var layout := DecodeLayout(data, ctx).value;
      && layout.borderWidth == data[16]
      && layout.borderHeight == data[17]
      && layout.border.Some?
      && |layout.border.value| == HeaderBorderTiles(data)
      && forall k :: 0 <= k < |layout.border.value| ==> layout.border.value[k] == Le16(data, 20 + 2 * k)
  {
    var layout := DecodeLayout(data, ctx).value;
    assert layout.border == Some(Words(data, 20, HeaderBorderTiles(data)));
  }

  /** RSE files: a border is produced exactly when the tail pair fits after
      the first map and declares a non-empty border; it is then the whole
      declared border, ending 4 bytes before the end of the file, and it
      never overlaps the first map.  There is never a partial border. */
  lemma RseBorder(data: Bytes, ctx: ProjectContext)
    requires FitsInInt(data) && DecodeLayout(data, ctx).Ok? && HeaderBorderTiles(data) == 0
    ensures var layout := DecodeLayout(data, ctx).value;
      layout.border.Some? <==>
        && |data| >= MapDataEnd(data) + 4
        && TailBorderTiles(data) > 0
        && |data| - (2 * TailBorderTiles(data) + 4) >= MapDataEnd(data)
    ensures var layout := DecodeLayout(data, ctx).value;
      layout.border.Some? ==>
        && layout.borderWidth == TailBorderWidth(data)
        && layout.borderHeight == TailBorderHeight(data)
        && |layout.border.value| == TailBorderTiles(data)
        && MapDataEnd(data) <= RseBorderOffset(data)
        && RseBorderOffset(data) + 2 * |layout.border.value| == |data| - 4
        && forall k :: 0 <= k < |layout.border.value| ==>
             layout.border.value[k] == Le16(data, RseBorderOffset(data) + 2 * k)
  {
  }

  /** A border dimension of zero is replaced by the project's default, so
      with positive defaults an imported layout never has an empty border
      dimension; an RSE file whose tail is not trusted keeps the header's
      sizes. */
  lemma BorderDefaults(data: Bytes, ctx: ProjectContext)
    requires FitsInInt(data) && DecodeLayout(data, ctx).Ok?
    ensures var layout := DecodeLayout(data, ctx).value;
      var (bw, bh, _) := DeclaredBorder(data);
      && layout.borderWidth == (if bw == 0 then ctx.defaultBorderWidth else bw)
      && layout.borderHeight == (if bh == 0 then ctx.defaultBorderHeight else bh)
    ensures var layout := DecodeLayout(data, ctx).value;
      HeaderBorderTiles(data) == 0 && !RseTailAccepted(data) ==>
        && layout.border == None
        && layout.borderWidth == (if data[16] == 0 then ctx.defaultBorderWidth else data[16])
        && layout.borderHeight == (if data[17] == 0 then ctx.defaultBorderHeight else data[17])
    ensures var layout := DecodeLayout(data, ctx).value;
      ctx.defaultBorderWidth > 0 && ctx.defaultBorderHeight > 0 ==>
        layout.borderWidth > 0 && layout.borderHeight > 0
  {
  }

  /** Tileset labels: an index that is out of range, or that resolves to a
      label outside the slot's own label list, gives the slot's default. */
  lemma TilesetLabels(data: Bytes, ctx: ProjectContext)
    requires FitsInInt(data) && DecodeLayout(data, ctx).Ok?
    ensures var layout := DecodeLayout(data, ctx).value;
      var p, q := PrimaryTilesetNum(data), SecondaryTilesetNum(data);
      && (p < |ctx.tilesetLabelsOrdered| && ctx.tilesetLabelsOrdered[p] in ctx.primaryTilesetLabels ==>
            layout.primaryTilesetLabel == ctx.tilesetLabelsOrdered[p])
      && (!(p < |ctx.tilesetLabelsOrdered| && ctx.tilesetLabelsOrdered[p] in ctx.primaryTilesetLabels) ==>
            layout.primaryTilesetLabel == ctx.defaultPrimaryTilesetLabel)
      && (q < |ctx.tilesetLabelsOrdered| && ctx.tilesetLabelsOrdered[q] in ctx.secondaryTilesetLabels ==>
            layout.secondaryTilesetLabel == ctx.tilesetLabelsOrdered[q])
      && (!(q < |ctx.tilesetLabelsOrdered| && ctx.tilesetLabelsOrdered[q] in ctx.secondaryTilesetLabels) ==>
            layout.secondaryTilesetLabel == ctx.defaultSecondaryTilesetLabel)
  {
  }

  /** FRLG files: the result depends only on the bytes before the end of the
      first map, so a trailing duplicate map (or anything else after the
      first map) never changes it. */
  lemma FrlgIgnoresTrailingData(data: Bytes, other: Bytes, ctx: ProjectContext)
    requires FitsInInt(data) && FitsInInt(other)
    requires |data| >= 20 && HeaderBorderTiles(data) != 0
    requires MapDataEnd(data) <= |data| && MapDataEnd(data) <= |other|
    requires other[..MapDataEnd(data)] == data[..MapDataEnd(data)]
    requires |data| % 2 == 0 && |other| % 2 == 0
    ensures DecodeLayout(other, ctx) == DecodeLayout(data, ctx)
  {
    var end := MapDataEnd(data);
    forall k | 0 <= k < end
      ensures other[k] == data[k]
    {
      assert other[k] == other[..end][k];
    }
    assert MapDataEnd(other) == end;
    WordsFrame(data, other, 20, HeaderBorderTiles(data));
    WordsFrame(data, other, MapDataOffset(data), MapArea(data));
  }

  // ----- Writing .map files: the decoder's inverse -----

  /** The 20-byte header: width, height and the two tileset indices as
      little-endian 32-bit words, then the border size bytes and two unused
      bytes. */
  function HeaderBytes(width: nat, height: nat, primaryNum: nat, secondaryNum: nat,
                       borderWidth: byte, borderHeight: byte): (bs: Bytes)
    requires width < 0x1_0000_0000 && height < 0x1_0000_0000
    requires primaryNum < 0x1_0000_0000 && secondaryNum < 0x1_0000_0000
    ensures |bs| == 20
  {
    Le32Bytes(width) + Le32Bytes(height) + Le32Bytes(primaryNum) + Le32Bytes(secondaryNum)
      + [borderWidth, borderHeight, 0, 0]
  }

  /** Reading the header back gives the values written. */
  lemma ReadHeaderBytes(width: nat, height: nat, primaryNum: nat, secondaryNum: nat,
                        borderWidth: byte, borderHeight: byte)
    requires width < 0x1_0000_0000 && height < 0x1_0000_0000
    requires primaryNum < 0x1_0000_0000 && secondaryNum < 0x1_0000_0000
    ensures var header := HeaderBytes(width, height, primaryNum, secondaryNum, borderWidth, borderHeight);
      && MapWidth(header) == width && MapHeight(header) == height
      && PrimaryTilesetNum(header) == primaryNum && SecondaryTilesetNum(header) == secondaryNum
      && header[16] == borderWidth && header[17] == borderHeight
      && MapArea(header) == width * height
      && HeaderBorderTiles(header) == borderWidth as int * borderHeight as int
  {
    var header := HeaderBytes(width, height, primaryNum, secondaryNum, borderWidth, borderHeight);
    ReadLe32Field(header, 0, width);
    ReadLe32Field(header, 4, height);
    ReadLe32Field(header, 8, primaryNum);
    ReadLe32Field(header, 12, secondaryNum);
    ProductOfEquals(MapWidth(header), width, MapHeight(header), height);
  }

  lemma ProductOfEquals(a: nat, b: nat, c: nat, d: nat)
    requires a == b && c == d
    ensures a * c == b * d
  {
  }

  lemma ReadLe32Field(file: Bytes, at: nat, w: nat)
    requires w < 0x1_0000_0000 && at + 4 <= |file|
    requires forall k :: 0 <= k < 4 ==> file[at + k] == Le32Bytes(w)[k]
    ensures Le32(file, at) == w
  {
    assert file[at] == Le32Bytes(w)[0] && file[at + 1] == Le32Bytes(w)[1];
    assert file[at + 2] == Le32Bytes(w)[2] && file[at + 3] == Le32Bytes(w)[3];
  }

  /** The header fields of a file are those of its first 20 bytes. */
  lemma HeaderOfPrefix(header: Bytes, rest: Bytes)
    requires |header| == 20
    ensures var file := header + rest;
      && MapWidth(file) == MapWidth(header) && MapHeight(file) == MapHeight(header)
      && PrimaryTilesetNum(file) == PrimaryTilesetNum(header)
      && SecondaryTilesetNum(file) == SecondaryTilesetNum(header)
      && file[16] == header[16] && file[17] == header[17]
      && HeaderBorderTiles(file) == HeaderBorderTiles(header)
      && MapArea(file) == MapArea(header)
      && MapDataEnd(file) == MapDataEnd(header)
  {
    var file := header + rest;
    assert file[..20] == header;
  }

  /** An FRLG `.map` file: the header with a non-zero border size, the border
      words, the map words, then whatever follows the first map (a second copy
      of the map, say). */
  function EncodeFrlg(width: nat, height: nat, primaryNum: nat, secondaryNum: nat,
                      borderWidth: byte, borderHeight: byte,
                      border: seq<uint16>, blockdata: seq<uint16>, trailing: seq<uint16>): Bytes
    requires width < 0x1_0000_0000 && height < 0x1_0000_0000
    requires primaryNum < 0x1_0000_0000 && secondaryNum < 0x1_0000_0000
  {
    HeaderBytes(width, height, primaryNum, secondaryNum, borderWidth, borderHeight)
      + WordBytes(border) + WordBytes(blockdata) + WordBytes(trailing)
  }

  /** Decoding an FRLG file gives back the dimensions, border and map it was
      written from, whatever trails the first map. */
  lemma FrlgRoundTrip(width: nat, height: nat, primaryNum: nat, secondaryNum: nat,
                      borderWidth: byte, borderHeight: byte,
                      border: seq<uint16>, blockdata: seq<uint16>, trailing: seq<uint16>, ctx: ProjectContext)
    requires width <= INT_MAX && height <= INT_MAX
    requires primaryNum < 0x1_0000_0000 && secondaryNum < 0x1_0000_0000
    requires borderWidth > 0 && borderHeight > 0
    requires |border| == borderWidth as int * borderHeight as int
    requires |blockdata| == width * height
    requires 20 + 2 * |border| + 4 * |blockdata| <= INT_MAX
    requires 20 + 2 * (|border| + |blockdata| + |trailing|) <= INT_MAX
    ensures var file := EncodeFrlg(width, height, primaryNum, secondaryNum, borderWidth, borderHeight,
                                   border, blockdata, trailing);
      && FitsInInt(file)
      && DecodeLayout(file, ctx) == Ok(Layout(
           width, height, borderWidth as int, borderHeight as int,
           ResolveTilesetLabel(ctx.tilesetLabelsOrdered, primaryNum,
                               ctx.primaryTilesetLabels, ctx.defaultPrimaryTilesetLabel),
           ResolveTilesetLabel(ctx.tilesetLabelsOrdered, secondaryNum,
                               ctx.secondaryTilesetLabels, ctx.defaultSecondaryTilesetLabel),
           blockdata, Some(border)))
  {
    var header := HeaderBytes(width, height, primaryNum, secondaryNum, borderWidth, borderHeight);
    var file := EncodeFrlg(width, height, primaryNum, secondaryNum, borderWidth, borderHeight,
                           border, blockdata, trailing);
    ReadHeaderBytes(width, height, primaryNum, secondaryNum, borderWidth, borderHeight);
    var rest := WordBytes(border) + WordBytes(blockdata) + WordBytes(trailing);
    assert file == header + rest;
    HeaderOfPrefix(header, rest);
    FrlgWords(file, header, border, blockdata, WordBytes(trailing));
    FrlgDecode(file, ctx, width, height, primaryNum, secondaryNum, borderWidth, borderHeight,
               border, blockdata, |trailing|);
  }

  /** An FRLG file whose fields read as written decodes to them. */
  lemma FrlgDecode(file: Bytes, ctx: ProjectContext, width: nat, height: nat,
                   primaryNum: nat, secondaryNum: nat, borderWidth: byte, borderHeight: byte,
                   border: seq<uint16>, blockdata: seq<uint16>, trailingWords: nat)
    requires width <= INT_MAX && height <= INT_MAX
    requires borderWidth > 0 && borderHeight > 0
    requires |border| == borderWidth as int * borderHeight as int
    requires 20 + 2 * |border| + 4 * |blockdata| <= INT_MAX
    requires |file| == 2 * (10 + |border| + |blockdata| + trailingWords) <= INT_MAX
    requires MapWidth(file) == width && MapHeight(file) == height
    requires PrimaryTilesetNum(file) == primaryNum && SecondaryTilesetNum(file) == secondaryNum
    requires file[16] == borderWidth && file[17] == borderHeight
    requires HeaderBorderTiles(file) == |border| && MapArea(file) == |blockdata|
    requires Words(file, 20, |border|) == border
    requires Words(file, 20 + 2 * |border|, |blockdata|) == blockdata
    ensures FitsInInt(file)
    ensures DecodeLayout(file, ctx) == Ok(Layout(
           width, height, borderWidth as int, borderHeight as int,
           ResolveTilesetLabel(ctx.tilesetLabelsOrdered, primaryNum,
                               ctx.primaryTilesetLabels, ctx.defaultPrimaryTilesetLabel),
           ResolveTilesetLabel(ctx.tilesetLabelsOrdered, secondaryNum,
                               ctx.secondaryTilesetLabels, ctx.defaultSecondaryTilesetLabel),
           blockdata, Some(border)))
  {
    EvenLength(file, 10 + |border| + |blockdata| + trailingWords);
    PositiveProduct(borderWidth, borderHeight);
    assert |file| % 2 == 0;
    assert MapDataOffset(file) == 20 + 2 * |border|;
    assert MapDataEnd(file) == 20 + 2 * |border| + 2 * |blockdata|;
    assert FitsInInt(file);
    assert DeclaredBorder(file) == (borderWidth as int, borderHeight as int, border);
    DecodeFromFields(file, ctx, width, height, primaryNum, secondaryNum,
                     borderWidth as int, borderHeight as int, border, blockdata);
  }

  lemma EvenLength(file: Bytes, n: nat)
    requires |file| == 2 * n
    ensures |file| % 2 == 0
  {
  }

  lemma FactorsPositive(a: nat, b: nat)
    requires a * b > 0
    ensures a > 0 && b > 0
  {
  }

  lemma PositiveProduct(a: nat, b: nat)
    requires a > 0 && b > 0
    ensures a * b > 0
  {
  }

  /** A well-sized file whose header and declared border read as given decodes
      to exactly those values. */
  lemma DecodeFromFields(file: Bytes, ctx: ProjectContext, width: nat, height: nat,
                         primaryNum: nat, secondaryNum: nat, borderWidth: nat, borderHeight: nat,
                         border: seq<uint16>, blockdata: seq<uint16>)
    requires FitsInInt(file)
    requires 20 <= |file| && |file| % 2 == 0 && MapDataEnd(file) <= |file|
    requires MapWidth(file) == width && MapHeight(file) == height
    requires PrimaryTilesetNum(file) == primaryNum && SecondaryTilesetNum(file) == secondaryNum
    requires DeclaredBorder(file) == (borderWidth, borderHeight, border)
    requires borderWidth > 0 && borderHeight > 0 && border != []
    requires Words(file, MapDataOffset(file), MapArea(file)) == blockdata
    ensures DecodeLayout(file, ctx) == Ok(Layout(
           width, height, borderWidth, borderHeight,
           ResolveTilesetLabel(ctx.tilesetLabelsOrdered, primaryNum,
                               ctx.primaryTilesetLabels, ctx.defaultPrimaryTilesetLabel),
           ResolveTilesetLabel(ctx.tilesetLabelsOrdered, secondaryNum,
                               ctx.secondaryTilesetLabels, ctx.defaultSecondaryTilesetLabel),
           blockdata, Some(border)))
  {
  }

  /** The border and map words of an FRLG file read back as written. */
  lemma FrlgWords(file: Bytes, header: Bytes, border: seq<uint16>, blockdata: seq<uint16>, trailing: Bytes)
    requires |header| == 20
    requires file == header + WordBytes(border) + WordBytes(blockdata) + trailing
    ensures Words(file, 20, |border|) == border
    ensures Words(file, 20 + 2 * |border|, |blockdata|) == blockdata
  {
    var withBorder := header + WordBytes(border);
    var withMap := withBorder + WordBytes(blockdata);
    var at := 20 + 2 * |border|;
    assert |withBorder| == at;
    WordsOfWordBytes(header, border);
    WordsOfPrefix(withBorder, WordBytes(blockdata), 20, |border|);
    assert Words(withMap, 20, |border|) == border;
    WordsOfPrefix(withMap, trailing, 20, |border|);
    WordsOfWordBytes(withBorder, blockdata);
    assert Words(withMap, at, |blockdata|) == blockdata;
    WordsOfPrefix(withMap, trailing, at, |blockdata|);
  }

  /** An RSE `.map` file: the header with a zero border size, the map words,
      any further words (a second copy of the map, say), the border words,
      and the border width and height as little-endian 16-bit words. */
  function EncodeRse(width: nat, height: nat, primaryNum: nat, secondaryNum: nat,
                     blockdata: seq<uint16>, between: seq<uint16>, border: seq<uint16>,
                     borderWidth: uint16, borderHeight: uint16): Bytes
    requires width < 0x1_0000_0000 && height < 0x1_0000_0000
    requires primaryNum < 0x1_0000_0000 && secondaryNum < 0x1_0000_0000
  {
    HeaderBytes(width, height, primaryNum, secondaryNum, 0, 0)
      + WordBytes(blockdata) + WordBytes(between) + WordBytes(border)
      + Le16Bytes(borderWidth) + Le16Bytes(borderHeight)
  }

  /** Decoding an RSE file with a non-empty trailing border gives back the
      dimensions, border and map it was written from; the words between the
      first map and the border are ignored. */
  lemma RseRoundTrip(width: nat, height: nat, primaryNum: nat, secondaryNum: nat,
                     blockdata: seq<uint16>, between: seq<uint16>, border: seq<uint16>,
                     borderWidth: uint16, borderHeight: uint16, ctx: ProjectContext)
    requires width <= INT_MAX && height <= INT_MAX
    requires primaryNum < 0x1_0000_0000 && secondaryNum < 0x1_0000_0000
    requires |border| == borderWidth as int * borderHeight as int && |border| > 0
    requires |blockdata| == width * height
    requires 20 + 4 * |blockdata| <= INT_MAX && 2 * |border| + 4 <= INT_MAX
    requires 20 + 2 * (|blockdata| + |between| + |border|) + 4 <= INT_MAX
    ensures var file := EncodeRse(width, height, primaryNum, secondaryNum,
                                  blockdata, between, border, borderWidth, borderHeight);
      && FitsInInt(file)
      && DecodeLayout(file, ctx) == Ok(Layout(
           width, height, borderWidth as int, borderHeight as int,
           ResolveTilesetLabel(ctx.tilesetLabelsOrdered, primaryNum,
                               ctx.primaryTilesetLabels, ctx.defaultPrimaryTilesetLabel),
           ResolveTilesetLabel(ctx.tilesetLabelsOrdered, secondaryNum,
                               ctx.secondaryTilesetLabels, ctx.defaultSecondaryTilesetLabel),
           blockdata, Some(border)))
  {
    var header := HeaderBytes(width, height, primaryNum, secondaryNum, 0, 0);
    var file := EncodeRse(width, height, primaryNum, secondaryNum,
                          blockdata, between, border, borderWidth, borderHeight);
    ReadHeaderBytes(width, height, primaryNum, secondaryNum, 0, 0);
    var rest := WordBytes(blockdata) + WordBytes(between) + WordBytes(border)
                  + Le16Bytes(borderWidth) + Le16Bytes(borderHeight);
    assert file == header + rest;
    HeaderOfPrefix(header, rest);
    var body := header + WordBytes(blockdata) + WordBytes(between) + WordBytes(border);
    RseTail(file, body, border, borderWidth, borderHeight);
    RseWords(file, header, blockdata, between, border, borderWidth, borderHeight);
    RseDecode(file, ctx, width, height, primaryNum, secondaryNum, borderWidth, borderHeight,
              border, blockdata, |between|);
  }

  /** An RSE file whose fields and tail pair read as written decodes to them. */
  lemma RseDecode(file: Bytes, ctx: ProjectContext, width: nat, height: nat,
                  primaryNum: nat, secondaryNum: nat, borderWidth: uint16, borderHeight: uint16,
                  border: seq<uint16>, blockdata: seq<uint16>, betweenLength: nat)
    requires width <= INT_MAX && height <= INT_MAX
    requires |border| == borderWidth as int * borderHeight as int && |border| > 0
    requires 20 + 4 * |blockdata| <= INT_MAX && 2 * |border| + 4 <= INT_MAX
    requires |file| == 2 * (12 + |blockdata| + betweenLength + |border|) <= INT_MAX
    requires RseBorderOffset(file) == 20 + 2 * (|blockdata| + betweenLength)
    requires MapWidth(file) == width && MapHeight(file) == height
    requires PrimaryTilesetNum(file) == primaryNum && SecondaryTilesetNum(file) == secondaryNum
    requires HeaderBorderTiles(file) == 0 && MapArea(file) == |blockdata|
    requires TailBorderWidth(file) == borderWidth && TailBorderHeight(file) == borderHeight
    requires TailBorderTiles(file) == |border|
    requires Words(file, 20 + 2 * (|blockdata| + betweenLength), |border|) == border
    requires Words(file, 20, |blockdata|) == blockdata
    ensures FitsInInt(file)
    ensures DecodeLayout(file, ctx) == Ok(Layout(
           width, height, borderWidth as int, borderHeight as int,
           ResolveTilesetLabel(ctx.tilesetLabelsOrdered, primaryNum,
                               ctx.primaryTilesetLabels, ctx.defaultPrimaryTilesetLabel),
           ResolveTilesetLabel(ctx.tilesetLabelsOrdered, secondaryNum,
                               ctx.secondaryTilesetLabels, ctx.defaultSecondaryTilesetLabel),
           blockdata, Some(border)))
  {
    EvenLength(file, 12 + |blockdata| + betweenLength + |border|);
    FactorsPositive(borderWidth, borderHeight);
    assert DeclaredBorder(file) == (borderWidth as int, borderHeight as int, border);
    DecodeFromFields(file, ctx, width, height, primaryNum, secondaryNum,
                     borderWidth as int, borderHeight as int, border, blockdata);
  }

  /** The tail pair of a file is read from its last four bytes, and locates
      a border of the size it declares just before them. */
  lemma RseTail(file: Bytes, body: Bytes, border: seq<uint16>, borderWidth: uint16, borderHeight: uint16)
    requires |border| == borderWidth as int * borderHeight as int
    requires file == body + Le16Bytes(borderWidth) + Le16Bytes(borderHeight)
    ensures |file| == |body| + 4
    ensures TailBorderWidth(file) == borderWidth && TailBorderHeight(file) == borderHeight
    ensures TailBorderTiles(file) == |border|
    ensures RseBorderOffset(file) == |body| - 2 * |border|
  {
    var tail := Le16Bytes(borderWidth) + Le16Bytes(borderHeight);
    assert file == body + tail;
    assert file[|file| - 4] == tail[0] && file[|file| - 3] == tail[1];
    assert file[|file| - 2] == tail[2] && file[|file| - 1] == tail[3];
    ProductOfEquals(TailBorderWidth(file), borderWidth, TailBorderHeight(file), borderHeight);
  }

  /** The map and border words of an RSE file read back as written. */
  lemma RseWords(file: Bytes, header: Bytes, blockdata: seq<uint16>, between: seq<uint16>,
                 border: seq<uint16>, borderWidth: uint16, borderHeight: uint16)
    requires |header| == 20
    requires file == header + WordBytes(blockdata) + WordBytes(between) + WordBytes(border)
                       + Le16Bytes(borderWidth) + Le16Bytes(borderHeight)
    ensures Words(file, 20 + 2 * (|blockdata| + |between|), |border|) == border
    ensures Words(file, 20, |blockdata|) == blockdata
  {
    var withMap := header + WordBytes(blockdata);
    var withBorder := withMap + WordBytes(between) + WordBytes(border);
    var at := 20 + 2 * (|blockdata| + |between|);
    assert |withMap + WordBytes(between)| == at;
    WordsOfWordBytes(withMap + WordBytes(between), border);
    assert Words(withBorder, at, |border|) == border;
    WordsOfPrefix(withBorder, Le16Bytes(borderWidth), at, |border|);
    WordsOfPrefix(withBorder + Le16Bytes(borderWidth), Le16Bytes(borderHeight), at, |border|);
    WordsOfWordBytes(header, blockdata);
    WordsOfPrefix(withMap, WordBytes(between), 20, |blockdata|);
    assert Words(withMap + WordBytes(between), 20, |blockdata|) == blockdata;
    WordsOfPrefix(withMap + WordBytes(between), WordBytes(border), 20, |blockdata|);
    assert Words(withBorder, 20, |blockdata|) == blockdata;
    WordsOfPrefix(withBorder, Le16Bytes(borderWidth), 20, |blockdata|);
    WordsOfPrefix(withBorder + Le16Bytes(borderWidth), Le16Bytes(borderHeight), 20, |blockdata|);
  }

  // ----- The decoder as the importer runs it -----

  /** The importer's word-reading loop: little-endian words from `offset`
      while both the word and the file last. */
  method ReadWords(data: Bytes, offset: nat, count: nat) returns (ws: seq<uint16>)
    requires offset + 2 * count <= |data|
    ensures ws == Words(data, offset, count)
  {
    var end := offset + 2 * count;
    ws := [];
    var i := offset;
    while i + 1 < end && i + 1 < |data|
      invariant offset <= i <= end
      invariant i == offset + 2 * |ws|
      invariant ws == Words(data, offset, |ws|)
    {
      ws := ws + [Le16(data, i)];
      i := i + 2;
    }
  }

  /** Locates and reads the border as the importer does: after the header in
      FRLG files, at the end of the file in RSE files whose tail pair fits
      after the first map. */
  method ReadBorder(data: Bytes) returns (borderWidth: int, borderHeight: int, border: seq<uint16>)
    requires FitsInInt(data) && 20 <= |data| && |data| % 2 == 0 && MapDataEnd(data) <= |data|
    ensures (borderWidth, borderHeight, border) == DeclaredBorder(data)
  {
    // Border width and height are 0 in RSE files.
    borderWidth := data[16];
    borderHeight := data[17];
    var numBorderTiles := HeaderBorderTiles(data);
    var mapDataOffset := 20 + numBorderTiles * 2;
    var baseMapSize := MapArea(data) * 2;
    var baseBorderSize := numBorderTiles * 2;
    var mapDataEnd := mapDataOffset + baseMapSize;
    assert mapDataEnd == MapDataEnd(data);

    var doubleMap := false;

    // RSE: the border, if any, is at the end of the file.
    var rseBorderOffset := -1;
    if numBorderTiles == 0 {
      if |data| >= mapDataEnd + 4 {
        var borderWidthLE := TailBorderWidth(data);
        var borderHeightLE := TailBorderHeight(data);
        var rseNumBorderTiles := TailBorderTiles(data);
        var rseBorderSize := rseNumBorderTiles * 2;
        var borderOffset := |data| - (rseBorderSize + 4);
        if borderOffset >= mapDataOffset + baseMapSize {
          if borderOffset >= mapDataOffset + baseMapSize * 2 {
            doubleMap := true;
          }
          borderWidth := borderWidthLE;
          borderHeight := borderHeightLE;
          numBorderTiles := rseNumBorderTiles;
          baseBorderSize := rseBorderSize;
          rseBorderOffset := borderOffset;
        }
      }
    } else {
      // FRLG: the border follows the header.
      if |data| >= mapDataOffset + baseMapSize * 2 {
        doubleMap := true;
      }
    }

    assert numBorderTiles != 0 && mapDataOffset == 20 ==> rseBorderOffset >= mapDataEnd;
    assert rseBorderOffset >= 0 ==> rseBorderOffset + baseBorderSize + 4 == |data|;
    border := [];
    if numBorderTiles != 0 {
      var borderOffset: int;
      if mapDataOffset == 20 {
        if rseBorderOffset >= 0 {
          borderOffset := rseBorderOffset;
        } else {
          borderOffset := mapDataOffset + baseMapSize * (if doubleMap then 2 else 1);
        }
      } else {
        borderOffset := 20;
      }
      border := ReadWords(data, borderOffset, numBorderTiles);
    }

    if HeaderBorderTiles(data) != 0 {
      assert border == Words(data, 20, HeaderBorderTiles(data));
    } else if RseTailAccepted(data) {
      assert rseBorderOffset == RseBorderOffset(data) && numBorderTiles == TailBorderTiles(data);
    } else {
      assert rseBorderOffset < 0 && numBorderTiles == 0;
    }
  }

  /** Reads a `.map` file step by step as the importer does.  `file` is
      `None` when the file cannot be opened. */
  method ParseLayout(file: Option<Bytes>, ctx: ProjectContext) returns (r: Result<Layout>)
    requires file.Some? ==> FitsInInt(file.value)
    ensures file.None? ==> r == Err(CouldNotOpen)
    ensures file.Some? ==> r == DecodeLayout(file.value, ctx)
  {
    if file.None? {
      return Err(CouldNotOpen);
    }
    var data := file.value;
    if |data| < 20 || |data| % 2 != 0 {
      return Err(UnexpectedSize);
    }

    var mapDataOffset := 20 + HeaderBorderTiles(data) * 2;
    var mapWidth := MapWidth(data);
    var mapHeight := MapHeight(data);
    var mapPrimaryTilesetNum := PrimaryTilesetNum(data);
    var mapSecondaryTilesetNum := SecondaryTilesetNum(data);
    var mapDataEnd := mapDataOffset + MapArea(data) * 2;
    if |data| < mapDataEnd {
      return Err(TooLittleData);
    }

    var borderWidth, borderHeight, border := ReadBorder(data);
    var blockdata := ReadWords(data, mapDataOffset, MapArea(data));

    var primaryTilesetLabel :=
      if mapPrimaryTilesetNum < |ctx.tilesetLabelsOrdered| then ctx.tilesetLabelsOrdered[mapPrimaryTilesetNum]
      else ctx.defaultPrimaryTilesetLabel;
    if primaryTilesetLabel !in ctx.primaryTilesetLabels {
      primaryTilesetLabel := ctx.defaultPrimaryTilesetLabel;
    }
    var secondaryTilesetLabel :=
      if mapSecondaryTilesetNum < |ctx.tilesetLabelsOrdered| then ctx.tilesetLabelsOrdered[mapSecondaryTilesetNum]
      else ctx.defaultSecondaryTilesetLabel;
    if secondaryTilesetLabel !in ctx.secondaryTilesetLabels {
      secondaryTilesetLabel := ctx.defaultSecondaryTilesetLabel;
    }

    r := Ok(Layout(
      mapWidth,
      mapHeight,
      if borderWidth == 0 then ctx.defaultBorderWidth else borderWidth,
      if borderHeight == 0 then ctx.defaultBorderHeight else borderHeight,
      primaryTilesetLabel,
      secondaryTilesetLabel,
      blockdata,
      if border == [] then None else Some(border)));
  }
}
