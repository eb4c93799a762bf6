/** The Advance Map 1.92 metatile importer (`AdvanceMapParser::parseMetatiles`):
    a `.bvd` file holds a little-endian 32-bit metatile count, then for every
    metatile 8 tile words, then every metatile's attribute bytes, and ends with
    a 4-byte game signature, "RSE " or "FRLG".  A file may hold a primary and
    a secondary tileset back to back, the tile words of both first. */
module AdvanceMapMetatiles {
  import opened Wrappers
  import opened AdvanceMapBytes

  datatype BaseGameVersion = PokeEmerald | PokeFireRed

  /** One 8x8 tile reference of a metatile. */
  datatype Tile = Tile(tileId: nat, xflip: bool, yflip: bool, palette: nat)

  predicate ValidTile(t: Tile)
  {
    t.tileId < 0x400 && t.palette < 0x10
  }

  /** The tile a metatile word denotes: bits 0-9 the tile id, bit 10 the
      horizontal flip, bit 11 the vertical flip, bits 12-15 the palette. */
  function TileFromRaw(raw: uint16): (t: Tile)
    ensures ValidTile(t)
  {
    Tile(raw % 0x400, (raw / 0x400) % 2 == 1, (raw / 0x800) % 2 == 1, raw / 0x1000)
  }

  /** The word a tile is stored as. */
  function RawFromTile(t: Tile): uint16
    requires ValidTile(t)
  {
    t.tileId + (if t.xflip then 0x400 else 0) + (if t.yflip then 0x800 else 0) + 0x1000 * t.palette
  }

  /** Every word denotes a tile and is that tile's word. */
  lemma RawTileRoundTrip(raw: uint16)
    ensures RawFromTile(TileFromRaw(raw)) == raw
  {
    var t := TileFromRaw(raw);
    var high := raw / 0x400;
    assert raw == t.tileId + 0x400 * high;
    assert high == high % 2 + 2 * ((high / 2) % 2) + 4 * t.palette;
  }

  /** Every valid tile is stored as a word that decodes back to it. */
  lemma TileRawRoundTrip(t: Tile)
    requires ValidTile(t)
    ensures TileFromRaw(RawFromTile(t)) == t
  {
    var raw := RawFromTile(t);
    var flips := (if t.xflip then 1 else 0) + (if t.yflip then 2 else 0);
    assert raw == t.tileId + 0x400 * (flips + 4 * t.palette);
    assert raw / 0x400 == flips + 4 * t.palette;
    assert raw / 0x800 == (if t.yflip then 1 else 0) + 2 * t.palette;
  }

  /** The tile the importer adds, four times, in triple-layer mode. */
  const DefaultTile := Tile(0, false, false, 0)

  /** A metatile as imported: its tiles, its attribute word as read from the
      file, and the game that word is laid out for. */
  datatype Metatile = Metatile(tiles: seq<Tile>, attributes: nat, version: BaseGameVersion)

  /** What the importer reads from the project: whether metatiles have a
      third layer, the tileset capacities, and the attribute size per game. */
  datatype MetatileContext = MetatileContext(
    tripleLayerMetatilesEnabled: bool,
    numMetatilesPrimary: nat,
    numMetatilesSecondary: nat,
    rseAttributesSize: nat,
    frlgAttributesSize: nat)

  /** Attribute words fit 32 bits, and tileset capacities keep every size
      the importer computes within its `int`. */
  predicate ValidContext(ctx: MetatileContext)
  {
    && ctx.rseAttributesSize <= 4 && ctx.frlgAttributesSize <= 4
    && ctx.numMetatilesPrimary <= 0x10_0000 && ctx.numMetatilesSecondary <= 0x10_0000
  }

  function AttributesSize(ctx: MetatileContext, version: BaseGameVersion): nat
  {
    match version
    case PokeEmerald => ctx.rseAttributesSize
    case PokeFireRed => ctx.frlgAttributesSize
  }

  function MaxMetatiles(ctx: MetatileContext, primaryTileset: bool): nat
  {
    if primaryTileset then ctx.numMetatilesPrimary else ctx.numMetatilesSecondary
  }

  // ----- The file's fields -----

  /** The game the last four bytes name, if any. */
  function Signature(data: Bytes): Option<BaseGameVersion>
    requires |data| >= 4
  {
    var p := |data| - 4;
    if data[p] == 'R' as int && data[p + 1] == 'S' as int && data[p + 2] == 'E' as int && data[p + 3] == ' ' as int then
      Some(PokeEmerald)
    else if data[p] == 'F' as int && data[p + 1] == 'R' as int && data[p + 2] == 'L' as int && data[p + 3] == 'G' as int then
      Some(PokeFireRed)
    else
      None
  }

  /** The metatile count at offset 0, as the importer's signed `int` holds it. */
  function DeclaredCount(data: Bytes): int
    requires |data| >= 4
  {
    ToInt32(Le32(data, 0))
  }

  /** Bytes taken by `n` attribute words of `a` bytes each. */
  function AttrBytes(a: nat, n: nat): nat
  {
    a * n
  }

  /** The file size of one tileset of `n` metatiles. */
  function SingleSize(n: nat, a: nat): nat
  {
    16 * n + AttrBytes(a, n) + 8
  }

  /** The file size of a primary and a secondary tileset of `n` metatiles each. */
  function DoubleSize(n: nat, a: nat): nat
  {
    32 * n + 2 * AttrBytes(a, n) + 8
  }

  /** Where the tile words and the attribute bytes of the wanted tileset start. */
  function Offsets(n: nat, a: nat, doubleTileset: bool, primaryTileset: bool): (nat, nat)
  {
    if !doubleTileset then (4, 4 + 16 * n)
    else if primaryTileset then (4, 4 + 32 * n)
    else (4 + 16 * n, 4 + 32 * n + AttrBytes(a, n))
  }

  /** Both regions of `n` metatiles lie inside the file. */
  predicate RegionsFit(data: Bytes, tilesOffset: nat, attrsOffset: nat, a: nat, n: nat)
  {
    tilesOffset + 16 * n <= |data| && attrsOffset + AttrBytes(a, n) <= |data|
  }

  lemma MulMono(a: nat, b: nat, c: nat)
    requires b <= c
    ensures AttrBytes(a, b) <= AttrBytes(a, c)
  {
    assert a * c - a * b == a * (c - b);
  }

  lemma AttrBytesStep(a: nat, i: nat)
    ensures AttrBytes(a, i + 1) == AttrBytes(a, i) + a
  {
  }

  // ----- Decoding -----

  /** The 8 tiles stored at `offset`. */
  function TilesAt(data: Bytes, offset: nat): (tiles: seq<Tile>)
    requires offset + 16 <= |data|
    ensures |tiles| == 8
  {
    seq(8, j requires 0 <= j < 8 => TileFromRaw(Le16(data, offset + 2 * j)))
  }

  function DefaultTiles(k: nat): (tiles: seq<Tile>)
    ensures |tiles| == k
  {
    seq(k, _ => DefaultTile)
  }

  /** Metatile `i` of the `n` whose regions start at the given offsets. */
  function DecodeMetatile(data: Bytes, tilesOffset: nat, attrsOffset: nat, a: nat, n: nat,
                          version: BaseGameVersion, tripleLayer: bool, i: nat): Metatile
    requires RegionsFit(data, tilesOffset, attrsOffset, a, n) && i < n
  {
    MulMono(a, i + 1, n);
    AttrBytesStep(a, i);
    Metatile(
      TilesAt(data, tilesOffset + 16 * i) + (if tripleLayer then DefaultTiles(4) else []),
      LeBytes(data, attrsOffset + AttrBytes(a, i), a),
      version)
  }

  /** The first `count` of those metatiles, appended one at a time. */
  function MetatilesFrom(data: Bytes, tilesOffset: nat, attrsOffset: nat, a: nat, n: nat,
                         version: BaseGameVersion, tripleLayer: bool, count: nat): (ms: seq<Metatile>)
    requires RegionsFit(data, tilesOffset, attrsOffset, a, n) && count <= n
    ensures |ms| == count
    ensures forall i :: 0 <= i < count ==>
      ms[i] == DecodeMetatile(data, tilesOffset, attrsOffset, a, n, version, tripleLayer, i)
  {
    if count == 0 then []
    else
      MetatilesFrom(data, tilesOffset, attrsOffset, a, n, version, tripleLayer, count - 1)
        + [DecodeMetatile(data, tilesOffset, attrsOffset, a, n, version, tripleLayer, count - 1)]
  }

  /** For a file of one of the two expected sizes, the regions the offsets
      name lie between the count and the signature. */
  lemma OffsetsFit(data: Bytes, n: nat, a: nat, primaryTileset: bool)
    requires |data| == DoubleSize(n, a) || |data| == SingleSize(n, a)
    ensures var (t, at) := Offsets(n, a, |data| == DoubleSize(n, a), primaryTileset);
      && 4 <= t && t + 16 * n <= at
      && at + AttrBytes(a, n) <= |data| - 4
      && RegionsFit(data, t, at, a, n)
  {
  }

  /** What the checks on a `.bvd` file establish: its game, its metatile
      count, the attribute size, and where the wanted tileset's tile words
      and attribute bytes start. */
  datatype BvdLayout = BvdLayout(version: BaseGameVersion, count: nat, attrSize: nat,
                                 tilesOffset: nat, attrsOffset: nat)

  /** The importer's checks, in its order, and the offsets they lead to. */
  function CheckBvd(data: Bytes, ctx: MetatileContext, primaryTileset: bool): (r: Result<BvdLayout>)
    ensures r.Ok? ==> RegionsFit(data, r.value.tilesOffset, r.value.attrsOffset, r.value.attrSize, r.value.count)
  {
    if |data| < 9 || |data| % 2 != 0 then Err(UnexpectedSize)
    else match Signature(data)
      case None => Err(UnsupportedGame)
      case Some(version) =>
        var a := AttributesSize(ctx, version);
        var n := DeclaredCount(data);
        if n > MaxMetatiles(ctx, primaryTileset) then Err(TooManyMetatiles)
        else if n < 1 then Err(NoMetatiles)
        else if |data| != DoubleSize(n, a) && |data| != SingleSize(n, a) then Err(UnexpectedSize)
        else
          var (t, at) := Offsets(n, a, |data| == DoubleSize(n, a), primaryTileset);
          OffsetsFit(data, n, a, primaryTileset);
          Ok(BvdLayout(version, n, a, t, at))
  }

  /** The metatiles a `.bvd` file decodes to, or why it is rejected. */
  function DecodeMetatiles(data: Bytes, ctx: MetatileContext, primaryTileset: bool): Result<seq<Metatile>>
  {
    match CheckBvd(data, ctx, primaryTileset)
    case Err(e) => Err(e)
    case Ok(l) =>
      Ok(MetatilesFrom(data, l.tilesOffset, l.attrsOffset, l.attrSize, l.count, l.version,
                       ctx.tripleLayerMetatilesEnabled, l.count))
  }

  // ----- Properties of the decoder -----

  /** Why a file is rejected, in the order the importer checks: size, then
      signature, then count, then the exact size for that count. */
  lemma MetatileRejection(data: Bytes, ctx: MetatileContext, primaryTileset: bool)
    ensures |data| < 9 || |data| % 2 != 0 ==> DecodeMetatiles(data, ctx, primaryTileset) == Err(UnexpectedSize)
    ensures |data| >= 9 && |data| % 2 == 0 ==>
      (Signature(data).None? <==> DecodeMetatiles(data, ctx, primaryTileset) == Err(UnsupportedGame))
    ensures |data| >= 9 && |data| % 2 == 0 && Signature(data).Some? ==>
      var n := DeclaredCount(data);
      && (n > MaxMetatiles(ctx, primaryTileset) <==> DecodeMetatiles(data, ctx, primaryTileset) == Err(TooManyMetatiles))
      && (n < 1 <==> DecodeMetatiles(data, ctx, primaryTileset) == Err(NoMetatiles))
    ensures (&& |data| >= 9 && |data| % 2 == 0 && Signature(data).Some?
             && 1 <= DeclaredCount(data) <= MaxMetatiles(ctx, primaryTileset)) ==>
      var n: nat := DeclaredCount(data);
      var a := AttributesSize(ctx, Signature(data).value);
      (|data| != SingleSize(n, a) && |data| != DoubleSize(n, a) <==>
        DecodeMetatiles(data, ctx, primaryTileset) == Err(UnexpectedSize))
  {
  }

  /** A file is accepted exactly when its size is even and at least 9, it is
      signed "RSE " or "FRLG", its count is between 1 and the capacity, and
      its size is the single- or double-tileset size for that count. */
  lemma MetatileAcceptance(data: Bytes, ctx: MetatileContext, primaryTileset: bool)
    ensures DecodeMetatiles(data, ctx, primaryTileset).Ok? <==>
      && |data| >= 9 && |data| % 2 == 0
      && Signature(data).Some?
      && 1 <= DeclaredCount(data) <= MaxMetatiles(ctx, primaryTileset)
      && var n: nat := DeclaredCount(data);
         var a := AttributesSize(ctx, Signature(data).value);
         |data| == SingleSize(n, a) || |data| == DoubleSize(n, a)
  {
  }

  /** An accepted file yields exactly its declared number of metatiles, each
      of the file's game, with 8 tiles read from the file followed, in
      triple-layer mode, by 4 default tiles. */
  lemma MetatileShape(data: Bytes, ctx: MetatileContext, primaryTileset: bool)
    requires DecodeMetatiles(data, ctx, primaryTileset).Ok?
    ensures var ms := DecodeMetatiles(data, ctx, primaryTileset).value;
      && |data| >= 9
      && |ms| == DeclaredCount(data)
      && forall m :: m in ms ==>
        && m.version == Signature(data).value
        && |m.tiles| == (if ctx.tripleLayerMetatilesEnabled then 12 else 8)
        && (ctx.tripleLayerMetatilesEnabled ==> m.tiles[8..] == DefaultTiles(4))
        && m.attributes < Pow256(AttributesSize(ctx, m.version))
  {
  }

  /** Where an accepted file's metatile data lies: the tile words start at
      4 + 16n only for the secondary half of a double tileset and at 4
      otherwise; the attribute bytes start at 4 + 16n for a single tileset,
      4 + 32n for the primary half of a double tileset and 4 + 32n + a n for
      its secondary half.  Both regions lie between the count and the
      signature, tiles first, and do not overlap. */
  lemma BvdOffsets(data: Bytes, ctx: MetatileContext, primaryTileset: bool)
    requires CheckBvd(data, ctx, primaryTileset).Ok?
    ensures |data| >= 9 && Signature(data).Some?
    ensures var l := CheckBvd(data, ctx, primaryTileset).value;
      var n := l.count;
      var doubleTileset := |data| == DoubleSize(n, l.attrSize);
      && l.version == Signature(data).value
      && l.count == DeclaredCount(data) >= 1
      && l.attrSize == AttributesSize(ctx, l.version)
      && (doubleTileset || |data| == SingleSize(n, l.attrSize))
      && l.tilesOffset == (if doubleTileset && !primaryTileset then 4 + 16 * n else 4)
      && l.attrsOffset == (if !doubleTileset then 4 + 16 * n
                           else if primaryTileset then 4 + 32 * n
                           else 4 + 32 * n + AttrBytes(l.attrSize, n))
      && 4 <= l.tilesOffset && l.tilesOffset + 16 * n <= l.attrsOffset
      && l.attrsOffset + AttrBytes(l.attrSize, n) <= |data| - 4
  {
    var n: nat := DeclaredCount(data);
    OffsetsFit(data, n, AttributesSize(ctx, Signature(data).value), primaryTileset);
  }

  /** Metatile `i` of an accepted file: tile `j` is the word at
      `tilesOffset + 16i + 2j` and the attributes are the `a` bytes at
      `attrsOffset + a i`, all inside the metatile data regions. */
  lemma MetatileDecoding(data: Bytes, ctx: MetatileContext, primaryTileset: bool, i: nat, j: nat)
    requires CheckBvd(data, ctx, primaryTileset).Ok?
    requires i < CheckBvd(data, ctx, primaryTileset).value.count && j < 8
    ensures var l := CheckBvd(data, ctx, primaryTileset).value;
      var a := l.attrSize;
      var m := DecodeMetatiles(data, ctx, primaryTileset).value[i];
      && l.tilesOffset + 16 * i + 2 * j + 2 <= l.tilesOffset + 16 * l.count
      && l.attrsOffset + AttrBytes(a, i) + a <= l.attrsOffset + AttrBytes(a, l.count)
      && m.tiles[j] == TileFromRaw(Le16(data, l.tilesOffset + 16 * i + 2 * j))
      && m.attributes == LeBytes(data, l.attrsOffset + AttrBytes(a, i), a)
  {
    var l := CheckBvd(data, ctx, primaryTileset).value;
    var ms := MetatilesFrom(data, l.tilesOffset, l.attrsOffset, l.attrSize, l.count, l.version,
                            ctx.tripleLayerMetatilesEnabled, l.count);
    assert DecodeMetatiles(data, ctx, primaryTileset) == Ok(ms);
    MulMono(l.attrSize, i + 1, l.count);
    AttrBytesStep(l.attrSize, i);
  }

  // ----- Writing .bvd files: the decoder's inverse -----

  /** The signature that ends a `.bvd` file of the given game. */
  function SignatureBytes(version: BaseGameVersion): (bs: Bytes)
    ensures |bs| == 4
  {
    match version
    case PokeEmerald => ['R' as int, 'S' as int, 'E' as int, ' ' as int]
    case PokeFireRed => ['F' as int, 'R' as int, 'L' as int, 'G' as int]
  }

  /** A metatile a `.bvd` file of game `version` with `a`-byte attributes
      can hold: 8 valid tiles and an attribute word that fits. */
  predicate Storable(m: Metatile, a: nat, version: BaseGameVersion)
  {
    && |m.tiles| == 8
    && (forall k :: 0 <= k < 8 ==> ValidTile(m.tiles[k]))
    && m.attributes < Pow256(a)
    && m.version == version
  }

  predicate AllStorable(ms: seq<Metatile>, a: nat, version: BaseGameVersion)
  {
    forall i :: 0 <= i < |ms| ==> Storable(ms[i], a, version)
  }

  /** The tile words of all metatiles, 8 per metatile, in order. */
  function RawWords(ms: seq<Metatile>, a: nat, version: BaseGameVersion): (ws: seq<uint16>)
    requires AllStorable(ms, a, version)
    ensures |ws| == 8 * |ms|
    ensures forall i, j :: 0 <= i < |ms| && 0 <= j < 8 ==> ws[8 * i + j] == RawFromTile(ms[i].tiles[j])
  {
    if ms == [] then []
    else
      var last := ms[|ms| - 1];
      RawWords(ms[..|ms| - 1], a, version) + seq(8, j requires 0 <= j < 8 => RawFromTile(last.tiles[j]))
  }

  /** The attribute words of all metatiles, `a` bytes each, lowest first. */
  function AttrRecords(ms: seq<Metatile>, a: nat): (bs: Bytes)
    requires forall i :: 0 <= i < |ms| ==> ms[i].attributes < Pow256(a)
    ensures |bs| == AttrBytes(a, |ms|)
  {
    if ms == [] then []
    else
      AttrBytesStep(a, |ms| - 1);
      AttrRecords(ms[..|ms| - 1], a) + LeBytesOf(ms[|ms| - 1].attributes, a)
  }

  /** A single-tileset `.bvd` file holding `ms`. */
  function EncodeBvd(ms: seq<Metatile>, a: nat, version: BaseGameVersion): (data: Bytes)
    requires AllStorable(ms, a, version) && |ms| <= INT_MAX
  {
    Le32Bytes(|ms|) + WordBytes(RawWords(ms, a, version)) + AttrRecords(ms, a) + SignatureBytes(version)
  }

  /** What the importer makes of stored metatiles: in triple-layer mode each
      gains 4 default tiles. */
  function Imported(ms: seq<Metatile>, tripleLayer: bool): (r: seq<Metatile>)
    ensures |r| == |ms|
  {
    seq(|ms|, i requires 0 <= i < |ms| =>
      ms[i].(tiles := ms[i].tiles + (if tripleLayer then DefaultTiles(4) else [])))
  }

  /** Reading back attribute record `i` of a run of records. */
  lemma {:induction false} AttrRecordsRead(before: Bytes, ms: seq<Metatile>, a: nat, after: Bytes, i: nat)
    requires forall k :: 0 <= k < |ms| ==> ms[k].attributes < Pow256(a)
    requires i < |ms|
    ensures |before| + AttrBytes(a, i) + a <= |before + AttrRecords(ms, a) + after|
    ensures LeBytes(before + AttrRecords(ms, a) + after, |before| + AttrBytes(a, i), a) == ms[i].attributes
  {
    var init, last := ms[..|ms| - 1], ms[|ms| - 1];
    AttrBytesStep(a, |ms| - 1);
    MulMono(a, i + 1, |ms|);
    AttrBytesStep(a, i);
    var records := AttrRecords(init, a);
    assert AttrRecords(ms, a) == records + LeBytesOf(last.attributes, a);
    if i < |init| {
      AttrRecordsRead(before, init, a, LeBytesOf(last.attributes, a) + after, i);
      assert before + AttrRecords(ms, a) + after == before + records + (LeBytesOf(last.attributes, a) + after);
    } else {
      assert |before + records| == |before| + AttrBytes(a, i);
      LeBytesOfLeBytesOf(last.attributes, a, before + records, after);
      assert before + AttrRecords(ms, a) + after == before + records + LeBytesOf(last.attributes, a) + after;
    }
  }

  lemma EvenAttrBytes(a: nat, n: nat)
    requires a % 2 == 0
    ensures AttrBytes(a, n) == 2 * AttrBytes(a / 2, n)
  {
  }

  /** The length of an encoded file is the single-tileset size, never the
      double-tileset one, and even when attributes take an even number of bytes. */
  lemma BvdSize(ms: seq<Metatile>, a: nat, version: BaseGameVersion)
    requires AllStorable(ms, a, version) && 1 <= |ms| <= INT_MAX && a % 2 == 0
    ensures var size := |EncodeBvd(ms, a, version)|;
      size == SingleSize(|ms|, a) && size != DoubleSize(|ms|, a) && size >= 9 && size % 2 == 0
  {
    var n := |ms|;
    EvenAttrBytes(a, n);
    var size := |EncodeBvd(ms, a, version)|;
    assert size == 16 * n + AttrBytes(a, n) + 8;
    var half := 8 * n + AttrBytes(a / 2, n) + 4;
    assert size == 2 * half;
    TwiceIsEven(half);
  }

  lemma TwiceIsEven(x: nat)
    ensures (2 * x) % 2 == 0
  {
  }

  /** The first four bytes of an encoded file are the metatile count. */
  lemma BvdCount(ms: seq<Metatile>, a: nat, version: BaseGameVersion)
    requires AllStorable(ms, a, version) && |ms| <= INT_MAX
    ensures DeclaredCount(EncodeBvd(ms, a, version)) == |ms|
  {
    var count := Le32Bytes(|ms|);
    var withWords := count + WordBytes(RawWords(ms, a, version));
    var withAttrs := withWords + AttrRecords(ms, a);
    Le32OfPrefix(count, WordBytes(RawWords(ms, a, version)));
    Le32OfPrefix(withWords, AttrRecords(ms, a));
    Le32OfPrefix(withAttrs, SignatureBytes(version));
  }

  /** The last four bytes of an encoded file are the game's signature. */
  lemma BvdSignature(ms: seq<Metatile>, a: nat, version: BaseGameVersion)
    requires AllStorable(ms, a, version) && |ms| <= INT_MAX
    ensures |EncodeBvd(ms, a, version)| >= 4
    ensures Signature(EncodeBvd(ms, a, version)) == Some(version)
  {
    var sig := SignatureBytes(version);
    var data := EncodeBvd(ms, a, version);
    var front := Le32Bytes(|ms|) + WordBytes(RawWords(ms, a, version)) + AttrRecords(ms, a);
    assert data == front + sig;
    var p := |data| - 4;
    assert data[p] == sig[0] && data[p + 1] == sig[1] && data[p + 2] == sig[2] && data[p + 3] == sig[3];
  }

  /** The tile words of an encoded file. */
  lemma BvdWordsRead(ms: seq<Metatile>, a: nat, version: BaseGameVersion)
    requires AllStorable(ms, a, version) && |ms| <= INT_MAX
    ensures var data := EncodeBvd(ms, a, version);
      && 4 + 16 * |ms| <= |data|
      && Words(data, 4, 8 * |ms|) == RawWords(ms, a, version)
  {
    var ws := RawWords(ms, a, version);
    var count := Le32Bytes(|ms|);
    var withWords := count + WordBytes(ws);
    var withAttrs := withWords + AttrRecords(ms, a);
    WordsOfWordBytes(count, ws);
    WordsOfPrefix(withWords, AttrRecords(ms, a), 4, |ws|);
    WordsOfPrefix(withAttrs, SignatureBytes(version), 4, |ws|);
  }

  /** Record `i` of the attribute region at `attrsOffset` holds the
      attributes of `ms[i]`, for every `i`. */
  predicate AttributesStored(data: Bytes, attrsOffset: nat, a: nat, ms: seq<Metatile>)
  {
    forall i :: 0 <= i < |ms| ==>
      && attrsOffset + AttrBytes(a, i) + a <= |data|
      && LeBytes(data, attrsOffset + AttrBytes(a, i), a) == ms[i].attributes
  }

  /** The header checks accept a file whose fields are those of a single
      tileset of `n` metatiles. */
  lemma BvdSingleLayout(data: Bytes, ctx: MetatileContext, primaryTileset: bool, n: nat, version: BaseGameVersion)
    requires 1 <= n <= MaxMetatiles(ctx, primaryTileset)
    requires |data| >= 9 && |data| % 2 == 0 && Signature(data) == Some(version) && DeclaredCount(data) == n
    requires |data| == SingleSize(n, AttributesSize(ctx, version)) && |data| != DoubleSize(n, AttributesSize(ctx, version))
    ensures CheckBvd(data, ctx, primaryTileset) == Ok(BvdLayout(version, n, AttributesSize(ctx, version), 4, 4 + 16 * n))
    ensures RegionsFit(data, 4, 4 + 16 * n, AttributesSize(ctx, version), n)
    ensures DecodeMetatiles(data, ctx, primaryTileset)
      == Ok(MetatilesFrom(data, 4, 4 + 16 * n, AttributesSize(ctx, version), n, version, ctx.tripleLayerMetatilesEnabled, n))
  {
    assert CheckBvd(data, ctx, primaryTileset) == Ok(BvdLayout(version, n, AttributesSize(ctx, version), 4, 4 + 16 * n));
  }

  /** Metatile `i` of such a file is stored metatile `i`, as imported. */
  lemma BvdElement(data: Bytes, a: nat, ms: seq<Metatile>, version: BaseGameVersion, tripleLayer: bool, i: nat)
    requires AllStorable(ms, a, version) && i < |ms|
    requires RegionsFit(data, 4, 4 + 16 * |ms|, a, |ms|)
    requires Words(data, 4, 8 * |ms|) == RawWords(ms, a, version)
    requires AttributesStored(data, 4 + 16 * |ms|, a, ms)
    ensures DecodeMetatile(data, 4, 4 + 16 * |ms|, a, |ms|, version, tripleLayer, i)
      == Imported(ms, tripleLayer)[i]
  {
    var m := ms[i];
    forall j | 0 <= j < 8
      ensures TilesAt(data, 4 + 16 * i)[j] == m.tiles[j]
    {
      assert Words(data, 4, 8 * |ms|)[8 * i + j] == RawFromTile(m.tiles[j]);
      TileRawRoundTrip(m.tiles[j]);
    }
    assert TilesAt(data, 4 + 16 * i) == m.tiles;
  }

  /** The metatiles read from the regions of a single tileset holding `ms`
      are `ms`, as imported. */
  lemma BvdElements(data: Bytes, a: nat, ms: seq<Metatile>, version: BaseGameVersion, tripleLayer: bool)
    requires AllStorable(ms, a, version)
    requires RegionsFit(data, 4, 4 + 16 * |ms|, a, |ms|)
    requires Words(data, 4, 8 * |ms|) == RawWords(ms, a, version)
    requires AttributesStored(data, 4 + 16 * |ms|, a, ms)
    ensures MetatilesFrom(data, 4, 4 + 16 * |ms|, a, |ms|, version, tripleLayer, |ms|) == Imported(ms, tripleLayer)
  {
    var decoded := MetatilesFrom(data, 4, 4 + 16 * |ms|, a, |ms|, version, tripleLayer, |ms|);
    forall i | 0 <= i < |ms|
      ensures decoded[i] == Imported(ms, tripleLayer)[i]
    {
      BvdElement(data, a, ms, version, tripleLayer, i);
    }
  }

  /** The header checks accept the single-tileset file that holds `ms`. */
  lemma BvdEncodedLayout(ms: seq<Metatile>, ctx: MetatileContext, primaryTileset: bool, version: BaseGameVersion)
    requires ValidContext(ctx)
    requires AllStorable(ms, AttributesSize(ctx, version), version)
    requires 1 <= |ms| <= MaxMetatiles(ctx, primaryTileset)
    requires AttributesSize(ctx, version) % 2 == 0
    ensures var a := AttributesSize(ctx, version);
      var data := EncodeBvd(ms, a, version);
      && RegionsFit(data, 4, 4 + 16 * |ms|, a, |ms|)
      && DecodeMetatiles(data, ctx, primaryTileset)
        == Ok(MetatilesFrom(data, 4, 4 + 16 * |ms|, a, |ms|, version, ctx.tripleLayerMetatilesEnabled, |ms|))
  {
    var a := AttributesSize(ctx, version);
    BvdSize(ms, a, version);
    BvdCount(ms, a, version);
    BvdSignature(ms, a, version);
    BvdSingleLayout(EncodeBvd(ms, a, version), ctx, primaryTileset, |ms|, version);
  }

  /** The regions of the single-tileset file that holds `ms` read back as
      `ms`, as imported. */
  lemma BvdEncodedElements(ms: seq<Metatile>, a: nat, version: BaseGameVersion, tripleLayer: bool)
    requires AllStorable(ms, a, version) && |ms| <= INT_MAX
    requires RegionsFit(EncodeBvd(ms, a, version), 4, 4 + 16 * |ms|, a, |ms|)
    ensures MetatilesFrom(EncodeBvd(ms, a, version), 4, 4 + 16 * |ms|, a, |ms|, version, tripleLayer, |ms|)
      == Imported(ms, tripleLayer)
  {
    var data := EncodeBvd(ms, a, version);
    var prefix := Le32Bytes(|ms|) + WordBytes(RawWords(ms, a, version));
    BvdWordsRead(ms, a, version);
    forall i | 0 <= i < |ms|
      ensures 4 + 16 * |ms| + AttrBytes(a, i) + a <= |data|
      ensures LeBytes(data, 4 + 16 * |ms| + AttrBytes(a, i), a) == ms[i].attributes
    {
      AttrRecordsRead(prefix, ms, a, SignatureBytes(version), i);
    }
    BvdElements(data, a, ms, version, tripleLayer);
  }

  /** Decoding the single-tileset file that holds `ms` gives `ms` back, as
      imported, for whichever tileset it is imported as. */
  lemma BvdRoundTrip(ms: seq<Metatile>, ctx: MetatileContext, primaryTileset: bool, version: BaseGameVersion)
    requires ValidContext(ctx)
    requires AllStorable(ms, AttributesSize(ctx, version), version)
    requires 1 <= |ms| <= MaxMetatiles(ctx, primaryTileset)
    requires AttributesSize(ctx, version) % 2 == 0
    ensures DecodeMetatiles(EncodeBvd(ms, AttributesSize(ctx, version), version), ctx, primaryTileset)
      == Ok(Imported(ms, ctx.tripleLayerMetatilesEnabled))
  {
    BvdEncodedLayout(ms, ctx, primaryTileset, version);
    BvdEncodedElements(ms, AttributesSize(ctx, version), version, ctx.tripleLayerMetatilesEnabled);
  }

  // ----- The importer -----

  /** The importer's attribute loop: the `attrSize` bytes at `attrOffset`,
      byte `j` or-ed in at bit `8j`. */
  method ReadAttributes(data: Bytes, attrOffset: nat, attrSize: nat) returns (attributes: nat)
    requires attrOffset + attrSize <= |data|
    ensures attributes == LeBytes(data, attrOffset, attrSize)
  {
    attributes := 0;
    var j := 0;
    while j < attrSize
      invariant 0 <= j <= attrSize
      invariant attributes == LeBytes(data, attrOffset, j)
    {
      attributes := attributes + data[attrOffset + j] * Pow256(j);
      j := j + 1;
    }
  }

  /** One iteration of the importer's metatile loop: the 8 tile words of
      metatile `i`, the default tiles in triple-layer mode, and the
      attribute bytes accumulated lowest first. */
  method ReadMetatile(data: Bytes, tilesOffset: nat, attrsOffset: nat, attrSize: nat, n: nat,
                      version: BaseGameVersion, triple: bool, i: nat) returns (metatile: Metatile)
    requires RegionsFit(data, tilesOffset, attrsOffset, attrSize, n) && i < n
    ensures metatile == DecodeMetatile(data, tilesOffset, attrsOffset, attrSize, n, version, triple, i)
  {
    var metatileSize := 16;
    var tiles: seq<Tile> := [];
    var j := 0;
    while j < 8
      invariant 0 <= j <= 8
      invariant |tiles| == j
      invariant forall k :: 0 <= k < j ==> tiles[k] == TileFromRaw(Le16(data, tilesOffset + 16 * i + 2 * k))
    {
      var metatileOffset := tilesOffset + i * metatileSize + j * 2;
      var tile := TileFromRaw(data[metatileOffset] as int + 0x100 * data[metatileOffset + 1] as int);
      tiles := tiles + [tile];
      j := j + 1;
    }
    assert tiles == TilesAt(data, tilesOffset + 16 * i);

    if triple {
      var tile := DefaultTile;
      j := 0;
      while j < 4
        invariant 0 <= j <= 4
        invariant tiles == TilesAt(data, tilesOffset + 16 * i) + DefaultTiles(j)
      {
        tiles := tiles + [tile];
        j := j + 1;
      }
    }

    MulMono(attrSize, i + 1, n);
    AttrBytesStep(attrSize, i);
    var attrOffset := attrsOffset + i * attrSize;
    assert attrOffset == attrsOffset + AttrBytes(attrSize, i);
    var attributes := ReadAttributes(data, attrOffset, attrSize);
    metatile := Metatile(tiles, attributes, version);
  }

  /** The importer's loop over the `n` metatiles, appending each to the list. */
  method ReadMetatiles(data: Bytes, tilesOffset: nat, attrsOffset: nat, attrSize: nat, n: nat,
                       version: BaseGameVersion, triple: bool) returns (metatiles: seq<Metatile>)
    requires RegionsFit(data, tilesOffset, attrsOffset, attrSize, n)
    ensures metatiles == MetatilesFrom(data, tilesOffset, attrsOffset, attrSize, n, version, triple, n)
  {
    metatiles := [];
    var i := 0;
    while i < n
      invariant 0 <= i <= n
      invariant metatiles == MetatilesFrom(data, tilesOffset, attrsOffset, attrSize, n, version, triple, i)
    {
      var metatile := ReadMetatile(data, tilesOffset, attrsOffset, attrSize, n, version, triple, i);
      metatiles := metatiles + [metatile];
      i := i + 1;
    }
  }

  /** The checks of `AdvanceMapParser::parseMetatiles` on the file's
      contents, up to the offsets of the metatile data. */
  method ReadBvdLayout(data: Bytes, ctx: MetatileContext, primaryTileset: bool) returns (r: Result<BvdLayout>)
    ensures r == CheckBvd(data, ctx, primaryTileset)
  {
    if |data| < 9 || |data| % 2 != 0 {
      return Err(UnexpectedSize);
    }

    var projIdOffset := |data| - 4;
    var metatileSize := 16;
    var version: BaseGameVersion;
    if data[projIdOffset] == 'R' as int && data[projIdOffset + 1] == 'S' as int
      && data[projIdOffset + 2] == 'E' as int && data[projIdOffset + 3] == ' ' as int
    {
      version := PokeEmerald;
    } else if data[projIdOffset] == 'F' as int && data[projIdOffset + 1] == 'R' as int
      && data[projIdOffset + 2] == 'L' as int && data[projIdOffset + 3] == 'G' as int
    {
      version := PokeFireRed;
    } else {
      return Err(UnsupportedGame);
    }

    var attrSize := AttributesSize(ctx, version);
    var maxMetatiles := if primaryTileset then ctx.numMetatilesPrimary else ctx.numMetatilesSecondary;
    var numMetatiles := DeclaredCount(data);
    if numMetatiles > maxMetatiles {
      return Err(TooManyMetatiles);
    }
    if numMetatiles < 1 {
      return Err(NoMetatiles);
    }
    var n: nat := numMetatiles;

    var baseMetatileSize := metatileSize * n;
    var baseAttrSize := attrSize * n;
    assert baseAttrSize == AttrBytes(attrSize, n);
    var expectedSingleSize := baseMetatileSize + baseAttrSize + 8;
    var expectedDoubleSize := baseMetatileSize * 2 + baseAttrSize * 2 + 8;
    var doubleTileset := false;
    if |data| == expectedDoubleSize {
      doubleTileset := true;
    } else if |data| != expectedSingleSize {
      return Err(UnexpectedSize);
    }

    var tilesOffset := 4;
    var attrsOffset;
    if doubleTileset {
      if primaryTileset {
        attrsOffset := 4 + baseMetatileSize * 2;
      } else {
        tilesOffset := tilesOffset + baseMetatileSize;
        attrsOffset := 4 + baseMetatileSize * 2 + baseAttrSize;
      }
    } else {
      attrsOffset := 4 + baseMetatileSize;
    }
    assert (tilesOffset, attrsOffset) == Offsets(n, attrSize, doubleTileset, primaryTileset);
    return Ok(BvdLayout(version, n, attrSize, tilesOffset, attrsOffset));
  }

  /** `AdvanceMapParser::parseMetatiles`: decodes the file's contents (`None`
      when it could not be opened) for the primary or the secondary tileset. */
  method ParseMetatiles(file: Option<Bytes>, ctx: MetatileContext, primaryTileset: bool)
    returns (r: Result<seq<Metatile>>)
    requires ValidContext(ctx)
    ensures file.None? ==> r == Err(CouldNotOpen)
    ensures file.Some? ==> r == DecodeMetatiles(file.value, ctx, primaryTileset)
  {
    if file.None? {
      return Err(CouldNotOpen);
    }
    var data := file.value;
    var layout := ReadBvdLayout(data, ctx, primaryTileset);
    if layout.Err? {
      return Err(layout.error);
    }
    var l := layout.value;
    var metatiles := ReadMetatiles(data, l.tilesOffset, l.attrsOffset, l.attrSize, l.count, l.version,
                                   ctx.tripleLayerMetatilesEnabled);
    return Ok(metatiles);
  }
}
