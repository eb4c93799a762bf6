# Advance Map 1.92 importers and map-editor helpers

This project models, in Dafny, two parts of the map editor.

The first is the importer for files written by Advance Map 1.92
(`AdvanceMapParser`). It handles three formats:

- `.map` layouts: a 20-byte header, then border and map words in the FRLG or
  RSE arrangement;
- `.bvd` metatile sets: a count, 8 tile words per metatile, the attribute
  bytes and a game signature;
- `.pal` palettes: 4-byte colour records.

Each importer is written twice:

- as a function of the file's bytes that says what the file decodes to, or
  which error rejects it (`DecodeLayout`, `DecodeMetatiles`, `DecodePalette`);
- as a method with the same loops as the importer (`ParseLayout`,
  `ParseMetatiles`, `ParsePalette`), proved equal to that function.

Lemmas then state the format's rules about the function:

- which files are rejected, and with which error;
- where every word is read from;
- how the FRLG and RSE border variants are told apart;
- the fallback tileset labels and border sizes;
- that the fourth palette byte is ignored.

Encoders for the three formats are proved to decode back to what they
encode.

The second part is a set of `Editor` helpers:

- the border draw distance;
- the zoom index clamp;
- the collision readout category;
- the sorted position of a new combo-box label;
- the event-selection toggle;
- the per-group event capacity check.

`scaleIndex` and `selectedEvents` are fields of a `class Editor`, which its
methods update in place.

Files:

- `wrappers.dfy`: the `Option` type.
- `advancemap_bytes.dfy`: the byte types, the import errors, and the
  little-endian readers with their encoders.
- `advancemap_layout.dfy`, `advancemap_metatiles.dfy`,
  `advancemap_palette.dfy`: the three importers.
- `editor.dfy`: the editor helpers.

The border sizes of an RSE file (header border size 0) follow
`src/core/advancemapparser.cpp` closely:
- when the trailing border pair is not accepted, the header's border bytes 16
  and 17 stand, and each of them that is zero is replaced by the project
  default (lines 25-26, 123-124);
- a trailing pair with one zero dimension is accepted: the layout takes that
  pair's dimensions (the zero one replaced by the default) and no border words
  are read (lines 74-84, 100, 146-148).

`DeclaredBorder` and `BorderDefaults` state both behaviours.

## Model

| member | source | states |
|---|---|---|
| AdvanceMapBytes.Le32 | src/core/advancemapparser.cpp:30-45 | a header field assembled from four bytes with shifts is an unsigned value below 2^32 |
| AdvanceMapBytes.ToInt32 | src/core/advancemapparser.cpp:193-196 | storing the 32-bit count in an `int` gives the value in [-2^31, 2^31-1] congruent to it modulo 2^32 |
| AdvanceMapBytes.LeBytes | src/core/advancemapparser.cpp:255-257 | the attribute value assembled from n bytes, byte j weighted by 256^j, is below 256^n |
| AdvanceMapBytes.Words | src/core/advancemapparser.cpp:93-97 | word k of a run read from offset `off` is the little-endian word at `off + 2k`, and the run has the requested length |
| AdvanceMapBytes.WordsFrame | src/core/advancemapparser.cpp:94-96 | reading words depends only on the bytes of the region read |
| AdvanceMapBytes.WordsOfWordBytes | src/core/advancemapparser.cpp:94-96 | words written low byte first read back as the words written |
| AdvanceMapBytes.LeBytesOfLeBytesOf | src/core/advancemapparser.cpp:254-257 | an attribute value written in n little-endian bytes reads back as that value |
| AdvanceMapBytes.Le32Bytes | src/core/advancemapparser.cpp:193-196 | the four bytes written for a count read back as that count |
| AdvanceMapLayout.ResolveTilesetLabel | src/core/advancemapparser.cpp:126-139 | a tileset index gives the ordered label when it is in range and in the slot's label list, and the slot's default otherwise |
| AdvanceMapLayout.DeclaredBorder | src/core/advancemapparser.cpp:59-118 | defines the border a file declares: the header's sizes and the words after the header for FRLG; the trailing pair and the words before it when an RSE tail is accepted; otherwise the header's sizes and no words |
| AdvanceMapLayout.DecodeLayout | src/core/advancemapparser.cpp:6-151 | defines the layout a `.map` file decodes to, or its rejection; the lemmas below state its properties |
| AdvanceMapLayout.LayoutRejection | src/core/advancemapparser.cpp:18-22 | a `.map` file is rejected exactly when it is shorter than 20 bytes, of odd length (UnexpectedSize), or shorter than the border and map its header declares (TooLittleData, lines 47-57) |
| AdvanceMapLayout.LargeHeaderRejected | src/core/advancemapparser.cpp:47-57 | a bare header declaring a 0x8000 × 0x4000 map is within the `int` bound and is rejected with TooLittleData, before any doubled map size is computed |
| AdvanceMapLayout.LayoutBlockdata | src/core/advancemapparser.cpp:29-48 | an accepted file has the header's width and height and `width*height` block words, word k read at `mapDataOffset + 2k` (lines 93-97) |
| AdvanceMapLayout.FrlgBorder | src/core/advancemapparser.cpp:99-117 | with a non-zero header border, the border is exactly the header's border width × border height words (bytes 16 and 17) right after the 20-byte header, with those sizes |
| AdvanceMapLayout.RseBorder | src/core/advancemapparser.cpp:59-85 | with a zero header border, a border exists iff the trailing size pair is present, non-empty and leaves room for the first map; it is then the whole declared border, ending 4 bytes before the end, read from `rseBorderOffset` |
| AdvanceMapLayout.BorderDefaults | src/core/advancemapparser.cpp:123-124 | a zero border dimension becomes the project default, so with positive defaults neither border dimension is zero; an RSE file whose tail is not accepted has no border and keeps the header's sizes |
| AdvanceMapLayout.TilesetLabels | src/core/advancemapparser.cpp:126-142 | each tileset label falls back to its default exactly when the index is out of range or resolves to a label outside the slot's own label list |
| AdvanceMapLayout.FrlgIgnoresTrailingData | src/core/advancemapparser.cpp:86-91 | for FRLG files the result depends only on the bytes up to the end of the first map, so a duplicate map after it is ignored |
| AdvanceMapLayout.ReadHeaderBytes | src/core/advancemapparser.cpp:25-45 | a written header reads back its width, height, tileset indices and border sizes |
| AdvanceMapLayout.FrlgRoundTrip | src/core/advancemapparser.cpp:6-151 | an FRLG file built from a header, a border, block data and any trailing words decodes to exactly that layout |
| AdvanceMapLayout.FrlgDecode | src/core/advancemapparser.cpp:86-117 | a file whose fields are those of an FRLG layout decodes to that layout |
| AdvanceMapLayout.RseRoundTrip | src/core/advancemapparser.cpp:6-151 | an RSE file built from a header, block data, words in between, a border and its size pair decodes to exactly that layout |
| AdvanceMapLayout.RseDecode | src/core/advancemapparser.cpp:59-118 | a file whose fields are those of an RSE layout with a trailing border decodes to that layout |
| AdvanceMapLayout.RseTail | src/core/advancemapparser.cpp:66-73 | the last 4 bytes of a written RSE file give the border's width and height and place it right before them |
| AdvanceMapLayout.ReadWords | src/core/advancemapparser.cpp:93-97 | the word loop collects exactly the words of the region |
| AdvanceMapLayout.ReadBorder | src/core/advancemapparser.cpp:59-118 | the border size and words the importer settles on are the declared border of the file |
| AdvanceMapLayout.ParseLayout | src/core/advancemapparser.cpp:6-151 | the importer fails with CouldNotOpen when the file cannot be opened and otherwise returns the decoded layout or its rejection |
| AdvanceMapMetatiles.TileFromRaw | src/core/advancemapparser.cpp:240-242 | a 16-bit tile word gives a tile with a 10-bit id and a 4-bit palette |
| AdvanceMapMetatiles.RawTileRoundTrip | src/core/advancemapparser.cpp:240-242 | every tile word is the stored form of the tile it denotes |
| AdvanceMapMetatiles.TileRawRoundTrip | src/core/advancemapparser.cpp:240-242 | every valid tile is stored as a word that decodes back to it |
| AdvanceMapMetatiles.MetatilesFrom | src/core/advancemapparser.cpp:234-261 | the metatile loop yields one metatile per index, metatile i decoded from its own tile words and attribute bytes |
| AdvanceMapMetatiles.DecodeMetatile | src/core/advancemapparser.cpp:235-260 | defines metatile i: its 8 tile words from the tile region, 4 default tiles in triple-layer mode, and its attribute bytes from the attribute region |
| AdvanceMapMetatiles.DecodeMetatiles | src/core/advancemapparser.cpp:153-264 | defines the metatiles a `.bvd` file decodes to, or its rejection; MetatileAcceptance, MetatileShape and MetatileDecoding state its properties |
| AdvanceMapMetatiles.CheckBvd | src/core/advancemapparser.cpp:165-232 | an accepted header places the tile words and attribute bytes inside the file |
| AdvanceMapMetatiles.MetatileRejection | src/core/advancemapparser.cpp:165-219 | the rejections come in the importer's order: size (odd or under 9), unknown signature, count over the capacity, count under 1, and then a size that is neither the single nor the double size for that count (UnexpectedSize) |
| AdvanceMapMetatiles.MetatileAcceptance | src/core/advancemapparser.cpp:165-219 | a `.bvd` file is accepted iff it is even and at least 9 bytes, signed "RSE " or "FRLG", has a count between 1 and the capacity, and is exactly the single- or double-tileset size for that count |
| AdvanceMapMetatiles.MetatileShape | src/core/advancemapparser.cpp:234-261 | an accepted file yields its declared number of metatiles, each with the file's game, 8 tiles (12 in triple-layer mode, the last 4 default) and attributes that fit their byte count |
| AdvanceMapMetatiles.BvdOffsets | src/core/advancemapparser.cpp:208-232 | tile words start at 4, or at 4+16n for the secondary half of a double file; attributes start at 4+16n (single), 4+32n (primary half) or 4+32n+a·n (secondary half); the regions do not overlap and lie between the count and the signature |
| AdvanceMapMetatiles.MetatileDecoding | src/core/advancemapparser.cpp:235-258 | tile j of metatile i is the word at `tilesOffset + 16i + 2j`, and its attributes are the a bytes at `attrsOffset + a·i`, all within the regions |
| AdvanceMapMetatiles.BvdRoundTrip | src/core/advancemapparser.cpp:153-264 | the single-tileset file holding a list of metatiles decodes back to that list, each metatile padded with 4 default tiles in triple-layer mode, whether it is imported as the primary or the secondary tileset |
| AdvanceMapMetatiles.AttrRecordsRead | src/core/advancemapparser.cpp:254-257 | attribute record i of a run of records reads back as the i-th attribute value |
| AdvanceMapMetatiles.BvdCount | src/core/advancemapparser.cpp:193-196 | a written file declares its number of metatiles |
| AdvanceMapMetatiles.BvdSignature | src/core/advancemapparser.cpp:171-184 | a written file is signed with its game |
| AdvanceMapMetatiles.BvdSize | src/core/advancemapparser.cpp:208-219 | a written file has the single-tileset size, even, never the double-tileset size |
| AdvanceMapMetatiles.ReadAttributes | src/core/advancemapparser.cpp:254-257 | the attribute loop computes the little-endian value of the attribute bytes (byte j weighted by 256^j) |
| AdvanceMapMetatiles.ReadMetatile | src/core/advancemapparser.cpp:236-260 | one pass of the metatile loop builds the metatile the file holds at that index |
| AdvanceMapMetatiles.ReadMetatiles | src/core/advancemapparser.cpp:234-261 | the metatile loop builds every metatile of the file in order |
| AdvanceMapMetatiles.ReadBvdLayout | src/core/advancemapparser.cpp:165-232 | the importer's checks and offset choice give the file's header verdict |
| AdvanceMapMetatiles.ParseMetatiles | src/core/advancemapparser.cpp:153-264 | the importer fails with CouldNotOpen when the file cannot be opened and otherwise returns the decoded metatiles or their rejection |
| AdvanceMapPalette.Colors | src/core/advancemapparser.cpp:283-291 | colour k is taken from the record at offset 4k |
| AdvanceMapPalette.DecodePalette | src/core/advancemapparser.cpp:277-293 | defines the palette a `.pal` file decodes to, or its rejection; PaletteDecoding states its properties |
| AdvanceMapPalette.PaletteDecoding | src/core/advancemapparser.cpp:277-293 | a palette file is rejected (UnexpectedFormat) iff its length is not a multiple of 4; otherwise it gives one colour per record, the record's first three bytes |
| AdvanceMapPalette.EmptyPalette | src/core/advancemapparser.cpp:277-293 | an empty file is an empty palette, not an error |
| AdvanceMapPalette.FourthByteIgnored | src/core/advancemapparser.cpp:285-290 | files that differ only in the fourth byte of records decode alike |
| AdvanceMapPalette.EncodedRecords | src/core/advancemapparser.cpp:285-290 | every record of a written palette holds the colour written there |
| AdvanceMapPalette.PaletteRoundTrip | src/core/advancemapparser.cpp:266-294 | a written palette decodes back to the colours written |
| AdvanceMapPalette.ParsePalette | src/core/advancemapparser.cpp:266-294 | the importer fails with CouldNotOpen when the file cannot be opened and otherwise returns the decoded palette or its rejection |
| EditorHelpers.BorderDrawDistance | src/editor.cpp:1819-1828 | defines the border extent drawn along one dimension, with C's division and remainder |
| EditorHelpers.BorderDrawDistanceCovers | src/editor.cpp:1819-1828 | for a non-negative dimension the drawn extent reaches the view; a dimension at least the view is kept; 0 gives the view; a smaller one gives the least multiple of it that reaches the view |
| EditorHelpers.ClampScaleIndex | src/editor.cpp:1044-1049 | the clamped zoom index is a valid index into the 8 zoom levels |
| EditorHelpers.ClampIsNearest | src/editor.cpp:1044-1049 | an index already valid is kept, and the clamped index is the valid index nearest to the requested one |
| EditorHelpers.MovementPermissionOf | src/editor.cpp:1142-1156 | defines the category the collision readout names, the first matching check winning |
| EditorHelpers.MovementPermissionCategories | src/editor.cpp:1142-1156 | each readout category holds for exactly its blocks: any collision is impassable; otherwise elevation 0 is a transition, 15 a bridge, 1 surf, any other passable |
| EditorHelpers.StrLess | src/editor.cpp:204 | defines the label order: lexicographic on characters, a proper prefix first |
| EditorHelpers.StrLessIrreflexive | src/editor.cpp:204 | no label is less than itself |
| EditorHelpers.StrLessAsymmetric | src/editor.cpp:204 | no two labels are each less than the other |
| EditorHelpers.StrLessTransitive | src/editor.cpp:204 | the label order used for insertion is transitive |
| EditorHelpers.StrLessTotal | src/editor.cpp:204 | any two distinct labels are ordered one way or the other |
| EditorHelpers.GetSortedItemIndex | src/editor.cpp:201-208 | the index returned is the first whose label is greater than the new one, or the item count when there is none |
| EditorHelpers.InsertKeepsSorted | src/editor.cpp:336-338 | inserting a label at that index keeps a sorted combo box sorted |
| EditorHelpers.IndexOf | src/editor.cpp:2062 | the position `QList::removeOne` removes at: an occurrence of the event with none before it |
| EditorHelpers.RemoveOne | src/editor.cpp:2062 | removing an event drops exactly one occurrence of it and changes nothing when it is absent; RemoveOneKeepsOrder states which occurrence and that the order is kept |
| EditorHelpers.RemoveOneShifts | src/editor.cpp:2062 | after removal, the events before the first occurrence stay in place and those after it move one place forward |
| EditorHelpers.RemoveOneKeepsOrder | src/editor.cpp:2062 | removal cuts out exactly the first occurrence and keeps the rest in order, so the head of the selection read at lines 1354 and 2313 is the earliest remaining selected event |
| EditorHelpers.SelectionAfter | src/editor.cpp:2049-2067 | defines the selection after the call: unchanged for a null event, the event alone without toggle, appended when toggled in, removed when toggled out of several, unchanged otherwise |
| EditorHelpers.SelectionStaysValid | src/editor.cpp:2049-2067 | the selection never gains a repeat, a null event changes nothing, and a non-empty selection never becomes empty |
| EditorHelpers.SelectionMembership | src/editor.cpp:2053-2067 | the event is selected afterwards unless it was toggled out of a selection of several; other events keep their membership under a toggle and are dropped otherwise |
| EditorHelpers.WithinCapacityOfPrefix | src/editor.cpp:2088-2094 | if a list of new events fits, so does any prefix of it |
| EditorHelpers.NotWithinCapacity | src/editor.cpp:2091-2093 | one group over capacity in a prefix makes the whole addition not fit |
| EditorHelpers.Editor.constructor | include/editor.h:154-170 | a new editor has zoom index 2 and an empty selection |
| EditorHelpers.Editor.ScaleMapView | src/editor.cpp:1043-1057 | the zoom index becomes the clamped sum of the old index and the step; the selection is unchanged |
| EditorHelpers.Editor.SelectMapEvent | src/editor.cpp:2049-2067 | the selection becomes the toggled selection and stays free of repeats |
| EditorHelpers.Editor.CanAddEvents | src/editor.cpp:2083-2096 | the events can be added iff a project and a map are open and every group receiving new events has room for all of them |

## Left out

- File opening, reading and `logError` are not modelled. A file is given as its contents, or `None` when it cannot be opened; `None` gives `CouldNotOpen`, and each other diagnostic becomes an `ImportError`.
- ParseLayout: requires `FitsInInt`, which holds exactly when none of the importer's 32-bit size computations wraps around: the width, height and `mapDataEnd`; in an RSE file holding the first map, `mapDataEnd + 4` and the size of the border its tail declares; and the doubled map size, computed only for an FRLG file holding the first map and for an RSE file whose tail is accepted. Files on which one of them overflows are not modelled. Tileset indices are not bounded. One whose top byte is 0x80 or more is negative in the importer, and both the importer and the model then fall back to the default label.
- ParseMetatiles: requires `ValidContext` (attribute sizes of at most 4 bytes, capacities of at most 2^20), which keeps every size computation within `int`. The signed reading of the count is modelled.
- `Metatile::setAttributes` and the per-game attribute bit layouts are not modelled. A metatile keeps its raw attribute value and its game, which is everything `setAttributes` receives.
- `Metatile::getDefaultAttributesSize`, `Project::getNumMetatilesPrimary`/`Secondary`, `projectConfig.tripleLayerMetatilesEnabled`, the project's tileset label lists and `DEFAULT_BORDER_WIDTH`/`HEIGHT` are parameters; their definitions are not part of this model.
- The `Tile` class is not part of this model. A tile word is split into id, flips and palette using the 10/1/1/4-bit layout of the game's tile format.
- `qRgb` packing is not modelled: a colour is its red, green and blue bytes.
- Allocation of `Layout` and `Metatile` objects is not modelled: results are values.
- BvdRoundTrip: covers files holding one tileset, with attributes of an even number of bytes (both games use 2 or 4). Double-tileset files are described by BvdOffsets and MetatileDecoding instead.
- StrLess: `QString` compares UTF-16 code units; the model compares characters, which differs only for characters outside the Basic Multilingual Plane. `QComboBox` is a sequence of its item texts.
- ScaleMapView: only the index update is modelled. The `QTransform` scaling and the zoom factors (doubles) are not.
- Events are represented by identity (`selectedEvents`) or by group (`canAddEvents`). `updateEvents()` and the scene redraw are not modelled.
- CanAddEvents: `getNumEvents` and `getMaxEvents` are given as functions of the group, fixed during the call.
- `BORDER_DISTANCE` is a parameter of BorderDrawDistance.
- ReadAttributes: the importer ORs each byte in at shift 8j; the model adds byte·256^j. The two agree because each shifted byte fills its own 8 bits, but that equality over 32-bit words is not proved here.
- The rest of `src/editor.cpp` and the other context files (scripting, overlay, the new-map popup) drive Qt scenes and user interface and are not modelled.
