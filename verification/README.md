# Excel workbook extractor: colour resolution and cell reconciliation

`extract_excel.py` dumps an `.xlsx` workbook to JSON. It emits every sheet's
cells with their values, formulas, number formats and styles, and the
workbook's defined names. This project models the part of it that decides
what the JSON says. The parts it models are:

- **Colour resolution.** `color_to_hex` turns an openpyxl colour (or an
  ARGB/RGB string) into `#RRGGBB`. It tries, in order:
  1. a usable `rgb`;
  2. a palette index into `COLOR_INDEX`;
  3. a theme slot, with the tint applied by `_apply_tint`;
  4. the text form of the colour.

  `_build_theme_rgb_map` builds the table of the twelve colour-scheme slots
  (`lt1` … `folHlink`). It reads the parsed theme first and falls back to
  the raw theme XML.
- **Style projectors.** `font_to_obj`, `fill_to_obj`, `edge_to_obj`,
  `border_to_obj`, `alignment_to_obj` and `rich_text_runs` turn style
  objects into JSON records.
- **The cell loop of `_extract_sheet_info`.** It visits every address of the
  used rectangle in row-major order. It records a hyperlink for every
  linked cell, even an empty one. Then it skips an empty cell unless its
  fill resolves to a background colour. Otherwise it stores a record that
  has:
  - the formula split from its cached value;
  - the style facets;
  - the convenience `color` and `backgroundColor` fields.
- **`extract_defined_names`.** It collects (name, attr_text) records from a
  mapping-shaped, list-shaped or values-shaped container.
- **`_safe_filename`.** It turns a sheet name into a per-sheet file name.

The modules follow the program's concerns:

| Module | File | Contents |
|---|---|---|
| `Wrappers` | `wrappers.dfy` | `Option`, Python truthiness of optional text, and `a or b` |
| `Strings` | `strings.dfy` | ASCII upper-casing and two-digit hexadecimal |
| `Tint` | `tint.dfy` | `_apply_tint` |
| `Theme` | `theme.dfy` | `_build_theme_rgb_map` |
| `Colors` | `colors.dfy` | `color_to_hex` and the `to_hex` closure |
| `Styles` | `styles.dfy` | the projectors |
| `Cells` | `cells.dfy` | the cell loop, as the class `SheetInfo` whose `cells` and `hyperlinks` tables the loop fills in place |
| `DefinedNames` | `names.dfy` | `extract_defined_names` |
| `Filenames` | `filenames.dfy` | `_safe_filename` |

Each method that runs one of the source's loops is proved against a
function that specifies it. The properties are proved about those
functions.

Python exceptions that the source catches become explicit outcomes:
- `_apply_tint` returns `None` where `int(…, 16)` raises.
- `color_to_hex` then falls through to the text form, as the enclosing
  `except` does.

openpyxl objects become datatypes. Each optional attribute is an `Option`,
and `None` stands for a missing attribute.

## Model

| member | source | states |
|---|---|---|
| Strings.ParseHexByte | extract_excel.py:31-33 | `int(pair, 16)` on a two-character pair succeeds exactly when both characters are hexadecimal digits, and yields 0..255 whose two upper-case digits are the pair's characters upper-cased |
| Strings.ParseHexByteRoundTrip | extract_excel.py:31-43 | parsing a pair and formatting the value with `{:02X}` gives the pair back, upper-cased |
| Strings.HexByte | extract_excel.py:43 | the `{:02X}` field is two upper-case hex digits that parse back to the channel |
| Wrappers.OrElse | extract_excel.py:470 | `a or b`: `a` when it is truthy, otherwise `b`, and the result is truthy exactly when one of them is |
| Strings.UpperFacts | extract_excel.py:73 | `upper()` leaves no lower-case letter, is the identity on text without one, and commutes with slicing |
| Tint.RoundHalfEven | extract_excel.py:40 | Python's `round`: within 0.5 of the argument, ties to the even neighbour |
| Tint.RoundHalfEvenMonotone | extract_excel.py:40 | rounding is monotone |
| Tint.Clamp | extract_excel.py:40 | `max(0, min(255, n))` lies in 0..255, is the identity inside and saturates outside |
| Tint.AdjustChannel | extract_excel.py:35-40 | an adjusted channel always lies in 0..255 |
| Tint.BlendMonotone | extract_excel.py:36-39 | the darkening and lightening formulas together are monotone in the tint for a channel in 0..255 |
| Tint.AdjustChannelMonotone | extract_excel.py:35-40 | a larger tint never gives a darker channel |
| Tint.AdjustChannelDirection | extract_excel.py:20-23 | tint 0 is the identity; a positive tint lightens and a negative one darkens; tint 1 gives 255 and tint -1 gives 0 |
| Tint.StripHashes | extract_excel.py:28 | `lstrip('#')` removes exactly the leading `#` characters |
| Tint.Channels | extract_excel.py:31-33 | the three channels parse exactly when all six characters are hexadecimal, each in 0..255; their values are fixed by `Tint.ChannelsRoundTrip` |
| Tint.ChannelsRoundTrip | extract_excel.py:31-43 | reading the channels of a six-digit colour and writing them back as `#RRGGBB` gives `#` and the colour upper-cased |
| Tint.FormatRgb | extract_excel.py:43 | the result is `#` and six upper-case hex digits whose channels parse back to the inputs |
| Tint.ApplyTint | extract_excel.py:19-43 | an empty colour, a missing or zero tint, or a colour that is not six characters after stripping `#` comes back unchanged; otherwise the result is `#RRGGBB` whose channels are the adjusted input channels, and it fails exactly when a channel does not parse |
| Tint.ApplyTintMonotone | extract_excel.py:35-43 | each channel of the tinted colour is monotone in the tint |
| Theme.RoleValue | extract_excel.py:67-71 | in the parsed reading a present `srgbClr` decides even without a value, else `sysClr`; in the XML reading `srgbClr` decides only when it has a `val`, else a `sysClr` with a value; with neither, nothing (lines 102-106 for the XML) |
| Theme.ReadingsDifferOnlyOnBareSrgb | extract_excel.py:67-71 | the two readings give different values exactly when `srgbClr` is present without a value and `sysClr` has one |
| Theme.SlotValue | extract_excel.py:63-73 | slot i is filled exactly when role i of the slot order is present with a six-character value, and holds `#` and that value upper-cased |
| Theme.SlotsBefore | extract_excel.py:63-73 | every partial table has keys in 0..11 and `#`+six-character values with no lower-case letter |
| Theme.SlotTable | extract_excel.py:63-73 | the table built from one scheme has that shape |
| Theme.SlotsFrom | extract_excel.py:63-108 | the slot-order loop builds exactly the slot table of the scheme |
| Theme.BuildThemeMap | extract_excel.py:46-112 | the result has the theme-table shape; a non-empty table from the parsed theme is returned as is; otherwise the raw XML's table, or nothing |
| Theme.SlotTableFollowsRoleOrder | extract_excel.py:63-73 | slot numbers follow the role order: slot i exists exactly when role `SchemeRoles[i]` supplies six characters |
| Colors.TintOf | extract_excel.py:159-163 | the tint is a number exactly when it was given and converts, and then it is the given number |
| Colors.NormaliseHex | extract_excel.py:132-136 | six- and eight-character values give `#` and their last six characters upper-cased; any other length gives nothing |
| Colors.ColorToHex | extract_excel.py:115-180 | a falsy colour gives None; with a well-formed theme table every result is `#` and six characters with no lower-case letter |
| Colors.ThemedStep | extract_excel.py:157-164 | a tinted theme colour keeps the theme-table shape |
| Colors.FirstSome | extract_excel.py:115-180 | the first attempt that yields a value is chosen, and the result is None exactly when none does |
| Colors.ColorToHexIsFallbackChain | extract_excel.py:115-180 | the resolver is the ranked chain rgb, then palette, then theme with tint, then text form |
| Colors.DirectRgbWins | extract_excel.py:130-136 | a six- or eight-character `rgb` decides whatever the index and theme say |
| Colors.PaletteBeforeTheme | extract_excel.py:139-150 | an in-range palette entry of six or eight characters decides before the theme |
| Colors.MissingThemeSlotContributesNothing | extract_excel.py:153-157 | a theme reference into an empty table, or to a slot the table lacks, changes nothing |
| Colors.ThemeSlotTinted | extract_excel.py:153-166 | a present theme base is returned tinted; only a failing tint hands over to the text form |
| Colors.ZeroTintIsNoTint | extract_excel.py:159-164 | tint 0, no tint and an unconvertible tint resolve alike |
| Styles.FontToRecord | extract_excel.py:183-192 | name, size, bold, italic and strike pass through; underline is a bool, true exactly when the underline is truthy; the colour is resolved |
| Styles.FillToRecord | extract_excel.py:195-206 | None exactly when there is no fill or no fill type; otherwise the type and both colours, each unwrapped and resolved |
| Styles.EdgeToRecord | extract_excel.py:209-212 | None exactly when there is no edge or no style; otherwise the style and the resolved colour |
| Styles.BorderToRecord | extract_excel.py:215-222 | all five sides are always present; each side is its own edge's record, None exactly when that edge has no style |
| Styles.AlignmentToRecord | extract_excel.py:225-239 | only `horizontal` and `vertical` can appear, each exactly when it is not None, with its value |
| Styles.RunToRecord | extract_excel.py:258-263 | the text is `text or t or value`; the font is projected from `font` or else `rPr` |
| Styles.FirstRunList | extract_excel.py:249-256 | the search takes the first list-valued attribute among `rich`, `_rich` and `r`, even an empty one, and nothing when none is a list |
| Styles.RichRuns | extract_excel.py:242-264 | None exactly when there is no non-empty run list; otherwise one record per run, in order |
| Styles.RichTextRuns | extract_excel.py:242-264 | the two loops compute exactly the rich-text runs |
| Cells.FillBackground | extract_excel.py:524-533 | the background is truthy exactly when the fill has a type and its foreground or background colour resolves to something truthy |
| Cells.HyperlinkToRecord | extract_excel.py:443-447 | target and tooltip pass through; the display text is present exactly when the value is text, and is that text |
| Cells.CachedAt | extract_excel.py:452-458 | the cached value is the value-only view's value at the address, and None without that view or at an address it does not hold |
| Cells.Kept | extract_excel.py:459-479 | a cell is kept exactly when its value is not empty or its fill record has a truthy foreground or background colour |
| Cells.FontColor | extract_excel.py:516-522 | without a font, None; with a font whose colour is set, the colour of the font record |
| Cells.CellToRecord | extract_excel.py:483-535 | `formula` exactly for `=` text, with the cached value; `numFmt` exactly when truthy; `alignment` exactly when it has a horizontal or vertical value; `font` and `border` exactly when present; the fill, rich-text and convenience colours from their projectors |
| Cells.ReconcileCell | extract_excel.py:459-537 | a record is produced exactly when the inclusion policy keeps the cell, and it is the cell's record |
| Cells.BuildRecord | extract_excel.py:483-535 | the record built key by key is the cell's record |
| Cells.RowScanContents | extract_excel.py:438-439 | a row scanned up to a column holds exactly the accepted addresses before it, each mapped to its entry |
| Cells.RowsScanContents | extract_excel.py:438-439 | the finished rows hold exactly the accepted addresses of the rectangle in those rows |
| Cells.SheetInfo.ScanUsedRange | extract_excel.py:438-537 | after the loop, the cell table has gained exactly the scanned records and the hyperlink table exactly the scanned links |
| Cells.SheetInfo.ScanRow | extract_excel.py:438-537 | one row extends the finished rows by that row |
| Cells.SheetInfo.ScanColumns | extract_excel.py:439-537 | the inner loop adds exactly that row's entries |
| Cells.SheetInfo.VisitCell | extract_excel.py:440-537 | one iteration records the link, then keeps or skips the cell |
| Cells.ScannedCellsContents | extract_excel.py:459-537 | the cell table holds exactly the kept addresses of the rectangle, each with its record |
| Cells.ScannedLinksContents | extract_excel.py:441-447 | the hyperlink table holds exactly the linked addresses of the rectangle, kept or not |
| Cells.LinkRecordedForSkippedCell | extract_excel.py:441-479 | an empty, unfilled, linked cell is absent from the cell table but present in the hyperlink table |
| Cells.InclusionPolicy | extract_excel.py:459-479 | an empty cell is kept exactly when its fill resolves to a background; a non-empty one always is; the font colour never matters; 0, 0.0 and False are kept |
| Cells.FormulaSplit | extract_excel.py:485-493 | text starting with `=` is stored as the formula, with the cached value as the value; any other value is stored as is, with no formula |
| Cells.SumFormulaExample | extract_excel.py:485-493 | `=SUM(A1:A2)` with a cached 7 gives that formula and value 7 |
| Cells.ConvenienceColorsMatchFacets | extract_excel.py:516-535 | `color` is the font record's colour and `backgroundColor` is the fill record's `fgColor or bgColor` |
| Cells.ConvenienceColorsAreHashColors | extract_excel.py:516-535 | with a well-formed theme table, both convenience colours are `#` and six characters |
| DefinedNames.ItemRecords | extract_excel.py:294-295 | one record per object, in order |
| DefinedNames.DefinedNames | extract_excel.py:267-315 | the result of the three-path search |
| DefinedNames.ExtractDefinedNames | extract_excel.py:267-315 | the loops compute exactly that result |
| DefinedNames.KeyedPass | extract_excel.py:279-286 | the mapping loop yields the keyed records |
| DefinedNames.ValuesPass | extract_excel.py:302-311 | the values loop appends the values' records |
| DefinedNames.AppendEntry | extract_excel.py:281-286 | one entry appends its object, or each object of its list |
| DefinedNames.KeyedRecordsAreNamed | extract_excel.py:281-286 | on the mapping path every record has a name, because a missing name defaults to the key |
| DefinedNames.KeyedByNameMatchesList | extract_excel.py:279-296 | a mapping from each name to its object gives the records of the list of those objects |
| DefinedNames.DictAndListShapesAgree | extract_excel.py:267-315 | mapping-shaped and list-shaped containers of the same named objects give the same result, for any number of objects |
| DefinedNames.KeyedAndValuesAgree | extract_excel.py:279-311 | when every object is named, the mapping path and the values path agree |
| Filenames.TrimStart | extract_excel.py:574 | removes exactly the leading white space |
| Filenames.TrimEnd | extract_excel.py:574 | removes exactly the trailing white space |
| Filenames.RunLength | extract_excel.py:574 | measures the leading run of characters outside `[A-Za-z0-9._-]` |
| Filenames.Sanitize | extract_excel.py:574 | the result uses only `[A-Za-z0-9._-]`, is no longer than its input, and is empty only for empty input |
| Filenames.SanitizeRun | extract_excel.py:574 | a run of characters outside `[A-Za-z0-9._-]` on its own becomes exactly one `_` |
| Filenames.SanitizeConcat | extract_excel.py:574 | cut next to an allowed character, the input is sanitised piece by piece, so every run is replaced separately |
| Filenames.SanitizeKeepsFilenames | extract_excel.py:574 | a name already in the character set is unchanged |
| Filenames.SanitizeKeepsOtherChars | extract_excel.py:574 | the substitution only writes underscores: every other allowed character survives, in order |
| Filenames.SafeFilename | extract_excel.py:573-575 | the result is non-empty and uses only `[A-Za-z0-9._-]`; a blank name becomes `sheet`, any other is the substitution applied to the stripped name |
| Filenames.SafeFilenameIdempotent | extract_excel.py:573-575 | applying it twice is the same as once |

## Left out

- Loading the workbook and writing the JSON are not modelled. That covers `load_workbook`, `dump_workbook`, `main`, the argument parsing and the per-sheet files.
- The sheet metadata is not modelled (extract_excel.py:319-430). That covers the view and pane, columns, rows, validations, conditional formats, merged ranges and tables.
- The used rectangle is a parameter of `ScanUsedRange`. The model does not cover `calculate_dimension`, `range_boundaries` or their fallback.
- Addresses are (row, column) pairs rather than `A1` strings.
- Cell values are scalar kinds plus an opaque `Other` kind for any other object openpyxl stores as a value, such as an array formula. The model does not cover the date and time serialisation, the JSON `default` hook, or what such objects serialise to.
- The `cells`, `hyperlinks` and alignment tables are Dafny maps, so the model does not keep the row-major insertion order in which the source fills them and the JSON lists them.
- XML parsing is not modelled. Each reading of the theme (the parsed object or `clrScheme` in the raw XML) is a map from role name to its `srgbClr`/`sysClr` elements. None stands for a reading that is unavailable.
- `COLOR_INDEX` is a parameter (the palette). Its contents belong to openpyxl and are not part of this model.
- `Theme.BuildThemeMap`: an exception partway through the parsed loop would leave its entries in the table before the XML fallback adds to it. The model takes each reading as all or nothing.
- `Strings.ParseHexByte`: `int(pair, 16)` also accepts a sign, surrounding white space, or non-ASCII decimal digits such as `"٣f"` (0x3F), as well as `" f"` and `"-f"`. The model reads a pair as hexadecimal only when both characters are ASCII hex digits. Such colours therefore fail the tint step here.
- `Strings.UpperFacts`: `str.upper()` folds all of Unicode. The model upper-cases ASCII letters only.
- `Tint.ApplyTint`: the tint is an exact rational rather than an IEEE double. Rounding a product that a double would round differently is not modelled.
- `Colors.ColorToHex`: the `rgb` of a colour object is optional text. The model does not cover openpyxl's descriptor returning an error message for non-RGB colours, or `str()` of non-string `rgb` values. The index and theme attributes are integers, so `int()` on them cannot fail here.
- A name attribute that is present but `None` is not distinguished from a missing one.
- `DefinedNames.ExtractDefinedNames`: the list and values paths are taken to run without raising once they start. A container without a `definedName` list, or without values, is modelled as None. A raise in the mapping path is modelled by the entries yielded before it, followed by the raise.
- The `try`/`except` blocks around `color`, `backgroundColor` and the inclusion test catch exceptions that the total functions here cannot raise.
