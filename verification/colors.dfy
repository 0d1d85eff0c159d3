/** `color_to_hex`: resolving a colour reference to `#RRGGBB`, or to nothing.
    The sources are tried in a fixed order (direct RGB, legacy palette index,
    theme slot with tint, the reference's own text) and an unusable source
    falls through to the next one; nothing here ever fails. */
module Colors {
  import opened Wrappers
  import opened Strings
  import opened Tint
  import opened Theme

  /** A colour's `tint` attribute: a number, or something `float()` rejects. */
  datatype TintInput = Numeric(x: real) | Unconvertible

  /** What the resolver can be handed: None, a bare ARGB/RGB string, or a
      colour object with its optional `rgb`, `indexed`, `theme` and `tint`
      attributes and its text form `str(c)` (`rendered`). */
  datatype ColorRef =
    | Absent
    | Plain(s: string)
    | Color(rgb: Option<string>, indexed: Option<int>, theme: Option<int>, tint: Option<TintInput>, rendered: string)

  /** Python truthiness of a reference: None and "" are false, objects true. */
  predicate Truthy(c: ColorRef)
  {
    match c
    case Absent => false
    case Plain(s) => s != ""
    case Color(_, _, _, _, _) => true
  }

  /** `float(tint) if tint is not None else None`, with a failed conversion
      read as None. */
  function TintOf(t: Option<TintInput>): (r: Option<real>)
    ensures r.Some? <==> t.Some? && t.value.Numeric?
    ensures r.Some? ==> r.value == t.value.x
  {
    match t
    case Some(Numeric(x)) => Some(x)
    case _ => None
  }

  /** The 6/8-length step used for `rgb`, palette entries and plain strings:
      upper-case, then keep the last six characters of an eight-character
      (alpha-prefixed) value or all of a six-character one. */
  function NormaliseHex(raw: string): (r: Option<string>)
    ensures r.Some? <==> |raw| == 6 || |raw| == 8
    ensures r.Some? ==> r.value == "#" + Upper(raw[|raw| - 6..]) && IsHashColor(r.value)
  {
    var s := Upper(raw);
    if |s| == 8 then
      UpperFacts(raw, 2, 8);
      UpperFacts(raw[2..], 0, 0);
      Some("#" + s[2..])
    else if |s| == 6 then
      UpperFacts(raw, 0, 6);
      assert raw[0..] == raw;
      Some("#" + s)
    else None
  }

  /** `color_to_hex(c, theme_map)` with the palette `COLOR_INDEX` passed in. */
  function ColorToHex(c: ColorRef, palette: seq<string>, theme: map<int, string>): (r: Option<string>)
    ensures !Truthy(c) ==> r.None?
    ensures ThemeMapShaped(theme) && r.Some? ==> IsHashColor(r.value)
  {
    match c
    case Absent => None
    case Plain(s) => if s == "" then None else NormaliseHex(s)
    case Color(rgb, indexed, slot, tint, rendered) =>
      if rgb.Some? && rgb.value != "" && NormaliseHex(rgb.value).Some? then
        NormaliseHex(rgb.value)
      else if indexed.Some? && 0 <= indexed.value < |palette| && NormaliseHex(palette[indexed.value]).Some? then
        NormaliseHex(palette[indexed.value])
      else if slot.Some? && theme != map[] && slot.value in theme && theme[slot.value] != ""
              && ApplyTint(theme[slot.value], TintOf(tint)).Some? then
        ThemedStep(theme, slot.value, tint)
      else
        NormaliseHex(rendered)
  }

  /** The theme step once its base colour is found: the tint applied to it. */
  function ThemedStep(theme: map<int, string>, slot: int, tint: Option<TintInput>): (r: Option<string>)
    requires slot in theme
    ensures ThemeMapShaped(theme) && r.Some? ==> IsHashColor(r.value)
  {
    var base := theme[slot];
    var out := ApplyTint(base, TintOf(tint));
    assert out.Some? && Tints(base, TintOf(tint)) ==> forall i :: 1 <= i < 7 ==> !IsLower(out.value[i]);
    out
  }

  // The four sources, each on its own, as an independent statement of the
  // resolver: the first one that yields something decides.

  function DirectStep(c: ColorRef): Option<string>
  {
    if c.Color? && Declared(c.rgb) then NormaliseHex(c.rgb.value) else None
  }

  function PaletteStep(c: ColorRef, palette: seq<string>): Option<string>
  {
    if c.Color? && c.indexed.Some? && 0 <= c.indexed.value < |palette| then NormaliseHex(palette[c.indexed.value]) else None
  }

  function ThemeStep(c: ColorRef, theme: map<int, string>): Option<string>
  {
    if c.Color? && c.theme.Some? && theme != map[] && c.theme.value in theme && theme[c.theme.value] != ""
    then ApplyTint(theme[c.theme.value], TintOf(c.tint))
    else None
  }

  function TextStep(c: ColorRef): Option<string>
  {
    match c
    case Absent => None
    case Plain(s) => NormaliseHex(s)
    case Color(_, _, _, _, rendered) => NormaliseHex(rendered)
  }

  /** The first attempt that yields a value. */
  function FirstSome(attempts: seq<Option<string>>): (r: Option<string>)
    ensures r.Some? <==> exists i :: 0 <= i < |attempts| && attempts[i].Some?
    ensures r.Some? ==> exists i :: 0 <= i < |attempts| && attempts[i] == r && forall j :: 0 <= j < i ==> attempts[j].None?
  {
    if attempts == [] then None
    else if attempts[0].Some? then attempts[0]
    else
      var rest := FirstSome(attempts[1..]);
      assert forall i :: 1 <= i < |attempts| ==> attempts[i] == attempts[1..][i - 1];
      rest
  }

  /** The resolver is the ranked fallback chain over its four sources. */
  lemma ColorToHexIsFallbackChain(c: ColorRef, palette: seq<string>, theme: map<int, string>)
    ensures ColorToHex(c, palette, theme) ==
              if Truthy(c) then FirstSome([DirectStep(c), PaletteStep(c, palette), ThemeStep(c, theme), TextStep(c)])
              else None
  {
    var d, p, t, x := DirectStep(c), PaletteStep(c, palette), ThemeStep(c, theme), TextStep(c);
    var steps := [d, p, t, x];
    assert steps[1..] == [p, t, x];
    assert [p, t, x][1..] == [t, x];
    assert [t, x][1..] == [x];
    assert [x][1..] == [];
    assert FirstSome([x]) == x;
    assert FirstSome([t, x]) == if t.Some? then t else x;
    assert FirstSome([p, t, x]) == if p.Some? then p else if t.Some? then t else x;
    assert FirstSome(steps) == if d.Some? then d else if p.Some? then p else if t.Some? then t else x;
  }

  /** A usable `rgb` (six or eight characters) decides, whatever the index
      and theme say: the result is '#' and its last six characters upper-cased. */
  lemma DirectRgbWins(c: ColorRef, palette: seq<string>, theme: map<int, string>)
    requires c.Color? && c.rgb.Some? && (|c.rgb.value| == 6 || |c.rgb.value| == 8)
    ensures ColorToHex(c, palette, theme) == Some("#" + Upper(c.rgb.value[|c.rgb.value| - 6..]))
  {
  }

  /** With no usable `rgb`, an in-range palette index whose entry has six or
      eight characters decides before the theme is consulted. */
  lemma PaletteBeforeTheme(c: ColorRef, palette: seq<string>, theme: map<int, string>)
    requires c.Color? && (c.rgb.None? || (|c.rgb.value| != 6 && |c.rgb.value| != 8))
    requires c.indexed.Some? && 0 <= c.indexed.value < |palette|
    requires |palette[c.indexed.value]| == 6 || |palette[c.indexed.value]| == 8
    ensures ColorToHex(c, palette, theme) ==
              Some("#" + Upper(palette[c.indexed.value][|palette[c.indexed.value]| - 6..]))
  {
  }

  /** A theme reference contributes nothing when the table is empty or lacks
      the slot: the result is what the reference gives without it. */
  lemma MissingThemeSlotContributesNothing(c: ColorRef, palette: seq<string>, theme: map<int, string>)
    requires c.Color? && c.theme.Some? && (theme == map[] || c.theme.value !in theme)
    ensures ColorToHex(c, palette, theme) == ColorToHex(c.(theme := None), palette, theme)
  {
  }

  /** With no usable `rgb` or palette entry and a present, non-empty theme
      base, the result is that base with the tint applied; only when the tint
      step raises does the text form get its turn. */
  lemma ThemeSlotTinted(c: ColorRef, palette: seq<string>, theme: map<int, string>)
    requires c.Color? && (c.rgb.None? || (|c.rgb.value| != 6 && |c.rgb.value| != 8))
    requires c.indexed.None? || !(0 <= c.indexed.value < |palette|)
             || (|palette[c.indexed.value]| != 6 && |palette[c.indexed.value]| != 8)
    requires c.theme.Some? && c.theme.value in theme && theme[c.theme.value] != ""
    ensures var tinted := ApplyTint(theme[c.theme.value], TintOf(c.tint));
            ColorToHex(c, palette, theme) == if tinted.Some? then tinted else NormaliseHex(c.rendered)
  {
  }

  /** A tint of 0, a missing tint and an unconvertible tint all resolve alike. */
  lemma ZeroTintIsNoTint(c: ColorRef, palette: seq<string>, theme: map<int, string>)
    requires c.Color?
    ensures ColorToHex(c.(tint := Some(Numeric(0.0))), palette, theme) == ColorToHex(c.(tint := None), palette, theme)
    ensures ColorToHex(c.(tint := Some(Unconvertible)), palette, theme) == ColorToHex(c.(tint := None), palette, theme)
  {
  }

  /** The `to_hex` closure the sheet extractor is handed. */
  type Resolver = ColorRef -> Option<string>

  /** `to_hex` as the workbook loader builds it: `color_to_hex` bound to one
      workbook's palette and theme table. */
  function ResolverFor(palette: seq<string>, theme: map<int, string>): Resolver
  {
    c => ColorToHex(c, palette, theme)
  }
}
