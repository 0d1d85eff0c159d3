/** The workbook's theme colour table of `_build_theme_rgb_map`: the twelve
    colour-scheme roles of DrawingML (ECMA-376 Part 1, section 20.1.6.2), in
    slot order, each mapped to `#` and its six-character value upper-cased. */
module Theme {
  import opened Wrappers
  import opened Strings

  /** The roles in the order that gives their slot numbers 0..11. */
  const SchemeRoles: seq<string> :=
    ["lt1", "dk1", "lt2", "dk2",
     "accent1", "accent2", "accent3", "accent4", "accent5", "accent6",
     "hlink", "folHlink"]

  /** An `srgbClr` or `sysClr` element; `val` is its `val` (or `lastClr`)
      attribute, None when the attribute is missing. */
  datatype ColorElement = ColorElement(val: Option<string>)

  /** One role of a colour scheme: its `srgbClr` and `sysClr` children. */
  datatype RoleColor = RoleColor(srgbClr: Option<ColorElement>, sysClr: Option<ColorElement>)

  /** A `clrScheme`: the roles it defines, by name (a missing name is a role
      that the scheme lacks). */
  type ColorScheme = map<string, RoleColor>

  /** The two readings of a scheme: the parsed theme object, and the raw theme
      XML the source falls back to. */
  datatype Reading = ParsedTheme | ThemeXml

  /** The colour value a role yields. Read from the parsed object, a present
      `srgbClr` wins even when it has no value; read from the XML, it wins
      only when it carries a `val` attribute. */
  function RoleValue(rc: RoleColor, reading: Reading): (v: Option<string>)
    ensures v.Some? ==> (rc.srgbClr.Some? && rc.srgbClr.value.val == v) || (rc.sysClr.Some? && rc.sysClr.value.val == v)
    // parsed object: the presence of `srgbClr` decides, whatever its value
    ensures reading.ParsedTheme? && rc.srgbClr.Some? ==> v == rc.srgbClr.value.val
    ensures reading.ParsedTheme? && rc.srgbClr.None? && rc.sysClr.Some? ==> v == rc.sysClr.value.val
    // raw XML: `srgbClr` decides only when it carries a value
    ensures reading.ThemeXml? && rc.srgbClr.Some? && rc.srgbClr.value.val.Some? ==> v == rc.srgbClr.value.val
    ensures reading.ThemeXml? && (rc.srgbClr.None? || rc.srgbClr.value.val.None?) && rc.sysClr.Some? ==> v == rc.sysClr.value.val
    ensures rc.srgbClr.None? && rc.sysClr.None? ==> v.None?
    ensures reading.ThemeXml? && (rc.srgbClr.None? || rc.srgbClr.value.val.None?) && rc.sysClr.None? ==> v.None?
  {
    match reading
    case ParsedTheme =>
      if rc.srgbClr.Some? then rc.srgbClr.value.val
      else if rc.sysClr.Some? then rc.sysClr.value.val
      else None
    case ThemeXml =>
      if rc.srgbClr.Some? && rc.srgbClr.value.val.Some? then rc.srgbClr.value.val
      else if rc.sysClr.Some? && rc.sysClr.value.val.Some? then rc.sysClr.value.val
      else None
  }

  /** The two readings differ only on a role whose `srgbClr` has no value:
      the parsed object then yields nothing, the XML falls back to `sysClr`. */
  lemma ReadingsDifferOnlyOnBareSrgb(rc: RoleColor)
    ensures RoleValue(rc, ParsedTheme) != RoleValue(rc, ThemeXml)
            <==> rc.srgbClr.Some? && rc.srgbClr.value.val.None? && rc.sysClr.Some? && rc.sysClr.value.val.Some?
  {
  }

  /** A theme colour as the table stores it: '#' and six characters with no
      lower-case letter (the characters are not checked to be hexadecimal). */
  predicate IsHashColor(s: string)
  {
    |s| == 7 && s[0] == '#' && NoLower(s)
  }

  /** The shape every table the builder returns has. */
  predicate ThemeMapShaped(m: map<int, string>)
  {
    forall k :: k in m ==> 0 <= k < 12 && IsHashColor(m[k])
  }

  /** What slot `i` of the table holds after reading `scheme`, if anything. */
  function SlotValue(scheme: ColorScheme, reading: Reading, i: int): (r: Option<string>)
    requires 0 <= i < 12
    ensures r.Some? <==> SchemeRoles[i] in scheme
                         && RoleValue(scheme[SchemeRoles[i]], reading).Some?
                         && |RoleValue(scheme[SchemeRoles[i]], reading).value| == 6
    ensures r.Some? ==> IsHashColor(r.value)
                        && r.value == "#" + Upper(RoleValue(scheme[SchemeRoles[i]], reading).value)
  {
    var key := SchemeRoles[i];
    if key !in scheme then None
    else
      var v := RoleValue(scheme[key], reading);
      if v.Some? && |v.value| == 6 then
        UpperFacts(v.value, 0, 6);
        Some("#" + Upper(v.value))
      else None
  }

  /** The table after the loop has visited the first `n` roles. */
  function SlotsBefore(scheme: ColorScheme, reading: Reading, n: int): (m: map<int, string>)
    requires 0 <= n <= 12
    ensures ThemeMapShaped(m)
  {
    map i | 0 <= i < n && SlotValue(scheme, reading, i).Some? :: SlotValue(scheme, reading, i).value
  }

  /** Visiting role `n` adds slot `n`, and only it, when that role supplies a
      six-character value. */
  lemma SlotsBeforeStep(scheme: ColorScheme, reading: Reading, n: int)
    requires 0 <= n < 12
    ensures SlotsBefore(scheme, reading, n + 1) ==
              if SlotValue(scheme, reading, n).Some?
              then SlotsBefore(scheme, reading, n)[n := SlotValue(scheme, reading, n).value]
              else SlotsBefore(scheme, reading, n)
  {
  }

  /** The table built from one scheme. */
  function SlotTable(scheme: ColorScheme, reading: Reading): (m: map<int, string>)
    ensures ThemeMapShaped(m)
  {
    SlotsBefore(scheme, reading, 12)
  }

  /** The slot-order loop: for each role in turn, store its value when it has
      exactly six characters. */
  method SlotsFrom(scheme: ColorScheme, reading: Reading) returns (mapping: map<int, string>)
    ensures mapping == SlotTable(scheme, reading)
  {
    mapping := map[];
    var i := 0;
    while i < 12
      invariant 0 <= i <= 12
      invariant mapping == SlotsBefore(scheme, reading, i)
    {
      SlotsBeforeStep(scheme, reading, i);
      var key := SchemeRoles[i];
      if key in scheme {
        var v := RoleValue(scheme[key], reading);
        if v.Some? && |v.value| == 6 {
          mapping := mapping[i := "#" + Upper(v.value)];
        }
      }
      i := i + 1;
    }
  }

  /** `_build_theme_rgb_map`: the parsed theme first; only when it yields an
      empty table, the raw theme XML. None stands for a reading that is not
      available (no parsed theme elements, no raw theme, no `clrScheme`). */
  method BuildThemeMap(parsed: Option<ColorScheme>, raw: Option<ColorScheme>) returns (mapping: map<int, string>)
    ensures ThemeMapShaped(mapping)
    ensures parsed.Some? && SlotTable(parsed.value, ParsedTheme) != map[] ==>
              mapping == SlotTable(parsed.value, ParsedTheme)
    ensures (parsed.None? || SlotTable(parsed.value, ParsedTheme) == map[]) ==>
              mapping == (if raw.Some? then SlotTable(raw.value, ThemeXml) else map[])
  {
    mapping := map[];
    if parsed.Some? {
      mapping := SlotsFrom(parsed.value, ParsedTheme);
      if mapping != map[] {
        return;
      }
    }
    if raw.Some? {
      mapping := SlotsFrom(raw.value, ThemeXml);
    }
  }

  /** Slot numbers follow the role order: a value lands in slot `i` exactly
      when the role named `SchemeRoles[i]` supplies a six-character value. */
  lemma {:induction false} SlotTableFollowsRoleOrder(scheme: ColorScheme, reading: Reading, i: int)
    requires 0 <= i < 12
    ensures i in SlotTable(scheme, reading) <==>
              SchemeRoles[i] in scheme && RoleValue(scheme[SchemeRoles[i]], reading).Some?
              && |RoleValue(scheme[SchemeRoles[i]], reading).value| == 6
    ensures i in SlotTable(scheme, reading) ==>
              SlotTable(scheme, reading)[i] == "#" + Upper(RoleValue(scheme[SchemeRoles[i]], reading).value)
  {
    var v := SlotValue(scheme, reading, i);
    if v.Some? {
      assert i in SlotTable(scheme, reading);
    }
  }
}
