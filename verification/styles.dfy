/** The style projectors: total maps from optional font, fill, border,
    alignment and rich-text facets to the compact records the extractor
    emits, with every colour resolved through the workbook's `to_hex`. */
module Styles {
  import opened Wrappers
  import opened Colors

  /** A font's attributes; None is an attribute the font does not have. */
  datatype Font = Font(name: Option<string>, size: Option<real>, bold: Option<bool>, italic: Option<bool>,
                       underline: Option<string>, strike: Option<bool>, color: ColorRef)

  datatype FontRecord = FontRecord(name: Option<string>, size: Option<real>, bold: Option<bool>, italic: Option<bool>,
                                   underline: bool, strike: Option<bool>, color: Option<string>)

  /** `font_to_obj`: the plain attributes pass through, the underline style
      becomes a boolean and the colour is resolved. */
  function FontToRecord(f: Font, toHex: Resolver): (r: FontRecord)
    ensures r.underline <==> Declared(f.underline)
    ensures r.name == f.name && r.size == f.size && r.bold == f.bold && r.italic == f.italic && r.strike == f.strike
    ensures r.color == toHex(f.color)
  {
    FontRecord(f.name, f.size, f.bold, f.italic, Declared(f.underline), f.strike, toHex(f.color))
  }

  /** A fill's `fgColor` or `bgColor` attribute: the colour object itself
      (`own`) and the `color` attribute some shapes wrap it in (`wrapped`). */
  datatype FillColor = FillColor(wrapped: ColorRef, own: ColorRef)

  /** `getattr(fg, "color", None) or fg`. */
  function Unwrap(fc: FillColor): ColorRef
  {
    if Truthy(fc.wrapped) then fc.wrapped else fc.own
  }

  datatype Fill = Fill(fillType: Option<string>, fgColor: FillColor, bgColor: FillColor)

  datatype FillRecord = FillRecord(fillType: string, fgColor: Option<string>, bgColor: Option<string>)

  /** `fill_to_obj`: nothing for a missing fill or one without a fill type;
      otherwise the type and both colours, each resolved on its own. */
  function FillToRecord(fill: Option<Fill>, toHex: Resolver): (r: Option<FillRecord>)
    ensures r.None? <==> fill.None? || !Declared(fill.value.fillType)
    ensures r.Some? ==> r.value.fillType == fill.value.fillType.value
                        && r.value.fgColor == toHex(Unwrap(fill.value.fgColor))
                        && r.value.bgColor == toHex(Unwrap(fill.value.bgColor))
  {
    if fill.None? || !Declared(fill.value.fillType) then None
    else
      var f := fill.value;
      Some(FillRecord(f.fillType.value, toHex(Unwrap(f.fgColor)), toHex(Unwrap(f.bgColor))))
  }

  datatype Edge = Edge(style: Option<string>, color: ColorRef)

  datatype EdgeRecord = EdgeRecord(style: string, color: Option<string>)

  /** `edge_to_obj`: nothing for a missing edge or one without a line style. */
  function EdgeToRecord(edge: Option<Edge>, toHex: Resolver): (r: Option<EdgeRecord>)
    ensures r.None? <==> edge.None? || !Declared(edge.value.style)
    ensures r.Some? ==> r.value.style == edge.value.style.value && r.value.color == toHex(edge.value.color)
  {
    if edge.None? || !Declared(edge.value.style) then None
    else Some(EdgeRecord(edge.value.style.value, toHex(edge.value.color)))
  }

  datatype Border = Border(left: Option<Edge>, right: Option<Edge>, top: Option<Edge>, bottom: Option<Edge>,
                           diagonal: Option<Edge>)

  /** All five keys are always there; an absent edge is None. */
  datatype BorderRecord = BorderRecord(left: Option<EdgeRecord>, right: Option<EdgeRecord>, top: Option<EdgeRecord>,
                                       bottom: Option<EdgeRecord>, diagonal: Option<EdgeRecord>)

  /** `border_to_obj`: each of the five edges projected on its own. */
  function BorderToRecord(b: Border, toHex: Resolver): (r: BorderRecord)
    ensures r.left.None? <==> b.left.None? || !Declared(b.left.value.style)
    ensures r.right.None? <==> b.right.None? || !Declared(b.right.value.style)
    ensures r.top.None? <==> b.top.None? || !Declared(b.top.value.style)
    ensures r.bottom.None? <==> b.bottom.None? || !Declared(b.bottom.value.style)
    ensures r.diagonal.None? <==> b.diagonal.None? || !Declared(b.diagonal.value.style)
    ensures r.left == EdgeToRecord(b.left, toHex) && r.right == EdgeToRecord(b.right, toHex)
    ensures r.top == EdgeToRecord(b.top, toHex) && r.bottom == EdgeToRecord(b.bottom, toHex)
    ensures r.diagonal == EdgeToRecord(b.diagonal, toHex)
  {
    BorderRecord(EdgeToRecord(b.left, toHex), EdgeToRecord(b.right, toHex), EdgeToRecord(b.top, toHex),
                 EdgeToRecord(b.bottom, toHex), EdgeToRecord(b.diagonal, toHex))
  }

  datatype Alignment = Alignment(horizontal: Option<string>, vertical: Option<string>)

  /** `alignment_to_obj`: only `horizontal` and `vertical`, each only when set. */
  function AlignmentToRecord(a: Alignment): (r: map<string, string>)
    ensures r.Keys <= {"horizontal", "vertical"}
    ensures "horizontal" in r <==> a.horizontal.Some?
    ensures "vertical" in r <==> a.vertical.Some?
    ensures a.horizontal.Some? ==> r["horizontal"] == a.horizontal.value
    ensures a.vertical.Some? ==> r["vertical"] == a.vertical.value
  {
    var out := map[];
    var out := if a.horizontal.Some? then out["horizontal" := a.horizontal.value] else out;
    if a.vertical.Some? then out["vertical" := a.vertical.value] else out
  }

  /** A rich-text run: its three possible text attributes and its two
      possible font attributes. */
  datatype Run = Run(text: Option<string>, t: Option<string>, value: Option<string>,
                     font: Option<Font>, rPr: Option<Font>)

  datatype RunRecord = RunRecord(text: Option<string>, font: Option<FontRecord>)

  /** `text or t or value` and `font or rPr`: the first truthy text attribute
      (the last one when none is), and the font projected when there is one. */
  function RunToRecord(run: Run, toHex: Resolver): (r: RunRecord)
    ensures Declared(run.text) ==> r.text == run.text
    ensures !Declared(run.text) && Declared(run.t) ==> r.text == run.t
    ensures !Declared(run.text) && !Declared(run.t) ==> r.text == run.value
    ensures r.font.Some? <==> run.font.Some? || run.rPr.Some?
    ensures run.font.Some? ==> r.font == Some(FontToRecord(run.font.value, toHex))
    ensures run.font.None? && run.rPr.Some? ==> r.font == Some(FontToRecord(run.rPr.value, toHex))
  {
    var text := if Declared(run.text) then run.text else if Declared(run.t) then run.t else run.value;
    var font := if run.font.Some? then run.font else run.rPr;
    RunRecord(text, if font.Some? then Some(FontToRecord(font.value, toHex)) else None)
  }

  /** An attribute of the cell's raw value: a list of runs, or something else. */
  datatype AttrValue = RunList(runs: seq<Run>) | NotAList

  /** The attributes the cell's raw value has, by name (a missing name is an
      attribute `hasattr` does not find). */
  type RichSource = map<string, AttrValue>

  /** The attribute names tried, in order, across library versions. */
  const RichAttrNames: seq<string> := ["rich", "_rich", "r"]

  /** `hasattr(v, name) and isinstance(getattr(v, name), list)`. */
  predicate IsListAttr(src: RichSource, name: string)
  {
    name in src && src[name].RunList?
  }

  /** The first list-valued attribute among `names`, or [] when there is none:
      the search stops at the first list, even an empty one. */
  function FirstRunList(src: RichSource, names: seq<string>): (runs: seq<Run>)
    ensures (forall i :: 0 <= i < |names| ==> !IsListAttr(src, names[i])) ==> runs == []
    ensures forall i :: (0 <= i < |names| && IsListAttr(src, names[i])
                         && forall j :: 0 <= j < i ==> !IsListAttr(src, names[j])) ==> runs == src[names[i]].runs
  {
    if names == [] then []
    else if IsListAttr(src, names[0]) then src[names[0]].runs
    else
      var rest := FirstRunList(src, names[1..]);
      assert forall i :: 1 <= i < |names| ==> names[i] == names[1..][i - 1];
      rest
  }

  /** What `rich_text_runs` returns: None without a non-empty run list,
      otherwise one record per run, in order. */
  function RichRuns(src: RichSource, toHex: Resolver): (r: Option<seq<RunRecord>>)
    ensures r.None? <==> FirstRunList(src, RichAttrNames) == []
    ensures r.Some? ==>
              var runs := FirstRunList(src, RichAttrNames);
              |r.value| == |runs| > 0 && forall i :: 0 <= i < |runs| ==> r.value[i] == RunToRecord(runs[i], toHex)
  {
    var runs := FirstRunList(src, RichAttrNames);
    if runs == [] then None else Some(seq(|runs|, i requires 0 <= i < |runs| => RunToRecord(runs[i], toHex)))
  }

  /** `rich_text_runs`: find the first list among the candidate attributes,
      then project its runs one by one. */
  method RichTextRuns(src: RichSource, toHex: Resolver) returns (result: Option<seq<RunRecord>>)
    ensures result == RichRuns(src, toHex)
  {
    var candidates: seq<Run> := [];
    var k := 0;
    while k < |RichAttrNames|
      invariant 0 <= k <= |RichAttrNames|
      invariant FirstRunList(src, RichAttrNames) == FirstRunList(src, RichAttrNames[k..])
    {
      var attr := RichAttrNames[k];
      if IsListAttr(src, attr) {
        candidates := src[attr].runs;
        break;
      }
      assert RichAttrNames[k..][1..] == RichAttrNames[k + 1..];
      k := k + 1;
    }
    assert candidates == FirstRunList(src, RichAttrNames);
    if candidates == [] {
      return None;
    }
    var runs: seq<RunRecord> := [];
    for i := 0 to |candidates|
      invariant |runs| == i
      invariant forall j :: 0 <= j < i ==> runs[j] == RunToRecord(candidates[j], toHex)
    {
      runs := runs + [RunToRecord(candidates[i], toHex)];
    }
    assert runs == seq(|candidates|, i requires 0 <= i < |candidates| => RunToRecord(candidates[i], toHex));
    result := Some(runs);
  }
}
