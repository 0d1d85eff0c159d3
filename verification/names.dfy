/** `extract_defined_names`: the workbook's defined names as a list of
    (name, attr_text) records, read from whichever of three container shapes
    the loaded workbook offers. */
module DefinedNames {
  import opened Wrappers

  /** A defined-name object. None stands for a missing attribute. */
  datatype DefinedName = DefinedName(name: Option<string>, attrText: Option<string>)

  /** The emitted `{"name": …, "attr_text": …}` record. */
  datatype NameRecord = NameRecord(name: Option<string>, attrText: Option<string>)

  /** What looking a key up (or iterating the values) yields: one object, or a
      list of them. */
  datatype NameEntry = Single(item: DefinedName) | Several(items: seq<DefinedName>)

  /** The container seen as a mapping: the (key, entry) pairs its iteration
      and indexing yield, in order, and whether that iteration raises once
      they are exhausted (a container that is not a mapping raises at once). */
  datatype KeyedView = KeyedView(entries: seq<(string, NameEntry)>, raises: bool)

  /** The `defined_names` container, seen three ways: as a mapping; through
      its `definedName` list (None when it has no such attribute); through its
      values (None when it has none). */
  datatype NamesContainer = NamesContainer(keyed: KeyedView, definedName: Option<seq<DefinedName>>,
                                           values: Option<seq<NameEntry>>)

  /** The record of one object; `fallback` is the default of the name lookup. */
  function ToRecord(it: DefinedName, fallback: Option<string>): NameRecord
  {
    NameRecord(if it.name.Some? then it.name else fallback, it.attrText)
  }

  /** The records of a list of objects, in order. */
  function ItemRecords(items: seq<DefinedName>, fallback: Option<string>): (r: seq<NameRecord>)
    ensures |r| == |items|
    ensures forall j :: 0 <= j < |items| ==> r[j] == ToRecord(items[j], fallback)
  {
    seq(|items|, j requires 0 <= j < |items| => ToRecord(items[j], fallback))
  }

  /** The records of one entry: a list contributes each of its objects. */
  function EntryRecords(e: NameEntry, fallback: Option<string>): seq<NameRecord>
  {
    match e
    case Single(it) => [ToRecord(it, fallback)]
    case Several(items) => ItemRecords(items, fallback)
  }

  /** The mapping path: every entry in key order, a missing name defaulting
      to the key. */
  function KeyedRecords(entries: seq<(string, NameEntry)>): seq<NameRecord>
  {
    if entries == [] then []
    else KeyedRecords(entries[..|entries| - 1]) + EntryRecords(entries[|entries| - 1].1, Some(entries[|entries| - 1].0))
  }

  /** The values path: every value in order, a missing name staying missing. */
  function ValueRecords(values: seq<NameEntry>): seq<NameRecord>
  {
    if values == [] then []
    else ValueRecords(values[..|values| - 1]) + EntryRecords(values[|values| - 1], None)
  }

  /** The list `extract_defined_names` returns. The mapping path is kept on
      its own when it finishes without raising and yields something; otherwise
      the list path, and failing that the values path, appends to whatever
      the mapping path had already appended. */
  function DefinedNames(dn: Option<NamesContainer>): seq<NameRecord>
  {
    if dn.None? then []
    else
      var keyed := KeyedRecords(dn.value.keyed.entries);
      if !dn.value.keyed.raises && keyed != [] then keyed
      else if dn.value.definedName.Some? then keyed + ItemRecords(dn.value.definedName.value, None)
      else if dn.value.values.Some? then keyed + ValueRecords(dn.value.values.value)
      else keyed
  }

  /** `extract_defined_names`: the three paths in turn. */
  method ExtractDefinedNames(dn: Option<NamesContainer>) returns (out: seq<NameRecord>)
    ensures out == DefinedNames(dn)
  {
    out := [];
    if dn.None? {
      return;
    }
    var container := dn.value;
    out := KeyedPass(container.keyed.entries);
    if !container.keyed.raises && out != [] {
      return;
    }
    if container.definedName.Some? {
      out := AppendEntry(out, Several(container.definedName.value), None);
      return;
    }
    if container.values.Some? {
      out := ValuesPass(out, container.values.value);
    }
  }

  /** The loop over the mapping's keys. */
  method KeyedPass(entries: seq<(string, NameEntry)>) returns (out: seq<NameRecord>)
    ensures out == KeyedRecords(entries)
  {
    out := [];
    var i := 0;
    while i < |entries|
      invariant 0 <= i <= |entries|
      invariant out == KeyedRecords(entries[..i])
    {
      assert entries[..i + 1][..i] == entries[..i];
      var (k, e) := entries[i];
      out := AppendEntry(out, e, Some(k));
      i := i + 1;
    }
    assert entries[..i] == entries;
  }

  /** The loop over the container's values. */
  method ValuesPass(out0: seq<NameRecord>, values: seq<NameEntry>) returns (out: seq<NameRecord>)
    ensures out == out0 + ValueRecords(values)
  {
    out := out0;
    var j := 0;
    while j < |values|
      invariant 0 <= j <= |values|
      invariant out == out0 + ValueRecords(values[..j])
    {
      assert values[..j + 1][..j] == values[..j];
      out := AppendEntry(out, values[j], None);
      j := j + 1;
    }
    assert values[..j] == values;
  }

  /** Appending the records of one entry, object by object. */
  method AppendEntry(out0: seq<NameRecord>, e: NameEntry, fallback: Option<string>) returns (out: seq<NameRecord>)
    ensures out == out0 + EntryRecords(e, fallback)
  {
    out := out0;
    match e
    case Single(it) =>
      out := out + [ToRecord(it, fallback)];
    case Several(items) =>
      var j := 0;
      while j < |items|
        invariant 0 <= j <= |items|
        invariant out == out0 + ItemRecords(items[..j], fallback)
      {
        assert ItemRecords(items[..j + 1], fallback) == ItemRecords(items[..j], fallback) + [ToRecord(items[j], fallback)];
        out := out + [ToRecord(items[j], fallback)];
        j := j + 1;
      }
      assert items[..j] == items;
  }

  /** Every record the mapping path produces has a name: a missing name
      defaults to the key. */
  lemma {:induction false} KeyedRecordsAreNamed(entries: seq<(string, NameEntry)>)
    ensures forall r :: r in KeyedRecords(entries) ==> r.name.Some?
    decreases |entries|
  {
    if entries != [] {
      KeyedRecordsAreNamed(entries[..|entries| - 1]);
    }
  }

  /** The mapping as the current reader presents it: every object under its
      own name. */
  function KeyedByName(items: seq<DefinedName>): (es: seq<(string, NameEntry)>)
    requires forall j :: 0 <= j < |items| ==> items[j].name.Some?
    ensures |es| == |items|
  {
    seq(|items|, j requires 0 <= j < |items| => (items[j].name.value, Single(items[j])))
  }

  /** A mapping that yields the objects one by one under their own names
      produces the same records as the `definedName` list of those objects. */
  lemma {:induction false} KeyedByNameMatchesList(items: seq<DefinedName>)
    requires forall j :: 0 <= j < |items| ==> items[j].name.Some?
    ensures KeyedRecords(KeyedByName(items)) == ItemRecords(items, None)
    decreases |items|
  {
    if items != [] {
      var n := |items| - 1;
      assert KeyedByName(items)[..n] == KeyedByName(items[..n]);
      KeyedByNameMatchesList(items[..n]);
      assert ItemRecords(items, None) == ItemRecords(items[..n], None) + [ToRecord(items[n], None)];
    }
  }

  /** The values a name-keyed mapping yields: its objects, one by one. */
  function ValuesOf(items: seq<DefinedName>): (vs: seq<NameEntry>)
    ensures |vs| == |items| && forall j :: 0 <= j < |items| ==> vs[j] == Single(items[j])
  {
    seq(|items|, j requires 0 <= j < |items| => Single(items[j]))
  }

  /** The two container shapes agree: a workbook whose names come as a
      mapping from each name to its object (with those objects as its
      values), and one whose names come as the older `definedName` list of
      the same objects, give the same records, however many there are. */
  lemma DictAndListShapesAgree(items: seq<DefinedName>, listValues: Option<seq<NameEntry>>)
    requires forall j :: 0 <= j < |items| ==> items[j].name.Some?
    ensures DefinedNames(Some(NamesContainer(KeyedView(KeyedByName(items), false), None, Some(ValuesOf(items)))))
            == DefinedNames(Some(NamesContainer(KeyedView([], true), Some(items), listValues)))
  {
    KeyedByNameMatchesList(items);
  }

  /** Every object of an entry carries its own name. */
  predicate EntryNamed(e: NameEntry)
  {
    match e
    case Single(it) => it.name.Some?
    case Several(items) => forall j :: 0 <= j < |items| ==> items[j].name.Some?
  }

  /** The key only ever stands in for a missing name: when every object is
      named, the mapping path and the values path give the same records. */
  lemma {:induction false} KeyedAndValuesAgree(entries: seq<(string, NameEntry)>)
    requires forall i :: 0 <= i < |entries| ==> EntryNamed(entries[i].1)
    ensures KeyedRecords(entries) == ValueRecords(seq(|entries|, i requires 0 <= i < |entries| => entries[i].1))
    decreases |entries|
  {
    if entries != [] {
      var n := |entries| - 1;
      var vs := seq(|entries|, i requires 0 <= i < |entries| => entries[i].1);
      assert vs[..n] == seq(n, i requires 0 <= i < n => entries[..n][i].1);
      KeyedAndValuesAgree(entries[..n]);
      assert EntryRecords(entries[n].1, Some(entries[n].0)) == EntryRecords(entries[n].1, None);
    }
  }
}
