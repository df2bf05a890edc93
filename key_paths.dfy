/**
  The generic key-path extractor: a recursive walk over a JSON document that
  emits a (path, value) record for every object key equal to the target
  name, in document order. `render` stands for Python's `str(value)`.
 */
module KeyPaths {
  import opened Json
  import opened Text

  datatype Match = Match(path: string, value: string)

  /** `f"{path}.{key}" if path else key` */
  function ChildPath(path: string, key: string): (r: string)
    ensures IsSuffix(key, r)
    ensures path != "" ==> IsPrefix(path, r)
  {
    if path == "" then key else path + "." + key
  }

  /** `f"{path}[{i}]" if path else f"[{i}]"` */
  function ItemPath(path: string, i: nat): (r: string)
    ensures path != "" ==> IsPrefix(path, r)
  {
    if path == "" then "[" + NatToString(i) + "]" else path + "[" + NatToString(i) + "]"
  }

  /** `str(value) if value is not None else ''` */
  function ValueText(v: Json, render: Json -> string): string {
    if v == JNull then "" else render(v)
  }

  /** Every record's path ends with the target key and extends the starting path. */
  ghost predicate PathsWellFormed(r: seq<Match>, column: string, path: string) {
    forall m :: m in r ==> IsSuffix(column, m.path) && (path != "" ==> IsPrefix(path, m.path))
  }

  lemma {:induction false} PrefixTransitive(a: string, b: string, c: string)
    requires IsPrefix(a, b) && IsPrefix(b, c)
    ensures IsPrefix(a, c)
  {
    assert c[..|a|] == c[..|b|][..|a|];
  }

  /** `extract_column_data(data, column_name, path)` */
  function ExtractColumnData(data: Json, column: string, path: string, render: Json -> string): (r: seq<Match>)
    ensures PathsWellFormed(r, column, path)
    ensures !data.JObj? && !data.JArr? ==> r == []
    decreases data, 1, 0
  {
    match data
    case JObj(fields) => ExtractFields(data, 0, column, path, render)
    case JArr(items) => ExtractItems(data, 0, column, path, render)
    case _ => []
  }

  /** The records of the object's entries from the `i`-th on, entry by entry. */
  function ExtractFields(obj: Json, i: nat, column: string, path: string, render: Json -> string): (r: seq<Match>)
    requires obj.JObj? && i <= |obj.fields|
    ensures PathsWellFormed(r, column, path)
    decreases obj, 0, |obj.fields| - i
  {
    if i == |obj.fields| then []
    else
      var key := obj.fields[i].0;
      var child := ChildPath(path, key);
      var here := if key == column then [Match(child, ValueText(obj.fields[i].1, render))] else [];
      var nested := ExtractColumnData(obj.fields[i].1, column, child, render);
      var rest := ExtractFields(obj, i + 1, column, path, render);
      assert PathsWellFormed(nested, column, path) by {
        if path != "" {
          forall m | m in nested ensures IsPrefix(path, m.path) {
            PrefixTransitive(path, child, m.path);
          }
        }
      }
      here + nested + rest
  }

  /** The records of the list's elements from the `i`-th on, element by element. */
  function ExtractItems(arr: Json, i: nat, column: string, path: string, render: Json -> string): (r: seq<Match>)
    requires arr.JArr? && i <= |arr.items|
    ensures PathsWellFormed(r, column, path)
    decreases arr, 0, |arr.items| - i
  {
    if i == |arr.items| then []
    else
      var child := ItemPath(path, i);
      var nested := ExtractColumnData(arr.items[i], column, child, render);
      var rest := ExtractItems(arr, i + 1, column, path, render);
      assert PathsWellFormed(nested, column, path) by {
        if path != "" {
          forall m | m in nested ensures IsPrefix(path, m.path) {
            PrefixTransitive(path, child, m.path);
          }
        }
      }
      nested + rest
  }

  // ---------------------------------------------------------------------------
  // How many records: one per occurrence of the key anywhere in the document
  // ---------------------------------------------------------------------------

  /** The number of object keys equal to `column` anywhere in `data`. */
  function KeyOccurrences(data: Json, column: string): nat
    decreases data, 1, 0
  {
    match data
    case JObj(fields) => FieldOccurrences(data, 0, column)
    case JArr(items) => ItemOccurrences(data, 0, column)
    case _ => 0
  }

  function FieldOccurrences(obj: Json, i: nat, column: string): nat
    requires obj.JObj? && i <= |obj.fields|
    decreases obj, 0, |obj.fields| - i
  {
    if i == |obj.fields| then 0
    else
      var here := if obj.fields[i].0 == column then 1 else 0;
      here + KeyOccurrences(obj.fields[i].1, column) + FieldOccurrences(obj, i + 1, column)
  }

  function ItemOccurrences(arr: Json, i: nat, column: string): nat
    requires arr.JArr? && i <= |arr.items|
    decreases arr, 0, |arr.items| - i
  {
    if i == |arr.items| then 0
    else KeyOccurrences(arr.items[i], column) + ItemOccurrences(arr, i + 1, column)
  }

  /** The walk emits exactly one record per occurrence of the key. */
  lemma {:induction false} ExtractCount(data: Json, column: string, path: string, render: Json -> string)
    ensures |ExtractColumnData(data, column, path, render)| == KeyOccurrences(data, column)
    decreases data, 1, 0
  {
    match data
    case JObj(fields) => ExtractFieldsCount(data, 0, column, path, render);
    case JArr(items) => ExtractItemsCount(data, 0, column, path, render);
    case _ =>
  }

  lemma {:induction false} ExtractFieldsCount(obj: Json, i: nat, column: string, path: string, render: Json -> string)
    requires obj.JObj? && i <= |obj.fields|
    ensures |ExtractFields(obj, i, column, path, render)| == FieldOccurrences(obj, i, column)
    decreases obj, 0, |obj.fields| - i
  {
    if i < |obj.fields| {
      ExtractCount(obj.fields[i].1, column, ChildPath(path, obj.fields[i].0), render);
      ExtractFieldsCount(obj, i + 1, column, path, render);
    }
  }

  lemma {:induction false} ExtractItemsCount(arr: Json, i: nat, column: string, path: string, render: Json -> string)
    requires arr.JArr? && i <= |arr.items|
    ensures |ExtractItems(arr, i, column, path, render)| == ItemOccurrences(arr, i, column)
    decreases arr, 0, |arr.items| - i
  {
    if i < |arr.items| {
      ExtractCount(arr.items[i], column, ItemPath(path, i), render);
      ExtractItemsCount(arr, i + 1, column, path, render);
    }
  }

  /**
    A matching key is reported before anything found inside its value, and
    the walk still descends into that value.
   */
  lemma {:induction false} MatchPrecedesNested(obj: Json, i: nat, column: string, path: string, render: Json -> string)
    requires obj.JObj? && i < |obj.fields| && obj.fields[i].0 == column
    ensures var child := ChildPath(path, column);
      ExtractFields(obj, i, column, path, render)
      == [Match(child, ValueText(obj.fields[i].1, render))]
         + ExtractColumnData(obj.fields[i].1, column, child, render)
         + ExtractFields(obj, i + 1, column, path, render)
  {
  }

  /** An object holding only the target key with a scalar value yields that one record. */
  lemma {:induction false} SingleScalarEntry(key: string, v: Json, path: string, render: Json -> string)
    requires !v.JObj? && !v.JArr?
    ensures ExtractColumnData(JObj([(key, v)]), key, path, render)
         == [Match(ChildPath(path, key), ValueText(v, render))]
  {
    var obj := JObj([(key, v)]);
    assert ExtractFields(obj, 1, key, path, render) == [];
    assert ExtractColumnData(v, key, ChildPath(path, key), render) == [];
  }

  /** A one-element list of such an object yields the record under path `path[0]`. */
  lemma {:induction false} SingletonListEntry(key: string, v: Json, path: string, render: Json -> string)
    requires !v.JObj? && !v.JArr?
    ensures ExtractColumnData(JArr([JObj([(key, v)])]), key, path, render)
         == [Match(ChildPath(ItemPath(path, 0), key), ValueText(v, render))]
  {
    var list := JArr([JObj([(key, v)])]);
    SingleScalarEntry(key, v, ItemPath(path, 0), render);
    assert ExtractItems(list, 1, key, path, render) == [];
  }

  /**
    The worked example: `{a: {key: v1}, b: [{key: v2}]}`, where neither `a` nor
    `b` is the key, yields `a.key` then `b[0].key`, with the values' texts.
   */
  lemma {:induction false} NestedExample(a: string, b: string, key: string, v1: Json, v2: Json, render: Json -> string)
    requires a != "" && b != "" && a != key && b != key
    requires !v1.JObj? && !v1.JArr? && !v2.JObj? && !v2.JArr?
    ensures ExtractColumnData(JObj([(a, JObj([(key, v1)])), (b, JArr([JObj([(key, v2)])]))]), key, "", render)
         == [Match(a + "." + key, ValueText(v1, render)), Match(b + "[0]." + key, ValueText(v2, render))]
  {
    var doc := JObj([(a, JObj([(key, v1)])), (b, JArr([JObj([(key, v2)])]))]);
    SingleScalarEntry(key, v1, a, render);
    SingletonListEntry(key, v2, b, render);
    assert NatToString(0) == "0";
    assert ChildPath(ItemPath(b, 0), key) == b + "[0]." + key;
    assert ExtractFields(doc, 2, key, "", render) == [];
    var m2 := Match(b + "[0]." + key, ValueText(v2, render));
    assert ExtractFields(doc, 1, key, "", render) == [m2];
  }
}
