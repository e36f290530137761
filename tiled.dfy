/**
 * The parts of a Tiled map document that the navigation script reads.
 *
 * The script walks the document through `any`-typed JavaScript values and
 * checks every field dynamically. Here each such field is typed: a field the
 * script compares with a string literal or tests with `typeof … === 'string'`
 * is a `Value` (a string or something else), a field it tests with
 * `Array.isArray` is an `Option` of a sequence (`None` when it is not an
 * array), and a list entry that may be `null`, `undefined` or not an object
 * is an `Option` of the entry (`None` for every such entry).
 */
module Tiled {
  import opened Wrappers

  /** A JavaScript value as far as the script looks at it: a string or not. */
  datatype Value = Str(s: string) | NonString

  /** One entry of a Tiled `properties` list. */
  datatype Property = Property(name: Value, value: Value)

  /** A `properties` field: `None` when it is not an array. */
  type Properties = Option<seq<Option<Property>>>

  /** An object of an object layer (`type` is the Tiled class of the object). */
  datatype MapObject = MapObject(name: Value, kind: Value, properties: Properties)

  /** A layer: `kind` is the Tiled layer type, `objects` is `None` when not an array. */
  datatype Layer = Layer(kind: Value, name: Value, objects: Option<seq<Option<MapObject>>>)

  /** The map document: `layers` is `None` when missing (`map.layers ?? []`). */
  datatype TiledMap = TiledMap(layers: Option<seq<Option<Layer>>>)

  /** An entry the lookup accepts: an object whose name is `name` and whose value is a string. */
  predicate Qualifies(entry: Option<Property>, name: string)
  {
    entry.Some? && entry.value.name == Str(name) && entry.value.value.Str?
  }

  /**
   * The scan of `getStringProperty` over a list: the value of the first
   * qualifying entry, or `None` when no entry qualifies.
   */
  function FirstStringValue(entries: seq<Option<Property>>, name: string): (r: Option<string>)
    ensures r.None? <==> forall i :: 0 <= i < |entries| ==> !Qualifies(entries[i], name)
    ensures r.Some? ==>
      exists i :: 0 <= i < |entries| && Qualifies(entries[i], name) &&
        entries[i].value.value == Str(r.value) &&
        forall j :: 0 <= j < i ==> !Qualifies(entries[j], name)
  {
    if entries == [] then None
    else if Qualifies(entries[0], name) then Some(entries[0].value.value.s)
    else
      var r := FirstStringValue(entries[1..], name);
      assert forall i :: 1 <= i < |entries| ==> entries[i] == entries[1..][i - 1];
      if r.Some? then
        var i :| 0 <= i < |entries[1..]| && Qualifies(entries[1..][i], name) &&
          entries[1..][i].value.value == Str(r.value) &&
          forall j :: 0 <= j < i ==> !Qualifies(entries[1..][j], name);
        assert Qualifies(entries[i + 1], name);
        r
      else r
  }

  /** `getStringProperty`: `None` (undefined) when `properties` is not an array. */
  function GetStringProperty(properties: Properties, name: string): (r: Option<string>)
    ensures properties.None? ==> r.None?
    ensures properties.Some? ==> r == FirstStringValue(properties.value, name)
  {
    match properties
    case None => None
    case Some(entries) => FirstStringValue(entries, name)
  }

  /** An entry whose name matches but whose value is not a string is passed over. */
  lemma {:induction false} NonStringValueSkipped(entries: seq<Option<Property>>, name: string, k: nat)
    requires k < |entries| && entries[k].Some? && entries[k].value.name == Str(name)
    requires entries[k].value.value.NonString?
    ensures FirstStringValue(entries, name) == FirstStringValue(entries[..k] + entries[k + 1..], name)
  {
    if k == 0 {
      assert entries[..k] + entries[k + 1..] == entries[1..];
    } else {
      var rest := entries[1..];
      NonStringValueSkipped(rest, name, k - 1);
      assert entries[..k] + entries[k + 1..] == [entries[0]] + (rest[..k - 1] + rest[k..]);
    }
  }
}
