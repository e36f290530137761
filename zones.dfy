/**
 * Exit-zone discovery: the map's `roomNavigation` object layer is searched
 * for area objects that carry an `exitUrl`, and each one becomes an exit
 * zone (the area's name and the label of its destination), in object order.
 */
module ExitZones {
  import opened Wrappers
  import opened Tiled
  import ExitLabel

  const NavigationLayerName: string := "roomNavigation"
  const ObjectGroupType: string := "objectgroup"
  const AreaType: string := "area"
  const ExitUrlProperty: string := "exitUrl"

  /** What the script registers per exit: the area to watch and the banner text. */
  datatype ExitZone = ExitZone(areaName: string, destinationLabel: string)

  /** The layer test of the `find`: an object group named `roomNavigation`. */
  predicate IsNavigationLayer(entry: Option<Layer>)
  {
    entry.Some? && entry.value.kind == Str(ObjectGroupType) && entry.value.name == Str(NavigationLayerName)
  }

  /** `Array.prototype.find` over the layers: the first navigation layer. */
  function FindNavigationLayer(layers: seq<Option<Layer>>): (r: Option<Layer>)
    ensures r.None? <==> forall i :: 0 <= i < |layers| ==> !IsNavigationLayer(layers[i])
    ensures r.Some? ==>
      exists i :: 0 <= i < |layers| && layers[i] == r && IsNavigationLayer(layers[i]) &&
        forall j :: 0 <= j < i ==> !IsNavigationLayer(layers[j])
  {
    if layers == [] then None
    else if IsNavigationLayer(layers[0]) then layers[0]
    else
      var r := FindNavigationLayer(layers[1..]);
      assert forall i :: 1 <= i < |layers| ==> layers[i] == layers[1..][i - 1];
      if r.Some? then
        var i :| 0 <= i < |layers[1..]| && layers[1..][i] == r && IsNavigationLayer(layers[1..][i]) &&
          forall j :: 0 <= j < i ==> !IsNavigationLayer(layers[1..][j]);
        assert layers[i + 1] == r;
        r
      else r
  }

  /** The object list the loop walks: empty without a navigation layer or without an object array. */
  function NavigationObjects(m: TiledMap): (r: seq<Option<MapObject>>)
    ensures r != [] ==>
      m.layers.Some? && FindNavigationLayer(m.layers.value).Some? &&
      FindNavigationLayer(m.layers.value).value.objects == Some(r)
    ensures (m.layers.Some? && FindNavigationLayer(m.layers.value).Some? &&
             FindNavigationLayer(m.layers.value).value.objects.Some?) ==>
      r == FindNavigationLayer(m.layers.value).value.objects.value
  {
    match FindNavigationLayer(if m.layers.Some? then m.layers.value else [])
    case None => []
    case Some(layer) => if layer.objects.Some? then layer.objects.value else []
  }

  /** The `exitUrl` of an object the loop keeps, or `None` when it skips the object. */
  function ExitUrlOf(entry: Option<MapObject>): (r: Option<string>)
    ensures r.Some? <==>
      entry.Some? && entry.value.name.Str? && entry.value.kind == Str(AreaType) &&
      GetStringProperty(entry.value.properties, ExitUrlProperty).Some? &&
      GetStringProperty(entry.value.properties, ExitUrlProperty).value != ""
    ensures r.Some? ==> r == GetStringProperty(entry.value.properties, ExitUrlProperty)
  {
    if entry.None? || !entry.value.name.Str? || entry.value.kind != Str(AreaType) then None
    else
      match GetStringProperty(entry.value.properties, ExitUrlProperty)
      case None => None
      case Some(url) => if url == "" then None else Some(url)
  }

  /** The zone one object yields, or `None` when the loop skips it. */
  function ZoneOf(entry: Option<MapObject>): (r: Option<ExitZone>)
    ensures r.Some? <==>
      entry.Some? && entry.value.name.Str? && entry.value.kind == Str(AreaType) &&
      GetStringProperty(entry.value.properties, ExitUrlProperty).Some? &&
      GetStringProperty(entry.value.properties, ExitUrlProperty).value != ""
    ensures r.Some? <==> ExitUrlOf(entry).Some?
    ensures r.Some? ==>
      entry.Some? && entry.value.name == Str(r.value.areaName) && entry.value.kind == Str(AreaType) &&
      GetStringProperty(entry.value.properties, ExitUrlProperty) == ExitUrlOf(entry) &&
      ExitUrlOf(entry).value != "" && r.value.destinationLabel == ExitLabel.Label(ExitUrlOf(entry).value)
  {
    match ExitUrlOf(entry)
    case None => None
    case Some(url) => Some(ExitZone(entry.value.name.s, ExitLabel.Label(url)))
  }

  /** The loop over the objects: one zone per kept object, in object order. */
  function ZonesOf(objects: seq<Option<MapObject>>): (r: seq<ExitZone>)
    ensures |r| <= |objects|
  {
    if objects == [] then []
    else
      var last := objects[|objects| - 1];
      ZonesOf(objects[..|objects| - 1]) + (if ZoneOf(last).Some? then [ZoneOf(last).value] else [])
  }

  /** The zones of a whole map document. */
  function MapExitZones(m: TiledMap): (r: seq<ExitZone>)
    ensures |r| <= |NavigationObjects(m)|
    ensures NavigationObjects(m) == [] ==> r == []
  {
    ZonesOf(NavigationObjects(m))
  }

  /** The positions of the objects the loop keeps: increasing, and exactly those. */
  function ExitPositions(objects: seq<Option<MapObject>>): (idx: seq<nat>)
    ensures forall k :: 0 <= k < |idx| ==> idx[k] < |objects| && ExitUrlOf(objects[idx[k]]).Some?
    ensures forall k, l :: 0 <= k < l < |idx| ==> idx[k] < idx[l]
    ensures forall i :: 0 <= i < |objects| && ExitUrlOf(objects[i]).Some? ==> i in idx
  {
    if objects == [] then []
    else
      var n := |objects| - 1;
      var front := ExitPositions(objects[..n]);
      assert forall i :: 0 <= i < n ==> objects[..n][i] == objects[i];
      front + (if ExitUrlOf(objects[n]).Some? then [n] else [])
  }

  /**
   * The zones are the kept objects' zones, one each, in the order of the
   * object list.
   */
  lemma {:induction false} ZonesInObjectOrder(objects: seq<Option<MapObject>>)
    ensures |ZonesOf(objects)| == |ExitPositions(objects)|
    ensures forall k :: 0 <= k < |ZonesOf(objects)| ==>
      ZoneOf(objects[ExitPositions(objects)[k]]) == Some(ZonesOf(objects)[k])
  {
    if objects != [] {
      var n := |objects| - 1;
      ZonesInObjectOrder(objects[..n]);
      assert forall i :: 0 <= i < n ==> objects[..n][i] == objects[i];
    }
  }

  /** Every exit object of the navigation layer gives a zone of the map. */
  lemma ExitObjectsGiveZones(m: TiledMap, i: nat)
    requires i < |NavigationObjects(m)| && ZoneOf(NavigationObjects(m)[i]).Some?
    ensures ZoneOf(NavigationObjects(m)[i]).value in MapExitZones(m)
  {
    var objects := NavigationObjects(m);
    ZonesInObjectOrder(objects);
    var idx := ExitPositions(objects);
    assert i in idx;
    var k :| 0 <= k < |idx| && idx[k] == i;
    assert ZonesOf(objects)[k] in ZonesOf(objects);
  }

  /** Every zone comes from an area object of the navigation layer with a non-empty `exitUrl`. */
  lemma ZonesComeFromExitObjects(m: TiledMap, z: ExitZone)
    requires z in MapExitZones(m)
    ensures exists o :: o in NavigationObjects(m) && ZoneOf(o) == Some(z)
  {
    var objects := NavigationObjects(m);
    ZonesInObjectOrder(objects);
    var k :| 0 <= k < |ZonesOf(objects)| && ZonesOf(objects)[k] == z;
    assert objects[ExitPositions(objects)[k]] in objects;
  }

  /** Without a `roomNavigation` object group there are no exit zones. */
  lemma NoNavigationLayerNoZones(m: TiledMap)
    requires m.layers.Some? ==> forall i :: 0 <= i < |m.layers.value| ==> !IsNavigationLayer(m.layers.value[i])
    ensures MapExitZones(m) == []
  {
  }

  /** A navigation layer whose `objects` is not an array yields no exit zones either. */
  lemma NoObjectArrayNoZones(m: TiledMap)
    requires m.layers.Some?
    requires FindNavigationLayer(m.layers.value).Some?
    requires FindNavigationLayer(m.layers.value).value.objects.None?
    ensures MapExitZones(m) == []
  {
  }

  /**
   * Only `exitUrl` is read: an area object without a string `exitUrl`
   * (whatever other properties it has), or with an empty one, is no exit.
   */
  lemma ExitUrlRequired(o: MapObject)
    requires o.properties.Some? ==>
      (forall i :: 0 <= i < |o.properties.value| ==> !Qualifies(o.properties.value[i], ExitUrlProperty)) ||
      FirstStringValue(o.properties.value, ExitUrlProperty) == Some("")
    ensures ZoneOf(Some(o)).None?
  {
  }
}
