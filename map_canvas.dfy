/**
 * The map widget as the screens use it: a factory of handles for the markers and
 * paths it shows. Each object is identified by the handle it was created with; a
 * deleted handle is never reused.
 */
module MapCanvas {
  import opened Common
  import opened Tables

  /** What a marker does when clicked. */
  datatype Click =
    | NoCommand
    /** `MapMarkers._make_marker_click`: show a label with this name. */
    | ShowLabelOf(clickName: string)
    /** `toggle_marker_label` of the points-of-interest screen. */
    | ToggleLabel

  datatype MapObject =
    | Marker(pos: LatLon, text: string, icon: Option<string>, command: Click)
    | Line(points: seq<LatLon>, width: nat, color: string)

  /** The objects of `objs` whose handle is not among `hs`. */
  function RemoveAll(objs: map<nat, MapObject>, hs: seq<nat>): (r: map<nat, MapObject>)
    ensures forall h :: h in r <==> h in objs && h !in hs
    ensures forall h :: h in r ==> r[h] == objs[h]
  {
    map h | h in objs && h !in hs :: objs[h]
  }

  /** Deleting one more handle. */
  lemma RemoveAllSnoc(objs: map<nat, MapObject>, hs: seq<nat>, h: nat)
    ensures RemoveAll(objs, hs + [h]) == RemoveAll(objs, hs) - {h}
  {
  }

  class Canvas {
    var objects: map<nat, MapObject>
    var nextId: nat

    /** Every live handle was handed out already. */
    predicate Valid()
      reads this
    {
      forall h :: h in objects ==> h < nextId
    }

    constructor ()
      ensures objects == map[] && Valid()
    {
      objects := map[];
      nextId := 0;
    }

    /** `set_marker` / `set_path`: a fresh handle for a new object. */
    method Add(o: MapObject) returns (h: nat)
      requires Valid()
      modifies this
      ensures Valid()
      ensures h == old(nextId) && h !in old(objects)
      ensures objects == old(objects)[h := o] && nextId == old(nextId) + 1
    {
      h := nextId;
      objects := objects[h := o];
      nextId := nextId + 1;
    }

    /** `obj.delete()`; deleting an object that is gone already changes nothing. */
    method Delete(h: nat)
      requires Valid()
      modifies this
      ensures Valid()
      ensures objects == old(objects) - {h} && nextId == old(nextId)
    {
      objects := objects - {h};
    }

    /** `marker.set_text(text)` on a live marker; anything else is left as it is. */
    method SetText(h: nat, text: string)
      requires Valid()
      modifies this
      ensures Valid() && nextId == old(nextId)
      ensures h in old(objects) && old(objects)[h].Marker? ==> objects == old(objects)[h := old(objects)[h].(text := text)]
      ensures !(h in old(objects) && old(objects)[h].Marker?) ==> objects == old(objects)
    {
      if h in objects && objects[h].Marker? {
        objects := objects[h := objects[h].(text := text)];
      }
    }
  }
}
