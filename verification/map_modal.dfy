/**
 * The geology overlays of the map modal: a list of layers keyed by id, two
 * updates that rebuild it (`handleLayerToggle`, `handleOpacityChange`) and the
 * overlays drawn, which are the visible layers.
 */
module MapModal {

  /**
   * A geology layer: its id, whether it is shown and its opacity; `details`
   * stands for the layer's other properties, which the updates copy as they are.
   */
  datatype Layer<Opacity, Details> = Layer(id: string, visible: bool, opacity: Opacity, details: Details)

  /** `handleLayerToggle(layerId)`: `visible` flips on the layers with that id. */
  function ToggleLayer<O, D>(layers: seq<Layer<O, D>>, layerId: string): (r: seq<Layer<O, D>>)
    ensures |r| == |layers|
    ensures forall i :: 0 <= i < |layers| ==>
      (r[i].visible != layers[i].visible <==> layers[i].id == layerId)
    ensures forall i :: 0 <= i < |layers| ==> r[i].(visible := layers[i].visible) == layers[i]
  {
    seq(|layers|, i requires 0 <= i < |layers| =>
      if layers[i].id == layerId then layers[i].(visible := !layers[i].visible) else layers[i])
  }

  /** `handleOpacityChange(layerId, opacity)`: the layers with that id take the new opacity. */
  function SetOpacity<O, D>(layers: seq<Layer<O, D>>, layerId: string, opacity: O): (r: seq<Layer<O, D>>)
    ensures |r| == |layers|
    ensures forall i :: 0 <= i < |layers| ==>
      r[i].opacity == if layers[i].id == layerId then opacity else layers[i].opacity
    ensures forall i :: 0 <= i < |layers| ==> r[i].(opacity := layers[i].opacity) == layers[i]
  {
    seq(|layers|, i requires 0 <= i < |layers| =>
      if layers[i].id == layerId then layers[i].(opacity := opacity) else layers[i])
  }

  /** No layer carries the id. */
  predicate UnknownId<O, D>(layers: seq<Layer<O, D>>, layerId: string) {
    forall i :: 0 <= i < |layers| ==> layers[i].id != layerId
  }

  /** Toggling the same layer twice gives back the list it started from. */
  lemma ToggleTwiceRestores<O, D>(layers: seq<Layer<O, D>>, layerId: string)
    ensures ToggleLayer(ToggleLayer(layers, layerId), layerId) == layers
  {
    var twice := ToggleLayer(ToggleLayer(layers, layerId), layerId);
    forall i | 0 <= i < |layers| ensures twice[i] == layers[i] {
    }
  }

  /** Setting an opacity twice is setting it once. */
  lemma SetOpacityIdempotent<O, D>(layers: seq<Layer<O, D>>, layerId: string, opacity: O)
    ensures SetOpacity(SetOpacity(layers, layerId, opacity), layerId, opacity) == SetOpacity(layers, layerId, opacity)
  {
    var once := SetOpacity(layers, layerId, opacity);
    var twice := SetOpacity(once, layerId, opacity);
    forall i | 0 <= i < |layers| ensures twice[i] == once[i] {
    }
  }

  /** An id no layer has leaves the list unchanged under both updates. */
  lemma UnknownIdChangesNothing<O, D>(layers: seq<Layer<O, D>>, layerId: string, opacity: O)
    requires UnknownId(layers, layerId)
    ensures ToggleLayer(layers, layerId) == layers
    ensures SetOpacity(layers, layerId, opacity) == layers
  {
    var t := ToggleLayer(layers, layerId);
    var o := SetOpacity(layers, layerId, opacity);
    forall i | 0 <= i < |layers| ensures t[i] == layers[i] && o[i] == layers[i] {
    }
  }

  /** The overlays drawn: `layers.filter(layer => layer.visible)`. */
  function VisibleLayers<O, D>(layers: seq<Layer<O, D>>): (r: seq<Layer<O, D>>)
    ensures |r| <= |layers|
    ensures forall i :: 0 <= i < |r| ==> r[i].visible && r[i] in layers
    ensures forall i :: 0 <= i < |layers| && layers[i].visible ==> layers[i] in r
    decreases |layers|
  {
    if layers == [] then []
    else if layers[0].visible then [layers[0]] + VisibleLayers(layers[1..])
    else VisibleLayers(layers[1..])
  }

  /** The filter keeps list order: filtering a concatenation concatenates the filtered parts. */
  lemma {:induction false} VisibleLayersOfConcat<O, D>(a: seq<Layer<O, D>>, b: seq<Layer<O, D>>)
    ensures VisibleLayers(a + b) == VisibleLayers(a) + VisibleLayers(b)
    decreases |a|
  {
    if a == [] {
      assert a + b == b;
    } else {
      assert (a + b)[1..] == a[1..] + b;
      VisibleLayersOfConcat(a[1..], b);
    }
  }

  /** Toggling works element by element: it distributes over concatenation. */
  lemma ToggleOfConcat<O, D>(a: seq<Layer<O, D>>, b: seq<Layer<O, D>>, layerId: string)
    ensures ToggleLayer(a + b, layerId) == ToggleLayer(a, layerId) + ToggleLayer(b, layerId)
  {
    var t := ToggleLayer(a + b, layerId);
    var u := ToggleLayer(a, layerId) + ToggleLayer(b, layerId);
    forall i | 0 <= i < |t| ensures t[i] == u[i] {
      if i >= |a| {
        assert (a + b)[i] == b[i - |a|];
      }
    }
  }

  /** A visible layer is drawn between the overlays of the layers before it and those after it. */
  lemma VisibleAroundLayer<O, D>(a: seq<Layer<O, D>>, l: Layer<O, D>, b: seq<Layer<O, D>>)
    requires l.visible
    ensures VisibleLayers(a + [l] + b) == VisibleLayers(a) + [l] + VisibleLayers(b)
  {
    VisibleLayersOfConcat(a + [l], b);
    VisibleLayersOfConcat(a, [l]);
    assert VisibleLayers([l]) == [l] by { assert [l][1..] == []; }
  }

  /** Toggling an id that only one layer carries flips that layer and leaves the rest of the list as it was. */
  lemma ToggleUniqueLayer<O, D>(a: seq<Layer<O, D>>, l: Layer<O, D>, b: seq<Layer<O, D>>)
    requires UnknownId(a, l.id) && UnknownId(b, l.id)
    ensures ToggleLayer(a + [l] + b, l.id) == a + [l.(visible := !l.visible)] + b
  {
    ToggleOfConcat(a + [l], b, l.id);
    ToggleOfConcat(a, [l], l.id);
    UnknownIdChangesNothing(a, l.id, l.opacity);
    UnknownIdChangesNothing(b, l.id, l.opacity);
    assert ToggleLayer([l], l.id) == [l.(visible := !l.visible)];
  }

  /** A hidden layer adds nothing to the overlays of the layers around it. */
  lemma VisibleAroundHiddenLayer<O, D>(a: seq<Layer<O, D>>, h: Layer<O, D>, b: seq<Layer<O, D>>)
    requires !h.visible
    ensures VisibleLayers(a + [h] + b) == VisibleLayers(a) + VisibleLayers(b)
  {
    VisibleLayersOfConcat(a + [h], b);
    VisibleLayersOfConcat(a, [h]);
    assert VisibleLayers([h]) == [] by { assert [h][1..] == []; }
    assert VisibleLayers(a + [h]) == VisibleLayers(a) + [] == VisibleLayers(a);
  }

  /** Toggling a drawn layer whose id is unique takes exactly it out of the overlays, the others keeping their order. */
  lemma ToggleHidesOverlay<O, D>(a: seq<Layer<O, D>>, l: Layer<O, D>, b: seq<Layer<O, D>>)
    requires l.visible && UnknownId(a, l.id) && UnknownId(b, l.id)
    ensures VisibleLayers(a + [l] + b) == VisibleLayers(a) + [l] + VisibleLayers(b)
    ensures VisibleLayers(ToggleLayer(a + [l] + b, l.id)) == VisibleLayers(a) + VisibleLayers(b)
  {
    VisibleAroundLayer(a, l, b);
    ToggleUniqueLayer(a, l, b);
    VisibleAroundHiddenLayer(a, l.(visible := !l.visible), b);
  }
}
