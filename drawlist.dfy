/** The drawlist item: its table of accepted child kinds and its origin
    fields. */
module Drawlist {
  import opened ItemKinds
  import opened SeqUtils

  /** The accepted child kinds, in the order the class declares them. */
  const AllowedChildKinds: seq<Kind> := [
    DrawLayer, DrawLine, DrawArrow, DrawTriangle, DrawCircle, DrawEllipse,
    DrawBezierCubic, DrawBezierQuadratic, DrawQuad, DrawRect, DrawText,
    DrawPolygon, DrawPolyline, DrawImageQuad, DrawImage, DrawNode
  ]

  /** The accepted child kinds as a set. */
  function AllowedChildren(): set<Kind> {
    Elements(AllowedChildKinds)
  }

  /** A drawlist accepts an item of kind `k` as its child. */
  predicate AcceptsChild(k: Kind) {
    k in AllowedChildren()
  }

  /** The declared list has no repeated kind. */
  lemma AllowedChildKindsDistinct()
    ensures |AllowedChildKinds| == 16
    ensures Distinct(AllowedChildKinds)
  {
  }

  /** The list converts to a set of exactly sixteen kinds. */
  lemma AllowedChildrenSize()
    ensures |AllowedChildren()| == 16
  {
    AllowedChildKindsDistinct();
    DistinctCardinality(AllowedChildKinds);
  }

  /** Polygons and layers are accepted children. */
  lemma PolygonAndLayerAccepted()
    ensures AcceptsChild(DrawPolygon) && AcceptsChild(DrawLayer)
  {
    assert AllowedChildKinds[11] == DrawPolygon;
    assert AllowedChildKinds[0] == DrawLayer;
  }

  /** A drawlist accepts a child exactly when the child is a drawing
      primitive, a layer or a node: never a plot axis, an error series,
      a table row, a nested drawlist or any other kind. */
  lemma AcceptsOnlyDrawingKinds(k: Kind)
    ensures AcceptsChild(k) <==> !(k.PlotAxis? || k.ErrorSeries? || k.TableRow? || k.Drawlist? || k.OtherKind?)
  {
  }

  /** The drawlist item. Only the state this model needs: the identifier
      and the two origin fields, which start at zero. */
  class Drawlist {
    const uuid: nat
    var startx: real
    var starty: real

    constructor (uuid: nat)
      ensures this.uuid == uuid
      ensures startx == 0.0 && starty == 0.0
    {
      this.uuid := uuid;
      startx := 0.0;
      starty := 0.0;
    }
  }
}
