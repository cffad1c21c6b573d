/** Item kinds: the tags of the item-type enumeration that the error series
    and the drawlist refer to. Every other tag of the enumeration is folded
    into `OtherKind`, distinguished only by an ordinal. */
module ItemKinds {

  datatype Kind =
    | PlotAxis
    | ErrorSeries
    | TableRow
    | Drawlist
    | DrawLayer
    | DrawLine
    | DrawArrow
    | DrawTriangle
    | DrawCircle
    | DrawEllipse
    | DrawBezierCubic
    | DrawBezierQuadratic
    | DrawQuad
    | DrawRect
    | DrawText
    | DrawPolygon
    | DrawPolyline
    | DrawImageQuad
    | DrawImage
    | DrawNode
    | OtherKind(ordinal: nat)
}
