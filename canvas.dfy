/** The drawing primitives the atoms produce, and the drawing they are
    appended to. Coordinates are exact reals; every style attribute the
    code does not pass is recorded as the empty string. */
module Canvas {

  datatype Primitive =
    | Line(x1: real, y1: real, x2: real, y2: real, stroke: string, strokeWidth: real)
    | Circle(cx: real, cy: real, r: real, fill: string, stroke: string)
    | Rect(x: real, y: real, width: real, height: real, fill: string, stroke: string)
    | Text(text: string, fontSize: real, x: real, y: real)

  /** The primitive moved by `(dx, dy)`; its size and style stay. */
  function Translate(p: Primitive, dx: real, dy: real): (q: Primitive)
    ensures q.Line? == p.Line? && q.Circle? == p.Circle? && q.Rect? == p.Rect? && q.Text? == p.Text?
    ensures q.Line? ==> q.x1 == p.x1 + dx && q.y1 == p.y1 + dy && q.x2 == p.x2 + dx && q.y2 == p.y2 + dy
                        && q.stroke == p.stroke && q.strokeWidth == p.strokeWidth
    ensures q.Circle? ==> q.cx == p.cx + dx && q.cy == p.cy + dy && q.r == p.r
                          && q.fill == p.fill && q.stroke == p.stroke
    ensures q.Rect? ==> q.x == p.x + dx && q.y == p.y + dy && q.width == p.width && q.height == p.height
                        && q.fill == p.fill && q.stroke == p.stroke
    ensures q.Text? ==> q.x == p.x + dx && q.y == p.y + dy && q.text == p.text && q.fontSize == p.fontSize
  {
    match p
    case Line(x1, y1, x2, y2, s, w) => Line(x1 + dx, y1 + dy, x2 + dx, y2 + dy, s, w)
    case Circle(cx, cy, r, f, s) => Circle(cx + dx, cy + dy, r, f, s)
    case Rect(x, y, w, h, f, s) => Rect(x + dx, y + dy, w, h, f, s)
    case Text(t, fs, x, y) => Text(t, fs, x + dx, y + dy)
  }

  /** A drawing: its size, its pixel scale and the primitives in the order
      they were appended (later ones are painted on top). */
  class Drawing {
    var width: real
    var height: real
    var pixelScale: real
    var elements: seq<Primitive>

    constructor (width: real, height: real)
      ensures this.width == width && this.height == height
      ensures pixelScale == 1.0 && elements == []
    {
      this.width := width;
      this.height := height;
      pixelScale := 1.0;
      elements := [];
    }

    method Append(p: Primitive)
      modifies this
      ensures elements == old(elements) + [p]
      ensures width == old(width) && height == old(height) && pixelScale == old(pixelScale)
    {
      elements := elements + [p];
    }

    method SetPixelScale(s: real)
      modifies this
      ensures pixelScale == s
      ensures elements == old(elements) && width == old(width) && height == old(height)
    {
      pixelScale := s;
    }
  }
}
