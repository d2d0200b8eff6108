/**
 * The scene (lib/world.hpp): a world owns its objects in insertion order,
 * each object's id being its position. The hits of a ray are every object's
 * hits, object by object; the visible hit is discard_occluded of those; the
 * render loop paints a pixel red when the ray through it has a visible hit.
 * The ray through each pixel, which the source computes from the camera with
 * tanf and normalize, is a parameter here.
 */
module Worlds {
  import opened Vectors
  import opened Rays
  import opened Colors
  import opened Intersections
  import opened Spheres
  import opened Bitmaps
  import Transforms

  /** The colour {1, 0, 0} render paints a hit pixel with. */
  const Red: Color := Color(1.0, 0.0, 0.0)

  /** The lists one after the other. */
  function Flatten(lists: seq<seq<Intersection>>): seq<Intersection>
  {
    if |lists| == 0 then []
    else Flatten(lists[..|lists| - 1]) + lists[|lists| - 1]
  }

  /** sphere::intersections(r) as a function of the object. */
  function HitsOf(r: Ray, sqrt: real -> real): Object -> seq<Intersection>
  {
    o => SphereIntersections(o, r, sqrt)
  }

  /** The list hits(o) of each object o, in the order of the objects. */
  function HitLists(objects: seq<Object>, hits: Object -> seq<Intersection>): (lists: seq<seq<Intersection>>)
    ensures |lists| == |objects|
    ensures forall i :: 0 <= i < |objects| ==> lists[i] == hits(objects[i])
  {
    seq(|objects|, i requires 0 <= i < |objects| => hits(objects[i]))
  }

  /** The hits of every object for r, object by object, in the order of the objects. */
  function Gather(objects: seq<Object>, r: Ray, sqrt: real -> real): seq<Intersection>
  {
    Flatten(HitLists(objects, HitsOf(r, sqrt)))
  }

  /** The ids of a world's objects are their positions. */
  predicate IdsArePositions(objects: seq<Object>)
  {
    forall i :: 0 <= i < |objects| ==> objects[i].id == i
  }

  /** The colour render gives pixel (x, y): red when the ray through it has a visible hit, black otherwise. */
  function Shade(objects: seq<Object>, eye: (nat, nat) -> Ray, sqrt: real -> real, x: nat, y: nat): Color
  {
    if Visible(Gather(objects, eye(x, y), sqrt)).Some? then Red else Black
  }

  /** The shading of every pixel, as a function of its coordinates. */
  function ShadeOf(objects: seq<Object>, eye: (nat, nat) -> Ray, sqrt: real -> real): (nat, nat) -> Color
  {
    (x: nat, y: nat) => Shade(objects, eye, sqrt, x, y)
  }

  /**
   * The picture after render has visited every pixel before (x, y) in row
   * order: those shaded, every other pixel still black.
   */
  function Partial(shade: (nat, nat) -> Color, width: nat, height: nat, y: nat, x: nat): (img: seq<seq<Color>>)
    ensures IsImage(img, width, height)
  {
    seq(height, v requires 0 <= v < height =>
      seq(width, u requires 0 <= u < width =>
        if v < y || (v == y && u < x) then shade(u, v) else Black))
  }

  /** The picture render draws: every pixel shaded. */
  function Picture(objects: seq<Object>, eye: (nat, nat) -> Ray, sqrt: real -> real,
                   width: nat, height: nat): (img: seq<seq<Color>>)
    ensures IsImage(img, width, height)
    ensures forall y, x :: 0 <= y < height && 0 <= x < width ==>
      img[y][x] == (if Visible(Gather(objects, eye(x, y), sqrt)).Some? then Red else Black)
  {
    Partial(ShadeOf(objects, eye, sqrt), width, height, height, 0)
  }

  /** One more list flattens to the old flattening followed by that list. */
  lemma {:induction false} FlattenSnoc(lists: seq<seq<Intersection>>, l: seq<Intersection>)
    ensures Flatten(lists + [l]) == Flatten(lists) + l
  {
    assert (lists + [l])[..|lists|] == lists;
  }

  /** Flattening is compatible with splitting: the flattening of a + b is a's, then b's. */
  lemma {:induction false} FlattenAppend(a: seq<seq<Intersection>>, b: seq<seq<Intersection>>)
    ensures Flatten(a + b) == Flatten(a) + Flatten(b)
    decreases |b|
  {
    if |b| == 0 {
      assert a + b == a;
    } else {
      var front, l := b[..|b| - 1], b[|b| - 1];
      assert b == front + [l];
      assert a + b == (a + front) + [l];
      FlattenSnoc(a + front, l);
      FlattenSnoc(front, l);
      FlattenAppend(a, front);
    }
  }

  /** A hit is in the flattening exactly when it is in one of the lists. */
  lemma {:induction false} FlattenMembers(lists: seq<seq<Intersection>>, h: Intersection)
    ensures h in Flatten(lists) <==> exists i :: 0 <= i < |lists| && h in lists[i]
    decreases |lists|
  {
    if |lists| > 0 {
      var last := |lists| - 1;
      var front := lists[..last];
      FlattenMembers(front, h);
      if h in Flatten(lists) && h in Flatten(front) {
        var i :| 0 <= i < |front| && h in front[i];
        assert lists[i] == front[i];
      }
      if exists i :: 0 <= i < |lists| && h in lists[i] {
        var i :| 0 <= i < |lists| && h in lists[i];
        if i < last {
          assert front[i] == lists[i];
        }
      }
    }
  }

  /** Lists of none or two hits flatten to an even number of hits, at most two per list. */
  lemma {:induction false} FlattenCount(lists: seq<seq<Intersection>>)
    requires forall i :: 0 <= i < |lists| ==> |lists[i]| == 0 || |lists[i]| == 2
    ensures |Flatten(lists)| % 2 == 0
    ensures |Flatten(lists)| <= 2 * |lists|
    decreases |lists|
  {
    if |lists| > 0 {
      var front := lists[..|lists| - 1];
      assert forall i :: 0 <= i < |front| ==> front[i] == lists[i];
      FlattenCount(front);
    }
  }

  /** The flattening is empty exactly when every list is. */
  lemma {:induction false} FlattenEmpty(lists: seq<seq<Intersection>>)
    ensures |Flatten(lists)| == 0 <==> forall i :: 0 <= i < |lists| ==> |lists[i]| == 0
    decreases |lists|
  {
    if |lists| > 0 {
      var front := lists[..|lists| - 1];
      assert forall i :: 0 <= i < |front| ==> front[i] == lists[i];
      FlattenEmpty(front);
    }
  }

  /** The lists of a + b are those of a, then those of b. */
  lemma {:induction false} HitListsAppend(a: seq<Object>, b: seq<Object>, hits: Object -> seq<Intersection>)
    ensures HitLists(a + b, hits) == HitLists(a, hits) + HitLists(b, hits)
  {
  }

  /** The hits of objects + [o] are those of objects, then o's. */
  lemma {:induction false} GatherSnoc(objects: seq<Object>, o: Object, r: Ray, sqrt: real -> real)
    ensures Gather(objects + [o], r, sqrt) == Gather(objects, r, sqrt) + SphereIntersections(o, r, sqrt)
  {
    var hits := HitsOf(r, sqrt);
    HitListsAppend(objects, [o], hits);
    assert HitLists([o], hits) == [hits(o)];
    FlattenSnoc(HitLists(objects, hits), hits(o));
  }

  /** The hits of a + b are a's hits, then b's: get_intersections keeps the insertion order. */
  lemma {:induction false} GatherAppend(a: seq<Object>, b: seq<Object>, r: Ray, sqrt: real -> real)
    ensures Gather(a + b, r, sqrt) == Gather(a, r, sqrt) + Gather(b, r, sqrt)
  {
    var hits := HitsOf(r, sqrt);
    HitListsAppend(a, b, hits);
    FlattenAppend(HitLists(a, hits), HitLists(b, hits));
  }

  /** A hit is gathered exactly when it is a hit of one of the objects. */
  lemma {:induction false} GatherMembers(objects: seq<Object>, r: Ray, sqrt: real -> real, h: Intersection)
    ensures h in Gather(objects, r, sqrt) <==>
      exists i :: 0 <= i < |objects| && h in SphereIntersections(objects[i], r, sqrt)
  {
    FlattenMembers(HitLists(objects, HitsOf(r, sqrt)), h);
  }

  /** Every object contributes none or two hits, so there are at most two per object, an even number in all. */
  lemma {:induction false} GatherCount(objects: seq<Object>, r: Ray, sqrt: real -> real)
    ensures |Gather(objects, r, sqrt)| % 2 == 0
    ensures |Gather(objects, r, sqrt)| <= 2 * |objects|
  {
    FlattenCount(HitLists(objects, HitsOf(r, sqrt)));
  }

  /** There are no hits at all exactly when no object intersects the ray. */
  lemma {:induction false} GatherEmpty(objects: seq<Object>, r: Ray, sqrt: real -> real)
    ensures |Gather(objects, r, sqrt)| == 0 <==> forall i :: 0 <= i < |objects| ==> !Intersects(objects[i], r)
  {
    FlattenEmpty(HitLists(objects, HitsOf(r, sqrt)));
    forall i | 0 <= i < |objects|
      ensures Intersects(objects[i], r) <==> |SphereIntersections(objects[i], r, sqrt)| != 0
    {
      IntersectsIffHits(objects[i], r, sqrt);
    }
  }

  /**
   * In a world whose ids are positions, every hit names the object it was
   * found on: its id is a position, and it is one of that object's hits.
   */
  lemma {:induction false} HitsNameTheirObjects(objects: seq<Object>, r: Ray, sqrt: real -> real, h: Intersection)
    requires IdsArePositions(objects)
    requires h in Gather(objects, r, sqrt)
    ensures h.objectID < |objects|
    ensures h in SphereIntersections(objects[h.objectID], r, sqrt)
  {
    GatherMembers(objects, r, sqrt, h);
    var i :| 0 <= i < |objects| && h in SphereIntersections(objects[i], r, sqrt);
    assert h.objectID == objects[i].id == i;
  }

  /** The pixel at (x, y) of the partial picture, by position. */
  lemma {:induction false} PartialAt(shade: (nat, nat) -> Color,
                                     width: nat, height: nat, y: nat, x: nat, v: nat, u: nat)
    requires v < height && u < width
    ensures Partial(shade, width, height, y, x)[v][u] ==
      if v < y || (v == y && u < x) then shade(u, v) else Black
  {
  }

  /** Shading pixel (x, y) of the partial picture advances it by one pixel. */
  lemma {:induction false} PartialStep(shade: (nat, nat) -> Color,
                                       width: nat, height: nat, y: nat, x: nat)
    requires y < height && x < width
    ensures Partial(shade, width, height, y, x + 1) ==
      Paint(Partial(shade, width, height, y, x), x, y, shade(x, y))
  {
    var before := Partial(shade, width, height, y, x);
    var after := Partial(shade, width, height, y, x + 1);
    var painted := Paint(before, x, y, shade(x, y));
    forall v | 0 <= v < height
      ensures after[v] == painted[v]
    {
      forall u | 0 <= u < width
        ensures after[v][u] == painted[v][u]
      {
        PartialAt(shade, width, height, y, x + 1, v, u);
        PartialAt(shade, width, height, y, x, v, u);
      }
    }
  }

  /** A row finished is the next row begun. */
  lemma {:induction false} PartialNextRow(shade: (nat, nat) -> Color,
                                          width: nat, height: nat, y: nat)
    ensures Partial(shade, width, height, y, width) ==
            Partial(shade, width, height, y + 1, 0)
  {
    var a := Partial(shade, width, height, y, width);
    var b := Partial(shade, width, height, y + 1, 0);
    forall v | 0 <= v < height
      ensures a[v] == b[v]
    {
      forall u | 0 <= u < width
        ensures a[v][u] == b[v][u]
      {
        PartialAt(shade, width, height, y, width, v, u);
        PartialAt(shade, width, height, y + 1, 0, v, u);
      }
    }
  }

  /** Before any pixel is visited the partial picture is all black. */
  lemma {:induction false} PartialStart(shade: (nat, nat) -> Color,
                                        width: nat, height: nat)
    ensures Partial(shade, width, height, 0, 0) == Blank(width, height)
  {
    var a := Partial(shade, width, height, 0, 0);
    var b := Blank(width, height);
    forall v | 0 <= v < height
      ensures a[v] == b[v]
    {
      forall u | 0 <= u < width
        ensures a[v][u] == b[v][u]
      {
        PartialAt(shade, width, height, 0, 0, v, u);
      }
    }
  }

  class World {
    var objects: seq<Object>

    /** Every object's id is its position, as add hands them out. */
    ghost predicate Valid()
      reads this
    {
      IdsArePositions(objects)
    }

    /** The default constructor: no objects. */
    constructor ()
      ensures Valid() && objects == []
    {
      objects := [];
    }

    /**
     * add<sphere>: a sphere whose id is the number of objects so far, its
     * transform set to the given translation and scale, is appended; that
     * id is returned and the earlier objects stay.
     */
    method Add(origin: Vec, scale: Vec) returns (id: nat)
      requires Valid()
      modifies this
      ensures Valid()
      ensures id == |old(objects)|
      ensures objects == old(objects) + [Sphere(id, origin, scale)]
    {
      var model := new Transforms.Transform();
      model.SetTranslation(origin);
      model.SetScale(scale);
      var s := Sphere(|objects|, model.GetTranslation(), model.GetScale());
      objects := objects + [s];
      return |objects| - 1;
    }

    /** get_intersections: each object's hits in turn, an object without hits skipped. */
    method GetIntersections(r: Ray, sqrt: real -> real) returns (out: seq<Intersection>)
      ensures out == Gather(objects, r, sqrt)
    {
      out := [];
      for i := 0 to |objects|
        invariant out == Gather(objects[..i], r, sqrt)
      {
        var hits := SphereIntersections(objects[i], r, sqrt);
        assert objects[..i + 1] == objects[..i] + [objects[i]];
        GatherSnoc(objects[..i], objects[i], r, sqrt);
        if |hits| != 0 {
          out := out + hits;
        }
      }
      assert objects[..|objects|] == objects;
    }

    /** get_visible_intersection: discard_occluded of all the hits. */
    method GetVisibleIntersection(r: Ray, sqrt: real -> real) returns (hit: Option<Intersection>)
      ensures hit == Visible(Gather(objects, r, sqrt))
    {
      var all := GetIntersections(r, sqrt);
      hit := DiscardOccluded(all);
    }

    /** get_object: the object at index, and none where objects.at(index) throws out_of_range. */
    function GetObject(index: nat): (o: Option<Object>)
      reads this
      ensures o.Some? <==> index < |objects|
      ensures o.Some? ==> o.value == objects[index]
    {
      if index < |objects| then Some(objects[index]) else None
    }

    /** get_objects: the objects in insertion order. */
    function GetObjects(): seq<Object>
      reads this
    {
      objects
    }

    /**
     * render's loop: rows top to bottom, each left to right, a pixel painted
     * red when the ray through it has a visible hit and left black otherwise.
     */
    method Render(width: nat, height: nat, eye: (nat, nat) -> Ray, sqrt: real -> real) returns (pixels: Bitmap)
      ensures fresh(pixels) && pixels.Valid()
      ensures pixels.width == width && pixels.height == height
      ensures pixels.Value() == Picture(objects, eye, sqrt, width, height)
    {
      pixels := new Bitmap(width, height);
      PartialStart(ShadeOf(objects, eye, sqrt), width, height);
      for y := 0 to height
        invariant fresh(pixels) && fresh(pixels.pixels) && pixels.Valid()
        invariant pixels.width == width && pixels.height == height
        invariant pixels.Value() == Partial(ShadeOf(objects, eye, sqrt), width, height, y, 0)
      {
        RenderRow(pixels, y, eye, sqrt);
      }
    }

    /** One row of render's loop: pixels (0, y) to (width - 1, y) shaded, all others untouched. */
    method RenderRow(pixels: Bitmap, y: nat, eye: (nat, nat) -> Ray, sqrt: real -> real)
      requires pixels.Valid() && y < pixels.height
      requires pixels.Value() == Partial(ShadeOf(objects, eye, sqrt), pixels.width, pixels.height, y, 0)
      modifies pixels, pixels.pixels
      ensures pixels.Valid() && pixels.pixels == old(pixels.pixels)
      ensures pixels.width == old(pixels.width) && pixels.height == old(pixels.height)
      ensures pixels.Value() == Partial(ShadeOf(objects, eye, sqrt), pixels.width, pixels.height, y + 1, 0)
    {
      var width, height := pixels.width, pixels.height;
      for x := 0 to width
        invariant pixels.Valid() && pixels.pixels == old(pixels.pixels)
        invariant pixels.width == width && pixels.height == height
        invariant pixels.Value() == Partial(ShadeOf(objects, eye, sqrt), width, height, y, x)
      {
        RenderPixel(pixels, x, y, eye, sqrt);
      }
      PartialNextRow(ShadeOf(objects, eye, sqrt), width, height, y);
    }

    /** One step of render's loop: pixel (x, y) red when the ray through it has a visible hit, else left black. */
    method RenderPixel(pixels: Bitmap, x: nat, y: nat, eye: (nat, nat) -> Ray, sqrt: real -> real)
      requires pixels.Valid() && x < pixels.width && y < pixels.height
      requires pixels.Value() == Partial(ShadeOf(objects, eye, sqrt), pixels.width, pixels.height, y, x)
      modifies pixels, pixels.pixels
      ensures pixels.Valid() && pixels.pixels == old(pixels.pixels)
      ensures pixels.width == old(pixels.width) && pixels.height == old(pixels.height)
      ensures pixels.Value() == Partial(ShadeOf(objects, eye, sqrt), pixels.width, pixels.height, y, x + 1)
    {
      var hit := GetVisibleIntersection(eye(x, y), sqrt);
      assert ShadeOf(objects, eye, sqrt)(x, y) == if hit.Some? then Red else Black;
      PartialStep(ShadeOf(objects, eye, sqrt), pixels.width, pixels.height, y, x);
      if hit.Some? {
        pixels.SetPixel(Red, x, y);
      } else {
        PartialAt(ShadeOf(objects, eye, sqrt), pixels.width, pixels.height, y, x, y, x);
        PaintSame(pixels.Value(), x, y);
      }
    }
  }

  /** Painting a pixel with the colour it already has changes nothing. */
  lemma {:induction false} PaintSame(img: seq<seq<Color>>, x: nat, y: nat)
    requires y < |img| && x < |img[y]|
    ensures Paint(img, x, y, img[y][x]) == img
  {
    assert img[y][x := img[y][x]] == img[y];
  }
}
