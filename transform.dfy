/**
 * The transform class of the scene (lib/world.hpp): a translation vec, a
 * scale vec and the matrix cached from them. Every constructor and mutator
 * recomputes the cache, so it always equals
 * make_translation(translation) * make_scaled(scale).
 */
module Transforms {
  import opened Vectors
  import opened Matrices

  /** The default transform, translation (0, 0, 0) and scale (1, 1, 1), is the identity. */
  lemma {:induction false} DefaultIsIdentity()
    ensures TranslateScale(Point(0.0, 0.0, 0.0), Vector(1.0, 1.0, 1.0)) == Identity(4)
  {
    var a, b := TranslateScale(Point(0.0, 0.0, 0.0), Vector(1.0, 1.0, 1.0)), Identity(4);
    forall i, j | 0 <= i < 4 && 0 <= j < 4
      ensures a[i][j] == b[i][j]
    {
    }
    MatExt(a, b);
  }

  /** The cached matrix scales first and translates second: s * v, then plus w times t. */
  lemma {:induction false} TranslateScaleAction(t: Vec, s: Vec, v: Vec)
    ensures MatVec(TranslateScale(t, s), v)
         == Vec(s.x * v.x + t.x * v.w, s.y * v.y + t.y * v.w, s.z * v.z + t.z * v.w, v.w)
  {
    var m := TranslateScale(t, s);
    assert RowDot(m, 0, v) == s.x * v.x + 0.0 * v.y + 0.0 * v.z + t.x * v.w;
    assert RowDot(m, 1, v) == 0.0 * v.x + s.y * v.y + 0.0 * v.z + t.y * v.w;
    assert RowDot(m, 2, v) == 0.0 * v.x + 0.0 * v.y + s.z * v.z + t.z * v.w;
    assert RowDot(m, 3, v) == 0.0 * v.x + 0.0 * v.y + 0.0 * v.z + 1.0 * v.w;
  }

  class Transform {
    var translation: Vec
    var scale: Vec
    var matrix: Mat

    /** The class invariant: the cache is the closed form of translation times scale. */
    ghost predicate Valid()
      reads this
    {
      matrix == TranslateScale(translation, scale)
    }

    /** The default constructor: translation (0, 0, 0) as a point, scale (1, 1, 1), so the identity. */
    constructor ()
      ensures Valid() && translation == Point(0.0, 0.0, 0.0) && scale == Vector(1.0, 1.0, 1.0)
      ensures matrix == Identity(4)
    {
      translation := Point(0.0, 0.0, 0.0);
      scale := Vector(1.0, 1.0, 1.0);
      new;
      RecalculateMatrix();
      DefaultIsIdentity();
    }

    /** The constructor from a translation and a scale (whose default argument is (1, 1, 1)). */
    constructor Placed(translation: Vec, scale: Vec)
      ensures Valid() && this.translation == translation && this.scale == scale
    {
      this.translation := translation;
      this.scale := scale;
      new;
      RecalculateMatrix();
    }

    /** recalculateMatrix: the cache becomes make_translation(translation) * make_scaled(scale). */
    method RecalculateMatrix()
      modifies this
      ensures Valid() && translation == old(translation) && scale == old(scale)
    {
      matrix := Product(TranslationBy(translation), ScaledBy(scale));
      TranslationScaledProduct(translation, scale);
    }

    /** get_transform: the cached matrix, which is the product of translation and scale. */
    function GetTransform(): (m: Mat)
      requires Valid()
      reads this
      ensures m == Product(TranslationBy(translation), ScaledBy(scale))
    {
      TranslationScaledProduct(translation, scale);
      matrix
    }

    /** translate: the translation gains v; the scale stays. */
    method Translate(v: Vec)
      modifies this
      ensures Valid() && translation == Add(old(translation), v) && scale == old(scale)
    {
      translation := Add(translation, v);
      RecalculateMatrix();
    }

    /** set_translation: the translation becomes v; the scale stays. */
    method SetTranslation(v: Vec)
      modifies this
      ensures Valid() && translation == v && scale == old(scale)
    {
      translation := v;
      RecalculateMatrix();
    }

    /** get_translation. */
    function GetTranslation(): Vec
      reads this
    {
      translation
    }

    /** add_scale: the scale gains v; the translation stays. */
    method AddScale(v: Vec)
      modifies this
      ensures Valid() && scale == Add(old(scale), v) && translation == old(translation)
    {
      scale := Add(scale, v);
      RecalculateMatrix();
    }

    /** set_scale with a float: the scale becomes the free vector (s, s, s); the translation stays. */
    method SetUniformScale(s: real)
      modifies this
      ensures Valid() && scale == Vector(s, s, s) && translation == old(translation)
    {
      scale := Vector(s, s, s);
      RecalculateMatrix();
    }

    /** set_scale with a vec: the scale becomes v; the translation stays. */
    method SetScale(v: Vec)
      modifies this
      ensures Valid() && scale == v && translation == old(translation)
    {
      scale := v;
      RecalculateMatrix();
    }

    /** get_scale. */
    function GetScale(): Vec
      reads this
    {
      scale
    }
  }

  /** The regression of the constructor tests: translation (2, 2, 2) alone is make_translation(2). */
  lemma TranslatedRegression()
    ensures TranslateScale(UniformPoint(2.0), Vector(1.0, 1.0, 1.0)) == UniformTranslation(2.0)
  {
  }

  /** The regression of the constructor tests: scale (2, 2, 2) alone is make_scaled(2). */
  lemma ScaledRegression()
    ensures TranslateScale(UniformPoint(0.0), UniformVector(2.0)) == UniformScaled(2.0)
  {
  }

  /** Scenario of the constructor tests: each transform's cache is the expected matrix. */
  method ConstructorScenario() returns (m1: Mat, m2: Mat, m3: Mat, m4: Mat)
    ensures m1 == Identity(4)
    ensures m2 == UniformTranslation(2.0)
    ensures m3 == UniformScaled(2.0)
    ensures m4 == Product(UniformTranslation(2.0), UniformScaled(2.0))
  {
    var t1 := new Transform();
    var t2 := new Transform.Placed(UniformPoint(2.0), Vector(1.0, 1.0, 1.0));
    var t3 := new Transform.Placed(UniformPoint(0.0), UniformVector(2.0));
    var t4 := new Transform.Placed(UniformPoint(2.0), UniformVector(2.0));
    m1, m2, m3, m4 := t1.GetTransform(), t2.GetTransform(), t3.GetTransform(), t4.GetTransform();
    TranslatedRegression();
    ScaledRegression();
  }
}
