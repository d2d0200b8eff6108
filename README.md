# Ray tracer geometry core, modelled in Dafny

This project models the geometry core of the `raytracer-challenge` C++ ray
tracer: the float helpers of `lib/math.hpp`, the homogeneous 4-component
`vec` of `lib/vec.hpp`, the fixed-size square `mat` of `lib/mat.hpp`, the
`ray` of `lib/ray.hpp`, the `color` of `lib/color.hpp`, the `bitmap` pixel
buffer of `lib/bitmap.hpp`, and the scene of `lib/world.hpp`. The scene
covers the `transform` that keeps a translation and a scale, `intersection`
with `discard_occluded`, `sphere` with its ray intersection, and `world`
with `add`, `get_intersections`, `get_visible_intersection` and `render`.

Floats are modelled as mathematical reals. The C++ `float_eq` tolerance is
kept exactly (`RtMath.FloatEq`, epsilon 0.00001). Value types (`vec`,
`color`, `ray`, `intersection`, sphere objects) are datatypes with pure
functions. The compound-assignment operators are methods of small cells
(`Vectors.VecCell`, `Rays.RayCell`) that update their value in place.

Two representations are used for matrices:

- `Matrices` is the mathematical definition over `seq<seq<real>>`. It
  covers identity, translation, scaling, shearing, transpose, sub-matrix,
  minor, cofactor, recursive determinant, inverse, product and
  matrix-times-vec.
- `MatrixStorage.MatBuffer` is the row-major `float[W*H]` of the C++
  class. It is a class over an `array<real>`, and each method is proved to
  compute the `Matrices` function of its contents. `RowMajor` holds the
  index arithmetic.

Other modules:

- `MatrixInverse` proves that `inverse` is a two-sided inverse of every
  invertible 4 x 4 matrix. It does so through the closed 24-term form of
  the determinant, expansion along any row, and transposition.
- `Bitmaps.Bitmap` keeps a heap array of colours, with copy construction
  and assignment.
- `Transforms.Transform` recomputes its matrix on every change.
- `Worlds.World` holds its objects and renders into a `Bitmap`. It is
  proved to produce `Worlds.Picture`, a pure description of the image.

Two things from outside the core are parameters of the model:

- `std::sqrtf` is a function `sqrt: real -> real` constrained by
  `RtMath.IsSqrt` wherever a property needs it.
- The camera's eye ray for pixel `(x, y)` (`tanf`, `normalize`) is a
  parameter `eye` of `Render`.

Division by a zero float goes through `RtMath.Quotient`, which yields 0 in
that case. That happens for the sphere's `2 * a` and the magnitude in
`normalize`.

The `*_regression` modules restate the repository's unit tests as lemmas
about the model, and the `*_finding` modules hold the findings below.

## Model

| member | source | states |
|---|---|---|
| RtMath.Abs | lib/math.hpp:14-16 | the result is non-negative, is the value or its negation, and is the value itself for positive input |
| RtMath.FloatEq | lib/math.hpp:18-22 | float_eq with an explicit epsilon is the strict comparison of the absolute difference with epsilon; FloatEqMeaning, FloatEqSymmetric, FloatEqReflexive and FloatEqStrict state its properties |
| RtMath.NearlyEq | lib/math.hpp:18-22 | float_eq with the default epsilon 0.00001, which every operator== of vec, color, ray and mat uses; FloatEqRegression checks it on the test table |
| RtMath.FloatEqMeaning | lib/math.hpp:20-22 | float_eq(a, b, eps) holds exactly when b lies strictly between a - eps and a + eps |
| RtMath.FloatEqSymmetric | lib/math.hpp:20-22 | float_eq does not depend on argument order |
| RtMath.FloatEqReflexive | lib/math.hpp:20-22 | with a positive epsilon every number is float_eq to itself |
| RtMath.FloatEqStrict | lib/math.hpp:20-22 | the tolerance is strict: a and a + eps are not float_eq |
| RtMath.AbsRegression | test/math.cpp:7-15 | abs_constexpr of 5, 0 and -5 is 5, 0 and 5 |
| RtMath.FloatEqRegression | test/math.cpp:17-25 | the float_eq test table: 1 vs 1, 1.1, 1.0001, 1.000001 with the default epsilon, and 1.000001 with epsilon 1e-7 |
| RtMath.Quotient | lib/vec.hpp:93-97 | for a nonzero divisor the quotient times the divisor gives the dividend back |
| Vectors.Point | lib/vec.hpp:19-21 | make_point builds a point (w = 1) with the given coordinates |
| Vectors.UniformPoint | lib/vec.hpp:22-24 | the one-argument make_point is the point with all three coordinates equal |
| Vectors.Vector | lib/vec.hpp:26-28 | make_vector builds a free vector (w = 0) with the given coordinates |
| Vectors.UniformVector | lib/vec.hpp:29-31 | the one-argument make_vector is the vector with all three coordinates equal |
| Vectors.Dot | lib/vec.hpp:33-35 | dot and vec * vec sum the products of all four components, w included; DotCommutes, DotIncludesW and SelfDotNonNegative state its properties |
| Vectors.ApproxEq | lib/vec.hpp:53-58 | operator== is float_eq on each of x, y, z and w; ApproxEqReflexiveSymmetric states its properties |
| Vectors.Pos | lib/vec.hpp:60-62 | unary + gives the vec unchanged; SubIsAddNeg uses it |
| Vectors.Neg | lib/vec.hpp:63-65 | unary - negates all four components, so it turns a point into w = -1; SubIsAddNeg proves it an involution |
| Vectors.Add | lib/vec.hpp:66-68 | + adds all four components, w included; HomogeneousArithmetic states what it does to points and vectors |
| Vectors.Sub | lib/vec.hpp:69-71 | - subtracts all four components; SubIsAddNeg proves it adds the negation and undoes Add |
| Vectors.Scale | lib/vec.hpp:88-92 | vec * scalar multiplies all four components, w included |
| Vectors.Div | lib/vec.hpp:93-97 | vec / scalar divides all four components; DivIsScaleByInverse proves it is scaling by the inverse |
| Vectors.Magnitude | lib/vec.hpp:43-45 | magnitude is sqrt of the squared x, y, z and w; MagnitudeMeaning proves it non-negative, squaring to v · v and zero exactly for the zero vec |
| Vectors.Normalize | lib/vec.hpp:46-48 | normalize divides all four components by the magnitude; NormalizeIsUnit proves a nonzero vec becomes a unit vec that scales back |
| Vectors.IsUnitVector | lib/vec.hpp:49-51 | is_unit_vector is float_eq of the magnitude with 1; NormalizeIsUnit and IsUnitVectorRegression state when it holds |
| Vectors.Cross | lib/vec.hpp:37-41 | cross is always a free vector and is orthogonal to the x, y, z parts of both arguments |
| Vectors.DotCommutes | lib/vec.hpp:33-35 | dot is symmetric |
| Vectors.DotIncludesW | lib/vec.hpp:33-35 | dot includes w, so a point dotted with itself is its squared length plus 1 |
| Vectors.CrossAnticommutes | lib/vec.hpp:37-41 | swapping the arguments of cross negates it |
| Vectors.CrossIgnoresW | lib/vec.hpp:37-41 | cross does not depend on the w components |
| Vectors.SelfDotNonNegative | lib/vec.hpp:33-35 | v · v is never negative and is zero exactly for the zero vec |
| Vectors.MagnitudeMeaning | lib/vec.hpp:43-45 | magnitude is non-negative, squares to v · v (w included), and is zero exactly for the zero vec |
| Vectors.NormalizeIsUnit | lib/vec.hpp:46-51 | normalize of a nonzero vec has dot product 1 with itself and magnitude 1, so is_unit_vector holds; scaling it by the old magnitude gives the vec back |
| Vectors.HomogeneousArithmetic | lib/vec.hpp:60-92 | point - point is a vector, point ± vector is a point, vector arithmetic stays a vector, point + point is not a point |
| Vectors.SubIsAddNeg | lib/vec.hpp:60-71 | a - b is a + (-b), subtraction undoes addition, negation is an involution and unary + is the identity |
| Vectors.DivIsScaleByInverse | lib/vec.hpp:88-97 | dividing by a nonzero s is scaling by 1/s, and scaling back by s gives the vec again |
| Vectors.ApproxEqReflexiveSymmetric | lib/vec.hpp:53-58 | vec operator== is reflexive and symmetric |
| Vectors.DotRegression | test/vec.cpp:24-29 | (1,2,3) · (2,3,4) is 20 |
| Vectors.CrossRegression | test/vec.cpp:31-36 | the cross products of (1,2,3) and (2,3,4) in both orders |
| Vectors.MagnitudeRegression | test/vec.cpp:38-50 | unit axes have magnitude 1, and (1,2,3) and (-1,-2,-3) have magnitude sqrt(14) |
| Vectors.NormalizeRegression | test/vec.cpp:52-69 | normalize of (5,0,0), (0,0,-5) and (1,2,3) |
| Vectors.IsUnitVectorRegression | test/vec.cpp:71-90 | (-1,0,0) and (1/√2, 1/√2, 0) are unit vectors, (2,0,0) is not |
| Vectors.ApproxEqRegression | test/vec.cpp:92-100 | the comparison test pairs |
| Vectors.NegRegression | test/vec.cpp:102-106 | unary minus of (-1,0,3) |
| Vectors.AddRegression | test/vec.cpp:108-113 | (1,2,3) + (2,3,4) |
| Vectors.SubRegression | test/vec.cpp:108-113 | (1,2,3) - (2,3,4) |
| Vectors.ScalarRegression | test/vec.cpp:115-121 | multiplying by 0.5 equals dividing by 2, and dividing by 0.5 equals multiplying by 2 |
| Vectors.VecCell.AddAssign | lib/vec.hpp:72-77 | += replaces the value with its sum with the argument |
| Vectors.VecCell.SubAssign | lib/vec.hpp:78-83 | -= replaces the value with its difference with the argument |
| Vectors.VecCell.MulAssign | lib/vec.hpp:98-105 | *= replaces the value with its scaled value |
| Vectors.VecCell.DivAssign | lib/vec.hpp:106-113 | /= replaces the value with its quotient by a nonzero scalar |
| Colors.Eq | lib/color.hpp:17-21 | operator== is float_eq on each of r, g and b; EqReflexiveSymmetric states its properties |
| Colors.Ne | lib/color.hpp:22-24 | operator!= is the negation of operator==; NeMeaning states it per channel |
| Colors.Add | lib/color.hpp:26-28 | + adds the channels; AddSubInverse proves Sub undoes it |
| Colors.Sub | lib/color.hpp:29-31 | - subtracts the channels |
| Colors.Mul | lib/color.hpp:32-34 | colour * colour multiplies channel by channel; ScaleIsMulByGrey relates it to Scale |
| Colors.Scale | lib/color.hpp:36-40 | colour * scalar multiplies every channel |
| Colors.Div | lib/color.hpp:41-45 | colour / scalar divides every channel; DivIsScaleByInverse proves it is scaling by the inverse |
| Colors.NeMeaning | lib/color.hpp:17-24 | != holds exactly when some channel differs by epsilon or more |
| Colors.EqReflexiveSymmetric | lib/color.hpp:17-21 | colour == is reflexive and symmetric, and != is false on equal colours |
| Colors.AddSubInverse | lib/color.hpp:26-34 | subtraction undoes addition; addition and the channel-wise product commute |
| Colors.ScaleIsMulByGrey | lib/color.hpp:32-40 | scaling by s is the channel-wise product with the grey (s, s, s) |
| Colors.DivIsScaleByInverse | lib/color.hpp:36-45 | dividing by a nonzero s is scaling by 1/s, and scaling back gives the colour again |
| Colors.ComparisonRegression | test/color.cpp:7-15 | the comparison test pairs |
| Colors.OperatorRegression | test/color.cpp:17-23 | +, - and channel-wise * of (0.1,0.2,0.3) and (0.2,0.3,0.4) |
| Colors.ScalarRegression | test/color.cpp:25-31 | scalar * and / by 2 and 0.5 |
| Rays.DotRay | lib/ray.hpp:14-16 | ray · ray is the dot product of the directions; DirectionOnly proves the origins never matter |
| Rays.CrossRay | lib/ray.hpp:17-19 | ray × ray is the cross product of the directions |
| Rays.DotVec | lib/ray.hpp:20-22 | ray · vec is the direction dotted with the vec |
| Rays.CrossVec | lib/ray.hpp:23-25 | ray × vec is the direction crossed with the vec |
| Rays.PointAlong | lib/ray.hpp:27-31 | point_along(t) is the origin plus t times the direction; PointAlongStart and PointAlongAdditive state its properties |
| Rays.Transform | lib/ray.hpp:33-35 | transform applies the 4 x 4 matrix to origin and direction; TransformComposes, TranslationMovesOriginOnly and ScaledScalesBoth state its properties |
| Rays.ApproxEq | lib/ray.hpp:37-39 | operator== compares origins and directions with vec operator== |
| Rays.Pos | lib/ray.hpp:41-43 | unary + gives the ray unchanged |
| Rays.Neg | lib/ray.hpp:44-46 | unary - keeps the origin and negates the direction; NegInvolution states its properties |
| Rays.DirectionOnly | lib/ray.hpp:14-25 | the ray dot and cross products depend only on the directions, never on the origins |
| Rays.NegInvolution | lib/ray.hpp:41-46 | unary minus keeps the origin, reverses the direction, and walking t along it is walking -t along the ray |
| Rays.PointAlongStart | lib/ray.hpp:27-31 | point_along(0) is the origin, the point reached is a point when the ray starts at a point along a vector, and it lies distance times the direction from the origin |
| Rays.PointAlongAdditive | lib/ray.hpp:27-31 | walking s + t is walking s then t |
| Rays.TransformComposes | lib/ray.hpp:33-35 | transforming by b then by a is transforming by a * b |
| Rays.TranslationMovesOriginOnly | lib/ray.hpp:33-35 | a translation moves the origin and leaves the direction unchanged |
| Rays.ScaledScalesBoth | lib/ray.hpp:33-35 | a scaling scales origin and direction component-wise |
| Rays.RayCell.MulAssign | lib/ray.hpp:57-59 | *= replaces the ray with its transform |
| Rays.DotRegression | test/ray.cpp:7-15 | ray · ray and ray · vec of the test directions are 20 |
| Rays.PointAlongZeroRegression | test/ray.cpp:24-30 | point_along(0) from (2,3,4) along x |
| Rays.PointAlongOneRegression | test/ray.cpp:24-30 | point_along(1) from (2,3,4) along x |
| Rays.PointAlongBackRegression | test/ray.cpp:24-30 | point_along(-1) from (2,3,4) along x |
| Rays.PointAlongFractionRegression | test/ray.cpp:24-30 | point_along(2.5) from (2,3,4) along x |
| Rays.TranslateRegression | test/ray.cpp:32-45 | translating the test ray by (3,4,5) |
| Rays.ScaleRegression | test/ray.cpp:32-45 | scaling the test ray by (2,3,4) |
| RowMajor.OffsetInjective | lib/mat.hpp:193-204 | distinct in-range (row, col) pairs address distinct cells of the row-major buffer |
| RowMajor.OffsetBelow | lib/mat.hpp:193-204 | in a buffer of `rows` rows, an in-range (row, col) addresses a cell before the end of the buffer |
| Bitmaps.Blank | lib/bitmap.hpp:12-15 | a fresh image has the requested size and every pixel is black (value-initialised) |
| Bitmaps.Paint | lib/bitmap.hpp:37-39 | painting changes exactly one pixel and keeps the size |
| Bitmaps.PaintThenRead | lib/bitmap.hpp:37-42 | reading a painted pixel gives the paint, a second paint overrides the first, and the image keeps its shape |
| Bitmaps.PixelIndexInRange | lib/bitmap.hpp:37-42 | width * y + x stays inside the width * height buffer for in-range x, y |
| Bitmaps.MemCopy | lib/bitmap.hpp:20 | memcpy leaves the destination equal to the source cell by cell |
| Bitmaps.CopyCells | lib/bitmap.hpp:19-20 | a freshly allocated buffer receives a copy of every cell |
| Bitmaps.Bitmap.constructor | lib/bitmap.hpp:12-15 | the new bitmap has the given size and is blank |
| Bitmaps.Bitmap.Copy | lib/bitmap.hpp:16-21 | the copy has the other bitmap's size and pixels in a fresh buffer |
| Bitmaps.Bitmap.Assign | lib/bitmap.hpp:22-28 | after assignment the bitmap has the other's size and pixels, in a fresh buffer, even when it is assigned to itself |
| Bitmaps.Bitmap.AssignAsWritten | lib/bitmap.hpp:22-28 | as written, assignment copies another bitmap but blanks a bitmap assigned to itself |
| Bitmaps.Bitmap.GetWidth | lib/bitmap.hpp:30-32 | get_width returns the stored width |
| Bitmaps.Bitmap.GetHeight | lib/bitmap.hpp:33-35 | get_height returns the stored height |
| Bitmaps.Bitmap.GetPixel | lib/bitmap.hpp:40-42 | get_pixel returns the pixel at (x, y) of the image |
| Bitmaps.Bitmap.SetPixel | lib/bitmap.hpp:37-39 | set_pixel paints exactly (x, y), in place, keeping the size |
| Bitmaps.SizeScenario | test/bitmap.cpp:7-12 | a 4 x 4 bitmap reports width 4, height 4 and a black pixel |
| Bitmaps.SetGetScenario | test/bitmap.cpp:14-19 | a painted pixel reads back as painted, a neighbour stays black |
| Bitmaps.CopyIndependence | lib/bitmap.hpp:16-21 | painting a copy leaves the original unchanged |
| Matrices.Identity | lib/mat.hpp:20-33 | make_identity is the n x n matrix with 1 on the diagonal and 0 elsewhere; IdentityNeutral and DetIdentity state its properties |
| Matrices.Translation | lib/mat.hpp:35-48 | make_translation is the 4 x 4 identity with x, y, z in the last column; TranslationAction states what it does |
| Matrices.TranslationBy | lib/mat.hpp:43-45 | make_translation(vec) is a 4 x 4 matrix taking the offset from the vec's x, y, z; TranslationAction states what it does |
| Matrices.UniformTranslation | lib/mat.hpp:46-48 | make_translation(float) is a 4 x 4 matrix with the same offset on all three axes; TranslationRegression and TranslatedRegression use it |
| Matrices.Scaled | lib/mat.hpp:50-63 | make_scaled is the 4 x 4 diagonal (x, y, z, 1); ScaledAction states what it does |
| Matrices.ScaledBy | lib/mat.hpp:58-60 | make_scaled(vec) is a 4 x 4 matrix taking the factors from the vec's x, y, z; ScaledAction states what it does |
| Matrices.UniformScaled | lib/mat.hpp:61-63 | make_scaled(float) is a 4 x 4 matrix with the same factor on all three axes; ScaledRegression uses it |
| Matrices.Sheared | lib/mat.hpp:92-99 | make_sheared puts the six proportions off the diagonal of the 3 x 3 block; ShearedAction states what it does |
| Matrices.Transpose | lib/mat.hpp:101-109 | transpose swaps rows and columns, keeping the size; TransposeInvolutive and TransposeProduct state its properties |
| Matrices.Minor | lib/mat.hpp:131-141 | minor is the entry for 1 x 1, entry (row, col) for 2 x 2, and the determinant of sub(row, col) from 3 x 3 on |
| Matrices.Cofactor | lib/mat.hpp:143-145 | cofactor is the minor, negated when row + col is odd |
| Matrices.Det | lib/mat.hpp:147-160 | determinant is the entry for 1 x 1, ad - cb for 2 x 2, and the first-row cofactor expansion from 3 x 3 on; MatrixInverse.DetLeibniz and MatrixInverse.RowExpansion state its properties at 4 x 4 |
| Matrices.Invertible | lib/mat.hpp:162-164 | invertible is an exact comparison of the determinant with 0 |
| Matrices.InverseOf | lib/mat.hpp:166-184 | inverse keeps the size, is the identity for a singular matrix and otherwise has entry (j, i) equal to cofactor(i, j) / det; MatrixInverse.InverseIsInverse4 proves it a two-sided inverse at 4 x 4 |
| Matrices.Product | lib/mat.hpp:206-216 | operator* sums row times column and keeps the size; ProductAssociative and IdentityNeutral state its properties |
| Matrices.MatVec | lib/mat.hpp:220-228 | matrix * vec dots each row with all four components of the vec; MatVecProduct states its properties |
| Matrices.ApproxEqual | lib/mat.hpp:230-237 | operator== is float_eq of every pair of corresponding entries |
| Matrices.Submatrix | lib/mat.hpp:111-129 | sub(row, col) has one row and column fewer and entry (i, j) is the entry of m with row and col skipped |
| Matrices.IdentityNeutral | lib/mat.hpp:20-33 | the identity is neutral on both sides of the product |
| Matrices.ProductAssociative | lib/mat.hpp:206-216 | the matrix product is associative |
| Matrices.TransposeInvolutive | lib/mat.hpp:101-109 | transposing twice gives the matrix back |
| Matrices.TransposeIdentity | lib/mat.hpp:101-109 | the identity is its own transpose |
| Matrices.TransposeProduct | lib/mat.hpp:101-109 | the transpose of a product is the product of the transposes in reverse order |
| Matrices.SubmatrixTranspose | lib/mat.hpp:101-129 | sub of a transpose is the transpose of sub with row and column swapped |
| Matrices.SubmatrixIdentity | lib/mat.hpp:111-129 | removing the same row and column from an identity leaves the smaller identity |
| Matrices.Det3Formula | lib/mat.hpp:143-160 | the cofactor expansion of a 3 x 3 matrix is the closed-form rule of Sarrus |
| Matrices.DetTransposeSmall | lib/mat.hpp:101-160 | up to 3 x 3, transposing does not change the determinant |
| Matrices.DetZeroRow | lib/mat.hpp:147-160 | a matrix with a zero row has determinant 0 |
| Matrices.DetIdentity | lib/mat.hpp:147-160 | the identity has determinant 1 at every size |
| Matrices.CofactorIdentity | lib/mat.hpp:131-145 | the cofactors of the identity are the identity's entries |
| Matrices.InverseIdentity | lib/mat.hpp:162-184 | the identity is invertible and is its own inverse |
| Matrices.TranslationAction | lib/mat.hpp:35-48 | a translation matrix moves a point by (x, y, z) and leaves a free vector unchanged |
| Matrices.ScaledAction | lib/mat.hpp:50-63 | a scaling matrix scales x, y, z and keeps w |
| Matrices.ShearedAction | lib/mat.hpp:92-99 | a shearing matrix adds each named proportion of the other coordinates |
| Matrices.MatVecProduct | lib/mat.hpp:206-228 | applying a product is applying its factors in turn |
| Matrices.TranslationScaledProduct | lib/mat.hpp:35-63 | make_translation(t) * make_scaled(s) is the matrix that scales by s and then moves by t |
| Matrices.TranslateScaleDet | lib/mat.hpp:147-160 | that matrix has determinant sx * sy * sz |
| Matrices.TranslateScaleSingular | lib/mat.hpp:162-184 | it is singular when a scale component is 0, and inverse then gives the identity |
| Matrices.TranslateScaleInverse | lib/mat.hpp:162-184 | with nonzero scale it is invertible and its inverse moves by -t and then scales by 1/s |
| MatrixInverse.DetLeibniz | lib/mat.hpp:131-160 | the recursive determinant of a 4 x 4 matrix is the 24-term signed-product (Leibniz) sum of its rows |
| MatrixInverse.LeibnizRows | lib/mat.hpp:147-160 | that sum is unchanged by the row orders used below and is 0 when two rows are equal |
| MatrixInverse.CofactorRowClosed | lib/mat.hpp:131-160 | a row x weighted by the cofactors of row j is the determinant of the matrix with row j replaced by x |
| MatrixInverse.RowExpansion | lib/mat.hpp:143-160 | expanding a 4 x 4 determinant along any row, not only row 0, gives the determinant |
| MatrixInverse.AlienExpansion | lib/mat.hpp:143-160 | row i weighted by the cofactors of a different row j sums to 0 |
| MatrixInverse.RightInverse4 | lib/mat.hpp:162-216 | for every invertible 4 x 4 m, m * inverse(m) is the identity |
| MatrixInverse.DetTranspose4 | lib/mat.hpp:101-160 | transposing a 4 x 4 matrix keeps its determinant |
| MatrixInverse.CofactorTranspose | lib/mat.hpp:101-145 | cofactor (col, row) of the transpose of a 4 x 4 matrix is cofactor (row, col) of the matrix |
| MatrixInverse.InverseTranspose | lib/mat.hpp:101-184 | the transpose of an invertible 4 x 4 matrix is invertible, and its inverse is the transpose of the inverse |
| MatrixInverse.InverseIsInverse4 | lib/mat.hpp:162-216 | for every invertible 4 x 4 m, inverse(m) is a two-sided inverse: m * inverse(m) and inverse(m) * m are both the identity |
| MatrixInverse.InverseUndoesAction | lib/mat.hpp:162-228 | for every invertible 4 x 4 m and every vec v, inverse(m) undoes m on v and m undoes inverse(m) on v |
| MatrixRegressions.UndoProduct | lib/mat.hpp:166-216 | for 4 x 4 matrices a and b with b invertible, (a * b) * inverse(b) is a |
| MatrixRegressions.TranslateScaleInverseAction | lib/mat.hpp:166-228 | the inverse of a translate-scale matrix maps a vec by (v - t w) / s component-wise |
| MatrixRegressions.TranslationRegression | test/mat.cpp:45-55 | the translation test: a point moves, a vector does not |
| MatrixRegressions.TranslationInverseRegression | test/mat.cpp:45-55 | the inverse translation moves the point back the other way |
| MatrixRegressions.ScaledRegression | test/mat.cpp:57-67 | the scaling test on a point and a vector |
| MatrixRegressions.ScaledInverseRegression | test/mat.cpp:57-67 | the inverse scaling test |
| MatrixRegressions.ShearedRegression | test/mat.cpp:93-113 | the six shearing cases |
| MatrixRegressions.TransposeRegression | test/mat.cpp:121-131 | the transpose test |
| MatrixRegressions.MinorCofactorRegression | test/mat.cpp:144-161 | the minor and cofactor tests |
| MatrixRegressions.Det3Regression | test/mat.cpp:163-178 | the 3 x 3 determinant test is -196 |
| MatrixRegressions.Det4Closed | lib/mat.hpp:147-160 | a 4 x 4 determinant by expansion equals the sum of its first-row cofactor terms in closed form |
| MatrixRegressions.Det4Regression | test/mat.cpp:163-178 | the 4 x 4 determinant test is -4071 |
| MatrixRegressions.InvertibleRegression | test/mat.cpp:180-196 | the invertible matrix has determinant -2120; the singular one is not invertible and inverts to the identity |
| MatrixRegressions.InverseFromCofactors | lib/mat.hpp:166-184 | a matrix k with k[i][j] * det = cofactor(j, i) and det nonzero is the inverse |
| MatrixRegressions.M1Inverse | test/mat.cpp:199-212 | the first inverse test matrix has determinant -585 and the exact inverse |
| MatrixRegressions.M1InverseRegression | test/mat.cpp:199-212 | that inverse equals the test's five-decimal table under operator== |
| MatrixRegressions.M3Inverse | test/mat.cpp:214-227 | the second inverse test matrix has determinant 1620 and the exact inverse |
| MatrixRegressions.M3InverseRegression | test/mat.cpp:214-227 | that inverse equals the test's table under operator== |
| MatrixRegressions.M6Inverse | test/mat.cpp:229-243 | the third test matrix has determinant -378 and the exact inverse |
| MatrixRegressions.M6RightInverse | test/mat.cpp:229-243 | a computed regression on the test matrix: it times its exact inverse is the identity; the general fact is MatrixInverse.InverseIsInverse4 |
| MatrixRegressions.InverseRoundTripRegression | test/mat.cpp:229-243 | (m5 * m6) * inverse(m6) is m5 |
| MatrixRegressions.ProductRegression | test/mat.cpp:267-295 | the 2 x 2 product test |
| MatrixRegressions.ProductSignedRegression | test/mat.cpp:267-295 | the 2 x 2 product test with negative entries |
| MatrixRegressions.MatVecRegression | test/mat.cpp:297-306 | the matrix-times-point test |
| MatrixRegressions.EqualityRegression | test/mat.cpp:308-316 | the equality test pairs |
| MatrixRegressions.SetGetScenario | test/mat.cpp:246-265 | set then get on a buffer-backed matrix returns the stored values |
| MatrixStorage.ApproxEqualFlat | lib/mat.hpp:230-237 | operator== over the flat buffer is float_eq of every cell, which is ApproxEqual of the matrices |
| MatrixStorage.WriteSame | lib/mat.hpp:193-195 | writing back the value already stored changes nothing |
| MatrixStorage.WriteTwice | lib/mat.hpp:193-195 | a second write to the same cell overrides the first |
| MatrixStorage.SubFillDone | lib/mat.hpp:111-129 | the nested loop of sub fills exactly the sub-matrix |
| MatrixStorage.MatBuffer.constructor | lib/mat.hpp:14-18 | a new matrix of size n is all zeros |
| MatrixStorage.MatBuffer.FromValues | lib/mat.hpp:14-18 | the variadic constructor stores the given values row by row, the rest zero |
| MatrixStorage.MatBuffer.Get | lib/mat.hpp:196-204 | get(row, col) is entry (row, col) |
| MatrixStorage.MatBuffer.Set | lib/mat.hpp:193-195 | set writes exactly entry (row, col), in place |
| MatrixStorage.MatBuffer.MakeIdentity | lib/mat.hpp:20-33 | make_identity holds the identity |
| MatrixStorage.MatBuffer.Transposed | lib/mat.hpp:101-109 | transpose holds the transposed matrix |
| MatrixStorage.MatBuffer.Sub | lib/mat.hpp:111-129 | sub holds the sub-matrix |
| MatrixStorage.MatBuffer.SubRow | lib/mat.hpp:117-126 | the inner loop of sub copies row i, skipping column col, into the output row chosen by hitRow, and changes nothing else; SubFillDone closes the outer loop |
| MatrixStorage.MatBuffer.Minor | lib/mat.hpp:131-141 | minor computes Matrices.Minor, including its small-size cases |
| MatrixStorage.MatBuffer.Cofactor | lib/mat.hpp:143-145 | cofactor computes Matrices.Cofactor |
| MatrixStorage.MatBuffer.Determinant | lib/mat.hpp:147-160 | determinant computes the recursive determinant |
| MatrixStorage.MatBuffer.IsInvertible | lib/mat.hpp:162-164 | invertible is true exactly for a nonzero determinant |
| MatrixStorage.MatBuffer.Inverse | lib/mat.hpp:166-184 | inverse holds Matrices.InverseOf |
| MatrixStorage.MatBuffer.ProductCell | lib/mat.hpp:206-216 | the inner loop computes one cell of the product |
| MatrixStorage.MatBuffer.Multiply | lib/mat.hpp:206-216 | operator* holds the matrix product |
| MatrixStorage.MatBuffer.MulAssign | lib/mat.hpp:217-219 | *= replaces the matrix with its product with the argument, held in a fresh buffer |
| MatrixStorage.MatBuffer.Apply | lib/mat.hpp:220-228 | matrix * vec is MatVec of the contents |
| MatrixStorage.MatBuffer.Equals | lib/mat.hpp:230-237 | operator== is ApproxEqual of the contents |
| Transforms.DefaultIsIdentity | lib/world.hpp:59-65 | the default translation and scale give the identity matrix |
| Transforms.TranslateScaleAction | lib/world.hpp:59-61 | the model matrix scales a vec and then moves it by the translation times w |
| Transforms.Transform.constructor | lib/world.hpp:14-16 | the default transform is the origin with unit scale and the identity matrix |
| Transforms.Transform.Placed | lib/world.hpp:17-21 | the explicit constructor stores translation and scale with a matching matrix |
| Transforms.Transform.RecalculateMatrix | lib/world.hpp:59-61 | the matrix becomes translation * scale |
| Transforms.Transform.GetTransform | lib/world.hpp:23-28 | the matrix always equals make_translation * make_scaled of the stored fields |
| Transforms.Transform.GetTranslation | lib/world.hpp:38-40 | get_translation returns the stored translation |
| Transforms.Transform.GetScale | lib/world.hpp:54-56 | get_scale returns the stored scale |
| Transforms.Transform.Translate | lib/world.hpp:30-33 | translate adds to the translation, keeps the scale, and keeps the matrix in step |
| Transforms.Transform.SetTranslation | lib/world.hpp:34-37 | set_translation replaces the translation and keeps the scale |
| Transforms.Transform.AddScale | lib/world.hpp:42-45 | add_scale adds to the scale and keeps the translation |
| Transforms.Transform.SetUniformScale | lib/world.hpp:46-49 | set_scale(float) makes the scale the vector (s, s, s) |
| Transforms.Transform.SetScale | lib/world.hpp:50-53 | set_scale(vec) replaces the scale |
| Transforms.TranslatedRegression | test/world.cpp:7-19 | translation (2,2,2) with unit scale gives make_translation(2) |
| Transforms.ScaledRegression | test/world.cpp:7-19 | the origin with scale (2,2,2) gives make_scaled(2) |
| Transforms.ConstructorScenario | test/world.cpp:7-19 | the four constructor cases of the transform test |
| Intersections.Eq | lib/world.hpp:73 | the defaulted operator== compares the rays with ray operator== and distance and id exactly |
| Intersections.Replaces | lib/world.hpp:80 | the replacement test of the scan: a hit in front replaces a best behind the ray, and any hit no farther replaces the best; BestIsVisited and FrontThenBehindRegression state its consequences |
| Intersections.Best | lib/world.hpp:78-83 | the running best after visiting a prefix of the hits, starting from the first hit; BestIsVisited and BestIsLastMinimum state its properties |
| Intersections.Visible | lib/world.hpp:75-88 | discard_occluded gives none for no hits and otherwise the final best if it is not behind the ray; VisibleSound, VisibleNone and VisibleNearest state its properties |
| Intersections.DiscardOccluded | lib/world.hpp:75-88 | the loop returns Visible: none for no hits, else the scan's final best when it is not behind the ray |
| Intersections.BestIsVisited | lib/world.hpp:78-83 | the running best is one of the hits, and once it is not behind the ray every later visited hit is strictly farther |
| Intersections.VisibleNone | lib/world.hpp:84-87 | with every hit behind the ray nothing is visible |
| Intersections.VisibleSound | lib/world.hpp:75-88 | a visible hit is one of the hits, not behind the ray, and strictly nearer than every hit after it |
| Intersections.BestIsLastMinimum | lib/world.hpp:78-83 | with no hit behind the ray the running best is the last of the nearest hits seen |
| Intersections.VisibleNearest | lib/world.hpp:75-88 | with no hit behind the ray the visible hit is the nearest one, the last of equals |
| Intersections.NearerFirstRegression | test/world.cpp:21-57 | hits 1 then 2 give 1 |
| Intersections.BehindThenFrontRegression | test/world.cpp:21-57 | hits -1 then 1 give 1 |
| Intersections.AllBehindRegression | test/world.cpp:21-57 | hits -2 and -1 give none |
| Intersections.TieRegression | test/world.cpp:21-57 | two hits at 0 give a hit at 0 |
| Intersections.FrontThenBehindRegression | lib/world.hpp:80 | hits 1 then -1 give none: a later hit behind the ray displaces a hit in front |
| IntersectionFindings.BehindAfterFrontAsWritten | lib/world.hpp:75-88 | hits 1, 2, -3, -2 (a sphere in front, then one behind the camera) give no visible hit as written, while the corrected scan gives 1 |
| IntersectionFindings.Improves | lib/world.hpp:80 | the corrected replacement test: only a hit not behind the ray, and nearer or as near as a best in front, replaces the best; NearestBestIsNearest states its consequence |
| IntersectionFindings.NearestBest | lib/world.hpp:78-83 | the running best of the corrected scan; NearestBestIsNearest proves it a visited hit, in front when any visited hit is, and no farther than any of those |
| IntersectionFindings.NearestVisible | lib/world.hpp:75-88 | the corrected answer; NearestVisibleCorrect proves it none exactly when every hit is behind the ray and otherwise the nearest hit in front |
| IntersectionFindings.DiscardOccludedIntended | lib/world.hpp:75-88 | the loop with the corrected replacement test returns NearestVisible |
| IntersectionFindings.NearestBestIsNearest | lib/world.hpp:78-83 | the corrected running best is a visited hit; it is behind the ray only if every visited hit is, and otherwise no farther than any visited hit in front |
| IntersectionFindings.NearestVisibleCorrect | lib/world.hpp:75-88 | the corrected scan finds nothing exactly when every hit is behind the ray, and otherwise finds a hit in front that is no farther than any other hit in front |
| IntersectionFindings.IntendedAgreesInFront | lib/world.hpp:75-88 | with no hit behind the ray the corrected and the written scan agree |
| Spheres.SameObject | lib/world.hpp:102-104 | object operator== compares ids only |
| Spheres.NewSphere | lib/world.hpp:111 | a new sphere has the id and the default transform, at the origin with unit scale; DefaultIsIdentity proves that transform the identity |
| Spheres.Local | lib/world.hpp:114 | the object-space ray is the ray transformed by the inverse of the model matrix; InverseModel and LocalDirectionNonzero state its properties |
| Spheres.QuadraticOf | lib/world.hpp:115-118 | a, b and c are the direction's self-dot, twice its dot with the origin's offset from the centre, and that offset's self-dot minus 1, dots including w; HitShape and MissNeverOnSurface use it |
| Spheres.Setup | lib/world.hpp:114-118 | the coefficients of an object and a world ray are those of its object-space ray; HitShape states that its roots are hits |
| Spheres.Discriminant | lib/world.hpp:119 | d is b * b - 4 * a * c; IntersectsIffHits and MissNeverOnSurface state what its sign means |
| Spheres.Intersects | lib/world.hpp:113-121 | intersects holds when the discriminant in object space is not negative; IntersectsIffHits and MissNeverOnSurface state its properties |
| Spheres.Model | lib/world.hpp:59-61 | an object's matrix is make_translation * make_scaled of its translation and scale |
| Spheres.Roots | lib/world.hpp:129-134 | the root list is empty or two hits, each naming the sphere and carrying the object-space ray |
| Spheres.SphereIntersections | lib/world.hpp:122-135 | intersections returns no hits or two, each naming the sphere and carrying the object-space ray |
| Spheres.IntersectsIffHits | lib/world.hpp:113-135 | intersects is true exactly when intersections returns two hits, false exactly when it returns none |
| Spheres.HitShape | lib/world.hpp:122-135 | every hit comes from an intersecting ray and solves the quadratic |
| Spheres.HitsOnSurface | lib/world.hpp:122-135 | each hit's point, taken in object space, lies on the unit sphere |
| Spheres.MissNeverOnSurface | lib/world.hpp:113-121 | when intersects is false no point along the object-space ray lies on the unit sphere |
| Spheres.InverseModel | lib/world.hpp:114-123 | with nonzero scale the inverse model matrix undoes the translation and then the scale |
| Spheres.LocalDirectionNonzero | lib/world.hpp:114-123 | a ray with a nonzero direction keeps a nonzero direction in object space |
| Spheres.HitsOrdered | lib/world.hpp:131-132 | the first hit is never farther than the second |
| SphereRegressions.DirectHitRegression | test/world.cpp:59-99 | a ray along z from -5 hits the default sphere at 4 and 6 |
| SphereRegressions.TangentRegression | test/world.cpp:59-99 | the tangent ray at y = 1 hits twice at 5 |
| SphereRegressions.MissRegression | test/world.cpp:59-99 | the ray at y = 2 misses |
| SphereRegressions.InsideRegression | test/world.cpp:59-99 | from the centre the hits are -1 and 1 |
| SphereRegressions.AheadOfRegression | test/world.cpp:59-99 | with the sphere behind the ray the hits are -6 and -4 |
| SphereRegressions.TranslatedMissRegression | test/world.cpp:101-119 | the sphere moved by (5,0,0) is missed |
| SphereRegressions.ScaledHitRegression | test/world.cpp:101-119 | the sphere scaled by 2 is hit at 3 and 7 |
| Worlds.HitLists | lib/world.hpp:157-165 | one hit list per object, in object order |
| Worlds.Partial | lib/world.hpp:181-191 | the image after visiting pixels up to (x, y) in row order has the requested size |
| Worlds.Gather | lib/world.hpp:157-165 | the hits of every object, object by object in order; GatherAppend, GatherMembers, GatherCount and GatherEmpty state its properties |
| Worlds.Shade | lib/world.hpp:187-189 | a pixel is red when its eye ray has a visible hit and black otherwise; Picture and PartialStep use it |
| Worlds.ShadeOf | lib/world.hpp:181-189 | the shade of every pixel as a function of its coordinates, which Partial paints in row order |
| Worlds.Picture | lib/world.hpp:177-193 | the rendered image has the requested size and each pixel is red exactly when the eye ray has a visible hit, else black |
| Worlds.FlattenAppend | lib/world.hpp:159-163 | concatenating per-object hits distributes over splitting the object list |
| Worlds.FlattenMembers | lib/world.hpp:159-163 | a hit is gathered exactly when some object's list holds it |
| Worlds.FlattenCount | lib/world.hpp:159-163 | lists of 0 or 2 hits gather to an even count of at most twice the list count |
| Worlds.GatherAppend | lib/world.hpp:157-165 | the hits of a+b are the hits of a followed by the hits of b |
| Worlds.GatherMembers | lib/world.hpp:157-165 | a hit is gathered exactly when it is one of some object's hits |
| Worlds.GatherCount | lib/world.hpp:157-165 | the gathered count is even and at most twice the number of objects |
| Worlds.GatherEmpty | lib/world.hpp:157-165 | nothing is gathered exactly when no object intersects the ray |
| Worlds.HitsNameTheirObjects | lib/world.hpp:149-165 | when ids are positions, every gathered hit names the object it came from |
| Worlds.PartialStart | lib/world.hpp:178 | before any pixel is visited the image is blank |
| Worlds.PartialStep | lib/world.hpp:182-189 | visiting one pixel paints it with its shade and changes nothing else |
| Worlds.PartialNextRow | lib/world.hpp:181-182 | finishing a row is starting the next |
| Worlds.World.constructor | lib/world.hpp:140 | a new world has no objects |
| Worlds.World.Add | lib/world.hpp:149-155 | add appends a sphere placed at origin with the scale and returns its id, the old object count |
| Worlds.World.GetIntersections | lib/world.hpp:157-165 | get_intersections returns every object's hits in object order |
| Worlds.World.GetVisibleIntersection | lib/world.hpp:166-168 | get_visible_intersection is discard_occluded of the gathered hits |
| Worlds.World.GetObjects | lib/world.hpp:173-175 | get_objects returns the objects in the order they were added |
| Worlds.World.GetObject | lib/world.hpp:170-172 | get_object gives the object at an in-range index and none out of range |
| Worlds.World.Render | lib/world.hpp:177-193 | render returns a fresh bitmap of the requested size holding the picture |
| Worlds.World.RenderRow | lib/world.hpp:182-190 | the inner loop paints one row |
| Worlds.World.RenderPixel | lib/world.hpp:183-189 | one pixel is painted red when its eye ray has a visible hit |
| WorldRegressions.FirstSphereRegression | test/world.cpp:121-144 | one default sphere at the origin: hits -1 and 1 along z from the centre, visible hit 1 |
| WorldRegressions.SecondSphereRegression | test/world.cpp:121-144 | with a second sphere at (0,0,2), the hits are -1, 1, 0, 4 and the visible hit is 0 on sphere 1 |
| MatrixFindings.InverseAsWrittenFails | lib/mat.hpp:131-141 | diag(2, 1) is invertible, yet inverse gives diag(1, 0.5), and m * inverse(m) is not the identity |
| MatrixFindings.IntendedMinor | lib/mat.hpp:131-141 | the corrected minor: 1 for 1 x 1, the opposite entry for 2 x 2, and det of sub from 3 x 3 on; IntendedAgreesFromThree and IntendedInverseIsInverse state its consequences |
| MatrixFindings.IntendedCofactor | lib/mat.hpp:143-145 | the corrected minor with the checkerboard sign |
| MatrixFindings.IntendedInverse | lib/mat.hpp:166-184 | the corrected inverse keeps the size and is the identity for a singular matrix; IntendedInverseIsInverse proves it two-sided at 1 x 1 and 2 x 2, IntendedAgreesFromThree proves it equal to inverse from 3 x 3 on |
| MatrixFindings.IntendedAgreesFromThree | lib/mat.hpp:131-184 | from 3 x 3 on, the corrected inverse is inverse as written |
| MatrixFindings.IntendedInverseIsInverse | lib/mat.hpp:131-184 | below 3 x 3 the corrected inverse of an invertible matrix is a two-sided inverse |

## Left out

- Rotation matrices (`make_rotated_x/y/z`, lib/mat.hpp:65-90) and their tests are not modelled: they need `sinf`/`cosf`, which reals cannot express exactly.
- The chained-transformation test (test/mat.cpp:115-119) uses rotations and is left out with them.
- Non-square matrices are not modelled. The mathematical matrices are square, so the 2 x 3 case of the `sub` test (test/mat.cpp:133-142) and `get_width`/`get_height` of `mat` (lib/mat.hpp:186-191) are not covered.
- Float rounding is not modelled: floats are reals and every operation is exact. The float-specific results of the tests hold under `float_eq` or exactly.
- `std::sqrtf` is not modelled: it is a parameter `sqrt` constrained by `RtMath.IsSqrt`.
- `std::powf` in `magnitude` is written as a product.
- The camera formula of `render` (lib/world.hpp:183-186, with `tanf` and `normalize`) is the parameter `eye` giving the ray for each pixel.
- Division by zero is not modelled as IEEE infinity or NaN. Where the source may divide by a zero float (`2 * a` of a degenerate ray in sphere intersection, the magnitude in `normalize`), `RtMath.Quotient` gives 0.
- Vectors.Div: requires a nonzero divisor instead of modelling infinities.
- Colors.Div: requires a nonzero divisor instead of modelling infinities.
- Vectors.VecCell.DivAssign: requires a nonzero divisor instead of modelling infinities.
- Spheres.HitsOnSurface: requires a nonzero `a`, the case the source handles without dividing by zero.
- Spheres.HitsOrdered: requires a nonzero `a`, the case the source handles without dividing by zero.
- `short` widths and heights and their integer wrap-around are not modelled: sizes and coordinates are `nat`.
- Bitmap bounds are not modelled as unchecked: `get_pixel`/`set_pixel` require in-range coordinates, where the source writes out of bounds unchecked.
- The mutable `operator()` references of `bitmap` and `mat` are modelled through `SetPixel` and `Set`.
- PNG encoding and saving (`get_raw_png`, `save`, lib/bitmap.cpp) and the GUI window are not modelled; the bitmap `save` test goes with them.
- The `render_spheres` test (test/world.cpp:147-153) only saves a picture, so it is not modelled.
- Ownership of heap objects is not modelled: `new`/`delete` of world objects, `object_type`, virtual dispatch and the mutable `get_transform()` reference. World objects are sphere values that record the translation and scale `add` gives them.
- `Worlds.World.GetObject`: an out-of-range index gives `None`, where `std::vector::at` throws.
- `Worlds.World` keeps `discard_occluded` as written (see Findings); the corrected scan is proved in `IntersectionFindings` alongside it.
- `Matrices.InverseOf` keeps `minor` as written (see Findings). The corrected `MatrixFindings.IntendedInverse` agrees with it from 3 x 3 on, so at 4 x 4, the only size the scene uses, the two are the same function.
- Matrices.InverseOf: the two-sided inverse property is proved for every invertible 4 x 4 matrix (`MatrixInverse.InverseIsInverse4`) and, for the corrected inverse, at 1 x 1 and 2 x 2 (`MatrixFindings.IntendedInverseIsInverse`); it is not proved at 3 x 3 or above 4 x 4.

## Findings

| source | as written | input that shows it | evidently intended | confidence | as-written member | corrected member |
|---|---|---|---|---|---|---|
| lib/bitmap.hpp:22-28 | `operator=` replaces its own buffer with a fresh zeroed one before copying from `other` | `b = b` on a painted bitmap: the old buffer is freed and the copy reads the new zeroed one, so every pixel becomes black | self-assignment leaves the pixels unchanged | not executed | Bitmaps.Bitmap.AssignAsWritten | Bitmaps.Bitmap.Assign |
| lib/mat.hpp:131-141 | `minor` of a 1 x 1 matrix returns the entry, and of a 2 x 2 matrix returns entry (row, col), where the determinant of `sub(row, col)` is meant | m = diag(2, 1): inverse gives diag(1, 0.5), and m * inverse(m) = diag(2, 0.5) | minor is 1 for 1 x 1 and the opposite entry for 2 x 2, so that at those sizes inverse is a two-sided inverse | not executed | MatrixFindings.InverseAsWrittenFails | MatrixFindings.IntendedInverseIsInverse |
| lib/world.hpp:80 | any hit no farther than the running best replaces it, including a hit behind the ray | distances 1, 2, -3, -2 (a sphere ahead, then one behind the camera): the best ends at -3 and nothing is visible | only a hit not behind the ray may replace the best, so the nearest hit in front is returned | not executed | IntersectionFindings.BehindAfterFrontAsWritten | IntersectionFindings.NearestVisibleCorrect |
