# Computer graphics from scratch — a verified model of the core

This project models the core of a TypeScript toy renderer, written after the book
*Computer Graphics from Scratch*. The model's parts are:

- a small linear-algebra kernel (3- and 4-vectors, 4x4 matrices, planes);
- the ray tracer's scene, whose light intensities are renormalised to sum to 1 each time a light is added, provided no light object is in the list twice (see "Left out");
- the closest-intersection search of a ray against a list of spheres;
- the shading model: ambient, point and directional lights, each with diffuse and specular terms;
- the recursive `traceRay`, with at most three reflections;
- the three `putPixel` implementations that write RGBA bytes into a canvas buffer;
- the rasterizer's naive `drawLine`;
- the cube mesh of the rasterizer.

Numbers are Dafny `real`s, so arithmetic is exact. `Math.sqrt` and `Math.pow` are function-typed
parameters, and `Numeric.IsSqrt` and `Lights.PowPositive` state the only facts the proofs use about them.
JavaScript's `Infinity` used as "no time" is `Numeric.PosInfinity`, and an absent property is
`Wrappers.None`. Pure code is modelled as functions with lemmas. Loops and in-place updates are modelled as methods:

- the loops of `interpolate`, the matrix products, `calculateClosestIntersection`, `computeLighting` and `drawLine`;
- the scene's list updates;
- the `putPixel` stores into an `array<int>`.

Each such method is proved against a specification function or predicate. The properties are proved
about that specification.

Modules and files:

| file | module | models |
|---|---|---|
| wrappers.dfy | `Wrappers` | optional values |
| numeric.dfy | `Numeric` | extended reals, the square root, the logical or of JavaScript on numbers |
| algebra.dfy | `Algebra` | `src/lib/algebra.ts` |
| colors.dfy | `Colors` | `src/lib/colors.ts`, the alpha defaults |
| shapes.dfy | `Shapes` | `src/lib/shapes/sphere.ts` and the sphere fields the ray tracer uses |
| lights.dfy | `Lights` | `src/lib/lights.ts` |
| scene.dfy | `Scenes` | `src/lib/scene.ts` |
| intersections.dfy | `Intersections` | `old-app/src/lib/utilities.ts` |
| canvas.dfy | `Canvas` | the RGBA buffer and the `putPixel` stores shared by the three renderers, `canvasToViewport` |
| raytracer.dfy | `RayTracer` | `src/lib/rayTracer/renderer.ts` |
| rasterizer.dfy | `Rasterizer` | `src/lib/rasterizer/renderer.ts` |
| renderer.dfy | `BaseRenderer` | `src/lib/renderer.ts` |
| models.dfy | `Models` | `src/lib/rasterizer/models.ts` |

## Model

| member | source | states |
|---|---|---|
| Algebra.SubtractUndoesAdd | src/lib/algebra.ts:11-17 | subtracting `w` undoes adding it, and adding `w` undoes subtracting it |
| Algebra.AddCommutative | src/lib/algebra.ts:15-17 | vector addition is commutative |
| Algebra.DotProductCommutative | src/lib/algebra.ts:3-5 | the dot product is symmetric |
| Algebra.DotProductLinear | src/lib/algebra.ts:3-25 | the dot product is linear in its first argument over `add`, `subtract` and `multiply` |
| Algebra.DotSelfPositive | src/lib/algebra.ts:3-5 | `v . v` is never negative, and positive for every non-zero vector |
| Algebra.Clamp | src/lib/algebra.ts:27-29 | with `min <= max` the result lies in `[min, max]`; a value inside the range is returned unchanged; values below or above go to the nearer bound |
| Algebra.Interpolate | src/lib/algebra.ts:31-46 | the loop's list equals `Interpolation`: `[d0]` for equal indices, otherwise one value `d0 + k * slope` per index from `i0` up to `i1` |
| Algebra.InterpolationSingle | src/lib/algebra.ts:32-34 | `interpolate(i0, d0, i0, d1)` is exactly `[d0]` |
| Algebra.InterpolationEmpty | src/lib/algebra.ts:36-45 | an end index below the start index gives the empty list |
| Algebra.InterpolationSteps | src/lib/algebra.ts:36-45 | for `i0 < i1` there are `floor(i1 - i0) + 1` values; the first is `d0` and neighbours differ by `(d1 - d0) / (i1 - i0)` |
| Algebra.InterpolationEndsAtD1 | src/lib/algebra.ts:36-45 | when `i1 - i0` is a whole number `n > 0` there are `n + 1` values and the last is exactly `d1` |
| Algebra.InterpolationMonotonic | src/lib/algebra.ts:36-45 | the values rise when `d0 <= d1` and fall when `d1 <= d0` |
| Algebra.MultiplyMatrix4x4 | src/lib/algebra.ts:48-65 | entry `[i][j]` of the result is the sum over `k` of `m1[i][k] * m2[k][j]` |
| Algebra.TransposeMatrix4x4 | src/lib/algebra.ts:67-82 | entry `[i][j]` of the result is `m[j][i]` |
| Algebra.MultiplyMatrix4x4Vector4 | src/lib/algebra.ts:84-92 | entry `i` of the result is `dotProduct4(m[i], v)` |
| Algebra.TransposeInvolutive | src/lib/algebra.ts:67-82 | transposing twice gives back the matrix |
| Algebra.TransposeOfProduct | src/lib/algebra.ts:48-82 | the transpose of `a b` is `b^T a^T` |
| Algebra.IdentityNeutral | src/lib/algebra.ts:48-65 | the identity matrix is neutral on both sides of the product |
| Algebra.ProductActsAsComposition | src/lib/algebra.ts:48-92 | applying `a b` to a vector is applying `b` and then `a` |
| Algebra.TranslationAddsOffset | src/lib/algebra.ts:130-150 | the translation by `t` maps the homogeneous point `p` (`convertPoint3dToHomogeneous`, weight 1) to `(p + t, 1)` |
| Algebra.ScaleMultipliesCoordinates | src/lib/algebra.ts:139-150 | the scale by `s` maps the homogeneous point `p` (`convertPoint3dToHomogeneous`, weight 1) to `(s p, 1)` |
| Algebra.TranslationsCompose | src/lib/algebra.ts:130-137 | the product of two translations is the translation by the sum of the offsets |
| Algebra.TranslationInverse | src/lib/algebra.ts:130-137 | the translation by `-t` undoes the translation by `t` |
| Algebra.CreateTranslationMatrix4x4 | src/lib/algebra.ts:130-137 | the translation matrix; its meaning is stated by `TranslationAddsOffset`, `TranslationsCompose` and `TranslationInverse` |
| Algebra.CreateScaleMatrix4x4 | src/lib/algebra.ts:139-146 | the scale matrix; its meaning is stated by `ScaleMultipliesCoordinates` |
| Algebra.CreateRotationMatrix4x4X | src/lib/algebra.ts:94-104 | the rotation about x; `RotationTransposeIsInverse` states that it is orthonormal |
| Algebra.CreateRotationMatrix4x4Y | src/lib/algebra.ts:106-116 | the rotation about y; `RotationTransposeIsInverse` states that it is orthonormal |
| Algebra.CreateRotationMatrix4x4Z | src/lib/algebra.ts:118-128 | the rotation about z; `RotationTransposeIsInverse` states that it is orthonormal |
| Algebra.RotationTransposeIsInverse | src/lib/algebra.ts:94-128 | with `c^2 + s^2 == 1`, each of the three rotation matrices `R` has its transpose as inverse on both sides: `R^T R` and `R R^T` are the identity |
| Algebra.GetSignedDistance | src/lib/algebra.ts:152-154 | the signed distance; `SignedDistanceAlongLine` states how it changes along a line, and `GetIntersectionPoint` that it is 0 at the intersection |
| Algebra.GetIntersectionPoint | src/lib/algebra.ts:156-179 | a point exists exactly when the segment is not parallel to the plane; that point is on the plane (signed distance 0) and on the line through the segment |
| Algebra.SignedDistanceAlongLine | src/lib/algebra.ts:152-179 | the signed distance changes linearly along the line, by the denominator per unit of `t` |
| Algebra.IntersectionBetweenEndpoints | src/lib/algebra.ts:156-179 | when the segment's ends are on opposite sides of the plane, start on the positive side or start on the negative side, the intersection exists and lies strictly between them |
| Algebra.IntersectionAtStartOnPlane | src/lib/algebra.ts:156-179 | a segment starting on the plane meets it at its start |
| Numeric.OrKeepsTruthy | src/lib/rayTracer/renderer.ts:48-49 | the logical or `o or d` keeps every truthy value, gives `d` for an absent or zero value, and is non-zero when `d` is |
| Colors.AlphaDefaultsDiffer | src/lib/renderer.ts:32 | the `!== undefined` and logical-or alpha defaults agree except on an alpha of 0; an absent alpha is 255 under both |
| Lights.CalculateDiffuseLightIntensity | src/lib/lights.ts:35-41 | 0 when `normal . light <= 0`; otherwise positive, negative or zero exactly as the light's intensity is |
| Lights.ReflectionVector | src/lib/lights.ts:26 | `2 (n . l) n - l`; its meaning is stated by `ReflectionMirrors` |
| Lights.ReflectionMirrors | src/lib/lights.ts:26 | about a unit normal, the reflection keeps the angle with the normal and the length, and `r + l` lies along the normal |
| Lights.CalculateSpecularLightIntensity | src/lib/lights.ts:18-33 | 0 for the exponent -1 and 0 when reflection . view <= 0; otherwise, with a positive `pow`, it has the sign of the light's intensity |
| Lights.CalculateLightIntensity | src/lib/lights.ts:43-54 | with exponent -1 it is the diffuse term alone; with a positive `pow` it is non-negative for a non-negative intensity and positive when a positive light hits the front of the surface |
| Lights.CalculateIntensity | src/lib/lights.ts:56-98 | with a positive `pow`, a light of non-negative intensity contributes a non-negative intensity |
| Lights.AmbientIgnoresInputs | src/lib/lights.ts:64-66 | an ambient light gives its own intensity whatever the point, normal, view vector and exponent |
| Lights.DirectionalIgnoresPoint | src/lib/lights.ts:95-97 | a directional light gives the same intensity at every point |
| Lights.PointLightUsesOffset | src/lib/lights.ts:79-82 | a point light depends on the point only through `position - point` |
| Lights.ComputeLighting | src/lib/lights.ts:4-16 | the loop's total is `TotalLighting`, the sum of every light's intensity in list order; the default exponent is -1 |
| Lights.TotalLightingAppend | src/lib/lights.ts:11-15 | no lights give 0, and the total over two lists one after the other is the sum of their totals |
| Lights.AmbientLightingIsTotalIntensity | src/lib/lights.ts:11-15 | under ambient lights only, the total is the sum of the intensities |
| Lights.LightingNonNegative | src/lib/lights.ts:4-16 | with non-negative intensities and a positive `pow` the total is never negative |
| Scenes.NormalizedSumsToOne | src/lib/scene.ts:30-37 | after renormalising with a non-zero total, the intensities sum to 1 |
| Scenes.TotalIntensityDividedBy | src/lib/scene.ts:30-37 | dividing every intensity by `t` divides their sum by `t` |
| Scenes.NormalizedKeepsLights | src/lib/scene.ts:35-37 | renormalising keeps the number, order, kind and place of the lights and the ratios between their intensities |
| Scenes.NormalizedIdempotent | src/lib/scene.ts:30-37 | renormalising lights whose total is non-zero a second time changes nothing |
| Scenes.Scene.constructor | src/lib/scene.ts:9-13 | no spheres; one ambient light of intensity 1 when `useStaticLight` is set, otherwise none |
| Scenes.Scene.ClearLights | src/lib/scene.ts:15-17 | the lights are emptied and the spheres are kept |
| Scenes.Scene.ClearSpheres | src/lib/scene.ts:19-21 | the spheres are emptied and the lights are kept |
| Scenes.Scene.AddSphere | src/lib/scene.ts:23-25 | the sphere is appended and the lights are kept |
| Scenes.Scene.AddLight | src/lib/scene.ts:27-38 | the new lights are the old ones with `light` appended, all renormalised, each light a value of its own; the spheres are kept |
| Scenes.AddLightNormalizes | src/lib/scene.ts:27-37 | after `addLight` with a non-zero total: the intensities sum to 1, there is one light more, the new one is last, and the earlier ones keep their order, kind and place |
| Scenes.NormalizedAmbientLightsGiveOne | src/lib/scene.ts:27-37 | renormalised ambient lights light every point with intensity exactly 1 |
| Intersections.IntersectRaySphere | old-app/src/lib/utilities.ts:43-58 | a negative discriminant gives two infinities; the roots are finite exactly when the discriminant is non-negative and the direction is non-zero; that they are all the times the ray meets the sphere is `EveryHitIsARoot` |
| Intersections.RootsSolveQuadratic | old-app/src/lib/utilities.ts:44-57 | both finite roots solve `a t^2 + b t + c == 0` |
| Intersections.HitPointOnSphere | old-app/src/lib/utilities.ts:44-48 | the ray's point at time `t` is on the sphere exactly when `t` solves that quadratic |
| Intersections.EveryHitIsARoot | old-app/src/lib/utilities.ts:43-58 | for a ray with a non-zero direction, every time at which it meets the sphere is one of the two roots returned, and the discriminant is then non-negative; with `RootsSolveQuadratic` and `HitPointOnSphere`, the two roots are exactly the times the ray meets the sphere |
| Intersections.NegativeDiscriminantMeansMiss | old-app/src/lib/utilities.ts:51-53 | a ray whose discriminant is negative meets the sphere at no time at all |
| Intersections.CheckSolution | old-app/src/lib/utilities.ts:30-35 | a root is taken exactly when it is earlier than the best so far and strictly inside the window, and the search state then covers one candidate more: the best is still the first smallest root in the window |
| Intersections.CalculateClosestIntersection | old-app/src/lib/utilities.ts:18-41 | the result is the sphere owning the first smallest root strictly inside `(minTime, maxTime)`, taking spheres in order and the `+ sqrt` root first, or no sphere and infinity |
| Intersections.ClosestIntersectionUnique | old-app/src/lib/utilities.ts:18-41 | that specification admits exactly one result |
| Intersections.NothingFoundMeansNoRootInWindow | old-app/src/lib/utilities.ts:25-40 | with no sphere found, the time is infinity and no root of any sphere lies in the window |
| Intersections.FoundSphereOwnsTime | old-app/src/lib/utilities.ts:30-38 | a found sphere is one of the scene's spheres, and the time is one of its roots, finite and strictly inside the window |
| Intersections.FoundTimeIsSmallest | old-app/src/lib/utilities.ts:28-39 | no root of any sphere inside the window is earlier than the time found |
| Intersections.EveryHitInWindowIsNoEarlier | old-app/src/lib/utilities.ts:18-58 | when a ray with a non-zero direction meets any scene sphere at a time strictly inside the window, the search finds a sphere, and its time is no later than that meeting |
| Intersections.MissedSphereNeverSelected | old-app/src/lib/utilities.ts:51-53 | a sphere whose discriminant is negative offers no root inside any window |
| Intersections.UnitSphereAhead | old-app/src/lib/utilities.ts:18-58 | the search along +z from the origin against the unit sphere at (0, 0, 3), with the window (1, infinity), answers that sphere at time 2 |
| Canvas.ClampToByte | src/lib/rayTracer/renderer.ts:64-67 | the stored byte is in [0, 255]; values at or below 0 or at or above 255 go to the bounds; other values are rounded to within 1/2 |
| Canvas.ClampToByteRounding | src/lib/rayTracer/renderer.ts:64-67 | a whole number is stored as itself, and a value half-way between two whole numbers goes to the even one |
| Canvas.StoreAtFrame | src/lib/rayTracer/renderer.ts:64-67 | one store changes at most the byte at its index, keeps the buffer's length, and keeps a byte buffer one |
| Canvas.StorePixelFrame | src/lib/rayTracer/renderer.ts:63-67 | the four stores of a pixel change nothing outside the four bytes from the offset on |
| Canvas.StorePixelAligned | src/lib/rasterizer/renderer.ts:53-57 | at a whole offset with room for four bytes, the pixel's bytes replace exactly those four bytes |
| Canvas.PutPixelFlooredWritesOnePixel | src/lib/rasterizer/renderer.ts:45-57 | with `pitch == 4 * width`, outside the canvas nothing changes; inside, exactly the four bytes of the floored pixel are replaced, and they lie inside the buffer |
| Canvas.PutPixelUnflooredWritesAtOffset | src/lib/rayTracer/renderer.ts:55-68 | outside the canvas nothing changes; inside, nothing outside the four bytes from `4 actualX + pitch actualY` changes, and at whole coordinates exactly those four bytes of the buffer are replaced |
| Canvas.UnflooredAgreesOnEvenCanvas | src/lib/renderer.ts:20-33 | on a canvas of even width and height, at whole coordinates, the unfloored and floored `putPixel` give the same buffer |
| Canvas.UnflooredMisalignsOnOddWidth | src/lib/renderer.ts:20-33 | on a 3 by 2 canvas the unfloored `putPixel` at (0, 0) writes bytes 6 to 9, across two pixels |
| Canvas.UnflooredShiftsOnOddHeight | src/lib/renderer.ts:20-33 | on a 2 by 3 canvas the unfloored `putPixel` at (0, 0) starts at byte 8, a whole pixel half a row past byte 4, where the floored form writes |
| Canvas.CanvasToViewport | src/lib/rayTracer/renderer.ts:74-80 | z is the projection plane's; with a non-negative viewport size every point of the canvas, `x` in `[-width/2, width/2]` and `y` in `[-height/2, height/2]`, lands in the viewport `[-viewportSize/2, viewportSize/2]` both ways; with a positive viewport size, `x` and `y` keep their sign |
| Canvas.CanvasCornersToViewportCorners | src/lib/rasterizer/renderer.ts:64-70 | the canvas's corner `(width/2, height/2)` goes to the viewport's corner |
| RayTracer.SearchResultAsHit | src/lib/rayTracer/renderer.ts:84-94 | the closest-intersection search's result is a miss exactly when it found no sphere, and otherwise a scene sphere at a time inside the window |
| RayTracer.UnitNormal | src/lib/rayTracer/renderer.ts:95-97 | `multiply(1 / length(normal), normal)`; its meaning is stated by `UnitNormalHasLengthOne` |
| RayTracer.UnitNormalHasLengthOne | src/lib/rayTracer/renderer.ts:95-97 | a non-zero normal is scaled by a positive factor to length 1 |
| RayTracer.LocalColor | src/lib/rayTracer/renderer.ts:99-104 | red, green and blue are in [0, 255], the alpha is the sphere's, and a product already in range is kept |
| RayTracer.ConvexCombinationInRange | src/lib/rayTracer/renderer.ts:118-123 | a mix `a (1 - k) + b k` with `k` in [0, 1] stays between bounds both ends respect |
| RayTracer.Blend | src/lib/rayTracer/renderer.ts:118-123 | the local and reflected colours mixed by the reflectivity, a missing or zero alpha counting as 255; its range is stated by `BlendInRange` |
| RayTracer.BlendInRange | src/lib/rayTracer/renderer.ts:118-123 | with reflectivity in [0, 1] the blend of two in-range colours is in range; reflectivity 1 gives the reflected channels |
| RayTracer.TraceRay | src/lib/rayTracer/renderer.ts:82-124 | with the colour it also returns the number of `traceRay` calls made: at depth `d` at least 1 and at most `1 + max(0, 3 - d)`, so at most four from the top; its colour is stated by `MissGivesBackground`, `StopGivesLocalColor` and `TraceRayInByteRange` |
| RayTracer.MissGivesBackground | src/lib/rayTracer/renderer.ts:92-94 | a ray that meets no sphere gets the background colour unchanged, with one call in all |
| RayTracer.StopGivesLocalColor | src/lib/rayTracer/renderer.ts:106-109 | at depth 3 or on a non-reflecting sphere the result is the local colour and no further ray is traced |
| RayTracer.TraceRayInByteRange | src/lib/rayTracer/renderer.ts:82-124 | when the search only ever returns spheres of the scene it searches (`ReturnsSceneSpheres`), the background is in range and every sphere's reflectivity is at most 1, every traced colour has its channels in [0, 255] |
| RayTracer.Renderer.constructor | src/lib/rayTracer/renderer.ts:39-53 | given the `4 * width * height` bytes of the canvas's image data, the renderer is `Valid`: the pitch is `4 * width`; absent or zero viewport size and projection plane become 1; the camera defaults to the origin, the background to white without alpha, and the scene to an empty one |
| RayTracer.Renderer.PutPixel | src/lib/rayTracer/renderer.ts:55-68 | the renderer stays `Valid`; the new buffer is the unfloored `putPixel` of the old one, with the alpha 255 only when it is absent; outside the canvas nothing changes, and no byte outside the four from the offset `4 actualX + pitch actualY` changes |
| Rasterizer.LinePoints | src/lib/rasterizer/renderer.ts:72-81 | the points `drawLine` plots; they are stated by `LinePointAt`, `LineEmptyWhenReversed`, `LineStartsAtStart`, `LineEndsAtEnd` and `LinePointsOnLine` |
| Rasterizer.LinePointAt | src/lib/rasterizer/renderer.ts:76-77 | the `k`-th plotted point is `(startX + k, a (startX + k) + b)` |
| Rasterizer.NextLinePoint | src/lib/rasterizer/renderer.ts:76-77 | while `x == startX + k` has not passed `endX`, the `k`-th point exists and is `(x, a x + b)` |
| Rasterizer.PlottedStep | src/lib/rasterizer/renderer.ts:76-79 | plotting one more point is one more `putPixel` |
| Rasterizer.LineEmptyWhenReversed | src/lib/rasterizer/renderer.ts:76 | a start to the right of the end plots nothing |
| Rasterizer.LineStartsAtStart | src/lib/rasterizer/renderer.ts:73-79 | for `startX < endX` there are `floor(endX - startX) + 1` points and the first is the start point |
| Rasterizer.LineEndsAtEnd | src/lib/rasterizer/renderer.ts:73-79 | when `endX - startX` is a whole number `n > 0`, the last of the `n + 1` points is the end point |
| Rasterizer.LinePointsOnLine | src/lib/rasterizer/renderer.ts:73-79 | every plotted point is one unit step after the one before and lies on the line through the two end points |
| Rasterizer.PlottedKeepsBuffer | src/lib/rasterizer/renderer.ts:76-79 | plotting keeps the buffer's length and keeps its values bytes |
| Rasterizer.Renderer.constructor | src/lib/rasterizer/renderer.ts:30-43 | given the `4 * width * height` bytes of the canvas's image data, the renderer is `Valid`: the pitch is `4 * width`; absent or zero viewport size and projection plane become 1; the camera defaults to the origin and the background to white without alpha |
| Rasterizer.Renderer.PutPixel | src/lib/rasterizer/renderer.ts:45-58 | the renderer stays `Valid`; the new buffer is the floored `putPixel` of the old one, with the alpha 255 only when it is absent; outside the canvas nothing changes, and inside exactly the four bytes of the floored pixel, which lie in the buffer, are replaced by its colour |
| Rasterizer.Renderer.DrawLine | src/lib/rasterizer/renderer.ts:72-81 | the renderer stays `Valid`; the new buffer is the old one with `putPixel` applied at every point of `LinePoints`, in order |
| BaseRenderer.Renderer.constructor | src/lib/renderer.ts:13-18 | given the `4 * width * height` bytes of the canvas's image data, the renderer is `Valid`: the pitch is `4 * width` |
| BaseRenderer.Renderer.PutPixel | src/lib/renderer.ts:20-33 | the renderer stays `Valid`; the new buffer is the unfloored `putPixel` of the old one, with the alpha 255 when it is absent or 0; outside the canvas nothing changes, and no byte outside the four from the offset changes |
| Models.CubeWellFormed | src/lib/rasterizer/models.ts:12-35 | the cube has 8 vertices and 12 triangles, each over three different vertex indices in [0, 8) |
| Models.CubeOnBoundingSphere | src/lib/rasterizer/models.ts:12-37 | the radius is positive and every vertex is at squared distance `radius^2 == 3` from the centre |
| Models.CubeFacesPaired | src/lib/rasterizer/models.ts:22-35 | the triangles `2i` and `2i+1` share their colour and two vertices, and the six pairs have different colours |
| Models.CubeColorsCountTwo | src/lib/rasterizer/models.ts:22-35 | two triangles share a colour exactly when they are in the same adjacent pair, so each colour labels exactly two triangles |
| Models.CubeTrianglesOnFaces | src/lib/rasterizer/models.ts:12-35 | the three vertices of every triangle share the value of one coordinate, so each triangle lies in a face |
| Models.ModelMapHoldsCube | src/lib/rasterizer/models.ts:40-42 | the model map holds exactly the cube, under the name `cube` |

## Left out

- The browser canvas is not modelled. This covers `getContext`, the "Could not get canvas context" throw, `getImageData`, `updateCanvas` and `putImageData`. A renderer receives its `width`, `height` and pixel array as parameters; the constructors require the array to hold the `4 * width * height` bytes that `getImageData(0, 0, width, height)` returns.
- The routes, which do file-system and network access, are not part of this model. Nor are the demo scenes, the clipping, the projection or the triangle filling.
- The `console.log` calls of `drawLine` are output only and are not modelled.
- `Math.sqrt`, `Math.pow`, `Math.cos` and `Math.sin` are not modelled as IEEE floating point:
  - `sqrt` and `pow` are parameters, assumed only to give a non-negative root whose square is its argument and a positive power;
  - `length` is `sqrt(v . v)`, which is what `Math.sqrt` of the sum of `Math.pow(x, 2)` terms is over the reals;
  - the rotation builders take the cosine `c` and the sine `s` instead of an angle.
- NaN, `-Infinity` and `Infinity` are not modelled as numbers:
  - in the intersection search, every non-finite root is `PosInfinity`, since none of them passes the window test;
  - Algebra.GetIntersectionPoint: a zero denominator gives `None` instead of NaN or infinite coordinates.
- Scenes.Scene.AddLight: when the total intensity is 0, JavaScript divides by zero. The model leaves the intensities as they are in that case.
- Scenes.Scene.AddLight: lights are values, so a light object that is in the list twice is not modelled. The source divides such an object once per occurrence: after `addLight(a)` twice with `a = new Ambient(1)`, the list is `[a, a]` and `a.intensity` is 1/4, so the intensities sum to 1/2. The model gives two lights of 1/2, summing to 1.
- Scenes.AddLightNormalizes: its sum of 1 is what the source gives only when every light object is in the list once.
- Scenes.Scene: aliasing between a light object held by the scene and one held by a caller is not modelled either; a caller's later change to such a light is not seen by the scene.
- RayTracer.Renderer: the renderer keeps the `StaticScene` value it was given, not the caller's `Scene` object. A sphere or light the caller adds to that object afterwards is traced by the source renderer but not by the model.
- RayTracer.TraceRay: the helpers from `./utilities` and `./lights` are not part of this model. They are the closures of a `Tracer`:
  - `closest` is the intersection search and `lighting` the lighting;
  - `reflect` is the reflection, `sqrt` the square root and `minTimeAboveZero` the lower time bound of reflected rays.
  - Intersections.CalculateClosestIntersection and RayTracer.SearchResultAsHit state the contract the search gives a `Tracer`.
- RayTracer.UnitNormal: a zero-length normal, which the source divides by zero, is left unscaled.
- RayTracer.ActualRecursion: `recursionDepth` is an optional natural number. Negative and fractional depths are not modelled.
- Canvas.CanvasToViewport requires a positive width and height. With a zero size JavaScript divides by zero.
- Colors: `Yellow`, `Purple` and `Cyan`, which the cube model uses, are not declared in `src/lib/colors.ts`. They have their conventional RGB values here.
- Shapes.Sphere: the sphere class declares only the centre, the radius and the colour. The specular exponent and the reflectivity that the ray tracer reads are fields here.
- The light classes `Ambient`, `Point` and `Directional` are the constructors of `Lights.SceneLight`. Their `type` tags are the constructor names. The `scene` argument their `calculateIntensity` declares is left out.
- Rasterizer.Renderer.DrawLine: when the start and end have equal `x`, the slope is infinite (or NaN when the `y`s are equal too), so `y = a x + b` is NaN. The loop's one `putPixel` then makes four stores at a NaN offset, and the typed array drops all of them. The model returns without a store.
- RayTracer.Renderer.constructor: the source's `new Scene()` passes no flag; `undefined` is falsy, so the model builds `new Scene(false)`.

## Findings

| source | as written | input that shows it | evidently intended | confidence | as-written member | corrected member |
|---|---|---|---|---|---|---|
| src/lib/renderer.ts:20-33 | the shifted coordinates `width/2 + x` and `height/2 - y - 1` are used without rounding, so at whole coordinates on a canvas of odd width and even height the byte offset is 2 more than a multiple of 4 and a pixel's four bytes straddle two pixels; on a canvas of odd height a whole pixel is written, but half a row (and, for an odd width, half a pixel) past the pixel the floored form writes (the same code is at src/lib/rayTracer/renderer.ts:55-68) | width 3, height 2, `putPixel(0, 0, Red)`: offset 6, red goes to byte 6 (blue of pixel 1), and the stores run to byte 9; width 2, height 3, `putPixel(0, 0)`: offset 8 instead of the floored 4 (Canvas.UnflooredShiftsOnOddHeight) | floor the shifted coordinates first, as `src/lib/rasterizer/renderer.ts:45-57` does, so that exactly the four bytes of one pixel are written | not executed | Canvas.UnflooredMisalignsOnOddWidth | Canvas.PutPixelFlooredWritesOnePixel |

On a canvas of even width and height, at whole coordinates, the two forms agree (Canvas.UnflooredAgreesOnEvenCanvas).
