/** Ray/sphere intersection and the search for the closest sphere a ray hits
    inside an open time window. A ray is `origin + t * direction`. */
module Intersections {
  import opened Wrappers
  import opened Numeric
  import opened Algebra
  import opened Shapes
  import Colors
  import Lights

  /** The coefficients of `a t^2 + b t + c == 0`, whose roots are the times
      at which the ray meets the sphere's surface. */
  function QuadraticA(direction: Vector3): real {
    DotProduct(direction, direction)
  }

  function QuadraticB(origin: Vector3, direction: Vector3, sphere: Sphere): real {
    2.0 * DotProduct(Subtract(origin, sphere.center), direction)
  }

  function QuadraticC(origin: Vector3, sphere: Sphere): real {
    var originToSphere := Subtract(origin, sphere.center);
    DotProduct(originToSphere, originToSphere) - sphere.radius * sphere.radius
  }

  function Discriminant(origin: Vector3, direction: Vector3, sphere: Sphere): real {
    var b := QuadraticB(origin, direction, sphere);
    b * b - 4.0 * QuadraticA(direction) * QuadraticC(origin, sphere)
  }

  /** The two roots, `+ sqrt` first. A negative discriminant gives two
      infinities. A zero direction divides by zero, which JavaScript answers
      with NaN; NaN is never selected either, so it is `PosInfinity` too. */
  function IntersectRaySphere(origin: Vector3, direction: Vector3, sphere: Sphere,
                              sqrt: real -> real): (roots: (ExtReal, ExtReal))
    ensures Discriminant(origin, direction, sphere) < 0.0 ==> roots == (PosInfinity, PosInfinity)
    ensures roots.0.Finite? <==> 0.0 <= Discriminant(origin, direction, sphere) && direction != Zero
    ensures roots.1.Finite? <==> roots.0.Finite?
  {
    var a := QuadraticA(direction);
    var b := QuadraticB(origin, direction, sphere);
    var discriminant := Discriminant(origin, direction, sphere);
    DotSelfPositive(direction);
    if discriminant < 0.0 || a == 0.0 then
      (PosInfinity, PosInfinity)
    else
      (Finite((-b + sqrt(discriminant)) / (2.0 * a)), Finite((-b - sqrt(discriminant)) / (2.0 * a)))
  }

  /** A root of `a t^2 + b t + c`, from `2 a t == -b + s` and `s^2 == b^2 - 4ac`. */
  lemma QuadraticRoot(a: real, b: real, c: real, s: real, t: real)
    requires a != 0.0
    requires s * s == b * b - 4.0 * a * c
    requires t * (2.0 * a) == -b + s
    ensures a * t * t + b * t + c == 0.0
  {
    var u := 2.0 * a * t;
    var q := a * t * t + b * t + c;
    assert 4.0 * a * q == u * u + 2.0 * b * u + 4.0 * a * c;
    assert u == s - b;
    assert u * u + 2.0 * b * u == s * s - b * b;
    assert 4.0 * a * q == 0.0;
  }

  /** Both finite roots solve the ray's quadratic. */
  lemma RootsSolveQuadratic(origin: Vector3, direction: Vector3, sphere: Sphere, sqrt: real -> real)
    requires IsSqrt(sqrt)
    ensures var roots := IntersectRaySphere(origin, direction, sphere, sqrt);
            var a, b, c := QuadraticA(direction), QuadraticB(origin, direction, sphere), QuadraticC(origin, sphere);
            && (roots.0.Finite? ==> a * roots.0.value * roots.0.value + b * roots.0.value + c == 0.0)
            && (roots.1.Finite? ==> a * roots.1.value * roots.1.value + b * roots.1.value + c == 0.0)
  {
    var roots := IntersectRaySphere(origin, direction, sphere, sqrt);
    var a, b, c := QuadraticA(direction), QuadraticB(origin, direction, sphere), QuadraticC(origin, sphere);
    if roots.0.Finite? {
      var disc := Discriminant(origin, direction, sphere);
      var s := sqrt(disc);
      assert s * s == b * b - 4.0 * a * c;
      QuadraticRoot(a, b, c, s, roots.0.value);
      assert (-s) * (-s) == s * s;
      QuadraticRoot(a, b, c, -s, roots.1.value);
    }
  }

  /** The point the ray reaches at time `t` is on the sphere exactly when
      `t` solves the quadratic. */
  lemma HitPointOnSphere(origin: Vector3, direction: Vector3, sphere: Sphere, t: real)
    ensures var p := Subtract(Add(origin, Multiply(t, direction)), sphere.center);
            DotProduct(p, p) == sphere.radius * sphere.radius
            <==> QuadraticA(direction) * t * t + QuadraticB(origin, direction, sphere) * t
                 + QuadraticC(origin, sphere) == 0.0
  {
    var o := Subtract(origin, sphere.center);
    var p := Subtract(Add(origin, Multiply(t, direction)), sphere.center);
    assert p == Add(o, Multiply(t, direction));
    ExpandDotSelf(o, direction, t);
    var oo, od, dd := DotProduct(o, o), DotProduct(o, direction), DotProduct(direction, direction);
    assert t * t * dd == dd * t * t;
    assert QuadraticA(direction) * t * t + QuadraticB(origin, direction, sphere) * t
           + QuadraticC(origin, sphere)
        == DotProduct(p, p) - sphere.radius * sphere.radius;
  }

  /** The ray's point at time `t` is on the sphere's surface. */
  predicate OnSphere(origin: Vector3, direction: Vector3, sphere: Sphere, t: real) {
    var p := Subtract(Add(origin, Multiply(t, direction)), sphere.center);
    DotProduct(p, p) == sphere.radius * sphere.radius
  }

  /** For a solution `t` of `a t^2 + b t + c == 0`, `(2 a t + b)^2` is the
      discriminant, whatever `a` is. */
  lemma SolutionSquaresToDiscriminant(a: real, b: real, c: real, t: real)
    requires a * t * t + b * t + c == 0.0
    ensures Square(2.0 * a * t + b) == b * b - 4.0 * a * c
  {
    var u := 2.0 * a * t + b;
    assert Square(u) == 4.0 * a * (a * t * t + b * t) + b * b;
  }

  /** Two reals with the same square are equal or opposite. */
  lemma SameSquare(u: real, s: real)
    requires Square(u) == s * s
    ensures u == s || u == -s
  {
    assert (u - s) * (u + s) == Square(u) - s * s;
    if u != s && u != -s {
      ProductNonZero(u - s, u + s);
    }
  }

  lemma ProductNonZero(x: real, y: real)
    requires x != 0.0 && y != 0.0
    ensures x * y != 0.0
  {
  }

  /** Every solution of the quadratic is one of the two roots
      `(-b + s) / 2a` and `(-b - s) / 2a`, `s` the square root of the
      discriminant. */
  lemma SolutionIsRoot(a: real, b: real, c: real, s: real, t: real)
    requires a != 0.0 && s * s == b * b - 4.0 * a * c
    requires a * t * t + b * t + c == 0.0
    ensures t == (-b + s) / (2.0 * a) || t == (-b - s) / (2.0 * a)
  {
    SolutionSquaresToDiscriminant(a, b, c, t);
    var u := 2.0 * a * t + b;
    SameSquare(u, s);
    assert t * (2.0 * a) == u - b;
  }

  /** Every time at which a ray with a direction meets the sphere is one of
      the two roots `intersectRaySphere` returns, and the discriminant is
      then not negative. */
  lemma EveryHitIsARoot(origin: Vector3, direction: Vector3, sphere: Sphere, sqrt: real -> real, t: real)
    requires IsSqrt(sqrt) && direction != Zero
    requires OnSphere(origin, direction, sphere, t)
    ensures 0.0 <= Discriminant(origin, direction, sphere)
    ensures var roots := IntersectRaySphere(origin, direction, sphere, sqrt);
            roots.0 == Finite(t) || roots.1 == Finite(t)
  {
    var a, b, c := QuadraticA(direction), QuadraticB(origin, direction, sphere), QuadraticC(origin, sphere);
    HitSolvesQuadratic(origin, direction, sphere, t);
    DiscriminantOfSolvable(a, b, c, t);
    var disc := Discriminant(origin, direction, sphere);
    SqrtSquares(sqrt, disc);
    DotSelfPositive(direction);
    SolutionIsRoot(a, b, c, sqrt(disc), t);
  }

  /** A time at which the ray meets the sphere solves the quadratic. */
  lemma HitSolvesQuadratic(origin: Vector3, direction: Vector3, sphere: Sphere, t: real)
    requires OnSphere(origin, direction, sphere, t)
    ensures QuadraticA(direction) * t * t + QuadraticB(origin, direction, sphere) * t
            + QuadraticC(origin, sphere) == 0.0
  {
    HitPointOnSphere(origin, direction, sphere, t);
  }

  /** A quadratic with a real solution has a non-negative discriminant. */
  lemma DiscriminantOfSolvable(a: real, b: real, c: real, t: real)
    requires a * t * t + b * t + c == 0.0
    ensures 0.0 <= b * b - 4.0 * a * c
  {
    SolutionSquaresToDiscriminant(a, b, c, t);
    SquareNonNegative(2.0 * a * t + b);
  }

  /** The square of the square root of a non-negative number is that number. */
  lemma SqrtSquares(sqrt: real -> real, x: real)
    requires IsSqrt(sqrt) && 0.0 <= x
    ensures sqrt(x) * sqrt(x) == x
  {
  }

  /** A ray whose discriminant is negative never meets the sphere. */
  lemma NegativeDiscriminantMeansMiss(origin: Vector3, direction: Vector3, sphere: Sphere, t: real)
    requires Discriminant(origin, direction, sphere) < 0.0
    ensures !OnSphere(origin, direction, sphere, t)
  {
    var a, b, c := QuadraticA(direction), QuadraticB(origin, direction, sphere), QuadraticC(origin, sphere);
    assert b * b - 4.0 * a * c < 0.0;
    NoSolutionBelowZero(a, b, c, t);
    HitPointOnSphere(origin, direction, sphere, t);
  }

  /** A quadratic with a negative discriminant has no real solution. */
  lemma NoSolutionBelowZero(a: real, b: real, c: real, t: real)
    requires b * b - 4.0 * a * c < 0.0
    ensures a * t * t + b * t + c != 0.0
  {
    if a * t * t + b * t + c == 0.0 {
      DiscriminantOfSolvable(a, b, c, t);
    }
  }

  /** `(o + t d) . (o + t d) == o . o + 2 t (o . d) + t^2 (d . d)`. */
  lemma ExpandDotSelf(o: Vector3, d: Vector3, t: real)
    ensures var p := Add(o, Multiply(t, d));
            DotProduct(p, p) == DotProduct(o, o) + 2.0 * t * DotProduct(o, d) + t * t * DotProduct(d, d)
  {
    ExpandSquare(o.x, d.x, t);
    ExpandSquare(o.y, d.y, t);
    ExpandSquare(o.z, d.z, t);
  }

  lemma ExpandSquare(a: real, b: real, t: real)
    ensures (a + t * b) * (a + t * b) == a * a + 2.0 * t * (a * b) + t * t * (b * b)
  {
  }

  /** The `i`-th root the search looks at: roots of sphere `i / 2`, the
      `+ sqrt` root at even `i`. */
  function Candidate(origin: Vector3, direction: Vector3, spheres: seq<Sphere>,
                     sqrt: real -> real, i: nat): ExtReal
    requires i < 2 * |spheres|
  {
    var roots := IntersectRaySphere(origin, direction, spheres[i / 2], sqrt);
    if i % 2 == 0 then roots.0 else roots.1
  }

  /** `minTime < s && s < maxTime`. */
  predicate InWindow(s: ExtReal, minTime: real, maxTime: ExtReal) {
    Less(Finite(minTime), s) && Less(s, maxTime)
  }

  datatype ClosestIntersection = ClosestIntersection(closestSphere: Option<Sphere>, closestT: ExtReal)

  /** Among the first `n` candidates, candidate `k` is the first of the
      smallest ones inside the window (or `k == -1` and there is none), and
      `t` is its time (or infinity). */
  ghost predicate FirstSmallest(origin: Vector3, direction: Vector3, spheres: seq<Sphere>, sqrt: real -> real,
                                minTime: real, maxTime: ExtReal, n: nat, k: int, t: ExtReal)
    requires n <= 2 * |spheres|
  {
    && -1 <= k < n
    && (k == -1 ==>
          t == PosInfinity
          && forall i | 0 <= i < n :: !InWindow(Candidate(origin, direction, spheres, sqrt, i), minTime, maxTime))
    && (0 <= k ==>
          && InWindow(Candidate(origin, direction, spheres, sqrt, k), minTime, maxTime)
          && t == Candidate(origin, direction, spheres, sqrt, k)
          && (forall i | 0 <= i < n && InWindow(Candidate(origin, direction, spheres, sqrt, i), minTime, maxTime) ::
                !Less(Candidate(origin, direction, spheres, sqrt, i), t))
          && (forall i | 0 <= i < k && InWindow(Candidate(origin, direction, spheres, sqrt, i), minTime, maxTime) ::
                Less(t, Candidate(origin, direction, spheres, sqrt, i))))
  }

  /** Candidate `k` is the first smallest root in the window and `result`
      holds its sphere and time, or `k == -1`, there is none and `result`
      holds no sphere and infinity. */
  ghost predicate ClosestAt(origin: Vector3, direction: Vector3, spheres: seq<Sphere>,
                            sqrt: real -> real, minTime: real, maxTime: ExtReal,
                            k: int, result: ClosestIntersection)
  {
    && FirstSmallest(origin, direction, spheres, sqrt, minTime, maxTime, 2 * |spheres|, k, result.closestT)
    && (k == -1 <==> result.closestSphere.None?)
    && (0 <= k ==> result.closestSphere == Some(spheres[k / 2]))
  }

  /** The result of the search: the sphere owning the first smallest root in
      the window and that root, or no sphere and infinity. */
  ghost predicate IsClosestIntersection(origin: Vector3, direction: Vector3, spheres: seq<Sphere>,
                                        sqrt: real -> real, minTime: real, maxTime: ExtReal,
                                        result: ClosestIntersection)
  {
    exists k: int :: ClosestAt(origin, direction, spheres, sqrt, minTime, maxTime, k, result)
  }

  /** `checkSolution(s)`: take `s` when it beats the best time so far and
      lies in the window. */
  predicate Takes(s: ExtReal, closestT: ExtReal, minTime: real, maxTime: ExtReal) {
    Less(s, closestT) && InWindow(s, minTime, maxTime)
  }

  lemma Step(origin: Vector3, direction: Vector3, spheres: seq<Sphere>, sqrt: real -> real,
             minTime: real, maxTime: ExtReal, n: nat, k: int, t: ExtReal)
    requires n < 2 * |spheres|
    requires FirstSmallest(origin, direction, spheres, sqrt, minTime, maxTime, n, k, t)
    ensures var s := Candidate(origin, direction, spheres, sqrt, n);
            if Takes(s, t, minTime, maxTime)
            then FirstSmallest(origin, direction, spheres, sqrt, minTime, maxTime, n + 1, n, s)
            else FirstSmallest(origin, direction, spheres, sqrt, minTime, maxTime, n + 1, k, t)
  {
    var s := Candidate(origin, direction, spheres, sqrt, n);
    if Takes(s, t, minTime, maxTime) {
      StepTakes(origin, direction, spheres, sqrt, minTime, maxTime, n, k, t);
    } else {
      StepKeeps(origin, direction, spheres, sqrt, minTime, maxTime, n, k, t);
    }
  }

  /** A candidate that beats the best so far becomes the new best. */
  lemma StepTakes(origin: Vector3, direction: Vector3, spheres: seq<Sphere>, sqrt: real -> real,
                  minTime: real, maxTime: ExtReal, n: nat, k: int, t: ExtReal)
    requires n < 2 * |spheres|
    requires FirstSmallest(origin, direction, spheres, sqrt, minTime, maxTime, n, k, t)
    requires Takes(Candidate(origin, direction, spheres, sqrt, n), t, minTime, maxTime)
    ensures FirstSmallest(origin, direction, spheres, sqrt, minTime, maxTime, n + 1, n,
                          Candidate(origin, direction, spheres, sqrt, n))
  {
    var s := Candidate(origin, direction, spheres, sqrt, n);
    forall i | 0 <= i < n && InWindow(Candidate(origin, direction, spheres, sqrt, i), minTime, maxTime)
      ensures Less(s, Candidate(origin, direction, spheres, sqrt, i))
    {
      LessTransitive(s, t, Candidate(origin, direction, spheres, sqrt, i));
    }
  }

  /** A candidate that does not beat the best so far leaves it in place. */
  lemma StepKeeps(origin: Vector3, direction: Vector3, spheres: seq<Sphere>, sqrt: real -> real,
                  minTime: real, maxTime: ExtReal, n: nat, k: int, t: ExtReal)
    requires n < 2 * |spheres|
    requires FirstSmallest(origin, direction, spheres, sqrt, minTime, maxTime, n, k, t)
    requires !Takes(Candidate(origin, direction, spheres, sqrt, n), t, minTime, maxTime)
    ensures FirstSmallest(origin, direction, spheres, sqrt, minTime, maxTime, n + 1, k, t)
  {
    var s := Candidate(origin, direction, spheres, sqrt, n);
    if k == -1 {
      if InWindow(s, minTime, maxTime) {
        assert false;
      }
    } else {
      LessTotal(s, t);
    }
  }

  lemma LessTransitive(a: ExtReal, b: ExtReal, c: ExtReal)
    requires Less(a, b) && !Less(c, b)
    ensures Less(a, c)
  {
  }

  lemma LessTotal(a: ExtReal, b: ExtReal)
    ensures !Less(a, b) ==> a == b || Less(b, a)
  {
  }

  /** The search state after the first `n` candidates: `closestT` and
      `closestSphere` belong to the first smallest candidate `k` in the
      window, or there is none yet. */
  ghost predicate SearchState(origin: Vector3, direction: Vector3, spheres: seq<Sphere>, sqrt: real -> real,
                              minTime: real, maxTime: ExtReal, n: nat, k: int,
                              closestT: ExtReal, closestSphere: Option<Sphere>)
    requires n <= 2 * |spheres|
  {
    && FirstSmallest(origin, direction, spheres, sqrt, minTime, maxTime, n, k, closestT)
    && (k == -1 <==> closestSphere.None?)
    && (0 <= k ==> closestSphere == Some(spheres[k / 2]))
  }

  /** `checkSolution(s)` on candidate `n`, the root `s` of `sphere`: the
      state after `n` candidates becomes the state after `n + 1`. */
  method CheckSolution(origin: Vector3, direction: Vector3, spheres: seq<Sphere>, sqrt: real -> real,
                       minTime: real, maxTime: ExtReal, n: nat, s: ExtReal, sphere: Sphere,
                       closestT: ExtReal, closestSphere: Option<Sphere>, ghost k: int)
    returns (newT: ExtReal, newSphere: Option<Sphere>, ghost newK: int)
    requires n < 2 * |spheres| && s == Candidate(origin, direction, spheres, sqrt, n) && sphere == spheres[n / 2]
    requires SearchState(origin, direction, spheres, sqrt, minTime, maxTime, n, k, closestT, closestSphere)
    ensures SearchState(origin, direction, spheres, sqrt, minTime, maxTime, n + 1, newK, newT, newSphere)
    ensures Takes(s, closestT, minTime, maxTime) ==> newT == s && newSphere == Some(sphere)
    ensures !Takes(s, closestT, minTime, maxTime) ==> newT == closestT && newSphere == closestSphere
  {
    Step(origin, direction, spheres, sqrt, minTime, maxTime, n, k, closestT);
    if Takes(s, closestT, minTime, maxTime) {
      newT, newSphere, newK := s, Some(sphere), n;
    } else {
      newT, newSphere, newK := closestT, closestSphere, k;
    }
  }

  /** `calculateClosestIntersection`: for each sphere in turn, offer its two
      roots to `checkSolution`. */
  method CalculateClosestIntersection(origin: Vector3, direction: Vector3, minTime: real, maxTime: ExtReal,
                                      spheres: seq<Sphere>, sqrt: real -> real)
    returns (result: ClosestIntersection)
    ensures IsClosestIntersection(origin, direction, spheres, sqrt, minTime, maxTime, result)
  {
    var closestT := PosInfinity;
    var closestSphere: Option<Sphere> := None;
    ghost var k := -1;
    for i := 0 to |spheres|
      invariant SearchState(origin, direction, spheres, sqrt, minTime, maxTime, 2 * i, k, closestT, closestSphere)
    {
      var solutions := IntersectRaySphere(origin, direction, spheres[i], sqrt);
      CandidatesOfSphere(origin, direction, spheres, sqrt, i);
      closestT, closestSphere, k := CheckSolution(origin, direction, spheres, sqrt, minTime, maxTime, 2 * i,
                                                  solutions.0, spheres[i], closestT, closestSphere, k);
      closestT, closestSphere, k := CheckSolution(origin, direction, spheres, sqrt, minTime, maxTime, 2 * i + 1,
                                                  solutions.1, spheres[i], closestT, closestSphere, k);
    }
    result := ClosestIntersection(closestSphere, closestT);
    SearchStateIsClosest(origin, direction, spheres, sqrt, minTime, maxTime, k, result);
  }

  /** The search state after every candidate is the search's result. */
  lemma SearchStateIsClosest(origin: Vector3, direction: Vector3, spheres: seq<Sphere>, sqrt: real -> real,
                             minTime: real, maxTime: ExtReal, k: int, result: ClosestIntersection)
    requires SearchState(origin, direction, spheres, sqrt, minTime, maxTime, 2 * |spheres|, k,
                         result.closestT, result.closestSphere)
    ensures IsClosestIntersection(origin, direction, spheres, sqrt, minTime, maxTime, result)
  {
    assert ClosestAt(origin, direction, spheres, sqrt, minTime, maxTime, k, result);
  }

  /** The search's result is determined by its specification. */
  lemma ClosestIntersectionUnique(origin: Vector3, direction: Vector3, spheres: seq<Sphere>, sqrt: real -> real,
                                  minTime: real, maxTime: ExtReal, r1: ClosestIntersection, r2: ClosestIntersection)
    requires IsClosestIntersection(origin, direction, spheres, sqrt, minTime, maxTime, r1)
    requires IsClosestIntersection(origin, direction, spheres, sqrt, minTime, maxTime, r2)
    ensures r1 == r2
  {
    var n := 2 * |spheres|;
    var k1 :| ClosestAt(origin, direction, spheres, sqrt, minTime, maxTime, k1, r1);
    var k2 :| ClosestAt(origin, direction, spheres, sqrt, minTime, maxTime, k2, r2);
    if k1 < k2 {
      LessTotal(r1.closestT, r2.closestT);
    } else if k2 < k1 {
      LessTotal(r2.closestT, r1.closestT);
    }
  }

  /** The two roots of sphere `i` are the candidates `2 i` and `2 i + 1`. */
  lemma CandidatesOfSphere(origin: Vector3, direction: Vector3, spheres: seq<Sphere>, sqrt: real -> real, i: nat)
    requires i < |spheres|
    ensures IntersectRaySphere(origin, direction, spheres[i], sqrt).0 == Candidate(origin, direction, spheres, sqrt, 2 * i)
    ensures IntersectRaySphere(origin, direction, spheres[i], sqrt).1 == Candidate(origin, direction, spheres, sqrt, 2 * i + 1)
  {
    var even, odd := 2 * i, 2 * i + 1;
    assert even / 2 == i && even % 2 == 0;
    assert odd / 2 == i && odd % 2 == 1;
  }

  /** With no sphere found, the time is infinity and no root of any sphere
      lies in the window. */
  lemma NothingFoundMeansNoRootInWindow(origin: Vector3, direction: Vector3, spheres: seq<Sphere>,
                                        sqrt: real -> real, minTime: real, maxTime: ExtReal,
                                        result: ClosestIntersection, i: nat)
    requires IsClosestIntersection(origin, direction, spheres, sqrt, minTime, maxTime, result)
    requires result.closestSphere.None? && i < |spheres|
    ensures result.closestT == PosInfinity
    ensures !InWindow(IntersectRaySphere(origin, direction, spheres[i], sqrt).0, minTime, maxTime)
    ensures !InWindow(IntersectRaySphere(origin, direction, spheres[i], sqrt).1, minTime, maxTime)
  {
    var k :| ClosestAt(origin, direction, spheres, sqrt, minTime, maxTime, k, result);
    CandidatesOfSphere(origin, direction, spheres, sqrt, i);
  }

  /** A found sphere is one of the scene's spheres, and the time is one of its
      roots, finite and strictly inside the window. */
  lemma FoundSphereOwnsTime(origin: Vector3, direction: Vector3, spheres: seq<Sphere>,
                            sqrt: real -> real, minTime: real, maxTime: ExtReal,
                            result: ClosestIntersection)
    requires IsClosestIntersection(origin, direction, spheres, sqrt, minTime, maxTime, result)
    requires result.closestSphere.Some?
    ensures result.closestT.Finite? && minTime < result.closestT.value && Less(result.closestT, maxTime)
    ensures exists i | 0 <= i < |spheres| ::
      (spheres[i] == result.closestSphere.value
       && (result.closestT == IntersectRaySphere(origin, direction, spheres[i], sqrt).0
           || result.closestT == IntersectRaySphere(origin, direction, spheres[i], sqrt).1))
  {
    var k :| ClosestAt(origin, direction, spheres, sqrt, minTime, maxTime, k, result);
    CandidatesOfSphere(origin, direction, spheres, sqrt, k / 2);
  }

  /** No root of any sphere inside the window is earlier than the time found. */
  lemma FoundTimeIsSmallest(origin: Vector3, direction: Vector3, spheres: seq<Sphere>,
                            sqrt: real -> real, minTime: real, maxTime: ExtReal,
                            result: ClosestIntersection, i: nat)
    requires IsClosestIntersection(origin, direction, spheres, sqrt, minTime, maxTime, result)
    requires i < |spheres|
    ensures var roots := IntersectRaySphere(origin, direction, spheres[i], sqrt);
      && (InWindow(roots.0, minTime, maxTime) ==> !Less(roots.0, result.closestT))
      && (InWindow(roots.1, minTime, maxTime) ==> !Less(roots.1, result.closestT))
  {
    var k :| ClosestAt(origin, direction, spheres, sqrt, minTime, maxTime, k, result);
    CandidatesOfSphere(origin, direction, spheres, sqrt, i);
  }

  /** Whenever the ray, with a direction, meets one of the spheres at a time
      strictly inside the window, the search finds a sphere, and that time
      is not earlier than the time found. */
  lemma EveryHitInWindowIsNoEarlier(origin: Vector3, direction: Vector3, spheres: seq<Sphere>,
                                    sqrt: real -> real, minTime: real, maxTime: ExtReal,
                                    result: ClosestIntersection, i: nat, t: real)
    requires IsClosestIntersection(origin, direction, spheres, sqrt, minTime, maxTime, result)
    requires IsSqrt(sqrt) && direction != Zero
    requires i < |spheres| && OnSphere(origin, direction, spheres[i], t)
    requires minTime < t && Less(Finite(t), maxTime)
    ensures result.closestSphere.Some?
    ensures !Less(Finite(t), result.closestT)
  {
    EveryHitIsARoot(origin, direction, spheres[i], sqrt, t);
    FoundTimeIsSmallest(origin, direction, spheres, sqrt, minTime, maxTime, result, i);
    if result.closestSphere.None? {
      NothingFoundMeansNoRootInWindow(origin, direction, spheres, sqrt, minTime, maxTime, result, i);
    }
  }

  /** A sphere the ray misses offers only infinities, which are never in the
      window. */
  lemma MissedSphereNeverSelected(origin: Vector3, direction: Vector3, sphere: Sphere, sqrt: real -> real,
                                  minTime: real, maxTime: ExtReal)
    requires Discriminant(origin, direction, sphere) < 0.0
    ensures var roots := IntersectRaySphere(origin, direction, sphere, sqrt);
            !InWindow(roots.0, minTime, maxTime) && !InWindow(roots.1, minTime, maxTime)
  {
  }

  /** A ray from the origin along +z meets the unit sphere around (0, 0, 3)
      at times 4 and 2; with the window (1, infinity) the search answers 2. */
  lemma UnitSphereAhead(sqrt: real -> real)
    requires IsSqrt(sqrt)
    ensures var sphere := Sphere(Vector3(0.0, 0.0, 3.0), 1.0, Colors.Red, Lights.NoSpecular, 0.0);
            IsClosestIntersection(Zero, Vector3(0.0, 0.0, 1.0), [sphere], sqrt, 1.0, PosInfinity,
                                  ClosestIntersection(Some(sphere), Finite(2.0)))
  {
    var sphere := Sphere(Vector3(0.0, 0.0, 3.0), 1.0, Colors.Red, Lights.NoSpecular, 0.0);
    var direction := Vector3(0.0, 0.0, 1.0);
    assert Discriminant(Zero, direction, sphere) == 4.0;
    SqrtOfSquare(sqrt, 2.0);
    assert sqrt(4.0) == 2.0;
    assert Candidate(Zero, direction, [sphere], sqrt, 0) == Finite(4.0);
    assert Candidate(Zero, direction, [sphere], sqrt, 1) == Finite(2.0);
    assert ClosestAt(Zero, direction, [sphere], sqrt, 1.0, PosInfinity, 1,
                     ClosestIntersection(Some(sphere), Finite(2.0)));
  }
}
