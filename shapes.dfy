/** The spheres of a ray-traced scene. */
module Shapes {
  import opened Algebra
  import opened Colors

  /** A sphere. Besides the centre, radius and colour that the sphere class
      declares, the ray tracer reads a specular exponent (-1 for none) and a
      reflectivity in [0, 1] from it. */
  datatype Sphere = Sphere(center: Vector3, radius: real, color: Color,
                           specular: real, reflectivity: real)
}
