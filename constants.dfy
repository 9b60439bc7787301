/** Image and geographic configuration constants of the map renderer.
    The source writes the pixel sizes as integers; every use divides them
    with true division, so they are kept here as reals. */
module Constants {

  // Image settings
  const IMAGE_WIDTH: real := 770.0
  const IMAGE_HEIGHT: real := 420.0
  const MARGIN: real := 50.0
  const DRAW_WIDTH: real := IMAGE_WIDTH - 2.0 * MARGIN
  const DRAW_HEIGHT: real := IMAGE_HEIGHT - 2.0 * MARGIN

  // Geographic transformations
  const VERT_STRETCH: real := 1.08
  const XAX_SHIFT: real := 0.08
  const YAX_SHIFT: real := 0.05

  // Fixed placement of the grid used by Barnes interpolation
  const SCALE_FACTOR: real := 74.25266721032297
  const MIN_LON: real := -103.00275287381179
  const MIN_LAT: real := 33.61583747187097
}
