/**
 * The presentation values the scripts write through `element.style` and
 * `textContent`, kept as structured values instead of CSS or number text.
 */
module Styles {

  /**
   * A CSS transform reduced to what the scripts write: a translation in px
   * (`translateX`, `translateY`, `translate`) or a uniform `scale`.
   */
  datatype Transform = Translate(x: real, y: real) | Scale(factor: real)

  /** `translateY(0)`, `translate(0)` and `scale(1)` all leave the element where layout put it. */
  predicate IsIdentity(t: Transform) {
    match t
    case Translate(x, y) => x == 0.0 && y == 0.0
    case Scale(f) => f == 1.0
  }

  /** `translateX(v px)`. */
  function TranslateX(v: real): Transform { Translate(v, 0.0) }

  /** `translateY(v px)`. */
  function TranslateY(v: real): Transform { Translate(0.0, v) }

  /** A number written as `textContent`: an integer, or `NaN` when it came from an attribute that does not parse. */
  datatype Shown = Number(n: int) | NotANumber
}
