/**
 * The fragment of ffmpeg's arithmetic expression language that the overlay
 * coordinates use: integer literals, the frame symbols `main_w`, `main_h`,
 * `overlay_w`, `overlay_h`, subtraction and division. ffmpeg evaluates these
 * expressions itself, in floating point, when it composites each frame; the
 * model evaluates them over the reals so that what a coordinate string MEANS
 * (where it puts the logo) can be stated and proved.
 */
module FfmpegExpr {
  import opened Decimal

  datatype Expr =
    | Num(n: int)
    | Var(name: string)
    | Sub(lhs: Expr, rhs: Expr)
    | Div(lhs: Expr, rhs: Expr)

  /** Sizes of the main video frame and of the (scaled) overlay image. */
  datatype Frame = Frame(mainW: real, mainH: real, overlayW: real, overlayH: real)

  function Eval(e: Expr, f: Frame): real
  {
    match e
    case Num(n) => n as real
    case Var(x) =>
      if x == "main_w" then f.mainW
      else if x == "main_h" then f.mainH
      else if x == "overlay_w" then f.overlayW
      else if x == "overlay_h" then f.overlayH
      else 0.0
    case Sub(a, b) => Eval(a, f) - Eval(b, f)
    case Div(a, b) =>
      var d := Eval(b, f);
      if d == 0.0 then 0.0 else Eval(a, f) / d
  }

  /**
   * Conventional infix text: `prec` is 0 in a position where a difference
   * may stand bare, 1 where only a quotient may, and 2 where only a literal
   * or a symbol may; anything weaker is parenthesised.
   */
  function Show(e: Expr, prec: nat): string
  {
    match e
    case Num(n) => IntToString(n)
    case Var(x) => x
    case Sub(a, b) => Parens(prec > 0, Show(a, 0) + "-" + Show(b, 1))
    case Div(a, b) => Parens(prec > 1, Show(a, 1) + "/" + Show(b, 2))
  }

  function Parens(wrap: bool, s: string): string
  {
    if wrap then "(" + s + ")" else s
  }

  function Render(e: Expr): string
  {
    Show(e, 0)
  }
}
