/**
 * Version2.py's overlay coordinates (`get_ffmpeg_position_cmd`): the
 * argument of ffmpeg's `overlay` filter, either a manual "X:Y" pair or an
 * x expression chosen by the horizontal anchor and a y expression chosen by
 * the vertical anchor, each offset from the frame edge by the margin.
 */
module PresetOverlay {
  import opened Wrappers
  import opened Decimal
  import opened Strings
  import opened FfmpegExpr

  /** The radio choice that selects manual coordinates. */
  const CUSTOM_MODE := "Custom (Manual X/Y)"
  /** The other radio choice. */
  const PRESET_MODE := "Standard Presets"

  /** The choices the form offers for the two anchors. */
  const VERTICAL_CHOICES := ["bottom", "top", "center"]
  const HORIZONTAL_CHOICES := ["left", "right", "center"]

  /** The x coordinate for a horizontal anchor: "left", "right", or centred. */
  function XCoord(posH: string, margin: int): (x: string)
    ensures ':' !in x
    ensures posH == "left" ==> ParseInt(x) == Some(margin)
  {
    IntToStringRoundTrip(margin);
    if posH == "left" then IntToString(margin)
    else if posH == "right" then "main_w-overlay_w-" + IntToString(margin)
    else "(main_w-overlay_w)/2"
  }

  /** The y coordinate for a vertical anchor: "top", "bottom", or centred. */
  function YCoord(posV: string, margin: int): (y: string)
    ensures ':' !in y
    ensures posV == "top" ==> ParseInt(y) == Some(margin)
  {
    IntToStringRoundTrip(margin);
    if posV == "top" then IntToString(margin)
    else if posV == "bottom" then "main_h-overlay_h-" + IntToString(margin)
    else "(main_h-overlay_h)/2"
  }

  /** The preset branch: the x part, a colon, the y part. */
  function PresetCmd(posV: string, posH: string, margin: int): (r: string)
    ensures SplitOnce(r, ':') == Some((XCoord(posH, margin), YCoord(posV, margin)))
  {
    var x, y := XCoord(posH, margin), YCoord(posV, margin);
    SplitOnceJoin(x, ':', y);
    x + ":" + y
  }

  /** `get_ffmpeg_position_cmd(mode, pos_v, pos_h, margin, custom_x, custom_y)`. */
  function PositionCmd(mode: string, posV: string, posH: string, margin: int,
                       customX: int, customY: int): (r: string)
    ensures mode == CUSTOM_MODE ==>
      SplitOnce(r, ':') == Some((IntToString(customX), IntToString(customY)))
    ensures mode != CUSTOM_MODE ==>
      SplitOnce(r, ':') == Some((XCoord(posH, margin), YCoord(posV, margin)))
  {
    if mode == CUSTOM_MODE then
      var x, y := IntToString(customX), IntToString(customY);
      SplitOnceJoin(x, ':', y);
      x + ":" + y
    else PresetCmd(posV, posH, margin)
  }

  /** Reads a manual "X:Y" pair back into its two integers. */
  function ParseCoords(s: string): Option<(int, int)>
  {
    match SplitOnce(s, ':')
    case None => None
    case Some((xs, ys)) =>
      match (ParseInt(xs), ParseInt(ys))
      case (Some(x), Some(y)) => Some((x, y))
      case _ => None
  }

  /**
   * In manual mode the result is the pair "X:Y" and nothing else: it reads
   * back as exactly (customX, customY), whatever the anchors and the margin.
   */
  lemma CustomModeIsXYPair(posV: string, posH: string, margin: int, customX: int, customY: int)
    ensures ParseCoords(PositionCmd(CUSTOM_MODE, posV, posH, margin, customX, customY))
         == Some((customX, customY))
    ensures PositionCmd(CUSTOM_MODE, posV, posH, margin, customX, customY)
         == PositionCmd(CUSTOM_MODE, "", "", 0, customX, customY)
  {
    IntToStringRoundTrip(customX);
    IntToStringRoundTrip(customY);
  }

  /**
   * In preset mode the x part is fixed by the horizontal anchor and the
   * margin alone, and the y part by the vertical anchor and the margin alone.
   */
  lemma PresetPartsIndependent(mode: string, posV: string, posH: string, posV': string, posH': string,
                               margin: int, customX: int, customY: int, customX': int, customY': int)
    requires mode != CUSTOM_MODE
    ensures var r, r' := PositionCmd(mode, posV, posH, margin, customX, customY),
                         PositionCmd(mode, posV', posH, margin, customX', customY');
      SplitOnce(r, ':').value.0 == SplitOnce(r', ':').value.0
    ensures var r, r' := PositionCmd(mode, posV, posH, margin, customX, customY),
                         PositionCmd(mode, posV, posH', margin, customX', customY');
      SplitOnce(r, ':').value.1 == SplitOnce(r', ':').value.1
  {
  }

  /** The x coordinate as an expression tree. */
  function XExpr(posH: string, margin: int): Expr
  {
    if posH == "left" then Num(margin)
    else if posH == "right" then Sub(Sub(Var("main_w"), Var("overlay_w")), Num(margin))
    else Div(Sub(Var("main_w"), Var("overlay_w")), Num(2))
  }

  /** The y coordinate as an expression tree. */
  function YExpr(posV: string, margin: int): Expr
  {
    if posV == "top" then Num(margin)
    else if posV == "bottom" then Sub(Sub(Var("main_h"), Var("overlay_h")), Num(margin))
    else Div(Sub(Var("main_h"), Var("overlay_h")), Num(2))
  }

  /** The x string is the conventional rendering of the x expression tree. */
  lemma XCoordRenders(posH: string, margin: int)
    ensures Render(XExpr(posH, margin)) == XCoord(posH, margin)
  {
    var gap := Sub(Var("main_w"), Var("overlay_w"));
    assert Show(gap, 0) == "main_w-overlay_w";
    assert Show(gap, 1) == "(main_w-overlay_w)";
    assert Show(Num(margin), 1) == IntToString(margin);
    assert Show(Sub(gap, Num(margin)), 0) == Show(gap, 0) + "-" + Show(Num(margin), 1);
    assert "main_w-overlay_w" + "-" == "main_w-overlay_w-";
    assert Show(Num(2), 2) == "2" by { assert IntToString(2) == "2"; }
  }

  /**
   * What the x string means to ffmpeg: "left" leaves `margin` pixels between
   * the frame's left edge and the logo, "right" leaves `margin` pixels
   * between the logo and the frame's right edge, and any other anchor leaves
   * equal gaps on both sides, whatever the margin.
   */
  lemma XCoordPlacement(posH: string, margin: int, f: Frame)
    ensures Render(XExpr(posH, margin)) == XCoord(posH, margin)
    ensures var x := Eval(XExpr(posH, margin), f);
      if posH == "left" then x == margin as real
      else if posH == "right" then f.mainW - (x + f.overlayW) == margin as real
      else x == f.mainW - (x + f.overlayW)
  {
    XCoordRenders(posH, margin);
    var gap := Sub(Var("main_w"), Var("overlay_w"));
    assert Eval(gap, f) == f.mainW - f.overlayW;
    if posH != "left" && posH != "right" {
      assert Eval(Num(2), f) == 2.0;
    }
  }

  /** The y string is the conventional rendering of the y expression tree. */
  lemma YCoordRenders(posV: string, margin: int)
    ensures Render(YExpr(posV, margin)) == YCoord(posV, margin)
  {
    var gap := Sub(Var("main_h"), Var("overlay_h"));
    assert Show(gap, 0) == "main_h-overlay_h";
    assert Show(gap, 1) == "(main_h-overlay_h)";
    assert Show(Num(margin), 1) == IntToString(margin);
    assert Show(Sub(gap, Num(margin)), 0) == Show(gap, 0) + "-" + Show(Num(margin), 1);
    assert "main_h-overlay_h" + "-" == "main_h-overlay_h-";
    assert Show(Num(2), 2) == "2" by { assert IntToString(2) == "2"; }
  }

  /**
   * What the y string means to ffmpeg: "top" leaves `margin` pixels above
   * the logo, "bottom" leaves `margin` pixels below it, and any other anchor
   * centres it vertically, whatever the margin.
   */
  lemma YCoordPlacement(posV: string, margin: int, f: Frame)
    ensures Render(YExpr(posV, margin)) == YCoord(posV, margin)
    ensures var y := Eval(YExpr(posV, margin), f);
      if posV == "top" then y == margin as real
      else if posV == "bottom" then f.mainH - (y + f.overlayH) == margin as real
      else y == f.mainH - (y + f.overlayH)
  {
    YCoordRenders(posV, margin);
    var gap := Sub(Var("main_h"), Var("overlay_h"));
    assert Eval(gap, f) == f.mainH - f.overlayH;
    if posV != "top" && posV != "bottom" {
      assert Eval(Num(2), f) == 2.0;
    }
  }

  /** The form's default preset (bottom, left, margin 20). */
  lemma DefaultPresetExample(customX: int, customY: int)
    ensures PositionCmd(PRESET_MODE, "bottom", "left", 20, customX, customY)
         == "20" + ":" + "main_h-overlay_h-" + "20"
  {
    TwoDigitNumeral(20);
    assert IntToString(20) == "20";
  }

  /** Top right with margin 15. */
  lemma TopRightExample(customX: int, customY: int)
    ensures PositionCmd(PRESET_MODE, "top", "right", 15, customX, customY)
         == "main_w-overlay_w-" + "15" + ":" + "15"
  {
    TwoDigitNumeral(15);
    assert IntToString(15) == "15";
  }

  /** Centre on both axes ignores the margin. */
  lemma CenterExample(margin: int, customX: int, customY: int)
    ensures PositionCmd(PRESET_MODE, "center", "center", margin, customX, customY)
         == "(main_w-overlay_w)/2" + ":" + "(main_h-overlay_h)/2"
  {
  }

  /** Manual coordinates 10 and 25 ignore the anchors and the margin. */
  lemma ManualExample(posV: string, posH: string, margin: int)
    ensures PositionCmd(CUSTOM_MODE, posV, posH, margin, 10, 25) == "10" + ":" + "25"
  {
    TwoDigitNumeral(10);
    TwoDigitNumeral(25);
    assert IntToString(10) == "10";
    assert IntToString(25) == "25";
  }
}
