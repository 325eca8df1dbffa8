/**
 * version.py's overlay coordinates (`get_ffmpeg_overlay_cmd`): a single
 * position string such as "bottom_left" is searched for anchor words with
 * substring tests, and the fixed margin LOGO_MARGIN is used on both axes.
 */
module FixedOverlay {
  import opened Wrappers
  import opened Decimal
  import opened Strings
  import opened PresetOverlay

  /** LOGO_MARGIN. */
  const LOGO_MARGIN: int := 15

  /** The position string the form builds from the two select boxes. */
  function PositionString(posV: string, posH: string): (position: string)
  {
    posV + "_" + posH
  }

  /**
   * The horizontal anchor the substring tests pick: "left" is tested first,
   * so a string containing both words counts as left.
   */
  function HorizontalAnchor(position: string): (anchor: string)
  {
    if Contains(position, "left") then "left"
    else if Contains(position, "right") then "right"
    else "center"
  }

  /** The vertical anchor the substring tests pick: "top" before "bottom". */
  function VerticalAnchor(position: string): (anchor: string)
  {
    if Contains(position, "top") then "top"
    else if Contains(position, "bottom") then "bottom"
    else "center"
  }

  /** The x part: the same expression Version2.py builds for that anchor. */
  function XCoordFixed(position: string): (x: string)
    ensures x == XCoord(HorizontalAnchor(position), LOGO_MARGIN)
  {
    if Contains(position, "left") then IntToString(LOGO_MARGIN)
    else if Contains(position, "right") then "main_w-overlay_w-" + IntToString(LOGO_MARGIN)
    else "(main_w-overlay_w)/2"
  }

  /** The y part: the same expression Version2.py builds for that anchor. */
  function YCoordFixed(position: string): (y: string)
    ensures y == YCoord(VerticalAnchor(position), LOGO_MARGIN)
  {
    if Contains(position, "top") then IntToString(LOGO_MARGIN)
    else if Contains(position, "bottom") then "main_h-overlay_h-" + IntToString(LOGO_MARGIN)
    else "(main_h-overlay_h)/2"
  }

  /**
   * `get_ffmpeg_overlay_cmd(position_str)`: Version2.py's preset result for
   * the anchors the substring tests pick, with margin 15, and so the single
   * colon splits it back into its x part and its y part.
   */
  function OverlayCmd(position: string): (r: string)
    ensures r == PresetCmd(VerticalAnchor(position), HorizontalAnchor(position), LOGO_MARGIN)
    ensures SplitOnce(r, ':') == Some((XCoordFixed(position), YCoordFixed(position)))
  {
    XCoordFixed(position) + ":" + YCoordFixed(position)
  }

  /** What a position string yields, for the three outcomes of each test. */
  lemma OverlayCmdCases(position: string)
    ensures Contains(position, "left") ==> XCoordFixed(position) == "15"
    ensures !Contains(position, "left") && Contains(position, "right") ==>
      XCoordFixed(position) == "main_w-overlay_w-15"
    ensures !Contains(position, "left") && !Contains(position, "right") ==>
      XCoordFixed(position) == "(main_w-overlay_w)/2"
    ensures Contains(position, "top") ==> YCoordFixed(position) == "15"
    ensures !Contains(position, "top") && Contains(position, "bottom") ==>
      YCoordFixed(position) == "main_h-overlay_h-15"
    ensures !Contains(position, "top") && !Contains(position, "bottom") ==>
      YCoordFixed(position) == "(main_h-overlay_h)/2"
  {
    TwoDigitNumeral(15);
    assert IntToString(LOGO_MARGIN) == "15";
  }

  /**
   * The substring tests recover the horizontal anchor from every string the
   * form can build: no vertical choice contains "left" or "right".
   */
  lemma HorizontalAnchorOfFormString(posV: string, posH: string)
    requires posV in VERTICAL_CHOICES && posH in HORIZONTAL_CHOICES
    ensures HorizontalAnchor(PositionString(posV, posH)) == posH
  {
    var s := PositionString(posV, posH);
    if posH == "left" {
      assert OccursAt(s, "left", |posV| + 1);
      OccursContains(s, "left", |posV| + 1);
    } else {
      // "left" and, for the centre, "right" have a letter the string lacks.
      if Contains(s, "left") { ContainsChar(s, "left", 'l'); }
      if posH == "right" {
        assert OccursAt(s, "right", |posV| + 1);
        OccursContains(s, "right", |posV| + 1);
      } else if Contains(s, "right") {
        ContainsChar(s, "right", 'i');
      }
    }
  }

  /**
   * The substring tests recover the vertical anchor from every string the
   * form can build: no horizontal choice contains "top" or "bottom".
   */
  lemma VerticalAnchorOfFormString(posV: string, posH: string)
    requires posV in VERTICAL_CHOICES && posH in HORIZONTAL_CHOICES
    ensures VerticalAnchor(PositionString(posV, posH)) == posV
  {
    var s := PositionString(posV, posH);
    if posV == "top" {
      assert posV <= s;
    } else {
      // "top" and, for the centre, "bottom" have a letter the string lacks.
      if Contains(s, "top") { ContainsChar(s, "top", 'p'); }
      if posV == "bottom" {
        assert posV <= s;
      } else if Contains(s, "bottom") {
        ContainsChar(s, "bottom", 'b');
      }
    }
  }

  /**
   * For every choice the form offers, version.py's coordinates equal
   * Version2.py's preset coordinates with margin 15.
   */
  lemma FormPositionsAgree(posV: string, posH: string, customX: int, customY: int)
    requires posV in VERTICAL_CHOICES && posH in HORIZONTAL_CHOICES
    ensures OverlayCmd(PositionString(posV, posH))
         == PositionCmd(PRESET_MODE, posV, posH, LOGO_MARGIN, customX, customY)
  {
    HorizontalAnchorOfFormString(posV, posH);
    VerticalAnchorOfFormString(posV, posH);
  }
}
