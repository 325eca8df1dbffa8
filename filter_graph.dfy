/**
 * The `-filter_complex` argument both variants pass to ffmpeg: scale the
 * logo (second input), then overlay it on the video (first input) at the
 * given coordinates. Version2.py scales to a chosen width and lets ffmpeg
 * keep the aspect ratio (height -1); version.py scales to LOGO_SIZE.
 * ParseFilter reads the three parameters back and is the partner the
 * templates are proved against.
 */
module FilterGraph {
  import opened Wrappers
  import opened Decimal
  import opened Strings

  /** LOGO_SIZE: the width and height version.py scales every logo to. */
  const LOGO_SIZE: (int, int) := (250, 250)

  const SCALE_HEAD := "[1:v]scale="
  const OVERLAY_TAIL := "[logo];[0:v][logo]overlay="

  /** The three parameters of the filter graph. A height of -1 keeps the aspect ratio. */
  datatype FilterSpec = FilterSpec(width: int, height: int, overlay: string)

  /** Version2.py's template, used alike for the preview frame and the batch. */
  function ScaledFilter(sizeW: int, overlayCmd: string): (f: string)
  {
    SCALE_HEAD + IntToString(sizeW) + ":-1" + OVERLAY_TAIL + overlayCmd
  }

  /** version.py's template. */
  function FixedFilter(overlayCmd: string): (f: string)
  {
    SCALE_HEAD + IntToString(LOGO_SIZE.0) + ":" + IntToString(LOGO_SIZE.1) + OVERLAY_TAIL + overlayCmd
  }

  /** Reads width, height and overlay coordinates back out of a filter graph. */
  function ParseFilter(f: string): (r: Option<FilterSpec>)
  {
    if SCALE_HEAD <= f then ParseScale(f[|SCALE_HEAD|..]) else None
  }

  /** After the head: the width runs up to the first ':'. */
  function ParseScale(s: string): (r: Option<FilterSpec>)
  {
    match SplitOnce(s, ':')
    case None => None
    case Some(parts) => ParseHeight(parts.0, parts.1)
  }

  /** After the width: the height runs up to the first '['. */
  function ParseHeight(ws: string, rest: string): (r: Option<FilterSpec>)
  {
    match IndexOf(rest, '[')
    case None => None
    case Some(k) => ParseTail(ws, rest[..k], rest[k..])
  }

  /** After the height: the fixed labels, then the overlay coordinates. */
  function ParseTail(ws: string, hs: string, tail: string): (r: Option<FilterSpec>)
  {
    if OVERLAY_TAIL <= tail && ParseInt(ws).Some? && ParseInt(hs).Some? then
      Some(FilterSpec(ParseInt(ws).value, ParseInt(hs).value, tail[|OVERLAY_TAIL|..]))
    else None
  }

  /** A filter graph with the given parameters reads back as those parameters. */
  lemma FilterRoundTrip(w: int, hs: string, h: int, overlayCmd: string)
    requires ParseInt(hs) == Some(h) && '[' !in hs
    ensures ParseFilter(SCALE_HEAD + IntToString(w) + ":" + hs + OVERLAY_TAIL + overlayCmd)
         == Some(FilterSpec(w, h, overlayCmd))
  {
    var ws := IntToString(w);
    var tail := OVERLAY_TAIL + overlayCmd;
    var rest := hs + tail;
    var f := SCALE_HEAD + ws + ":" + hs + OVERLAY_TAIL + overlayCmd;
    assert f == SCALE_HEAD + (ws + [':'] + rest);
    assert f[|SCALE_HEAD|..] == ws + [':'] + rest;
    IntToStringRoundTrip(w);
    assert ParseTail(ws, hs, tail) == Some(FilterSpec(w, h, overlayCmd)) by {
      assert tail[|OVERLAY_TAIL|..] == overlayCmd;
    }
    assert ParseHeight(ws, rest) == ParseTail(ws, hs, tail) by {
      IndexOfAfter(hs, tail, '[');
      assert rest[..|hs|] == hs;
      assert rest[|hs|..] == tail;
    }
    assert ParseScale(ws + [':'] + rest) == ParseHeight(ws, rest) by {
      SplitOnceJoin(ws, ':', rest);
    }
  }

  /**
   * Version2.py: the filter graph scales the logo to `sizeW` wide with the
   * height left to ffmpeg (-1), then overlays it at exactly `overlayCmd`.
   */
  lemma ScaledFilterParams(sizeW: int, overlayCmd: string)
    ensures ParseFilter(ScaledFilter(sizeW, overlayCmd)) == Some(FilterSpec(sizeW, -1, overlayCmd))
  {
    var ws := IntToString(sizeW);
    assert ":-1" == ":" + "-1";
    assert ScaledFilter(sizeW, overlayCmd) == SCALE_HEAD + ws + ":" + "-1" + OVERLAY_TAIL + overlayCmd;
    assert ParseInt("-1") == Some(-1);
    FilterRoundTrip(sizeW, "-1", -1, overlayCmd);
  }

  /**
   * version.py: the filter graph always scales the logo to 250x250 before
   * overlaying it at exactly `overlayCmd`.
   */
  lemma FixedFilterParams(overlayCmd: string)
    ensures ParseFilter(FixedFilter(overlayCmd)) == Some(FilterSpec(250, 250, overlayCmd))
    ensures FixedFilter(overlayCmd) == SCALE_HEAD + "250" + ":" + "250" + OVERLAY_TAIL + overlayCmd
  {
    var s := IntToString(250);
    assert s == "250" by {
      assert NatToString(25) == "25" by { TwoDigitNumeral(25); }
      assert NatToString(250) == NatToString(25) + [DigitChar(0)];
    }
    IntToStringRoundTrip(250);
    FilterRoundTrip(250, s, 250, overlayCmd);
  }
}
