// The decoded comment records that the loader hands to the danmaku scheduler
// (the IMode7DanmakuContentInterface / IDanmakuDataInterface shapes of demo/main.ts).

module Records {

  import opened Options

  /** The positional fields of a mode-7 comment's bracketed content array, decoded. */
  datatype Content = Content(
    startX: real,
    startY: real,
    startOpacity: real,
    endOpacity: real,
    duration: real,          // seconds the comment stays alive
    text: string,            // line breaks normalised to '\r'
    rotateZ: Option<int>,    // degrees; None stands for NaN
    rotateY: Option<int>,
    endX: real,
    endY: real,
    aTime: Option<int>,      // motion time in milliseconds
    delay: Option<int>,      // motion delay in milliseconds
    family: string)

  /** One decoded comment: its activation time and attributes plus its content. */
  datatype DanmakuData = DanmakuData(
    playTime: real,          // seconds from media start
    mode: int,
    fontSize: Option<int>,
    color: string,           // "#" and six characters
    dmId: Option<int>,
    content: Content)
}
