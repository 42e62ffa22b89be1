/**
 Keeping the tail of a child's output: the counting version of the locale tool and the
 three-branch version of the release checks, on sequences of one-byte units.
 */
module OutputCapture {
  import opened Text

  // A limit on captured output: at least one unit is kept.
  type Positive = n: nat | n >= 1 witness 1

  datatype Capture = Capture(text: string, truncatedChars: nat)

  function Tail(s: string, max: nat): string {
    if |s| <= max then s else s[|s| - max..]
  }

  function AppendBoundedProcessOutput(capture: Capture, chunk: string, maxChars: Positive): Capture
  {
    var nextText := capture.text + chunk;
    if |nextText| <= maxChars then Capture(nextText, capture.truncatedChars)
    else Capture(nextText[|nextText| - maxChars..], capture.truncatedChars + |nextText| - maxChars)
  }

  function AppendBoundedCommandOutput(current: string, chunk: string, maxBytes: Positive): string
  {
    if |chunk| >= maxBytes then chunk[|chunk| - maxBytes..]
    else if |current| + |chunk| <= maxBytes then current + chunk
    else
      var currentTailBytes := maxBytes - |chunk|;
      current[|current| - currentTailBytes..] + chunk
  }

  function CaptureAll(chunks: seq<string>, maxChars: Positive): Capture
  {
    if chunks == [] then Capture("", 0)
    else AppendBoundedProcessOutput(CaptureAll(chunks[..|chunks| - 1], maxChars), chunks[|chunks| - 1], maxChars)
  }

  function CaptureCommand(chunks: seq<string>, maxBytes: Positive): string
  {
    if chunks == [] then ""
    else AppendBoundedCommandOutput(CaptureCommand(chunks[..|chunks| - 1], maxBytes), chunks[|chunks| - 1], maxBytes)
  }

  // The capture of everything heard so far.
  function Captured(heard: string, maxChars: Positive): Capture {
    Capture(Tail(heard, maxChars), |heard| - |Tail(heard, maxChars)|)
  }

  lemma AppendKeepsTail(heard: string, chunk: string, maxChars: Positive)
    ensures AppendBoundedProcessOutput(Captured(heard, maxChars), chunk, maxChars) == Captured(heard + chunk, maxChars)
  {
    if |heard| > maxChars {
      assert heard + chunk == heard[..|heard| - maxChars] + (Tail(heard, maxChars) + chunk);
    }
  }

  lemma CommandAppendKeepsTail(heard: string, chunk: string, maxBytes: Positive)
    ensures AppendBoundedCommandOutput(Tail(heard, maxBytes), chunk, maxBytes) == Tail(heard + chunk, maxBytes)
  {
  }

  // However the output is cut into chunks, both versions keep its last units, and the
  // counting version accounts for every unit it dropped.
  lemma {:induction false} CaptureIsTail(chunks: seq<string>, max: Positive)
    ensures CaptureAll(chunks, max).text == Tail(Concat(chunks), max)
    ensures |CaptureAll(chunks, max).text| + CaptureAll(chunks, max).truncatedChars == |Concat(chunks)|
    ensures CaptureCommand(chunks, max) == Tail(Concat(chunks), max)
    decreases |chunks|
  {
    if chunks != [] {
      var front, last := chunks[..|chunks| - 1], chunks[|chunks| - 1];
      CaptureIsTail(front, max);
      AppendKeepsTail(Concat(front), last, max);
      CommandAppendKeepsTail(Concat(front), last, max);
    }
  }
}
