/** Cutting a child's output into lines as it arrives in chunks. */
module LineFraming {
  import opened Text

  function FirstNewline(s: string): nat {
    if s == "" || s[0] == '\n' then 0 else 1 + FirstNewline(s[1..])
  }

  lemma {:induction false} FirstNewlineIs(s: string)
    ensures FirstNewline(s) <= |s| && '\n' !in s[..FirstNewline(s)]
    ensures FirstNewline(s) < |s| ==> s[FirstNewline(s)] == '\n'
  {
    if s != "" && s[0] != '\n' {
      FirstNewlineIs(s[1..]);
      assert s[..FirstNewline(s)] == [s[0]] + s[1..][..FirstNewline(s[1..])];
    }
  }

  function StripCr(s: string): string {
    if s != "" && s[|s| - 1] == '\r' then s[..|s| - 1] else s
  }

  // Splitting at every line feed, together with a carriage return right before it.
  function Split(s: string): (parts: seq<string>)
    ensures parts != []
    decreases |s|
  {
    FirstNewlineIs(s);
    var i := FirstNewline(s);
    if i == |s| then [s] else [StripCr(s[..i])] + Split(s[i + 1..])
  }

  function Last(parts: seq<string>): string
    requires parts != []
  {
    parts[|parts| - 1]
  }

  function Front(parts: seq<string>): seq<string>
    requires parts != []
  {
    parts[..|parts| - 1]
  }

  datatype Framed = Framed(carry: string, lines: seq<string>)

  function CollectOutputLines(carry: string, chunk: string): Framed {
    var parts := Split(carry + chunk);
    Framed(Last(parts), Front(parts))
  }

  // ----- what splitting means -----

  // The text with its line ends back in place.
  function Weave(parts: seq<string>, ends: seq<string>): string
    requires |parts| == |ends| + 1
  {
    if ends == [] then parts[0] else parts[0] + ends[0] + Weave(parts[1..], ends[1..])
  }

  // A part holds no line feed, every line end is LF or CR LF, and a CR belongs to the line
  // end whenever it can.
  ghost predicate IsSplit(s: string, parts: seq<string>, ends: seq<string>) {
    && |parts| == |ends| + 1 && Weave(parts, ends) == s
    && (forall i | 0 <= i < |parts| :: '\n' !in parts[i])
    && (forall i | 0 <= i < |ends| :: ends[i] == "\n" || ends[i] == "\r\n")
    && (forall i | 0 <= i < |ends| && ends[i] == "\n" :: parts[i] == "" || parts[i][|parts[i]| - 1] != '\r')
  }

  lemma {:induction false} SplitIsSplit(s: string) returns (ends: seq<string>)
    ensures IsSplit(s, Split(s), ends)
    decreases |s|
  {
    FirstNewlineIs(s);
    var i := FirstNewline(s);
    if i == |s| {
      ends := [];
      assert s[..i] == s;
    } else {
      var rest := SplitIsSplit(s[i + 1..]);
      var end := if StripCr(s[..i]) == s[..i] then "\n" else "\r\n";
      ends := [end] + rest;
      assert StripCr(s[..i]) + end + s[i + 1..] == s;
      SplitIsCons(s[i + 1..], StripCr(s[..i]), end, Split(s[i + 1..]), rest);
    }
  }

  // Putting one line in front.
  lemma SplitIsCons(s: string, part: string, end: string, parts: seq<string>, ends: seq<string>)
    requires IsSplit(s, parts, ends) && '\n' !in part
    requires end == "\r\n" || (end == "\n" && (part == "" || part[|part| - 1] != '\r'))
    ensures IsSplit(part + end + s, [part] + parts, [end] + ends)
  {
    assert ([part] + parts)[1..] == parts && ([end] + ends)[1..] == ends;
  }

  // There is only one way to split a text.
  lemma {:induction false} SplitIsUnique(s: string, parts: seq<string>, ends: seq<string>)
    requires IsSplit(s, parts, ends)
    ensures parts == Split(s)
    decreases |s|
  {
    FirstNewlineIs(s);
    if ends == [] {
      NewlineAt(s, |s|);
      assert parts == [s];
    } else {
      var rest := Weave(parts[1..], ends[1..]);
      var n := FirstLine(parts[0], ends[0], rest);
      SplitIsUnique(rest, parts[1..], ends[1..]);
      assert parts == [parts[0]] + parts[1..];
    }
  }

  lemma FirstLine(part: string, end: string, rest: string) returns (n: nat)
    requires '\n' !in part
    requires end == "\r\n" || (end == "\n" && (part == "" || part[|part| - 1] != '\r'))
    ensures
      var s := part + end + rest;
      n == FirstNewline(s) && n < |s| && StripCr(s[..n]) == part && s[n + 1..] == rest
  {
    var s := part + end + rest;
    n := |part| + |end| - 1;
    forall k | 0 <= k < n ensures s[k] != '\n' {
      if k < |part| {
        assert s[k] == part[k];
      }
    }
    NewlineAt(s, n);
    assert s[..n] == part + (if end == "\n" then "" else "\r");
  }

  lemma {:induction false} NewlineAt(s: string, n: nat)
    requires n <= |s| && forall k | 0 <= k < n :: s[k] != '\n'
    requires n < |s| ==> s[n] == '\n'
    ensures FirstNewline(s) == n
    decreases n
  {
    if n > 0 {
      assert forall k | 0 <= k < n - 1 :: s[1..][k] == s[k + 1];
      NewlineAt(s[1..], n - 1);
    }
  }

  // ----- chunk boundaries do not matter -----

  lemma {:induction false} SplitAppend(x: string, y: string)
    ensures Split(x + y) == Front(Split(x)) + Split(Last(Split(x)) + y)
    decreases |x|
  {
    FirstNewlineIs(x);
    var i := FirstNewline(x);
    if i == |x| {
      assert Front([x]) + Split(x + y) == Split(x + y);
    } else {
      assert forall k | 0 <= k < i :: (x + y)[k] == x[..i][k];
      NewlineAt(x + y, i);
      assert (x + y)[..i] == x[..i] && (x + y)[i + 1..] == x[i + 1..] + y;
      SplitAppend(x[i + 1..], y);
    }
  }

  // One more chunk, the lines and carry so far being those of splitting what came before.
  lemma FrameOne(lines: seq<string>, carry: string, before: string, chunk: string)
    requires lines + [carry] == Split(before)
    ensures
      var framed := CollectOutputLines(carry, chunk);
      lines + framed.lines + [framed.carry] == Split(before + chunk)
  {
    SplitAppend(before, chunk);
    assert Front(lines + [carry]) == lines && Last(lines + [carry]) == carry;
  }

  // Framing chunk after chunk.
  function FrameAll(chunks: seq<string>): Framed {
    if chunks == [] then Framed("", [])
    else
      var before := FrameAll(chunks[..|chunks| - 1]);
      var framed := CollectOutputLines(before.carry, chunks[|chunks| - 1]);
      Framed(framed.carry, before.lines + framed.lines)
  }

  // However a stream is cut, even between a CR and its LF, its lines and the carry are those
  // of splitting it whole.
  lemma {:induction false} ChunksDoNotMatter(chunks: seq<string>)
    ensures FrameAll(chunks).lines + [FrameAll(chunks).carry] == Split(Concat(chunks))
    decreases |chunks|
  {
    if chunks != [] {
      var front, chunk := chunks[..|chunks| - 1], chunks[|chunks| - 1];
      ChunksDoNotMatter(front);
      FrameOne(FrameAll(front).lines, FrameAll(front).carry, Concat(front), chunk);
    }
  }

  // ----- the buffers of a child's two streams -----

  datatype Stream = Stdout | Stderr

  class LineBuffers {
    var buffers: map<Stream, string>
    ghost var heard: map<Stream, string>
    ghost var emitted: map<Stream, seq<string>>

    // Each stream's lines and carry are those of its own output.
    ghost predicate Valid()
      reads this
    {
      && (forall s :: s in buffers && s in heard && s in emitted)
      && forall s :: emitted[s] + [buffers[s]] == Split(heard[s])
    }

    constructor ()
      ensures Valid() && forall s :: heard[s] == "" && emitted[s] == []
    {
      buffers := map[Stdout := "", Stderr := ""];
      heard := map[Stdout := "", Stderr := ""];
      emitted := map[Stdout := [], Stderr := []];
      new;
      assert [] + [""] == Split("");
      forall s: Stream ensures s in buffers && s in heard && s in emitted {
        match s case Stdout => case Stderr =>
      }
    }

    method OnChunk(stream: Stream, chunk: string) returns (lines: seq<string>)
      requires Valid()
      modifies this
      ensures Valid()
      ensures heard == old(heard)[stream := old(heard)[stream] + chunk]
      ensures emitted == old(emitted)[stream := old(emitted)[stream] + lines]
    {
      FrameOne(emitted[stream], buffers[stream], heard[stream], chunk);
      var parsed := CollectOutputLines(buffers[stream], chunk);
      lines := parsed.lines;
      buffers := buffers[stream := parsed.carry];
      heard := heard[stream := heard[stream] + chunk];
      emitted := emitted[stream := emitted[stream] + lines];
    }

    // Only a partial flush does anything; it hands over what is left of either stream.
    method Flush(flushPartial: bool) returns (lines: seq<string>)
      requires Valid()
      modifies this
      ensures !flushPartial ==> Valid() && lines == [] && buffers == old(buffers)
      ensures flushPartial ==>
                && lines == (if old(buffers)[Stdout] != "" then [Last(Split(old(heard)[Stdout]))] else [])
                          + (if old(buffers)[Stderr] != "" then [Last(Split(old(heard)[Stderr]))] else [])
                && forall s: Stream :: s in buffers && buffers[s] == ""
      ensures heard == old(heard) && emitted == old(emitted)
    {
      lines := [];
      if !flushPartial {
        return;
      }
      assert Last(emitted[Stdout] + [buffers[Stdout]]) == buffers[Stdout];
      assert Last(emitted[Stderr] + [buffers[Stderr]]) == buffers[Stderr];
      if buffers[Stdout] != "" {
        lines := lines + [buffers[Stdout]];
        buffers := buffers[Stdout := ""];
      }
      if buffers[Stderr] != "" {
        lines := lines + [buffers[Stderr]];
        buffers := buffers[Stderr := ""];
      }
      forall s: Stream ensures s in buffers && buffers[s] == "" {
        match s case Stdout => case Stderr =>
      }
    }
  }
}
