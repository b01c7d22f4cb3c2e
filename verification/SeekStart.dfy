/** Where an ffmpeg stream is started so that playback resumes at a position: the
    keyframe search (src/cast.rs), the start as it is sent in the URL, and the way
    DLNA and AirPlay casts avoid its rounding (src/daemon.rs). */
module SeekStart {
  import opened Text
  import opened TimeText

  // ---- The last keyframe --------------------------------------------------------------

  /** The time of a packet line "time,flags" that marks a keyframe. */
  function KeyframeIn(line: string): Option<real> {
    var fields := SplitOn(line, ',');
    if |fields| < 2 || 'K' !in fields[1] then None else ParseDecimal(Trim(fields[0]))
  }

  /** A keyframe no later than `time`. */
  predicate Usable(line: string, time: real) {
    KeyframeIn(line).Some? && KeyframeIn(line).value <= time
  }

  /** The last usable keyframe of the lines. */
  predicate IsBest(lines: seq<string>, time: real, best: Option<real>) {
    match best
    case None => forall i :: 0 <= i < |lines| ==> !Usable(lines[i], time)
    case Some(k) =>
      (exists i :: 0 <= i < |lines| && Usable(lines[i], time) && KeyframeIn(lines[i]) == Some(k))
      && forall i :: 0 <= i < |lines| && Usable(lines[i], time) ==> KeyframeIn(lines[i]).value <= k
  }

  function Latest(lines: seq<string>, time: real): Option<real> {
    if lines == [] then None
    else
      var before, line := Latest(lines[..|lines| - 1], time), lines[|lines| - 1];
      if !Usable(line, time) then before
      else match before
        case None => KeyframeIn(line)
        case Some(k) => if k < KeyframeIn(line).value then KeyframeIn(line) else before
  }

  lemma {:induction false} LatestIsBest(lines: seq<string>, time: real)
    ensures IsBest(lines, time, Latest(lines, time))
  {
    hide Usable, KeyframeIn;
    if lines != [] {
      var n := |lines| - 1;
      var before := lines[..n];
      LatestIsBest(before, time);
      UsableHasTime(lines[n], time);
      assert forall i :: 0 <= i < n ==> before[i] == lines[i];
    }
  }

  lemma UsableHasTime(line: string, time: real)
    ensures Usable(line, time) ==> KeyframeIn(line).Some?
  {
  }

  /** What a search finds: `output` is ffprobe's, if it ran. */
  function KeyframeAt(time: real, output: Option<string>): Option<real> {
    if time <= 0.0 then Some(0.0)
    else match output
      case None => None
      case Some(text) =>
        match Latest(Lines(text), time) case None => Some(time) case Some(k) => Some(k)
  }

  method KeyframeAtOrBefore(time: real, output: Option<string>) returns (found: Option<real>)
    ensures found == KeyframeAt(time, output)
  {
    hide KeyframeIn, Lines;
    if time <= 0.0 {
      return Some(0.0);
    }
    if output.None? {
      return None;
    }
    var best: Option<real> := None;
    var lines := Lines(output.value);
    for i := 0 to |lines|
      invariant best == Latest(lines[..i], time)
    {
      assert lines[..i + 1][..i] == lines[..i];
      var pts := KeyframeIn(lines[i]);
      if pts.Some? && pts.value <= time {
        best := match best case None => pts case Some(current) => if current < pts.value then pts else best;
      }
    }
    assert lines[..|lines|] == lines;
    found := if best.None? then Some(time) else best;
  }

  /** A packet line is the packet's time and its flags; it counts exactly when K is one of
      them. */
  lemma PacketLine(time: string, flags: string)
    requires ',' !in time && ',' !in flags
    ensures KeyframeIn(time + ("," + flags)) == if 'K' in flags then ParseDecimal(Trim(time)) else None
    ensures KeyframeIn(time) == None
  {
    hide ParseDecimal, Trim, SplitOn;
    SplitOnAt(time, ',', flags);
    SplitOnPart(flags, ',');
    SplitOnPart(time, ',');
  }

  /** What a search gives: the last keyframe no later than the position, the position
      itself when there is none, and nothing when ffprobe did not run. */
  lemma KeyframeFound(time: real, output: Option<string>)
    requires time > 0.0
    ensures output.None? ==> KeyframeAt(time, output) == None
    ensures output.Some? ==>
      KeyframeAt(time, output).Some?
      && (IsBest(Lines(output.value), time, KeyframeAt(time, output))
          || (IsBest(Lines(output.value), time, None) && KeyframeAt(time, output) == Some(time)))
  {
    hide Lines, KeyframeIn, Latest, IsBest;
    if output.Some? {
      LatestIsBest(Lines(output.value), time);
    }
  }

  /** A keyframe found is never later than the position asked for. */
  lemma KeyframeIsNotLater(time: real, output: Option<string>)
    requires time >= 0.0
    ensures KeyframeAt(time, output).Some? ==> KeyframeAt(time, output).value <= time
  {
    hide Lines, KeyframeIn;
    if time > 0.0 && output.Some? {
      LatestIsBest(Lines(output.value), time);
    }
  }

  // ---- The start as it is sent -----------------------------------------------------------

  /** Rounding to the nearest whole number, ties to even. */
  function Nearest(y: real): int {
    var rest := y - y.Floor as real;
    if rest < 0.5 || (rest == 0.5 && y.Floor % 2 == 0) then y.Floor else y.Floor + 1
  }

  /** `{start:.3}`. */
  function Sent(start: real): real {
    Nearest(start * 1000.0) as real / 1000.0
  }

  /** The digits behind the third decimal are below one half, or exactly one half after
      an even digit. */
  predicate RoundsDown(start: real) {
    var y := start * 1000.0;
    var rest := y - y.Floor as real;
    rest < 0.5 || (rest == 0.5 && y.Floor % 2 == 0)
  }

  /** The next thousandth above. */
  function NextMillisecond(start: real): real {
    ((start * 1000.0).Floor + 1) as real / 1000.0
  }

  predicate WholeMillisecond(t: real) {
    (t * 1000.0).Floor as real == t * 1000.0
  }

  /** Exactly when the start sent is no later than the position it is for: it is rounded
      down, or a whole millisecond lies between the two. */
  lemma SentInTime(start: real, position: real)
    requires start <= position
    ensures Sent(start) <= position <==> RoundsDown(start) || NextMillisecond(start) <= position
  {
  }

  /** For an exact seek the start is the position, and only rounding down will do. */
  lemma ExactSentInTime(position: real)
    ensures Sent(position) <= position <==> RoundsDown(position)
  {
  }

  /** Positions in whole milliseconds are never missed. */
  lemma WholeSentInTime(start: real, position: real)
    requires start <= position && WholeMillisecond(position)
    ensures Sent(start) <= position
  {
    FloorGrows(start * 1000.0, position * 1000.0);
  }

  lemma FloorGrows(x: real, y: real)
    requires x <= y
    ensures x.Floor <= y.Floor
  {
  }

  /** The error is half a millisecond at most. */
  lemma SentIsNear(start: real)
    ensures -0.0005 <= Sent(start) - start <= 0.0005
  {
  }

  /** The media server prints the start it was sent once more for ffmpeg: unchanged. */
  lemma SentTwice(start: real)
    ensures Sent(Sent(start)) == Sent(start) && WholeMillisecond(Sent(start))
  {
    hide Nearest;
    var n := Nearest(start * 1000.0);
    assert n as real / 1000.0 * 1000.0 == n as real;
    WholeNearest(n);
  }

  lemma WholeNearest(n: int)
    ensures Nearest(n as real) == n && (n as real).Floor == n
  {
  }

  /** An exact seek that starts the stream after the wanted position. */
  lemma ExactSeekTooLate()
    ensures Sent(12.0006) == 12.001 > 12.0006
  {
    assert (12.0006 * 1000.0).Floor == 12000;
  }

  /** A keyframe that is sent as a start behind itself, so that the stream opens on a
      later one. */
  lemma KeyframeMissed()
    ensures Sent(1371.370667) == 1371.371 > 1371.370667
  {
    assert (1371.370667 * 1000.0).Floor == 1371370;
  }

  // ---- DLNA and AirPlay ---------------------------------------------------------------------

  /** `keyframe_start`: rounded down before it is sent. */
  function KeyframeStart(keyframe: real): real {
    (keyframe * 1000.0).Floor as real / 1000.0
  }

  /** So the keyframe itself is never behind the start, and less than a millisecond is
      lost. */
  lemma KeyframeStartIsSent(keyframe: real)
    ensures Sent(KeyframeStart(keyframe)) == KeyframeStart(keyframe) <= keyframe < KeyframeStart(keyframe) + 0.001
  {
    assert KeyframeStart(keyframe) * 1000.0 == (keyframe * 1000.0).Floor as real;
  }

  /** `stream_start` of the daemon. */
  function StreamStart(position: real, exact: bool, output: Option<string>): real {
    if exact then position
    else match KeyframeAt(position, output) case None => position case Some(k) => KeyframeStart(k)
  }

  /** The renderer's stream starts at the position for an exact seek or without ffprobe,
      and otherwise at the last keyframe no later, less than a millisecond early. */
  lemma StreamStartIsKeyframe(position: real, exact: bool, output: Option<string>, keyframe: real)
    requires position > 0.0
    ensures exact || output.None? ==> StreamStart(position, exact, output) == position
    ensures !exact && output.Some? && IsBest(Lines(output.value), position, Some(keyframe)) ==>
      StreamStart(position, exact, output) <= keyframe < StreamStart(position, exact, output) + 0.001
      && WholeMillisecond(StreamStart(position, exact, output))
  {
    hide Lines, KeyframeIn, Latest, Nearest;
    KeyframeFound(position, output);
    KeyframeStartIsSent(keyframe);
    WholeStart(keyframe);
  }

  lemma WholeStart(keyframe: real)
    ensures WholeMillisecond(KeyframeStart(keyframe))
  {
    assert KeyframeStart(keyframe) * 1000.0 == (keyframe * 1000.0).Floor as real;
    WholeNearest((keyframe * 1000.0).Floor);
  }

  /** What the renderer's stream begins with: at or before the position, unless the
      position itself is sent and rounded up. */
  lemma StreamStartInTime(position: real, exact: bool, output: Option<string>)
    requires position >= 0.0
    ensures Sent(StreamStart(position, exact, output)) <= position <==>
      RoundsDown(position) || (!exact && output.Some?)
  {
    hide Latest, Lines;
    KeyframeIsNotLater(position, output);
    if !exact && KeyframeAt(position, output).Some? {
      KeyframeStartIsSent(KeyframeAt(position, output).value);
    }
  }
}
