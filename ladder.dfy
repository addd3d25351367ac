/** The pure half of the RTMP ingest core (server/src/lib/nms.ts): the fixed
    table of quality presets, the ladder of presets a stream of a given height
    gets, the probe's fallback resolution, the encoder options of one rendition
    and the text of the HLS master playlist (sections 4.3.1.1, 4.3.1.2 and
    4.3.4.2 of RFC 8216). */
module Ladder {
  import opened Wrappers
  import opened Strings

  datatype QualityPreset = QualityPreset(name: string, width: nat, height: nat, bitrate: nat, fps: nat)

  /** The preset table, tallest first. */
  const Presets: seq<QualityPreset> := [
    QualityPreset("1080p", 1920, 1080, 4000000, 30),
    QualityPreset("720p", 1280, 720, 2500000, 30),
    QualityPreset("480p", 854, 480, 1000000, 30),
    QualityPreset("360p", 640, 360, 500000, 30)
  ]

  ghost predicate StrictlyDescending(t: seq<QualityPreset>) {
    forall i, j :: 0 <= i < j < |t| ==> t[i].height > t[j].height
  }

  lemma PresetsDescending()
    ensures StrictlyDescending(Presets)
  {
  }

  /** `t.filter(p => p.height <= h)`: exactly the presets of `t` no taller
      than `h`, none added and none altered. */
  function FilterByHeight(t: seq<QualityPreset>, h: int): (r: seq<QualityPreset>)
    ensures |r| <= |t|
    ensures forall p :: p in r <==> p in t && p.height <= h
  {
    if t == [] then []
    else if t[0].height <= h then [t[0]] + FilterByHeight(t[1..], h)
    else FilterByHeight(t[1..], h)
  }

  /** On a table that strictly descends in height the filter keeps a suffix:
      once one preset fits, every later one does. */
  lemma {:induction false} FilterOfDescendingIsSuffix(t: seq<QualityPreset>, h: int)
    requires StrictlyDescending(t)
    ensures FilterByHeight(t, h) == t[|t| - |FilterByHeight(t, h)|..]
  {
    if t != [] {
      var tail := t[1..];
      DescendingTail(t);
      FilterOfDescendingIsSuffix(tail, h);
      if t[0].height <= h {
        TallestFitsAllFit(t, h);
        FilterKeepsAll(tail, h);
        assert [t[0]] + tail == t;
      } else {
        var r := FilterByHeight(tail, h);
        assert t[|t| - |r|..] == tail[|tail| - |r|..];
      }
    }
  }

  lemma DescendingTail(t: seq<QualityPreset>)
    requires t != [] && StrictlyDescending(t)
    ensures StrictlyDescending(t[1..])
  {
    var tail := t[1..];
    forall i, j | 0 <= i < j < |tail| ensures tail[i].height > tail[j].height {
      assert tail[i] == t[i + 1] && tail[j] == t[j + 1];
    }
  }

  /** When the tallest preset fits, every later one fits too. */
  lemma TallestFitsAllFit(t: seq<QualityPreset>, h: int)
    requires t != [] && StrictlyDescending(t) && t[0].height <= h
    ensures forall p :: p in t[1..] ==> p.height <= h
  {
    var tail := t[1..];
    forall p | p in tail ensures p.height <= h {
      var k :| 0 <= k < |tail| && tail[k] == p;
      assert t[k + 1] == p;
    }
  }

  lemma {:induction false} FilterKeepsAll(t: seq<QualityPreset>, h: int)
    requires forall p :: p in t ==> p.height <= h
    ensures FilterByHeight(t, h) == t
  {
    if t != [] {
      assert forall p :: p in t[1..] ==> p in t;
      FilterKeepsAll(t[1..], h);
    }
  }

  /** `getApplicableQualities(inputHeight)`. */
  function ApplicableQualities(inputHeight: int): (r: seq<QualityPreset>)
    ensures forall p :: p in r <==> p in Presets && p.height <= inputHeight
  {
    FilterByHeight(Presets, inputHeight)
  }

  /** The ladder is a suffix of the table, so it keeps the table's order; it is
      empty exactly when the stream is shorter than 360 lines. */
  lemma LadderIsSuffix(h: int)
    ensures var r := ApplicableQualities(h);
      r == Presets[|Presets| - |r|..] && (r == [] <==> h < 360)
  {
    PresetsDescending();
    FilterOfDescendingIsSuffix(Presets, h);
    var r := ApplicableQualities(h);
    if h >= 360 {
      assert Presets[3] in r;
    }
  }

  /** The default height gives the two lowest presets. */
  lemma DefaultLadder()
    ensures ApplicableQualities(DefaultResolution.height) == [Presets[2], Presets[3]]
  {
  }

  datatype Resolution = Resolution(width: int, height: int)

  /** What the probe would have reported for one stream of the input. */
  datatype StreamInfo = StreamInfo(codecType: string, width: Option<int>, height: Option<int>)

  /** Which outcome of the race between `ffprobe` and the five-second timer
      resolved first. */
  datatype ProbeOutcome = ProbeError | TimedOut | Probed(streams: seq<StreamInfo>)

  const DefaultResolution := Resolution(854, 480)

  function FirstVideo(streams: seq<StreamInfo>): (r: Option<StreamInfo>)
    ensures r.Some? ==> r.value in streams && r.value.codecType == "video"
    ensures r.None? ==> forall s :: s in streams ==> s.codecType != "video"
  {
    if streams == [] then None
    else if streams[0].codecType == "video" then Some(streams[0])
    else FirstVideo(streams[1..])
  }

  /** JavaScript truthiness of an optional number. */
  predicate Truthy(x: Option<int>) { x.Some? && x.value != 0 }

  /** `getStreamResolution`: the probed size of the first video stream, or
      854x480 when the probe errs or loses the race, when there is no video
      stream, or when its width or height is missing or zero. */
  function StreamResolution(probe: ProbeOutcome): (r: Resolution)
    ensures probe.Probed? && FirstVideo(probe.streams).Some?
            && Truthy(FirstVideo(probe.streams).value.width)
            && Truthy(FirstVideo(probe.streams).value.height)
        ==> r == Resolution(FirstVideo(probe.streams).value.width.value,
                            FirstVideo(probe.streams).value.height.value)
    ensures !(probe.Probed? && FirstVideo(probe.streams).Some?
              && Truthy(FirstVideo(probe.streams).value.width)
              && Truthy(FirstVideo(probe.streams).value.height))
        ==> r == DefaultResolution
  {
    match probe
    case Probed(streams) =>
      (match FirstVideo(streams)
       case Some(v) =>
         if Truthy(v.width) && Truthy(v.height) then Resolution(v.width.value, v.height.value)
         else DefaultResolution
       case None => DefaultResolution)
    case _ => DefaultResolution
  }

  /** `bitrate * 1.2`. Every preset bitrate is a multiple of 5; for those the
      double-precision product rounds to exactly 6/5 of the bitrate. */
  function MaxRate(bitrate: nat): nat
    requires bitrate % 5 == 0
  {
    bitrate / 5 * 6
  }

  /** One encoder option: a flag and its argument, written "flag argument". */
  datatype EncoderOption = EncoderOption(flag: string, argument: string)

  function Render(o: EncoderOption): string {
    o.flag + " " + o.argument
  }

  predicate NoSpace(s: string) {
    forall i :: 0 <= i < |s| ==> s[i] != ' '
  }

  /** The flags of one rendition, in the order the encoder receives them;
      the scene-change threshold is given twice. */
  const RenditionFlags: seq<string> :=
    [ "-c:v", "-c:a", "-b:a", "-b:v", "-maxrate", "-bufsize", "-vf", "-r", "-g",
      "-sc_threshold", "-preset", "-tune", "-sc_threshold", "-hls_time",
      "-hls_list_size", "-hls_segment_type", "-hls_flags",
      "-hls_start_number_source", "-strftime", "-f" ]

  /** The argument paired with each flag of `RenditionFlags`. */
  function RenditionArguments(q: QualityPreset): (r: seq<string>)
    requires q.bitrate % 5 == 0
    ensures |r| == |RenditionFlags|
  {
    [ "libx264", "aac", "128k",
      NatToDecimal(q.bitrate), NatToDecimal(MaxRate(q.bitrate)), NatToDecimal(q.bitrate),
      "scale=" + NatToDecimal(q.width) + ":" + NatToDecimal(q.height),
      NatToDecimal(q.fps), "30",
      "0", "ultrafast", "zerolatency", "0", "1",
      "3", "fmp4", "delete_segments+append_list+program_date_time+independent_segments",
      "epoch", "1", "hls" ]
  }

  function RenditionOptions(q: QualityPreset): (r: seq<EncoderOption>)
    requires q.bitrate % 5 == 0
    ensures |r| == |RenditionFlags|
    ensures forall k :: 0 <= k < |r| ==> r[k].flag == RenditionFlags[k]
  {
    var args := RenditionArguments(q);
    seq(|RenditionFlags|, i requires 0 <= i < |RenditionFlags| => EncoderOption(RenditionFlags[i], args[i]))
  }

  /** The option strings handed to the encoder for one rendition. */
  function EncoderOptions(q: QualityPreset): (r: seq<string>)
    requires q.bitrate % 5 == 0
  {
    var os := RenditionOptions(q);
    seq(|os|, i requires 0 <= i < |os| => Render(os[i]))
  }

  /** The text after `flag` and a space in the first option string that
      starts so: how the encoder reads its argument list. */
  function OptionArgument(opts: seq<string>, flag: string): Option<string> {
    if opts == [] then None
    else if StartsWith(opts[0], flag + " ") then Some(opts[0][|flag| + 1..])
    else OptionArgument(opts[1..], flag)
  }

  /** The argument of the first pair with this flag. */
  function Lookup(os: seq<EncoderOption>, flag: string): Option<string> {
    if os == [] then None
    else if os[0].flag == flag then Some(os[0].argument)
    else Lookup(os[1..], flag)
  }

  /** The text before the first space. */
  function FirstWord(s: string): string {
    if s == [] || s[0] == ' ' then [] else [s[0]] + FirstWord(s[1..])
  }

  lemma {:induction false} FirstWordOf(w: string, rest: string)
    requires NoSpace(w)
    ensures FirstWord(w + " " + rest) == w
  {
    if w != [] {
      assert (w + " " + rest)[1..] == w[1..] + " " + rest;
      FirstWordOf(w[1..], rest);
    } else {
      assert (w + " " + rest)[0] == ' ';
    }
  }

  lemma RenderedStartsWith(o: EncoderOption, flag: string)
    requires NoSpace(o.flag) && NoSpace(flag)
    ensures StartsWith(Render(o), flag + " ") <==> o.flag == flag
    ensures o.flag == flag ==> Render(o)[|flag| + 1..] == o.argument
  {
    var s := Render(o);
    if StartsWith(s, flag + " ") {
      var rest := s[|flag| + 1..];
      assert s == flag + " " + rest;
      FirstWordOf(flag, rest);
      FirstWordOf(o.flag, o.argument);
    }
  }

  lemma {:induction false} LookupAt(os: seq<EncoderOption>, flag: string, k: nat)
    requires k < |os| && os[k].flag == flag
    requires forall j :: 0 <= j < k ==> os[j].flag != flag
    ensures Lookup(os, flag) == Some(os[k].argument)
  {
    if k > 0 {
      LookupAt(os[1..], flag, k - 1);
    }
  }

  /** Rendering the pairs to strings loses nothing: the argument the encoder
      reads for a flag is the one paired with it. */
  lemma {:induction false} ReadBackRendered(os: seq<EncoderOption>, flag: string)
    requires forall k :: 0 <= k < |os| ==> NoSpace(os[k].flag)
    requires NoSpace(flag)
    ensures OptionArgument(seq(|os|, i requires 0 <= i < |os| => Render(os[i])), flag) == Lookup(os, flag)
  {
    var opts := seq(|os|, i requires 0 <= i < |os| => Render(os[i]));
    if os != [] {
      RenderedStartsWith(os[0], flag);
      assert opts[1..] == seq(|os[1..]|, i requires 0 <= i < |os[1..]| => Render(os[1..][i]));
      ReadBackRendered(os[1..], flag);
    }
  }

  lemma PlainFlags()
    ensures forall k :: 0 <= k < |RenditionFlags| ==> NoSpace(RenditionFlags[k])
  {
  }

  /** Where each flag the encoder's rate control and packaging depend on
      first appears. */
  lemma FirstPositions()
    ensures forall j :: 0 <= j < 3 ==> RenditionFlags[j] != "-b:v"
    ensures forall j :: 0 <= j < 4 ==> RenditionFlags[j] != "-maxrate"
    ensures forall j :: 0 <= j < 5 ==> RenditionFlags[j] != "-bufsize"
    ensures forall j :: 0 <= j < 6 ==> RenditionFlags[j] != "-vf"
    ensures forall j :: 0 <= j < 7 ==> RenditionFlags[j] != "-r"
    ensures forall j :: 0 <= j < 8 ==> RenditionFlags[j] != "-g"
    ensures forall j :: 0 <= j < 13 ==> RenditionFlags[j] != "-hls_time"
    ensures forall j :: 0 <= j < 14 ==> RenditionFlags[j] != "-hls_list_size"
  {
  }

  /** The encoder reads, for a flag first given at position `k`, the argument
      paired with it there. */
  lemma ReadBackAt(q: QualityPreset, k: nat)
    requires q.bitrate % 5 == 0
    requires k < |RenditionFlags|
    requires forall j :: 0 <= j < k ==> RenditionFlags[j] != RenditionFlags[k]
    ensures OptionArgument(EncoderOptions(q), RenditionFlags[k]) == Some(RenditionArguments(q)[k])
  {
    PlainFlags();
    var os := RenditionOptions(q);
    ReadBackRendered(os, RenditionFlags[k]);
    LookupAt(os, RenditionFlags[k], k);
  }

  /** Read back "-b:v": the video bitrate is the preset's. */
  lemma ReadBackBitrate(q: QualityPreset)
    requires q.bitrate % 5 == 0
    ensures OptionArgument(EncoderOptions(q), "-b:v") == Some(NatToDecimal(q.bitrate))
  {
    FirstPositions();
    assert RenditionFlags[3] == "-b:v";
    ReadBackAt(q, 3);
  }

  /** Read back "-maxrate": the rate cap is 6/5 of the preset bitrate. */
  lemma ReadBackMaxRate(q: QualityPreset)
    requires q.bitrate % 5 == 0
    ensures OptionArgument(EncoderOptions(q), "-maxrate") == Some(NatToDecimal(q.bitrate * 6 / 5))
  {
    FirstPositions();
    assert RenditionFlags[4] == "-maxrate";
    ReadBackAt(q, 4);
  }

  /** Read back "-bufsize": the rate-control buffer holds one second at the preset bitrate. */
  lemma ReadBackBufferSize(q: QualityPreset)
    requires q.bitrate % 5 == 0
    ensures OptionArgument(EncoderOptions(q), "-bufsize") == Some(NatToDecimal(q.bitrate))
  {
    FirstPositions();
    assert RenditionFlags[5] == "-bufsize";
    ReadBackAt(q, 5);
  }

  /** Read back "-vf": the picture is scaled to the preset's size. */
  lemma ReadBackScale(q: QualityPreset)
    requires q.bitrate % 5 == 0
    ensures OptionArgument(EncoderOptions(q), "-vf") == Some("scale=" + NatToDecimal(q.width) + ":" + NatToDecimal(q.height))
  {
    FirstPositions();
    assert RenditionFlags[6] == "-vf";
    ReadBackAt(q, 6);
  }

  /** Read back "-r": the frame rate is the preset's. */
  lemma ReadBackFrameRate(q: QualityPreset)
    requires q.bitrate % 5 == 0
    ensures OptionArgument(EncoderOptions(q), "-r") == Some(NatToDecimal(q.fps))
  {
    FirstPositions();
    assert RenditionFlags[7] == "-r";
    ReadBackAt(q, 7);
  }

  /** Read back "-g": a keyframe every 30 frames. */
  lemma ReadBackGop(q: QualityPreset)
    requires q.bitrate % 5 == 0
    ensures OptionArgument(EncoderOptions(q), "-g") == Some("30")
  {
    FirstPositions();
    assert RenditionFlags[8] == "-g";
    ReadBackAt(q, 8);
  }

  /** Read back "-hls_time": segments last one second. */
  lemma ReadBackSegmentLength(q: QualityPreset)
    requires q.bitrate % 5 == 0
    ensures OptionArgument(EncoderOptions(q), "-hls_time") == Some("1")
  {
    FirstPositions();
    assert RenditionFlags[13] == "-hls_time";
    ReadBackAt(q, 13);
  }

  /** Read back "-hls_list_size": the media playlist keeps three segments. */
  lemma ReadBackPlaylistSize(q: QualityPreset)
    requires q.bitrate % 5 == 0
    ensures OptionArgument(EncoderOptions(q), "-hls_list_size") == Some("3")
  {
    FirstPositions();
    assert RenditionFlags[14] == "-hls_list_size";
    ReadBackAt(q, 14);
  }

  function StreamInfLine(q: QualityPreset): string {
    "#EXT-X-STREAM-INF:BANDWIDTH=" + NatToDecimal(q.bitrate)
    + ",RESOLUTION=" + NatToDecimal(q.width) + "x" + NatToDecimal(q.height)
  }

  function UriLine(q: QualityPreset): string {
    q.name + "/index.m3u8"
  }

  function VariantLines(ladder: seq<QualityPreset>): (r: seq<string>)
    ensures |r| == 2 * |ladder|
    ensures forall k :: 0 <= k < |ladder| ==> r[2 * k] == StreamInfLine(ladder[k]) && r[2 * k + 1] == UriLine(ladder[k])
  {
    if ladder == [] then []
    else
      var rest := VariantLines(ladder[1..]);
      assert forall k :: 1 <= k < |ladder| ==> rest[2 * (k - 1)] == StreamInfLine(ladder[k]);
      [StreamInfLine(ladder[0]), UriLine(ladder[0])] + rest
  }

  function PlaylistLines(ladder: seq<QualityPreset>): seq<string> {
    ["#EXTM3U", "#EXT-X-VERSION:6"] + VariantLines(ladder)
  }

  /** The master playlist written to `<root>/<username>/index.m3u8`. */
  function MasterPlaylist(ladder: seq<QualityPreset>): string {
    Join(PlaylistLines(ladder), '\n')
  }

  lemma NoNewlineInDecimal(n: nat)
    ensures '\n' !in NatToDecimal(n)
  {
  }

  lemma StreamInfOneLine(q: QualityPreset)
    ensures '\n' !in StreamInfLine(q)
  {
    NoNewlineInDecimal(q.bitrate);
    NoNewlineInDecimal(q.width);
    NoNewlineInDecimal(q.height);
  }

  lemma {:induction false} VariantLinesOneLineEach(ladder: seq<QualityPreset>)
    requires forall q :: q in ladder ==> '\n' !in q.name
    ensures forall k :: 0 <= k < |VariantLines(ladder)| ==> '\n' !in VariantLines(ladder)[k]
  {
    if ladder != [] {
      var q := ladder[0];
      assert q in ladder;
      StreamInfOneLine(q);
      assert '\n' !in UriLine(q);
      var rest := VariantLines(ladder[1..]);
      assert VariantLines(ladder) == [StreamInfLine(q), UriLine(q)] + rest;
      assert forall q' :: q' in ladder[1..] ==> q' in ladder;
      VariantLinesOneLineEach(ladder[1..]);
    }
  }

  /** Read line by line, the playlist is the header `#EXTM3U`, the version
      line, then one `#EXT-X-STREAM-INF` line with the preset's bandwidth and
      resolution and one URI line `<name>/index.m3u8` per ladder entry, in
      ladder order: 2 + 2n lines in all. */
  lemma MasterPlaylistLines(ladder: seq<QualityPreset>)
    requires forall q :: q in ladder ==> '\n' !in q.name
    ensures var lines := Split(MasterPlaylist(ladder), '\n');
      && |lines| == 2 + 2 * |ladder|
      && lines[0] == "#EXTM3U" && lines[1] == "#EXT-X-VERSION:6"
      && forall k :: 0 <= k < |ladder| ==>
           lines[2 + 2 * k] == StreamInfLine(ladder[k]) && lines[3 + 2 * k] == UriLine(ladder[k])
  {
    var lines := PlaylistLines(ladder);
    VariantLinesOneLineEach(ladder);
    SplitJoin(lines, '\n');
  }
}
