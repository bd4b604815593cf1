/** The VW1871 frame extractor (`vw1871_frame_extractor.py`): turns one
    notification, as a hex string, into the wM-Bus frames it carries.  The
    rule is chosen by the total hex length of the notification (118/140,
    192, 488, anything else); the candidates are then kept only if they
    start with one of the two Kamstrup anchors and carry the FlowIQ2101
    meter id. */
module FrameExtractor {
  import opened HexText
  import TelegramLine

  /** Anchor of a compact frame (length byte 0x25) and its window in hex digits. */
  const CompactAnchor: string := "25442D2C"
  const CompactLen: nat := 76
  /** Anchor of a full frame (length byte 0x30) and its window in hex digits. */
  const FullAnchor: string := "30442D2C"
  const FullLen: nat := 98
  /** The concentrator's start and end delimiters. */
  const StartMarker: string := "FBFBFBF0"
  const EndMarker: string := "FEFE0E0F"
  /** Meter 74493770, as it appears little-endian inside a frame. */
  const MeterId: string := "703749741F16"

  // ---------------------------------------------------------------------
  // Reading a line
  // ---------------------------------------------------------------------

  /** `extract_telegram_data`: the field of a `telegram=|HEX|` line,
      otherwise a line that is all hex after stripping, upper-cased. */
  function ExtractTelegramData(line: string): (r: Option<string>)
    ensures r.Some? ==> r.value != [] && AllUpperHex(r.value)
  {
    match TelegramLine.TelegramField(line)
    case Some(f) => UpperOfHex(f); Some(Upper(f))
    case None =>
      var t := Strip(line);
      if t != [] && AllHex(t) then UpperOfHex(t); Some(Upper(t)) else None
  }

  /** What the extractor writes is what it reads back. */
  lemma ExtractWrittenLine(f: string, rest: string)
    requires f != [] && AllUpperHex(f)
    ensures ExtractTelegramData(TelegramLine.Tag + f + "|" + rest) == Some(f)
  {
    TelegramLine.FieldRoundTrip(f, rest);
    UpperOfUpperHex(f);
  }

  /** A line without a field is accepted exactly when it is hex after stripping. */
  lemma ExtractBareHex(line: string)
    requires TelegramLine.TelegramField(line).None?
    ensures ExtractTelegramData(line).Some? <==> Strip(line) != [] && AllHex(Strip(line))
    ensures ExtractTelegramData(line).Some? ==> ExtractTelegramData(line).value == Upper(Strip(line))
  {
  }

  // ---------------------------------------------------------------------
  // The three length rules
  // ---------------------------------------------------------------------

  predicate HasAnchor(s: string) {
    Contains(s, CompactAnchor) || Contains(s, FullAnchor)
  }

  predicate IsWrapped(hex: string) {
    StartsWith(hex, StartMarker) && EndsWith(hex, EndMarker)
  }

  /** `extract_frames_59_70_bytes`. */
  function Frames5970(hex: string): seq<string> {
    if |hex| == 118 then
      if IsWrapped(hex) then
        var frame := hex[8..|hex| - 8];
        if |frame| >= CompactLen then [frame] else []
      else if HasAnchor(hex) then [hex] else []
    else if |hex| == 140 then
      if IsWrapped(hex) then
        var frame := hex[8..|hex| - 8];
        if |frame| >= FullLen then [frame] else []
      else if HasAnchor(hex) then [hex] else []
    else []
  }

  /** The 59/70 rule: a wrapped notification yields exactly its inside, an
      unwrapped one yields itself exactly when it holds an anchor. */
  lemma Rule5970(hex: string)
    requires |hex| == 118 || |hex| == 140
    ensures |Frames5970(hex)| <= 1
    ensures IsWrapped(hex) ==> Frames5970(hex) == [hex[8..|hex| - 8]]
    ensures IsWrapped(hex) ==> |Frames5970(hex)[0]| == (if |hex| == 118 then 102 else 124)
    ensures !IsWrapped(hex) ==> (Frames5970(hex) == [hex] <==> HasAnchor(hex))
    ensures !IsWrapped(hex) && !HasAnchor(hex) ==> Frames5970(hex) == []
  {
  }

  /** `extract_frames_96_bytes`. */
  function Frames96(hex: string): seq<string> {
    if |hex| == 192 && |hex| > 116 then
      var frame := hex[108..|hex| - 8];
      if |frame| >= CompactLen && HasAnchor(frame) then [frame] else []
    else []
  }

  /** The 96 rule: at most one frame, the 76 digits at [108, 184), holding an anchor. */
  lemma Rule96(hex: string)
    requires |hex| == 192
    ensures |Frames96(hex)| <= 1
    ensures Frames96(hex) != [] ==> Frames96(hex)[0] == hex[108..184]
    ensures Frames96(hex) != [] ==> |Frames96(hex)[0]| == CompactLen
    ensures Frames96(hex) != [] <==> HasAnchor(hex[108..184])
  {
  }

  // ---------------------------------------------------------------------
  // The 244 scan
  // ---------------------------------------------------------------------

  datatype Kind = Compact | Full

  function AnchorOf(k: Kind): string {
    match k
    case Compact => CompactAnchor
    case Full => FullAnchor
  }

  function WindowLen(k: Kind): nat {
    match k
    case Compact => CompactLen
    case Full => FullLen
  }

  predicate AnchorAt(data: string, i: nat) {
    OccursAt(data, CompactAnchor, i) || OccursAt(data, FullAnchor, i)
  }

  datatype Hit = Hit(at: nat, kind: Kind)

  /** The choice between the two `find` results: the nearer anchor, the
      compact one when only it was found or it lies strictly first. */
  function Nearer(c: Option<nat>, f: Option<nat>): (r: Option<Hit>)
    ensures r.None? <==> c.None? && f.None?
    ensures r.Some? ==> (r.value.kind == Compact && c == Some(r.value.at)) ||
                        (r.value.kind == Full && f == Some(r.value.at))
    ensures r.Some? ==> (r.value.kind == Compact <==> c.Some? && (f.None? || c.value < f.value))
    ensures r.Some? && c.Some? ==> r.value.at <= c.value
    ensures r.Some? && f.Some? ==> r.value.at <= f.value
  {
    if c.Some? && f.Some? then
      if c.value < f.value then Some(Hit(c.value, Compact)) else Some(Hit(f.value, Full))
    else if c.Some? then Some(Hit(c.value, Compact))
    else if f.Some? then Some(Hit(f.value, Full))
    else None
  }

  /** The two `find` calls at `pos` and the choice of the nearer anchor:
      the first anchor of either kind at or after `pos`. */
  function NextAnchor(data: string, pos: nat): (r: Option<Hit>)
    requires pos <= |data|
    ensures r.Some? ==> pos <= r.value.at && OccursAt(data, AnchorOf(r.value.kind), r.value.at)
    ensures r.Some? ==> forall j :: pos <= j < r.value.at ==> !AnchorAt(data, j)
    ensures r.None? ==> forall j :: pos <= j ==> !AnchorAt(data, j)
  {
    Nearer(Find(data, CompactAnchor, pos), Find(data, FullAnchor, pos))
  }

  /** A cut window [start, end) of the scanned text. */
  datatype Window = Window(start: nat, end: nat)

  /** A window that starts at an anchor and spans exactly that anchor's length. */
  predicate GoodWindow(data: string, w: Window) {
    w.end <= |data| &&
    ((OccursAt(data, CompactAnchor, w.start) && w.end == w.start + CompactLen) ||
     (OccursAt(data, FullAnchor, w.start) && w.end == w.start + FullLen))
  }

  /** One turn of the scan loop with the cursor at `pos`: the window it cuts,
      or `None` when it breaks (cursor at the end, no anchor left, or the
      nearest anchor's window runs past the end). */
  function Step(data: string, pos: nat): (r: Option<Window>)
    requires pos <= |data|
    ensures r.Some? ==> pos <= r.value.start && GoodWindow(data, r.value)
    ensures r.Some? ==> forall j :: pos <= j < r.value.start ==> !AnchorAt(data, j)
  {
    if pos == |data| then None
    else
      match NextAnchor(data, pos)
      case None => None
      case Some(h) =>
        var e := h.at + WindowLen(h.kind);
        if e <= |data| then Some(Window(h.at, e)) else None
  }

  /** The loop breaks only at the end of the text, when no anchor is left,
      or when the nearest anchor's window would run past the end. */
  lemma StepNone(data: string, pos: nat)
    requires pos <= |data| && Step(data, pos).None?
    ensures pos == |data| || NextAnchor(data, pos).None? ||
            NextAnchor(data, pos).value.at + WindowLen(NextAnchor(data, pos).value.kind) > |data|
  {
  }

  /** The windows the scan cuts, starting with the cursor at `pos`. */
  function Windows(data: string, pos: nat): seq<Window>
    requires pos <= |data|
    decreases |data| - pos
  {
    match Step(data, pos)
    case None => []
    case Some(w) => [w] + Windows(data, w.end)
  }

  /** Every window is well formed and lies after the cursor, and windows
      come in strictly increasing order without overlapping. */
  lemma {:induction false} WindowsShape(data: string, pos: nat)
    requires pos <= |data|
    ensures forall k :: 0 <= k < |Windows(data, pos)| ==>
              pos <= Windows(data, pos)[k].start && GoodWindow(data, Windows(data, pos)[k])
    ensures forall k, l :: 0 <= k < l < |Windows(data, pos)| ==>
              Windows(data, pos)[k].end <= Windows(data, pos)[l].start
    decreases |data| - pos
  {
    match Step(data, pos)
    case None =>
    case Some(w) =>
      WindowsShape(data, w.end);
      var ws := Windows(data, pos);
      assert ws == [w] + Windows(data, w.end);
  }

  /** Where the scan stops: the end of the last window, or `pos`. */
  function ScanEnd(data: string, pos: nat): (e: nat)
    requires pos <= |data|
    ensures pos <= e <= |data|
    decreases |data| - pos
  {
    match Step(data, pos)
    case None => pos
    case Some(w) => ScanEnd(data, w.end)
  }

  /** The scan stops where the loop breaks, and every window ends before
      that point: no frame is cut from the anchor that stopped it or from
      any later one. */
  lemma {:induction false} ScanStops(data: string, pos: nat)
    requires pos <= |data|
    ensures Step(data, ScanEnd(data, pos)).None?
    ensures forall k :: 0 <= k < |Windows(data, pos)| ==>
              Windows(data, pos)[k].end <= ScanEnd(data, pos)
    decreases |data| - pos
  {
    match Step(data, pos)
    case None =>
    case Some(w) =>
      ScanStops(data, w.end);
      var ws := Windows(data, pos);
      assert ws == [w] + Windows(data, w.end);
      assert w.end <= ScanEnd(data, w.end);
  }

  /** No anchor is skipped: every anchor between the cursor and the point
      where the scan stops lies inside one of the cut windows. */
  lemma {:induction false} ScanCoversAnchors(data: string, pos: nat, q: nat)
    requires pos <= |data|
    requires pos <= q < ScanEnd(data, pos) && AnchorAt(data, q)
    ensures exists k :: 0 <= k < |Windows(data, pos)| &&
              Windows(data, pos)[k].start <= q < Windows(data, pos)[k].end
    decreases |data| - pos
  {
    var w := Step(data, pos).value;
    var ws := Windows(data, pos);
    assert ws == [w] + Windows(data, w.end);
    if q >= w.end {
      ScanCoversAnchors(data, w.end, q);
      var k :| 0 <= k < |Windows(data, w.end)| && Windows(data, w.end)[k].start <= q < Windows(data, w.end)[k].end;
      assert ws[k + 1] == Windows(data, w.end)[k];
    } else {
      assert ws[0].start <= q < ws[0].end;
    }
  }

  /** The frames the scan cuts, starting with the cursor at `pos`. */
  function ScanFrames(data: string, pos: nat): seq<string>
    requires pos <= |data|
    decreases |data| - pos
  {
    match Step(data, pos)
    case None => []
    case Some(w) => [data[w.start..w.end]] + ScanFrames(data, w.end)
  }

  lemma ScanFramesStep(data: string, pos: nat)
    requires pos <= |data| && Step(data, pos).Some?
    ensures var w := Step(data, pos).value;
            ScanFrames(data, pos) == [data[w.start..w.end]] + ScanFrames(data, w.end)
  {
  }

  /** The frames `extract_frames_244_bytes` returns for `hex`. */
  function Scan244(hex: string): seq<string> {
    ScanFrames(Upper(hex), 0)
  }

  /** `extract_frames_244_bytes`: the left-to-right scan over the
      upper-cased text, cutting a 76-digit window at a compact anchor and a
      98-digit window at a full anchor, and moving the cursor past it. */
  method ExtractFrames244(hexData: string) returns (frames: seq<string>)
    ensures frames == Scan244(hexData)
  {
    var data := Upper(hexData);
    frames := ScanLoop(data);
  }

  /** The scan loop of `extract_frames_244_bytes` over the upper-cased text. */
  method ScanLoop(data: string) returns (frames: seq<string>)
    ensures frames == ScanFrames(data, 0)
  {
    frames := [];
    var pos := 0;
    while pos < |data|
      invariant pos <= |data|
      invariant frames + ScanFrames(data, pos) == ScanFrames(data, 0)
      decreases |data| - pos
    {
      var window := NextWindow(data, pos);
      if window.None? {
        break;
      }
      var w := window.value;
      AppendAssoc(frames, [data[w.start..w.end]], ScanFrames(data, w.end));
      frames := frames + [data[w.start..w.end]];
      pos := w.end;
    }
  }

  /** One turn of the scan loop: the two `find` calls, the choice of the
      nearer anchor and the test that its window fits. */
  method NextWindow(data: string, pos: nat) returns (window: Option<Window>)
    requires pos < |data|
    ensures window == Step(data, pos)
  {
    var compactPos := Find(data, CompactAnchor, pos);
    var fullPos := Find(data, FullAnchor, pos);
    var nextPos: nat;
    var kind: Kind;
    if compactPos.Some? && fullPos.Some? {
      if compactPos.value < fullPos.value {
        nextPos, kind := compactPos.value, Compact;
      } else {
        nextPos, kind := fullPos.value, Full;
      }
    } else if compactPos.Some? {
      nextPos, kind := compactPos.value, Compact;
    } else if fullPos.Some? {
      nextPos, kind := fullPos.value, Full;
    } else {
      return None;
    }
    assert Nearer(compactPos, fullPos) == Some(Hit(nextPos, kind));
    var len := if kind == Compact then CompactLen else FullLen;
    assert len == WindowLen(kind);
    if nextPos + len <= |data| {
      return Some(Window(nextPos, nextPos + len));
    }
    return None;
  }

  /** The scan's frames are the texts of its windows. */
  lemma {:induction false} ScanFramesAreWindows(data: string, pos: nat)
    requires pos <= |data|
    ensures |ScanFrames(data, pos)| == |Windows(data, pos)|
    ensures forall k :: 0 <= k < |Windows(data, pos)| ==>
              Windows(data, pos)[k].start <= Windows(data, pos)[k].end <= |data| &&
              ScanFrames(data, pos)[k] == data[Windows(data, pos)[k].start..Windows(data, pos)[k].end]
    decreases |data| - pos
  {
    match Step(data, pos)
    case None =>
    case Some(w) =>
      ScanFramesAreWindows(data, w.end);
      assert Windows(data, pos) == [w] + Windows(data, w.end);
      assert ScanFrames(data, pos) == [data[w.start..w.end]] + ScanFrames(data, w.end);
  }

  /** A compact frame (anchor 25442D2C, 76 digits) or a full frame (anchor
      30442D2C, 98 digits). */
  predicate IsScanFrame(f: string) {
    (StartsWith(f, CompactAnchor) && |f| == CompactLen) ||
    (StartsWith(f, FullAnchor) && |f| == FullLen)
  }

  /** The text of a good window is a compact or a full frame. */
  lemma GoodWindowFrame(data: string, w: Window)
    requires GoodWindow(data, w) && w.start <= w.end
    ensures IsScanFrame(data[w.start..w.end])
  {
    if OccursAt(data, CompactAnchor, w.start) && w.end == w.start + CompactLen {
      SliceOfSlice(data, w.start, w.end, 0, |CompactAnchor|);
    } else {
      SliceOfSlice(data, w.start, w.end, 0, |FullAnchor|);
    }
  }

  /** Every frame of the scan is a compact or a full frame. */
  lemma Scan244Frames(hex: string)
    ensures forall f :: f in Scan244(hex) ==> IsScanFrame(f)
  {
    var data := Upper(hex);
    WindowsShape(data, 0);
    ScanFramesAreWindows(data, 0);
    var ws := Windows(data, 0);
    var fs := ScanFrames(data, 0);
    forall k | 0 <= k < |fs| ensures IsScanFrame(fs[k]) {
      GoodWindowFrame(data, ws[k]);
    }
  }

  /** The first byte of a hex frame. */
  function LengthByte(f: string): byte
    requires |f| >= 2 && IsHexDigit(f[0]) && IsHexDigit(f[1])
  {
    16 * DigitValue(f[0]) + DigitValue(f[1])
  }

  /** The window lengths agree with the wM-Bus length field: a frame's first
      byte is its byte count minus one (0x25 = 38 - 1, 0x30 = 49 - 1). */
  lemma AnchorLengthByte(f: string)
    requires IsScanFrame(f)
    ensures LengthByte(f) + 1 == |f| / 2
  {
    assert f[0] == f[..8][0] && f[1] == f[..8][1];
  }

  // ---------------------------------------------------------------------
  // Dispatch and validation
  // ---------------------------------------------------------------------

  /** The candidates of `extract_wmbus_frames`, before validation: the rule is
      chosen by the total hex length. */
  function Candidates(hex: string): seq<string> {
    if |hex| == 118 || |hex| == 140 then Frames5970(hex)
    else if |hex| == 192 then Frames96(hex)
    else if |hex| == 488 then Scan244(hex)
    else if HasAnchor(hex) then Scan244(hex)
    else []
  }

  /** `validate_frame`. */
  predicate ValidateFrame(frame: string) {
    |frame| >= 20 &&
    (StartsWith(frame, CompactAnchor) || StartsWith(frame, FullAnchor)) &&
    Contains(frame, MeterId)
  }

  /** The candidates that pass validation, in their original order. */
  function KeepValid(frames: seq<string>): seq<string> {
    if frames == [] then []
    else KeepValid(frames[..|frames| - 1]) +
         (if ValidateFrame(frames[|frames| - 1]) then [frames[|frames| - 1]] else [])
  }

  /** `KeepValid` keeps exactly the valid candidates and respects concatenation,
      hence order. */
  lemma {:induction false} KeepValidSpec(frames: seq<string>)
    ensures forall f :: f in KeepValid(frames) <==> f in frames && ValidateFrame(f)
    ensures |KeepValid(frames)| <= |frames|
  {
    if frames != [] {
      var init := frames[..|frames| - 1];
      KeepValidSpec(init);
      assert frames == init + [frames[|frames| - 1]];
    }
  }

  lemma {:induction false} KeepValidAppend(a: seq<string>, b: seq<string>)
    ensures KeepValid(a + b) == KeepValid(a) + KeepValid(b)
    decreases |b|
  {
    if b == [] {
      assert a + b == a;
    } else {
      var init := b[..|b| - 1];
      assert (a + b)[..|a + b| - 1] == a + init;
      KeepValidAppend(a, init);
    }
  }

  /** The frames `extract_wmbus_frames` returns for a notification. */
  function WmbusFrames(hex: string): seq<string> {
    KeepValid(Candidates(hex))
  }

  /** `extract_wmbus_frames`: dispatch on the total length, then the
      validation loop. */
  method ExtractWmbusFrames(hexData: string) returns (valid: seq<string>)
    ensures valid == WmbusFrames(hexData)
  {
    var dataLen := |hexData|;
    var frames: seq<string> := [];
    if dataLen == 118 || dataLen == 140 {
      frames := Frames5970(hexData);
    } else if dataLen == 192 {
      frames := Frames96(hexData);
    } else if dataLen == 488 {
      frames := ExtractFrames244(hexData);
    } else {
      if HasAnchor(hexData) {
        frames := ExtractFrames244(hexData);
      }
    }
    valid := [];
    for i := 0 to |frames|
      invariant valid == KeepValid(frames[..i])
    {
      assert frames[..i + 1][..i] == frames[..i];
      if ValidateFrame(frames[i]) {
        valid := valid + [frames[i]];
      }
    }
    assert frames[..|frames|] == frames;
  }

  /** Every frame returned passes validation: at least 20 digits, an anchor
      at the start and the meter id somewhere. */
  lemma WmbusFramesValid(hex: string)
    ensures forall f :: f in WmbusFrames(hex) ==>
              |f| >= 20 && (StartsWith(f, CompactAnchor) || StartsWith(f, FullAnchor)) &&
              Contains(f, MeterId)
  {
    KeepValidSpec(Candidates(hex));
  }

  /** The rule depends on the total length only: 118 and 140 digits go to
      the 59/70 rule, 192 to the 96 rule (each giving at most one frame),
      488 or an unknown length with an anchor to the 244 scan, and an
      unknown length without an anchor yields nothing. */
  lemma DispatchByLength(hex: string)
    ensures |hex| == 118 || |hex| == 140 ==> WmbusFrames(hex) == KeepValid(Frames5970(hex))
    ensures |hex| == 192 ==> WmbusFrames(hex) == KeepValid(Frames96(hex))
    ensures |hex| !in {118, 140, 192, 488} && !HasAnchor(hex) ==> WmbusFrames(hex) == []
    ensures |hex| in {118, 140, 192} ==> |WmbusFrames(hex)| <= 1
    ensures |hex| == 488 || (|hex| !in {118, 140, 192} && HasAnchor(hex)) ==>
              WmbusFrames(hex) == KeepValid(Scan244(hex))
  {
    KeepValidSpec(Candidates(hex));
    if |hex| == 118 || |hex| == 140 {
      Rule5970(hex);
    } else if |hex| == 192 {
      Rule96(hex);
    }
  }

  /** On text whose upper-cased form holds no anchor the scan cuts nothing,
      so for upper-case input the anchor guard of the fallback only skips
      work the scan would not do. */
  lemma NoAnchorNoScan(hex: string)
    requires !HasAnchor(Upper(hex))
    ensures Scan244(hex) == []
  {
    var data := Upper(hex);
    ContainsIff(data, CompactAnchor);
    ContainsIff(data, FullAnchor);
  }

  /** A wrapped 59/70-byte notification only yields a frame when its ninth
      to sixteenth digits are an anchor: the two header bytes after the
      start marker are not removed by this rule. */
  lemma WrappedNeedsAnchorAfterMarker(hex: string)
    requires (|hex| == 118 || |hex| == 140) && IsWrapped(hex)
    ensures WmbusFrames(hex) != [] ==>
              hex[8..16] == CompactAnchor || hex[8..16] == FullAnchor
  {
    Rule5970(hex);
    var frame := hex[8..|hex| - 8];
    KeepValidSpec(Candidates(hex));
    if WmbusFrames(hex) != [] {
      assert WmbusFrames(hex)[0] in WmbusFrames(hex);
      assert ValidateFrame(frame);
      SliceOfSlice(hex, 8, |hex| - 8, 0, 8);
    }
  }

  // ---------------------------------------------------------------------
  // The extractor object and its counters
  // ---------------------------------------------------------------------

  /** Whether `process_line` skips a stripped line before reading it. */
  predicate Skipped(line: string) {
    line == [] || StartsWith(line, "2025-") || Contains(line, "INFO")
  }

  /** The frames `process_line` returns for a raw line. */
  function LineFrames(line: string): seq<string> {
    var t := Strip(line);
    if Skipped(t) then []
    else
      match ExtractTelegramData(t)
      case None => []
      case Some(hex) => WmbusFrames(hex)
  }

  /** Skipped lines yield nothing. */
  lemma SkippedLinesYieldNothing(line: string)
    requires Skipped(Strip(line))
    ensures LineFrames(line) == []
  {
  }

  class VW1871FrameExtractor {
    /** Lines that yielded at least one frame. */
    var processedCount: nat
    /** Frames yielded over all lines. */
    var extractedFrames: nat

    constructor ()
      ensures processedCount == 0 && extractedFrames == 0
    {
      processedCount := 0;
      extractedFrames := 0;
    }

    /** `process_line`. */
    method ProcessLine(rawLine: string) returns (frames: seq<string>)
      modifies this
      ensures frames == LineFrames(rawLine)
      ensures frames != [] ==> processedCount == old(processedCount) + 1
      ensures frames != [] ==> extractedFrames == old(extractedFrames) + |frames|
      ensures frames == [] ==> processedCount == old(processedCount) && extractedFrames == old(extractedFrames)
    {
      var line := Strip(rawLine);
      if line == [] || StartsWith(line, "2025-") || Contains(line, "INFO") {
        assert Skipped(line);
        return [];
      }
      var hexData := ExtractTelegramData(line);
      if hexData.None? {
        return [];
      }
      assert LineFrames(rawLine) == WmbusFrames(hexData.value);
      frames := ExtractWmbusFrames(hexData.value);
      if frames != [] {
        processedCount := processedCount + 1;
        extractedFrames := extractedFrames + |frames|;
      }
    }
  }

  /** The frames the scan cuts from upper-case hex are hex. */
  lemma ScanIsHex(hex: string)
    requires AllUpperHex(hex)
    ensures forall f :: f in Scan244(hex) ==> AllHex(f)
  {
    UpperOfUpperHex(hex);
    ScanFramesAreWindows(hex, 0);
    var ws := Windows(hex, 0);
    var fs := ScanFrames(hex, 0);
    forall k | 0 <= k < |fs| ensures AllHex(fs[k]) {
      var w := ws[k];
      forall i | 0 <= i < w.end - w.start ensures IsHexDigit(fs[k][i]) {
        assert fs[k][i] == hex[w.start + i];
      }
    }
  }

  /** The candidates cut from upper-case hex are hex: each is the text
      itself or a slice of it. */
  lemma CandidatesAreHex(hex: string)
    requires AllUpperHex(hex)
    ensures forall f :: f in Candidates(hex) ==> AllHex(f)
  {
    if |hex| == 118 || |hex| == 140 {
      Rule5970(hex);
    } else if |hex| == 192 {
      Rule96(hex);
    } else {
      ScanIsHex(hex);
    }
  }

  /** Every frame of a line is non-empty hex, so the line `process_stream`
      writes for it reads back as that frame. */
  lemma FrameIsHex(line: string, f: string)
    requires f in LineFrames(line)
    ensures f != [] && AllHex(f)
    ensures TelegramLine.TelegramField(TelegramLine.OutputLine(f)) == Some(f)
  {
    var t := Strip(line);
    var hex := ExtractTelegramData(t).value;
    KeepValidSpec(Candidates(hex));
    CandidatesAreHex(hex);
    TelegramLine.OutputRoundTrip(f);
  }
}
