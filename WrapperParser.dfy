/** The VW1871 wrapper parser (`vw1871_wrapper_parser.py`): finds the
    concentrator's wrapped frames `FBFBFBF0 <header> <payload> FEFE0E0F` in
    a byte string, splits each frame's content into a 2- or 3-byte header
    and the payload, and keeps statistics of the headers it has seen. */
module WrapperParser {
  import opened HexText

  datatype Result<T> = Success(value: T) | Failure(error: string)

  const StartMarker: seq<byte> := [0xFB, 0xFB, 0xFB, 0xF0]
  const EndMarker: seq<byte> := [0xFE, 0xFE, 0x0E, 0x0F]

  const OddLengthError: string := "Hex string must have even number of characters"

  lemma MarkerHex()
    ensures ToHex(StartMarker) == "FBFBFBF0"
    ensures ToHex(EndMarker) == "FEFE0E0F"
  {
    assert StartMarker[1..][1..][1..][1..] == [];
    assert EndMarker[1..][1..][1..][1..] == [];
  }

  // ---------------------------------------------------------------------
  // Interpreting a header
  // ---------------------------------------------------------------------

  function TypePart(b0: byte): string {
    if b0 == 0x11 then "Type: Standard frame (0x11)"
    else if b0 == 0x25 then "Type: Extended frame (0x25)"
    else "Type: Unknown (0x" + Hex2(b0) + ")"
  }

  function SeqPart(b1: byte): string {
    "Seq/Ctrl: 0x" + Hex2(b1) + " (" + Decimal(b1) + ")"
  }

  function ExtraPart(b2: byte): string {
    "Extra: 0x" + Hex2(b2)
  }

  /** The list `interpret_header` builds for a non-empty header. */
  function HeaderParts(header: seq<byte>): (parts: seq<string>)
    requires |header| >= 1
  {
    [TypePart(header[0])]
    + (if |header| >= 2 then [SeqPart(header[1])] else [])
    + (if |header| >= 3 then [ExtraPart(header[2])] else [])
  }

  /** Python `sep.join(parts)`. */
  function Join(parts: seq<string>, sep: string): string {
    if parts == [] then []
    else if |parts| == 1 then parts[0]
    else parts[0] + sep + Join(parts[1..], sep)
  }

  /** `interpret_header`. */
  function InterpretHeader(header: seq<byte>): string {
    if |header| == 0 then "Empty header" else Join(HeaderParts(header), " | ")
  }

  /** The number of times `c` occurs in `s`. */
  function CountOf(s: string, c: char): nat {
    if s == [] then 0 else (if s[0] == c then 1 else 0) + CountOf(s[1..], c)
  }

  lemma {:induction false} CountOfAppend(a: string, b: string, c: char)
    ensures CountOf(a + b, c) == CountOf(a, c) + CountOf(b, c)
  {
    if a == [] {
      assert a + b == b;
    } else {
      assert (a + b)[1..] == a[1..] + b;
      CountOfAppend(a[1..], b, c);
    }
  }

  lemma {:induction false} CountOfAbsent(s: string, c: char)
    requires forall i :: 0 <= i < |s| ==> s[i] != c
    ensures CountOf(s, c) == 0
  {
    if s != [] {
      CountOfAbsent(s[1..], c);
    }
  }

  /** Joining parts free of `|` with a one-bar separator leaves one bar
      between each two neighbouring parts, so the parts can be told apart. */
  lemma {:induction false} JoinBars(parts: seq<string>, sep: string)
    requires forall k :: 0 <= k < |parts| ==> CountOf(parts[k], '|') == 0
    requires CountOf(sep, '|') == 1
    ensures parts != [] ==> CountOf(Join(parts, sep), '|') == |parts| - 1
  {
    if |parts| > 1 {
      JoinBars(parts[1..], sep);
      CountOfAppend(parts[0] + sep, Join(parts[1..], sep), '|');
      CountOfAppend(parts[0], sep, '|');
    }
  }

  predicate NoBar(s: string) {
    forall i :: 0 <= i < |s| ==> s[i] != '|'
  }

  lemma NoBarAppend(a: string, b: string)
    requires NoBar(a) && NoBar(b)
    ensures NoBar(a + b)
  {
    forall i | 0 <= i < |a + b| ensures (a + b)[i] != '|' {
      if i >= |a| {
        assert (a + b)[i] == b[i - |a|];
      }
    }
  }

  lemma TypePartHasNoBar(b0: byte)
    ensures NoBar(TypePart(b0))
  {
    if b0 != 0x11 && b0 != 0x25 {
      NoBarAppend("Type: Unknown (0x", Hex2(b0));
      NoBarAppend("Type: Unknown (0x" + Hex2(b0), ")");
    }
  }

  lemma SeqPartHasNoBar(b1: byte)
    ensures NoBar(SeqPart(b1))
  {
    var a := "Seq/Ctrl: 0x" + Hex2(b1);
    var b := a + " (";
    var c := b + Decimal(b1);
    NoBarAppend("Seq/Ctrl: 0x", Hex2(b1));
    NoBarAppend(a, " (");
    NoBarAppend(b, Decimal(b1));
    NoBarAppend(c, ")");
  }

  lemma ExtraPartHasNoBar(b2: byte)
    ensures NoBar(ExtraPart(b2))
  {
    NoBarAppend("Extra: 0x", Hex2(b2));
  }

  lemma PartsHaveNoBar(header: seq<byte>)
    requires |header| >= 1
    ensures forall k :: 0 <= k < |HeaderParts(header)| ==> CountOf(HeaderParts(header)[k], '|') == 0
  {
    TypePartHasNoBar(header[0]);
    CountOfAbsent(TypePart(header[0]), '|');
    if |header| >= 2 {
      SeqPartHasNoBar(header[1]);
      CountOfAbsent(SeqPart(header[1]), '|');
    }
    if |header| >= 3 {
      ExtraPartHasNoBar(header[2]);
      CountOfAbsent(ExtraPart(header[2]), '|');
    }
  }

  /** `interpret_header` names an empty header, and otherwise joins one part
      per header byte up to three, the first naming the frame type. */
  lemma InterpretHeaderShape(header: seq<byte>)
    ensures |header| == 0 ==> InterpretHeader(header) == "Empty header"
    ensures |header| >= 1 ==>
              CountOf(InterpretHeader(header), '|') + 1 == (if |header| < 3 then |header| else 3)
    ensures |header| >= 1 ==> StartsWith(InterpretHeader(header), TypePart(header[0]))
  {
    if |header| >= 1 {
      var parts := HeaderParts(header);
      PartsHaveNoBar(header);
      SeparatorBar();
      JoinBars(parts, " | ");
      JoinHead(parts, " | ");
    }
  }

  lemma SeparatorBar()
    ensures CountOf(" | ", '|') == 1
  {
    assert " | "[1..][1..][1..] == [];
  }

  /** A join begins with its first part. */
  lemma JoinHead(parts: seq<string>, sep: string)
    requires |parts| >= 1
    ensures StartsWith(Join(parts, sep), parts[0])
  {
    if |parts| > 1 {
      var rest := sep + Join(parts[1..], sep);
      AppendAssoc(parts[0], sep, Join(parts[1..], sep));
      assert (parts[0] + rest)[..|parts[0]|] == parts[0];
    }
  }

  /** The frame type named by the first part. */
  lemma TypePartNames(b0: byte)
    ensures StartsWith(TypePart(b0), "Type: Standard") <==> b0 == 0x11
    ensures StartsWith(TypePart(b0), "Type: Extended") <==> b0 == 0x25
    ensures StartsWith(TypePart(b0), "Type: Unknown") <==> b0 != 0x11 && b0 != 0x25
  {
    var t := TypePart(b0);
    assert t[6] == if b0 == 0x11 then 'S' else if b0 == 0x25 then 'E' else 'U';
    assert |t| >= 14;
    assert StartsWith(t, "Type: Standard") ==> t[..14][6] == 'S';
    assert StartsWith(t, "Type: Extended") ==> t[..14][6] == 'E';
    assert StartsWith(t, "Type: Unknown") ==> t[..13][6] == 'U';
  }

  // ---------------------------------------------------------------------
  // Analysing one frame's content
  // ---------------------------------------------------------------------

  /** The dictionary `analyze_frame` returns. */
  datatype Analysis = Analysis(
    length: nat,
    headerHex: string,
    headerLen: nat,
    payloadHex: string,
    payloadLen: nat,
    incomplete: bool,
    analysis: string)

  /** The header length chosen for content of at least two bytes. */
  function HeaderLen(content: seq<byte>): (n: nat)
    requires |content| >= 2
    ensures 2 <= n <= 3 && n <= |content|
  {
    if content[0] == 0x11 && |content| > 2 then 2
    else if |content| > 3 then 3
    else 2  // min(2, len), and len >= 2 here
  }

  /** The fields `analyze_frame` reports for `content`. */
  function Analyze(content: seq<byte>, incomplete: bool): Analysis {
    if |content| < 2 then
      Analysis(|content|, ToHex(content), |content|, "", 0, incomplete, "Too short for header analysis")
    else
      var n := HeaderLen(content);
      Analysis(|content|, ToHex(content[..n]), n, ToHex(content[n..]), |content| - n, incomplete,
               InterpretHeader(content[..n]))
  }

  /** Every frame is cut at one point: the header is the content before
      it and the payload the content after it (for content under two bytes
      the whole content counts as header). */
  lemma AnalyzeFields(content: seq<byte>, incomplete: bool)
    ensures var a := Analyze(content, incomplete);
            a.length == |content| && a.headerLen <= |content| &&
            a.payloadLen == a.length - a.headerLen && a.incomplete == incomplete &&
            a.headerHex == ToHex(content[..a.headerLen]) &&
            a.payloadHex == ToHex(content[a.headerLen..])
    ensures |content| >= 2 ==>
              Analyze(content, incomplete).headerLen ==
              (if content[0] == 0x11 || |content| <= 3 then 2 else 3)
    ensures |content| < 2 ==> Analyze(content, incomplete).payloadHex == []
  {
    if |content| < 2 {
      assert content[..|content|] == content && content[|content|..] == [];
    }
  }

  /** Header and payload split the content: the two hex fields concatenate
      to the content's hex and decode back to it. */
  lemma AnalyzeSplits(content: seq<byte>, incomplete: bool)
    ensures AllHex(Analyze(content, incomplete).headerHex)
    ensures AllHex(Analyze(content, incomplete).payloadHex)
    ensures Analyze(content, incomplete).headerHex + Analyze(content, incomplete).payloadHex == ToHex(content)
    ensures FromHex(Analyze(content, incomplete).headerHex) + FromHex(Analyze(content, incomplete).payloadHex) == content
  {
    AnalyzeFields(content, incomplete);
    SplitHex(content, Analyze(content, incomplete).headerLen);
  }

  /** Cutting bytes at `n` cuts their hex at `2 * n`, and each piece decodes
      back. */
  lemma SplitHex(content: seq<byte>, n: nat)
    requires n <= |content|
    ensures AllHex(ToHex(content[..n])) && AllHex(ToHex(content[n..]))
    ensures ToHex(content[..n]) + ToHex(content[n..]) == ToHex(content)
    ensures FromHex(ToHex(content[..n])) + FromHex(ToHex(content[n..])) == content
  {
    assert content[..n] + content[n..] == content;
    ToHexAppend(content[..n], content[n..]);
    FromHexToHex(content[..n]);
    FromHexToHex(content[n..]);
  }

  /** The number of times a header has been seen, 0 when never
      (`Counter` semantics). */
  function Count(stats: map<string, nat>, h: string): nat {
    if h in stats then stats[h] else 0
  }

  /** The sequence bytes recorded under a type byte, empty when none
      (`defaultdict(list)` semantics). */
  function Recorded(seqs: map<byte, seq<byte>>, b: byte): seq<byte> {
    if b in seqs then seqs[b] else []
  }

  /** The header statistics after analysing `content`. */
  function CountHeader(stats: map<string, nat>, content: seq<byte>): map<string, nat> {
    if |content| < 2 then stats
    else
      var h := ToHex(content[..HeaderLen(content)]);
      stats[h := Count(stats, h) + 1]
  }

  /** The sequence table after analysing `content`: the header's second
      byte is appended under its first. */
  function RecordSequence(seqs: map<byte, seq<byte>>, content: seq<byte>): map<byte, seq<byte>> {
    if |content| < 2 then seqs
    else seqs[content[0] := Recorded(seqs, content[0]) + [content[1]]]
  }

  /** Analysing content of two or more bytes counts its header once more and
      records its second byte after the earlier ones for its first; shorter
      content leaves both tables as they were. */
  lemma AnalyzeRecords(stats: map<string, nat>, seqs: map<byte, seq<byte>>, content: seq<byte>,
                       h: string, b: byte)
    ensures |content| < 2 ==> CountHeader(stats, content) == stats && RecordSequence(seqs, content) == seqs
    ensures |content| >= 2 ==>
              Count(CountHeader(stats, content), h) ==
              Count(stats, h) + (if h == ToHex(content[..HeaderLen(content)]) then 1 else 0)
    ensures |content| >= 2 ==>
              Recorded(RecordSequence(seqs, content), b) ==
              Recorded(seqs, b) + (if b == content[0] then [content[1]] else [])
  {
  }

  // ---------------------------------------------------------------------
  // Scanning for frames
  // ---------------------------------------------------------------------

  /** One turn of the loop of `extract_frames`: the start marker it finds,
      the end of the frame content (the end marker, or the end of the data
      when none follows), and whether the frame is incomplete. */
  datatype Turn = Turn(start: nat, end: nat, incomplete: bool)

  /** Where the cursor goes after a turn. */
  function After(data: seq<byte>, t: Turn): nat {
    if t.incomplete then |data| else t.end + 4
  }

  /** Where the raw bytes of a turn's frame end: after the end marker, or
      at the end of the data. */
  function RawEnd(t: Turn): nat {
    if t.incomplete then t.end else t.end + 4
  }

  /** A frame as the scan delimits it: a start marker at `start`, no end
      marker between it and `end`, and at `end` either the end marker or
      the end of the data. */
  predicate Framed(data: seq<byte>, t: Turn) {
    t.start + 4 <= t.end <= |data| &&
    OccursAt(data, StartMarker, t.start) &&
    (forall j :: t.start + 4 <= j < t.end ==> !OccursAt(data, EndMarker, j)) &&
    (if t.incomplete then t.end == |data| else OccursAt(data, EndMarker, t.end))
  }

  /** The turn of the loop with the cursor at `pos`, or `None` when it
      stops (cursor at the end, or no start marker left). */
  function TurnAt(data: seq<byte>, pos: nat): (r: Option<Turn>)
    requires pos <= |data|
    ensures r.Some? ==> pos <= r.value.start && r.value.start + 4 <= r.value.end <= |data|
    ensures r.Some? ==> pos < After(data, r.value) <= |data|
  {
    if pos == |data| then None
    else
      match Find(data, StartMarker, pos)
      case None => None
      case Some(s) => Some(Delimit(s, Find(data, EndMarker, s + 4), |data|))
  }

  /** The turn for a start marker at `s`, given where the end marker was
      found after it (`None` for Python's -1). */
  function Delimit(s: nat, endPos: Option<nat>, len: nat): Turn {
    match endPos
    case None => Turn(s, len, true)
    case Some(e) => Turn(s, e, false)
  }

  /** The two `find` calls of one turn determine it. */
  lemma TurnAtIs(data: seq<byte>, pos: nat, startPos: Option<nat>, endPos: Option<nat>)
    requires pos < |data| && startPos == Find(data, StartMarker, pos) && startPos.Some?
    requires startPos.value + 4 <= |data| && endPos == Find(data, EndMarker, startPos.value + 4)
    ensures TurnAt(data, pos) == Some(Delimit(startPos.value, endPos, |data|))
  {
  }

  /** When no start marker is left there are no more frames. */
  lemma NoStartNoSpans(data: seq<byte>, pos: nat)
    requires pos < |data| && Find(data, StartMarker, pos).None?
    ensures Spans(data, pos) == []
  {
  }

  lemma SpansAtEnd(data: seq<byte>)
    ensures Spans(data, |data|) == []
  {
  }

  /** One turn of `Spans`. */
  lemma SpansUnfold(data: seq<byte>, pos: nat)
    requires pos <= |data|
    ensures TurnAt(data, pos).None? ==> Spans(data, pos) == []
    ensures TurnAt(data, pos).Some? ==>
              var t := TurnAt(data, pos).value;
              Spans(data, pos) == (if t.end > t.start + 4 then [t] else []) + Spans(data, After(data, t))
  {
  }

  /** A turn starts at the first start marker after the cursor and runs to
      the first end marker after that, or to the end of the data; the loop
      stops only at the end of the data or when no start marker is left. */
  lemma TurnAtFramed(data: seq<byte>, pos: nat)
    requires pos <= |data|
    ensures TurnAt(data, pos).Some? ==> Framed(data, TurnAt(data, pos).value)
    ensures TurnAt(data, pos).Some? ==>
              forall j :: pos <= j < TurnAt(data, pos).value.start ==> !OccursAt(data, StartMarker, j)
    ensures TurnAt(data, pos).None? ==>
              pos == |data| || forall j :: pos <= j ==> !OccursAt(data, StartMarker, j)
  {
  }

  /** The turns from `pos` on that yield a frame: those whose content is
      not empty. */
  function Spans(data: seq<byte>, pos: nat): seq<Turn>
    requires pos <= |data|
    decreases |data| - pos
  {
    match TurnAt(data, pos)
    case None => []
    case Some(t) => (if t.end > t.start + 4 then [t] else []) + Spans(data, After(data, t))
  }

  predicate AllFramed(data: seq<byte>, ts: seq<Turn>) {
    forall k :: 0 <= k < |ts| ==> Framed(data, ts[k])
  }

  /** Every frame found lies after the cursor, is delimited as the scan
      delimits it, and has content. */
  lemma {:induction false} SpansFramed(data: seq<byte>, pos: nat)
    requires pos <= |data|
    ensures AllFramed(data, Spans(data, pos))
    ensures forall k :: 0 <= k < |Spans(data, pos)| ==>
              pos <= Spans(data, pos)[k].start && Spans(data, pos)[k].start + 4 < Spans(data, pos)[k].end
    decreases |data| - pos
  {
    match TurnAt(data, pos)
    case None =>
    case Some(t) =>
      TurnAtFramed(data, pos);
      SpansFramed(data, After(data, t));
      var head := if t.end > t.start + 4 then [t] else [];
      var rest := Spans(data, After(data, t));
      assert Spans(data, pos) == head + rest;
  }

  /** The turn lies inside the data. */
  predicate Placed(data: seq<byte>, t: Turn) {
    t.start + 4 <= t.end && RawEnd(t) <= |data|
  }

  /** The content between the markers (empty for a turn outside the data,
      which the scan never produces). */
  function Content(data: seq<byte>, t: Turn): seq<byte> {
    if Placed(data, t) then data[t.start + 4..t.end] else []
  }

  /** The raw bytes of the frame, markers included. */
  function Raw(data: seq<byte>, t: Turn): seq<byte> {
    if Placed(data, t) then data[t.start..RawEnd(t)] else []
  }

  /** `analyze_frame`'s dictionary completed with `raw_hex` and `offset`. */
  datatype FrameInfo = FrameInfo(info: Analysis, rawHex: string, offset: nat)

  function FrameOf(data: seq<byte>, t: Turn): FrameInfo {
    FrameInfo(Analyze(Content(data, t), t.incomplete), ToHex(Raw(data, t)), t.start)
  }

  /** The records of the frames of `ts`, in order. */
  function FramesOf(data: seq<byte>, ts: seq<Turn>): (fs: seq<FrameInfo>)
    ensures |fs| == |ts|
  {
    if ts == [] then [] else FramesOf(data, ts[..|ts| - 1]) + [FrameOf(data, ts[|ts| - 1])]
  }

  lemma {:induction false} FramesOfAt(data: seq<byte>, ts: seq<Turn>)
    ensures forall k :: 0 <= k < |ts| ==> FramesOf(data, ts)[k] == FrameOf(data, ts[k])
  {
    if ts != [] {
      var init := ts[..|ts| - 1];
      FramesOfAt(data, init);
      forall k | 0 <= k < |ts| ensures FramesOf(data, ts)[k] == FrameOf(data, ts[k]) {
        if k < |init| {
          assert ts[k] == init[k];
        }
      }
    }
  }

  /** The header statistics after analysing the frames of `ts` in order. */
  function CountAll(stats: map<string, nat>, data: seq<byte>, ts: seq<Turn>): map<string, nat>
  {
    if ts == [] then stats
    else CountHeader(CountAll(stats, data, ts[..|ts| - 1]), Content(data, ts[|ts| - 1]))
  }

  /** The sequence table after analysing the frames of `ts` in order. */
  function RecordAll(seqs: map<byte, seq<byte>>, data: seq<byte>, ts: seq<Turn>): map<byte, seq<byte>>
  {
    if ts == [] then seqs
    else RecordSequence(RecordAll(seqs, data, ts[..|ts| - 1]), Content(data, ts[|ts| - 1]))
  }

  /** How many of the frames of `ts` have header `h`. */
  function HeaderCount(data: seq<byte>, ts: seq<Turn>, h: string): nat
  {
    if ts == [] then 0
    else
      var c := Content(data, ts[|ts| - 1]);
      HeaderCount(data, ts[..|ts| - 1], h) + (if |c| >= 2 && ToHex(c[..HeaderLen(c)]) == h then 1 else 0)
  }

  /** After a run of frames, each header's count has grown by the number of
      those frames that carry it. */
  lemma {:induction false} CountAllCounts(stats: map<string, nat>, data: seq<byte>, ts: seq<Turn>, h: string)
    ensures Count(CountAll(stats, data, ts), h) == Count(stats, h) + HeaderCount(data, ts, h)
  {
    if ts != [] {
      var init := ts[..|ts| - 1];
      CountAllCounts(stats, data, init, h);
      AnalyzeRecords(CountAll(stats, data, init), map[], Content(data, ts[|ts| - 1]), h, 0);
    }
  }

  /** Frames of `ts` are delimited, non-empty, in order and apart: each
      begins after the previous one's end marker, and only the last can be
      incomplete. */
  predicate Ordered(data: seq<byte>, ts: seq<Turn>) {
    (forall k, l :: 0 <= k < l < |ts| ==> After(data, ts[k]) <= ts[l].start) &&
    (forall k :: 0 <= k < |ts| && ts[k].incomplete ==> k == |ts| - 1)
  }

  /** A frame followed by frames that begin after it is over stays ordered. */
  lemma OrderedCons(data: seq<byte>, t: Turn, rest: seq<Turn>)
    requires Ordered(data, rest)
    requires forall k :: 0 <= k < |rest| ==> After(data, t) <= rest[k].start
    requires t.incomplete ==> rest == []
    ensures Ordered(data, [t] + rest)
  {
    var ts := [t] + rest;
    forall k, l | 0 <= k < l < |ts| ensures After(data, ts[k]) <= ts[l].start {
      assert ts[l] == rest[l - 1];
      if k > 0 {
        assert ts[k] == rest[k - 1];
      }
    }
    forall k | 0 <= k < |ts| && ts[k].incomplete ensures k == |ts| - 1 {
      if k > 0 {
        assert ts[k] == rest[k - 1];
      }
    }
  }

  lemma {:induction false} SpansOrdered(data: seq<byte>, pos: nat)
    requires pos <= |data|
    ensures Ordered(data, Spans(data, pos))
    decreases |data| - pos
  {
    SpansUnfold(data, pos);
    if TurnAt(data, pos).Some? {
      var t := TurnAt(data, pos).value;
      var rest := Spans(data, After(data, t));
      SpansOrdered(data, After(data, t));
      SpansFramed(data, After(data, t));
      if t.incomplete {
        SpansUnfold(data, |data|);
      }
      if t.end > t.start + 4 {
        OrderedCons(data, t, rest);
      } else {
        assert [] + rest == rest;
      }
    }
  }

  /** Offsets strictly increase. */
  lemma OffsetsIncrease(data: seq<byte>, k: nat, l: nat)
    requires k < l < |Spans(data, 0)|
    ensures Spans(data, 0)[k].start < Spans(data, 0)[l].start
  {
    SpansOrdered(data, 0);
    SpansFramed(data, 0);
  }

  /** A frame's raw hex begins with the start marker, and a complete
      frame's ends with the end marker. */
  lemma RawHexMarkers(data: seq<byte>, t: Turn)
    requires Framed(data, t)
    ensures StartsWith(FrameOf(data, t).rawHex, "FBFBFBF0")
    ensures !t.incomplete ==> EndsWith(FrameOf(data, t).rawHex, "FEFE0E0F")
  {
    RawMarkers(data, t);
  }

  /** The raw bytes of a delimited frame start with the start marker and,
      when complete, end with the end marker. */
  lemma RawMarkers(data: seq<byte>, t: Turn)
    requires Framed(data, t)
    ensures StartsWith(ToHex(Raw(data, t)), "FBFBFBF0")
    ensures !t.incomplete ==> EndsWith(ToHex(Raw(data, t)), "FEFE0E0F")
  {
    MarkerHex();
    var raw := Raw(data, t);
    assert raw == data[t.start..RawEnd(t)];
    assert raw == StartMarker + raw[4..];
    ToHexAppend(StartMarker, raw[4..]);
    if !t.incomplete {
      assert raw == raw[..|raw| - 4] + EndMarker;
      ToHexAppend(raw[..|raw| - 4], EndMarker);
    }
  }

  /** A start marker directly followed by an end marker yields no frame,
      but the scan still moves past both. */
  lemma EmptyContentSkipped(data: seq<byte>, pos: nat)
    requires pos <= |data| && TurnAt(data, pos).Some?
    requires TurnAt(data, pos).value.end == TurnAt(data, pos).value.start + 4
    ensures Spans(data, pos) == Spans(data, After(data, TurnAt(data, pos).value))
    ensures pos < After(data, TurnAt(data, pos).value)
  {
    var t := TurnAt(data, pos).value;
    assert Spans(data, pos) == [] + Spans(data, After(data, t));
  }

  // ---------------------------------------------------------------------
  // The parser object
  // ---------------------------------------------------------------------

  /** Appending a frame to a run of frames appends its record and analyses
      it after the others. */
  lemma RunAppend(data: seq<byte>, done: seq<Turn>, t: Turn,
                  stats: map<string, nat>, seqs: map<byte, seq<byte>>)
    ensures FramesOf(data, done + [t]) == FramesOf(data, done) + [FrameOf(data, t)]
    ensures CountAll(stats, data, done + [t]) == CountHeader(CountAll(stats, data, done), Content(data, t))
    ensures RecordAll(seqs, data, done + [t]) == RecordSequence(RecordAll(seqs, data, done), Content(data, t))
  {
    assert (done + [t])[..|done|] == done;
  }


  /** A turn that yields a frame extends the frames found so far. */
  lemma SpansKeep(data: seq<byte>, pos: nat, done: seq<Turn>, t: Turn)
    requires pos <= |data| && TurnAt(data, pos) == Some(t) && t.end > t.start + 4
    ensures done + Spans(data, pos) == (done + [t]) + Spans(data, After(data, t))
  {
    SpansUnfold(data, pos);
    AppendAssoc(done, [t], Spans(data, After(data, t)));
  }

  /** A turn that yields no frame leaves the frames found so far. */
  lemma SpansSkip(data: seq<byte>, pos: nat, done: seq<Turn>, t: Turn)
    requires pos <= |data| && TurnAt(data, pos) == Some(t) && t.end <= t.start + 4
    ensures done + Spans(data, pos) == done + Spans(data, After(data, t))
  {
    SpansUnfold(data, pos);
    assert [] + Spans(data, After(data, t)) == Spans(data, After(data, t));
  }

  class VW1871Parser {
    /** `header_stats`: how often each header (as hex) was seen. */
    var headerStats: map<string, nat>
    /** `sequence_analysis`: the second header bytes seen, by first byte. */
    var sequenceAnalysis: map<byte, seq<byte>>

    constructor ()
      ensures headerStats == map[] && sequenceAnalysis == map[]
    {
      headerStats := map[];
      sequenceAnalysis := map[];
    }

    /** `analyze_frame`. */
    method AnalyzeFrame(frameData: seq<byte>, incomplete: bool) returns (info: Analysis)
      modifies this
      ensures info == Analyze(frameData, incomplete)
      ensures headerStats == CountHeader(old(headerStats), frameData)
      ensures sequenceAnalysis == RecordSequence(old(sequenceAnalysis), frameData)
    {
      if |frameData| < 2 {
        return Analysis(|frameData|, ToHex(frameData), |frameData|, "", 0, incomplete,
                        "Too short for header analysis");
      }
      var headerLen;
      if frameData[0] == 0x11 && |frameData| > 2 {
        headerLen := 2;
      } else if |frameData| > 3 {
        headerLen := 3;
      } else {
        headerLen := if 2 < |frameData| then 2 else |frameData|;
      }
      assert headerLen == HeaderLen(frameData);
      var header := frameData[..headerLen];
      var payload := frameData[headerLen..];
      var headerHex := ToHex(header);
      headerStats := headerStats[headerHex := Count(headerStats, headerHex) + 1];
      if |header| >= 2 {
        var seqByte := header[1];
        sequenceAnalysis := sequenceAnalysis[header[0] := Recorded(sequenceAnalysis, header[0]) + [seqByte]];
      }
      var analysis := InterpretHeader(header);
      info := Analysis(|frameData|, headerHex, headerLen, ToHex(payload), |payload|, incomplete, analysis);
    }

    /** The frame branch of `extract_frames`: analyses the content between
        the markers and adds the raw hex and the offset to the record. */
    method RecordFrame(data: seq<byte>, t: Turn) returns (frameInfo: FrameInfo)
      requires t.start + 4 < t.end && RawEnd(t) <= |data|
      modifies this
      ensures frameInfo == FrameOf(data, t)
      ensures headerStats == CountHeader(old(headerStats), Content(data, t))
      ensures sequenceAnalysis == RecordSequence(old(sequenceAnalysis), Content(data, t))
    {
      var frameStart := t.start + 4;
      var frameEnd := t.end;
      var info := AnalyzeFrame(data[frameStart..frameEnd], t.incomplete);
      var rawHex := ToHex(data[t.start..if t.incomplete then t.end else t.end + 4]);
      frameInfo := FrameInfo(info, rawHex, t.start);
    }

    /** `extract_frames`. */
    method ExtractFrames(data: seq<byte>) returns (frames: seq<FrameInfo>)
      modifies this
      ensures frames == FramesOf(data, Spans(data, 0))
      ensures headerStats == CountAll(old(headerStats), data, Spans(data, 0))
      ensures sequenceAnalysis == RecordAll(old(sequenceAnalysis), data, Spans(data, 0))
    {
      frames := [];
      ghost var done: seq<Turn> := [];
      var pos := 0;
      while pos < |data|
        invariant pos <= |data|
        invariant done + Spans(data, pos) == Spans(data, 0)
        invariant frames == FramesOf(data, done)
        invariant headerStats == CountAll(old(headerStats), data, done)
        invariant sequenceAnalysis == RecordAll(old(sequenceAnalysis), data, done)
        decreases |data| - pos
      {
        var turn := NextTurn(data, pos);
        if turn.None? {
          SpansUnfold(data, pos);
          break;
        }
        var t := turn.value;
        if t.end > t.start + 4 {
          RunAppend(data, done, t, old(headerStats), old(sequenceAnalysis));
          var frameInfo := RecordFrame(data, t);
          frames := frames + [frameInfo];
          SpansKeep(data, pos, done, t);
          done := done + [t];
        } else {
          SpansSkip(data, pos, done, t);
        }
        pos := if t.incomplete then |data| else t.end + 4;
        assert pos == After(data, t);
      }
      SpansAtEnd(data);
      assert done + Spans(data, pos) == done;
    }

    /** The two `find` calls of one turn of `extract_frames`: the next start
        marker, then the first end marker after it (the frame is incomplete
        when there is none). */
    method NextTurn(data: seq<byte>, pos: nat) returns (turn: Option<Turn>)
      requires pos < |data|
      ensures turn == TurnAt(data, pos)
    {
      var startPos := Find(data, StartMarker, pos);
      if startPos.None? {
        return None;
      }
      var s := startPos.value;
      var endPos := Find(data, EndMarker, s + 4);
      var incomplete := endPos.None?;
      var e := if incomplete then |data| else endPos.value;
      TurnAtIs(data, pos, startPos, endPos);
      return Some(Turn(s, e, incomplete));
    }

    /** `parse_hex_string`: every character that is not a hex digit is
        dropped; an odd number of digits left is an error. */
    method ParseHexString(hexStr: string) returns (r: Result<seq<FrameInfo>>)
      modifies this
      ensures |HexOnly(hexStr)| % 2 != 0 ==>
                r == Failure(OddLengthError) &&
                headerStats == old(headerStats) && sequenceAnalysis == old(sequenceAnalysis)
      ensures |HexOnly(hexStr)| % 2 == 0 ==>
                var data := FromHex(HexOnly(hexStr));
                r == Success(FramesOf(data, Spans(data, 0))) &&
                headerStats == CountAll(old(headerStats), data, Spans(data, 0)) &&
                sequenceAnalysis == RecordAll(old(sequenceAnalysis), data, Spans(data, 0))
    {
      var cleanHex := HexOnly(hexStr);
      if |cleanHex| % 2 != 0 {
        return Failure(OddLengthError);
      }
      var data := FromHex(cleanHex);
      var frames := ExtractFrames(data);
      return Success(frames);
    }
  }

  /** The bytes `parse_hex_string` scans are the hex digits of its input,
      read in pairs: re-encoding them gives those digits upper-cased. */
  lemma ParsedBytes(hexStr: string)
    requires |HexOnly(hexStr)| % 2 == 0
    ensures ToHex(FromHex(HexOnly(hexStr))) == Upper(HexOnly(hexStr))
    ensures |FromHex(HexOnly(hexStr))| * 2 == |HexOnly(hexStr)|
  {
    ToHexFromHex(HexOnly(hexStr));
  }
}
