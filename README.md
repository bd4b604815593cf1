# VW1871 / FlowIQ2101 telegram handling, modelled in Dafny

The repository connects a Kamstrup FlowIQ2101 water meter to wmbusmeters. The
meter's wireless M-Bus (wM-Bus) telegrams reach the host through a VW1871
Bluetooth concentrator. The concentrator wraps them in its own framing:

- a start delimiter `FBFBFBF0`;
- a few header bytes;
- the wM-Bus frame;
- an end delimiter `FEFE0E0F`.

Its notifications come in a handful of fixed sizes: 59, 70, 96 and 244 bytes.

This project models the string and byte rules that turn these notifications
into telegrams, and proves what they guarantee.

- **HexText**: the Python string primitives the scripts rely on, stated once.
  - `str.find` returns the leftmost occurrence; `-1` becomes `None`.
  - `in`, `startswith` and `endswith`.
  - `strip`, `upper` and `lower`, on ASCII letters and Python's whitespace.
  - `bytes.hex().upper()` and `bytes.fromhex`.
  - `re.sub` of non-hex characters.
- **TelegramLine**: the `telegram=|HEX|` line format read by the frame extractor and the preprocessor.
  - `re.search` for it is modelled as the leftmost index where the pattern matches.
  - It is proved sound and complete against a declarative description of a field in a line.
- **FrameExtractor** (`vw1871_frame_extractor.py`).
  - Rule dispatch on the total hex length:
    - 118/140: unwrap;
    - 192: fixed trim;
    - 488: anchor scan;
    - any other length: the scan if an anchor occurs.
  - The anchor scan is a `while` loop proved against a window function.
  - The validation loop, and the extractor object with its two counters.
- **WrapperParser** (`vw1871_wrapper_parser.py`).
  - A scan over bytes for start/end markers.
    - It is a `while` loop proved against a span function.
    - It tolerates a trailing frame without end marker.
  - Header/payload splitting, which updates the parser's `header_stats` and `sequence_analysis` tables in place.
  - Header interpretation.
  - `parse_hex_string` with its odd-length error.
- **Preprocessor** (`vw1871_preprocessor.py`).
  - Line extraction without bare-hex fallback.
  - The L/C/M/A/CI/payload split of the EN 13757-4 link-layer header.
  - The identity conversion and the processed counter.
- **FlowIqBridge** (`flowiq2101_bridge.py`): the handler's filter and the trimming in `process_telegram`, with `telegram_count`.
- **WmbusCapture** and **WmbusCaptureEnhanced** (the two capture scripts).
  - The "looks like a wM-Bus telegram" tests.
  - The telegram summary of the enhanced script, as a map.
- **BleService** (`simple_ble_service/interactive_ble_service.py`): address normalisation and the device filter.

Python objects whose fields are updated become Dafny classes:

- `VW1871FrameExtractor`, `VW1871Parser`, `VW1871Preprocessor` and `FlowIQ2101Bridge`;
- each method's `ensures` ties its result and new state to a specification function;
- the lemmas state the properties of those functions.

## Model

| member | source | states |
|---|---|---|
| TelegramLine.HexRun | vw1871_frame_extractor.py:37 | the greedy `[0-9A-Fa-f]+` run: every character in it is hex and the next one is not |
| TelegramLine.HexRunExact | vw1871_frame_extractor.py:37 | a run of m hex digits followed by a non-hex character has length exactly m |
| TelegramLine.MatchAtSound | vw1871_frame_extractor.py:37 | what the pattern captures at index i is a non-empty hex field sitting there as `telegram=|F|` |
| TelegramLine.MatchAtComplete | vw1871_frame_extractor.py:37 | a field sitting at index i as `telegram=|F|` is what the pattern captures there |
| TelegramLine.MatchAtIff | vw1871_frame_extractor.py:37 | the pattern captures F at i if and only if `telegram=|F|` sits at i with F non-empty hex |
| TelegramLine.SearchPos | vw1871_preprocessor.py:38 | the search finds the leftmost matching index, and none when no index matches |
| TelegramLine.TelegramField | vw1871_preprocessor.py:38-39 | a captured group is non-empty hex |
| TelegramLine.TelegramFieldSound | vw1871_frame_extractor.py:37-39 | a captured field sits in the line and no field sits further left |
| TelegramLine.TelegramFieldLeftmost | vw1871_frame_extractor.py:37-39 | the leftmost field of a line is exactly what the search captures |
| TelegramLine.TelegramFieldHasTag | vw1871_preprocessor.py:102-106 | a line the search captures from contains `telegram=|`, so it passes the preprocessor's `telegram=` guard |
| TelegramLine.FieldRoundTrip | vw1871_frame_extractor.py:37-39 | `telegram=|F|` followed by anything yields F back, for non-empty hex F |
| TelegramLine.OutputLine | vw1871_frame_extractor.py:232 | the written line starts with `telegram=|` and ends with `|` and a newline |
| TelegramLine.OutputRoundTrip | vw1871_frame_extractor.py:232 | searching the written line gives the frame back |
| FrameExtractor.ExtractTelegramData | vw1871_frame_extractor.py:34-45 | a result is non-empty upper-case hex |
| FrameExtractor.ExtractWrittenLine | vw1871_frame_extractor.py:37-39 | reading `telegram=|F|...` returns F for non-empty upper-case hex F: writer and reader round-trip |
| FrameExtractor.ExtractBareHex | vw1871_frame_extractor.py:41-45 | without a field, a line is accepted if and only if it is non-empty hex after stripping, and then it is returned upper-cased |
| FrameExtractor.Frames5970 | vw1871_frame_extractor.py:47-77 | the 59/70-byte rule as written (no contract of its own; Rule5970 states its outcomes) |
| FrameExtractor.Rule5970 | vw1871_frame_extractor.py:47-77 | at most one frame; a wrapped input yields exactly `hex[8:-8]`, of 102 or 124 digits; an unwrapped one yields itself if and only if it holds an anchor |
| FrameExtractor.Frames96 | vw1871_frame_extractor.py:79-94 | the 96-byte rule as written (Rule96 states its outcomes) |
| FrameExtractor.Rule96 | vw1871_frame_extractor.py:79-94 | at most one frame; it is exactly `hex[108:184]` (76 digits), and there is one if and only if that slice holds an anchor |
| FrameExtractor.Nearer | vw1871_frame_extractor.py:114-131 | the chosen anchor is one of the two found and no later than either; it is compact if and only if the compact anchor was found and either no full anchor was found or the compact one lies strictly first (a tie goes to full) |
| FrameExtractor.NextAnchor | vw1871_frame_extractor.py:109-131 | the first anchor of either kind at or after the cursor, or none when no anchor is left |
| FrameExtractor.Step | vw1871_frame_extractor.py:107-144 | a cut window starts at the first anchor after the cursor and spans exactly that anchor's length inside the data |
| FrameExtractor.StepNone | vw1871_frame_extractor.py:107-144 | the loop breaks only at the end of the data, when no anchor is left, or when the nearest window would overrun the end |
| FrameExtractor.WindowsShape | vw1871_frame_extractor.py:107-144 | every window is well formed and after the cursor, and windows are pairwise non-overlapping in strictly increasing order |
| FrameExtractor.ScanEnd | vw1871_frame_extractor.py:107-144 | the stopping point lies between the starting cursor and the end of the data |
| FrameExtractor.ScanStops | vw1871_frame_extractor.py:142-144 | the scan stops where a further step would break, and every frame ends before that point: nothing is cut from the anchor that stopped it or a later one |
| FrameExtractor.ScanCoversAnchors | vw1871_frame_extractor.py:107-141 | every anchor between the cursor and the stopping point lies inside a cut window: no anchor is skipped |
| FrameExtractor.ExtractFrames244 | vw1871_frame_extractor.py:96-146 | the method returns exactly the scan's frames over the upper-cased input |
| FrameExtractor.ScanLoop | vw1871_frame_extractor.py:105-146 | the `while` loop returns exactly the frames of the windows, in order |
| FrameExtractor.NextWindow | vw1871_frame_extractor.py:109-144 | one turn of the loop (two finds, the choice and the fit test) yields exactly the spec step |
| FrameExtractor.ScanFramesAreWindows | vw1871_frame_extractor.py:134-141 | the k-th frame is the text of the k-th window |
| FrameExtractor.GoodWindowFrame | vw1871_frame_extractor.py:100-101 | a window's text starts with its anchor and has its length |
| FrameExtractor.Scan244Frames | vw1871_frame_extractor.py:100-101 | every scanned frame starts `25442D2C` with 76 digits or starts `30442D2C` with 98 digits |
| FrameExtractor.AnchorLengthByte | vw1871_frame_extractor.py:100-101 | a scanned frame's first byte is its byte count minus one (0x25 = 38 - 1, 0x30 = 49 - 1) |
| FrameExtractor.ValidateFrame | vw1871_frame_extractor.py:185-198 | `validate_frame`: at least 20 digits, an anchor at the start, the meter id anywhere (WmbusFramesValid and KeepValidSpec use it) |
| FrameExtractor.Candidates | vw1871_frame_extractor.py:153-172 | the candidates chosen by total length, before validation (DispatchByLength states the dispatch) |
| FrameExtractor.WmbusFrames | vw1871_frame_extractor.py:148-183 | the order-preserving filter of the candidates (ExtractWmbusFrames computes it, WmbusFramesValid and DispatchByLength state it) |
| FrameExtractor.KeepValidSpec | vw1871_frame_extractor.py:175-181 | the kept frames are exactly the candidates that pass validation, and no more of them than candidates |
| FrameExtractor.KeepValidAppend | vw1871_frame_extractor.py:175-181 | filtering distributes over concatenation, so candidate order is preserved |
| FrameExtractor.ExtractWmbusFrames | vw1871_frame_extractor.py:148-183 | the method (dispatch and validation loop) returns the order-preserving filter of the length-chosen candidates |
| FrameExtractor.WmbusFramesValid | vw1871_frame_extractor.py:185-198 | every returned frame has at least 20 digits, starts with an anchor and contains `703749741F16` |
| FrameExtractor.DispatchByLength | vw1871_frame_extractor.py:158-172 | 118 and 140 digits go to the 59/70 rule and 192 to the 96 rule, each yielding at most one frame; 488, or an unknown length with an anchor, uses the scan; an unknown length without an anchor yields nothing |
| FrameExtractor.NoAnchorNoScan | vw1871_frame_extractor.py:170-172 | text whose upper-cased form has no anchor makes the scan cut nothing |
| FrameExtractor.WrappedNeedsAnchorAfterMarker | vw1871_frame_extractor.py:57-59 | a wrapped 59/70 notification yields a frame only when digits 8 to 16 are an anchor |
| FrameExtractor.LineFrames | vw1871_frame_extractor.py:200-214 | the frames `process_line` returns for a raw line (ProcessLine computes it, SkippedLinesYieldNothing and FrameIsHex state it) |
| FrameExtractor.SkippedLinesYieldNothing | vw1871_frame_extractor.py:202-206 | empty lines, lines starting `2025-` and lines containing `INFO` yield no frames |
| FrameExtractor.VW1871FrameExtractor.constructor | vw1871_frame_extractor.py:30-32 | both counters start at zero |
| FrameExtractor.VW1871FrameExtractor.ProcessLine | vw1871_frame_extractor.py:200-219 | returns the line's frames; with frames, `processed_count` rises by 1 and `extracted_frames` by their number, otherwise neither changes |
| FrameExtractor.ScanIsHex | vw1871_frame_extractor.py:134-141 | frames cut from upper-case hex are hex |
| FrameExtractor.CandidatesAreHex | vw1871_frame_extractor.py:158-172 | every candidate of upper-case hex is hex |
| FrameExtractor.FrameIsHex | vw1871_frame_extractor.py:229-232 | every frame of a line is non-empty hex, and the output line written for it reads back as that frame |
| WrapperParser.JoinBars | vw1871_wrapper_parser.py:153 | joining n bar-free parts with `" | "` leaves exactly n - 1 bars |
| WrapperParser.TypePartHasNoBar | vw1871_wrapper_parser.py:138-143 | the type part has no bar |
| WrapperParser.SeqPartHasNoBar | vw1871_wrapper_parser.py:145-147 | the sequence part has no bar |
| WrapperParser.ExtraPartHasNoBar | vw1871_wrapper_parser.py:149-151 | the extra part has no bar |
| WrapperParser.PartsHaveNoBar | vw1871_wrapper_parser.py:135-151 | no collected part contains a bar |
| WrapperParser.InterpretHeader | vw1871_wrapper_parser.py:130-153 | `interpret_header` as written (InterpretHeaderShape and TypePartNames state it) |
| WrapperParser.InterpretHeaderShape | vw1871_wrapper_parser.py:130-153 | an empty header gives `Empty header`; otherwise min(len, 3) parts are joined and the first names the type |
| WrapperParser.TypePartNames | vw1871_wrapper_parser.py:137-143 | the type is Standard if and only if byte 0 is 0x11, Extended if and only if 0x25, Unknown otherwise |
| WrapperParser.HeaderLen | vw1871_wrapper_parser.py:99-104 | the header length is 2 or 3 and fits in the content |
| WrapperParser.Analyze | vw1871_wrapper_parser.py:83-128 | the dictionary `analyze_frame` returns (AnalyzeFields and AnalyzeSplits state it) |
| WrapperParser.AnalyzeFields | vw1871_wrapper_parser.py:85-128 | the header is the content before the cut and the payload after it, `payload_len = length - header_len`; for 2 or more bytes the header length is 2 exactly when byte 0 is 0x11 or the length is at most 3 |
| WrapperParser.AnalyzeSplits | vw1871_wrapper_parser.py:106-124 | the header hex and the payload hex are hex, concatenate to the content's hex, and decode back to the content |
| WrapperParser.SplitHex | vw1871_wrapper_parser.py:106-107 | cutting bytes at n cuts their hex at 2n, and each piece decodes back |
| WrapperParser.AnalyzeRecords | vw1871_wrapper_parser.py:109-116 | for 2 or more bytes, the header's count rises by exactly 1 (no other changes) and byte 1 is appended under byte 0; shorter content changes neither table |
| WrapperParser.TurnAt | vw1871_wrapper_parser.py:53-79 | a turn starts at or after the cursor, lies in the data, and moves the cursor strictly forward |
| WrapperParser.NoStartNoSpans | vw1871_wrapper_parser.py:55-57 | no start marker left means no more frames |
| WrapperParser.TurnAtFramed | vw1871_wrapper_parser.py:55-66 | a turn starts at the first start marker after the cursor and ends at the first end marker after it, or at the end of the data when none follows |
| WrapperParser.SpansFramed | vw1871_wrapper_parser.py:53-79 | every frame found is delimited as above, lies after the cursor and has non-empty content |
| WrapperParser.FramesOf | vw1871_wrapper_parser.py:77 | one record per frame |
| WrapperParser.FramesOfAt | vw1871_wrapper_parser.py:73-77 | the k-th record is the record of the k-th frame |
| WrapperParser.CountAllCounts | vw1871_wrapper_parser.py:111 | after a run of frames, each header's count has grown by the number of frames with that header |
| WrapperParser.SpansOrdered | vw1871_wrapper_parser.py:62-79 | each frame starts after the previous frame's end marker, and only the last can be incomplete |
| WrapperParser.OffsetsIncrease | vw1871_wrapper_parser.py:76-79 | frame offsets strictly increase |
| WrapperParser.RawHexMarkers | vw1871_wrapper_parser.py:75 | `raw_hex` starts with `FBFBFBF0`, and for a complete frame ends with `FEFE0E0F` |
| WrapperParser.RawMarkers | vw1871_wrapper_parser.py:75 | the raw bytes' hex starts with the start marker and, for a complete frame, ends with the end marker |
| WrapperParser.EmptyContentSkipped | vw1871_wrapper_parser.py:72-79 | a start marker directly followed by the end marker yields no frame, and the scan still advances |
| WrapperParser.VW1871Parser.constructor | vw1871_wrapper_parser.py:31-36 | both tables start empty |
| WrapperParser.VW1871Parser.AnalyzeFrame | vw1871_wrapper_parser.py:83-128 | returns the analysis of the content and updates both tables as specified |
| WrapperParser.VW1871Parser.RecordFrame | vw1871_wrapper_parser.py:72-77 | the record of a frame, with `raw_hex` and `offset`, and the tables updated by its content |
| WrapperParser.VW1871Parser.ExtractFrames | vw1871_wrapper_parser.py:48-81 | the `while` loop returns the records of all frames in order, and the tables are updated by all of them in order |
| WrapperParser.VW1871Parser.NextTurn | vw1871_wrapper_parser.py:55-66 | one turn's two finds give exactly the spec turn |
| WrapperParser.VW1871Parser.ParseHexString | vw1871_wrapper_parser.py:38-46 | an odd number of hex digits is an error with the tables untouched; otherwise the frames of the decoded bytes |
| WrapperParser.ParsedBytes | vw1871_wrapper_parser.py:41-45 | the scanned bytes are the input's hex digits read in pairs |
| Preprocessor.ExtractTelegramData | vw1871_preprocessor.py:35-41 | a result is non-empty upper-case hex |
| Preprocessor.NoTagNoTelegram | vw1871_preprocessor.py:35-41 | a line without `telegram=|` yields nothing, however much hex it holds (no bare-hex fallback) |
| Preprocessor.ExtractWrittenLine | vw1871_preprocessor.py:38-40 | `telegram=|F|...` yields F back for non-empty upper-case hex F |
| Preprocessor.AnalyzeTelegramStructure | vw1871_preprocessor.py:43-69 | `analyze_telegram_structure` as written (StructureSplits states it) |
| Preprocessor.StructureSplits | vw1871_preprocessor.py:43-67 | invalid with `Telegram too short` exactly below 20 digits; otherwise the fields (widths 2, 2, 4, 12, CI at most 2) concatenate back to the input and `total_length = len // 2` |
| Preprocessor.ConvertToWmbusFormat | vw1871_preprocessor.py:71-95 | `convert_to_wmbus_format` as written (ConvertIsIdentity states it) |
| Preprocessor.ConvertIsIdentity | vw1871_preprocessor.py:71-95 | None if and only if the input is shorter than 20 digits, otherwise the input unchanged |
| Preprocessor.ProcessedLine | vw1871_preprocessor.py:97-117 | what `process_line` returns (ProcessedLineSpec and ProcessIdempotent state it) |
| Preprocessor.ProcessedLineSpec | vw1871_preprocessor.py:97-117 | a line is converted if and only if its stripped text has a field of at least 20 digits, and the output is `telegram=|` + the field upper-cased + `|` |
| Preprocessor.WrittenLineHasNoSpace | vw1871_preprocessor.py:99 | stripping an output line changes nothing |
| Preprocessor.ProcessIdempotent | vw1871_preprocessor.py:97-117 | processing an output line again returns it unchanged |
| Preprocessor.VW1871Preprocessor.constructor | vw1871_preprocessor.py:32-33 | the counter starts at zero |
| Preprocessor.VW1871Preprocessor.ProcessLine | vw1871_preprocessor.py:97-117 | returns the processed line; `processed_count` rises by 1 exactly when there is one |
| FlowIqBridge.DropPreamble | flowiq2101_bridge.py:87-91 | a leading `FBFBFBF0` is removed: the preamble followed by the result rebuilds the input; other input is left as is |
| FlowIqBridge.Trim | flowiq2101_bridge.py:83-103 | the telegram `process_telegram` cuts out (TrimIsSlice, TrimKeepsCode and TrimOfBareTelegram state it) |
| FlowIqBridge.AlignedCode | flowiq2101_bridge.py:95-99 | after aligning, the first `442D2C` sits at index 2, or at its original index 0 or 1 |
| FlowIqBridge.AlignWithoutCode | flowiq2101_bridge.py:95-96 | without the code, aligning changes nothing |
| FlowIqBridge.CutHasNoTrailer | flowiq2101_bridge.py:102-103 | the cut text is a prefix with no `FEFE`, and the whole text when it had none |
| FlowIqBridge.TrimIsSlice | flowiq2101_bridge.py:87-103 | the telegram is a contiguous slice of the input hex and contains no `FEFE` |
| FlowIqBridge.TrimKeepsCode | flowiq2101_bridge.py:95-103 | when the code is first found at index p after the preamble is dropped, the trimmed telegram keeps it, first found at index min(p, 2); this holds whether or not the notification has a trailer, since none can come before the code |
| FlowIqBridge.TrimOfBareTelegram | flowiq2101_bridge.py:87-103 | a telegram starting with the code, without preamble or trailer, passes unchanged |
| FlowIqBridge.TrimIsHex | flowiq2101_bridge.py:87-103 | upper-case hex stays upper-case hex |
| FlowIqBridge.FlowIQ2101Bridge.constructor | flowiq2101_bridge.py:29 | the counter starts at zero |
| FlowIqBridge.FlowIQ2101Bridge.ProcessTelegram | flowiq2101_bridge.py:83-105 | the returned telegram is the trimmed hex, and `telegram_count` rises by 1 |
| FlowIqBridge.FlowIQ2101Bridge.TelegramHandler | flowiq2101_bridge.py:65-72 | the telegram is processed if and only if its hex is longer than 40 digits and contains `442D2C`; only then does the count rise |
| WmbusCapture.IsPotentialWmbusTelegram | bluetooth_wmbus_capture.py:196-214 | the first script's test as written (ClassifierIff states it) |
| WmbusCapture.ClassifierIff | bluetooth_wmbus_capture.py:196-214 | true if and only if at least 20 digits and one of the six prefixes or one of the six fragments |
| WmbusCaptureEnhanced.IsPotentialWmbusTelegram | bluetooth_wmbus_capture_enhanced.py:435-457 | the enhanced test as written (EnhancedExtendsBasic and EnhancedIsWider state it) |
| WmbusCaptureEnhanced.EnhancedExtendsBasic | bluetooth_wmbus_capture_enhanced.py:435-457 | true if and only if the first script's test holds, or the text has at least 20 digits and starts with `FBFBFBF0` or contains `2D2C` |
| WmbusCaptureEnhanced.EnhancedIsWider | bluetooth_wmbus_capture_enhanced.py:442-443 | a preamble followed by zeros passes the enhanced test and fails the first one |
| WmbusCaptureEnhanced.SearchMeterId | bluetooth_wmbus_capture_enhanced.py:408 | the leftmost index where eight upper-case hex digits precede `2D2C`, or none |
| WmbusCaptureEnhanced.AnalyzeWmbusTelegram | bluetooth_wmbus_capture_enhanced.py:387-433 | the summary map, key by key (AnalyzeMaker, AnalyzeDevice and MeterIdOfUpperHex state it) |
| WmbusCaptureEnhanced.AnalyzeMaker | bluetooth_wmbus_capture_enhanced.py:401-412 | `Manufacturer` is present if and only if `2D2C` occurs; `Meter ID` if and only if the expression matches, holding its eight digits |
| WmbusCaptureEnhanced.AnalyzeDevice | bluetooth_wmbus_capture_enhanced.py:414-433 | `Device Type` is present if and only if the hex starts `FBFBFBF0`; `Frame Type` if and only if the name holds `VW` or `250111` (compact below 40 digits); `Device` if and only if `74493770` occurs; no other keys |
| WmbusCaptureEnhanced.MeterIdImpliesManufacturer | bluetooth_wmbus_capture_enhanced.py:401-411 | a meter id is only reported along with the manufacturer |
| WmbusCaptureEnhanced.MeterIdAtIff | bluetooth_wmbus_capture_enhanced.py:408 | in upper-case hex the expression matches wherever the code has eight digits before it |
| WmbusCaptureEnhanced.MeterIdFound | bluetooth_wmbus_capture_enhanced.py:408-411 | a found meter id sits right before the first code at index 8 or later |
| WmbusCaptureEnhanced.MeterIdAbsent | bluetooth_wmbus_capture_enhanced.py:408-409 | without a meter id there is no code at index 8 or later |
| WmbusCaptureEnhanced.MeterIdOfUpperHex | bluetooth_wmbus_capture_enhanced.py:408-411 | for upper-case hex, the meter id is the 8 digits before the leftmost `2D2C` at index at least 8, absent when there is none |
| BleService.NormalizeAddress | simple_ble_service/interactive_ble_service.py:309-312 | None exactly for a missing or empty address |
| BleService.NormalizeIdempotent | simple_ble_service/interactive_ble_service.py:312 | the result is upper-case hex only, and normalising it again changes nothing when it is non-empty |
| BleService.UpperHexOnlyLower | simple_ble_service/interactive_ble_service.py:312 | keeping hex digits and upper-casing ignores a prior lower-casing |
| BleService.NormalizeChar | simple_ble_service/interactive_ble_service.py:312 | one character normalises to itself upper-cased when it is a hex digit, and to nothing otherwise |
| BleService.NormalizeConcat | simple_ble_service/interactive_ble_service.py:312 | the normalised address is the normalised pieces in input order (with NormalizeChar this fixes the result completely) |
| BleService.NormalizeIgnoresCase | simple_ble_service/interactive_ble_service.py:312 | an address and its lower-case form normalise alike |
| BleService.MakeFilters | simple_ble_service/interactive_ble_service.py:77-78 | the two filters derived from the arguments (MatchesIff states the result) |
| BleService.DeviceMatchesFilters | simple_ble_service/interactive_ble_service.py:98-105 | `device_matches_filters` as written (MatchesIff, NoFiltersNoMatch and TargetMatchesItself state it) |
| BleService.MatchesIff | simple_ble_service/interactive_ble_service.py:98-105 | a device matches if and only if its address has the target's hex digits (ignoring case and separators, for a target with some hex) or its lower-cased name contains the lower-cased filter |
| BleService.NoFiltersNoMatch | simple_ble_service/interactive_ble_service.py:77-78 | without filters no device matches |
| BleService.TargetMatchesItself | simple_ble_service/interactive_ble_service.py:98-101 | the target is matched under its own address in either case, whatever its name |
| HexText.Find | flowiq2101_bridge.py:95 | `str.find`: the leftmost occurrence at or after the start, and none when there is none |
| HexText.ContainsIff | flowiq2101_bridge.py:71 | `in` holds exactly when some index has the pattern |
| HexText.ContainsAny | bluetooth_wmbus_capture.py:209-212 | the pattern loop succeeds exactly when some pattern occurs |
| HexText.StartsWithAny | bluetooth_wmbus_capture.py:204 | a tuple `startswith` holds exactly when one prefix matches |
| HexText.Upper | vw1871_frame_extractor.py:39 | upper-casing keeps the length and upper-cases each character in place |
| HexText.Lower | simple_ble_service/interactive_ble_service.py:78 | lower-casing keeps the length and maps each character |
| HexText.UpperOfHex | vw1871_frame_extractor.py:39 | upper-cased hex is upper-case hex |
| HexText.UpperOfUpperHex | vw1871_frame_extractor.py:39 | upper-casing upper-case hex changes nothing |
| HexText.Strip | vw1871_frame_extractor.py:202 | the result is a slice of the input that neither starts nor ends with whitespace, and everything cut off before and after it is whitespace |
| HexText.StripNoSpace | vw1871_preprocessor.py:99 | text without whitespace is unchanged by stripping |
| HexText.ToHex | vw1871_wrapper_parser.py:75 | `hex().upper()` gives two digits per byte |
| HexText.FromHex | vw1871_wrapper_parser.py:45 | `bytes.fromhex` of even-length hex gives one byte per digit pair |
| HexText.FromHexToHex | vw1871_wrapper_parser.py:45 | decoding the hex of bytes gives the bytes back |
| HexText.ToHexFromHex | vw1871_wrapper_parser.py:45 | encoding the bytes of even-length hex gives the digits upper-cased |
| HexText.HexOnly | vw1871_wrapper_parser.py:41 | the result is hex only and no longer than the input |
| HexText.HexOnlyOfHex | vw1871_wrapper_parser.py:41 | hex text is kept whole |
| HexText.HexOnlyChar | vw1871_wrapper_parser.py:41 | one character is kept exactly when it is a hex digit |
| HexText.HexOnlyAppend | vw1871_wrapper_parser.py:41 | filtering distributes over concatenation, so the kept digits stay in input order |
| HexText.UpperAppend | simple_ble_service/interactive_ble_service.py:312 | upper-casing distributes over concatenation |

### Proof helpers

These lemmas are steps in the proofs above, not properties of the scripts:

- FrameExtractor.ScanFramesStep: one loop turn contributes exactly the text of its window
- WrapperParser.MarkerHex: the marker bytes are `FBFBFBF0` and `FEFE0E0F` in hex
- WrapperParser.CountOfAppend: character counts add over concatenation
- WrapperParser.CountOfAbsent: a string without the character counts zero of it
- WrapperParser.NoBarAppend: concatenating bar-free texts gives a bar-free text
- WrapperParser.SeparatorBar: the separator holds one bar
- WrapperParser.JoinHead: a join begins with its first part
- WrapperParser.TurnAtIs: the two finds determine the turn
- WrapperParser.SpansAtEnd: a cursor at the end yields no frames
- WrapperParser.SpansUnfold: one turn contributes its frame exactly when its content is non-empty, then the cursor moves on
- WrapperParser.OrderedCons: a frame followed by frames that start after it stays ordered
- WrapperParser.RunAppend: one more frame appends its record and updates both tables with its content
- WrapperParser.SpansKeep: a turn with content extends the frames found so far by itself
- WrapperParser.SpansSkip: a turn without content adds nothing
- WmbusCaptureEnhanced.AbsentChar: a pattern with a character the text lacks does not occur in it
- WmbusCaptureEnhanced.KeysDistinct: the five keys differ
- BleService.LowerCharHex: lower-casing keeps a character hex or non-hex, and upper-casing undoes it
- FlowIqBridge.TrailerAfterCode: a trailer cannot start inside the manufacturer code or at most two digits before it
- HexText.CutBothEnds: cutting a whitespace suffix and then a whitespace prefix leaves a slice with only whitespace outside it

## Left out

- BLE transport: scanning, connecting, GATT discovery, `start_notify`, asyncio loops and the reconnect logic. It is foreign-library I/O.
- Stream and file I/O: the extractor's and preprocessor's `process_stream`, and the parser's `parse_jsonl_file`, `print_analysis` and `decode_fragments`. Logging, printing and timestamps are left out too.
  - The extractor's output line format is kept as `TelegramLine.OutputLine`.
- The bridge's `parse_with_wmbusmeters` call. It is a subprocess with JSON decoding, and the model stops at the telegram it would pass.
- The bridge scripts (`bluetooth_to_serial_bridge*.py`), `telegram_watchdog.py` and `oldblue/bluetooth.py`. They are pty, thread, signal and BLE plumbing.
- The two test scripts. They probe serial ports or print without asserting.
- The wrapper parser's `self.frames` list. It is initialised and never used.
- Python's Unicode case mapping. `upper` and `lower` change ASCII letters only. That is exact for hex text and addresses, but not for device names (next line). `strip` removes Python's whitespace characters.
- BleService.MatchesIff: the name filter is ASCII-only in the model. `Lower` of the filter and of device names leaves non-ASCII letters unchanged, while Python lower-cases them (and `'İ'.lower()` has two characters), so names that differ only in non-ASCII case do not match in the model.
- The preprocessor's `try`/`except` in `analyze_telegram_structure`. Slicing cannot raise there, so that branch cannot be reached.
- The bridge's `try`/`except` around the handler and `process_telegram`. No statement before the counter update can raise.
- WmbusCaptureEnhanced.AnalyzeWmbusTelegram: the result is a `map`, so Python's dict insertion order is not modelled.
  - The device is given as its name, as an optional string, rather than as a BLE device object.
- FrameExtractor.ValidateFrame: it checks only the length, the anchor prefix and the meter id anywhere in the frame, as the code does.
  - There is no length-byte check and no fixed meter-id offset.
  - The extractor's docstring describes a longer 59/70 header and a 12-digit footer. The code strips 8 and 8 digits, and the model follows the code.
- The loop bodies of `extract_frames_244_bytes` and `extract_frames` are factored into methods proved against one step of the specification: `FrameExtractor.NextWindow`, `WrapperParser.VW1871Parser.NextTurn` and `WrapperParser.VW1871Parser.RecordFrame`. The computation is the same.
