/** The enhanced capture script (`bluetooth_wmbus_capture_enhanced.py`): a
    wider wM-Bus test that also knows the VW1871 preamble and Kamstrup's
    manufacturer code, and the summary it prints for a telegram. */
module WmbusCaptureEnhanced {
  import opened HexText
  import WmbusCapture

  const MinHexLen: nat := 20
  const Preamble: string := "FBFBFBF0"
  /** Kamstrup's manufacturer code 0x2C2D, as it appears in a frame. */
  const KamstrupCode: string := "2D2C"
  /** The FlowIQ2101's serial number 74493770 as text. */
  const FlowIqId: string := "74493770"
  /** Below this many hex digits a VW1871 notification is a compact frame. */
  const CompactBelow: nat := 40

  const FrameStarts: seq<string> := ["44", "68", "2E", "1E", "23", "4D"]
  const ManufacturerPatterns: seq<string> := ["2D2C", "2C37", "2324", "11A5", "1592", "5B4", "601"]

  /** `is_potential_wmbus_telegram`. */
  function IsPotentialWmbusTelegram(hex: string): bool {
    if |hex| < MinHexLen then false
    else if StartsWith(hex, Preamble) then true
    else if StartsWithAny(hex, FrameStarts) then true
    else ContainsAny(hex, ManufacturerPatterns)
  }

  /** The enhanced test accepts what the first script's test accepts, and
      beyond that exactly the long-enough text that starts with the preamble
      or carries Kamstrup's code. */
  lemma EnhancedExtendsBasic(hex: string)
    ensures IsPotentialWmbusTelegram(hex) <==>
      WmbusCapture.IsPotentialWmbusTelegram(hex)
      || (|hex| >= MinHexLen && (StartsWith(hex, Preamble) || Contains(hex, KamstrupCode)))
  {
    assert FrameStarts == WmbusCapture.FrameStarts;
    assert ManufacturerPatterns[0] == KamstrupCode;
    assert ManufacturerPatterns[1..] == WmbusCapture.ManufacturerPatterns;
  }

  /** A pattern with a character the text lacks does not occur in it. */
  lemma AbsentChar(s: string, pat: string, k: nat)
    requires k < |pat|
    requires forall i :: 0 <= i < |s| ==> s[i] != pat[k]
    ensures !Contains(s, pat)
  {
    forall j: nat | j + |pat| <= |s| ensures !OccursAt(s, pat, j) {
      assert s[j..j + |pat|][k] == s[j + k];
    }
  }

  /** The enhanced test is strictly wider: a preamble followed by zeros
      passes it and fails the first script's test. */
  lemma EnhancedIsWider(zeros: string)
    requires |zeros| >= 12
    requires forall i :: 0 <= i < |zeros| ==> zeros[i] == '0'
    ensures IsPotentialWmbusTelegram(Preamble + zeros)
    ensures !WmbusCapture.IsPotentialWmbusTelegram(Preamble + zeros)
  {
    var s := Preamble + zeros;
    assert s[..8] == Preamble;
    forall i | 0 <= i < |s| ensures s[i] == 'F' || s[i] == 'B' || s[i] == '0' {
      if i >= 8 {
        assert s[i] == zeros[i - 8];
      }
    }
    AbsentChar(s, "2C37", 0);
    AbsentChar(s, "2324", 0);
    AbsentChar(s, "11A5", 0);
    AbsentChar(s, "1592", 0);
    AbsentChar(s, "5B4", 0);
    AbsentChar(s, "601", 0);
    assert s[0] == 'F';
    WmbusCapture.ClassifierIff(s);
  }

  // ---------------------------------------------------------------------
  // The telegram summary
  // ---------------------------------------------------------------------

  /** The expression `([0-9A-F]{8})2D2C` matches at index `i`. */
  predicate MeterIdAt(s: string, i: nat) {
    i + 12 <= |s| && AllUpperHex(s[i..i + 8]) && OccursAt(s, KamstrupCode, i + 8)
  }

  /** The leftmost index at or after `from` where that expression matches. */
  function SearchMeterId(s: string, from: nat): (r: Option<nat>)
    requires from <= |s|
    ensures r.Some? ==> from <= r.value && MeterIdAt(s, r.value)
    ensures r.Some? ==> forall j :: from <= j < r.value ==> !MeterIdAt(s, j)
    ensures r.None? ==> forall j :: from <= j ==> !MeterIdAt(s, j)
    decreases |s| - from
  {
    if MeterIdAt(s, from) then Some(from)
    else if from + 12 >= |s| then None
    else SearchMeterId(s, from + 1)
  }

  /** Whether the device name marks a VW1871 concentrator: set, non-empty,
      and containing `VW` or `250111`. */
  predicate IsVwName(deviceName: Option<string>) {
    deviceName.Some? && deviceName.value != []
    && (Contains(deviceName.value, "VW") || Contains(deviceName.value, "250111"))
  }

  /** `analyze_wmbus_telegram`, with the device given by its name; each
      test adds its key in turn. */
  function AnalyzeWmbusTelegram(hex: string, deviceName: Option<string>): map<string, string> {
    var withMaker :=
      if Contains(hex, KamstrupCode) then map["Manufacturer" := "Kamstrup (2D2C)"] else map[];
    var withId :=
      match SearchMeterId(hex, 0)
      case Some(i) => withMaker["Meter ID" := hex[i..i + 8]]
      case None => withMaker;
    var withType :=
      if StartsWith(hex, Preamble) then withId["Device Type" := "VW1871 Concentrator"] else withId;
    var withFrame :=
      if IsVwName(deviceName) then
        withType["Frame Type" := if |hex| < CompactBelow then "Compact frame" else "Full frame"]
      else withType;
    if Contains(hex, FlowIqId) then withFrame["Device" := "FlowIQ2101 (74493770)"] else withFrame
  }

  /** The five keys are distinct (their lengths differ). */
  lemma KeysDistinct()
    ensures |"Manufacturer"| == 12 && |"Meter ID"| == 8 && |"Device Type"| == 11
    ensures |"Frame Type"| == 10 && |"Device"| == 6
  {
  }

  /** The manufacturer and meter-id keys are present exactly when their
      tests hold, with the values the tests give them. */
  lemma AnalyzeMaker(hex: string, deviceName: Option<string>)
    ensures var info := AnalyzeWmbusTelegram(hex, deviceName);
      && ("Manufacturer" in info <==> Contains(hex, KamstrupCode))
      && ("Manufacturer" in info ==> info["Manufacturer"] == "Kamstrup (2D2C)")
      && ("Meter ID" in info <==> SearchMeterId(hex, 0).Some?)
      && ("Meter ID" in info ==> info["Meter ID"] == hex[SearchMeterId(hex, 0).value..SearchMeterId(hex, 0).value + 8])
  {
    KeysDistinct();
  }

  /** The device-type, frame-type and device keys are present exactly when
      their tests hold, with the values the tests give them, and no other
      keys appear. */
  lemma AnalyzeDevice(hex: string, deviceName: Option<string>)
    ensures var info := AnalyzeWmbusTelegram(hex, deviceName);
      && ("Device Type" in info <==> StartsWith(hex, Preamble))
      && ("Device Type" in info ==> info["Device Type"] == "VW1871 Concentrator")
      && ("Frame Type" in info <==> IsVwName(deviceName))
      && ("Frame Type" in info ==> info["Frame Type"] == (if |hex| < CompactBelow then "Compact frame" else "Full frame"))
      && ("Device" in info <==> Contains(hex, FlowIqId))
      && ("Device" in info ==> info["Device"] == "FlowIQ2101 (74493770)")
      && info.Keys <= {"Manufacturer", "Meter ID", "Device Type", "Frame Type", "Device"}
  {
    KeysDistinct();
  }

  /** A meter id is only reported next to the manufacturer it precedes. */
  lemma MeterIdImpliesManufacturer(hex: string, deviceName: Option<string>)
    requires "Meter ID" in AnalyzeWmbusTelegram(hex, deviceName)
    ensures "Manufacturer" in AnalyzeWmbusTelegram(hex, deviceName)
  {
    AnalyzeMaker(hex, deviceName);
    var i := SearchMeterId(hex, 0).value;
    assert OccursAt(hex, KamstrupCode, i + 8);
  }

  /** In upper-case hex the eight digits are always there: the expression
      matches wherever the code has eight digits before it. */
  lemma MeterIdAtIff(hex: string, i: nat)
    requires AllUpperHex(hex) && i + 12 <= |hex|
    ensures MeterIdAt(hex, i) <==> OccursAt(hex, KamstrupCode, i + 8)
  {
    var digits := hex[i..i + 8];
    forall k | 0 <= k < 8 ensures IsUpperHexDigit(digits[k]) {
      assert digits[k] == hex[i + k];
    }
  }

  /** A meter id found by the search sits right before the first code that
      has eight digits before it. */
  lemma MeterIdFound(hex: string)
    requires AllUpperHex(hex) && SearchMeterId(hex, 0).Some?
    ensures Find(hex, KamstrupCode, 8) == Some(SearchMeterId(hex, 0).value + 8)
  {
    var i := SearchMeterId(hex, 0).value;
    forall j | 8 <= j < i + 8 ensures !OccursAt(hex, KamstrupCode, j) {
      if j + 4 <= |hex| {
        MeterIdAtIff(hex, j - 8);
      }
    }
    FindIs(hex, KamstrupCode, 8, i + 8);
  }

  /** Without a meter id, no code has eight digits before it. */
  lemma MeterIdAbsent(hex: string)
    requires AllUpperHex(hex) && SearchMeterId(hex, 0).None? && |hex| >= 8
    ensures Find(hex, KamstrupCode, 8).None?
  {
    forall j | 8 <= j ensures !OccursAt(hex, KamstrupCode, j) {
      if j + 4 <= |hex| {
        MeterIdAtIff(hex, j - 8);
      }
    }
  }

  /** For upper-case hex, the meter id is the eight digits before the first
      manufacturer code that has eight digits before it. */
  lemma MeterIdOfUpperHex(hex: string)
    requires AllUpperHex(hex)
    ensures |hex| < 8 ==> SearchMeterId(hex, 0).None?
    ensures |hex| >= 8 ==>
      match Find(hex, KamstrupCode, 8)
      case None => SearchMeterId(hex, 0).None?
      case Some(q) => SearchMeterId(hex, 0) == Some(q - 8)
  {
    if SearchMeterId(hex, 0).Some? {
      MeterIdFound(hex);
    } else if |hex| >= 8 {
      MeterIdAbsent(hex);
    }
  }
}
