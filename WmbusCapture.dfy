/** The first capture script's test for notifications that look like wM-Bus
    telegrams (`bluetooth_wmbus_capture.py`): long enough, and either
    starting with a typical first byte or carrying one of a few
    manufacturer-code fragments. */
module WmbusCapture {
  import opened HexText

  /** Shorter notifications are never telegrams. */
  const MinHexLen: nat := 20
  /** First bytes the script takes as the start of a frame. */
  const FrameStarts: seq<string> := ["44", "68", "2E", "1E", "23", "4D"]
  /** Manufacturer-code fragments it looks for anywhere. */
  const ManufacturerPatterns: seq<string> := ["2C37", "2324", "11A5", "1592", "5B4", "601"]

  /** `is_potential_wmbus_telegram`. */
  function IsPotentialWmbusTelegram(hex: string): bool {
    if |hex| < MinHexLen then false
    else if StartsWithAny(hex, FrameStarts) then true
    else ContainsAny(hex, ManufacturerPatterns)
  }

  /** The test accepts exactly the long-enough text that starts with one of
      the six first bytes or contains one of the six fragments. */
  lemma ClassifierIff(hex: string)
    ensures IsPotentialWmbusTelegram(hex) <==>
      |hex| >= MinHexLen
      && (StartsWith(hex, "44") || StartsWith(hex, "68") || StartsWith(hex, "2E")
          || StartsWith(hex, "1E") || StartsWith(hex, "23") || StartsWith(hex, "4D")
          || Contains(hex, "2C37") || Contains(hex, "2324") || Contains(hex, "11A5")
          || Contains(hex, "1592") || Contains(hex, "5B4") || Contains(hex, "601"))
  {
    var f := FrameStarts;
    assert StartsWithAny(hex, f) <==> exists k :: 0 <= k < 6 && StartsWith(hex, f[k]);
    assert f[0] == "44" && f[1] == "68" && f[2] == "2E" && f[3] == "1E" && f[4] == "23" && f[5] == "4D";
    var m := ManufacturerPatterns;
    assert ContainsAny(hex, m) <==> exists k :: 0 <= k < 6 && Contains(hex, m[k]);
    assert m[0] == "2C37" && m[1] == "2324" && m[2] == "11A5" && m[3] == "1592" && m[4] == "5B4" && m[5] == "601";
  }
}
