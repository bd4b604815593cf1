/** The VW1871 preprocessor (`vw1871_preprocessor.py`): reads the bridge's
    `telegram=|HEX|` lines, checks that the telegram is long enough to hold
    a wM-Bus link-layer header (the L, C, M, A and CI fields of EN 13757-4),
    and writes the telegram back out unchanged, counting the lines it
    converts. */
module Preprocessor {
  import opened HexText
  import TelegramLine

  /** Hex digits in the link-layer header up to and including the address:
      L (1 byte), C (1 byte), M (2 bytes) and A (6 bytes). */
  const MinTelegramLen: nat := 20

  const TooShort: string := "Telegram too short"

  /** `extract_telegram_data`: the field of a `telegram=|HEX|` line,
      upper-cased.  Unlike the frame extractor there is no bare-hex fallback. */
  function ExtractTelegramData(line: string): (r: Option<string>)
    ensures r.Some? ==> r.value != [] && AllUpperHex(r.value)
  {
    match TelegramLine.TelegramField(line)
    case Some(f) => UpperOfHex(f); Some(Upper(f))
    case None => None
  }

  /** A line without the tag yields nothing, however much hex it holds. */
  lemma NoTagNoTelegram(line: string)
    requires !Contains(line, TelegramLine.Tag)
    ensures ExtractTelegramData(line).None?
  {
    if TelegramLine.TelegramField(line).Some? {
      TelegramLine.TelegramFieldHasTag(line);
    }
  }

  /** What the preprocessor writes is read back as the same telegram. */
  lemma ExtractWrittenLine(hex: string, rest: string)
    requires hex != [] && AllUpperHex(hex)
    ensures ExtractTelegramData(TelegramLine.Tag + hex + "|" + rest) == Some(hex)
  {
    TelegramLine.FieldRoundTrip(hex, rest);
    UpperOfUpperHex(hex);
  }

  /** The dictionary `analyze_telegram_structure` returns. */
  datatype Structure =
    | Invalid(error: string)
    | Valid(length: string, cField: string, mField: string, aField: string,
            ciField: string, payload: string, totalLength: nat)

  /** `analyze_telegram_structure`: the header fields as hex slices.  Python's
      `hex_data[20:22]` keeps one digit when the text has 21. */
  function AnalyzeTelegramStructure(hex: string): (r: Structure)
  {
    if |hex| < MinTelegramLen then Invalid(TooShort)
    else
      Valid(hex[0..2], hex[2..4], hex[4..8], hex[8..20],
            if |hex| > 20 then hex[20..if |hex| < 22 then |hex| else 22] else [],
            if |hex| > 22 then hex[22..] else [],
            |hex| / 2)
  }

  /** The analysis is invalid exactly for short text, and otherwise splits it
      without loss into fields of 2, 2, 4 and 12 digits, a CI field of at
      most 2 and the payload, with the byte count rounded down. */
  lemma StructureSplits(hex: string)
    ensures AnalyzeTelegramStructure(hex).Invalid? <==> |hex| < MinTelegramLen
    ensures AnalyzeTelegramStructure(hex).Invalid? ==> AnalyzeTelegramStructure(hex).error == TooShort
    ensures AnalyzeTelegramStructure(hex).Valid? ==>
      var a := AnalyzeTelegramStructure(hex);
      a.length + a.cField + a.mField + a.aField + a.ciField + a.payload == hex
      && |a.length| == 2 && |a.cField| == 2 && |a.mField| == 4 && |a.aField| == 12
      && |a.ciField| <= 2 && (|a.ciField| == 2 <==> |hex| >= 22)
      && (a.payload != [] <==> |hex| > 22)
      && 2 * a.totalLength <= |hex| < 2 * a.totalLength + 2
  {
    if |hex| >= MinTelegramLen {
      var a := AnalyzeTelegramStructure(hex);
      assert hex == hex[0..2] + hex[2..4] + hex[4..8] + hex[8..20] + hex[20..];
      if |hex| > 22 {
        assert hex[20..] == a.ciField + a.payload;
      } else {
        assert hex[20..] == a.ciField;
      }
    }
  }

  /** `convert_to_wmbus_format`: the telegram itself when its structure is
      valid. */
  function ConvertToWmbusFormat(hex: string): Option<string>
  {
    if AnalyzeTelegramStructure(hex).Invalid? then None else Some(hex)
  }

  /** The conversion rejects exactly the short telegrams and is otherwise the
      identity. */
  lemma ConvertIsIdentity(hex: string)
    ensures ConvertToWmbusFormat(hex).None? <==> |hex| < MinTelegramLen
    ensures ConvertToWmbusFormat(hex).Some? ==> ConvertToWmbusFormat(hex).value == hex
  {
  }

  /** What `process_line` returns for a raw line. */
  function ProcessedLine(rawLine: string): Option<string>
  {
    var line := Strip(rawLine);
    if line == [] || !Contains(line, "telegram=") then None
    else
      match ExtractTelegramData(line)
      case None => None
      case Some(hex) =>
        match ConvertToWmbusFormat(hex)
        case None => None
        case Some(converted) =>
          if converted == [] then None else Some(TelegramLine.Tag + converted + "|")
  }

  /** A line is converted exactly when its stripped text carries a field of
      at least 20 digits; the output is that field, upper-cased, in the tag. */
  lemma ProcessedLineSpec(rawLine: string)
    ensures ProcessedLine(rawLine).Some? <==>
      TelegramLine.TelegramField(Strip(rawLine)).Some?
      && |TelegramLine.TelegramField(Strip(rawLine)).value| >= MinTelegramLen
    ensures ProcessedLine(rawLine).Some? ==>
      ProcessedLine(rawLine).value
        == TelegramLine.Tag + Upper(TelegramLine.TelegramField(Strip(rawLine)).value) + "|"
  {
    var line := Strip(rawLine);
    var field := TelegramLine.TelegramField(line);
    if field.Some? {
      TelegramLine.TelegramFieldHasTag(line);
      assert line != [];
      assert ExtractTelegramData(line) == Some(Upper(field.value));
    } else {
      assert ExtractTelegramData(line).None?;
    }
  }

  /** No character of a written line is one that `strip` removes. */
  lemma WrittenLineHasNoSpace(hex: string)
    requires AllUpperHex(hex)
    ensures Strip(TelegramLine.Tag + hex + "|") == TelegramLine.Tag + hex + "|"
  {
    var s := TelegramLine.Tag + hex + "|";
    forall i | 0 <= i < |s| ensures !IsSpace(s[i]) {
      if i < |TelegramLine.Tag| {
        assert s[i] == TelegramLine.Tag[i];
      } else if i < |TelegramLine.Tag| + |hex| {
        assert s[i] == hex[i - |TelegramLine.Tag|];
      }
    }
    StripNoSpace(s);
  }

  /** Feeding the preprocessor its own output changes nothing. */
  lemma ProcessIdempotent(rawLine: string)
    requires ProcessedLine(rawLine).Some?
    ensures ProcessedLine(ProcessedLine(rawLine).value) == ProcessedLine(rawLine)
  {
    ProcessedLineSpec(rawLine);
    var hex := Upper(TelegramLine.TelegramField(Strip(rawLine)).value);
    UpperOfHex(TelegramLine.TelegramField(Strip(rawLine)).value);
    var out := TelegramLine.Tag + hex + "|";
    WrittenLineHasNoSpace(hex);
    assert out + [] == out;
    TelegramLine.FieldRoundTrip(hex, []);
    UpperOfUpperHex(hex);
    ProcessedLineSpec(out);
  }

  class VW1871Preprocessor {
    /** Lines converted so far. */
    var processedCount: nat

    constructor ()
      ensures processedCount == 0
    {
      processedCount := 0;
    }

    /** `process_line`. */
    method ProcessLine(rawLine: string) returns (r: Option<string>)
      modifies this
      ensures r == ProcessedLine(rawLine)
      ensures r.Some? ==> processedCount == old(processedCount) + 1
      ensures r.None? ==> processedCount == old(processedCount)
    {
      var line := Strip(rawLine);
      if line == [] || !Contains(line, "telegram=") {
        return None;
      }
      var hexData := ExtractTelegramData(line);
      if hexData.None? {
        return None;
      }
      var converted := ConvertToWmbusFormat(hexData.value);
      if converted.Some? && converted.value != [] {
        processedCount := processedCount + 1;
        return Some(TelegramLine.Tag + converted.value + "|");
      }
      return None;
    }
  }
}
