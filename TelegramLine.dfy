/** The line format `telegram=|<HEX>|` that the concentrator scripts read and
    write.  Both the frame extractor and the preprocessor look for it with
    `re.search(r'telegram=\|([0-9A-Fa-f]+)\|', line)`; this module states that
    search once: the leftmost index where the tag is followed by a non-empty
    run of hex digits and a closing `|`. */
module TelegramLine {
  import opened HexText

  const Tag: string := "telegram=|"

  /** The length of the run of hex digits starting at index `i`. */
  function HexRun(s: string, i: nat): (n: nat)
    requires i <= |s|
    ensures i + n <= |s|
    ensures forall k :: i <= k < i + n ==> IsHexDigit(s[k])
    ensures i + n == |s| || !IsHexDigit(s[i + n])
    decreases |s| - i
  {
    if i < |s| && IsHexDigit(s[i]) then 1 + HexRun(s, i + 1) else 0
  }

  lemma {:induction false} HexRunExact(s: string, i: nat, m: nat)
    requires i + m < |s|
    requires forall k :: i <= k < i + m ==> IsHexDigit(s[k])
    requires !IsHexDigit(s[i + m])
    ensures HexRun(s, i) == m
    decreases m
  {
    if m > 0 {
      HexRunExact(s, i + 1, m - 1);
    }
  }

  /** The regular expression matched at index `i`: the tag, the greedy hex
      run (a hex run cannot be followed by a hex digit, so no shorter run
      can reach the `|`), then `|`. */
  function MatchAt(s: string, i: nat): Option<string>
    requires i <= |s|
  {
    if !OccursAt(s, Tag, i) then None
    else
      var j := i + |Tag|;
      var n := HexRun(s, j);
      if n > 0 && j + n < |s| && s[j + n] == '|' then Some(s[j..j + n]) else None
  }

  /** `f` is a field the expression can capture at index `i`. */
  predicate FieldAt(s: string, i: nat, f: string) {
    f != [] && AllHex(f) && OccursAt(s, Tag + f + "|", i)
  }

  /** What the expression captures at `i` is a field sitting at `i`. */
  lemma MatchAtSound(s: string, i: nat, f: string)
    requires i <= |s| && MatchAt(s, i) == Some(f)
    ensures FieldAt(s, i, f)
  {
    var j := i + |Tag|;
    var n := HexRun(s, j);
    assert n == |f| && s[j..j + n] == f && s[j + n] == '|';
    assert s[i..j] == Tag;
    assert s[i..i + |Tag + f + "|"|] == s[i..j] + s[j..j + n] + [s[j + n]];
  }

  /** A field sitting at `i` is what the expression captures there. */
  lemma MatchAtComplete(s: string, i: nat, f: string)
    requires i <= |s| && FieldAt(s, i, f)
    ensures MatchAt(s, i) == Some(f)
  {
    var t := Tag + f + "|";
    var j := i + |Tag|;
    SliceOfSlice(s, i, i + |t|, 0, |Tag|);
    assert t[0..|Tag|] == Tag;
    SliceOfSlice(s, i, i + |t|, |Tag|, |Tag| + |f|);
    assert t[|Tag|..|Tag| + |f|] == f;
    assert s[j + |f|] == t[|Tag| + |f|];
    forall k | j <= k < j + |f| ensures IsHexDigit(s[k]) {
      assert s[k] == f[k - j];
    }
    HexRunExact(s, j, |f|);
  }

  /** The expression matches at `i` exactly when a field sits at `i`, and it
      captures that field. */
  lemma MatchAtIff(s: string, i: nat, f: string)
    requires i <= |s|
    ensures MatchAt(s, i) == Some(f) <==> FieldAt(s, i, f)
  {
    if MatchAt(s, i) == Some(f) {
      MatchAtSound(s, i, f);
    }
    if FieldAt(s, i, f) {
      MatchAtComplete(s, i, f);
    }
  }

  /** The leftmost index at or after `from` where the expression matches. */
  function SearchPos(s: string, from: nat): (r: Option<nat>)
    requires from <= |s|
    ensures r.Some? ==> from <= r.value <= |s| && MatchAt(s, r.value).Some?
    ensures r.Some? ==> forall j :: from <= j < r.value ==> MatchAt(s, j).None?
    ensures r.None? ==> forall j :: from <= j <= |s| ==> MatchAt(s, j).None?
    decreases |s| - from
  {
    if MatchAt(s, from).Some? then Some(from)
    else if from == |s| then None
    else SearchPos(s, from + 1)
  }

  /** `re.search(r'telegram=\|([0-9A-Fa-f]+)\|', s).group(1)`, or `None`
      when there is no match. */
  function TelegramField(s: string): (r: Option<string>)
    ensures r.Some? ==> r.value != [] && AllHex(r.value)
  {
    match SearchPos(s, 0)
    case None => None
    case Some(i) => MatchAt(s, i)
  }

  /** Soundness: a captured field sits in the line, with no field further left. */
  lemma TelegramFieldSound(s: string)
    requires TelegramField(s).Some?
    ensures exists i :: FieldAt(s, i, TelegramField(s).value)
              && forall j: nat, g :: j < i && FieldAt(s, j, g) ==> false
  {
    var i := SearchPos(s, 0).value;
    var f := TelegramField(s).value;
    MatchAtIff(s, i, f);
    forall j: nat, g | j < i && FieldAt(s, j, g) ensures false {
      assert j <= |s|;
      MatchAtIff(s, j, g);
    }
  }

  /** Completeness: the leftmost field of a line is what the search captures. */
  lemma TelegramFieldLeftmost(s: string, i: nat, f: string)
    requires FieldAt(s, i, f)
    requires forall j: nat, g :: j < i && FieldAt(s, j, g) ==> false
    ensures TelegramField(s) == Some(f)
  {
    assert i <= |s|;
    MatchAtIff(s, i, f);
    var p := SearchPos(s, 0);
    assert p.Some?;
    if p.value < i {
      var g := MatchAt(s, p.value).value;
      MatchAtIff(s, p.value, g);
      assert false;
    }
  }

  /** A line the search captures from contains the tag, and so the text
      `telegram=` that the preprocessor tests for first. */
  lemma TelegramFieldHasTag(s: string)
    requires TelegramField(s).Some?
    ensures Contains(s, Tag) && Contains(s, "telegram=")
  {
    var i := SearchPos(s, 0).value;
    var f := TelegramField(s).value;
    MatchAtIff(s, i, f);
    SliceOfSlice(s, i, i + |Tag + f + "|"|, 0, |Tag|);
    assert (Tag + f + "|")[0..|Tag|] == Tag;
    assert OccursAt(s, Tag, i);
    SliceOfSlice(s, i, i + |Tag|, 0, 9);
    assert Tag[0..9] == "telegram=";
    assert OccursAt(s, "telegram=", i);
  }

  /** A line that begins with a field yields that field, whatever follows. */
  lemma FieldRoundTrip(f: string, rest: string)
    requires f != [] && AllHex(f)
    ensures TelegramField(Tag + f + "|" + rest) == Some(f)
  {
    var s := Tag + f + "|" + rest;
    assert s[0..|Tag + f + "|"|] == Tag + f + "|";
    TelegramFieldLeftmost(s, 0, f);
  }

  /** The line `process_stream` writes for one frame. */
  function OutputLine(frame: string): (line: string)
    ensures StartsWith(line, Tag) && EndsWith(line, "|\n")
  {
    Tag + frame + "|\n"
  }

  /** Reading back a written line recovers the frame. */
  lemma OutputRoundTrip(frame: string)
    requires frame != [] && AllHex(frame)
    ensures TelegramField(OutputLine(frame)) == Some(frame)
  {
    assert OutputLine(frame) == Tag + frame + "|" + "\n";
    FieldRoundTrip(frame, "\n");
  }
}
