/** The FlowIQ2101 bridge (`flowiq2101_bridge.py`): a notification from the
    VW1871 concentrator is passed on when it is long enough and carries the
    Kamstrup manufacturer code; the telegram is then cut out of it by
    dropping the concentrator's preamble, moving to the length byte before
    the manufacturer code and cutting before the first trailer. */
module FlowIqBridge {
  import opened HexText

  /** The frame's length and C-field byte followed by Kamstrup's code 0x2C2D. */
  const KamstrupCode: string := "442D2C"
  const Preamble: string := "FBFBFBF0"
  const Trailer: string := "FEFE"
  /** The handler ignores notifications of this many hex digits or fewer. */
  const MinHexLen: nat := 40

  /** The test in `telegram_handler` before `process_telegram` is called. */
  predicate HandlerAccepts(hex: string) {
    |hex| > MinHexLen && Contains(hex, KamstrupCode)
  }

  /** Step one of `process_telegram`: drop a leading preamble. */
  function DropPreamble(hex: string): (t: string)
    ensures StartsWith(hex, Preamble) ==> hex == Preamble + t
    ensures !StartsWith(hex, Preamble) ==> t == hex
  {
    if StartsWith(hex, Preamble) then hex[8..] else hex
  }

  /** Where step two starts the telegram, given where `find` saw the code. */
  function AlignStart(codePos: Option<nat>): nat {
    match codePos
    case Some(p) => if p > 0 then (if p - 2 < 0 then 0 else p - 2) else 0
    case None => 0
  }

  /** Step two: start two digits (the length byte) before the first
      manufacturer code, when that code is not already at the start. */
  function AlignToLength(t: string): string {
    t[AlignStart(Find(t, KamstrupCode, 0))..]
  }

  /** Step three: cut before the first trailer. */
  function CutTrailer(t: string): string {
    if Contains(t, Trailer) then t[..Find(t, Trailer, 0).value] else t
  }

  /** The telegram `process_telegram` hands to wmbusmeters. */
  function Trim(hex: string): string {
    CutTrailer(AlignToLength(DropPreamble(hex)))
  }

  /** Aligning keeps a suffix in which the first manufacturer code sits at
      index 2, or at index 0 or 1 when it was that close to the start. */
  lemma AlignedCode(t: string, p: nat)
    requires Find(t, KamstrupCode, 0) == Some(p)
    ensures AlignToLength(t) == t[AlignStart(Some(p))..]
    ensures Find(AlignToLength(t), KamstrupCode, 0) == Some(if p < 2 then p else 2)
  {
    var lo := AlignStart(Some(p));
    var a := AlignToLength(t);
    assert a == t[lo..|t|];
    OccursInSliceIff(t, lo, |t|, KamstrupCode, p - lo);
    forall j | 0 <= j < p - lo ensures !OccursAt(a, KamstrupCode, j) {
      OccursInSliceIff(t, lo, |t|, KamstrupCode, j);
    }
    FindIs(a, KamstrupCode, 0, p - lo);
  }

  /** Without a manufacturer code, aligning changes nothing. */
  lemma AlignWithoutCode(t: string)
    requires !Contains(t, KamstrupCode)
    ensures AlignToLength(t) == t
  {
  }

  /** The cut text is a prefix of its input with no trailer in it, and the
      whole input when there was none. */
  lemma CutHasNoTrailer(t: string)
    ensures |CutTrailer(t)| <= |t| && CutTrailer(t) == t[..|CutTrailer(t)|]
    ensures !Contains(CutTrailer(t), Trailer)
    ensures !Contains(t, Trailer) ==> CutTrailer(t) == t
  {
    if Contains(t, Trailer) {
      var p := Find(t, Trailer, 0).value;
      var c := t[..p];
      assert c == t[0..p];
      if Contains(c, Trailer) {
        var j := Find(c, Trailer, 0).value;
        OccursInSliceIff(t, 0, p, Trailer, j);
        assert false;
      }
    }
  }

  /** The telegram is one contiguous piece of the notification, with no
      trailer in it. */
  lemma TrimIsSlice(hex: string)
    ensures exists lo, hi :: 0 <= lo <= hi <= |hex| && Trim(hex) == hex[lo..hi]
    ensures !Contains(Trim(hex), Trailer)
  {
    var d := if StartsWith(hex, Preamble) then 8 else 0;
    var t := DropPreamble(hex);
    assert t == hex[d..];
    var a := AlignStart(Find(t, KamstrupCode, 0));
    var u := AlignToLength(t);
    assert u == hex[d + a..];
    CutHasNoTrailer(u);
    var n := |Trim(hex)|;
    assert Trim(hex) == u[..n] == hex[d + a..d + a + n];
  }

  /** No digit of the manufacturer code is an `F`, so a trailer cannot
      start inside it, nor at most two digits before it. */
  lemma TrailerAfterCode(u: string, q: nat, j: nat)
    requires q <= 2 && OccursAt(u, KamstrupCode, q) && OccursAt(u, Trailer, j)
    ensures q + 6 <= j
  {
    forall x | q <= x < q + 6 ensures u[x] != 'F' && u[x] != 'E' {
      assert u[x] == u[q..q + 6][x - q];
    }
    forall x | j <= x < j + 4 ensures u[x] == 'F' || u[x] == 'E' {
      assert u[x] == u[j..j + 4][x - j];
    }
    assert u[j] == 'F' && u[q] == '4';
  }

  /** The first manufacturer code survives trimming, two digits in (or
      closer when it was nearer the start): no trailer can come before it,
      since the aligned text holds at most two digits before the code and
      no digit of the code is an `F`. */
  lemma TrimKeepsCode(hex: string, p: nat)
    requires Find(DropPreamble(hex), KamstrupCode, 0) == Some(p)
    ensures Find(Trim(hex), KamstrupCode, 0) == Some(if p < 2 then p else 2)
  {
    var t := DropPreamble(hex);
    AlignedCode(t, p);
    var u := AlignToLength(t);
    var q := if p < 2 then p else 2;
    if Contains(u, Trailer) {
      var j := Find(u, Trailer, 0).value;
      TrailerAfterCode(u, q, j);
      var c := u[..j];
      assert c == u[0..j];
      OccursInSliceIff(u, 0, j, KamstrupCode, q);
      forall i | 0 <= i < q ensures !OccursAt(c, KamstrupCode, i) {
        OccursInSliceIff(u, 0, j, KamstrupCode, i);
      }
      FindIs(c, KamstrupCode, 0, q);
    }
  }

  /** A telegram already in place (code at the start, no preamble or
      trailer) passes through untouched. */
  lemma TrimOfBareTelegram(hex: string)
    requires StartsWith(hex, KamstrupCode) && !StartsWith(hex, Preamble)
    requires !Contains(hex, Trailer)
    ensures Trim(hex) == hex
  {
    assert OccursAt(hex, KamstrupCode, 0);
    FindIs(hex, KamstrupCode, 0, 0);
  }

  /** The bridge's hex digits stay hex digits. */
  lemma TrimIsHex(hex: string)
    requires AllUpperHex(hex)
    ensures AllUpperHex(Trim(hex))
  {
    TrimIsSlice(hex);
    var lo, hi :| 0 <= lo <= hi <= |hex| && Trim(hex) == hex[lo..hi];
    forall i | 0 <= i < hi - lo ensures IsUpperHexDigit(Trim(hex)[i]) {
      assert Trim(hex)[i] == hex[lo + i];
    }
  }

  class FlowIQ2101Bridge {
    /** Telegrams passed on so far. */
    var telegramCount: nat

    constructor ()
      ensures telegramCount == 0
    {
      telegramCount := 0;
    }

    /** `process_telegram`, up to the call into wmbusmeters. */
    method ProcessTelegram(hex: string) returns (telegram: string)
      modifies this
      ensures telegram == Trim(hex)
      ensures telegramCount == old(telegramCount) + 1
    {
      if StartsWith(hex, Preamble) {
        telegram := hex[8..];
      } else {
        telegram := hex;
      }
      var mfctPos := Find(telegram, KamstrupCode, 0);
      if mfctPos.Some? && mfctPos.value > 0 {
        var startPos := if mfctPos.value - 2 < 0 then 0 else mfctPos.value - 2;
        telegram := telegram[startPos..];
      }
      if Contains(telegram, Trailer) {
        telegram := telegram[..Find(telegram, Trailer, 0).value];
      }
      telegramCount := telegramCount + 1;
    }

    /** `telegram_handler`: the notification's bytes as upper-case hex, passed
        on when the filter accepts them. */
    method TelegramHandler(data: seq<byte>) returns (telegram: Option<string>)
      modifies this
      ensures telegram.Some? <==> HandlerAccepts(ToHex(data))
      ensures telegram.Some? ==> telegram.value == Trim(ToHex(data))
      ensures telegramCount == old(telegramCount) + (if telegram.Some? then 1 else 0)
    {
      var hexData := ToHex(data);
      if |hexData| > MinHexLen && Contains(hexData, KamstrupCode) {
        var t := ProcessTelegram(hexData);
        return Some(t);
      }
      return None;
    }
  }
}
