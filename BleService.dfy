/** Address normalisation and device filtering of the interactive BLE
    logger (`simple_ble_service/interactive_ble_service.py`): a device is
    selected when its normalised address equals the normalised target
    address, or when its lower-cased name contains the lower-cased name
    filter. */
module BleService {
  import opened HexText

  /** `normalize_address`: `None` for a missing or empty address, otherwise
      its hex digits, upper-cased; separators and other characters go. */
  function NormalizeAddress(addr: Option<string>): (r: Option<string>)
    ensures r.None? <==> addr.None? || addr.value == []
  {
    if addr.None? || addr.value == [] then None else Some(Upper(HexOnly(addr.value)))
  }

  /** A normalised address is upper-case hex; normalising it again changes
      nothing unless it came out empty. */
  lemma NormalizeIdempotent(addr: Option<string>)
    requires NormalizeAddress(addr).Some?
    ensures AllUpperHex(NormalizeAddress(addr).value)
    ensures NormalizeAddress(addr).value != [] ==>
      NormalizeAddress(NormalizeAddress(addr)) == NormalizeAddress(addr)
  {
    var n := NormalizeAddress(addr).value;
    UpperOfHex(HexOnly(addr.value));
    if n != [] {
      HexOnlyOfHex(n);
      UpperOfUpperHex(n);
    }
  }

  /** Lower-casing a character keeps it a hex digit or a non-digit, and
      upper-casing undoes it. */
  lemma LowerCharHex(c: char)
    ensures IsHexDigit(LowerChar(c)) <==> IsHexDigit(c)
    ensures UpperChar(LowerChar(c)) == UpperChar(c)
  {
  }

  lemma {:induction false} UpperHexOnlyLower(s: string)
    ensures Upper(HexOnly(Lower(s))) == Upper(HexOnly(s))
  {
    if s != [] {
      var l := Lower(s);
      assert l[1..] == Lower(s[1..]);
      UpperHexOnlyLower(s[1..]);
      LowerCharHex(s[0]);
      var rest := HexOnly(s[1..]);
      if IsHexDigit(s[0]) {
        assert HexOnly(l) == [l[0]] + HexOnly(l[1..]);
        assert HexOnly(s) == [s[0]] + rest;
        assert ([l[0]] + HexOnly(l[1..]))[1..] == HexOnly(l[1..]);
        assert ([s[0]] + rest)[1..] == rest;
      } else {
        assert HexOnly(l) == HexOnly(l[1..]);
        assert HexOnly(s) == rest;
      }
    }
  }

  /** Normalising a single character keeps it, upper-cased, exactly when
      it is a hex digit. */
  lemma NormalizeChar(c: char)
    ensures NormalizeAddress(Some([c])) == Some(if IsHexDigit(c) then [UpperChar(c)] else [])
  {
    HexOnlyChar(c);
    assert [UpperChar(c)] == [UpperChar(c)] + Upper([]);
  }

  /** Normalising works piece by piece: the normalised address is the
      normalised pieces in their input order. */
  lemma NormalizeConcat(a: string, b: string)
    requires a != [] && b != []
    ensures NormalizeAddress(Some(a + b)).value
              == NormalizeAddress(Some(a)).value + NormalizeAddress(Some(b)).value
  {
    HexOnlyAppend(a, b);
    UpperAppend(HexOnly(a), HexOnly(b));
  }

  /** Normalisation ignores the case of the address. */
  lemma NormalizeIgnoresCase(addr: string)
    ensures NormalizeAddress(Some(Lower(addr))) == NormalizeAddress(Some(addr))
  {
    UpperHexOnlyLower(addr);
  }

  /** The filters the logger derives from its arguments (lines 77-78). */
  datatype Filters = Filters(targetAddressNorm: Option<string>, nameContains: Option<string>)

  /** A device as the filter sees it: its address and, if advertised, its name. */
  datatype Device = Device(address: string, name: Option<string>)

  /** Python's truth value of an optional string. */
  predicate Truthy(s: Option<string>) {
    s.Some? && s.value != []
  }

  function MakeFilters(targetAddress: Option<string>, nameContains: Option<string>): Filters {
    Filters(if Truthy(targetAddress) then NormalizeAddress(targetAddress) else None,
            if Truthy(nameContains) then Some(Lower(nameContains.value)) else None)
  }

  /** `device_matches_filters`. */
  predicate DeviceMatchesFilters(f: Filters, d: Device) {
    (Truthy(f.targetAddressNorm) && NormalizeAddress(Some(d.address)) == f.targetAddressNorm)
    || (Truthy(f.nameContains)
        && Find(Lower(if d.name.Some? then d.name.value else []), f.nameContains.value, 0).Some?)
  }

  /** A device is selected exactly when its address has the same hex digits
      as the target, ignoring case and separators, or its name contains the
      name filter, ignoring case; an empty filter never selects. */
  lemma MatchesIff(targetAddress: Option<string>, nameContains: Option<string>, d: Device)
    ensures DeviceMatchesFilters(MakeFilters(targetAddress, nameContains), d) <==>
      (Truthy(targetAddress) && HexOnly(targetAddress.value) != [] && d.address != []
       && Upper(HexOnly(d.address)) == Upper(HexOnly(targetAddress.value)))
      || (Truthy(nameContains)
          && Contains(Lower(if d.name.Some? then d.name.value else []), Lower(nameContains.value)))
  {
    if Truthy(targetAddress) && HexOnly(targetAddress.value) == [] {
      assert |Upper(HexOnly(targetAddress.value))| == 0;
    }
  }

  /** Without filters no device is selected. */
  lemma NoFiltersNoMatch(targetAddress: Option<string>, nameContains: Option<string>, d: Device)
    requires !Truthy(targetAddress) && !Truthy(nameContains)
    ensures !DeviceMatchesFilters(MakeFilters(targetAddress, nameContains), d)
  {
  }

  /** The target device is found under its own address in either case, and
      with any name. */
  lemma TargetMatchesItself(target: string, name: Option<string>, nameContains: Option<string>)
    requires HexOnly(target) != []
    ensures DeviceMatchesFilters(MakeFilters(Some(target), nameContains), Device(target, name))
    ensures DeviceMatchesFilters(MakeFilters(Some(target), nameContains), Device(Lower(target), name))
  {
    NormalizeIgnoresCase(target);
    assert |Lower(target)| == |target| > 0;
  }
}
