/** How the controller picks its MIDI input: by index when the selector is a number naming an
    input, otherwise by case-insensitive name prefix; and the guard its constructor applies
    before the search. */
module DeviceSelection {
  import opened Primitives
  import opened Devices
  import Profiles

  // ---------------------------------------------------------------------------------------
  // int.TryParse (invariant culture, ASCII)

  predicate IsDigit(c: char)
  {
    '0' <= c <= '9'
  }

  /** The white space int.TryParse skips around the number: space and tab through carriage return. */
  predicate IsSpace(c: char)
  {
    c == ' ' || '\t' <= c <= '\r'
  }

  predicate AllDigits(s: string)
  {
    forall i :: 0 <= i < |s| ==> IsDigit(s[i])
  }

  function DigitValue(c: char): nat
    requires IsDigit(c)
  {
    c as int - '0' as int
  }

  /** The value of a decimal digit string, most significant digit first. */
  function DigitsValue(s: string): nat
    requires AllDigits(s)
  {
    if s == [] then 0 else 10 * DigitsValue(s[..|s| - 1]) + DigitValue(s[|s| - 1])
  }

  function TrimStart(s: string): (t: string)
    ensures |t| <= |s| && t == s[|s| - |t|..]
    ensures t != [] ==> !IsSpace(t[0])
  {
    if s != [] && IsSpace(s[0]) then TrimStart(s[1..]) else s
  }

  function TrimEnd(s: string): (t: string)
    ensures |t| <= |s| && t == s[..|t|]
    ensures t != [] ==> !IsSpace(t[|t| - 1])
  {
    if s != [] && IsSpace(s[|s| - 1]) then TrimEnd(s[..|s| - 1]) else s
  }

  /** int.TryParse: optional white space, an optional sign, at least one digit, optional white
      space, and a value that fits in 32 bits. */
  function ParseInt32(s: string): (r: Option<int>)
    ensures r.Some? ==> IntMin <= r.value <= IntMax
  {
    ParseTrimmed(TrimEnd(TrimStart(s)))
  }

  /** The sign and the digits, once the white space is trimmed. */
  function ParseTrimmed(t: string): Option<int>
  {
    if t == [] then None
    else
      var negative := t[0] == '-';
      var digits := if t[0] == '-' || t[0] == '+' then t[1..] else t;
      if digits == [] || !AllDigits(digits) then None
      else
        var v := if negative then 0 - DigitsValue(digits) else DigitsValue(digits);
        if IntMin <= v <= IntMax then Some(v) else None
  }

  /** The decimal digits of a natural number, as int.ToString writes them. */
  function Decimal(n: nat): (s: string)
    ensures |s| > 0 && AllDigits(s)
  {
    var d := ['0' + (n % 10) as char];
    if n < 10 then d else Decimal(n / 10) + d
  }

  function ShowInt(n: int): string
  {
    if n < 0 then "-" + Decimal(-n) else Decimal(n)
  }

  lemma {:induction false} DecimalValue(n: nat)
    ensures DigitsValue(Decimal(n)) == n
  {
    var s := Decimal(n);
    if n >= 10 {
      DecimalValue(n / 10);
      assert s[..|s| - 1] == Decimal(n / 10);
    }
  }

  /** Trimming leaves a string that starts and ends with a non-space as it is. */
  lemma TrimmedAlready(s: string)
    requires s != [] && !IsSpace(s[0]) && !IsSpace(s[|s| - 1])
    ensures TrimEnd(TrimStart(s)) == s
  {
  }

  /** A digit string parses to its value when that fits. */
  lemma ParseDigits(d: string)
    requires |d| > 0 && AllDigits(d) && DigitsValue(d) <= IntMax
    ensures ParseInt32(d) == Some(DigitsValue(d))
  {
    assert IsDigit(d[0]) && IsDigit(d[|d| - 1]);
    TrimmedAlready(d);
  }

  /** A minus followed by a digit string parses to the negated value when that fits. */
  lemma ParseNegatedDigits(d: string)
    requires |d| > 0 && AllDigits(d) && 0 - DigitsValue(d) >= IntMin
    ensures ParseInt32("-" + d) == Some(0 - DigitsValue(d))
  {
    var s := ['-'] + d;
    assert s[1..] == d;
    assert s[|s| - 1] == d[|d| - 1];
    assert IsDigit(d[|d| - 1]);
    TrimmedAlready(s);
    assert s != [] && s[0] == '-';
    ParseSigned(s, d);
  }

  /** A sign followed by a digit string is read as the signed value when that fits. */
  lemma ParseSigned(t: string, d: string)
    requires |t| > 0 && t[0] == '-' && t[1..] == d && |d| > 0 && AllDigits(d) && 0 - DigitsValue(d) >= IntMin
    ensures ParseTrimmed(t) == Some(0 - DigitsValue(d))
  {
  }

  /** Parsing what int.ToString writes gives back the number. */
  lemma ParseShowRoundTrip(n: int)
    requires IntMin <= n <= IntMax
    ensures ParseInt32(ShowInt(n)) == Some(n)
  {
    var m := if n < 0 then -n else n;
    DecimalValue(m);
    if n < 0 {
      ParseNegatedDigits(Decimal(m));
    } else {
      ParseDigits(Decimal(m));
    }
  }

  // ---------------------------------------------------------------------------------------
  // Name matching

  /** The case mapping OrdinalIgnoreCase applies, restricted to ASCII letters. */
  function Upper(c: char): (u: char)
    ensures 'a' <= c <= 'z' ==> u as int == c as int - 32
    ensures !('a' <= c <= 'z') ==> u == c
  {
    if 'a' <= c <= 'z' then (c as int - 32) as char else c
  }

  predicate SameIgnoreCase(a: string, b: string)
  {
    |a| == |b| && forall i :: 0 <= i < |a| ==> Upper(a[i]) == Upper(b[i])
  }

  /** A name is selected by a selector it starts with, ignoring case; shorter names never are. */
  predicate NameMatches(name: string, selector: string)
  {
    |name| >= |selector| && SameIgnoreCase(name[..|selector|], selector)
  }

  /** The first input whose name matches, in enumeration order. */
  function FirstMatch(inputs: seq<Port>, selector: string): (r: Option<nat>)
    ensures r.Some? ==> r.value < |inputs| && NameMatches(inputs[r.value].name, selector)
    ensures r.Some? ==> forall j :: 0 <= j < r.value ==> !NameMatches(inputs[j].name, selector)
    ensures r.None? ==> forall j :: 0 <= j < |inputs| ==> !NameMatches(inputs[j].name, selector)
  {
    if inputs == [] then None
    else if NameMatches(inputs[0].name, selector) then Some(0)
    else
      match FirstMatch(inputs[1..], selector)
      case None =>
        assert forall j :: 1 <= j < |inputs| ==> inputs[j] == inputs[1..][j - 1];
        None
      case Some(k) =>
        assert forall j :: 1 <= j < k + 1 ==> inputs[j] == inputs[1..][j - 1];
        Some(k + 1)
  }

  /** Matching ignores the case of the selector's letters. */
  lemma {:induction false} FirstMatchIgnoresCase(inputs: seq<Port>, selector: string)
    ensures FirstMatch(inputs, selector) == FirstMatch(inputs, seq(|selector|, i requires 0 <= i < |selector| => Upper(selector[i])))
  {
    var up := seq(|selector|, i requires 0 <= i < |selector| => Upper(selector[i]));
    forall name: string ensures NameMatches(name, selector) <==> NameMatches(name, up) {
      if |name| >= |selector| {
        forall i | 0 <= i < |selector| ensures Upper(up[i]) == Upper(selector[i]) {
        }
      }
    }
    if inputs != [] {
      FirstMatchIgnoresCase(inputs[1..], selector);
    }
  }

  /** GetDeviceFromId(int): an index within the inputs selects that input. */
  function GetDeviceFromId(count: nat, id: int): (r: Option<nat>)
    ensures r.Some? <==> 0 <= id < count
    ensures r.Some? ==> r.value == id
  {
    if count > id && id >= 0 then Some(id) else None
  }

  /** GetDevice: the input of that index if the selector parses as one, else the first input
      whose name starts with it. The result is the index of the input to start. */
  function GetDevice(inputs: seq<Port>, selector: string): (r: Option<nat>)
    ensures r.Some? ==> r.value < |inputs|
  {
    match ParseInt32(selector)
    case Some(n) =>
      (match GetDeviceFromId(|inputs|, n)
       case Some(k) => Some(k)
       case None => FirstMatch(inputs, selector))
    case None => FirstMatch(inputs, selector)
  }

  /** Selecting an input by the decimal text of its index picks that input. */
  lemma SelectByIndex(inputs: seq<Port>, k: nat)
    requires k < |inputs| <= IntMax
    ensures GetDevice(inputs, ShowInt(k)) == Some(k)
  {
    ParseShowRoundTrip(k);
  }

  /** A selector that is not a number in range is a name prefix. */
  lemma SelectByName(inputs: seq<Port>, selector: string)
    requires ParseInt32(selector).None? || !(0 <= ParseInt32(selector).value < |inputs|)
    ensures GetDevice(inputs, selector) == FirstMatch(inputs, selector)
  {
  }

  /** The empty selector is a prefix of every name, so it picks the first input. */
  lemma EmptySelectorPicksFirst(inputs: seq<Port>)
    requires |inputs| > 0
    ensures GetDevice(inputs, "") == Some(0)
  {
    assert NameMatches(inputs[0].name, "");
  }

  // ---------------------------------------------------------------------------------------
  // The constructor's guard

  /** The guard of the constructor as written: it goes on only with no device passed, a
      profile device that is not the empty string (null passes) and a non-empty default
      device; otherwise it throws NullReferenceException. */
  predicate GuardAsWritten(deviceGiven: bool, profileDevice: Option<string>, defaultDevice: string)
  {
    !deviceGiven && profileDevice != Some("") && defaultDevice != ""
  }

  /** The name searched for: the profile's device, or the default when the profile's is null. */
  function SearchName(profileDevice: Option<string>, defaultDevice: string): (name: string)
    ensures profileDevice.Some? ==> name == profileDevice.value
    ensures profileDevice.None? ==> name == defaultDevice
  {
    match profileDevice
    case Some(name) => name
    case None => defaultDevice
  }

  /** The command line passes an interactively chosen device exactly when neither the profile
      nor the settings name one. */
  predicate ProgramPassesDevice(profileDevice: Option<string>, defaultDevice: string)
  {
    profileDevice == Some("") && defaultDevice == ""
  }

  /** The guard as the command line evidently expects it: a passed device is used, and
      without one there must be a name to search for. */
  predicate GuardIntended(deviceGiven: bool, profileDevice: Option<string>, defaultDevice: string)
  {
    deviceGiven || IntendedName(profileDevice, defaultDevice) != ""
  }

  /** The profile's device when it names one, the default otherwise. */
  function IntendedName(profileDevice: Option<string>, defaultDevice: string): (name: string)
    ensures profileDevice.Some? && profileDevice.value != "" ==> name == profileDevice.value
    ensures !(profileDevice.Some? && profileDevice.value != "") ==> name == defaultDevice
  {
    if profileDevice.Some? && profileDevice.value != "" then profileDevice.value else defaultDevice
  }

  /** As written, the command line gets past the guard only when the settings name a default
      device and the profile's device is not the empty string: the interactively chosen device
      is always rejected, and so is a device named only by the profile. */
  lemma ProgramGuardAsWritten(profileDevice: Option<string>, defaultDevice: string)
    ensures GuardAsWritten(ProgramPassesDevice(profileDevice, defaultDevice), profileDevice, defaultDevice)
      <==> profileDevice != Some("") && defaultDevice != ""
    ensures ProgramPassesDevice(profileDevice, defaultDevice) ==>
      !GuardAsWritten(true, profileDevice, defaultDevice)
    ensures !GuardAsWritten(false, Some("Launchpad"), "")
  {
  }

  /** With the intended guard the command line gets past it unless neither the profile nor
      the settings name a device and the profile's is null (so no device is chosen either);
      where the guard as written passes, the intended one searches for the same name. */
  lemma ProgramGuardIntended(profileDevice: Option<string>, defaultDevice: string)
    ensures GuardIntended(ProgramPassesDevice(profileDevice, defaultDevice), profileDevice, defaultDevice)
      <==> !(profileDevice.None? && defaultDevice == "")
    ensures GuardAsWritten(false, profileDevice, defaultDevice) ==>
      GuardIntended(false, profileDevice, defaultDevice) &&
      IntendedName(profileDevice, defaultDevice) == SearchName(profileDevice, defaultDevice)
  {
  }

  /** A new profile and new settings name no device: the command line then picks one
      interactively, which the guard as written rejects and the intended guard accepts. */
  lemma DefaultsNameNoDevice()
    ensures var (p, c) := (Profiles.DefaultProfile(), Profiles.DefaultConfig());
      ProgramPassesDevice(p.device, c.defaultDevice) &&
      !GuardAsWritten(true, p.device, c.defaultDevice) && GuardIntended(true, p.device, c.defaultDevice)
  {
  }
}
