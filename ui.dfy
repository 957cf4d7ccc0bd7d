/**
 * The logic of the home screen of Ui.kt: the equalizer band labels, the "update
 * frequencies" dialog (its text, its parser and the re-keying of the equalizer), the
 * band update, the edit rule that forks a named config into a custom one, the saved
 * config list (filtered, ordered, cut into rows of two) and what selecting one does.
 */
module Ui {
  import opened Wrappers
  import opened LinkedMaps
  import opened Sorting
  import opened Util
  import opened DspModel
  import opened ConfigRepository

  // ---------------------------------------------------------------- decimal text

  /** The digit that writes `d`. */
  function DigitChar(d: int): (c: char)
    requires 0 <= d < 10
    ensures '0' <= c <= '9' && c as int - '0' as int == d
  {
    ('0' as int + d) as char
  }

  predicate IsDigit(c: char) {
    '0' <= c <= '9'
  }

  /** The decimal digits of `n`, most significant first, without leading zeros. */
  function DecimalDigits(n: nat): (s: string)
    ensures |s| >= 1 && (n >= 10 ==> |s| >= 2) && (n >= 100 ==> |s| >= 3)
    ensures forall i :: 0 <= i < |s| ==> IsDigit(s[i])
    ensures s[0] != '0' || n == 0
    decreases n
  {
    if n < 10 then [DigitChar(n)] else DecimalDigits(n / 10) + [DigitChar(n % 10)]
  }

  /** `Int.toString()`. */
  function IntToString(n: int): (s: string)
  {
    if n < 0 then "-" + DecimalDigits(-n) else DecimalDigits(n)
  }

  /** The number a run of decimal digits writes. */
  function DigitsValue(s: string): (n: nat)
    requires forall i :: 0 <= i < |s| ==> IsDigit(s[i])
    decreases |s|
  {
    if s == [] then 0
    else
      assert IsDigit(s[|s| - 1]);
      DigitsValue(s[..|s| - 1]) * 10 + (s[|s| - 1] as int - '0' as int)
  }

  /** Reading the digits of a number gives the number back. */
  lemma {:induction false} DigitsRoundTrip(n: nat)
    ensures DigitsValue(DecimalDigits(n)) == n
    decreases n
  {
    if n >= 10 {
      var s := DecimalDigits(n);
      assert s[..|s| - 1] == DecimalDigits(n / 10);
      DigitsRoundTrip(n / 10);
    }
  }

  /** The four digits of a number from 1000 to 9999. */
  lemma FourDigits(n: nat)
    requires 1000 <= n < 10000
    ensures DecimalDigits(n) ==
      [DigitChar(n / 1000), DigitChar(n / 100 % 10), DigitChar(n / 10 % 10), DigitChar(n % 10)]
  {
    assert n / 10 / 10 == n / 100 && n / 100 / 10 == n / 1000;
    assert DecimalDigits(n / 1000) == [DigitChar(n / 1000)];
    assert DecimalDigits(n / 100) == DecimalDigits(n / 1000) + [DigitChar(n / 100 % 10)];
    assert DecimalDigits(n / 10) == DecimalDigits(n / 100) + [DigitChar(n / 10 % 10)];
    assert DecimalDigits(n) == DecimalDigits(n / 10) + [DigitChar(n % 10)];
  }

  /** The five digits of a number from 10000 to 99999. */
  lemma FiveDigits(n: nat)
    requires 10000 <= n < 100000
    ensures DecimalDigits(n) ==
      [DigitChar(n / 10000), DigitChar(n / 1000 % 10), DigitChar(n / 100 % 10),
       DigitChar(n / 10 % 10), DigitChar(n % 10)]
  {
    assert n / 10 / 10 == n / 100 && n / 100 / 10 == n / 1000 && n / 1000 / 10 == n / 10000;
    assert n / 10 % 10 == n / 10 % 10 && n / 10 / 10 % 10 == n / 100 % 10;
    FourDigits(n / 10);
    assert DecimalDigits(n) == DecimalDigits(n / 10) + [DigitChar(n % 10)];
  }

  // ---------------------------------------------------------------- band labels

  predicate AllZeros(s: string) {
    forall i :: 0 <= i < |s| ==> s[i] == '0'
  }

  /** The label under an equalizer band: the plain number below 1000 Hz; otherwise the
      thousands, then `.` and the first truncated decimal unless the rest is all zeros,
      then `k`. */
  function BandLabel(band: int): (text: string)
  {
    if band < 1000 then IntToString(band)
    else
      var s := DecimalDigits(band);
      if band < 10000 then
        if AllZeros(s[1..]) then [s[0]] + "k" else [s[0]] + "." + [s[1]] + "k"
      else
        if AllZeros(s[2..]) then s[..2] + "k" else s[..2] + "." + [s[2]] + "k"
  }

  /** The last three digits of a number are all zero exactly when it is a whole number
      of thousands. */
  lemma ThousandsDigits(n: nat)
    ensures n % 1000 == 0 <==> n / 100 % 10 == 0 && n / 10 % 10 == 0 && n % 10 == 0
  {
    var a, b, c := n / 100 % 10, n / 10 % 10, n % 10;
    assert n == 10 * (n / 10) + c;
    assert n / 10 == 10 * (n / 100) + b;
    assert n / 100 == 10 * (n / 1000) + a;
    var r := 100 * a + 10 * b + c;
    assert n == 1000 * (n / 1000) + r && 0 <= r < 1000;
    assert n % 1000 == r;
  }

  /** Three digits are all zeros exactly when they write zeros. */
  lemma ZeroDigits(a: int, b: int, c: int)
    requires 0 <= a < 10 && 0 <= b < 10 && 0 <= c < 10
    ensures AllZeros([DigitChar(a), DigitChar(b), DigitChar(c)]) <==> a == 0 && b == 0 && c == 0
  {
    var s := [DigitChar(a), DigitChar(b), DigitChar(c)];
    assert AllZeros(s) ==> s[0] == '0' && s[1] == '0' && s[2] == '0';
  }

  /** From 1000 to 9999 Hz: `D.Dk`, or `Dk` for a whole number of thousands, with the
      tenth of a thousand truncated. */
  lemma BandLabelThousands(band: int)
    requires 1000 <= band < 10000
    ensures BandLabel(band) == [DigitChar(band / 1000)] +
      (if band % 1000 == 0 then "k" else ['.', DigitChar(band / 100 % 10), 'k'])
  {
    FourDigits(band);
    var s := DecimalDigits(band);
    assert s[1..] == [DigitChar(band / 100 % 10), DigitChar(band / 10 % 10), DigitChar(band % 10)];
    ThousandsDigits(band);
    ZeroDigits(band / 100 % 10, band / 10 % 10, band % 10);
  }

  /** From 10000 to 99999 Hz: `DD.Dk`, or `DDk` for a whole number of thousands, with the
      tenth of a thousand truncated. */
  lemma BandLabelTensOfThousands(band: int)
    requires 10000 <= band < 100000
    ensures BandLabel(band) == [DigitChar(band / 10000), DigitChar(band / 1000 % 10)] +
      (if band % 1000 == 0 then "k" else ['.', DigitChar(band / 100 % 10), 'k'])
  {
    FiveDigits(band);
    var s := DecimalDigits(band);
    assert s[2..] == [DigitChar(band / 100 % 10), DigitChar(band / 10 % 10), DigitChar(band % 10)];
    assert s[..2] == [DigitChar(band / 10000), DigitChar(band / 1000 % 10)];
    ThousandsDigits(band);
    ZeroDigits(band / 100 % 10, band / 10 % 10, band % 10);
  }

  /** Labels of a few standard bands below 10 kHz. */
  lemma BandLabelExamples()
    ensures BandLabel(31) == "31" && BandLabel(1000) == "1k"
    ensures BandLabel(1600) == "1.6k" && BandLabel(1650) == "1.6k"
  {
    assert DecimalDigits(31) == "31" by {
      assert DecimalDigits(3) == "3";
    }
    BandLabelThousands(1000);
    BandLabelThousands(1600);
    BandLabelThousands(1650);
  }

  /** Labels of standard bands from 10 kHz up. */
  lemma BandLabelHighExamples()
    ensures BandLabel(16000) == "16k" && BandLabel(12500) == "12.5k"
  {
    BandLabelTensOfThousands(16000);
    BandLabelTensOfThousands(12500);
  }

  // ---------------------------------------------------------------- integer parsing

  const IntMin: int := -0x8000_0000
  const IntMax: int := 0x7fff_ffff

  predicate AllDigits(s: string) {
    forall i :: 0 <= i < |s| ==> IsDigit(s[i])
  }

  /** `String.toIntOrNull()`: an optional `-` or `+` followed by at least one decimal
      digit, whose value fits a 32-bit `Int`; nothing else (no blanks) is accepted. */
  function ToIntOrNull(s: string): (r: Option<int>)
    ensures r.Some? ==> IntMin <= r.value <= IntMax
  {
    if s == [] then None
    else
      var signed := s[0] == '-' || s[0] == '+';
      var digits := if signed then s[1..] else s;
      if digits == [] || !AllDigits(digits) then None
      else
        var n: int := DigitsValue(digits);
        var v := if s[0] == '-' then -n else n;
        if IntMin <= v <= IntMax then Some(v) else None
  }

  /** A run of digits whose value fits reads as that value. */
  lemma ParseDigits(d: string)
    requires d != [] && AllDigits(d) && DigitsValue(d) <= IntMax
    ensures ToIntOrNull(d) == Some(DigitsValue(d))
  {
    assert IsDigit(d[0]);
  }

  /** A minus and a run of digits whose negated value fits read as the negated value. */
  lemma ParseNegated(d: string)
    requires d != [] && AllDigits(d) && DigitsValue(d) <= -IntMin
    ensures ToIntOrNull("-" + d) == Some(-(DigitsValue(d) as int))
  {
    assert ("-" + d)[1..] == d;
  }

  /** Every 32-bit integer's decimal text parses back to it. */
  lemma IntRoundTrip(n: int)
    requires IntMin <= n <= IntMax
    ensures ToIntOrNull(IntToString(n)) == Some(n)
  {
    if n < 0 {
      DigitsRoundTrip(-n);
      ParseNegated(DecimalDigits(-n));
    } else {
      DigitsRoundTrip(n);
      ParseDigits(DecimalDigits(n));
    }
  }

  /** Text with a blank in it is not a number: entries are not trimmed. */
  lemma BlankRejected(s: string, i: int)
    requires 0 <= i < |s| && s[i] == ' '
    ensures ToIntOrNull(s).None?
  {
    if s[0] == '-' || s[0] == '+' {
      if i > 0 { assert s[1..][i - 1] == ' '; }
    }
  }

  // ---------------------------------------------------------------- the frequency dialog

  /** `split(",")`: the pieces between the separators, empty ones included. */
  function Split(s: string, sep: char): (parts: seq<string>)
    ensures |parts| >= 1
    ensures forall i :: 0 <= i < |parts| ==> sep !in parts[i]
    decreases |s|
  {
    if s == [] then [[]]
    else
      var rest := Split(s[1..], sep);
      if s[0] == sep then [[]] + rest else [[s[0]] + rest[0]] + rest[1..]
  }

  /** `joinToString(",")`. */
  function Join(parts: seq<string>, sep: char): (s: string)
    decreases |parts|
  {
    if parts == [] then []
    else if |parts| == 1 then parts[0]
    else parts[0] + [sep] + Join(parts[1..], sep)
  }

  /** Joining the pieces of a split gives the text back. */
  lemma {:induction false} JoinSplit(s: string, sep: char)
    ensures Join(Split(s, sep), sep) == s
    decreases |s|
  {
    if s != [] {
      var rest := Split(s[1..], sep);
      JoinSplit(s[1..], sep);
      if s[0] != sep {
        var parts := Split(s, sep);
        assert parts[1..] == rest[1..];
        if |rest| > 1 {
          assert rest == [rest[0]] + rest[1..];
        }
      }
    }
  }

  /** Splitting a join of pieces without the separator gives the pieces back. */
  lemma {:induction false} SplitJoin(parts: seq<string>, sep: char)
    requires parts != [] && forall i :: 0 <= i < |parts| ==> sep !in parts[i]
    ensures Split(Join(parts, sep), sep) == parts
    decreases |parts|
  {
    if |parts| == 1 {
      SplitPiece(parts[0], [], sep);
      assert parts[0] + [] == parts[0] && parts == [parts[0]];
    } else {
      var tail := Join(parts[1..], sep);
      SplitJoin(parts[1..], sep);
      SplitPiece(parts[0], [sep] + tail, sep);
      assert ([sep] + tail)[1..] == tail;
      assert parts[0] + [sep] + tail == parts[0] + ([sep] + tail);
    }
  }

  /** Splitting text that starts with a piece without the separator. */
  lemma {:induction false} SplitPiece(piece: string, rest: string, sep: char)
    requires sep !in piece
    ensures rest == [] ==> Split(piece + rest, sep) == [piece]
    ensures rest != [] && rest[0] == sep ==>
      Split(piece + rest, sep) == [piece] + Split(rest[1..], sep)
    decreases |piece|
  {
    if piece == [] {
      assert piece + rest == rest;
    } else {
      SplitPiece(piece[1..], rest, sep);
      assert (piece + rest)[1..] == piece[1..] + rest;
      assert [piece[0]] + piece[1..] == piece;
    }
  }

  /** `mapNotNull { it.toIntOrNull() }`. */
  function ParsedInts(parts: seq<string>): (r: seq<int>)
    ensures |r| <= |parts|
    ensures forall x :: x in r ==> exists p :: p in parts && ToIntOrNull(p) == Some(x)
    ensures forall p :: p in parts && ToIntOrNull(p).Some? ==> ToIntOrNull(p).value in r
    decreases |parts|
  {
    if parts == [] then []
    else
      var rest := ParsedInts(parts[1..]);
      assert forall p :: p in parts[1..] ==> p in parts;
      match ToIntOrNull(parts[0])
      case Some(v) => [v] + rest
      case None => rest
  }

  /** Pieces that all parse give their values, in order. */
  lemma {:induction false} ParsedIntsAll(texts: seq<string>, ns: seq<int>)
    requires |texts| == |ns|
    requires forall i :: 0 <= i < |ns| ==> IntMin <= ns[i] <= IntMax && texts[i] == IntToString(ns[i])
    ensures ParsedInts(texts) == ns
  {
    if ns != [] {
      IntRoundTrip(ns[0]);
      ParsedIntsAll(texts[1..], ns[1..]);
      assert ns == [ns[0]] + ns[1..];
    }
  }

  /** The number of bands the equalizer has. */
  const BandCount: nat := 15

  /** The "Update frequencies" dialog's answer: the comma-separated entries that parse as
      integers, when there are exactly 15 of them; otherwise nothing changes. */
  function ParseFrequencies(input: string): (r: Option<seq<int>>)
  {
    var parsed := ParsedInts(Split(input, ','));
    if |parsed| == BandCount then Some(parsed) else None
  }

  /** The dialog accepts exactly when 15 entries parse, and answers those entries'
      values; unparseable entries are dropped before counting. */
  lemma ParseFrequenciesSpec(input: string)
    ensures var r := ParseFrequencies(input);
      var parts := Split(input, ',');
      (r.Some? <==> |ParsedInts(parts)| == 15) &&
      (r.Some? ==>
        |r.value| == 15 &&
        (forall x :: x in r.value ==> exists p :: p in parts && ToIntOrNull(p) == Some(x)) &&
        (forall p :: p in parts && ToIntOrNull(p).Some? ==> ToIntOrNull(p).value in r.value))
  {
  }

  /** The dialog's initial text: the bands joined by commas. */
  function FrequencyText(eq: Entries<int, int>): (s: string)
  {
    var bands := KeyList(eq);
    Join(seq(|bands|, i requires 0 <= i < |bands| => IntToString(bands[i])), ',')
  }

  /** The minus sign and the digits are not commas. */
  lemma NoComma(n: int)
    ensures ',' !in IntToString(n)
  {
    var s := IntToString(n);
    forall i | 0 <= i < |s| ensures s[i] != ',' {
      if n < 0 && i > 0 { assert s[i] == DecimalDigits(-n)[i - 1]; }
    }
  }

  /** Confirming the dialog unchanged on a 15-band equalizer gives its bands back. */
  lemma FrequencyTextRoundTrip(eq: Entries<int, int>)
    requires |eq| == BandCount
    requires forall i :: 0 <= i < |eq| ==> IntMin <= eq[i].0 <= IntMax
    ensures ParseFrequencies(FrequencyText(eq)) == Some(KeyList(eq))
  {
    var bands := KeyList(eq);
    var texts := seq(|bands|, i requires 0 <= i < |bands| => IntToString(bands[i]));
    forall i | 0 <= i < |texts| ensures ',' !in texts[i] { NoComma(bands[i]); }
    SplitJoin(texts, ',');
    ParsedIntsAll(texts, bands);
  }

  /** `frequencies.associateWith { eqDb[it] ?: 0 }`: the equalizer re-keyed to the given
      bands, keeping the gain of a band it had and giving a new band 0 dB. The reset
      is the same with `DefaultEqBands`. */
  function Rekey(eq: Entries<int, int>, bands: seq<int>): (r: Entries<int, int>)
  {
    AssociateWith(bands, band => Get(eq, band).GetOr(0))
  }

  /** After re-keying the bands are exactly the given ones, each once; a kept band keeps
      its gain and a new band has gain 0. */
  lemma RekeySpec(eq: Entries<int, int>, bands: seq<int>)
    ensures var r := Rekey(eq, bands);
      Keys(r) == (set b | b in bands) && DistinctKeys(r) &&
      (forall b :: b in bands && b in Keys(eq) ==> Get(r, b) == Get(eq, b)) &&
      (forall b :: b in bands && b !in Keys(eq) ==> Get(r, b) == Some(0))
  {
    var f := band => Get(eq, band).GetOr(0);
    AssociateWithKeys(bands, f);
    AssociateWithDistinct(bands, f);
    forall b | b in bands ensures Get(Rekey(eq, bands), b) == Some(f(b)) {
      AssociateWithGet(bands, f, b);
    }
  }

  /** `eqDb.toMutableMap().apply { put(band, value) }`. */
  function UpdateBand(eq: Entries<int, int>, band: int, value: int): (r: Entries<int, int>)
  {
    Put(eq, band, value)
  }

  /** A band change sets that band's gain and no other, keeps the band order and adds no
      band but a new one at the end. */
  lemma UpdateBandSpec(eq: Entries<int, int>, band: int, value: int)
    ensures var r := UpdateBand(eq, band, value);
      ToMap(r) == ToMap(eq)[band := value] &&
      Keys(r) == Keys(eq) + {band} &&
      (DistinctKeys(eq) ==> DistinctKeys(r)) &&
      (band in Keys(eq) ==> KeyList(r) == KeyList(eq)) &&
      (band !in Keys(eq) ==> r == eq + [(band, value)])
  {
    PutToMap(eq, band, value);
    PutKeys(eq, band, value);
    PutPositions(eq, band, value);
    if DistinctKeys(eq) { PutDistinct(eq, band, value); }
    if band in Keys(eq) { PutKeyList(eq, band, value); }
  }

  // ---------------------------------------------------------------- the header

  /** The "DSP Enabled" switch: switching off is stored at once; switching on is stored
      only when the permission request (whose answer is `granted`) succeeds. */
  function SetDspEnabled(p: DspPrefs, value: bool, granted: bool): (r: DspPrefs)
  {
    if !value || granted then p.(dspEnabled := value) else p
  }

  /** The switch can always turn the DSP off, turns it on only with the permission, and
      changes no other preference. */
  lemma SetDspEnabledSpec(p: DspPrefs, value: bool, granted: bool)
    ensures var r := SetDspEnabled(p, value, granted);
      (!value ==> !r.dspEnabled) &&
      (value && granted ==> r.dspEnabled) &&
      (r.dspEnabled && !p.dspEnabled ==> granted) &&
      r == p.(dspEnabled := r.dspEnabled)
  {
  }

  /** The subtitle under the current device: "Custom" for a custom config, else its id. */
  function Subtitle(id: string): (s: string)
  {
    if IsUUID(id) then "Custom" else id
  }

  /** The subtitle shows the id of every named config, and reads "Custom" exactly for a
      custom config or a named config called "Custom". */
  lemma SubtitleSpec(id: string)
    ensures !IsUUID(id) ==> Subtitle(id) == id
    ensures Subtitle(id) == "Custom" <==> IsUUID(id) || id == "Custom"
  {
    if id == "Custom" && IsUUID(id) { UUIDLength(id); }
  }

  // ---------------------------------------------------------------- editing

  /** The screen's `updateConfig(block)`: the edited current config is saved under its id
      if that is a UUID (a custom config), and otherwise under a fresh random id so that a
      named config is never overwritten; the device is mapped to the saved id. */
  function EditCurrent(p: DspPrefs, deviceId: string, edited: DspConfig, freshId: string): (r: DspPrefs)
  {
    var config := if IsUUID(edited.id) then edited else edited.(id := freshId);
    UpdateDeviceConfig(UpdateConfig(p, config), deviceId, config.id)
  }

  /** With a UUID as the fresh id (what `randomId()` writes), an edit maps the device to a
      custom config that holds the edited settings: a custom config is edited in place
      under its own id, and only a named one gets the fresh id. No other device's entry,
      no other saved config and no other preference changes. */
  lemma EditCurrentSpec(p: DspPrefs, deviceId: string, edited: DspConfig, freshId: string)
    requires IsUUID(freshId)
    ensures var r := EditCurrent(p, deviceId, edited, freshId);
      var id := r.configsByDevice[deviceId];
      id == (if IsUUID(edited.id) then edited.id else freshId) &&
      IsUUID(id) &&
      Get(r.configs, id) == Some(edited.(id := id)) &&
      ToMap(r.configs) == ToMap(p.configs)[id := edited.(id := id)] &&
      r.configsByDevice == p.configsByDevice[deviceId := id] &&
      r.configUsages == p.configUsages && r.dspEnabled == p.dspEnabled &&
      r.lastAudioSessionId == p.lastAudioSessionId
  {
    var config := if IsUUID(edited.id) then edited else edited.(id := freshId);
    UpdateConfigSpec(p, config);
    PutToMap(p.configs, config.id, config);
  }

  /** An edit leaves every named config as it was. */
  lemma EditKeepsNamed(p: DspPrefs, deviceId: string, edited: DspConfig, freshId: string)
    requires IsUUID(freshId)
    ensures var r := EditCurrent(p, deviceId, edited, freshId);
      forall k :: !IsUUID(k) ==> Get(r.configs, k) == Get(p.configs, k)
  {
    var config := if IsUUID(edited.id) then edited else edited.(id := freshId);
    PutToMap(p.configs, config.id, config);
  }

  /** "Save config": the current settings saved under the entered id, and the device
      mapped to it. */
  function SaveAs(p: DspPrefs, deviceId: string, current: DspConfig, id: string): (r: DspPrefs)
  {
    UpdateDeviceConfig(UpdateConfig(p, current.(id := id)), deviceId, id)
  }

  /** Saving maps the device to the entered id, whose config holds the current settings,
      and changes no other saved config. */
  lemma SaveAsSpec(p: DspPrefs, deviceId: string, current: DspConfig, id: string)
    ensures var r := SaveAs(p, deviceId, current, id);
      r.configsByDevice == p.configsByDevice[deviceId := id] &&
      Get(r.configs, id) == Some(current.(id := id)) &&
      forall k :: k != id ==> Get(r.configs, k) == Get(p.configs, k)
  {
    UpdateConfigSpec(p, current.(id := id));
  }

  // ---------------------------------------------------------------- the saved list

  /** `filterNot { it.id.isUUID }`: the named configs. */
  function Named(configs: seq<DspConfig>): (r: seq<DspConfig>)
    ensures forall c :: c in r <==> c in configs && !IsUUID(c.id)
    ensures multiset(r) <= multiset(configs)
    decreases |configs|
  {
    if configs == [] then []
    else
      assert configs == [configs[0]] + configs[1..];
      (if IsUUID(configs[0].id) then [] else [configs[0]]) + Named(configs[1..])
  }

  /** `lowercase()` on the ASCII letters. */
  function Lower(s: string): (r: string)
    ensures |r| == |s|
  {
    seq(|s|, i requires 0 <= i < |s| => if 'A' <= s[i] <= 'Z' then (s[i] as int + 32) as char else s[i])
  }

  /** `String.compareTo(other) <= 0`: character by character, a prefix first. */
  predicate LexLe(a: string, b: string)
    decreases |a|
  {
    a == [] || (b != [] && (a[0] < b[0] || (a[0] == b[0] && LexLe(a[1..], b[1..]))))
  }

  lemma {:induction false} LexLeTotal(a: string, b: string)
    ensures LexLe(a, b) || LexLe(b, a)
    decreases |a|
  {
    if a != [] && b != [] && a[0] == b[0] {
      LexLeTotal(a[1..], b[1..]);
    }
  }

  lemma {:induction false} LexLeTransitive(a: string, b: string, c: string)
    requires LexLe(a, b) && LexLe(b, c)
    ensures LexLe(a, c)
    decreases |a|
  {
    if a != [] && a[0] == b[0] && b[0] == c[0] {
      LexLeTransitive(a[1..], b[1..], c[1..]);
    }
  }

  /** `sortedBy { it.id.lowercase() }`'s order. */
  function ByLowerId(): (le: (DspConfig, DspConfig) -> bool)
    ensures forall a, b :: le(a, b) == LexLe(Lower(a.id), Lower(b.id))
  {
    (a: DspConfig, b: DspConfig) => LexLe(Lower(a.id), Lower(b.id))
  }

  /** `configUsages[it.id] ?: -1f`. */
  function Score(scores: map<string, real>, id: string): (s: real)
    ensures id !in scores ==> s == -1.0
  {
    if id in scores then scores[id] else -1.0
  }

  /** `sortedByDescending { configUsages[it.id] ?: -1f }`'s order. */
  function ByScore(scores: map<string, real>): (le: (DspConfig, DspConfig) -> bool)
    ensures forall a, b :: le(a, b) == (Score(scores, b.id) <= Score(scores, a.id))
  {
    (a: DspConfig, b: DspConfig) => Score(scores, b.id) <= Score(scores, a.id)
  }

  lemma ByLowerIdPreorder()
    ensures Preorder(ByLowerId())
  {
    forall a: DspConfig, b: DspConfig ensures ByLowerId()(a, b) || ByLowerId()(b, a) {
      LexLeTotal(Lower(a.id), Lower(b.id));
    }
    forall a: DspConfig, b: DspConfig, c: DspConfig
      | ByLowerId()(a, b) && ByLowerId()(b, c)
      ensures ByLowerId()(a, c)
    {
      LexLeTransitive(Lower(a.id), Lower(b.id), Lower(c.id));
    }
  }

  lemma ByScorePreorder(scores: map<string, real>)
    ensures Preorder(ByScore(scores))
  {
  }

  /** The saved configs as listed: the named ones, by id ignoring case, then by
      descending usage score. */
  function SavedConfigs(configs: seq<DspConfig>, scores: map<string, real>): (r: seq<DspConfig>)
  {
    Sort(Sort(Named(configs), ByLowerId()), ByScore(scores))
  }

  /** The configs of `s` that the list ranks equal to `c` on both keys, score and id
      ignoring case, in their order in `s`. */
  function SameRank(s: seq<DspConfig>, scores: map<string, real>, c: DspConfig): seq<DspConfig> {
    Ties(Ties(s, ByScore(scores), c), ByLowerId(), c)
  }

  /** The list holds exactly the named configs, each as often as saved; it runs by
      descending score (a config without a score counting -1), configs of equal score
      run by id ignoring case, and configs equal on both keys keep their saved order. */
  lemma SavedConfigsSpec(configs: seq<DspConfig>, scores: map<string, real>)
    ensures var r := SavedConfigs(configs, scores);
      multiset(r) == multiset(Named(configs)) &&
      (forall c :: c in r <==> c in configs && !IsUUID(c.id)) &&
      (forall i, j :: 0 <= i < j < |r| ==>
        Score(scores, r[j].id) <= Score(scores, r[i].id) &&
        (Score(scores, r[j].id) == Score(scores, r[i].id) ==>
          LexLe(Lower(r[i].id), Lower(r[j].id)))) &&
      (forall c :: SameRank(r, scores, c) == SameRank(Named(configs), scores, c))
  {
    var named := Named(configs);
    var r := SavedConfigs(configs, scores);
    ByLowerIdPreorder();
    ByScorePreorder(scores);
    SortSorted(named, ByLowerId());
    SortTwice(Sort(named, ByLowerId()), ByScore(scores), ByLowerId());
    forall c ensures c in r <==> c in named {
      assert c in r <==> c in multiset(r);
      assert c in named <==> c in multiset(named);
    }
    forall i, j | 0 <= i < j < |r|
      ensures Score(scores, r[j].id) <= Score(scores, r[i].id) &&
        (Score(scores, r[j].id) == Score(scores, r[i].id) ==>
          LexLe(Lower(r[i].id), Lower(r[j].id)))
    {
      assert ByScore(scores)(r[i], r[j]);
      assert ByScore(scores)(r[j], r[i]) ==> ByLowerId()(r[i], r[j]);
    }
    forall c ensures SameRank(r, scores, c) == SameRank(named, scores, c) {
      var byId := Sort(named, ByLowerId());
      SortStable(byId, ByScore(scores), c);
      TiesCommute(byId, ByScore(scores), ByLowerId(), c);
      SortStable(named, ByLowerId(), c);
      TiesCommute(named, ByScore(scores), ByLowerId(), c);
    }
  }

  /** `chunked(2)`: rows of two, the last one shorter when the count is odd. */
  function Rows<T>(s: seq<T>): (rows: seq<seq<T>>)
    decreases |s|
  {
    if s == [] then []
    else if |s| <= 2 then [s]
    else [s[..2]] + Rows(s[2..])
  }

  function Flatten<T>(rows: seq<seq<T>>): (s: seq<T>)
    decreases |rows|
  {
    if rows == [] then [] else rows[0] + Flatten(rows[1..])
  }

  /** The rows put together are the list; there are half as many as items, rounded up;
      every row but the last holds two items, and the last holds one exactly when the
      number of items is odd. */
  lemma {:induction false} RowsSpec<T>(s: seq<T>)
    ensures var rows := Rows(s);
      Flatten(rows) == s &&
      |rows| == (|s| + 1) / 2 &&
      (forall i :: 0 <= i < |rows| - 1 ==> |rows[i]| == 2) &&
      (rows != [] ==> |rows[|rows| - 1]| == (if |s| % 2 == 1 then 1 else 2))
    decreases |s|
  {
    if |s| > 2 {
      var rows := Rows(s);
      RowsSpec(s[2..]);
      assert rows[1..] == Rows(s[2..]);
      assert s[..2] + s[2..] == s;
      forall i | 0 <= i < |rows| - 1 ensures |rows[i]| == 2 {
        if i > 0 { assert rows[i] == Rows(s[2..])[i - 1]; }
      }
    } else if s != [] {
      assert Rows(s)[1..] == [];
      assert s + [] == s;
    }
  }

  /** A row's grid span: the full line for a single item, else one column. */
  function Span(row: seq<DspConfig>, maxLineSpan: nat): (span: nat)
  {
    if |row| == 1 then maxLineSpan else 1
  }

  /** Only the last row can take the full line, and it does exactly when the list has an
      odd number of configs. */
  lemma FullSpanRow(s: seq<DspConfig>, maxLineSpan: nat, i: int)
    requires maxLineSpan != 1 && 0 <= i < |Rows(s)|
    ensures Span(Rows(s)[i], maxLineSpan) == maxLineSpan <==> i == |Rows(s)| - 1 && |s| % 2 == 1
  {
    RowsSpec(s);
  }

  // ---------------------------------------------------------------- selecting

  /** Tapping a saved config: the current device is mapped to it, its usage is recorded
      at `now`, and the config the device showed before is deleted when it was a custom
      (UUID-named) one. */
  function SelectConfig(p: DspPrefs, deviceId: string, config: DspConfig, current: DspConfig, now: int)
    : (r: DspPrefs)
  {
    var mapped := UpdateDeviceConfig(p, deviceId, config.id);
    var used := mapped.(configUsages := ConfigUsed(mapped.configUsages, config.id, now));
    if IsUUID(current.id) then DeleteConfig(used, current.id) else used
  }

  /** Selecting maps the device to the selected id and records one usage of it, at the
      end of its list. */
  lemma SelectConfigRecords(p: DspPrefs, deviceId: string, config: DspConfig, current: DspConfig, now: int)
    ensures var r := SelectConfig(p, deviceId, config, current, now);
      r.configsByDevice == p.configsByDevice[deviceId := config.id] &&
      r.configUsages == ConfigUsed(p.configUsages, config.id, now)
  {
  }

  /** Selecting deletes exactly the previous config when that was custom and nothing
      otherwise, so a selected named config is still saved afterwards. */
  lemma SelectConfigDeletes(p: DspPrefs, deviceId: string, config: DspConfig, current: DspConfig, now: int)
    ensures var r := SelectConfig(p, deviceId, config, current, now);
      (IsUUID(current.id) ==> ToMap(r.configs) == ToMap(p.configs) - {current.id}) &&
      (!IsUUID(current.id) ==> r.configs == p.configs) &&
      (!IsUUID(config.id) ==> Get(r.configs, config.id) == Get(p.configs, config.id))
  {
    var r := SelectConfig(p, deviceId, config, current, now);
    if IsUUID(current.id) {
      FilterKeysToMap(p.configs, Except(current.id));
      RestrictExcept(ToMap(p.configs), current.id);
      assert r.configs == FilterKeys(p.configs, Except(current.id));
    }
  }
}
