/**
 Which frequency slot a radio uses, and where its channel lies in the regional band.

 Frequencies are exact numbers in MHz and bandwidths in kHz; rounding to six digits is modelled,
 the rounding inside each floating-point operation is not.
 */
module RadioSlots {
  import opened Arithmetic
  import opened Options
  import Utf8

  datatype Span = Span(low: real, high: real)

  datatype Source = Override | Calculated

  /** What decides the frequency; None stands for a missing or unusable value. */
  datatype Settings = Settings(
    span: Option<Span>, bandwidth: Option<real>, channelNum: Option<int>, offset: Option<real>,
    overrideFrequency: Option<real>, primaryName: Option<string>, defaultName: Option<string>)

  datatype Details = Details(slot: Option<int>, frequency: Option<real>, source: Option<Source>)

  const TWO_32: int := 0x1_0000_0000
  const MILLION: real := 1_000_000.0

  /** Half to even. */
  function RoundToInt(x: real): int {
    var low := x.Floor;
    var part := x - low as real;
    if part < 0.5 || (part == 0.5 && low % 2 == 0) then low else low + 1
  }

  function Round6(x: real): real {
    RoundToInt(x * MILLION) as real / MILLION
  }

  function Slots(span: Span, bandwidth: real): int
    requires bandwidth > 0.0
  {
    Round6((span.high - span.low) * 1000.0 / bandwidth).Floor
  }

  /** The number whose base-33 digits follow 5381, without any limit. */
  ghost function Djb2(bytes: seq<Utf8.Byte>): int {
    if bytes == [] then 5381 else Djb2(bytes[..|bytes| - 1]) * 33 + bytes[|bytes| - 1] as int
  }

  /** The slot index and the centre of its channel, before offset and rounding. */
  function Centre(span: Span, bandwidth: real, index: int): real {
    span.low + bandwidth / 2000.0 + index as real * bandwidth / 1000.0
  }

  /** Each byte is folded in modulo 2^32, and the sum never leaves that range. */
  method NameHash(bytes: seq<Utf8.Byte>) returns (hash: int)
    ensures hash == Djb2(bytes) % TWO_32 && 0 <= hash < TWO_32
  {
    hash := 5381;
    for i := 0 to |bytes|
      invariant hash == Djb2(bytes[..i]) % TWO_32 && 0 <= hash < TWO_32
    {
      assert bytes[..i + 1][..i] == bytes[..i];
      FoldModulo(Djb2(bytes[..i]), bytes[i] as int);
      hash := (hash * 33 + bytes[i] as int) % TWO_32;
    }
    assert bytes[..|bytes|] == bytes;
  }

  lemma FoldModulo(n: int, b: int)
    ensures (n % TWO_32 * 33 + b) % TWO_32 == (n * 33 + b) % TWO_32
  {
    var q := n / TWO_32;
    assert n == q * TWO_32 + n % TWO_32;
    assert n * 33 + b == (n % TWO_32 * 33 + b) + q * 33 * TWO_32;
    AddMultiple(n % TWO_32 * 33 + b, q * 33, TWO_32);
  }

  /** Everything the source derives from a usable configuration. */
  ghost predicate Derives(s: Settings, d: Details) {
    if s.offset.None? then d == Details(None, None, None)
    else if s.overrideFrequency.Some? && s.overrideFrequency.value > 0.0 then
      d == Details(None, Some(Round6(s.overrideFrequency.value + s.offset.value)), Some(Override))
    else if !HasSlot(s) then d == Details(None, None, None)
    else
      && d.slot == Some(SlotIndex(s) + 1) && d.source == Some(Calculated)
      && d.frequency == Some(Round6(Centre(s.span.value, s.bandwidth.value, SlotIndex(s)) + s.offset.value))
  }

  predicate HasSlot(s: Settings) {
    && s.span.Some? && s.bandwidth.Some? && s.bandwidth.value > 0.0 && Slots(s.span.value, s.bandwidth.value) >= 1
    && s.channelNum.Some? && s.channelNum.value >= 0 && (s.channelNum.value == 0 ==> s.primaryName.Some? && (s.primaryName.value != "" || s.defaultName.Some?))
  }

  /** An empty primary name means the default one. */
  function EffectiveName(s: Settings): Option<string> {
    if s.primaryName.Some? && s.primaryName.value != "" then s.primaryName else s.defaultName
  }

  ghost function SlotIndex(s: Settings): int
    requires HasSlot(s)
  {
    var slots := Slots(s.span.value, s.bandwidth.value);
    if s.channelNum.value != 0 then (s.channelNum.value - 1) % slots
    else Djb2(Utf8.Encode(EffectiveName(s).value)) % TWO_32 % slots
  }

  method RadioDetails(s: Settings) returns (d: Details)
    ensures Derives(s, d)
  {
    d := Details(None, None, None);
    if s.offset.None? {
      return;
    }
    if s.overrideFrequency.Some? && s.overrideFrequency.value > 0.0 {
      d := d.(frequency := Some(Round6(s.overrideFrequency.value + s.offset.value)), source := Some(Override));
      return;
    }
    if s.span.None? || s.bandwidth.None? || s.bandwidth.value <= 0.0 {
      return;
    }
    var slots := Slots(s.span.value, s.bandwidth.value);
    if slots < 1 || s.channelNum.None? || s.channelNum.value < 0 {
      return;
    }
    var index: int;
    if s.channelNum.value != 0 {
      index := (s.channelNum.value - 1) % slots;
    } else {
      var name := EffectiveName(s);
      if name.None? || s.primaryName.None? {
        return;
      }
      var hash := NameHash(Utf8.Encode(name.value));
      index := hash % slots;
    }
    d := d.(slot := Some(index + 1));
    d := d.(frequency := Some(Round6(Centre(s.span.value, s.bandwidth.value, index) + s.offset.value)));
    d := d.(source := Some(Calculated));
  }

  lemma RoundIsClose(x: real)
    ensures x - 0.0000005 <= Round6(x) <= x + 0.0000005
  {
    var y := x * MILLION;
    assert y - 0.5 <= RoundToInt(y) as real <= y + 0.5;
  }

  lemma Scale(a: real, b: real, w: real)
    requires a <= b && w >= 0.0
    ensures a * w <= b * w
  {
    assert (b - a) * w >= 0.0;
  }

  /** All slots together exceed the band by no more than the rounding of their number. */
  lemma SlotsFit(span: Span, bandwidth: real)
    requires bandwidth > 0.0
    ensures Slots(span, bandwidth) as real * bandwidth / 1000.0 <= (span.high - span.low) + 0.0000005 * bandwidth / 1000.0
  {
    var x := (span.high - span.low) * 1000.0 / bandwidth;
    RoundIsClose(x);
    Scale(Slots(span, bandwidth) as real, x + 0.0000005, bandwidth);
    DivideBack((span.high - span.low) * 1000.0, bandwidth);
    Distribute(x, 0.0000005, bandwidth);
  }

  /** And one slot more would not fit. */
  lemma SlotsAreMaximal(span: Span, bandwidth: real)
    requires bandwidth > 0.0
    ensures (Slots(span, bandwidth) + 1) as real * bandwidth / 1000.0 > (span.high - span.low) - 0.0000005 * bandwidth / 1000.0
  {
    var x := (span.high - span.low) * 1000.0 / bandwidth;
    RoundIsClose(x);
    var n := (Slots(span, bandwidth) + 1) as real;
    var gap := n - (x - 0.0000005);
    assert gap > 0.0;
    PositiveProduct(gap, bandwidth);
    DivideBack((span.high - span.low) * 1000.0, bandwidth);
    Distribute(gap, x - 0.0000005, bandwidth);
    Distribute(x, -0.0000005, bandwidth);
  }

  lemma DivideBack(a: real, b: real)
    requires b > 0.0
    ensures a / b * b == a
  {
  }

  lemma PositiveProduct(a: real, b: real)
    requires a > 0.0 && b > 0.0
    ensures a * b > 0.0
  {
  }

  /** The effective slot is one of the band's slots, and a configured slot that exists is used as it is. */
  lemma EffectiveSlotExists(s: Settings)
    requires HasSlot(s)
    ensures var slots := Slots(s.span.value, s.bandwidth.value);
            && 1 <= SlotIndex(s) + 1 <= slots
            && (1 <= s.channelNum.value <= slots ==> SlotIndex(s) + 1 == s.channelNum.value)
  {
    var slots := Slots(s.span.value, s.bandwidth.value);
    if 1 <= s.channelNum.value <= slots {
      Euclid(0, s.channelNum.value - 1, slots);
    }
  }

  /** The channel lies in the band up to the rounding of the slot count. */
  lemma ChannelLiesInBand(s: Settings)
    requires HasSlot(s)
    ensures var span, bandwidth, centre := s.span.value, s.bandwidth.value, Centre(s.span.value, s.bandwidth.value, SlotIndex(s));
            && span.low <= centre - bandwidth / 2000.0
            && centre + bandwidth / 2000.0 <= span.high + 0.0000005 * bandwidth / 1000.0
  {
    EffectiveSlotExists(s);
    BandEdges(s.span.value, s.bandwidth.value, SlotIndex(s));
  }

  lemma BandEdges(span: Span, bandwidth: real, index: int)
    requires bandwidth > 0.0 && 0 <= index < Slots(span, bandwidth)
    ensures span.low <= Centre(span, bandwidth, index) - bandwidth / 2000.0
    ensures Centre(span, bandwidth, index) + bandwidth / 2000.0 <= span.high + 0.0000005 * bandwidth / 1000.0
  {
    SlotsFit(span, bandwidth);
    Scale((index + 1) as real, Slots(span, bandwidth) as real, bandwidth);
    Scale(0.0, index as real, bandwidth);
    Distribute(index as real, 1.0, bandwidth);
  }

  lemma Distribute(a: real, b: real, w: real)
    ensures (a + b) * w == a * w + b * w
  {
  }

  /** Channels of different slots do not overlap. */
  lemma SlotsDoNotOverlap(span: Span, bandwidth: real, a: int, b: int)
    requires bandwidth > 0.0 && a < b
    ensures Centre(span, bandwidth, a) + bandwidth / 2000.0 <= Centre(span, bandwidth, b) - bandwidth / 2000.0
  {
    Scale((a + 1) as real, b as real, bandwidth);
    Distribute(a as real, 1.0, bandwidth);
  }

  // ---------- When there is a slot, and which ----------

  /** Rounding takes the nearest number, of two equally near ones the even one. */
  lemma RoundsToNearestEven(x: real)
    ensures var n := RoundToInt(x);
            && x - 0.5 <= n as real <= x + 0.5
            && (n as real == x - 0.5 || n as real == x + 0.5 ==> n % 2 == 0)
  {
  }

  /** The band holds at least one slot exactly when it is as wide as the channel, up to the rounding. */
  lemma SlotFitsIff(span: Span, bandwidth: real)
    requires bandwidth > 0.0
    ensures Slots(span, bandwidth) >= 1 <==> (span.high - span.low) * 1000.0 >= 0.9999995 * bandwidth
  {
    var x := (span.high - span.low) * 1000.0 / bandwidth;
    RoundsToOneIff(x);
    QuotientIff((span.high - span.low) * 1000.0, bandwidth, x);
  }

  lemma QuotientIff(a: real, b: real, x: real)
    requires b > 0.0 && x == a / b
    ensures x >= 0.9999995 <==> a >= 0.9999995 * b
  {
    DivideBack(a, b);
    ScaleIff(0.9999995, x, b);
  }

  lemma ScaleIff(a: real, b: real, w: real)
    requires w > 0.0
    ensures a <= b <==> a * w <= b * w
  {
    if a <= b {
      Scale(a, b, w);
    } else {
      PositiveProduct(a - b, w);
      Distribute(a, -b, w);
    }
  }

  lemma RoundsToOneIff(x: real)
    ensures Round6(x) >= 1.0 <==> x >= 0.9999995
  {
    var n := RoundToInt(x * MILLION);
    assert n >= 1_000_000 <==> x * MILLION >= 999_999.5;
  }

  /** Which settings give a slot, and which at least a frequency. */
  lemma DetailsIff(s: Settings, d: Details)
    requires Derives(s, d)
    ensures var override := s.overrideFrequency.Some? && s.overrideFrequency.value > 0.0;
            && (d.slot.Some? <==>
                  && s.offset.Some? && !override && s.span.Some? && s.bandwidth.Some? && s.bandwidth.value > 0.0
                  && (s.span.value.high - s.span.value.low) * 1000.0 >= 0.9999995 * s.bandwidth.value
                  && s.channelNum.Some? && s.channelNum.value >= 0
                  && (s.channelNum.value == 0 ==> s.primaryName.Some? && (s.primaryName.value == "" ==> s.defaultName.Some?)))
            && (d.frequency.Some? <==> d.slot.Some? || (s.offset.Some? && override))
            && (d.source == if d.slot.Some? then Some(Calculated) else if d.frequency.Some? then Some(Override) else None)
            && (d.frequency.Some? && d.slot.None? ==>
                  var sum := s.overrideFrequency.value + s.offset.value; sum - 0.0000005 <= d.frequency.value <= sum + 0.0000005)
  {
    if s.span.Some? && s.bandwidth.Some? && s.bandwidth.value > 0.0 {
      SlotFitsIff(s.span.value, s.bandwidth.value);
    }
    if s.overrideFrequency.Some? && s.offset.Some? {
      RoundIsClose(s.overrideFrequency.value + s.offset.value);
    }
  }

  /** The channel of the frequency lies within its slot of the band, up to the offset and the roundings. */
  lemma FrequencyIsInSlot(s: Settings, d: Details)
    requires Derives(s, d) && d.slot.Some?
    ensures d.frequency.Some? && s.offset.Some? && s.span.Some? && s.bandwidth.Some?
    ensures var edge := s.span.value.low + (d.slot.value - 1) as real * s.bandwidth.value / 1000.0;
            edge + s.bandwidth.value / 2000.0 - 0.0000005 <= d.frequency.value - s.offset.value <= edge + s.bandwidth.value / 2000.0 + 0.0000005
  {
    RoundIsClose(Centre(s.span.value, s.bandwidth.value, SlotIndex(s)) + s.offset.value);
  }

  /** A configured slot wraps around the band; without one the hash of the name decides, the default name standing for an empty one. */
  lemma SlotIsCongruent(s: Settings, d: Details) returns (hash: int)
    requires Derives(s, d) && d.slot.Some?
    ensures HasSlot(s)
    ensures var slots, name := Slots(s.span.value, s.bandwidth.value),
                               if s.primaryName == Some("") then s.defaultName else s.primaryName;
            && 1 <= d.slot.value <= slots
            && (s.channelNum.value > 0 ==> (s.channelNum.value - d.slot.value) % slots == 0)
            && (s.channelNum.value == 0 ==>
                  && name.Some? && 0 <= hash < TWO_32 && (Djb2(Utf8.Encode(name.value)) - hash) % TWO_32 == 0
                  && (hash + 1 - d.slot.value) % slots == 0)
  {
    EffectiveSlotExists(s);
    var slots := Slots(s.span.value, s.bandwidth.value);
    hash := 0;
    if s.channelNum.value > 0 {
      RemainderGoes(s.channelNum.value - 1, slots);
    } else {
      var sum := Djb2(Utf8.Encode(EffectiveName(s).value));
      hash := sum % TWO_32;
      RemainderGoes(sum, TWO_32);
      RemainderGoes(hash, slots);
    }
  }

  lemma RemainderGoes(x: int, m: int)
    requires m > 0
    ensures (x - x % m) % m == 0
  {
    assert x - x % m == (x / m) * m;
    Multiple(x / m, m);
  }

  /** The hash is a number written to base 33: appending multiplies what was there. */
  lemma {:induction false} HashAppends(a: seq<Utf8.Byte>, b: Utf8.Byte)
    ensures Djb2([]) == 5381 && Djb2(a + [b]) == 33 * Djb2(a) + b as int
  {
    assert (a + [b])[..|a + [b]| - 1] == a;
  }

  lemma HashGrows(a: seq<Utf8.Byte>, b: Utf8.Byte, hash: int) returns (next: seq<Utf8.Byte>)
    requires Djb2(a) == hash
    ensures next == a + [b] && Djb2(next) == 33 * hash + b as int
  {
    next := a + [b];
    HashAppends(a, b);
  }

  lemma LongFastHash(name: string)
    requires name == "LongFast"
    ensures Djb2(Utf8.Encode(name)) % TWO_32 == 130429955
  {
    var bytes := HashGrows([], 76, 5381);
    bytes := HashGrows(bytes, 111, 177649);
    bytes := HashGrows(bytes, 110, 5862528);
    bytes := HashGrows(bytes, 103, 193463534);
    bytes := HashGrows(bytes, 70, 6384296725);
    bytes := HashGrows(bytes, 97, 210681791995);
    bytes := HashGrows(bytes, 115, 6952499135932);
    bytes := HashGrows(bytes, 116, 229432471485871);
    assert Utf8.Encode(name) == bytes by {
      EncodeLongFast(name);
    }
  }

  lemma EncodePrepends(c: char, text: string, bytes: seq<Utf8.Byte>) returns (longer: string, all: seq<Utf8.Byte>)
    requires c < 0x80 as char && Utf8.Encode(text) == bytes
    ensures longer == [c] + text && Utf8.Encode(longer) == all == [c as int as Utf8.Byte] + bytes
  {
    longer, all := [c] + text, [c as int as Utf8.Byte] + bytes;
    assert longer[1..] == text;
  }

  lemma EncodeFast(name: string)
    requires name == "Fast"
    ensures Utf8.Encode(name) == [70, 97, 115, 116]
  {
    var text, bytes := EncodePrepends('t', [], []);
    text, bytes := EncodePrepends('s', text, bytes);
    text, bytes := EncodePrepends('a', text, bytes);
    text, bytes := EncodePrepends('F', text, bytes);
    assert text == name;
  }

  lemma EncodeLongFast(name: string)
    requires name == "LongFast"
    ensures Utf8.Encode(name) == [76, 111, 110, 103, 70, 97, 115, 116]
  {
    var text, bytes := name[4..], [70, 97, 115, 116];
    EncodeFast(text);
    text, bytes := EncodePrepends('g', text, bytes);
    text, bytes := EncodePrepends('n', text, bytes);
    text, bytes := EncodePrepends('o', text, bytes);
    text, bytes := EncodePrepends('L', text, bytes);
    assert text == name;
  }

  /** The settings of a radio that was left at its defaults. */
  function Defaults(span: Span, name: string): Settings {
    Settings(Some(span), Some(250.0), Some(0), Some(0.0), None, Some(""), Some(name))
  }

  lemma WholeSlots(span: Span, bandwidth: real, slots: int)
    requires bandwidth > 0.0 && (span.high - span.low) * 1000.0 == slots as real * bandwidth
    ensures Slots(span, bandwidth) == slots
  {
    var x := (span.high - span.low) * 1000.0 / bandwidth;
    assert x == slots as real by {
      DivideBack((span.high - span.low) * 1000.0, bandwidth);
    }
    RoundsExactly(slots as real, slots * 1_000_000);
  }

  /** A number of at most six digits after the point is kept. */
  lemma RoundsExactly(x: real, millionths: int)
    requires x * MILLION == millionths as real
    ensures Round6(x) == x
  {
    assert RoundToInt(x * MILLION) == millionths;
  }

  lemma LongFastIndex(span: Span, name: string, slots: int)
    requires name == "LongFast" && Slots(span, 250.0) == slots >= 1
    ensures HasSlot(Defaults(span, name)) && SlotIndex(Defaults(span, name)) == 130429955 % slots
  {
    LongFastHash(name);
  }

  lemma CalculatedIs(s: Settings, d: Details, index: int, frequency: real)
    requires Derives(s, d) && s.offset == Some(0.0) && s.overrideFrequency.None? && HasSlot(s) && SlotIndex(s) == index
    requires Centre(s.span.value, s.bandwidth.value, index) + 0.0 == frequency == Round6(frequency)
    ensures d == Details(Some(index + 1), Some(frequency), Some(Calculated))
  {
  }

  /** The documented defaults of three regions. */
  lemma DocumentedDefaults(name: string, eu868: Details, eu433: Details, us: Details)
    requires name == "LongFast"
    requires Derives(Defaults(Span(869.4, 869.65), name), eu868)
    requires Derives(Defaults(Span(433.0, 434.0), name), eu433)
    requires Derives(Defaults(Span(902.0, 928.0), name), us)
    ensures eu868 == Details(Some(1), Some(869.525), Some(Calculated))
    ensures eu433 == Details(Some(4), Some(433.875), Some(Calculated))
    ensures us == Details(Some(20), Some(906.875), Some(Calculated))
  {
    DefaultIs(Span(869.4, 869.65), name, 1, 869.525, 869525000, eu868);
    DefaultIs(Span(433.0, 434.0), name, 4, 433.875, 433875000, eu433);
    DefaultIs(Span(902.0, 928.0), name, 104, 906.875, 906875000, us);
  }

  lemma DefaultIs(span: Span, name: string, slots: int, frequency: real, millionths: int, d: Details)
    requires name == "LongFast" && slots >= 1 && Derives(Defaults(span, name), d)
    requires (span.high - span.low) * 1000.0 == slots as real * 250.0 && frequency * MILLION == millionths as real
    requires Centre(span, 250.0, 130429955 % slots) == frequency
    ensures d == Details(Some(130429955 % slots + 1), Some(frequency), Some(Calculated))
  {
    WholeSlots(span, 250.0, slots);
    RoundsExactly(frequency, millionths);
    LongFastIndex(span, name, slots);
    CalculatedIs(Defaults(span, name), d, 130429955 % slots, frequency);
  }
}
