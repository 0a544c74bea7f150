/** The satellite blacklist: six 64-bit masks and the list of satellite ids they stand for. The two
    conversions are loops, proved against recursive specifications, and then proved inverse. */
module Blacklist {
  import opened Wrappers
  import opened Bits

  datatype Constellation = Glonass | Beidou | Qzss | Galileo | Sbas | Navic | OtherType

  datatype Source = Source(constellation: Constellation, svId: nat)

  datatype Config = Config(glo: nat, bds: nat, qzss: nat, gal: nat, sbas: nat, navic: nat)

  const ZERO := Config(0, 0, 0, 0, 0, 0)

  const SBAS_INITIAL := 120
  const SBAS_LENGTH := 39
  const SBAS_INITIAL2 := 183

  /** Every bit of a 64-bit mask. */
  function AllBits(): nat { Pow2(64) - 1 }

  /** It is the full mask of the interface. */
  lemma AllBitsValue()
    ensures AllBits() == 0xFFFF_FFFF_FFFF_FFFF
  {
    EightDoublings(0, 1);
    EightDoublings(8, 0x100);
    EightDoublings(16, 0x1_0000);
    EightDoublings(24, 0x100_0000);
    EightDoublings(32, 0x1_0000_0000);
    EightDoublings(40, 0x100_0000_0000);
    EightDoublings(48, 0x1_0000_0000_0000);
    EightDoublings(56, 0x100_0000_0000_0000);
  }

  function MaskOf(c: Config, t: Constellation): nat {
    match t
    case Glonass => c.glo
    case Beidou => c.bds
    case Qzss => c.qzss
    case Galileo => c.gal
    case Sbas => c.sbas
    case Navic => c.navic
    case OtherType => 0
  }

  function WithMask(c: Config, t: Constellation, m: nat): Config {
    match t
    case Glonass => c.(glo := m)
    case Beidou => c.(bds := m)
    case Qzss => c.(qzss := m)
    case Galileo => c.(gal := m)
    case Sbas => c.(sbas := m)
    case Navic => c.(navic := m)
    case OtherType => c
  }

  /** The id of a constellation's first satellite; SBAS has a second range of its own. */
  function InitialSvId(t: Constellation): nat {
    match t
    case Glonass => 65
    case Beidou => 201
    case Qzss => 193
    case Galileo => 301
    case Sbas => SBAS_INITIAL
    case Navic => 401
    case OtherType => 0
  }

  ghost predicate ValidConfig(c: Config) {
    forall t :: MaskOf(c, t) < Pow2(64)
  }

  // ---------------------------------------------------------------- list to masks

  /** The bit a satellite stands for, when its id is one of its constellation's. */
  function Position(s: Source): Option<nat> {
    var first := InitialSvId(s.constellation);
    if s.constellation == OtherType || s.svId == 0 then None
    else if s.constellation == Sbas then
      (if SBAS_INITIAL2 <= s.svId < SBAS_INITIAL2 + 64 then Some(s.svId + SBAS_LENGTH - SBAS_INITIAL2)
       else if SBAS_INITIAL <= s.svId < SBAS_INITIAL + SBAS_LENGTH then Some(s.svId - SBAS_INITIAL)
       else None)
    else if first <= s.svId < first + 64 then Some(s.svId - first)
    else None
  }

  /** SBAS ids above 207 would shift by more than 63 bits, which C++ leaves undefined. */
  predicate Shiftable(s: Source) {
    Position(s).Some? ==> Position(s).value < 64
  }

  /** One entry of the list: id zero stands for the whole constellation, an unknown id for nothing. */
  function Apply(c: Config, s: Source): Config {
    if s.constellation == OtherType then c
    else if s.svId == 0 then WithMask(c, s.constellation, AllBits())
    else
      match Position(s)
      case None => c
      case Some(k) => WithMask(c, s.constellation, SetBit(MaskOf(c, s.constellation), k))
  }

  function ApplyAll(c: Config, list: seq<Source>): Config {
    if list == [] then c else Apply(ApplyAll(c, list[..|list| - 1]), list[|list| - 1])
  }

  /** An empty list clears the configuration; any other adds to it. */
  function ToConfig(list: seq<Source>, c: Config): Config {
    if list == [] then ZERO else ApplyAll(c, list)
  }

  predicate AnyMask(c: Config) {
    c.glo != 0 || c.bds != 0 || c.gal != 0 || c.qzss != 0 || c.sbas != 0 || c.navic != 0
  }

  /** The adapter's conversion from ids to masks. */
  method ConvertToGnssSvIdConfig(list: seq<Source>, config: Config) returns (ok: bool, result: Config)
    requires forall s :: s in list ==> Shiftable(s)
    ensures result == ToConfig(list, config)
    ensures ok == (list == [] || AnyMask(result))
  {
    result := config;
    if |list| == 0 {
      return true, ZERO;
    }
    var i := 0;
    while i < |list|
      invariant 0 <= i <= |list|
      invariant result == ApplyAll(config, list[..i])
    {
      assert list[..i + 1][..i] == list[..i];
      var source := list[i];
      var known, initial, offset := source.constellation != OtherType, InitialSvId(source.constellation), 0;
      if source.constellation == Sbas && source.svId != 0 {
        if source.svId >= SBAS_INITIAL2 {
          initial, offset := SBAS_INITIAL2, SBAS_LENGTH;
        } else if !(SBAS_INITIAL <= source.svId < SBAS_INITIAL + SBAS_LENGTH) {
          known := false;
        }
      }
      if known {
        if source.svId == 0 {
          result := WithMask(result, source.constellation, AllBits());
        } else if !(source.svId < initial || source.svId >= initial + 64) {
          assert source in list;
          var shift := source.svId + offset - initial;
          result := WithMask(result, source.constellation, SetBit(MaskOf(result, source.constellation), shift));
        }
      }
      i := i + 1;
    }
    assert list[..i] == list;
    ok := AnyMask(result);
  }

  // ---------------------------------------------------------------- masks to list

  function SvIdOf(t: Constellation, initial: nat, bit: nat): nat {
    if t == Sbas && bit >= SBAS_LENGTH then bit - SBAS_LENGTH + SBAS_INITIAL2 else bit + initial
  }

  function IdsFrom(m: nat, t: Constellation, initial: nat, bit: nat): seq<Source> {
    if m == 0 then []
    else (if m % 2 == 1 then [Source(t, SvIdOf(t, initial, bit))] else []) + IdsFrom(m / 2, t, initial, bit + 1)
  }

  function MaskToList(m: nat, t: Constellation, initial: nat): seq<Source> {
    if m == AllBits() then [Source(t, 0)] else IdsFrom(m, t, initial, 0)
  }

  method ConvertGnssSvIdMaskToList(mask: nat, svIds: seq<Source>, initial: nat, t: Constellation)
    returns (result: seq<Source>)
    ensures result == svIds + MaskToList(mask, t, initial)
  {
    if mask == AllBits() {
      return svIds + [Source(t, 0)];
    }
    result := svIds;
    var m, bit := mask, 0;
    while m > 0
      invariant result + IdsFrom(m, t, initial, bit) == svIds + IdsFrom(mask, t, initial, 0)
      decreases m
    {
      if m % 2 == 1 {
        var svId := bit + initial;
        if t == Sbas {
          if bit >= SBAS_LENGTH {
            svId := bit - SBAS_LENGTH + SBAS_INITIAL2;
          }
        }
        result := result + [Source(t, svId)];
      }
      bit := bit + 1;
      m := m / 2;
    }
  }

  function Segment(m: nat, t: Constellation): seq<Source> {
    if m == 0 then [] else MaskToList(m, t, InitialSvId(t))
  }

  /** The low 39 bits, cut out by a shift up and down in a 64-bit register. */
  function SbasFirst(m: nat): nat {
    ShiftRight(ShiftLeft(m, 64 - SBAS_LENGTH, 64), 64 - SBAS_LENGTH)
  }

  function SbasSecond(m: nat): nat {
    ShiftRight(m, SBAS_LENGTH)
  }

  /** The first 39 bits and the others name two separate ranges. */
  function SbasSegment(m: nat): seq<Source> {
    if m == 0 then []
    else
      MaskToList(SbasFirst(m), Sbas, SBAS_INITIAL) + MaskToList(SbasSecond(m), Sbas, SBAS_INITIAL2)
  }

  function FromConfig(c: Config): seq<Source> {
    Segment(c.bds, Beidou) + Segment(c.gal, Galileo) + Segment(c.glo, Glonass) + Segment(c.qzss, Qzss)
    + SbasSegment(c.sbas) + Segment(c.navic, Navic)
  }

  method AppendSegment(svIds: seq<Source>, m: nat, t: Constellation) returns (result: seq<Source>)
    ensures result == svIds + Segment(m, t)
  {
    result := svIds;
    if m != 0 {
      result := ConvertGnssSvIdMaskToList(m, result, InitialSvId(t), t);
    }
  }

  method AppendSbas(svIds: seq<Source>, m: nat) returns (result: seq<Source>)
    ensures result == svIds + SbasSegment(m)
  {
    result := svIds;
    if m != 0 {
      ghost var first, second := MaskToList(SbasFirst(m), Sbas, SBAS_INITIAL),
                                 MaskToList(SbasSecond(m), Sbas, SBAS_INITIAL2);
      result := ConvertGnssSvIdMaskToList(SbasFirst(m), result, SBAS_INITIAL, Sbas);
      result := ConvertGnssSvIdMaskToList(SbasSecond(m), result, SBAS_INITIAL2, Sbas);
      assert svIds + first + second == svIds + (first + second);
    }
  }

  /** The adapter's conversion from masks to ids, appended to a given list. */
  method ConvertFromGnssSvIdConfig(c: Config, svIds: seq<Source>) returns (result: seq<Source>)
    ensures result == svIds + FromConfig(c)
  {
    result := AppendSegment(svIds, c.bds, Beidou);
    result := AppendSegment(result, c.gal, Galileo);
    result := AppendSegment(result, c.glo, Glonass);
    result := AppendSegment(result, c.qzss, Qzss);
    result := AppendSbas(result, c.sbas);
    result := AppendSegment(result, c.navic, Navic);
    SixAppended(svIds, Segment(c.bds, Beidou), Segment(c.gal, Galileo), Segment(c.glo, Glonass),
                Segment(c.qzss, Qzss), SbasSegment(c.sbas), Segment(c.navic, Navic));
  }

  lemma SixAppended<T>(s: seq<T>, a: seq<T>, b: seq<T>, c: seq<T>, d: seq<T>, e: seq<T>, f: seq<T>)
    ensures s + a + b + c + d + e + f == s + (a + b + c + d + e + f)
  {
  }

  // ---------------------------------------------------------------- what the conversions mean

  /** The entry asks for bit k of the constellation's mask. */
  ghost predicate Asks(s: Source, t: Constellation, k: nat) {
    s.constellation == t && (s.svId == 0 || Position(s) == Some(k))
  }

  ghost predicate Asked(list: seq<Source>, t: Constellation, k: nat) {
    exists s :: s in list && Asks(s, t, k)
  }

  lemma ApplyBits(c: Config, s: Source, t: Constellation, k: nat)
    requires t != OtherType && Shiftable(s) && k < 64
    ensures Bit(MaskOf(Apply(c, s), t), k) <==> Bit(MaskOf(c, t), k) || Asks(s, t, k)
  {
    if s.constellation == t {
      if s.svId == 0 {
        OnesBits(64, k);
      } else if Position(s).Some? {
        SetBitBits(MaskOf(c, t), Position(s).value, k);
      }
    }
  }

  /** The masks after a list are the bits before and the bits asked for. */
  lemma {:induction false} ApplyAllBits(c: Config, list: seq<Source>, t: Constellation, k: nat)
    requires t != OtherType && k < 64 && forall s :: s in list ==> Shiftable(s)
    ensures Bit(MaskOf(ApplyAll(c, list), t), k) <==> Bit(MaskOf(c, t), k) || Asked(list, t, k)
  {
    if list != [] {
      var front, last := list[..|list| - 1], list[|list| - 1];
      assert list == front + [last];
      ApplyAllBits(c, front, t, k);
      ApplyBits(ApplyAll(c, front), last, t, k);
    }
  }

  lemma SetBitBelow(m: nat, k: nat, n: nat)
    requires m < Pow2(n) && k < n
    ensures SetBit(m, k) < Pow2(n)
  {
    forall j: nat | Bit(SetBit(m, k), j)
      ensures j < n
    {
      SetBitBits(m, k, j);
      if j >= n {
        BitsBelow(m, n, j);
      }
    }
    BelowFromBits(SetBit(m, k), n);
  }

  lemma ApplyValid(c: Config, s: Source)
    requires ValidConfig(c) && Shiftable(s)
    ensures ValidConfig(Apply(c, s))
  {
    if Position(s).Some? {
      SetBitBelow(MaskOf(c, s.constellation), Position(s).value, 64);
    }
    forall t
      ensures MaskOf(Apply(c, s), t) < Pow2(64)
    {
      assert MaskOf(c, t) < Pow2(64);
    }
  }

  lemma {:induction false} ApplyAllValid(c: Config, list: seq<Source>)
    requires ValidConfig(c) && forall s :: s in list ==> Shiftable(s)
    ensures ValidConfig(ApplyAll(c, list))
  {
    if list != [] {
      var front, last := list[..|list| - 1], list[|list| - 1];
      assert last in list && forall s :: s in front ==> s in list;
      ApplyAllValid(c, front);
      ApplyValid(ApplyAll(c, front), last);
    }
  }

  /** The satellite named by some set bit. */
  ghost predicate Names(m: nat, t: Constellation, initial: nat, bit: nat, s: Source) {
    s.constellation == t && exists k: nat :: Bit(m, k) && s.svId == SvIdOf(t, initial, bit + k)
  }

  /** The ids listed for a mask are those of its set bits. */
  lemma {:induction false} IdsFromMembers(m: nat, t: Constellation, initial: nat, bit: nat, s: Source)
    ensures s in IdsFrom(m, t, initial, bit) <==> Names(m, t, initial, bit, s)
    decreases m
  {
    if m == 0 {
      forall k: nat
        ensures !Bit(0, k)
      {
        BitsBelow(0, 0, k);
      }
    } else {
      IdsFromMembers(m / 2, t, initial, bit + 1, s);
      if Names(m / 2, t, initial, bit + 1, s) {
        var k: nat :| Bit(m / 2, k) && s.svId == SvIdOf(t, initial, bit + 1 + k);
        assert Bit(m, k + 1) && s.svId == SvIdOf(t, initial, bit + (k + 1));
      }
      if Names(m, t, initial, bit, s) {
        var k: nat :| Bit(m, k) && s.svId == SvIdOf(t, initial, bit + k);
        if k > 0 {
          assert Bit(m / 2, k - 1) && s.svId == SvIdOf(t, initial, bit + 1 + (k - 1));
        }
      }
      if m % 2 == 1 {
        assert Bit(m, 0);
      }
    }
  }

  lemma SbasFirstBits(m: nat, k: nat)
    requires m < Pow2(64)
    ensures Bit(SbasFirst(m), k) <==> k < SBAS_LENGTH && Bit(m, k)
  {
    var up := 64 - SBAS_LENGTH;
    ShiftRightBits(ShiftLeft(m, up, 64), up, k);
    ShiftLeftBits(m, up, 64, k + up);
  }

  lemma SbasSecondBits(m: nat, k: nat)
    requires m < Pow2(64)
    ensures Bit(SbasSecond(m), k) <==> Bit(m, k + SBAS_LENGTH)
  {
    ShiftRightBits(m, SBAS_LENGTH, k);
  }

  /** The first SBAS range holds the low 39 bits, the second the rest. */
  lemma SbasRanges(m: nat, k: nat)
    requires m < Pow2(64)
    ensures Bit(SbasFirst(m), k) <==> k < SBAS_LENGTH && Bit(m, k)
    ensures Bit(SbasSecond(m), k) <==> Bit(m, k + SBAS_LENGTH)
    ensures SbasFirst(m) != AllBits()
    ensures SbasSecond(m) != AllBits()
  {
    SbasFirstBits(m, k);
    SbasSecondBits(m, k);
    SbasFirstBits(m, 63);
    SbasSecondBits(m, 63);
    BitsBelow(m, 64, 63 + SBAS_LENGTH);
    OnesBits(64, 63);
  }

  /** Which entries the masks turn into: the constellation's zero id for a full mask that is not SBAS,
      otherwise one id for each set bit. */
  ghost predicate Lists(c: Config, s: Source) {
    var t, m := s.constellation, MaskOf(c, s.constellation);
    && t != OtherType && m != 0
    && (if t != Sbas && m == AllBits() then s.svId == 0
        else exists k: nat :: k < 64 && Bit(m, k) && s == Satellite(t, k))
  }

  /** The satellite a bit stands for. */
  function Satellite(t: Constellation, k: nat): Source {
    Source(t, SvIdOf(t, InitialSvId(t), k))
  }

  lemma SegmentMembers(m: nat, t: Constellation, s: Source)
    requires t != OtherType && t != Sbas && m < Pow2(64)
    ensures s in Segment(m, t)
       <==> m != 0 && s.constellation == t
            && (if m == AllBits() then s.svId == 0 else exists k: nat :: k < 64 && Bit(m, k) && s == Satellite(t, k))
  {
    IdsFromMembers(m, t, InitialSvId(t), 0, s);
    if m != 0 && m != AllBits() && Names(m, t, InitialSvId(t), 0, s) {
      var k: nat :| Bit(m, k) && s.svId == SvIdOf(t, InitialSvId(t), 0 + k);
      if k >= 64 {
        BitsBelow(m, 64, k);
      }
      assert k < 64 && Bit(m, k) && s == Satellite(t, k);
    }
    if m != 0 && m != AllBits() && exists k: nat :: k < 64 && Bit(m, k) && s == Satellite(t, k) {
      var k: nat :| k < 64 && Bit(m, k) && s == Satellite(t, k);
      assert Bit(m, k) && s.svId == SvIdOf(t, InitialSvId(t), 0 + k);
    }
  }

  lemma SbasSegmentMembers(m: nat, s: Source)
    requires m < Pow2(64)
    ensures s in SbasSegment(m)
       <==> m != 0 && s.constellation == Sbas && exists k: nat :: k < 64 && Bit(m, k) && s == Satellite(Sbas, k)
  {
    var first, second := SbasFirst(m), SbasSecond(m);
    SbasRanges(m, 0);
    IdsFromMembers(first, Sbas, SBAS_INITIAL, 0, s);
    IdsFromMembers(second, Sbas, SBAS_INITIAL2, 0, s);
    if Names(first, Sbas, SBAS_INITIAL, 0, s) {
      var k: nat :| Bit(first, k) && s.svId == SvIdOf(Sbas, SBAS_INITIAL, 0 + k);
      SbasRanges(m, k);
      assert k < 64 && Bit(m, k) && s == Satellite(Sbas, k);
    }
    if Names(second, Sbas, SBAS_INITIAL2, 0, s) {
      var k: nat :| Bit(second, k) && s.svId == SvIdOf(Sbas, SBAS_INITIAL2, 0 + k);
      SbasRanges(m, k);
      if k + SBAS_LENGTH >= 64 {
        BitsBelow(m, 64, k + SBAS_LENGTH);
      }
      assert Bit(m, k + SBAS_LENGTH) && s == Satellite(Sbas, k + SBAS_LENGTH);
    }
    if m != 0 && exists k: nat :: k < 64 && Bit(m, k) && s == Satellite(Sbas, k) {
      var k: nat :| k < 64 && Bit(m, k) && s == Satellite(Sbas, k);
      if k < SBAS_LENGTH {
        SbasRanges(m, k);
        assert Bit(first, k) && s.svId == SvIdOf(Sbas, SBAS_INITIAL, 0 + k);
      } else {
        SbasRanges(m, k - SBAS_LENGTH);
        assert Bit(second, k - SBAS_LENGTH) && s.svId == SvIdOf(Sbas, SBAS_INITIAL2, 0 + (k - SBAS_LENGTH));
      }
    }
  }

  lemma FromConfigMembers(c: Config, s: Source)
    requires ValidConfig(c)
    ensures s in FromConfig(c) <==> Lists(c, s)
  {
    assert forall t :: MaskOf(c, t) < Pow2(64);
    SegmentMembers(MaskOf(c, Beidou), Beidou, s);
    SegmentMembers(MaskOf(c, Galileo), Galileo, s);
    SegmentMembers(MaskOf(c, Glonass), Glonass, s);
    SegmentMembers(MaskOf(c, Qzss), Qzss, s);
    SegmentMembers(MaskOf(c, Navic), Navic, s);
    SbasSegmentMembers(MaskOf(c, Sbas), s);
  }

  /** A bit's satellite stands for that bit, and only that one does. */
  lemma SatellitePosition(t: Constellation, k: nat)
    requires t != OtherType && k < 64
    ensures Position(Satellite(t, k)) == Some(k) && Satellite(t, k).svId != 0
  {
  }

  lemma PositionSatellite(s: Source)
    requires Position(s).Some?
    ensures s == Satellite(s.constellation, Position(s).value)
  {
  }

  /** Every list made from masks can be converted back. */
  lemma ListedShiftable(c: Config, s: Source)
    requires ValidConfig(c) && s in FromConfig(c)
    ensures Shiftable(s)
  {
    FromConfigMembers(c, s);
    if s.svId != 0 {
      var k: nat :| k < 64 && Bit(MaskOf(c, s.constellation), k) && s == Satellite(s.constellation, k);
      SatellitePosition(s.constellation, k);
    }
  }

  lemma AskedHasBit(c: Config, t: Constellation, k: nat)
    requires ValidConfig(c) && t != OtherType && k < 64 && Asked(FromConfig(c), t, k)
    ensures Bit(MaskOf(c, t), k)
  {
    var m := MaskOf(c, t);
    var s :| s in FromConfig(c) && Asks(s, t, k);
    FromConfigMembers(c, s);
    if t != Sbas && m == AllBits() {
      OnesBits(64, k);
    } else {
      var j: nat :| j < 64 && Bit(m, j) && s == Satellite(t, j);
      SatellitePosition(t, j);
    }
  }

  lemma BitIsAsked(c: Config, t: Constellation, k: nat)
    requires ValidConfig(c) && t != OtherType && k < 64 && Bit(MaskOf(c, t), k)
    ensures Asked(FromConfig(c), t, k)
  {
    var m := MaskOf(c, t);
    var s := if t != Sbas && m == AllBits() then Source(t, 0) else Satellite(t, k);
    if m == 0 {
      BitsBelow(0, 0, k);
    }
    SatellitePosition(t, k);
    FromConfigMembers(c, s);
    assert s in FromConfig(c) && Asks(s, t, k);
  }

  lemma AskedIffBit(c: Config, t: Constellation, k: nat)
    requires ValidConfig(c) && t != OtherType && k < 64
    ensures Asked(FromConfig(c), t, k) <==> Bit(MaskOf(c, t), k)
  {
    if Asked(FromConfig(c), t, k) {
      AskedHasBit(c, t, k);
    }
    if Bit(MaskOf(c, t), k) {
      BitIsAsked(c, t, k);
    }
  }

  /** Masks, to ids, and back: the same six masks, the full ones and the split SBAS range included. */
  lemma MaskRoundTrip(c: Config)
    requires ValidConfig(c)
    ensures forall s :: s in FromConfig(c) ==> Shiftable(s)
    ensures ToConfig(FromConfig(c), ZERO) == c
  {
    var list := FromConfig(c);
    forall s | s in list
      ensures Shiftable(s)
    {
      ListedShiftable(c, s);
    }
    var back := ToConfig(list, ZERO);
    ApplyAllValid(ZERO, list);
    forall t | t != OtherType
      ensures MaskOf(back, t) == MaskOf(c, t)
    {
      forall k: nat
        ensures Bit(MaskOf(back, t), k) <==> Bit(MaskOf(c, t), k)
      {
        if k < 64 {
          AskedIffBit(c, t, k);
          ApplyAllBits(ZERO, list, t, k);
          BitsBelow(0, 0, k);
        } else {
          BitsBelow(MaskOf(back, t), 64, k);
          BitsBelow(MaskOf(c, t), 64, k);
        }
      }
      SameBits(MaskOf(back, t), MaskOf(c, t));
    }
    assert MaskOf(back, Glonass) == c.glo && MaskOf(back, Beidou) == c.bds && MaskOf(back, Qzss) == c.qzss;
    assert MaskOf(back, Galileo) == c.gal && MaskOf(back, Sbas) == c.sbas && MaskOf(back, Navic) == c.navic;
  }

  /** All 64 satellites of the constellation are in the list. */
  ghost predicate WholeConstellation(list: seq<Source>, t: Constellation) {
    forall k: nat :: k < 64 ==> Satellite(t, k) in list
  }

  lemma ListedBits(list: seq<Source>, t: Constellation, k: nat)
    requires t != OtherType && k < 64 && forall s :: s in list ==> Position(s).Some? && Shiftable(s)
    ensures Bit(MaskOf(ToConfig(list, ZERO), t), k) <==> Satellite(t, k) in list
  {
    ApplyAllBits(ZERO, list, t, k);
    BitsBelow(0, 0, k);
    SatellitePosition(t, k);
    if Asked(list, t, k) {
      var s :| s in list && Asks(s, t, k);
      PositionSatellite(s);
    }
  }

  /** Valid ids, to masks, and back: the same set of ids, unless a whole constellation other than SBAS
      was listed, which comes back as its zero id. */
  lemma IdRoundTrip(list: seq<Source>)
    requires forall s :: s in list ==> Position(s).Some? && Shiftable(s)
    ensures (forall s :: s in FromConfig(ToConfig(list, ZERO)) <==> s in list)
       <==> forall t :: t != OtherType && t != Sbas ==> !WholeConstellation(list, t)
  {
    var c := ToConfig(list, ZERO);
    ApplyAllValid(ZERO, list);
    if t :| t != OtherType && t != Sbas && WholeConstellation(list, t) {
      WholeMask(list, t);
      var all := Source(t, 0);
      FromConfigMembers(c, all);
      assert Position(all) == None;
    } else {
      forall s
        ensures s in FromConfig(c) <==> s in list
      {
        FromConfigMembers(c, s);
        IdListed(list, s);
      }
    }
  }

  function AllSatellites(t: Constellation): (list: seq<Source>)
    ensures |list| == 64 && forall k :: 0 <= k < 64 ==> list[k] == Satellite(t, k)
  {
    seq(64, k requires 0 <= k < 64 => Satellite(t, k))
  }

  lemma AllSatellitesValid(t: Constellation)
    requires t != OtherType
    ensures forall s :: s in AllSatellites(t) ==> Position(s).Some? && Shiftable(s)
    ensures WholeConstellation(AllSatellites(t), t)
  {
    var list := AllSatellites(t);
    forall k: nat | k < 64
      ensures Position(list[k]) == Some(k) && Satellite(t, k) in list
    {
      SatellitePosition(t, k);
      assert list[k] == Satellite(t, k);
    }
  }

  /** All 64 ids of one constellation come back as its zero id. */
  lemma WholeConstellationChanges(t: Constellation)
    requires t != OtherType && t != Sbas
    ensures !(forall s :: s in FromConfig(ToConfig(AllSatellites(t), ZERO)) <==> s in AllSatellites(t))
  {
    AllSatellitesValid(t);
    IdRoundTrip(AllSatellites(t));
  }

  lemma WholeMask(list: seq<Source>, t: Constellation)
    requires t != OtherType && forall s :: s in list ==> Position(s).Some? && Shiftable(s)
    requires ValidConfig(ToConfig(list, ZERO))
    ensures MaskOf(ToConfig(list, ZERO), t) == AllBits() <==> WholeConstellation(list, t)
  {
    var m := MaskOf(ToConfig(list, ZERO), t);
    forall k: nat
      ensures k < 64 ==> (Bit(m, k) <==> Satellite(t, k) in list)
      ensures Bit(AllBits(), k) <==> k < 64
      ensures k >= 64 ==> !Bit(m, k)
    {
      OnesBits(64, k);
      if k < 64 {
        ListedBits(list, t, k);
      } else {
        BitsBelow(m, 64, k);
      }
    }
    if WholeConstellation(list, t) {
      SameBits(m, AllBits());
    }
  }

  lemma IdListed(list: seq<Source>, s: Source)
    requires forall s :: s in list ==> Position(s).Some? && Shiftable(s)
    requires ValidConfig(ToConfig(list, ZERO))
    requires forall t :: t != OtherType && t != Sbas ==> !WholeConstellation(list, t)
    ensures Lists(ToConfig(list, ZERO), s) <==> s in list
  {
    var c, t := ToConfig(list, ZERO), s.constellation;
    if t != OtherType {
      WholeMask(list, t);
      if Lists(c, s) {
        var k: nat :| k < 64 && Bit(MaskOf(c, t), k) && s == Satellite(t, k);
        ListedBits(list, t, k);
      }
      if s in list {
        PositionSatellite(s);
        ListedBits(list, t, Position(s).value);
        if MaskOf(c, t) == 0 {
          BitsBelow(0, 0, Position(s).value);
        }
      }
    }
  }

  // ---------------------------------------------------------------- which bit is which satellite

  /** The id that bit k of a constellation's mask stands for. */
  function IdOfBit(t: Constellation, k: nat): nat {
    match t
    case Glonass => 65 + k
    case Beidou => 201 + k
    case Qzss => 193 + k
    case Galileo => 301 + k
    case Navic => 401 + k
    case Sbas => if k < 39 then 120 + k else 183 + (k - 39)
    case OtherType => 0
  }

  /** One id sets its own bit and no other. */
  lemma IdSetsBit(t: Constellation, k: nat, u: Constellation, j: nat)
    requires t != OtherType && u != OtherType && k < 64 && j < 64
    ensures Bit(MaskOf(ToConfig([Source(t, IdOfBit(t, k))], ZERO), u), j) <==> t == u && j == k
  {
    var s := Source(t, IdOfBit(t, k));
    var list := [s];
    assert list[..0] == [] && ApplyAll(ZERO, []) == ZERO;
    assert ToConfig(list, ZERO) == ApplyAll(ZERO, list) == Apply(ZERO, s);
    assert Position(s) == Some(k);
    ApplyBits(ZERO, s, u, j);
    BitsBelow(0, 0, j);
  }

  /** The order of the ids: BeiDou, Galileo, GLONASS, QZSS, SBAS, NavIC, and by id within each. */
  function Rank(t: Constellation): nat {
    match t
    case Beidou => 0
    case Galileo => 1
    case Glonass => 2
    case Qzss => 3
    case Sbas => 4
    case Navic => 5
    case OtherType => 6
  }

  predicate Precedes(a: Source, b: Source) {
    Rank(a.constellation) < Rank(b.constellation) || (a.constellation == b.constellation && a.svId < b.svId)
  }

  ghost predicate InOrder(list: seq<Source>) {
    forall i, j :: 0 <= i < j < |list| ==> Precedes(list[i], list[j])
  }

  lemma InOrderJoined(a: seq<Source>, b: seq<Source>)
    requires InOrder(a) && InOrder(b) && forall x, y :: x in a && y in b ==> Precedes(x, y)
    ensures InOrder(a + b)
  {
    var all := a + b;
    forall i, j | 0 <= i < j < |all|
      ensures Precedes(all[i], all[j])
    {
      if i < |a| && j >= |a| {
        assert all[i] in a && all[j] in b;
      }
    }
  }

  ghost predicate Within(list: seq<Source>, t: Constellation, low: nat, high: nat) {
    forall s :: s in list ==> s.constellation == t && low <= s.svId < high
  }

  lemma {:induction false} IdsInOrder(m: nat, t: Constellation, initial: nat, bit: nat, n: nat)
    requires m < Pow2(n) && (t == Sbas ==> bit + n <= SBAS_LENGTH)
    ensures InOrder(IdsFrom(m, t, initial, bit))
    ensures Within(IdsFrom(m, t, initial, bit), t, bit + initial, bit + n + initial)
  {
    if m > 0 {
      assert n > 0;
      IdsInOrder(m / 2, t, initial, bit + 1, n - 1);
      if m % 2 == 1 {
        InOrderJoined([Source(t, bit + initial)], IdsFrom(m / 2, t, initial, bit + 1));
      }
    }
  }

  ghost predicate Only(list: seq<Source>, t: Constellation) {
    InOrder(list) && forall s :: s in list ==> s.constellation == t
  }

  lemma SegmentInOrder(m: nat, t: Constellation)
    requires m < Pow2(64) && t != Sbas
    ensures Only(Segment(m, t), t)
  {
    IdsInOrder(m, t, InitialSvId(t), 0, 64);
  }

  lemma SbasBelow(m: nat)
    requires m < Pow2(64)
    ensures SbasFirst(m) < Pow2(39) && SbasSecond(m) < Pow2(25)
  {
    forall k: nat
      ensures Bit(SbasFirst(m), k) ==> k < 39
      ensures Bit(SbasSecond(m), k) ==> k < 25
    {
      SbasRanges(m, k);
      if k + 39 >= 64 {
        BitsBelow(m, 64, k + 39);
      }
    }
    BelowFromBits(SbasFirst(m), 39);
    BelowFromBits(SbasSecond(m), 25);
  }

  lemma SbasInOrder(m: nat)
    requires m < Pow2(64)
    ensures Only(SbasSegment(m), Sbas)
  {
    var first, second := SbasFirst(m), SbasSecond(m);
    SbasBelow(m);
    SbasRanges(m, 0);
    IdsInOrder(first, Sbas, SBAS_INITIAL, 0, 39);
    IdsInOrder(second, Sbas, SBAS_INITIAL2, 0, 25);
    InOrderJoined(IdsFrom(first, Sbas, SBAS_INITIAL, 0), IdsFrom(second, Sbas, SBAS_INITIAL2, 0));
  }

  ghost predicate UpTo(list: seq<Source>, rank: nat) {
    InOrder(list) && forall s :: s in list ==> Rank(s.constellation) <= rank
  }

  lemma NextSegment(list: seq<Source>, rank: nat, more: seq<Source>, t: Constellation)
    requires UpTo(list, rank) && Only(more, t) && rank < Rank(t)
    ensures UpTo(list + more, Rank(t))
  {
    InOrderJoined(list, more);
  }

  lemma MasksBelow(c: Config)
    requires ValidConfig(c)
    ensures c.bds < Pow2(64) && c.gal < Pow2(64) && c.glo < Pow2(64)
    ensures c.qzss < Pow2(64) && c.sbas < Pow2(64) && c.navic < Pow2(64)
  {
    assert MaskOf(c, Beidou) == c.bds && MaskOf(c, Galileo) == c.gal && MaskOf(c, Glonass) == c.glo;
    assert MaskOf(c, Qzss) == c.qzss && MaskOf(c, Sbas) == c.sbas && MaskOf(c, Navic) == c.navic;
  }

  /** The ids come out in that order. */
  lemma FromConfigInOrder(c: Config)
    requires ValidConfig(c)
    ensures InOrder(FromConfig(c))
  {
    MasksBelow(c);
    SegmentInOrder(c.bds, Beidou);
    SegmentInOrder(c.gal, Galileo);
    SegmentInOrder(c.glo, Glonass);
    SegmentInOrder(c.qzss, Qzss);
    SbasInOrder(c.sbas);
    SegmentInOrder(c.navic, Navic);
    var l1 := Segment(c.bds, Beidou);
    var l2 := l1 + Segment(c.gal, Galileo);
    var l3 := l2 + Segment(c.glo, Glonass);
    var l4 := l3 + Segment(c.qzss, Qzss);
    var l5 := l4 + SbasSegment(c.sbas);
    NextSegment(l1, 0, Segment(c.gal, Galileo), Galileo);
    NextSegment(l2, 1, Segment(c.glo, Glonass), Glonass);
    NextSegment(l3, 2, Segment(c.qzss, Qzss), Qzss);
    NextSegment(l4, 3, SbasSegment(c.sbas), Sbas);
    NextSegment(l5, 4, Segment(c.navic, Navic), Navic);
  }
}
