/** The configuration of the PON ports: validation, lookup and defaults.

    All numbers are 32-bit; loop counters and sums wrap around as they do in the source. */
module PonsConfig {
  import opened MachineIntegers
  import opened Options

  datatype IdRange = IdRange(start: uint32, end: uint32)

  datatype PonRange = PonRange(pons: IdRange, technology: string, onus: IdRange, allocIds: IdRange, gemports: IdRange)

  datatype Config = Config(number: uint32, ranges: seq<PonRange>)

  datatype Error =
    | NoPonPorts
    | BadTechnology(range: nat)
    | BadLimits(range: nat)
    | PonTooHigh(range: nat, pon: uint32)
    | DuplicatePon(range: nat, pon: uint32)
    | UndefinedPon(pon: uint32)

  const TECHNOLOGIES: seq<string> := ["GPON", "XGS-PON"]

  predicate ValidTechnology(t: string) {
    t in TECHNOLOGIES
  }

  predicate Ordered(r: IdRange) {
    r.start <= r.end
  }

  predicate Covers(r: PonRange, pon: uint32) {
    r.pons.start <= pon <= r.pons.end
  }

  // ----- what a valid configuration is

  ghost predicate RangesOk(c: Config) {
    forall i :: 0 <= i < |c.ranges| ==>
      var r := c.ranges[i];
      && ValidTechnology(r.technology)
      && Ordered(r.pons) && Ordered(r.onus) && Ordered(r.allocIds) && Ordered(r.gemports)
  }

  // One of the first n ranges covers the port.
  ghost predicate CoveredBefore(c: Config, n: nat, pon: uint32)
    requires n <= |c.ranges|
  {
    exists i :: 0 <= i < n && Covers(c.ranges[i], pon)
  }

  // The PON ranges partition the ports 0 .. number - 1.
  ghost predicate Partition(c: Config) {
    && (forall pon: uint32 :: pon < c.number ==> CoveredBefore(c, |c.ranges|, pon))
    && (forall i, pon :: 0 <= i < |c.ranges| && Covers(c.ranges[i], pon) ==> pon < c.number)
    && (forall i, j, pon :: 0 <= i < j < |c.ranges| ==> !(Covers(c.ranges[i], pon) && Covers(c.ranges[j], pon)))
  }

  ghost predicate Valid(c: Config) {
    c.number > 0 && RangesOk(c) && Partition(c)
  }

  // Each error names a defect that is there.
  ghost predicate Explains(c: Config, e: Error) {
    match e
    case NoPonPorts => c.number == 0
    case BadTechnology(i) => i < |c.ranges| && !ValidTechnology(c.ranges[i].technology)
    case BadLimits(i) =>
      i < |c.ranges| && !(Ordered(c.ranges[i].pons) && Ordered(c.ranges[i].onus) &&
                          Ordered(c.ranges[i].allocIds) && Ordered(c.ranges[i].gemports))
    case PonTooHigh(i, pon) => i < |c.ranges| && Covers(c.ranges[i], pon) && pon >= c.number
    case DuplicatePon(i, pon) => i < |c.ranges| && Covers(c.ranges[i], pon) && CoveredBefore(c, i, pon)
    case UndefinedPon(pon) => pon < c.number && !CoveredBefore(c, |c.ranges|, pon)
  }

  lemma ExplainedIsInvalid(c: Config, e: Error)
    requires Explains(c, e)
    ensures !Valid(c)
  {
    match e
    case DuplicatePon(i, pon) =>
      var j :| 0 <= j < i && Covers(c.ranges[j], pon);
    case _ =>
  }

  // ----- validation

  // validatePonsConfig
  method Validate(c: Config) returns (r: Option<Error>)
    ensures r.None? <==> Valid(c)
    ensures r.Some? ==> Explains(c, r.value)
  {
    r := Check(c);
    if r.Some? {
      ExplainedIsInvalid(c, r.value);
    }
  }

  method Check(c: Config) returns (r: Option<Error>)
    ensures r.None? ==> Valid(c)
    ensures r.Some? ==> Explains(c, r.value)
  {
    if c.number == 0 {
      return Some(NoPonPorts);
    }
    var definedPorts := new int[c.number as int](_ => 0);
    for i := 0 to |c.ranges|
      invariant definedPorts.Length == c.number as int
      invariant forall p: uint32 :: p < c.number ==> definedPorts[p] == if CoveredBefore(c, i, p) then 1 else 0
      invariant RangesOk(c.(ranges := c.ranges[..i]))
      invariant forall j, pon :: 0 <= j < i && Covers(c.ranges[j], pon) ==> pon < c.number
      invariant forall j, k, pon :: 0 <= j < k < i ==> !(Covers(c.ranges[j], pon) && Covers(c.ranges[k], pon))
    {
      var range := c.ranges[i];
      if range.technology !in TECHNOLOGIES {
        return Some(BadTechnology(i));
      }
      if range.pons.end < range.pons.start {
        return Some(BadLimits(i));
      }
      var e := CountPorts(c, i, definedPorts);
      if e.Some? {
        return e;
      }
      if range.onus.end < range.onus.start || range.allocIds.end < range.allocIds.start ||
         range.gemports.end < range.gemports.start {
        return Some(BadLimits(i));
      }
    }
    assert c.ranges[..|c.ranges|] == c.ranges;
    for p := 0 to definedPorts.Length
      invariant forall q: uint32 :: 0 <= q as int < p ==> CoveredBefore(c, |c.ranges|, q)
    {
      if definedPorts[p] < 1 {
        assert !CoveredBefore(c, |c.ranges|, p as uint32);
        return Some(UndefinedPon(p as uint32));
      }
    }
    return None;
  }

  // The inner loop over the ports of one range. Its counter would wrap around after the last 32-bit
  // number; the check against the number of ports ends the loop before that.
  method CountPorts(c: Config, i: nat, definedPorts: array<int>) returns (e: Option<Error>)
    requires i < |c.ranges| && Ordered(c.ranges[i].pons)
    requires 0 < definedPorts.Length == c.number as int
    requires forall p: uint32 :: p < c.number ==> definedPorts[p] == if CoveredBefore(c, i, p) then 1 else 0
    modifies definedPorts
    ensures e.Some? ==> Explains(c, e.value)
    ensures e.None? ==> forall p :: Covers(c.ranges[i], p) ==> p < c.number && !CoveredBefore(c, i, p)
    ensures e.None? ==>
      forall p: uint32 :: p < c.number ==> definedPorts[p] == if CoveredBefore(c, i + 1, p) then 1 else 0
  {
    var range := c.ranges[i].pons;
    var p := range.start;
    while p <= range.end
      invariant range.start <= p
      invariant p as int <= range.end as int + 1
      invariant forall q: uint32 :: Covers(c.ranges[i], q) && q < p ==> q < c.number && !CoveredBefore(c, i, q)
      invariant forall q: uint32 :: q < c.number ==>
        definedPorts[q] == if CoveredBefore(c, i, q) || (Covers(c.ranges[i], q) && q < p) then 1 else 0
      decreases range.end as int - p as int
    {
      if p as int > definedPorts.Length - 1 {
        return Some(PonTooHigh(i, p));
      }
      definedPorts[p] := definedPorts[p] + 1;
      if definedPorts[p] > 1 {
        return Some(DuplicatePon(i, p));
      }
      p := Wrap32(p as int + 1);
    }
    return None;
  }

  // ----- lookup

  // GetPonConfigById: the first range that covers the port. On a valid configuration it succeeds for
  // exactly the ports 0 .. number - 1, and no other range covers the port.
  method GetPonConfigById(c: Config, id: uint32) returns (r: Option<PonRange>)
    ensures r.Some? <==> CoveredBefore(c, |c.ranges|, id)
    ensures r.Some? ==> exists i :: 0 <= i < |c.ranges| && c.ranges[i] == r.value && Covers(c.ranges[i], id) && !CoveredBefore(c, i, id)
    ensures Valid(c) ==> (r.Some? <==> id < c.number)
    ensures Valid(c) && r.Some? ==> forall i :: 0 <= i < |c.ranges| && Covers(c.ranges[i], id) ==> c.ranges[i] == r.value
  {
    for i := 0 to |c.ranges|
      invariant !CoveredBefore(c, i, id)
    {
      if id >= c.ranges[i].pons.start && id <= c.ranges[i].pons.end {
        assert Covers(c.ranges[i], id);
        return Some(c.ranges[i]);
      }
    }
    return None;
  }

  // ----- defaults

  const ONU_ID_START := 1
  const ALLOC_ID_START := 1024
  const GEMPORT_ID_START := 1024
  const GEMPORTS_PER_ALLOC_ID := 8

  // getDefaultPonsConfig for a number of PON ports, ONUs per PON, UNIs per ONU and services.
  function Default(ponPorts: uint32, onus: uint32, unis: uint32, services: nat): Config {
    var allocIds := AllocIdsPerPon(onus, unis, services);
    Config(ponPorts, [
      PonRange(
        IdRange(0, Wrap32(ponPorts as int - 1)),
        "XGS-PON",
        IdRange(ONU_ID_START as uint32, Wrap32(ONU_ID_START + Wrap32(onus as int - 1) as int)),
        IdRange(ALLOC_ID_START as uint32, Wrap32(ALLOC_ID_START + allocIds as int)),
        IdRange(GEMPORT_ID_START as uint32, Wrap32(GEMPORT_ID_START + Wrap32(allocIds as int * GEMPORTS_PER_ALLOC_ID) as int)))])
  }

  // One alloc ID per service, UNI and ONU, with every product cut to 32 bits.
  function AllocIdsPerPon(onus: uint32, unis: uint32, services: nat): uint32 {
    Wrap32(onus as int * Wrap32(unis as int * Wrap32(services) as int) as int)
  }

  lemma WrappedSum(start: int, x: uint32)
    requires 0 <= start < TWO_TO_THE_32
    ensures start <= Wrap32(start + x as int) as int <==> x as int < TWO_TO_THE_32 - start
  {
    if x as int < TWO_TO_THE_32 - start {
      assert Wrap32(start + x as int) as int == start + x as int;
    } else {
      assert Wrap32(start + x as int) as int == start + x as int - TWO_TO_THE_32;
    }
  }

  lemma OnuRangeOrdered(onus: uint32)
    ensures ONU_ID_START <= Wrap32(ONU_ID_START + Wrap32(onus as int - 1) as int) as int <==> onus > 0
  {
    if onus == 0 {
      assert Wrap32(-1) as int == TWO_TO_THE_32 - 1;
    } else {
      assert Wrap32(onus as int - 1) as int == onus as int - 1;
    }
    WrappedSum(ONU_ID_START, Wrap32(onus as int - 1));
  }

  // One range over all ports is a partition.
  lemma OneRange(c: Config)
    requires c.number > 0 && |c.ranges| == 1 && c.ranges[0].pons == IdRange(0, (c.number as int - 1) as uint32)
    ensures Partition(c)
  {
    forall pon: uint32 | pon < c.number
      ensures CoveredBefore(c, 1, pon)
    {
      assert Covers(c.ranges[0], pon);
    }
  }

  // The default configuration is valid exactly when there are PON ports and ONUs and neither the
  // alloc ID range nor the GEM port range, after the cut to 32 bits, runs past the largest number.
  lemma DefaultIsValid(ponPorts: uint32, onus: uint32, unis: uint32, services: nat)
    ensures var allocIds := AllocIdsPerPon(onus, unis, services);
      Valid(Default(ponPorts, onus, unis, services)) <==>
      && ponPorts > 0 && onus > 0
      && allocIds as int < TWO_TO_THE_32 - ALLOC_ID_START
      && Wrap32(allocIds as int * GEMPORTS_PER_ALLOC_ID) as int < TWO_TO_THE_32 - GEMPORT_ID_START
  {
    var c := Default(ponPorts, onus, unis, services);
    var allocIds := AllocIdsPerPon(onus, unis, services);
    OnuRangeOrdered(onus);
    WrappedSum(ALLOC_ID_START, allocIds);
    WrappedSum(GEMPORT_ID_START, Wrap32(allocIds as int * GEMPORTS_PER_ALLOC_ID));
    if ponPorts > 0 {
      assert Wrap32(ponPorts as int - 1) as int == ponPorts as int - 1;
      OneRange(c);
      assert TECHNOLOGIES[1] == c.ranges[0].technology;
    }
  }

  lemma NoWrap(x: int)
    requires 0 <= x < TWO_TO_THE_32
    ensures Wrap32(x) as int == x
  {
  }

  // Without any overflow the default configuration is one range over all PON ports of technology
  // XGS-PON: ONU IDs from 1 to the number of ONUs, alloc IDs from 1024, one more than there are services
  // on the UNIs of all ONUs, and GEM ports from 1024, one more than eight for each of those.
  lemma DefaultRanges(ponPorts: uint32, onus: uint32, unis: uint32, services: nat, perOnu: nat, perPon: nat)
    requires ponPorts > 0 && onus > 0
    requires perOnu == unis as int * services && perPon == onus as int * perOnu
    requires services < TWO_TO_THE_32 && perOnu < TWO_TO_THE_32 && perPon * 8 + 1024 < TWO_TO_THE_32
    ensures var c := Default(ponPorts, onus, unis, services);
      && c.number == ponPorts && |c.ranges| == 1
      && var r := c.ranges[0];
      && r.technology == "XGS-PON"
      && r.pons.start == 0 && r.pons.end as int == ponPorts as int - 1
      && r.onus.start == 1 && r.onus.end == onus
      && r.allocIds.start == 1024 && r.allocIds.end as int == 1024 + perPon
      && r.gemports.start == 1024 && r.gemports.end as int == 1024 + 8 * perPon
  {
    NoWrap(services);
    NoWrap(perOnu);
    NoWrap(perPon);
    NoWrap(perPon * 8);
    NoWrap(1024 + perPon);
    NoWrap(1024 + perPon * 8);
    NoWrap(ponPorts as int - 1);
    NoWrap(onus as int - 1);
    NoWrap(onus as int);
  }

  // Without any overflow the default configuration is valid, with one alloc ID per service, UNI and ONU.
  lemma SmallDefaultIsValid(ponPorts: uint32, onus: uint32, unis: uint32, services: nat, perOnu: nat, perPon: nat)
    requires ponPorts > 0 && onus > 0
    requires perOnu == unis as int * services && perPon == onus as int * perOnu
    requires services < TWO_TO_THE_32 && perOnu < TWO_TO_THE_32
    requires perPon * GEMPORTS_PER_ALLOC_ID + GEMPORT_ID_START < TWO_TO_THE_32
    ensures Valid(Default(ponPorts, onus, unis, services))
    ensures AllocIdsPerPon(onus, unis, services) as int == perPon
  {
    NoWrap(services);
    NoWrap(perOnu);
    NoWrap(perPon);
    NoWrap(perPon * GEMPORTS_PER_ALLOC_ID);
    DefaultIsValid(ponPorts, onus, unis, services);
  }
}
