/** VLAN tags of the services, threaded through the construction of PONs, ONUs and UNIs.

    C-tags and S-tags are allocated by the same rule from two maps that remember the last tag per
    service name. A tag past the limit ends the program, which is the result None. */
module TagAllocation {
  import opened Options

  const MAX_TAG := 4096
  const MAX_UNI_PORTS := 4

  // What a service asks of one of the two allocations.
  datatype Ask = Ask(name: string, base: int, unique: bool)

  datatype ServiceConfig = ServiceConfig(name: string, cTag: int, sTag: int, cUnique: bool, sUnique: bool)

  // The tags of one UNI, service by service.
  datatype UniTags = UniTags(cTags: seq<int>, sTags: seq<int>)

  type Last = map<string, int>

  function CAsks(services: seq<ServiceConfig>): seq<Ask> {
    seq(|services|, k requires 0 <= k < |services| => Ask(services[k].name, services[k].cTag, services[k].cUnique))
  }

  function SAsks(services: seq<ServiceConfig>): seq<Ask> {
    seq(|services|, k requires 0 <= k < |services| => Ask(services[k].name, services[k].sTag, services[k].sUnique))
  }

  // The first tag of a name is taken as configured; only an increment is checked against the limit.
  function NextTag(last: Last, a: Ask): Option<int> {
    if a.name !in last then Some(a.base)
    else if !a.unique then Some(last[a.name])
    else if last[a.name] + 1 > MAX_TAG then None
    else Some(last[a.name] + 1)
  }

  datatype Tagging = Tagging(last: Last, tags: seq<int>)

  // The first n services of a UNI.
  function TagServices(last: Last, asks: seq<Ask>, n: nat): (r: Option<Tagging>)
    requires n <= |asks|
    ensures r.Some? ==> |r.value.tags| == n
  {
    if n == 0 then Some(Tagging(last, []))
    else
      var before := TagServices(last, asks, n - 1);
      if before.None? then None
      else
        var tag := NextTag(before.value.last, asks[n - 1]);
        if tag.None? then None
        else Some(Tagging(before.value.last[asks[n - 1].name := tag.value], before.value.tags + [tag.value]))
  }

  datatype Result = Result(last: Last, unis: seq<seq<int>>)

  // n UNIs in order of creation.
  function TagUnis(asks: seq<Ask>, n: nat): (r: Option<Result>)
    ensures r.Some? ==> |r.value.unis| == n
  {
    if n == 0 then Some(Result(map[], []))
    else
      var before := TagUnis(asks, n - 1);
      if before.None? then None
      else
        var uni := TagServices(before.value.last, asks, |asks|);
        if uni.None? then None else Some(Result(uni.value.last, before.value.unis + [uni.value.tags]))
  }

  // ----- which tag a UNI gets

  // The tag of UNI number n.
  function TagOf(a: Ask, n: nat): int {
    if a.unique then a.base + n else a.base
  }

  predicate DistinctNames(asks: seq<Ask>) {
    forall j, k :: 0 <= j < k < |asks| ==> asks[j].name != asks[k].name
  }

  // The last tag of the service is the one of UNI number n - 1.
  predicate LastIs(last: Last, a: Ask, n: nat) {
    if n == 0 then a.name !in last else a.name in last && last[a.name] == TagOf(a, n - 1)
  }

  // The tag of UNI number n is within the limit, as far as it is checked.
  predicate Fits(a: Ask, n: nat) {
    a.unique && n > 0 ==> a.base + n <= 4096
  }

  // The first m services have the tags of UNI number n.
  ghost predicate TaggedTo(t: Tagging, asks: seq<Ask>, n: nat, m: nat)
    requires m <= |asks|
  {
    && |t.tags| == m
    && (forall k :: 0 <= k < m ==> t.tags[k] == TagOf(asks[k], n))
    && (forall k :: 0 <= k < |asks| ==> LastIs(t.last, asks[k], if k < m then n + 1 else n))
  }

  lemma OneMoreTagged(t: Tagging, asks: seq<Ask>, n: nat, m: nat)
    requires DistinctNames(asks) && m < |asks| && TaggedTo(t, asks, n, m)
    ensures var tag := NextTag(t.last, asks[m]);
      && (tag.Some? <==> Fits(asks[m], n))
      && (tag.Some? ==> TaggedTo(Tagging(t.last[asks[m].name := tag.value], t.tags + [tag.value]), asks, n, m + 1))
  {
    assert LastIs(t.last, asks[m], n);
  }

  lemma {:induction false} ServicesTagged(last: Last, asks: seq<Ask>, n: nat, m: nat)
    requires DistinctNames(asks) && m <= |asks|
    requires forall k :: 0 <= k < |asks| ==> LastIs(last, asks[k], n)
    ensures var r := TagServices(last, asks, m);
      && (r.Some? <==> forall k :: 0 <= k < m ==> Fits(asks[k], n))
      && (r.Some? ==> TaggedTo(r.value, asks, n, m))
  {
    if m > 0 {
      ServicesTagged(last, asks, n, m - 1);
      var before := TagServices(last, asks, m - 1);
      if before.Some? {
        OneMoreTagged(before.value, asks, n, m - 1);
      }
    }
  }

  // With distinct service names UNI number n gets tag base + n from a unique allocation and the base
  // from a shared one, and the construction completes exactly when no increment passes the limit.
  lemma {:induction false} UnisTagged(asks: seq<Ask>, n: nat)
    requires DistinctNames(asks)
    ensures var r := TagUnis(asks, n);
      && (r.Some? <==> forall k :: 0 <= k < |asks| && n > 0 ==> Fits(asks[k], n - 1))
      && (r.Some? ==>
            && (forall i, k :: 0 <= i < n && 0 <= k < |asks| ==>
                  |r.value.unis[i]| == |asks| && r.value.unis[i][k] == TagOf(asks[k], i))
            && (forall k :: 0 <= k < |asks| ==> LastIs(r.value.last, asks[k], n)))
  {
    if n > 0 {
      UnisTagged(asks, n - 1);
      var before := TagUnis(asks, n - 1);
      if before.Some? {
        ServicesTagged(before.value.last, asks, n - 1, |asks|);
      } else {
        var k :| 0 <= k < |asks| && n - 1 > 0 && !Fits(asks[k], n - 2);
        assert !Fits(asks[k], n - 1);
      }
    }
  }

  // UNI u of ONU j on PON i, counted in order of creation.
  function UniNumber(numOnu: nat, numUni: nat, i: nat, j: nat, u: nat): nat {
    (i * numOnu + j) * numUni + u
  }

  lemma {:induction false} RowsApart(a: nat, b: nat, n: nat)
    requires a < b
    ensures a * n + n <= b * n
    decreases b
  {
    assert b * n == (b - 1) * n + n;
    if a < b - 1 {
      RowsApart(a, b - 1, n);
    }
  }

  lemma Quotient(a: nat, b: nat, n: nat, x: nat, y: nat)
    requires x < n && y < n && a * n + x == b * n + y
    ensures a == b && x == y
  {
    if a < b {
      RowsApart(a, b, n);
    } else if b < a {
      RowsApart(b, a, n);
    }
  }

  // The number of a UNI determines its place.
  lemma NumberIsPlace(numOnu: nat, numUni: nat, i: nat, j: nat, u: nat, i': nat, j': nat, u': nat)
    requires j < numOnu && j' < numOnu && u < numUni && u' < numUni
    requires UniNumber(numOnu, numUni, i, j, u) == UniNumber(numOnu, numUni, i', j', u')
    ensures (i, j, u) == (i', j', u')
  {
    Quotient(i * numOnu + j, i' * numOnu + j', numUni, u, u');
    Quotient(i, i', numOnu, j, j');
  }

  // Two services with one name share its counter: already on the first UNI the second one gets the
  // tag after that of the first, whatever its own base.
  lemma SharedNameSharesCounter(a: Ask, b: Ask)
    requires a.name == b.name && a.unique && b.unique && a.base < MAX_TAG
    ensures TagServices(map[], [a, b], 2).Some?
    ensures TagServices(map[], [a, b], 2).value.tags == [a.base, a.base + 1]
  {
    var asks := [a, b];
    assert TagServices(map[], asks, 0) == Some(Tagging(map[], []));
    assert TagServices(map[], asks, 1) == Some(Tagging(map[a.name := a.base], [] + [a.base]));
  }

  // ----- the construction

  // The allocation of one tag; last' is the map it leaves behind.
  method TakeTag(last: Last, a: Ask) returns (tag: Option<int>, last': Last)
    ensures tag == NextTag(last, a)
    ensures tag.Some? ==> last' == last[a.name := tag.value]
  {
    last' := last;
    if a.name !in last' {
      last' := last'[a.name := a.base];
    } else if a.unique {
      last' := last'[a.name := last'[a.name] + 1];
      if last'[a.name] > MAX_TAG {
        return None, last';
      }
    } else {
      assert last[a.name := last[a.name]] == last;
    }
    tag := Some(last'[a.name]);
  }

  // NewUniPort: the tags of one UNI, and the maps it leaves behind.
  method NewUniPort(id: nat, services: seq<ServiceConfig>, nextCtag: Last, nextStag: Last)
    returns (tags: Option<UniTags>, nextCtag': Last, nextStag': Last)
    ensures var c := TagServices(nextCtag, CAsks(services), |services|);
      var s := TagServices(nextStag, SAsks(services), |services|);
      && (tags.Some? <==> id < 4 && c.Some? && s.Some?)
      && (tags.Some? ==> c == Some(Tagging(nextCtag', tags.value.cTags)) && s == Some(Tagging(nextStag', tags.value.sTags)))
  {
    nextCtag', nextStag' := nextCtag, nextStag;
    if id > MAX_UNI_PORTS - 1 {
      return None, nextCtag', nextStag';
    }
    var cAsks, sAsks := CAsks(services), SAsks(services);
    var cTags, sTags := [], [];
    for k := 0 to |services|
      invariant TagServices(nextCtag, cAsks, k) == Some(Tagging(nextCtag', cTags))
      invariant TagServices(nextStag, sAsks, k) == Some(Tagging(nextStag', sTags))
    {
      var tag;
      tag, nextCtag' := TakeTag(nextCtag', cAsks[k]);
      if tag.None? {
        StaysNone(nextCtag, cAsks, k + 1, |services|);
        return None, nextCtag', nextStag';
      }
      cTags := cTags + [tag.value];
      tag, nextStag' := TakeTag(nextStag', sAsks[k]);
      if tag.None? {
        StaysNone(nextStag, sAsks, k + 1, |services|);
        return None, nextCtag', nextStag';
      }
      sTags := sTags + [tag.value];
    }
    tags := Some(UniTags(cTags, sTags));
  }

  lemma {:induction false} StaysNone(last: Last, asks: seq<Ask>, m: nat, n: nat)
    requires m <= n <= |asks| && TagServices(last, asks, m).None?
    ensures TagServices(last, asks, n).None?
  {
    if m < n {
      StaysNone(last, asks, m, n - 1);
    }
  }

  lemma {:induction false} UnisStayNone(asks: seq<Ask>, m: nat, n: nat)
    requires m <= n && TagUnis(asks, m).None?
    ensures TagUnis(asks, n).None?
  {
    if m < n {
      UnisStayNone(asks, m, n - 1);
    }
  }

  // What is passed from one construction step to the next.
  datatype Built = Built(nextCtag: Last, nextStag: Last, unis: seq<UniTags>)

  // The first n UNIs are built.
  ghost predicate BuiltTo(b: Built, services: seq<ServiceConfig>, n: nat) {
    var c, s := TagUnis(CAsks(services), n), TagUnis(SAsks(services), n);
    && c.Some? && s.Some?
    && c.value.last == b.nextCtag && s.value.last == b.nextStag
    && |b.unis| == n
    && (forall m :: 0 <= m < n ==> b.unis[m] == UniTags(c.value.unis[m], s.value.unis[m]))
  }

  ghost predicate Completes(services: seq<ServiceConfig>, n: nat) {
    TagUnis(CAsks(services), n).Some? && TagUnis(SAsks(services), n).Some?
  }

  lemma BuiltOneMore(b: Built, services: seq<ServiceConfig>, n: nat)
    requires BuiltTo(b, services, n)
    ensures var c := TagServices(b.nextCtag, CAsks(services), |services|);
      var s := TagServices(b.nextStag, SAsks(services), |services|);
      && (Completes(services, n + 1) <==> c.Some? && s.Some?)
      && (c.Some? && s.Some? ==>
            BuiltTo(Built(c.value.last, s.value.last, b.unis + [UniTags(c.value.tags, s.value.tags)]), services, n + 1))
  {
    NextUni(CAsks(services), n);
    NextUni(SAsks(services), n);
  }

  lemma NextUni(asks: seq<Ask>, n: nat)
    requires TagUnis(asks, n).Some?
    ensures var before := TagUnis(asks, n).value;
      var uni := TagServices(before.last, asks, |asks|);
      TagUnis(asks, n + 1) == if uni.None? then None else Some(Result(uni.value.last, before.unis + [uni.value.tags]))
  {
  }

  // One round of the loop below.
  method CreateUni(b: Built, ghost n: nat, u: nat, services: seq<ServiceConfig>) returns (r: Option<Built>)
    requires BuiltTo(b, services, n)
    ensures r.Some? <==> u < 4 && Completes(services, n + 1)
    ensures r.Some? ==> BuiltTo(r.value, services, n + 1)
  {
    var tags, c, s := NewUniPort(u, services, b.nextCtag, b.nextStag);
    BuiltOneMore(b, services, n);
    return if tags.None? then None else Some(Built(c, s, b.unis + [tags.value]));
  }

  // The loop over the UNIs of one ONU in CreateONU.
  method CreateOnu(b: Built, ghost n: nat, numUni: nat, services: seq<ServiceConfig>) returns (r: Option<Built>)
    requires BuiltTo(b, services, n)
    ensures r.Some? <==> numUni <= 4 && Completes(services, n + numUni)
    ensures r.Some? ==> BuiltTo(r.value, services, n + numUni)
  {
    var now := b;
    for u := 0 to numUni
      invariant u <= MAX_UNI_PORTS
      invariant BuiltTo(now, services, n + u)
    {
      var uni := CreateUni(now, n + u, u, services);
      if uni.None? {
        if u < MAX_UNI_PORTS {
          NeverCompletes(services, n + u + 1, n + numUni);
        }
        return None;
      }
      now := uni.value;
    }
    return Some(now);
  }

  lemma NeverCompletes(services: seq<ServiceConfig>, m: nat, n: nat)
    requires m <= n && !Completes(services, m)
    ensures !Completes(services, n)
  {
    if TagUnis(CAsks(services), m).None? {
      UnisStayNone(CAsks(services), m, n);
    } else {
      UnisStayNone(SAsks(services), m, n);
    }
  }

  // The loop of CreateOLT over the ONUs of one PON; m ONUs were built before.
  method CreatePon(b: Built, ghost m: nat, numOnu: nat, numUni: nat, services: seq<ServiceConfig>) returns (r: Option<Built>)
    requires BuiltTo(b, services, m * numUni)
    ensures r.Some? <==> (numOnu > 0 ==> numUni <= 4) && Completes(services, (m + numOnu) * numUni)
    ensures r.Some? ==> BuiltTo(r.value, services, (m + numOnu) * numUni)
  {
    var now := b;
    for j := 0 to numOnu
      invariant j > 0 ==> numUni <= MAX_UNI_PORTS
      invariant BuiltTo(now, services, (m + j) * numUni)
    {
      var onu := CreateOnu(now, (m + j) * numUni, numUni, services);
      OneMore(m + j, numUni);
      if onu.None? {
        StuckAt(services, m + j + 1, m + numOnu, numUni);
        return None;
      }
      now := onu.value;
    }
    return Some(now);
  }

  // The loop of CreateOLT over the PONs; the result lists the UNIs in order of creation.
  method CreateUnis(numPon: nat, numOnu: nat, numUni: nat, services: seq<ServiceConfig>)
    returns (r: Option<seq<UniTags>>)
    ensures r.Some? <==> (numPon > 0 && numOnu > 0 ==> numUni <= 4) && Completes(services, numPon * numOnu * numUni)
    ensures r.Some? ==> exists b :: BuiltTo(b, services, numPon * numOnu * numUni) && b.unis == r.value
  {
    var now := Built(map[], map[], []);
    ghost var m := 0;
    for i := 0 to numPon
      invariant i > 0 && numOnu > 0 ==> numUni <= MAX_UNI_PORTS
      invariant m == i * numOnu
      invariant BuiltTo(now, services, m * numUni)
    {
      var pon := CreatePon(now, m, numOnu, numUni, services);
      OneMore(i, numOnu);
      if pon.None? {
        RowsFit(i + 1, numPon, numOnu);
        StuckAt(services, m + numOnu, numPon * numOnu, numUni);
        return None;
      }
      now := pon.value;
      m := m + numOnu;
    }
    return Some(now.unis);
  }

  // If the construction cannot get past some ONU, it cannot complete.
  lemma StuckAt(services: seq<ServiceConfig>, m: nat, onus: nat, numUni: nat)
    requires m <= onus
    ensures !Completes(services, m * numUni) ==> !Completes(services, onus * numUni)
  {
    RowsFit(m, onus, numUni);
    if !Completes(services, m * numUni) {
      NeverCompletes(services, m * numUni, onus * numUni);
    }
  }

  lemma OneMore(a: nat, n: nat)
    ensures (a + 1) * n == a * n + n
  {
  }

  // ONU j of PON i comes before the end.
  lemma Room(numPon: nat, numOnu: nat, i: nat, j: nat)
    requires i < numPon && j < numOnu
    ensures i * numOnu + j + 1 <= numPon * numOnu
  {
    RowsApart(i, numPon, numOnu);
  }

  lemma RowsFit(a: nat, b: nat, n: nat)
    requires a <= b
    ensures a * n <= b * n
  {
    if a < b {
      RowsApart(a, b, n);
    }
  }

  // With distinct service names the construction completes exactly when the last UNI is within the
  // limit for every unique allocation.
  lemma CompletionLimit(services: seq<ServiceConfig>, total: nat)
    requires DistinctNames(CAsks(services))
    ensures Completes(services, total) <==>
            forall k :: 0 <= k < |services| && total > 0 ==>
              Fits(CAsks(services)[k], total - 1) && Fits(SAsks(services)[k], total - 1)
  {
    SameNames(services);
    UnisTagged(CAsks(services), total);
    UnisTagged(SAsks(services), total);
  }

  lemma SameNames(services: seq<ServiceConfig>)
    requires DistinctNames(CAsks(services))
    ensures DistinctNames(SAsks(services))
  {
    assert forall k :: 0 <= k < |services| ==> CAsks(services)[k].name == SAsks(services)[k].name;
  }

  lemma NumberInRange(numPon: nat, numOnu: nat, numUni: nat, i: nat, j: nat, u: nat)
    requires i < numPon && j < numOnu && u < numUni
    ensures UniNumber(numOnu, numUni, i, j, u) < numPon * numOnu * numUni
  {
    Room(numPon, numOnu, i, j);
    RowsFit(i * numOnu + j + 1, numPon * numOnu, numUni);
    OneMore(i * numOnu + j, numUni);
  }

  lemma TagsByNumber(services: seq<ServiceConfig>, b: Built, total: nat, n: nat, k: nat)
    requires DistinctNames(CAsks(services)) && BuiltTo(b, services, total)
    requires n < total && k < |services|
    ensures |b.unis[n].cTags| == |b.unis[n].sTags| == |services|
    ensures b.unis[n].cTags[k] == if services[k].cUnique then services[k].cTag + n else services[k].cTag
    ensures b.unis[n].sTags[k] == if services[k].sUnique then services[k].sTag + n else services[k].sTag
  {
    SameNames(services);
    UnisTagged(CAsks(services), total);
    UnisTagged(SAsks(services), total);
    assert TagUnis(CAsks(services), total).value.unis[n][k] == TagOf(CAsks(services)[k], n);
    assert TagUnis(SAsks(services), total).value.unis[n][k] == TagOf(SAsks(services)[k], n);
  }

  // The tags of a complete construction with distinct service names: UNI u of ONU j on PON i gets
  // base + ((i * numOnu + j) * numUni + u) from a unique allocation and the base from a shared one.
  lemma TagsByPosition(services: seq<ServiceConfig>, b: Built, numPon: nat, numOnu: nat, numUni: nat,
                       i: nat, j: nat, u: nat, k: nat)
    requires DistinctNames(CAsks(services)) && BuiltTo(b, services, numPon * numOnu * numUni)
    requires i < numPon && j < numOnu && u < numUni && k < |services|
    ensures var n := UniNumber(numOnu, numUni, i, j, u);
      && n < |b.unis| && |b.unis[n].cTags| == |b.unis[n].sTags| == |services|
      && b.unis[n].cTags[k] == (if services[k].cUnique then services[k].cTag + ((i * numOnu + j) * numUni + u) else services[k].cTag)
      && b.unis[n].sTags[k] == (if services[k].sUnique then services[k].sTag + ((i * numOnu + j) * numUni + u) else services[k].sTag)
  {
    NumberInRange(numPon, numOnu, numUni, i, j, u);
    TagsByNumber(services, b, numPon * numOnu * numUni, UniNumber(numOnu, numUni, i, j, u), k);
  }

  // In a complete construction with distinct service names, two UNIs of the OLT have the same C-tag
  // for a service with unique C-tags, or the same S-tag for one with unique S-tags, only if they are
  // the same UNI.
  lemma UniqueTagsDiffer(services: seq<ServiceConfig>, b: Built, numPon: nat, numOnu: nat, numUni: nat, k: nat,
                         i: nat, j: nat, u: nat, i': nat, j': nat, u': nat)
    requires DistinctNames(CAsks(services)) && BuiltTo(b, services, numPon * numOnu * numUni) && k < |services|
    requires i < numPon && j < numOnu && u < numUni && i' < numPon && j' < numOnu && u' < numUni
    ensures var n, n' := UniNumber(numOnu, numUni, i, j, u), UniNumber(numOnu, numUni, i', j', u');
      && n < |b.unis| && n' < |b.unis| && k < |b.unis[n].cTags| == |b.unis[n'].cTags| && k < |b.unis[n].sTags| == |b.unis[n'].sTags|
      && (services[k].cUnique && b.unis[n].cTags[k] == b.unis[n'].cTags[k] ==> (i, j, u) == (i', j', u'))
      && (services[k].sUnique && b.unis[n].sTags[k] == b.unis[n'].sTags[k] ==> (i, j, u) == (i', j', u'))
  {
    var n, n' := UniNumber(numOnu, numUni, i, j, u), UniNumber(numOnu, numUni, i', j', u');
    NumberInRange(numPon, numOnu, numUni, i, j, u);
    NumberInRange(numPon, numOnu, numUni, i', j', u');
    TagsByNumber(services, b, numPon * numOnu * numUni, n, k);
    TagsByNumber(services, b, numPon * numOnu * numUni, n', k);
    if n == n' {
      NumberIsPlace(numOnu, numUni, i, j, u, i', j', u');
    }
  }
}
