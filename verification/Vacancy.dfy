/** get_vacancy_live: the vacancy snapshot, its lost rent in cents, and its pages. */
module Vacancy {
  import opened Options
  import opened Money
  import opened Paging

  /** Days are proleptic ordinals, as date.toordinal counts them. */
  const JAN_1_2000 := 730120

  datatype PastLease = PastLease(endDay: Option<int>, terminatedDay: Option<int>, rent: int)

  datatype Unit = Unit(id: string, code: string, propertyId: string, createdDay: int, rentBase: Option<int>)

  /** The past leases of each unit, and the names of the properties. */
  datatype Store = Store(past: map<string, seq<PastLease>>, names: map<string, string>)

  datatype Place = Place(unitId: string, unitLabel: string, propertyId: string, propertyName: string)

  datatype Detail = Detail(place: Place, daysVacant: nat, rent: int, lost: int)

  function PlaceOf(u: Unit, names: map<string, string>): Place {
    Place(u.id, if u.code != "" then u.code else u.id, u.propertyId,
          if u.propertyId in names then names[u.propertyId] else "")
  }

  /** vacancyRate: in hundredths of a percent. */
  datatype Response = Response(
    totalUnits: nat, occupiedUnits: nat, vacantUnits: nat, vacancyRate: int, estimatedLostRent: int, page: Page<Detail>)

  function VacatedOn(l: PastLease): int {
    match l.endDay
    case Some(day) => day
    case None => match l.terminatedDay case Some(day) => day case None => JAN_1_2000
  }

  /** max(leases, key=_vacated_on): of equal keys, the first. */
  function LastLease(leases: seq<PastLease>): Option<PastLease> {
    if leases == [] then None
    else
      var rest, l := LastLease(leases[..|leases| - 1]), leases[|leases| - 1];
      if rest.None? || VacatedOn(l) > VacatedOn(rest.value) then Some(l) else rest
  }

  /** The lease taken was vacated last of all, and of those vacated last it is the first. */
  lemma {:induction false} LastLeaseIsLatest(leases: seq<PastLease>) returns (n: nat)
    requires leases != []
    ensures n < |leases| && LastLease(leases) == Some(leases[n])
    ensures forall m :: 0 <= m < |leases| ==> VacatedOn(leases[m]) <= VacatedOn(leases[n])
    ensures forall m :: 0 <= m < n ==> VacatedOn(leases[m]) < VacatedOn(leases[n])
  {
    var last := |leases| - 1;
    if last == 0 {
      n := 0;
    } else {
      n := LastLeaseIsLatest(leases[..last]);
      if VacatedOn(leases[last]) > VacatedOn(leases[n]) {
        n := last;
      }
    }
  }

  function AtLeastZero(n: int): nat { if n < 0 then 0 else n }

  function DaysVacant(u: Unit, leases: seq<PastLease>, today: int): nat {
    match LastLease(leases)
    case Some(l) => AtLeastZero(today - VacatedOn(l))
    case None => AtLeastZero(today - u.createdDay)
  }

  /** The last lease's rent, else the unit's base rent, else nothing; a zero counts as missing. */
  function Rent(u: Unit, leases: seq<PastLease>): int {
    match LastLease(leases)
    case Some(l) => if l.rent != 0 then l.rent else BaseRent(u)
    case None => BaseRent(u)
  }

  function BaseRent(u: Unit): int { match u.rentBase case Some(r) => r case None => 0 }

  function Lost(rent: int, days: nat): int {
    if rent != 0 && days > 0 then RoundHalfEven(rent * days, 30) else 0
  }

  /** Lost rent is rent * days / 30 up to half a cent, also when one of them is zero. */
  lemma LostRentError(rent: int, days: nat)
    ensures -30 <= 2 * (30 * Lost(rent, days) - rent * days) <= 30
  {
    if rent != 0 && days > 0 {
      RoundingError(rent * days, 30);
    }
  }

  function PastLeases(store: Store, u: Unit): seq<PastLease> {
    if u.id in store.past then store.past[u.id] else []
  }

  function DetailOf(u: Unit, leases: seq<PastLease>, names: map<string, string>, today: int): Detail {
    var days, rent := DaysVacant(u, leases, today), Rent(u, leases);
    Detail(PlaceOf(u, names), days, rent, Lost(rent, days))
  }

  function Elements(ids: seq<string>): set<string> { set id | id in ids }

  /** One detail for each unit without an active lease, in query order. */
  function Details(units: seq<Unit>, occupied: set<string>, store: Store, today: int)
    : seq<Detail>
  {
    if units == [] then []
    else
      var u := units[|units| - 1];
      Details(units[..|units| - 1], occupied, store, today)
      + (if u.id in occupied then [] else [DetailOf(u, PastLeases(store, u), store.names, today)])
  }

  function LostSum(ds: seq<Detail>): int {
    if ds == [] then 0 else LostSum(ds[..|ds| - 1]) + ds[|ds| - 1].lost
  }

  // ---------- list.sort(key=days_vacant, reverse=True) ----------

  /** Put d in front of the elements with fewer days. */
  function Insert(ds: seq<Detail>, d: Detail): seq<Detail> {
    if ds != [] && ds[|ds| - 1].daysVacant < d.daysVacant
    then Insert(ds[..|ds| - 1], d) + [ds[|ds| - 1]]
    else ds + [d]
  }

  function SortedByDays(ds: seq<Detail>): seq<Detail> {
    if ds == [] then [] else Insert(SortedByDays(ds[..|ds| - 1]), ds[|ds| - 1])
  }

  ghost predicate Descending(ds: seq<Detail>) {
    forall m, n :: 0 <= m < n < |ds| ==> ds[m].daysVacant >= ds[n].daysVacant
  }

  /** The elements with so many days, in order. */
  function WithDays(ds: seq<Detail>, days: nat): seq<Detail> {
    if ds == [] then []
    else
      var d := ds[|ds| - 1];
      WithDays(ds[..|ds| - 1], days) + (if d.daysVacant == days then [d] else [])
  }

  lemma WithDaysSnoc(ds: seq<Detail>, d: Detail, days: nat)
    ensures WithDays(ds + [d], days) == WithDays(ds, days) + (if d.daysVacant == days then [d] else [])
    ensures LostSum(ds + [d]) == LostSum(ds) + d.lost
  {
    assert (ds + [d])[..|ds|] == ds;
  }

  lemma {:induction false} InsertDescends(ds: seq<Detail>, d: Detail)
    requires Descending(ds)
    ensures Descending(Insert(ds, d)) && |Insert(ds, d)| == |ds| + 1
    ensures forall x :: x in Insert(ds, d) <==> x == d || x in ds
  {
    if ds != [] && ds[|ds| - 1].daysVacant < d.daysVacant {
      var rest, last := ds[..|ds| - 1], ds[|ds| - 1];
      InsertDescends(rest, d);
      assert ds == rest + [last];
      SmallestLast(rest, d, last);
    }
  }

  lemma {:induction false} InsertFacts(ds: seq<Detail>, d: Detail, days: nat)
    ensures WithDays(Insert(ds, d), days) == WithDays(ds + [d], days)
    ensures LostSum(Insert(ds, d)) == LostSum(ds) + d.lost
  {
    WithDaysSnoc(ds, d, days);
    if ds != [] && ds[|ds| - 1].daysVacant < d.daysVacant {
      var rest, last := ds[..|ds| - 1], ds[|ds| - 1];
      InsertFacts(rest, d, days);
      WithDaysSnoc(Insert(rest, d), last, days);
      WithDaysSnoc(rest, d, days);
    }
  }

  lemma SmallestLast(rest: seq<Detail>, d: Detail, last: Detail)
    requires Descending(rest + [last]) && last.daysVacant < d.daysVacant
    requires Descending(Insert(rest, d)) && forall x :: x in Insert(rest, d) <==> x == d || x in rest
    ensures Descending(Insert(rest, d) + [last])
  {
    var s := Insert(rest, d) + [last];
    forall m | 0 <= m < |s| - 1 ensures s[m].daysVacant >= last.daysVacant {
      assert s[m] in Insert(rest, d);
      if s[m] in rest {
        var k :| 0 <= k < |rest| && rest[k] == s[m];
        assert (rest + [last])[k] == s[m] && (rest + [last])[|rest|] == last;
      }
    }
  }

  /** The sort is by days, longest first, and stable: equal days keep their order. */
  lemma {:induction false} SortIsStable(ds: seq<Detail>, days: nat)
    ensures Descending(SortedByDays(ds)) && |SortedByDays(ds)| == |ds|
    ensures WithDays(SortedByDays(ds), days) == WithDays(ds, days)
    ensures LostSum(SortedByDays(ds)) == LostSum(ds)
  {
    if ds != [] {
      var rest, d := ds[..|ds| - 1], ds[|ds| - 1];
      SortIsStable(rest, days);
      InsertDescends(SortedByDays(rest), d);
      InsertFacts(SortedByDays(rest), d, days);
      WithDaysSnoc(SortedByDays(rest), d, days);
    }
  }

  // ---------- The request ----------

  method MeasureUnit(u: Unit, leases: seq<PastLease>, names: map<string, string>, today: int) returns (d: Detail)
    ensures d == DetailOf(u, leases, names, today)
  {
    var lastLease := LastLease(leases);
    var daysVacant := 0;
    if lastLease.Some? {
      daysVacant := AtLeastZero(today - VacatedOn(lastLease.value));
    } else {
      daysVacant := AtLeastZero(today - u.createdDay);
    }
    var rent := if lastLease.Some? then lastLease.value.rent else 0;
    if rent == 0 {
      rent := if u.rentBase.Some? then u.rentBase.value else 0;
    }
    var lost := if rent != 0 && daysVacant > 0 then RoundHalfEven(rent * daysVacant, 30) else 0;
    d := Detail(PlaceOf(u, names), daysVacant, rent, lost);
  }

  lemma OneMoreUnit(units: seq<Unit>, n: nat, occupied: set<string>,
                    store: Store, today: int)
    requires n < |units|
    ensures var ds := Details(units[..n], occupied, store, today);
            var d := DetailOf(units[n], PastLeases(store, units[n]), store.names, today);
      && LostSum(ds + [d]) == LostSum(ds) + d.lost
      && Details(units[..n + 1], occupied, store, today) == if units[n].id in occupied then ds else ds + [d]
  {
    var ds := Details(units[..n], occupied, store, today);
    assert units[..n + 1][..n] == units[..n];
    assert ds + [] == ds;
    WithDaysSnoc(ds, DetailOf(units[n], PastLeases(store, units[n]), store.names, today), 0);
  }

  /** round(vacant / total, 4) */
  function RateOf(vacant: nat, total: nat): int {
    if total > 0 then RoundHalfEven(10000 * vacant, total) else 0
  }

  lemma AllUnits(units: seq<Unit>)
    ensures units[..|units|] == units
  {}

  /** The first n units have been counted and measured. */
  ghost predicate MeasuredUpTo(units: seq<Unit>, n: nat, occupied: set<string>, store: Store, today: int,
                               occupiedUnits: nat, details: seq<Detail>, lostRent: int)
  {
    && n <= |units| && occupiedUnits + |details| == n
    && details == Details(units[..n], occupied, store, today) && lostRent == LostSum(details)
  }

  lemma MeasureOne(units: seq<Unit>, n: nat, occupied: set<string>, store: Store, today: int,
                   occupiedUnits: nat, details: seq<Detail>, lostRent: int)
    requires MeasuredUpTo(units, n, occupied, store, today, occupiedUnits, details, lostRent) && n < |units|
    ensures units[n].id in occupied ==>
      MeasuredUpTo(units, n + 1, occupied, store, today, occupiedUnits + 1, details, lostRent)
    ensures units[n].id !in occupied ==>
      var d := DetailOf(units[n], PastLeases(store, units[n]), store.names, today);
      MeasuredUpTo(units, n + 1, occupied, store, today, occupiedUnits, details + [d], lostRent + d.lost)
  {
    OneMoreUnit(units, n, occupied, store, today);
  }

  lemma AllMeasured(units: seq<Unit>, occupied: set<string>, store: Store, today: int,
                    occupiedUnits: nat, details: seq<Detail>, lostRent: int)
    requires MeasuredUpTo(units, |units|, occupied, store, today, occupiedUnits, details, lostRent)
    ensures details == Details(units, occupied, store, today)
    ensures occupiedUnits + |details| == |units| && lostRent == LostSum(details)
  {
    AllUnits(units);
  }

  /** The loops over the units: how many are occupied, and the others' details with their sum. */
  method MeasureVacant(units: seq<Unit>, occupied: set<string>, store: Store, today: int)
    returns (occupiedUnits: nat, details: seq<Detail>, lostRent: int)
    ensures details == Details(units, occupied, store, today)
    ensures occupiedUnits + |details| == |units| && lostRent == LostSum(details)
  {
    occupiedUnits, details, lostRent := 0, [], 0;
    for n := 0 to |units|
      invariant MeasuredUpTo(units, n, occupied, store, today, occupiedUnits, details, lostRent)
    {
      MeasureOne(units, n, occupied, store, today, occupiedUnits, details, lostRent);
      var u := units[n];
      if u.id in occupied {
        occupiedUnits := occupiedUnits + 1;
      } else {
        var d := MeasureUnit(u, PastLeases(store, u), store.names, today);
        details := details + [d];
        lostRent := lostRent + d.lost;
      }
    }
    AllMeasured(units, occupied, store, today, occupiedUnits, details, lostRent);
  }

  method GetVacancyLive(units: seq<Unit>, activeLeaseUnits: seq<string>, store: Store,
                        today: int, cursor: Option<string>, pageSize: nat) returns (r: Response)
    requires pageSize >= 1
    ensures r.totalUnits == |units| && r.occupiedUnits + r.vacantUnits == r.totalUnits
    ensures var ds := Details(units, Elements(activeLeaseUnits), store, today);
      && r.vacantUnits == |ds|
      && r.vacancyRate == RateOf(|ds|, |units|)
      && r.estimatedLostRent == LostSum(ds)
      && r.page == PageAt(SortedByDays(ds), cursor, pageSize)
  {
    var occupiedUnits, allDetails, lostRent := MeasureVacant(units, Elements(activeLeaseUnits), store, today);
    r := Response(|units|, occupiedUnits, |allDetails|, RateOf(|allDetails|, |units|), lostRent,
                  PageAt(SortedByDays(allDetails), cursor, pageSize));
  }

  /**
   * Over an unchanged snapshot, the lost rent of the items of all pages adds up to the
   * estimated_lost_rent that every response reports.
   */
  lemma PagesAddUp(units: seq<Unit>, occupied: set<string>, store: Store,
                   today: int, pageSize: nat)
    requires pageSize >= 1
    ensures var ds := Details(units, occupied, store, today);
      LostSum(Crawl(SortedByDays(ds), None, pageSize).0) == LostSum(ds)
  {
    var ds := Details(units, occupied, store, today);
    SortIsStable(ds, 0);
    CrawlReturnsEverything(SortedByDays(ds), pageSize);
  }

  // ---------- What a detail says ----------

  /** When a past lease was vacated: at its end, else when terminated, else on 1 January 2000. */
  lemma VacatedOnIs(l: PastLease)
    ensures l.endDay.Some? ==> VacatedOn(l) == l.endDay.value
    ensures l.endDay.None? && l.terminatedDay.Some? ==> VacatedOn(l) == l.terminatedDay.value
    ensures l.endDay.None? && l.terminatedDay.None? ==> VacatedOn(l) == 730120
  {}

  /** A unit has been vacant since the latest vacating of its past leases, or since its creation. */
  lemma VacantSince(u: Unit, leases: seq<PastLease>, names: map<string, string>, today: int) returns (since: int)
    ensures leases == [] ==> since == u.createdDay
    ensures leases != [] ==> exists n :: 0 <= n < |leases| && since == VacatedOn(leases[n])
    ensures forall n :: 0 <= n < |leases| ==> VacatedOn(leases[n]) <= since
    ensures var days := DetailOf(u, leases, names, today).daysVacant;
      if since <= today then since + days == today else days == 0
  {
    if leases == [] {
      since := u.createdDay;
    } else {
      var n := LastLeaseIsLatest(leases);
      since := VacatedOn(leases[n]);
    }
  }

  /** The rent is that of a lease vacated last, unless it is zero; then the unit's base rent, or zero. */
  lemma RentOfDetail(u: Unit, leases: seq<PastLease>, names: map<string, string>, today: int) returns (n: nat)
    ensures var d := DetailOf(u, leases, names, today);
      && d.place.unitId == u.id && d.place.propertyId == u.propertyId
      && if leases != [] && n < |leases| && leases[n].rent != 0 then d.rent == leases[n].rent
         else d.rent == (if u.rentBase.Some? then u.rentBase.value else 0)
    ensures leases != [] ==>
      n < |leases| && forall m :: 0 <= m < |leases| ==> VacatedOn(leases[m]) <= VacatedOn(leases[n])
  {
    n := 0;
    if leases != [] {
      n := LastLeaseIsLatest(leases);
    }
  }

  /** Exactly the units without an active lease have a detail. */
  lemma {:induction false} DetailsAreVacant(units: seq<Unit>, occupied: set<string>, store: Store,
                                            today: int, d: Detail)
    ensures d in Details(units, occupied, store, today)
       <==> exists u :: u in units && u.id !in occupied
              && d == DetailOf(u, if u.id in store.past then store.past[u.id] else [], store.names, today)
    decreases |units|
  {
    if units != [] {
      var rest, last := units[..|units| - 1], units[|units| - 1];
      DetailsAreVacant(rest, occupied, store, today, d);
      assert units == rest + [last];
      assert forall u :: u in units <==> u in rest || u == last;
    }
  }

  /** A unit is labelled with its code, or its id if it has none; its property by the name looked up. */
  lemma PlaceIs(u: Unit, names: map<string, string>)
    ensures PlaceOf(u, names).unitId == u.id && PlaceOf(u, names).propertyId == u.propertyId
    ensures u.code != "" ==> PlaceOf(u, names).unitLabel == u.code
    ensures u.code == "" ==> PlaceOf(u, names).unitLabel == u.id
    ensures u.propertyId in names ==> PlaceOf(u, names).propertyName == names[u.propertyId]
    ensures u.propertyId !in names ==> PlaceOf(u, names).propertyName == ""
  {}

  /** The rate is the vacant share up to half of a hundredth of a percent. */
  lemma VacancyRateError(vacant: nat, total: nat)
    ensures total > 0 ==>
      var error: int := 2 * (RateOf(vacant, total) * total - 10000 * vacant); 0 <= error + total && error <= total
    ensures total == 0 ==> RateOf(vacant, total) == 0
  {
    if total > 0 {
      RoundingError(10000 * vacant, total);
    }
  }

  /** In a response, there is a detail for exactly the units that no active lease names. */
  lemma VacantUnitsAre(units: seq<Unit>, activeLeaseUnits: seq<string>, store: Store, today: int, d: Detail)
    ensures d in Details(units, Elements(activeLeaseUnits), store, today)
       <==> exists u :: u in units && u.id !in activeLeaseUnits
              && d == DetailOf(u, PastLeases(store, u), store.names, today)
  {
    DetailsAreVacant(units, Elements(activeLeaseUnits), store, today, d);
    assert forall id :: id in Elements(activeLeaseUnits) <==> id in activeLeaseUnits;
  }
}
