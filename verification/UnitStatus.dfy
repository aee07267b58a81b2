/** Compare-and-set of a unit's status, and what any interleaving of callers can do with it. */
module UnitStatus {
  import opened Options

  datatype Unit = Unit(orgId: string, status: string, deleted: bool, updatedAt: int)

  datatype Call = Call(unitId: string, orgId: string, expected: string, new_: string, now: int)

  predicate Matches(units: map<string, Unit>, c: Call) {
    && c.unitId in units && units[c.unitId].orgId == c.orgId
    && units[c.unitId].status == c.expected && !units[c.unitId].deleted
  }

  function Set(units: map<string, Unit>, c: Call): map<string, Unit>
    requires c.unitId in units
  {
    units[c.unitId := units[c.unitId].(status := c.new_, updatedAt := c.now)]
  }

  class UnitStore {
    var units: map<string, Unit>

    constructor (units: map<string, Unit>)
      ensures this.units == units
    {
      this.units := units;
    }

    /** find_one_and_update: one atomic step of the database. */
    method AtomicStatusTransition(c: Call) returns (r: Option<Unit>)
      modifies this
      ensures if Matches(old(units), c)
              then units == Set(old(units), c) && r == Some(units[c.unitId]) && r.value.status == c.new_
              else units == old(units) && r == None
    {
      if c.unitId !in units {
        return None;
      }
      var unit := units[c.unitId];
      if unit.orgId != c.orgId || unit.status != c.expected || unit.deleted {
        return None;
      }
      unit := unit.(status := c.new_);
      unit := unit.(updatedAt := c.now);
      units := units[c.unitId := unit];
      r := Some(unit);
    }
  }

  /** Other database steps on units: none of them writes the status. */
  datatype Event =
    | Transition(c: Call)
    | Touch(unitId: string, now: int)      // cache_meter_reading, and updates of other fields
    | SoftDelete(unitId: string)
    | Insert(unitId: string, u: Unit)      // of a unit that is not there yet

  function Step(units: map<string, Unit>, e: Event): map<string, Unit> {
    match e
    case Transition(c) => if Matches(units, c) then Set(units, c) else units
    case Touch(id, now) => if id in units then units[id := units[id].(updatedAt := now)] else units
    case SoftDelete(id) => if id in units then units[id := units[id].(deleted := true)] else units
    case Insert(id, u) => if id in units then units else units[id := u]
  }

  function Run(units: map<string, Unit>, events: seq<Event>): map<string, Unit>
    decreases |events|
  {
    if events == [] then units else Step(Run(units, events[..|events| - 1]), events[|events| - 1])
  }

  /** The successful transitions of one unit, in order. */
  function Successes(units: map<string, Unit>, events: seq<Event>, id: string): seq<Call>
    decreases |events|
  {
    if events == [] then []
    else
      var rest, e := events[..|events| - 1], events[|events| - 1];
      Successes(units, rest, id)
      + (if e.Transition? && e.c.unitId == id && Matches(Run(units, rest), e.c) then [e.c] else [])
  }

  function StatusAfter(start: string, calls: seq<Call>, n: nat): string
    requires n <= |calls|
  {
    if n == 0 then start else calls[n - 1].new_
  }

  /** Each call expected what the one before it had set. */
  ghost predicate IsChain(start: string, calls: seq<Call>) {
    forall n :: 0 <= n < |calls| ==> calls[n].expected == StatusAfter(start, calls, n)
  }

  lemma ChainGrows(start: string, calls: seq<Call>, c: Call)
    requires IsChain(start, calls) && c.expected == StatusAfter(start, calls, |calls|)
    ensures IsChain(start, calls + [c])
  {
    var all := calls + [c];
    forall n | 0 <= n < |all| ensures all[n].expected == StatusAfter(start, all, n) {
      assert StatusAfter(start, all, n) == StatusAfter(start, calls, n);
    }
  }

  lemma {:induction false} StaysInPlace(units: map<string, Unit>, events: seq<Event>, id: string)
    requires id in units
    ensures id in Run(units, events) && Run(units, events)[id].orgId == units[id].orgId
    decreases |events|
  {
    if events != [] {
      StaysInPlace(units, events[..|events| - 1], id);
    }
  }

  /** The successful calls on a unit form a chain, and its status is what the last of them set. */
  lemma {:induction false} SuccessesChain(units: map<string, Unit>, events: seq<Event>, id: string)
    requires id in units
    ensures id in Run(units, events)
    ensures var s := Successes(units, events, id);
      IsChain(units[id].status, s) && Run(units, events)[id].status == StatusAfter(units[id].status, s, |s|)
    decreases |events|
  {
    StaysInPlace(units, events, id);
    if events != [] {
      var rest, e := events[..|events| - 1], events[|events| - 1];
      SuccessesChain(units, rest, id);
      var before := Successes(units, rest, id);
      if e.Transition? && e.c.unitId == id && Matches(Run(units, rest), e.c) {
        ChainGrows(units[id].status, before, e.c);
      } else {
        assert before + [] == before;
      }
    }
  }

  /** Between two successful vacant-to-reserved calls, some successful call set it back to vacant. */
  lemma ReservedTwiceMeansVacatedBetween(units: map<string, Unit>, events: seq<Event>, id: string, i: nat, j: nat)
    returns (k: nat)
    requires id in units
    requires var s := Successes(units, events, id);
      && i < j < |s| && s[i].expected == s[j].expected == "vacant" && s[i].new_ == s[j].new_ == "reserved"
    ensures i < k < j && Successes(units, events, id)[k].new_ == "vacant"
  {
    SuccessesChain(units, events, id);
    var s := Successes(units, events, id);
    k := j - 1;
    assert s[j].expected == StatusAfter(units[id].status, s, j);
    assert "vacant"[0] != "reserved"[0];
  }

  predicate IsReservation(c: Call) { c.expected == "vacant" && c.new_ == "reserved" }

  /** However callers interleave: without a successful call back to vacant, at most one reserves. */
  lemma AtMostOneReservation(units: map<string, Unit>, events: seq<Event>, id: string, i: nat, j: nat)
    requires id in units && i < |Successes(units, events, id)| && j < |Successes(units, events, id)|
    requires forall c :: c in Successes(units, events, id) ==> c.new_ != "vacant"
    requires IsReservation(Successes(units, events, id)[i]) && IsReservation(Successes(units, events, id)[j])
    ensures i == j
  {
    if i < j {
      VacatedBetween(units, events, id, i, j);
    } else if j < i {
      VacatedBetween(units, events, id, j, i);
    }
  }

  lemma VacatedBetween(units: map<string, Unit>, events: seq<Event>, id: string, i: nat, j: nat)
    requires id in units && i < j < |Successes(units, events, id)|
    requires IsReservation(Successes(units, events, id)[i]) && IsReservation(Successes(units, events, id)[j])
    ensures exists c :: c in Successes(units, events, id) && c.new_ == "vacant"
  {
    var k := ReservedTwiceMeansVacatedBetween(units, events, id, i, j);
    assert Successes(units, events, id)[k] in Successes(units, events, id);
  }

  predicate Reserves(e: Event, id: string, orgId: string) {
    e.Transition? && e.c.unitId == id && e.c.orgId == orgId && IsReservation(e.c)
  }

  /** All transitions of this unit are reservations by its org; anything else may happen besides. */
  predicate OnlyReservers(events: seq<Event>, id: string, orgId: string) {
    forall e :: e in events && e.Transition? && e.c.unitId == id ==> Reserves(e, id, orgId)
  }

  /** Some reserver comes before the unit is deleted. */
  predicate ReserverInTime(events: seq<Event>, id: string, orgId: string) {
    exists n :: 0 <= n < |events| && Reserves(events[n], id, orgId) && SoftDelete(id) !in events[..n]
  }

  predicate Free(u: Unit, orgId: string) { u.orgId == orgId && u.status == "vacant" && !u.deleted }

  lemma InTimeSnoc(events: seq<Event>, e: Event, id: string, orgId: string)
    ensures ReserverInTime(events + [e], id, orgId)
       <==> ReserverInTime(events, id, orgId) || (Reserves(e, id, orgId) && SoftDelete(id) !in events)
  {
    var all := events + [e];
    assert all[..|events|] == events && all[|events|] == e;
    if n :| 0 <= n < |events| && Reserves(events[n], id, orgId) && SoftDelete(id) !in events[..n] {
      assert all[n] == events[n] && all[..n] == events[..n];
    }
    if n :| 0 <= n < |all| && Reserves(all[n], id, orgId) && SoftDelete(id) !in all[..n] {
      if n < |events| {
        assert all[n] == events[n] && all[..n] == events[..n];
      }
    }
  }

  /** Where the unit stands while only reservers ask for it; inTime: one came before it was removed. */
  predicate Reserving(before: Unit, now: Unit, removed: bool, inTime: bool, s: seq<Call>, orgId: string) {
    && now.orgId == before.orgId && (now.deleted <==> before.deleted || removed)
    && if Free(before, orgId) && inTime then |s| == 1 && now.status == "reserved"
       else s == [] && now.status == before.status
  }

  lemma SuccessesSnoc(units: map<string, Unit>, events: seq<Event>, e: Event, id: string)
    ensures Run(units, events + [e]) == Step(Run(units, events), e)
    ensures Successes(units, events + [e], id)
         == Successes(units, events, id)
            + (if e.Transition? && e.c.unitId == id && Matches(Run(units, events), e.c) then [e.c] else [])
  {
    assert (events + [e])[..|events|] == events;
  }

  lemma ReservingStep(before: Unit, now: map<string, Unit>, e: Event, removed: bool, inTime: bool,
                      s: seq<Call>, s': seq<Call>, id: string, orgId: string)
    requires id in now && Reserving(before, now[id], removed, inTime, s, orgId)
    requires e.Transition? && e.c.unitId == id ==> Reserves(e, id, orgId)
    requires s' == s + (if e.Transition? && e.c.unitId == id && Matches(now, e.c) then [e.c] else [])
    ensures id in Step(now, e)
    ensures Reserving(before, Step(now, e)[id], removed || e == SoftDelete(id),
                      inTime || (Reserves(e, id, orgId) && !removed), s', orgId)
  {
    assert "vacant"[0] != "reserved"[0];
    assert s + [] == s;
  }

  /**
   * Of any number of concurrent reservers, among any other steps, at most one succeeds, and one
   * does exactly if the unit was theirs and vacant and the first of them came before its deletion.
   */
  lemma {:induction false} OneReserverWins(units: map<string, Unit>, events: seq<Event>, id: string, orgId: string)
    requires id in units && OnlyReservers(events, id, orgId)
    ensures id in Run(units, events)
    ensures Reserving(units[id], Run(units, events)[id], SoftDelete(id) in events,
                      ReserverInTime(events, id, orgId), Successes(units, events, id), orgId)
    decreases |events|
  {
    if events != [] {
      var rest, e := events[..|events| - 1], events[|events| - 1];
      assert events == rest + [e];
      OneReserverWins(units, rest, id, orgId);
      SuccessesSnoc(units, rest, e, id);
      InTimeSnoc(rest, e, id, orgId);
      ReservingStep(units[id], Run(units, rest), e, SoftDelete(id) in rest, ReserverInTime(rest, id, orgId),
                    Successes(units, rest, id), Successes(units, events, id), id, orgId);
    }
  }

  /** A call changes the store exactly if the unit is its org's, has the expected status and is not deleted. */
  lemma TransitionWhen(units: map<string, Unit>, c: Call)
    ensures Matches(units, c)
       <==> c.unitId in units && units[c.unitId].orgId == c.orgId
            && units[c.unitId].status == c.expected && units[c.unitId].deleted == false
    ensures !Matches(units, c) ==> Step(units, Transition(c)) == units
    ensures Matches(units, c) ==>
      var u := units[c.unitId];
      Step(units, Transition(c)) == units[c.unitId := Unit(u.orgId, c.new_, u.deleted, c.now)]
  {}
}
