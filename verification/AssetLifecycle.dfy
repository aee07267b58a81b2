/** The asset service: every operation rewrites an asset's status, place, histories and audit trail. */
module AssetLifecycle {
  import opened Options

  datatype Status = Active | InMaintenance | CheckedOut | Retired | Disposed | WrittenOff

  type Text = Option<string>

  /** Python's truth value of an optional string. */
  predicate Present(t: Text) { t.Some? && t.value != "" }

  function Or(t: Text, otherwise: Text): Text { if Present(t) then t else otherwise }

  datatype Place = Place(propertyId: Text, propertyName: Text, unitId: Text, location: Text)

  /** To whom, by what name, when and until when. */
  datatype Loan = Loan(to: string, toName: Text, outAt: int, expectedReturn: Option<int>)

  datatype Checkout = Checkout(loan: Loan, returnedAt: Option<int>, returnedCondition: Text, notes: Text)

  datatype Handover = Handover(doneBy: string, doneAt: int, notes: Text)

  datatype Transfer = Transfer(origin: Place, target: Place, handover: Handover)

  datatype Action =
    | Created | Transferred | CheckedOutTo | CheckedIn | MaintenanceAdded | ValuationAdded
    | DisposedOf | WrittenOffAs

  datatype Valuation = Valuation(day: int, value: int, how: string, notes: Text, recordedBy: string)

  datatype Maintenance = Maintenance(
    day: int, kind: string, description: string, cost: Option<int>, performedBy: Text,
    performedByName: Text, nextDue: Option<int>, notes: Text)

  datatype Valued = Valued(
    currentValue: Option<int>, nextService: Option<int>, valuations: seq<Valuation>, maintenance: seq<Maintenance>)

  /** disposed_at, disposal_reason, disposal_value; written_off_at, write_off_reason. */
  datatype Ending = Ending(
    disposedAt: Option<int>, disposalReason: Text, disposalValue: Option<int>,
    writtenOffAt: Option<int>, writeOffReason: Text)

  const NO_ENDING := Ending(None, None, None, None, None)

  datatype Asset = Asset(
    orgId: string, status: Status, condition: Text, place: Place, valued: Valued, ending: Ending,
    checkouts: seq<Checkout>, transfers: seq<Transfer>, audit: seq<Action>)

  /** A request's target; the property's name is looked up when the request does not give it. */
  function Resolved(request: Place, names: map<string, string>): Place {
    if Present(request.propertyId) && !Present(request.propertyName) && request.propertyId.value in names
    then request.(propertyName := Some(names[request.propertyId.value])) else request
  }

  function Named(request: Place, names: map<string, string>): Place {
    request.(propertyName :=
               if Present(request.propertyId) && request.propertyId.value in names
               then Some(names[request.propertyId.value]) else None)
  }

  datatype Op =
    | DoCheckout(loan: Loan, notes: Text)
    | DoCheckin(now: int, condition: Text, notes: Text)
    | DoTransfer(target: Place, handover: Handover)
    | DoDispose(now: int, reason: string, disposalValue: Option<int>)
    | DoWriteOff(now: int, reason: string)
    | DoValue(valuation: Valuation)
    | DoMaintain(record: Maintenance)

  predicate IsOpen(c: Checkout) { c.returnedAt.None? }

  function Returned(c: Checkout, now: int, condition: Text, notes: Text): Checkout {
    Checkout(c.loan, Some(now), condition,
             if Present(notes) then Some((if c.notes.Some? then c.notes.value else "") + " | " + notes.value)
             else c.notes)
  }

  /** The last open record, if any, is the one that is closed. */
  function CloseLast(cs: seq<Checkout>, now: int, condition: Text, notes: Text): seq<Checkout> {
    if cs == [] then []
    else
      var rest, c := cs[..|cs| - 1], cs[|cs| - 1];
      if IsOpen(c) then rest + [Returned(c, now, condition, notes)]
      else CloseLast(rest, now, condition, notes) + [c]
  }

  /** Only a checkout is guarded. */
  predicate Accepts(a: Asset, op: Op) { op.DoCheckout? ==> a.status.Active? }

  function ActionOf(op: Op): Action {
    match op
    case DoCheckout(_, _) => CheckedOutTo
    case DoCheckin(_, _, _) => CheckedIn
    case DoTransfer(_, _) => Transferred
    case DoDispose(_, _, _) => DisposedOf
    case DoWriteOff(_, _) => WrittenOffAs
    case DoValue(_) => ValuationAdded
    case DoMaintain(_) => MaintenanceAdded
  }

  function Apply(a: Asset, op: Op): Asset {
    if !Accepts(a, op) then a
    else
      var b := a.(audit := a.audit + [ActionOf(op)]);
      match op
      case DoCheckout(loan, notes) =>
        b.(status := CheckedOut, checkouts := a.checkouts + [Checkout(loan, None, None, notes)])
      case DoCheckin(now, condition, notes) =>
        b.(status := Active, condition := Or(condition, a.condition),
           checkouts := CloseLast(a.checkouts, now, condition, notes))
      case DoTransfer(target, handover) =>
        b.(place := target, transfers := a.transfers + [Transfer(a.place, target, handover)])
      case DoDispose(now, reason, value) =>
        b.(status := Disposed,
           ending := a.ending.(disposedAt := Some(now), disposalReason := Some(reason), disposalValue := value))
      case DoWriteOff(now, reason) =>
        b.(status := WrittenOff, valued := a.valued.(currentValue := Some(0)),
           ending := a.ending.(writtenOffAt := Some(now), writeOffReason := Some(reason)))
      case DoValue(v) =>
        b.(valued := a.valued.(currentValue := Some(v.value), valuations := a.valued.valuations + [v]))
      case DoMaintain(record) => b.(valued := Maintained(a.valued, record))
  }

  /** The next service date follows the record's, if it has one. */
  function Maintained(v: Valued, record: Maintenance): Valued {
    Valued(v.currentValue, if record.nextDue.Some? then record.nextDue else v.nextService,
           v.valuations, v.maintenance + [record])
  }

  datatype Outcome = Ok | NotFound | NotAvailable

  lemma CloseStep(cs: seq<Checkout>, n: nat, now: int, condition: Text, notes: Text)
    requires n < |cs|
    ensures CloseLast(cs[..n + 1], now, condition, notes) + cs[n + 1..]
         == if IsOpen(cs[n]) then cs[n := Returned(cs[n], now, condition, notes)]
            else CloseLast(cs[..n], now, condition, notes) + cs[n..]
  {
    assert cs[..n + 1][..n] == cs[..n];
    if !IsOpen(cs[n]) {
      assert cs[n..] == [cs[n]] + cs[n + 1..];
    }
  }

  /** The reversed loop of checkin_asset: update the last open checkout record, if any. */
  method MarkReturned(checkouts: seq<Checkout>, now: int, condition: Text, notes: Text)
    returns (history: seq<Checkout>)
    ensures history == CloseLast(checkouts, now, condition, notes)
  {
    history := checkouts;
    var n := |history|;
    assert history[..n] == history;
    while n > 0
      invariant n <= |history| && history == checkouts
      invariant CloseLast(checkouts, now, condition, notes)
             == CloseLast(checkouts[..n], now, condition, notes) + checkouts[n..]
    {
      n := n - 1;
      CloseStep(checkouts, n, now, condition, notes);
      if IsOpen(history[n]) {
        history := history[n := Returned(history[n], now, condition, notes)];
        return;
      }
    }
  }

  class AssetService {
    var assets: map<string, Asset>

    constructor ()
      ensures assets == map[]
    {
      assets := map[];
    }

    predicate Has(id: string, orgId: string)
      reads this
    {
      id in assets && assets[id].orgId == orgId
    }

    /** The new state and answer of every operation on an existing asset. */
    twostate predicate Did(id: string, orgId: string, op: Op, r: Outcome)
      reads this
    {
      if !old(Has(id, orgId)) then assets == old(assets) && r == NotFound
      else if !Accepts(old(assets)[id], op) then assets == old(assets) && r == NotAvailable
      else assets == old(assets)[id := Apply(old(assets)[id], op)] && r == Ok
    }

    /** The property's name is looked up and, unlike in a transfer, never given. */
    method CreateAsset(id: string, orgId: string, status: Status, condition: Text, request: Place,
                       cost: Option<int>, nextService: Option<int>, names: map<string, string>)
      requires id !in assets
      modifies this
      ensures assets == old(assets)[id := Fresh(orgId, status, condition, Named(request, names), cost, nextService)]
    {
      var propertyName: Text := None;
      if Present(request.propertyId) && request.propertyId.value in names {
        propertyName := Some(names[request.propertyId.value]);
      }
      var place := request.(propertyName := propertyName);
      var valued := Valued(cost, nextService, [], []);
      var asset := Asset(orgId, status, condition, place, valued, NO_ENDING, [], [], [Created]);
      assets := assets[id := asset];
    }

    method CheckoutAsset(id: string, orgId: string, loan: Loan, notes: Text) returns (r: Outcome)
      modifies this
      ensures Did(id, orgId, DoCheckout(loan, notes), r)
    {
      if !Has(id, orgId) { return NotFound; }
      var asset := assets[id];
      if asset.status != Active { return NotAvailable; }
      var record := Checkout(loan, None, None, notes);
      asset := asset.(status := CheckedOut, checkouts := asset.checkouts + [record],
                      audit := asset.audit + [CheckedOutTo]);
      assets := assets[id := asset];
      r := Ok;
    }

    method CheckinAsset(id: string, orgId: string, now: int, condition: Text, notes: Text) returns (r: Outcome)
      modifies this
      ensures Did(id, orgId, DoCheckin(now, condition, notes), r)
    {
      if !Has(id, orgId) { return NotFound; }
      var asset := assets[id];
      var history := MarkReturned(asset.checkouts, now, condition, notes);
      asset := asset.(status := Active, condition := Or(condition, asset.condition),
                      checkouts := history, audit := asset.audit + [CheckedIn]);
      assets := assets[id := asset];
      r := Ok;
    }

    method TransferAsset(id: string, orgId: string, request: Place, handover: Handover,
                         names: map<string, string>) returns (r: Outcome)
      modifies this
      ensures Did(id, orgId, DoTransfer(Resolved(request, names), handover), r)
    {
      if !Has(id, orgId) { return NotFound; }
      var asset := assets[id];
      var target := Resolved(request, names);
      asset := asset.(place := target, transfers := asset.transfers + [Transfer(asset.place, target, handover)],
                      audit := asset.audit + [Transferred]);
      assets := assets[id := asset];
      r := Ok;
    }

    method DisposeAsset(id: string, orgId: string, now: int, reason: string, value: Option<int>) returns (r: Outcome)
      modifies this
      ensures Did(id, orgId, DoDispose(now, reason, value), r)
    {
      if !Has(id, orgId) { return NotFound; }
      var asset := assets[id];
      var ending := asset.ending.(disposedAt := Some(now), disposalReason := Some(reason), disposalValue := value);
      assets := assets[id := asset.(status := Disposed, ending := ending, audit := asset.audit + [DisposedOf])];
      r := Ok;
    }

    method WriteOffAsset(id: string, orgId: string, now: int, reason: string) returns (r: Outcome)
      modifies this
      ensures Did(id, orgId, DoWriteOff(now, reason), r)
    {
      if !Has(id, orgId) { return NotFound; }
      var asset := assets[id];
      var ending := asset.ending.(writtenOffAt := Some(now), writeOffReason := Some(reason));
      assets := assets[id := asset.(status := WrittenOff, valued := asset.valued.(currentValue := Some(0)),
                                    ending := ending, audit := asset.audit + [WrittenOffAs])];
      r := Ok;
    }

    method AddValuation(id: string, orgId: string, v: Valuation) returns (r: Outcome)
      modifies this
      ensures Did(id, orgId, DoValue(v), r)
    {
      if !Has(id, orgId) { return NotFound; }
      var asset := assets[id];
      var valued := asset.valued.(currentValue := Some(v.value), valuations := asset.valued.valuations + [v]);
      assets := assets[id := asset.(valued := valued, audit := asset.audit + [ValuationAdded])];
      r := Ok;
    }

    method AddMaintenanceRecord(id: string, orgId: string, record: Maintenance) returns (r: Outcome)
      modifies this
      ensures Did(id, orgId, DoMaintain(record), r)
    {
      if !Has(id, orgId) { return NotFound; }
      var asset := assets[id];
      var valued := asset.valued.(maintenance := asset.valued.maintenance + [record]);
      if record.nextDue.Some? {
        valued := valued.(nextService := record.nextDue);
      }
      assets := assets[id := asset.(valued := valued, audit := asset.audit + [MaintenanceAdded])];
      r := Ok;
    }
  }

  // ---------- Any sequence of operations on one asset ----------

  function Fresh(orgId: string, status: Status, condition: Text, place: Place,
                 cost: Option<int>, nextService: Option<int>): (a: Asset)
    ensures IsFresh(a)
  {
    Asset(orgId, status, condition, place, Valued(cost, nextService, [], []), NO_ENDING, [], [], [Created])
  }

  /** A newly created asset: no histories, one audit entry. */
  predicate IsFresh(a: Asset) { a.checkouts == [] && a.transfers == [] && a.audit == [Created] }

  function Run(a: Asset, ops: seq<Op>): Asset
    decreases |ops|
  {
    if ops == [] then a else Apply(Run(a, ops[..|ops| - 1]), ops[|ops| - 1])
  }

  function OpenCount(cs: seq<Checkout>): nat {
    if cs == [] then 0 else OpenCount(cs[..|cs| - 1]) + (if IsOpen(cs[|cs| - 1]) then 1 else 0)
  }

  /** At most one checkout record is open, and it is the last; the status says which. */
  predicate CheckoutsOk(a: Asset) {
    && OpenCount(a.checkouts) <= 1
    && (OpenCount(a.checkouts) == 1 ==> IsOpen(a.checkouts[|a.checkouts| - 1]))
    && (a.status.Active? ==> OpenCount(a.checkouts) == 0)
    && (a.status.CheckedOut? ==> OpenCount(a.checkouts) == 1)
  }

  /** Where the asset is before its n-th transfer. */
  function PlaceBefore(start: Place, transfers: seq<Transfer>, n: nat): Place
    requires n <= |transfers|
  {
    if n == 0 then start else transfers[n - 1].target
  }

  /** Each transfer starts where the one before ended; the asset is where the last one ended. */
  predicate TransfersOk(start: Place, a: Asset) {
    && (forall n :: 0 <= n < |a.transfers| ==> a.transfers[n].origin == PlaceBefore(start, a.transfers, n))
    && a.place == PlaceBefore(start, a.transfers, |a.transfers|)
  }

  lemma {:induction false} NoneOpen(cs: seq<Checkout>, now: int, condition: Text, notes: Text)
    requires OpenCount(cs) == 0
    ensures CloseLast(cs, now, condition, notes) == cs
  {
    if cs != [] {
      NoneOpen(cs[..|cs| - 1], now, condition, notes);
    }
  }

  lemma CloseTheOnlyOne(cs: seq<Checkout>, now: int, condition: Text, notes: Text)
    requires OpenCount(cs) <= 1 && (OpenCount(cs) == 1 ==> IsOpen(cs[|cs| - 1]))
    ensures OpenCount(CloseLast(cs, now, condition, notes)) == 0
  {
    if OpenCount(cs) == 0 {
      NoneOpen(cs, now, condition, notes);
    } else {
      var rest, c := cs[..|cs| - 1], Returned(cs[|cs| - 1], now, condition, notes);
      assert (rest + [c])[..|rest|] == rest;
    }
  }

  lemma OpenedOne(cs: seq<Checkout>, c: Checkout)
    requires OpenCount(cs) == 0 && IsOpen(c)
    ensures OpenCount(cs + [c]) == 1
  {
    assert (cs + [c])[..|cs|] == cs;
  }

  lemma ApplyKeepsCheckouts(a: Asset, op: Op)
    requires CheckoutsOk(a)
    ensures CheckoutsOk(Apply(a, op))
  {
    if op.DoCheckout? && a.status.Active? {
      OpenedOne(a.checkouts, Checkout(op.loan, None, None, op.notes));
    } else if op.DoCheckin? {
      CloseTheOnlyOne(a.checkouts, op.now, op.condition, op.notes);
    }
  }

  lemma ApplyKeepsTransfers(start: Place, a: Asset, op: Op)
    requires TransfersOk(start, a)
    ensures TransfersOk(start, Apply(a, op))
  {
    if op.DoTransfer? {
      var next := a.transfers + [Transfer(a.place, op.target, op.handover)];
      forall n | 0 <= n < |next|
        ensures next[n].origin == PlaceBefore(start, next, n)
      {
        assert PlaceBefore(start, next, n) == PlaceBefore(start, a.transfers, n);
        if n < |a.transfers| {
          assert a.transfers[n].origin == PlaceBefore(start, a.transfers, n);
        }
      }
    } else {
      assert Apply(a, op).transfers == a.transfers && Apply(a, op).place == a.place;
    }
  }

  /** The operations that leave a status which needs no open checkout. */
  predicate Settles(op: Op) { op.DoCheckin? || op.DoDispose? || op.DoWriteOff? }

  /** Marked as checked out although no record is open. */
  predicate Unfounded(a: Asset) { a.status.CheckedOut? && OpenCount(a.checkouts) == 0 }

  lemma UnfoundedUntilSettled(a: Asset, op: Op)
    requires Unfounded(a)
    ensures if Settles(op) then CheckoutsOk(Apply(a, op)) else Unfounded(Apply(a, op))
  {
    if op.DoCheckin? {
      NoneOpen(a.checkouts, op.now, op.condition, op.notes);
    }
  }

  /** In every run from a newly created asset: the transfers chain from its first place. */
  lemma {:induction false} TransfersOfRun(a: Asset, ops: seq<Op>)
    requires IsFresh(a)
    ensures TransfersOk(a.place, Run(a, ops))
    decreases |ops|
  {
    if ops != [] {
      TransfersOfRun(a, ops[..|ops| - 1]);
      ApplyKeepsTransfers(a.place, Run(a, ops[..|ops| - 1]), ops[|ops| - 1]);
    }
  }

  lemma {:induction false} CheckoutsOfRun(a: Asset, ops: seq<Op>)
    requires IsFresh(a)
    ensures if a.status != CheckedOut || (exists op :: op in ops && Settles(op))
            then CheckoutsOk(Run(a, ops)) else Unfounded(Run(a, ops))
    decreases |ops|
  {
    if ops != [] {
      var rest, op := ops[..|ops| - 1], ops[|ops| - 1];
      CheckoutsOfRun(a, rest);
      assert forall x :: x in ops <==> x in rest || x == op by { assert ops == rest + [op]; }
      if CheckoutsOk(Run(a, rest)) {
        ApplyKeepsCheckouts(Run(a, rest), op);
      } else {
        UnfoundedUntilSettled(Run(a, rest), op);
      }
    }
  }

  /**
   * After any operations on a newly created asset, at most one checkout is open, it is the last,
   * and the status agrees, exactly if the asset was not created as checked out or has since been
   * checked in, disposed of or written off.
   */
  lemma LifecycleOfRun(a: Asset, ops: seq<Op>)
    requires IsFresh(a)
    ensures CheckoutsOk(Run(a, ops)) <==> a.status != CheckedOut || exists op :: op in ops && Settles(op)
  {
    CheckoutsOfRun(a, ops);
  }

  function AcceptedActions(a: Asset, ops: seq<Op>): seq<Action>
    decreases |ops|
  {
    if ops == [] then []
    else
      var rest, op := ops[..|ops| - 1], ops[|ops| - 1];
      AcceptedActions(a, rest) + (if Accepts(Run(a, rest), op) then [ActionOf(op)] else [])
  }

  /** The audit trail grows by exactly one entry, naming it, for each accepted operation. */
  lemma {:induction false} AuditOfRun(a: Asset, ops: seq<Op>)
    ensures Run(a, ops).audit == a.audit + AcceptedActions(a, ops)
    decreases |ops|
  {
    if ops != [] {
      AuditOfRun(a, ops[..|ops| - 1]);
    }
  }

  // ---------- What each operation leaves behind ----------

  /** Only a checkout can be refused, and it is exactly if the asset is not active. */
  lemma RefusedWhen(a: Asset, op: Op)
    ensures Apply(a, op) == a <==> op.DoCheckout? && a.status != Active
  {
    if Accepts(a, op) {
      assert |Apply(a, op).audit| == |a.audit| + 1;
    }
  }

  /** The status after an accepted operation. */
  lemma StatusAfter(a: Asset, op: Op)
    requires op.DoCheckout? ==> a.status == Active
    ensures op.DoCheckout? ==> Apply(a, op).status == CheckedOut
    ensures op.DoCheckin? ==> Apply(a, op).status == Active
    ensures op.DoDispose? ==> Apply(a, op).status == Disposed
    ensures op.DoWriteOff? ==> Apply(a, op).status == WrittenOff
    ensures op.DoTransfer? || op.DoValue? || op.DoMaintain? ==> Apply(a, op).status == a.status
  {}

  /** Value, condition, place and ending change with their own operations only. */
  lemma FieldsAfter(a: Asset, op: Op)
    ensures Apply(a, op).orgId == a.orgId
    ensures Apply(a, op).valued.currentValue
         == if op.DoWriteOff? then Some(0) else if op.DoValue? then Some(op.valuation.value) else a.valued.currentValue
    ensures Apply(a, op).valued.nextService
         == if op.DoMaintain? && op.record.nextDue.Some? then op.record.nextDue else a.valued.nextService
    ensures Apply(a, op).condition
         == if op.DoCheckin? && op.condition.Some? && op.condition.value != "" then op.condition else a.condition
    ensures Apply(a, op).place == if op.DoTransfer? then op.target else a.place
    ensures op.DoDispose? ==>
      var e := Apply(a, op).ending;
      && e.disposedAt == Some(op.now) && e.disposalReason == Some(op.reason) && e.disposalValue == op.disposalValue
      && e.writtenOffAt == a.ending.writtenOffAt && e.writeOffReason == a.ending.writeOffReason
    ensures op.DoWriteOff? ==>
      var e := Apply(a, op).ending;
      && e.writtenOffAt == Some(op.now) && e.writeOffReason == Some(op.reason)
      && e.disposedAt == a.ending.disposedAt && e.disposalReason == a.ending.disposalReason
      && e.disposalValue == a.ending.disposalValue
    ensures !op.DoDispose? && !op.DoWriteOff? ==> Apply(a, op).ending == a.ending
  {}

  /** Histories grow by the operation's own record, and by no other. */
  lemma RecordsAfter(a: Asset, op: Op)
    requires op.DoCheckout? ==> a.status == Active
    ensures op.DoCheckout? ==> Apply(a, op).checkouts == a.checkouts + [Checkout(op.loan, None, None, op.notes)]
    ensures !op.DoCheckout? && !op.DoCheckin? ==> Apply(a, op).checkouts == a.checkouts
    ensures Apply(a, op).transfers
         == if op.DoTransfer? then a.transfers + [Transfer(a.place, op.target, op.handover)] else a.transfers
    ensures Apply(a, op).valued.valuations
         == if op.DoValue? then a.valued.valuations + [op.valuation] else a.valued.valuations
    ensures Apply(a, op).valued.maintenance
         == if op.DoMaintain? then a.valued.maintenance + [op.record] else a.valued.maintenance
  {}

  /** A check-in closes the last open record, with the time, the condition and the notes joined on. */
  lemma {:induction false} ClosesLastOpen(cs: seq<Checkout>, i: nat, now: int, condition: Text, notes: Text)
    requires i < |cs| && cs[i].returnedAt == None && forall j :: i < j < |cs| ==> cs[j].returnedAt != None
    ensures var after := CloseLast(cs, now, condition, notes);
      && |after| == |cs| && (forall j :: 0 <= j < |cs| && j != i ==> after[j] == cs[j])
      && after[i].loan == cs[i].loan && after[i].returnedAt == Some(now) && after[i].returnedCondition == condition
      && (notes.None? || notes.value == "" ==> after[i].notes == cs[i].notes)
      && (notes.Some? && notes.value != "" && cs[i].notes.Some? ==>
            after[i].notes == Some(cs[i].notes.value + " | " + notes.value))
      && (notes.Some? && notes.value != "" && cs[i].notes.None? ==> after[i].notes == Some("" + " | " + notes.value))
    decreases |cs|
  {
    if i < |cs| - 1 {
      ClosesLastOpen(cs[..|cs| - 1], i, now, condition, notes);
    }
  }

  /** What the audit entry says. */
  lemma AuditAfter(a: Asset, op: Op)
    requires op.DoCheckout? ==> a.status == Active
    ensures Apply(a, op).audit
         == a.audit + [match op
                       case DoCheckout(_, _) => CheckedOutTo
                       case DoCheckin(_, _, _) => CheckedIn
                       case DoTransfer(_, _) => Transferred
                       case DoDispose(_, _, _) => DisposedOf
                       case DoWriteOff(_, _) => WrittenOffAs
                       case DoValue(_) => ValuationAdded
                       case DoMaintain(_) => MaintenanceAdded]
  {}

  /** A new asset is worth its cost, and is where and as it was asked for. */
  lemma FreshIs(orgId: string, status: Status, condition: Text, place: Place,
                cost: Option<int>, nextService: Option<int>)
    ensures var a := Fresh(orgId, status, condition, place, cost, nextService);
      && a.orgId == orgId && a.status == status && a.condition == condition && a.place == place
      && a.valued == Valued(cost, nextService, [], []) && a.ending == Ending(None, None, None, None, None)
      && a.checkouts == [] && a.transfers == [] && a.audit == [Created]
  {}

  /** A transfer keeps a given name and looks up a missing one; a creation always looks it up. */
  lemma NamesOfPlaces(request: Place, names: map<string, string>)
    ensures Resolved(request, names).propertyId == Named(request, names).propertyId == request.propertyId
    ensures Resolved(request, names).unitId == Named(request, names).unitId == request.unitId
    ensures Resolved(request, names).location == Named(request, names).location == request.location
    ensures request.propertyName.Some? && request.propertyName.value != "" ==>
      Resolved(request, names).propertyName == request.propertyName
    ensures request.propertyId.None? || request.propertyId.value == "" || request.propertyId.value !in names ==>
      Resolved(request, names).propertyName == request.propertyName && Named(request, names).propertyName == None
    ensures request.propertyId.Some? && request.propertyId.value != "" && request.propertyId.value in names ==>
      && Named(request, names).propertyName == Some(names[request.propertyId.value])
      && (request.propertyName.None? || request.propertyName.value == "" ==>
            Resolved(request, names).propertyName == Some(names[request.propertyId.value]))
  {}
}
