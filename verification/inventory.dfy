/** Inventory reservations. The ledger is the simple form: what is reserved is the sum over the live
    reservations. The class keeps running totals instead and refines the ledger. */
module Inventory {
  import opened Machine

  datatype Location = BinanceAccount(accountId: string) | EvmWallet(networkId: string, walletId: string)

  datatype Key = Key(location: Location, assetId: string)

  datatype Claim = Claim(key: Key, amount: U256)

  datatype Purpose = TradePrimary | TradeRecovery | Rebalance

  datatype Request = Request(operationId: string, purpose: Purpose, claims: seq<Claim>, settlement: set<Location>)

  datatype ReservationState = Active | PendingSettlement(barriers: map<Location, U64>)

  datatype Reservation = Reservation(request: Request, state: ReservationState)

  datatype Balance = Balance(assetId: string, amount: U256)

  datatype InventoryError =
    | ZeroGeneration | InvalidAsset | DuplicateAsset | EmptySnapshot | NoCompleteSnapshot
    | InvalidRequest | OperationExists | NoGeneration | NotObserved | ReservationsExceedObserved
    | Insufficient(key: Key, requested: U256, observed: U256, reserved: U256, available: U256)
    | UnknownReservation | NotActive | SettlementWithoutGeneration

  // ---------------------------------------------------------------- the ledger

  type Reservations = map<string, Reservation>

  datatype Ledger = Ledger(observed: map<Key, U256>, generations: map<Location, U64>, reservations: Reservations)

  // What a list of claims takes from one key.
  function ClaimOn(claims: seq<Claim>, key: Key): nat {
    if claims == [] then 0 else
      var last := claims[|claims| - 1];
      ClaimOn(claims[..|claims| - 1], key) + if last.key == key then last.amount else 0
  }

  // What all live reservations together take from one key.
  ghost function Held(reservations: Reservations, key: Key): nat
    decreases |reservations|
  {
    if reservations == map[] then 0 else
      var id :| id in reservations;
      ClaimOn(reservations[id].request.claims, key) + Held(reservations - {id}, key)
  }

  lemma {:induction false} HeldSplits(reservations: Reservations, id: string, key: Key)
    requires id in reservations
    ensures Held(reservations, key)
         == ClaimOn(reservations[id].request.claims, key) + Held(reservations - {id}, key)
    decreases |reservations|
  {
    var pick :| pick in reservations && Held(reservations, key)
                == ClaimOn(reservations[pick].request.claims, key) + Held(reservations - {pick}, key);
    if pick != id {
      HeldSplits(reservations - {pick}, id, key);
      HeldSplits(reservations - {id}, pick, key);
      assert reservations - {pick} - {id} == reservations - {id} - {pick};
    }
  }

  lemma HeldAfterInsert(reservations: Reservations, id: string, r: Reservation, key: Key)
    requires id !in reservations
    ensures Held(reservations[id := r], key) == Held(reservations, key) + ClaimOn(r.request.claims, key)
  {
    HeldSplits(reservations[id := r], id, key);
    assert reservations[id := r] - {id} == reservations;
  }

  lemma HeldIgnoresState(reservations: Reservations, id: string, state: ReservationState, key: Key)
    requires id in reservations
    ensures Held(reservations[id := reservations[id].(state := state)], key) == Held(reservations, key)
  {
    var changed := reservations[id := reservations[id].(state := state)];
    HeldSplits(changed, id, key);
    HeldSplits(reservations, id, key);
    assert changed - {id} == reservations - {id};
  }

  // ---------------------------------------------------------------- requests

  predicate DistinctKeys(claims: seq<Claim>) {
    forall i, j | 0 <= i < j < |claims| :: claims[i].key != claims[j].key
  }

  predicate ValidRequest(r: Request) {
    && ValidId(r.operationId, 120) && r.claims != [] && r.settlement != {}
    && (forall i | 0 <= i < |r.claims| ::
          ValidId(r.claims[i].key.assetId, 160) && r.claims[i].amount > 0 && r.claims[i].key.location in r.settlement)
    && DistinctKeys(r.claims)
  }

  lemma {:induction false} NoClaimOn(claims: seq<Claim>, key: Key)
    requires forall i | 0 <= i < |claims| :: claims[i].key != key
    ensures ClaimOn(claims, key) == 0
  {
    if claims != [] { NoClaimOn(claims[..|claims| - 1], key); }
  }

  lemma {:induction false} ClaimOnSplits(a: seq<Claim>, b: seq<Claim>, key: Key)
    ensures ClaimOn(a + b, key) == ClaimOn(a, key) + ClaimOn(b, key)
  {
    if b == [] {
      assert a + b == a;
    } else {
      ClaimOnSplits(a, b[..|b| - 1], key);
      assert (a + b)[..|a + b| - 1] == a + b[..|b| - 1];
    }
  }

  lemma ClaimOnHead(claims: seq<Claim>, i: nat, key: Key)
    requires i < |claims|
    ensures ClaimOn(claims[i..], key)
         == (if claims[i].key == key then claims[i].amount else 0) + ClaimOn(claims[i + 1..], key)
  {
    assert claims[i..] == [claims[i]] + claims[i + 1..];
    ClaimOnSplits([claims[i]], claims[i + 1..], key);
  }

  // With distinct keys a key is claimed once.
  lemma {:induction false} ClaimOnIs(claims: seq<Claim>, i: nat)
    requires DistinctKeys(claims) && i < |claims|
    ensures ClaimOn(claims, claims[i].key) == claims[i].amount
  {
    var before := claims[..|claims| - 1];
    if i == |claims| - 1 {
      NoClaimOn(before, claims[i].key);
    } else {
      ClaimOnIs(before, i);
    }
  }

  // ---------------------------------------------------------------- what each operation does to the ledger

  predicate Passed(barriers: map<Location, U64>, generations: map<Location, U64>) {
    forall l | l in barriers :: l in generations && generations[l] > barriers[l]
  }

  predicate Settled(r: Reservation, generations: map<Location, U64>) {
    r.state.PendingSettlement? && Passed(r.state.barriers, generations)
  }

  function Unsettled(reservations: Reservations, generations: map<Location, U64>): Reservations {
    map id | id in reservations && !Settled(reservations[id], generations) :: reservations[id]
  }

  predicate UsableBalances(balances: seq<Balance>) {
    && balances != []
    && (forall i | 0 <= i < |balances| :: ValidId(balances[i].assetId, 160))
    && forall i, j | 0 <= i < j < |balances| :: balances[i].assetId != balances[j].assetId
  }

  function Snapshot(location: Location, balances: seq<Balance>): map<Key, U256> {
    if balances == [] then map[] else
      var last := balances[|balances| - 1];
      Snapshot(location, balances[..|balances| - 1])[Key(location, last.assetId) := last.amount]
  }

  lemma {:induction false} SnapshotHas(location: Location, balances: seq<Balance>, asset: string)
    ensures Key(location, asset) in Snapshot(location, balances)
       <==> exists j | 0 <= j < |balances| :: balances[j].assetId == asset
  {
    if balances != [] {
      var before := balances[..|balances| - 1];
      SnapshotHas(location, before, asset);
      assert forall j | 0 <= j < |before| :: before[j] == balances[j];
    }
  }

  function WithoutLocation(observed: map<Key, U256>, location: Location): map<Key, U256> {
    map k | k in observed && k.location != location :: observed[k]
  }

  function Advanced(l: Ledger, location: Location, generation: U64, observed: map<Key, U256>): Ledger {
    var generations := l.generations[location := generation];
    Ledger(observed, generations, Unsettled(l.reservations, generations))
  }

  // A complete snapshot replaces a location; a stale generation is ignored.
  function UpdatedLocation(l: Ledger, location: Location, generation: U64, balances: seq<Balance>): Ledger {
    if generation == 0 || (location in l.generations && generation <= l.generations[location])
       || !UsableBalances(balances) then l
    else Advanced(l, location, generation, WithoutLocation(l.observed, location) + Snapshot(location, balances))
  }

  // A partial update overwrites only the named assets, but advances the whole location.
  function UpdatedAssets(l: Ledger, location: Location, generation: U64, balances: seq<Balance>): Ledger {
    if generation == 0 || location !in l.generations || generation <= l.generations[location]
       || !UsableBalances(balances) then l
    else Advanced(l, location, generation, l.observed + Snapshot(location, balances))
  }

  ghost predicate Affordable(l: Ledger, c: Claim) {
    && c.key.location in l.generations && c.key in l.observed
    && Held(l.reservations, c.key) + c.amount <= l.observed[c.key]
  }

  ghost predicate CanReserve(l: Ledger, r: Request) {
    && ValidRequest(r) && r.operationId !in l.reservations
    && forall i | 0 <= i < |r.claims| :: Affordable(l, r.claims[i])
  }

  // All claims are taken, or none.
  ghost function Reserved(l: Ledger, r: Request): Ledger {
    if CanReserve(l, r) then l.(reservations := l.reservations[r.operationId := Reservation(r, Active)]) else l
  }

  predicate CanRelease(l: Ledger, id: string) { id in l.reservations && l.reservations[id].state.Active? }

  function Released(l: Ledger, id: string): Ledger {
    if CanRelease(l, id) then l.(reservations := l.reservations - {id}) else l
  }

  predicate CanMark(l: Ledger, id: string) {
    CanRelease(l, id) && l.reservations[id].request.settlement <= l.generations.Keys
  }

  function Marked(l: Ledger, id: string): Ledger {
    if !CanMark(l, id) then l else
      var barriers := map location | location in l.reservations[id].request.settlement :: l.generations[location];
      l.(reservations := l.reservations[id := l.reservations[id].(state := PendingSettlement(barriers))])
  }

  // ---------------------------------------------------------------- the ledger invariant

  /** Every live reservation is well formed and keyed by its operation; a pending one remembers every
      settlement location, none ahead of the current generation, and is still waiting for at least one. */
  predicate ReservationValid(id: string, r: Reservation, generations: map<Location, U64>) {
    && r.request.operationId == id && ValidRequest(r.request)
    && (forall i | 0 <= i < |r.request.claims| :: r.request.claims[i].key.location in generations)
    && (r.state.PendingSettlement? ==>
          && r.state.barriers.Keys == r.request.settlement
          && (forall l | l in r.state.barriers :: l in generations && r.state.barriers[l] <= generations[l])
          && !Passed(r.state.barriers, generations))
  }

  ghost predicate LedgerValid(l: Ledger) {
    forall id | id in l.reservations :: ReservationValid(id, l.reservations[id], l.generations)
  }

  lemma AdvancedKeepsValid(l: Ledger, location: Location, generation: U64, observed: map<Key, U256>)
    requires LedgerValid(l) && (location in l.generations ==> generation > l.generations[location])
    ensures LedgerValid(Advanced(l, location, generation, observed))
  {
  }

  lemma ReservedKeepsValid(l: Ledger, r: Request)
    requires LedgerValid(l)
    ensures LedgerValid(Reserved(l, r))
  {
  }

  lemma MarkedKeepsValid(l: Ledger, id: string)
    requires LedgerValid(l)
    ensures LedgerValid(Marked(l, id))
  {
  }

  // ---------------------------------------------------------------- runs of the ledger

  datatype Event =
    | Refresh(location: Location, generation: U64, balances: seq<Balance>)
    | RefreshAssets(location: Location, generation: U64, balances: seq<Balance>)
    | Reserve(request: Request)
    | Release(id: string)
    | Mark(id: string)

  ghost function After(l: Ledger, e: Event): Ledger {
    match e
    case Refresh(location, generation, balances) => UpdatedLocation(l, location, generation, balances)
    case RefreshAssets(location, generation, balances) => UpdatedAssets(l, location, generation, balances)
    case Reserve(request) => Reserved(l, request)
    case Release(id) => Released(l, id)
    case Mark(id) => Marked(l, id)
  }

  ghost function RunFrom(l: Ledger, events: seq<Event>): Ledger
    decreases |events|
  {
    if events == [] then l else RunFrom(After(l, events[0]), events[1..])
  }

  lemma EventKeepsValid(l: Ledger, e: Event)
    requires LedgerValid(l)
    ensures LedgerValid(After(l, e))
  {
    match e
    case Refresh(location, generation, balances) =>
      if After(l, e) != l {
        AdvancedKeepsValid(l, location, generation,
                           WithoutLocation(l.observed, location) + Snapshot(location, balances));
      }
    case RefreshAssets(location, generation, balances) =>
      if After(l, e) != l {
        AdvancedKeepsValid(l, location, generation, l.observed + Snapshot(location, balances));
      }
    case Reserve(request) => ReservedKeepsValid(l, request);
    case Release(id) =>
    case Mark(id) => MarkedKeepsValid(l, id);
  }

  // Generations of known locations never go back, and change only upwards.
  predicate Later(before: map<Location, U64>, after: map<Location, U64>) {
    forall l | l in before :: l in after && before[l] <= after[l]
  }

  lemma {:induction false} GenerationsGrow(l: Ledger, events: seq<Event>)
    requires LedgerValid(l)
    ensures LedgerValid(RunFrom(l, events)) && Later(l.generations, RunFrom(l, events).generations)
    decreases |events|
  {
    if events != [] {
      EventKeepsValid(l, events[0]);
      GenerationsGrow(After(l, events[0]), events[1..]);
    }
  }

  // An update that is taken: well formed, and newer than what is known about its location.
  predicate Accepted(l: Ledger, e: Event) {
    && (e.Refresh? || e.RefreshAssets?) && e.generation > 0 && UsableBalances(e.balances)
    && (e.location in l.generations ==> e.generation > l.generations[e.location])
    && (e.RefreshAssets? ==> e.location in l.generations)
  }

  /** An accepted update strictly raises the generation of its location and of no other, for good: nothing
      that happens later takes it back. Any other event leaves every generation alone. */
  lemma AcceptedGenerationsIncrease(l: Ledger, e: Event, events: seq<Event>)
    requires LedgerValid(l)
    ensures !Accepted(l, e) ==> After(l, e).generations == l.generations
    ensures Accepted(l, e) ==>
              && e.balances != [] && After(l, e).generations == l.generations[e.location := e.generation]
              && (e.location in l.generations ==> l.generations[e.location] < e.generation)
              && e.location in RunFrom(After(l, e), events).generations
              && e.generation <= RunFrom(After(l, e), events).generations[e.location]
  {
    EventKeepsValid(l, e);
    GenerationsGrow(After(l, e), events);
  }

  predicate PendingWith(l: Ledger, id: string, barriers: map<Location, U64>) {
    id in l.reservations && l.reservations[id].state == PendingSettlement(barriers)
  }

  /** A pending reservation stays, unchanged, until every one of its settlement locations, and so every
      location it claims from, has strictly passed the generation recorded when it was marked. */
  lemma {:induction false} HeldUntilSettled(l: Ledger, events: seq<Event>, id: string, barriers: map<Location, U64>)
    requires LedgerValid(l) && PendingWith(l, id, barriers)
    ensures Passed(barriers, RunFrom(l, events).generations) ||
            (PendingWith(RunFrom(l, events), id, barriers)
             && RunFrom(l, events).reservations[id].request == l.reservations[id].request)
    decreases |events|
  {
    if events != [] {
      var next := After(l, events[0]);
      EventKeepsValid(l, events[0]);
      if PendingWith(next, id, barriers) {
        HeldUntilSettled(next, events[1..], id, barriers);
      } else {
        assert Passed(barriers, next.generations);
        GenerationsGrow(next, events[1..]);
      }
    }
  }

  /** ... and not a moment longer: no reachable ledger holds a pending reservation that has passed. */
  lemma NothingOverstays(l: Ledger, events: seq<Event>, id: string)
    requires LedgerValid(l) && id in RunFrom(l, events).reservations
    ensures var r := RunFrom(l, events).reservations[id];
            && !Settled(r, RunFrom(l, events).generations)
            && (forall i | 0 <= i < |r.request.claims| :: r.request.claims[i].key.location in r.request.settlement)
  {
    GenerationsGrow(l, events);
    assert ReservationValid(id, RunFrom(l, events).reservations[id], RunFrom(l, events).generations);
  }

  // ---------------------------------------------------------------- is the reserved amount covered?

  function TotalOf(totals: map<Key, U256>, key: Key): nat { if key in totals then totals[key] else 0 }

  ghost predicate Covered(l: Ledger, key: Key) {
    Held(l.reservations, key) <= if key in l.observed then l.observed[key] else 0
  }

  lemma ReserveKeepsCover(l: Ledger, r: Request, key: Key)
    requires Covered(l, key)
    ensures Covered(Reserved(l, r), key)
  {
    if CanReserve(l, r) {
      HeldAfterInsert(l.reservations, r.operationId, Reservation(r, Active), key);
      if i :| 0 <= i < |r.claims| && r.claims[i].key == key {
        ClaimOnIs(r.claims, i);
        assert Affordable(l, r.claims[i]);
      } else {
        NoClaimOn(r.claims, key);
      }
    }
  }

  lemma {:induction false} HeldOfPart(part: Reservations, whole: Reservations, key: Key)
    requires forall id | id in part :: id in whole && part[id] == whole[id]
    ensures Held(part, key) <= Held(whole, key)
    decreases |whole|
  {
    if whole == map[] {
      assert part == map[];
    } else {
      var id :| id in whole;
      HeldSplits(whole, id, key);
      if id in part { HeldSplits(part, id, key); }
      HeldOfPart(part - {id}, whole - {id}, key);
      if id !in part { assert part - {id} == part; }
    }
  }

  // The balance a list reports for an asset.
  function ReportedBalance(balances: seq<Balance>, asset: string): Option<U256> {
    if balances == [] then None
    else if balances[|balances| - 1].assetId == asset then Some(balances[|balances| - 1].amount)
    else ReportedBalance(balances[..|balances| - 1], asset)
  }

  lemma {:induction false} SnapshotReports(location: Location, balances: seq<Balance>, key: Key)
    ensures key in Snapshot(location, balances) <==>
              key.location == location && ReportedBalance(balances, key.assetId).Some?
    ensures key in Snapshot(location, balances) ==>
              ReportedBalance(balances, key.assetId) == Some(Snapshot(location, balances)[key])
  {
    if balances != [] { SnapshotReports(location, balances[..|balances| - 1], key); }
  }

  // What the reservations of `l` that an update does not settle hold of a key.
  ghost function StillHeld(l: Ledger, e: Event, key: Key): nat
    requires Accepted(l, e)
  {
    Held(Unsettled(l.reservations, l.generations[e.location := e.generation]), key)
  }

  /** Whether a covered key stays covered, read off the ledger and the event before it happens. */
  ghost predicate CoverSurvives(l: Ledger, e: Event, key: Key) {
    Accepted(l, e) && e.location == key.location ==>
      match ReportedBalance(e.balances, key.assetId)
      case Some(amount) => StillHeld(l, e, key) <= amount
      case None => e.RefreshAssets? || StillHeld(l, e, key) == 0
  }

  lemma UpdateKeepsCoverExactly(l: Ledger, e: Event, key: Key)
    requires Covered(l, key) && Accepted(l, e)
    ensures Covered(After(l, e), key) <==> CoverSurvives(l, e, key)
  {
    HeldOfPart(Unsettled(l.reservations, l.generations[e.location := e.generation]), l.reservations, key);
    SnapshotReports(e.location, e.balances, key);
  }

  /** Reserving, releasing and marking keep every covered key covered. A full or partial update keeps a key
      covered if and only if what the reservations it does not settle hold of the key is no more than the
      balance it reports; a full update reports zero for an asset it does not name. */
  lemma CoverIsKeptExactly(l: Ledger, e: Event, key: Key)
    requires Covered(l, key)
    ensures Covered(After(l, e), key) <==> CoverSurvives(l, e, key)
    ensures e.Reserve? || e.Release? || e.Mark? ==> Covered(After(l, e), key)
  {
    match e
    case Reserve(request) => ReserveKeepsCover(l, request, key);
    case Release(id) => HeldOfPart(Released(l, id).reservations, l.reservations, key);
    case Mark(id) =>
      if CanMark(l, id) { HeldIgnoresState(l.reservations, id, Marked(l, id).reservations[id].state, key); }
    case _ =>
      if Accepted(l, e) { UpdateKeepsCoverExactly(l, e, key); }
  }

  ghost predicate CoverSurvivesRun(l: Ledger, events: seq<Event>, key: Key)
    decreases |events|
  {
    events == [] || (CoverSurvives(l, events[0], key) && CoverSurvivesRun(After(l, events[0]), events[1..], key))
  }

  /** So over a whole run: a key stays covered as long as every update reports enough. */
  lemma {:induction false} CoverOverRuns(l: Ledger, events: seq<Event>, key: Key)
    requires Covered(l, key) && CoverSurvivesRun(l, events, key)
    ensures Covered(RunFrom(l, events), key)
    decreases |events|
  {
    if events != [] {
      CoverIsKeptExactly(l, events[0], key);
      CoverOverRuns(After(l, events[0]), events[1..], key);
    }
  }

  /** The available balance is not an invariant: a ledger with one unit reserved of one observed unit is
      uncovered by a snapshot that reports zero. */
  lemma SnapshotCanUncover(location: Location, asset: string, id: string)
    requires ValidId(asset, 160) && ValidId(id, 120)
    ensures var key := Key(location, asset);
            var request := Request(id, TradePrimary, [Claim(key, 1)], {location});
            var l := Reserved(Ledger(map[key := 1], map[location := 1], map[]), request);
            && LedgerValid(l) && Covered(l, key)
            && !Covered(UpdatedLocation(l, location, 2, [Balance(asset, 0)]), key)
  {
    var key := Key(location, asset);
    var request := Request(id, TradePrimary, [Claim(key, 1)], {location});
    var start := Ledger(map[key := 1], map[location := 1], map[]);
    assert ClaimOn(request.claims, key) == 1 by { ClaimOnIs(request.claims, 0); }
    assert Affordable(start, request.claims[0]);
    assert CanReserve(start, request);
    ReservedKeepsValid(start, request);
    ReserveKeepsCover(start, request, key);
    var l := Reserved(start, request);
    HeldAfterInsert(map[], id, Reservation(request, Active), key);
    var after := UpdatedLocation(l, location, 2, [Balance(asset, 0)]);
    var balances := [Balance(asset, 0)];
    assert balances[..0] == [];
    assert Snapshot(location, balances) == map[key := 0];
    assert after.reservations == l.reservations;
  }

  // ---------------------------------------------------------------- the reservation object

  class InventoryReservations {
    var observed: map<Key, U256>
    var locationGenerations: map<Location, U64>
    var reservations: Reservations
    var reservedTotals: map<Key, U256>

    ghost function State(): Ledger
      reads this
    {
      Ledger(observed, locationGenerations, reservations)
    }

    /** The cached totals are the sums over live reservations, with no zero entry. */
    ghost predicate Exact(live: Reservations, pending: seq<Claim>)
      reads this
    {
      && (forall key :: TotalOf(reservedTotals, key) == Held(live, key) + ClaimOn(pending, key))
      && (forall key | key in reservedTotals :: reservedTotals[key] > 0)
    }

    predicate WithinObserved(key: Key)
      reads this
    {
      key in observed && TotalOf(reservedTotals, key) <= observed[key]
    }

    ghost predicate Valid()
      reads this
    {
      Exact(reservations, []) && LedgerValid(State())
    }

    constructor ()
      ensures Valid() && State() == Ledger(map[], map[], map[])
    {
      observed, locationGenerations, reservations, reservedTotals := map[], map[], map[], map[];
    }

    method Available(key: Key) returns (r: Result<U256, InventoryError>)
      requires Valid()
      ensures r.Ok? <==> key in observed && Held(reservations, key) <= observed[key]
      ensures r.Ok? ==> r.value == observed[key] - Held(reservations, key)
    {
      if key !in observed { return Err(NotObserved); }
      var reserved := if key in reservedTotals then reservedTotals[key] else 0;
      assert TotalOf(reservedTotals, key) == Held(reservations, key) + ClaimOn([], key);
      if reserved > observed[key] { return Err(ReservationsExceedObserved); }
      return Ok(observed[key] - reserved);
    }

    method CheckClaims(request: Request) returns (r: Result<(), InventoryError>)
      requires Valid()
      ensures r.Ok? <==> forall i | 0 <= i < |request.claims| :: Affordable(State(), request.claims[i])
      ensures r.Err? && r.error.Insufficient? ==>
                && r.error.key in observed && r.error.observed == observed[r.error.key]
                && r.error.reserved == Held(reservations, r.error.key)
                && r.error.available == r.error.observed - r.error.reserved
                && Claim(r.error.key, r.error.requested) in request.claims && r.error.requested > r.error.available
    {
      var i := 0;
      while i < |request.claims|
        invariant 0 <= i <= |request.claims|
        invariant forall j | 0 <= j < i :: Affordable(State(), request.claims[j])
      {
        var claim := request.claims[i];
        assert Affordable(State(), claim) == Affordable(State(), request.claims[i]);
        if claim.key.location !in locationGenerations { return Err(NoGeneration); }
        if claim.key !in observed { return Err(NotObserved); }
        var reserved: U256 := if claim.key in reservedTotals then reservedTotals[claim.key] else 0;
        assert TotalOf(reservedTotals, claim.key) == Held(reservations, claim.key) + ClaimOn([], claim.key);
        if reserved > observed[claim.key] { return Err(ReservationsExceedObserved); }
        var available: U256 := observed[claim.key] - reserved;
        if claim.amount > available {
          return Err(Insufficient(claim.key, claim.amount, observed[claim.key], reserved, available));
        }
        i := i + 1;
      }
      return Ok(());
    }

    /** All or nothing; a successful reservation leaves the totals of its keys within their observed balances,
        so no sum of claims can overflow. */
    method ReserveClaims(request: Request) returns (r: Result<(), InventoryError>)
      requires Valid()
      modifies this
      ensures Valid() && State() == Reserved(old(State()), request)
      ensures r.Ok? <==> CanReserve(old(State()), request)
      ensures r.Ok? ==> forall i | 0 <= i < |request.claims| :: WithinObserved(request.claims[i].key)
      ensures r.Err? ==> reservedTotals == old(reservedTotals)
    {
      if !ValidRequest(request) { return Err(InvalidRequest); }
      if request.operationId in reservations { return Err(OperationExists); }
      r := CheckClaims(request);
      if r.Err? { return; }
      AddClaims(request);
      forall key ensures Held(reservations[request.operationId := Reservation(request, Active)], key)
                      == Held(reservations, key) + ClaimOn(request.claims, key)
      {
        HeldAfterInsert(reservations, request.operationId, Reservation(request, Active), key);
      }
      ReservedKeepsValid(old(State()), request);
      reservations := reservations[request.operationId := Reservation(request, Active)];
      return Ok(());
    }

    // Adds the claims to the running totals; every sum stays within the observed amount.
    method AddClaims(request: Request)
      requires Exact(reservations, []) && CanReserve(State(), request)
      modifies this`reservedTotals
      ensures Exact(reservations, request.claims)
      ensures forall i | 0 <= i < |request.claims| :: WithinObserved(request.claims[i].key)
    {
      var i := 0;
      while i < |request.claims|
        invariant 0 <= i <= |request.claims|
        invariant Exact(reservations, request.claims[..i])
      {
        var claim := request.claims[i];
        NoClaimOn(request.claims[..i], claim.key);
        assert Affordable(State(), request.claims[i]);
        assert TotalOf(reservedTotals, claim.key)
            == Held(reservations, claim.key) + ClaimOn(request.claims[..i], claim.key);
        var reserved := if claim.key in reservedTotals then reservedTotals[claim.key] else 0;
        assert reserved + claim.amount <= observed[claim.key];
        reservedTotals := reservedTotals[claim.key := reserved + claim.amount];
        assert request.claims[..i + 1][..i] == request.claims[..i];
        i := i + 1;
      }
      assert request.claims[..i] == request.claims;
      forall k | 0 <= k < |request.claims| ensures WithinObserved(request.claims[k].key) {
        ClaimOnIs(request.claims, k);
        assert Affordable(State(), request.claims[k]);
      }
    }

    /** Gives back what a reservation held; the subtraction can never underflow. */
    method RemoveReservation(id: string)
      requires Exact(reservations, [])
      modifies this
      ensures Exact(reservations, []) && reservations == old(reservations) - {id}
      ensures observed == old(observed) && locationGenerations == old(locationGenerations)
    {
      if id !in reservations { return; }
      var claims := reservations[id].request.claims;
      ghost var live := reservations - {id};
      forall key ensures Held(reservations, key) == ClaimOn(claims, key) + Held(live, key) {
        HeldSplits(reservations, id, key);
      }
      reservations := reservations - {id};
      assert claims[0..] == claims;
      var i := 0;
      while i < |claims|
        invariant 0 <= i <= |claims|
        invariant observed == old(observed) && locationGenerations == old(locationGenerations)
        invariant reservations == live
        invariant Exact(live, claims[i..])
      {
        var claim := claims[i];
        forall key
          ensures ClaimOn(claims[i..], key)
               == (if claim.key == key then claim.amount else 0) + ClaimOn(claims[i + 1..], key)
        {
          ClaimOnHead(claims, i, key);
        }
        assert TotalOf(reservedTotals, claim.key) == Held(live, claim.key) + ClaimOn(claims[i..], claim.key);
        if claim.key in reservedTotals {
          var left := reservedTotals[claim.key] - claim.amount;
          reservedTotals := if left == 0 then reservedTotals - {claim.key} else reservedTotals[claim.key := left];
        }
        i := i + 1;
      }
    }

    method ReleaseUnsubmitted(id: string) returns (r: Result<(), InventoryError>)
      requires Valid()
      modifies this
      ensures Valid() && State() == Released(old(State()), id)
      ensures r.Ok? <==> CanRelease(old(State()), id)
    {
      if id !in reservations { return Err(UnknownReservation); }
      if !reservations[id].state.Active? { return Err(NotActive); }
      RemoveReservation(id);
      return Ok(());
    }

    method MarkPendingSettlement(id: string) returns (r: Result<(), InventoryError>)
      requires Valid()
      modifies this`reservations
      ensures Valid() && State() == Marked(old(State()), id)
      ensures r.Ok? <==> CanMark(old(State()), id)
    {
      if id !in reservations { return Err(UnknownReservation); }
      var reservation := reservations[id];
      if !reservation.state.Active? { return Err(NotActive); }
      var barriers: map<Location, U64> := map[];
      var rest := reservation.request.settlement;
      while rest != {}
        invariant rest <= reservation.request.settlement
        invariant barriers.Keys == reservation.request.settlement - rest
        invariant forall l | l in barriers :: l in locationGenerations && barriers[l] == locationGenerations[l]
        decreases rest
      {
        var location :| location in rest;
        if location !in locationGenerations { return Err(SettlementWithoutGeneration); }
        barriers := barriers[location := locationGenerations[location]];
        rest := rest - {location};
      }
      MarkedKeepsValid(State(), id);
      forall key ensures Held(reservations[id := reservation.(state := PendingSettlement(barriers))], key)
                      == Held(reservations, key)
      {
        HeldIgnoresState(reservations, id, PendingSettlement(barriers), key);
      }
      assert barriers == Marked(State(), id).reservations[id].state.barriers;
      reservations := reservations[id := reservation.(state := PendingSettlement(barriers))];
      return Ok(());
    }

    /** Drops every pending reservation whose settlement locations have all advanced. */
    method ReleaseReconciled()
      requires Exact(reservations, [])
      modifies this
      ensures Exact(reservations, []) && reservations == Unsettled(old(reservations), locationGenerations)
      ensures observed == old(observed) && locationGenerations == old(locationGenerations)
    {
      var reconciled := set id | id in reservations && Settled(reservations[id], locationGenerations);
      var rest := reconciled;
      while rest != {}
        invariant rest <= reconciled
        invariant observed == old(observed) && locationGenerations == old(locationGenerations)
        invariant reservations == old(reservations) - (reconciled - rest)
        invariant Exact(reservations, [])
        decreases rest
      {
        var id :| id in rest;
        RemoveReservation(id);
        rest := rest - {id};
      }
    }

    method BuildSnapshot(location: Location, balances: seq<Balance>) returns (r: Result<map<Key, U256>, InventoryError>)
      ensures r.Ok? <==> UsableBalances(balances)
      ensures r.Ok? ==> r.value == Snapshot(location, balances)
    {
      var built: map<Key, U256> := map[];
      var i := 0;
      while i < |balances|
        invariant 0 <= i <= |balances|
        invariant built == Snapshot(location, balances[..i])
        invariant i > 0 ==> built != map[]
        invariant forall j | 0 <= j < i :: ValidId(balances[j].assetId, 160)
        invariant forall j, k | 0 <= j < k < i :: balances[j].assetId != balances[k].assetId
      {
        var balance := balances[i];
        SnapshotHas(location, balances[..i], balance.assetId);
        if !ValidId(balance.assetId, 160) { return Err(InvalidAsset); }
        if Key(location, balance.assetId) in built { return Err(DuplicateAsset); }
        assert forall j | 0 <= j < i :: balances[..i][j] == balances[j];
        built := built[Key(location, balance.assetId) := balance.amount];
        assert balances[..i + 1][..i] == balances[..i];
        i := i + 1;
      }
      assert balances[..i] == balances;
      if built == map[] { return Err(EmptySnapshot); }
      return Ok(built);
    }

    method UpdateLocation(location: Location, generation: U64, balances: seq<Balance>)
      returns (r: Result<bool, InventoryError>)
      requires Valid()
      modifies this
      ensures Valid() && State() == UpdatedLocation(old(State()), location, generation, balances)
      ensures r == Ok(true) ==> locationGenerations == old(locationGenerations)[location := generation]
      ensures r != Ok(true) ==> State() == old(State())
    {
      if generation == 0 { return Err(ZeroGeneration); }
      if location in locationGenerations && generation <= locationGenerations[location] { return Ok(false); }
      var replacement := BuildSnapshot(location, balances);
      if replacement.Err? { return Err(replacement.error); }
      AdvancedKeepsValid(State(), location, generation, WithoutLocation(observed, location) + replacement.value);
      observed := (map k | k in observed && k.location != location :: observed[k]) + replacement.value;
      locationGenerations := locationGenerations[location := generation];
      ReleaseReconciled();
      return Ok(true);
    }

    method UpdateLocationAssets(location: Location, generation: U64, balances: seq<Balance>)
      returns (r: Result<bool, InventoryError>)
      requires Valid()
      modifies this
      ensures Valid() && State() == UpdatedAssets(old(State()), location, generation, balances)
      ensures r == Ok(true) ==> locationGenerations == old(locationGenerations)[location := generation]
      ensures r != Ok(true) ==> State() == old(State())
    {
      if generation == 0 { return Err(ZeroGeneration); }
      if location !in locationGenerations { return Err(NoCompleteSnapshot); }
      if generation <= locationGenerations[location] { return Ok(false); }
      var updates := BuildSnapshot(location, balances);
      if updates.Err? { return Err(updates.error); }
      AdvancedKeepsValid(State(), location, generation, observed + updates.value);
      observed := observed + updates.value;
      locationGenerations := locationGenerations[location := generation];
      ReleaseReconciled();
      return Ok(true);
    }
  }
}
