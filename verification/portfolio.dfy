/** The capital allocator: an audit of observed and reserved balances per economic asset, and a planner
    that never overspends a source and never loses value. */
module Portfolio {
  import opened Machine
  import opened Inventory

  datatype Mode = Disabled | Shadow | FullLive

  datatype TokenCap = TokenCap(economicAsset: string, maximumDebit: U256, maximumFee: U256)

  datatype NetworkPolicy = NetworkPolicy(networkId: string, tokens: seq<TokenCap>)

  datatype CapitalPolicy = CapitalPolicy(
    externalMutationAuthorized: bool, maximumConcurrentTransfers: nat, directRouteOnly: bool,
    bridgeMutationsEnabled: bool, networkId: string, directNetworks: seq<NetworkPolicy>,
    tokenA: TokenCap, tokenB: TokenCap, additionalTokens: seq<TokenCap>)

  datatype Transfer = Transfer(
    economicAsset: string, source: Key, destination: Key, debit: U256, credit: U256, fee: U256)

  datatype Intent = Intent(
    proposalId: string, economicAsset: string, source: Key, destination: Key, credit: U256, fee: U256)

  datatype Proposal = Proposal(proposalId: string, transfer: Transfer, authorized: bool)

  datatype Balances = Balances(observed: map<Key, U256>, reserved: map<Key, U256>)

  datatype Audit = Audit(
    observed: map<string, U256>, available: map<string, U256>, reserved: map<string, U256>, locationAssets: nat)

  datatype AllocatorError =
    | Unmapped | AssetTotalOverflow | ReservedExceedsObserved | ReservedUnobserved
    | CrossesAssets | NotConserved | NoPolicy | PolicyRefused | TooManyTransfers
    | CapExceeded | SourceUnobserved | Overspend | AmountOverflow

  type Catalog = map<Key, string>

  function Amount(m: map<Key, U256>, key: Key): nat { if key in m then m[key] else 0 }

  function TotalIn(m: map<string, U256>, asset: string): nat { if asset in m then m[asset] else 0 }

  // ---------------------------------------------------------------- sums per economic asset

  function Share(catalog: Catalog, amounts: map<Key, U256>, asset: string, key: Key): nat {
    if key in catalog && catalog[key] == asset then Amount(amounts, key) else 0
  }

  ghost function AssetSum(keys: set<Key>, catalog: Catalog, amounts: map<Key, U256>, asset: string): nat {
    if keys == {} then 0 else
      var key :| key in keys;
      Share(catalog, amounts, asset, key) + AssetSum(keys - {key}, catalog, amounts, asset)
  }

  lemma {:induction false} AssetSumSplits(keys: set<Key>, catalog: Catalog, amounts: map<Key, U256>, asset: string,
                                          key: Key)
    requires key in keys
    ensures AssetSum(keys, catalog, amounts, asset)
         == Share(catalog, amounts, asset, key) + AssetSum(keys - {key}, catalog, amounts, asset)
  {
    var pick :| pick in keys && AssetSum(keys, catalog, amounts, asset)
                == Share(catalog, amounts, asset, pick) + AssetSum(keys - {pick}, catalog, amounts, asset);
    if pick != key {
      AssetSumSplits(keys - {pick}, catalog, amounts, asset, key);
      AssetSumSplits(keys - {key}, catalog, amounts, asset, pick);
      assert keys - {pick} - {key} == keys - {key} - {pick};
    }
  }

  lemma {:induction false} AssetSumOfPart(part: set<Key>, keys: set<Key>, catalog: Catalog, amounts: map<Key, U256>,
                                          asset: string)
    requires part <= keys
    ensures AssetSum(part, catalog, amounts, asset) <= AssetSum(keys, catalog, amounts, asset)
  {
    if key :| key in keys && key !in part {
      AssetSumSplits(keys, catalog, amounts, asset, key);
      AssetSumOfPart(part, keys - {key}, catalog, amounts, asset);
    } else {
      assert part == keys;
    }
  }

  // Reserved never exceeds observed per asset when it does not per key: the audit's subtraction is safe.
  lemma {:induction false} ReservedFits(keys: set<Key>, catalog: Catalog, b: Balances, asset: string)
    requires forall key | key in keys :: Amount(b.reserved, key) <= Amount(b.observed, key)
    ensures AssetSum(keys, catalog, b.reserved, asset) <= AssetSum(keys, catalog, b.observed, asset)
  {
    if keys != {} {
      var key :| key in keys;
      AssetSumSplits(keys, catalog, b.reserved, asset, key);
      AssetSumSplits(keys, catalog, b.observed, asset, key);
      ReservedFits(keys - {key}, catalog, b, asset);
    }
  }

  // ---------------------------------------------------------------- the audit

  predicate Reviewed(catalog: Catalog, b: Balances) {
    && (forall key | key in b.observed :: key in catalog && Amount(b.reserved, key) <= b.observed[key])
    && b.reserved.Keys <= b.observed.Keys
  }

  ghost predicate Auditable(catalog: Catalog, b: Balances) {
    && Reviewed(catalog, b)
    && forall asset: string :: AssetSum(b.observed.Keys, catalog, b.observed, asset) < TWO_256
  }

  // Running totals of the keys visited so far.
  ghost predicate Tallied(totals: map<string, U256>, done: set<Key>, catalog: Catalog, amounts: map<Key, U256>) {
    && (forall asset: string :: TotalIn(totals, asset) == AssetSum(done, catalog, amounts, asset))
    && forall asset: string :: asset in totals <==> exists key | key in done :: key in catalog && catalog[key] == asset
  }

  method AddAmount(totals: map<string, U256>, asset: string, amount: U256)
    returns (r: Result<map<string, U256>, AllocatorError>)
    ensures r.Ok? <==> TotalIn(totals, asset) + amount < TWO_256
    ensures r.Ok? ==> r.value == totals[asset := TotalIn(totals, asset) + amount]
  {
    var total: int := if asset in totals then totals[asset] else 0;
    if total + amount >= TWO_256 { return Err(AssetTotalOverflow); }
    return Ok(totals[asset := total + amount]);
  }

  lemma TallyStep(totals: map<string, U256>, done: set<Key>, catalog: Catalog, amounts: map<Key, U256>, key: Key)
    requires Tallied(totals, done, catalog, amounts) && key !in done && key in catalog
    requires TotalIn(totals, catalog[key]) + Amount(amounts, key) < TWO_256
    ensures Tallied(totals[catalog[key] := TotalIn(totals, catalog[key]) + Amount(amounts, key)],
                    done + {key}, catalog, amounts)
  {
    var next := totals[catalog[key] := TotalIn(totals, catalog[key]) + Amount(amounts, key)];
    forall asset: string
      ensures TotalIn(next, asset) == AssetSum(done + {key}, catalog, amounts, asset)
    {
      AssetSumSplits(done + {key}, catalog, amounts, asset, key);
      assert done + {key} - {key} == done;
      assert TotalIn(totals, asset) == AssetSum(done, catalog, amounts, asset);
    }
    forall asset: string
      ensures asset in next <==> exists k | k in done + {key} :: k in catalog && catalog[k] == asset
    {
      assert asset in totals <==> exists k | k in done :: k in catalog && catalog[k] == asset;
      if asset == catalog[key] { assert key in done + {key}; }
      if k :| k in done && k in catalog && catalog[k] == asset { assert k in done + {key}; }
    }
  }

  // Adds one location asset to both running totals, or shows that the balances cannot be audited. The
  // reserved total cannot overflow because the observed one did not.
  method TallyKey(catalog: Catalog, b: Balances, ghost done: set<Key>, key: Key,
                  observed: map<string, U256>, reserved: map<string, U256>)
    returns (r: Result<(map<string, U256>, map<string, U256>), AllocatorError>)
    requires done <= b.observed.Keys && key in b.observed && key !in done
    requires Tallied(observed, done, catalog, b.observed) && Tallied(reserved, done, catalog, b.reserved)
    requires forall k | k in done :: k in catalog && Amount(b.reserved, k) <= b.observed[k]
    ensures r.Ok? ==>
              && key in catalog && Amount(b.reserved, key) <= b.observed[key]
              && Tallied(r.value.0, done + {key}, catalog, b.observed)
              && Tallied(r.value.1, done + {key}, catalog, b.reserved)
    ensures r.Err? ==> !Auditable(catalog, b)
  {
    if key !in catalog { return Err(Unmapped); }
    var asset := catalog[key];
    SumsAfter(catalog, b, done, key, asset);
    assert TotalIn(observed, asset) == AssetSum(done, catalog, b.observed, asset);
    assert TotalIn(reserved, asset) == AssetSum(done, catalog, b.reserved, asset);
    var added := AddAmount(observed, asset, b.observed[key]);
    if added.Err? { return Err(AssetTotalOverflow); }
    var held: U256 := if key in b.reserved then b.reserved[key] else 0;
    if held > b.observed[key] { return Err(ReservedExceedsObserved); }
    ReservedFits(done + {key}, catalog, b, asset);
    var addedReserved := AddAmount(reserved, asset, held);
    TallyStep(observed, done, catalog, b.observed, key);
    TallyStep(reserved, done, catalog, b.reserved, key);
    return Ok((added.value, addedReserved.value));
  }

  lemma SumsAfter(catalog: Catalog, b: Balances, done: set<Key>, key: Key, asset: string)
    requires done <= b.observed.Keys && key in b.observed && key !in done && key in catalog && catalog[key] == asset
    ensures AssetSum(done, catalog, b.observed, asset) + b.observed[key]
         == AssetSum(done + {key}, catalog, b.observed, asset) <= AssetSum(b.observed.Keys, catalog, b.observed, asset)
    ensures AssetSum(done, catalog, b.reserved, asset) + Amount(b.reserved, key)
         == AssetSum(done + {key}, catalog, b.reserved, asset)
  {
    AssetSumOfPart(done + {key}, b.observed.Keys, catalog, b.observed, asset);
    AssetSumSplits(done + {key}, catalog, b.observed, asset, key);
    AssetSumSplits(done + {key}, catalog, b.reserved, asset, key);
    assert done + {key} - {key} == done;
  }

  /** The audit succeeds exactly on auditable balances; its totals are the sums over all location assets,
      and the subtraction that gives the available total never fails. */
  method AuditSnapshot(catalog: Catalog, b: Balances) returns (r: Result<Audit, AllocatorError>)
    ensures r.Ok? <==> Auditable(catalog, b)
    ensures r.Ok? ==> forall asset: string ::
              && TotalIn(r.value.observed, asset) == AssetSum(b.observed.Keys, catalog, b.observed, asset)
              && TotalIn(r.value.reserved, asset) == AssetSum(b.observed.Keys, catalog, b.reserved, asset)
              && TotalIn(r.value.available, asset)
              == TotalIn(r.value.observed, asset) - TotalIn(r.value.reserved, asset)
    ensures r.Ok? ==> r.value.locationAssets == |b.observed|
  {
    var observed: map<string, U256>, reserved: map<string, U256> := map[], map[];
    ghost var done: set<Key> := {};
    var rest := b.observed.Keys;
    while rest != {}
      invariant rest <= b.observed.Keys && done == b.observed.Keys - rest
      invariant Tallied(observed, done, catalog, b.observed) && Tallied(reserved, done, catalog, b.reserved)
      invariant forall key | key in done :: key in catalog && Amount(b.reserved, key) <= b.observed[key]
      decreases rest
    {
      var key :| key in rest;
      var tallied := TallyKey(catalog, b, done, key, observed, reserved);
      if tallied.Err? { return Err(tallied.error); }
      observed, reserved := tallied.value.0, tallied.value.1;
      rest, done := rest - {key}, done + {key};
    }
    assert done == b.observed.Keys;
    if exists key | key in b.reserved :: key !in b.observed { return Err(ReservedUnobserved); }
    var available := Subtract(catalog, b, observed, reserved);
    assert forall asset: string :: AssetSum(done, catalog, b.observed, asset) == TotalIn(observed, asset) < TWO_256;
    return Ok(Audit(observed, available, reserved, |b.observed|));
  }

  method Subtract(catalog: Catalog, b: Balances, observed: map<string, U256>, reserved: map<string, U256>)
    returns (available: map<string, U256>)
    requires Reviewed(catalog, b)
    requires Tallied(observed, b.observed.Keys, catalog, b.observed)
    requires Tallied(reserved, b.observed.Keys, catalog, b.reserved)
    ensures forall asset: string :: TotalIn(available, asset) == TotalIn(observed, asset) - TotalIn(reserved, asset)
  {
    forall asset: string
      ensures TotalIn(reserved, asset) <= TotalIn(observed, asset)
      ensures asset !in observed ==> TotalIn(reserved, asset) == 0
    {
      assert TotalIn(observed, asset) == AssetSum(b.observed.Keys, catalog, b.observed, asset);
      assert TotalIn(reserved, asset) == AssetSum(b.observed.Keys, catalog, b.reserved, asset);
      ReservedFits(b.observed.Keys, catalog, b, asset);
    }
    available := map asset | asset in observed :: observed[asset] - (if asset in reserved then reserved[asset] else 0);
  }

  // ---------------------------------------------------------------- transfers and policy

  predicate Conserves(t: Transfer) { t.credit + t.fee == t.debit }

  // Distinct endpoints of one reviewed economic asset, and every unit debited is credited or paid as fee.
  predicate ValidTransfer(catalog: Catalog, t: Transfer) {
    && t.source != t.destination
    && t.source in catalog && t.destination in catalog
    && catalog[t.source] == t.economicAsset == catalog[t.destination]
    && Conserves(t)
  }

  function DirectNetwork(source: Location, destination: Location): Option<string> {
    match (source, destination)
    case (BinanceAccount(_), EvmWallet(network, _)) => Some(network)
    case (EvmWallet(network, _), BinanceAccount(_)) => Some(network)
    case _ => None
  }

  function FindNetwork(networks: seq<NetworkPolicy>, networkId: string): Option<NetworkPolicy> {
    if networks == [] then None
    else if networks[0].networkId == networkId then Some(networks[0])
    else FindNetwork(networks[1..], networkId)
  }

  function FindToken(tokens: seq<TokenCap>, asset: string): Option<TokenCap> {
    if tokens == [] then None
    else if tokens[0].economicAsset == asset then Some(tokens[0])
    else FindToken(tokens[1..], asset)
  }

  // The cap that applies to an asset on the route's network, if the policy approves it there.
  function CapFor(p: CapitalPolicy, networkId: string, asset: string): Option<TokenCap> {
    var network := FindNetwork(p.directNetworks, networkId);
    if network.Some? then FindToken(network.value.tokens, asset)
    else if p.directNetworks != [] then None
    else if asset == p.tokenA.economicAsset then Some(p.tokenA)
    else if asset == p.tokenB.economicAsset then Some(p.tokenB)
    else FindToken(p.additionalTokens, asset)
  }

  predicate PolicyApproves(p: CapitalPolicy, t: Transfer) {
    var network := DirectNetwork(t.source.location, t.destination.location);
    && network.Some?
    && var cap := CapFor(p, network.value, t.economicAsset);
    && cap.Some? && t.debit <= cap.value.maximumDebit && t.fee <= cap.value.maximumFee
    && (FindNetwork(p.directNetworks, network.value).Some? || (p.directNetworks == [] && network.value == p.networkId))
  }

  predicate LivePolicy(p: CapitalPolicy) {
    && p.externalMutationAuthorized && p.maximumConcurrentTransfers == 1
    && p.directRouteOnly != p.bridgeMutationsEnabled
  }

  // The transfer an intent asks for. An amount that does not fit is never admissible.
  function TransferOf(i: Intent): Transfer {
    Transfer(i.economicAsset, i.source, i.destination,
             if i.credit + i.fee < TWO_256 then i.credit + i.fee else 0, i.credit, i.fee)
  }

  // ---------------------------------------------------------------- debits per source

  function DebitAt(transfers: seq<Transfer>, key: Key): nat {
    if transfers == [] then 0 else
      var last := transfers[|transfers| - 1];
      DebitAt(transfers[..|transfers| - 1], key) + if last.source == key then last.debit else 0
  }

  lemma DebitAfter(transfers: seq<Transfer>, t: Transfer, key: Key)
    ensures DebitAt(transfers + [t], key) == DebitAt(transfers, key) + if t.source == key then t.debit else 0
  {
  }

  lemma {:induction false} DebitOfPrefix(transfers: seq<Transfer>, n: nat, key: Key)
    requires n <= |transfers|
    ensures DebitAt(transfers[..n], key) <= DebitAt(transfers, key)
  {
    if n < |transfers| {
      DebitOfPrefix(transfers[..|transfers| - 1], n, key);
      assert transfers[..|transfers| - 1][..n] == transfers[..n];
    } else {
      assert transfers[..n] == transfers;
    }
  }

  predicate Covers(b: Balances, key: Key, debit: nat) {
    key in b.observed && Amount(b.reserved, key) + debit <= b.observed[key]
  }

  // What every source of these transfers gives up fits in what is observed there and not reserved.
  predicate WithinBalances(b: Balances, transfers: seq<Transfer>) {
    forall i | 0 <= i < |transfers| :: Covers(b, transfers[i].source, DebitAt(transfers, transfers[i].source))
  }

  function Transfers(proposals: seq<Proposal>): seq<Transfer> {
    seq(|proposals|, i requires 0 <= i < |proposals| => proposals[i].transfer)
  }

  // ---------------------------------------------------------------- the plan

  predicate IntentAdmissible(catalog: Catalog, policy: Option<CapitalPolicy>, i: Intent) {
    && i.credit + i.fee < TWO_256 && ValidTransfer(catalog, TransferOf(i))
    && (policy.Some? ==> PolicyApproves(policy.value, TransferOf(i)))
  }

  predicate Proposes(mode: Mode, i: Intent, p: Proposal) {
    && p.proposalId == i.proposalId && (p.authorized <==> mode.FullLive?)
    && p.transfer.economicAsset == i.economicAsset
    && p.transfer.source == i.source && p.transfer.destination == i.destination
    && p.transfer.credit == i.credit && p.transfer.fee == i.fee && p.transfer.debit == i.credit + i.fee
  }

  predicate ModeAllows(mode: Mode, policy: Option<CapitalPolicy>, inFlight: seq<Transfer>) {
    mode.FullLive? ==> policy.Some? && LivePolicy(policy.value) && inFlight == []
  }

  function Sources(transfers: seq<Transfer>): set<Key> { set t | t in transfers :: t.source }

  lemma SourcesAfter(transfers: seq<Transfer>, t: Transfer)
    ensures Sources(transfers + [t]) == Sources(transfers) + {t.source}
  {
  }

  // Running debits per source.
  ghost predicate Tracked(debits: map<Key, U256>, transfers: seq<Transfer>) {
    debits.Keys == Sources(transfers) && forall key :: Amount(debits, key) == DebitAt(transfers, key)
  }

  lemma TrackStep(debits: map<Key, U256>, transfers: seq<Transfer>, t: Transfer)
    requires Tracked(debits, transfers) && Amount(debits, t.source) + t.debit < TWO_256
    ensures Tracked(debits[t.source := Amount(debits, t.source) + t.debit], transfers + [t])
  {
    SourcesAfter(transfers, t);
    var next, all := debits[t.source := Amount(debits, t.source) + t.debit], transfers + [t];
    forall key ensures Amount(next, key) == DebitAt(all, key) {
      DebitAfter(transfers, t, key);
    }
  }

  method AddKeyAmount(debits: map<Key, U256>, key: Key, amount: U256)
    returns (r: Result<map<Key, U256>, AllocatorError>)
    ensures r.Ok? <==> Amount(debits, key) + amount < TWO_256
    ensures r.Ok? ==> r.value == debits[key := Amount(debits, key) + amount]
  {
    var total: int := if key in debits then debits[key] else 0;
    if total + amount >= TWO_256 { return Err(AmountOverflow); }
    return Ok(debits[key := total + amount]);
  }

  method SnapshotAvailable(b: Balances, key: Key) returns (r: Result<U256, AllocatorError>)
    ensures r.Ok? <==> Covers(b, key, 0)
    ensures r.Ok? ==> r.value == b.observed[key] - Amount(b.reserved, key)
  {
    if key !in b.observed { return Err(SourceUnobserved); }
    var held: U256 := if key in b.reserved then b.reserved[key] else 0;
    if held > b.observed[key] { return Err(ReservedExceedsObserved); }
    return Ok(b.observed[key] - held);
  }

  method SumDebits(b: Balances, inFlight: seq<Transfer>) returns (r: Result<map<Key, U256>, AllocatorError>)
    ensures r.Err? ==> !WithinBalances(b, inFlight)
    ensures r.Ok? ==> Tracked(r.value, inFlight)
  {
    var debits: map<Key, U256> := map[];
    var i := 0;
    while i < |inFlight|
      invariant 0 <= i <= |inFlight|
      invariant Tracked(debits, inFlight[..i])
    {
      var t := inFlight[i];
      PrefixOneMore(inFlight, i);
      assert Amount(debits, t.source) == DebitAt(inFlight[..i], t.source);
      var added := AddKeyAmount(debits, t.source, t.debit);
      if added.Err? {
        DebitAfter(inFlight[..i], t, t.source);
        PrefixOverspends(b, inFlight, i + 1);
        return Err(added.error);
      }
      TrackStep(debits, inFlight[..i], t);
      debits := added.value;
      i := i + 1;
    }
    assert inFlight[..i] == inFlight;
    return Ok(debits);
  }

  method CheckDebits(b: Balances, ghost inFlight: seq<Transfer>, debits: map<Key, U256>) returns (ok: bool)
    requires Tracked(debits, inFlight)
    ensures ok <==> WithinBalances(b, inFlight)
  {
    var rest := debits.Keys;
    while rest != {}
      invariant rest <= debits.Keys
      invariant forall key | key in debits && key !in rest :: Covers(b, key, DebitAt(inFlight, key))
      decreases rest
    {
      var key :| key in rest;
      assert Amount(debits, key) == DebitAt(inFlight, key);
      var available := SnapshotAvailable(b, key);
      if available.Err? || debits[key] > available.value {
        assert key in Sources(inFlight);
        return false;
      }
      rest := rest - {key};
    }
    return true;
  }

  /** Debits of the transfers already under way, refused when they overspend any source. */
  method TrackInFlight(b: Balances, inFlight: seq<Transfer>) returns (r: Result<map<Key, U256>, AllocatorError>)
    ensures r.Ok? <==> WithinBalances(b, inFlight)
    ensures r.Ok? ==> Tracked(r.value, inFlight)
  {
    r := SumDebits(b, inFlight);
    if r.Ok? {
      var ok := CheckDebits(b, inFlight, r.value);
      if !ok { return Err(Overspend); }
    }
  }

  function IntentTransfers(intents: seq<Intent>): (ts: seq<Transfer>)
    ensures |ts| == |intents| && forall i | 0 <= i < |ts| :: ts[i] == TransferOf(intents[i])
  {
    seq(|intents|, i requires 0 <= i < |intents| => TransferOf(intents[i]))
  }

  predicate AllAdmissible(catalog: Catalog, policy: Option<CapitalPolicy>, intents: seq<Intent>) {
    forall i | 0 <= i < |intents| :: IntentAdmissible(catalog, policy, intents[i])
  }

  // One proposal per intent, in order, authorized exactly in live mode.
  predicate ProposesAll(mode: Mode, intents: seq<Intent>, proposals: seq<Proposal>) {
    |proposals| == |intents| && forall i | 0 <= i < |intents| :: Proposes(mode, intents[i], proposals[i])
  }

  lemma TransfersOneMore(inFlight: seq<Transfer>, done: seq<Intent>, intent: Intent)
    ensures inFlight + IntentTransfers(done + [intent]) == inFlight + IntentTransfers(done) + [TransferOf(intent)]
  {
  }

  lemma AdmissibleOneMore(catalog: Catalog, policy: Option<CapitalPolicy>, done: seq<Intent>, intent: Intent)
    requires AllAdmissible(catalog, policy, done) && IntentAdmissible(catalog, policy, intent)
    ensures AllAdmissible(catalog, policy, done + [intent])
  {
  }

  lemma ProposesOneMore(mode: Mode, done: seq<Intent>, proposals: seq<Proposal>, intent: Intent, proposal: Proposal)
    requires ProposesAll(mode, done, proposals) && Proposes(mode, intent, proposal)
    ensures ProposesAll(mode, done + [intent], proposals + [proposal])
  {
  }

  /** The planner's state after `done` intents. */
  ghost predicate PlannedSoFar(mode: Mode, catalog: Catalog, policy: Option<CapitalPolicy>, b: Balances,
                               inFlight: seq<Transfer>, done: seq<Intent>, proposals: seq<Proposal>,
                               debits: map<Key, U256>)
  {
    && AllAdmissible(catalog, policy, done) && ProposesAll(mode, done, proposals)
    && Tracked(debits, inFlight + IntentTransfers(done)) && WithinBalances(b, inFlight + IntentTransfers(done))
  }

  lemma PlannedOneMore(mode: Mode, catalog: Catalog, policy: Option<CapitalPolicy>, b: Balances,
                       inFlight: seq<Transfer>, done: seq<Intent>, proposals: seq<Proposal>, debits: map<Key, U256>,
                       intent: Intent, proposal: Proposal, next: map<Key, U256>)
    requires PlannedSoFar(mode, catalog, policy, b, inFlight, done, proposals, debits)
    requires IntentAdmissible(catalog, policy, intent) && Proposes(mode, intent, proposal)
    requires Tracked(next, inFlight + IntentTransfers(done) + [TransferOf(intent)])
    requires WithinBalances(b, inFlight + IntentTransfers(done) + [TransferOf(intent)])
    ensures PlannedSoFar(mode, catalog, policy, b, inFlight, done + [intent], proposals + [proposal], next)
  {
    TransfersOneMore(inFlight, done, intent);
    AdmissibleOneMore(catalog, policy, done, intent);
    ProposesOneMore(mode, done, proposals, intent, proposal);
  }

  /** When a plan is accepted, said without reference to the order in which anything is checked. */
  ghost predicate PlanAccepted(mode: Mode, catalog: Catalog, policy: Option<CapitalPolicy>, b: Balances,
                               inFlight: seq<Transfer>, intents: seq<Intent>)
  {
    && Auditable(catalog, b)
    && (forall i | 0 <= i < |inFlight| :: ValidTransfer(catalog, inFlight[i]))
    && (mode.Disabled? ||
        (&& ModeAllows(mode, policy, inFlight) && WithinBalances(b, inFlight)
         && AllAdmissible(catalog, policy, intents)
         && WithinBalances(b, inFlight + IntentTransfers(intents))))
  }

  lemma WithinAfter(b: Balances, transfers: seq<Transfer>, t: Transfer)
    requires WithinBalances(b, transfers) && Covers(b, t.source, DebitAt(transfers + [t], t.source))
    ensures WithinBalances(b, transfers + [t])
  {
  }

  // A prefix that overspends a source condemns the whole list.
  lemma PrefixOverspends(b: Balances, transfers: seq<Transfer>, n: nat)
    requires 0 < n <= |transfers|
    requires !Covers(b, transfers[n - 1].source, DebitAt(transfers[..n], transfers[n - 1].source))
    ensures !WithinBalances(b, transfers)
  {
    DebitOfPrefix(transfers, n, transfers[n - 1].source);
    assert !Covers(b, transfers[n - 1].source, DebitAt(transfers, transfers[n - 1].source));
  }

  method ValidateInFlight(catalog: Catalog, inFlight: seq<Transfer>) returns (ok: bool)
    ensures ok <==> forall i | 0 <= i < |inFlight| :: ValidTransfer(catalog, inFlight[i])
  {
    var i := 0;
    while i < |inFlight|
      invariant 0 <= i <= |inFlight|
      invariant forall j | 0 <= j < i :: ValidTransfer(catalog, inFlight[j])
    {
      if !ValidTransfer(catalog, inFlight[i]) { return false; }
      i := i + 1;
    }
    return true;
  }

  // One more debit at a source, refused exactly when the source cannot cover all of its debits.
  method DebitSource(b: Balances, ghost all: seq<Transfer>, t: Transfer, debits: map<Key, U256>)
    returns (r: Result<map<Key, U256>, AllocatorError>)
    requires Tracked(debits, all) && WithinBalances(b, all)
    ensures r.Ok? <==> Covers(b, t.source, DebitAt(all + [t], t.source))
    ensures r.Ok? ==> Tracked(r.value, all + [t]) && WithinBalances(b, all + [t])
  {
    assert Amount(debits, t.source) == DebitAt(all, t.source);
    DebitAfter(all, t, t.source);
    var added := AddKeyAmount(debits, t.source, t.debit);
    if added.Err? { return Err(AmountOverflow); }
    var available := SnapshotAvailable(b, t.source);
    if available.Err? { return Err(available.error); }
    if added.value[t.source] > available.value { return Err(Overspend); }
    TrackStep(debits, all, t);
    WithinAfter(b, all, t);
    return Ok(added.value);
  }

  // One intent against the debits so far.
  method ProposeOne(mode: Mode, catalog: Catalog, policy: Option<CapitalPolicy>, b: Balances,
                    ghost all: seq<Transfer>, intent: Intent, debits: map<Key, U256>)
    returns (r: Result<(Proposal, map<Key, U256>), AllocatorError>)
    requires Tracked(debits, all) && WithinBalances(b, all)
    ensures var t := TransferOf(intent);
            && (r.Ok? <==>
                  IntentAdmissible(catalog, policy, intent) && Covers(b, t.source, DebitAt(all + [t], t.source)))
            && (r.Ok? ==> && Proposes(mode, intent, r.value.0)
                          && Tracked(r.value.1, all + [t]) && WithinBalances(b, all + [t]))
  {
    if intent.credit + intent.fee >= TWO_256 { return Err(AmountOverflow); }
    var t := TransferOf(intent);
    if !ValidTransfer(catalog, t) { return Err(CrossesAssets); }
    if policy.Some? && !PolicyApproves(policy.value, t) { return Err(CapExceeded); }
    var debited := DebitSource(b, all, t, debits);
    if debited.Err? { return Err(debited.error); }
    return Ok((Proposal(intent.proposalId, t, mode.FullLive?), debited.value));
  }

  method ProposeAll(mode: Mode, catalog: Catalog, policy: Option<CapitalPolicy>, b: Balances,
                    inFlight: seq<Transfer>, intents: seq<Intent>, tracked: map<Key, U256>)
    returns (r: Result<seq<Proposal>, AllocatorError>)
    requires Tracked(tracked, inFlight) && WithinBalances(b, inFlight)
    ensures r.Ok? <==> AllAdmissible(catalog, policy, intents) && WithinBalances(b, inFlight + IntentTransfers(intents))
    ensures r.Ok? ==> ProposesAll(mode, intents, r.value)
  {
    var debits, proposals, i := tracked, [], 0;
    assert inFlight + IntentTransfers([]) == inFlight;
    while i < |intents|
      invariant 0 <= i <= |intents|
      invariant PlannedSoFar(mode, catalog, policy, b, inFlight, intents[..i], proposals, debits)
    {
      var one := ProposeOne(mode, catalog, policy, b, inFlight + IntentTransfers(intents[..i]), intents[i], debits);
      if one.Err? {
        OverspendIsFinal(catalog, policy, b, inFlight, intents, i);
        return Err(one.error);
      }
      PlannedOneMore(mode, catalog, policy, b, inFlight, intents[..i], proposals, debits,
                     intents[i], one.value.0, one.value.1);
      PrefixOneMore(intents, i);
      proposals, debits := proposals + [one.value.0], one.value.1;
      i := i + 1;
    }
    assert intents[..i] == intents;
    return Ok(proposals);
  }

  lemma OverspendIsFinal(catalog: Catalog, policy: Option<CapitalPolicy>, b: Balances, inFlight: seq<Transfer>,
                         intents: seq<Intent>, i: nat)
    requires i < |intents|
    requires var t := TransferOf(intents[i]);
             || !IntentAdmissible(catalog, policy, intents[i])
             || !Covers(b, t.source, DebitAt(inFlight + IntentTransfers(intents[..i]) + [t], t.source))
    ensures !(AllAdmissible(catalog, policy, intents) && WithinBalances(b, inFlight + IntentTransfers(intents)))
  {
    if IntentAdmissible(catalog, policy, intents[i]) {
      var whole, n := inFlight + IntentTransfers(intents), |inFlight| + i + 1;
      assert whole[..n] == inFlight + IntentTransfers(intents[..i]) + [TransferOf(intents[i])];
      PrefixOverspends(b, whole, n);
    }
  }

  /** Plans exactly the acceptable requests: one proposal per intent, in order, authorized only in live
      mode, with every source's transfers under way and proposed inside its unreserved balance. */
  method PlanSnapshot(mode: Mode, catalog: Catalog, policy: Option<CapitalPolicy>, b: Balances,
                      inFlight: seq<Transfer>, intents: seq<Intent>)
    returns (r: Result<seq<Proposal>, AllocatorError>)
    ensures r.Ok? <==> PlanAccepted(mode, catalog, policy, b, inFlight, intents)
    ensures r.Ok? && mode.Disabled? ==> r.value == []
    ensures r.Ok? && !mode.Disabled? ==>
              && ProposesAll(mode, intents, r.value)
              && WithinBalances(b, inFlight + Transfers(r.value))
              && forall i | 0 <= i < |r.value| :: ValidTransfer(catalog, r.value[i].transfer)
  {
    var audited := AuditSnapshot(catalog, b);
    if audited.Err? { return Err(audited.error); }
    var valid := ValidateInFlight(catalog, inFlight);
    if !valid { return Err(NotConserved); }
    if mode.Disabled? { return Ok([]); }
    if mode.FullLive? {
      if policy.None? { return Err(NoPolicy); }
      if !LivePolicy(policy.value) { return Err(PolicyRefused); }
      if |inFlight| >= policy.value.maximumConcurrentTransfers { return Err(TooManyTransfers); }
    }
    var tracked := TrackInFlight(b, inFlight);
    if tracked.Err? { return Err(tracked.error); }
    r := ProposeAll(mode, catalog, policy, b, inFlight, intents, tracked.value);
    if r.Ok? {
      assert Transfers(r.value) == IntentTransfers(intents);
    }
  }

  // ---------------------------------------------------------------- conservation

  // What the transfers take out of keys that hold an economic asset, put into such keys, and pay as fees in it.
  function Debits(catalog: Catalog, ts: seq<Transfer>, asset: string): nat {
    if ts == [] then 0 else
      var t := ts[|ts| - 1];
      Debits(catalog, ts[..|ts| - 1], asset)
      + if t.source in catalog && catalog[t.source] == asset then t.debit else 0
  }

  function Credits(catalog: Catalog, ts: seq<Transfer>, asset: string): nat {
    if ts == [] then 0 else
      var t := ts[|ts| - 1];
      Credits(catalog, ts[..|ts| - 1], asset)
      + if t.destination in catalog && catalog[t.destination] == asset then t.credit else 0
  }

  function Fees(ts: seq<Transfer>, asset: string): nat {
    if ts == [] then 0 else
      Fees(ts[..|ts| - 1], asset) + if ts[|ts| - 1].economicAsset == asset then ts[|ts| - 1].fee else 0
  }

  /** Per economic asset, what valid transfers take from the keys that hold it is what they put into keys that
      hold it plus what they pay in fees: no transfer turns one asset into another. */
  lemma {:induction false} PlansConserve(catalog: Catalog, ts: seq<Transfer>, asset: string)
    requires forall i | 0 <= i < |ts| :: ValidTransfer(catalog, ts[i])
    ensures Debits(catalog, ts, asset) == Credits(catalog, ts, asset) + Fees(ts, asset)
    ensures forall i | 0 <= i < |ts| :: ts[i].source != ts[i].destination
  {
    if ts != [] { PlansConserve(catalog, ts[..|ts| - 1], asset); }
  }

  // ---------------------------------------------------------------- what the policy lets through

  // No asset and no network is listed twice.
  predicate Unambiguous(tokens: seq<TokenCap>) {
    forall i, j | 0 <= i < j < |tokens| :: tokens[i].economicAsset != tokens[j].economicAsset
  }

  predicate WellFormed(p: CapitalPolicy) {
    && (forall i, j | 0 <= i < j < |p.directNetworks| :: p.directNetworks[i].networkId != p.directNetworks[j].networkId)
    && (forall i | 0 <= i < |p.directNetworks| :: Unambiguous(p.directNetworks[i].tokens))
    && Unambiguous([p.tokenA, p.tokenB] + p.additionalTokens)
  }

  // The caps of a network: its own list, or the policy's tokens when the policy lists no network at all.
  predicate ListedOn(p: CapitalPolicy, networkId: string, tokens: seq<TokenCap>) {
    || (exists n | n in p.directNetworks :: n.networkId == networkId && n.tokens == tokens)
    || (p.directNetworks == [] && networkId == p.networkId && tokens == [p.tokenA, p.tokenB] + p.additionalTokens)
  }

  predicate WithinCap(cap: TokenCap, t: Transfer) {
    cap.economicAsset == t.economicAsset && t.debit <= cap.maximumDebit && t.fee <= cap.maximumFee
  }

  // A transfer between the exchange and a wallet, within a cap listed for its asset on the wallet's network.
  ghost predicate Allowed(p: CapitalPolicy, t: Transfer) {
    && t.source.location.BinanceAccount? != t.destination.location.BinanceAccount?
    && var wallet := if t.source.location.EvmWallet? then t.source.location else t.destination.location;
    exists tokens, cap | ListedOn(p, wallet.networkId, tokens) && cap in tokens :: WithinCap(cap, t)
  }

  lemma {:induction false} FoundToken(tokens: seq<TokenCap>, asset: string)
    ensures FindToken(tokens, asset).Some? ==>
              FindToken(tokens, asset).value in tokens && FindToken(tokens, asset).value.economicAsset == asset
    ensures FindToken(tokens, asset).None? ==> forall cap | cap in tokens :: cap.economicAsset != asset
  {
    if tokens != [] { FoundToken(tokens[1..], asset); }
  }

  lemma {:induction false} FoundNetwork(networks: seq<NetworkPolicy>, networkId: string)
    ensures FindNetwork(networks, networkId).Some? ==>
              FindNetwork(networks, networkId).value in networks
              && FindNetwork(networks, networkId).value.networkId == networkId
    ensures FindNetwork(networks, networkId).None? ==> forall n | n in networks :: n.networkId != networkId
  {
    if networks != [] { FoundNetwork(networks[1..], networkId); }
  }

  lemma TokenIsUnique(tokens: seq<TokenCap>, cap: TokenCap)
    requires Unambiguous(tokens) && cap in tokens
    ensures FindToken(tokens, cap.economicAsset) == Some(cap)
  {
    FoundToken(tokens, cap.economicAsset);
  }

  // The cap found for a network and asset is the one listed there.
  lemma CapIsListed(p: CapitalPolicy, networkId: string, tokens: seq<TokenCap>, asset: string)
    requires WellFormed(p) && ListedOn(p, networkId, tokens)
    ensures CapFor(p, networkId, asset) == FindToken(tokens, asset)
  {
    FoundNetwork(p.directNetworks, networkId);
    if p.directNetworks == [] {
      var all := [p.tokenA, p.tokenB] + p.additionalTokens;
      assert all[1..] == [p.tokenB] + p.additionalTokens && all[1..][1..] == p.additionalTokens;
    }
  }

  // Whatever the policy approves is allowed, by the cap the search found.
  lemma ApprovedIsAllowed(p: CapitalPolicy, t: Transfer)
    requires PolicyApproves(p, t)
    ensures Allowed(p, t)
  {
    var network := DirectNetwork(t.source.location, t.destination.location).value;
    var found := FindNetwork(p.directNetworks, network);
    FoundNetwork(p.directNetworks, network);
    var cap := CapFor(p, network, t.economicAsset).value;
    if found.Some? {
      FoundToken(found.value.tokens, t.economicAsset);
      assert ListedOn(p, network, found.value.tokens) && cap in found.value.tokens && WithinCap(cap, t);
    } else {
      FoundToken(p.additionalTokens, t.economicAsset);
      var all := [p.tokenA, p.tokenB] + p.additionalTokens;
      assert ListedOn(p, network, all) && cap in all && WithinCap(cap, t);
    }
  }

  /** The policy approves a transfer only if it goes between the exchange and a wallet and is within a cap listed
      for its asset on that wallet's network; and whenever no asset or network is listed twice, it approves
      every such transfer. */
  lemma PolicyApprovesExactly(p: CapitalPolicy, t: Transfer)
    ensures PolicyApproves(p, t) ==> Allowed(p, t)
    ensures WellFormed(p) && Allowed(p, t) ==> PolicyApproves(p, t)
  {
    if PolicyApproves(p, t) {
      ApprovedIsAllowed(p, t);
    } else if WellFormed(p) && Allowed(p, t) {
      var wallet := if t.source.location.EvmWallet? then t.source.location else t.destination.location;
      var tokens, cap :| ListedOn(p, wallet.networkId, tokens) && cap in tokens && WithinCap(cap, t);
      NetworkIsListed(p, wallet.networkId);
      OnlyListing(p, wallet.networkId, tokens);
      CapIsListed(p, wallet.networkId, tokens, t.economicAsset);
      TokenIsUnique(tokens, cap);
    }
  }

  lemma NetworkIsListed(p: CapitalPolicy, networkId: string)
    ensures (exists tokens: seq<TokenCap> :: ListedOn(p, networkId, tokens)) <==>
            || FindNetwork(p.directNetworks, networkId).Some? || (p.directNetworks == [] && networkId == p.networkId)
  {
    FoundNetwork(p.directNetworks, networkId);
    var found := FindNetwork(p.directNetworks, networkId);
    if found.Some? { assert ListedOn(p, networkId, found.value.tokens); }
    if p.directNetworks == [] && networkId == p.networkId {
      assert ListedOn(p, networkId, [p.tokenA, p.tokenB] + p.additionalTokens);
    }
  }

  lemma OnlyListing(p: CapitalPolicy, networkId: string, tokens: seq<TokenCap>)
    requires WellFormed(p) && ListedOn(p, networkId, tokens)
    ensures Unambiguous(tokens)
  {
  }

  /** A live plan needs a policy that authorizes changes, allows one transfer at a time, and picks either direct
      routes or bridges; nothing may be under way. */
  lemma LivePlansAreAuthorized(catalog: Catalog, policy: Option<CapitalPolicy>, b: Balances, inFlight: seq<Transfer>,
                               intents: seq<Intent>)
    requires PlanAccepted(FullLive, catalog, policy, b, inFlight, intents)
    ensures policy.Some? && policy.value.externalMutationAuthorized && policy.value.maximumConcurrentTransfers == 1
    ensures policy.value.directRouteOnly <==> !policy.value.bridgeMutationsEnabled
    ensures inFlight == []
    ensures forall i | 0 <= i < |intents| :: PolicyApproves(policy.value, TransferOf(intents[i]))
  {
  }
}
