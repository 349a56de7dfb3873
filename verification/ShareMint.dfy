/** Minting shares for a batch of deposits at one common price. */
module ShareMint {
  import opened Common
  import opened OwnerClaims

  function SharePriceFixed(nav: nat, supply: nat): nat {
    if supply == 0 then SHARE_PRICE_FIXED_SCALE
    else nav * SHARE_UNITS_PER_SHARE * SHARE_PRICE_FIXED_SCALE / (MICRO_USDC_PER_USDC * supply)
  }

  datatype Mint = Mint(sharePriceFixed: nat, totalDeposit: nat, aggregateFloor: nat, totalMinted: nat,
                       postSupply: nat, retainedDust: int, remainderNumerator: nat,
                       remainderDenominator: nat, allocations: seq<Allocation>)

  function MintMultiplier(supply: nat): nat {
    if supply == 0 then SHARE_UNITS_PER_SHARE else supply
  }

  function MintDenominator(nav: nat, supply: nat): (d: Positive)
    requires supply == 0 || 0 < nav
  {
    if supply == 0 then MICRO_USDC_PER_USDC else nav
  }

  ghost function MintShares(nav: int, supply: int, deposits: seq<Entry>): Result<Mint, Fault> {
    if nav < 0 then Err(InvalidNav)
    else if supply < 0 then Err(InvalidSupply)
    else if supply == 0 && nav != 0 then Err(GenesisNavWithoutShares)
    else if 0 < supply && nav == 0 then Err(DepositAtZeroSharePrice)
    else
      match ClaimsFor(deposits)
      case Err(fault) => Err(fault)
      case Ok(claims) => MintClaims(nav, supply, claims)
  }

  function MintClaims(nav: nat, supply: nat, claims: seq<Claim>): Result<Mint, Fault>
    requires supply == 0 <==> nav == 0
  {
    var f := AllocateIdentityFloors(claims, MintMultiplier(supply), MintDenominator(nav, supply));
    if f.granted == 0 then Err(MintsZeroShares)
    else if exists i :: 0 <= i < |f.allocations| && f.allocations[i].amount == 0 then Err(OwnerMintsZeroShares)
    else Ok(Mint(SharePriceFixed(nav, supply), f.totalWeight, f.aggregateFloor, f.granted, supply + f.granted,
                 f.dust, f.totalRemainder, MintDenominator(nav, supply), f.allocations))
  }

  method MintSharesAtCommonPreDepositPrice(nav: int, supply: int, deposits: seq<Entry>)
    returns (r: Result<Mint, Fault>)
    ensures r == MintShares(nav, supply, deposits)
  {
    if nav < 0 {
      return Err(InvalidNav);
    }
    if supply < 0 {
      return Err(InvalidSupply);
    }
    if supply == 0 && nav != 0 {
      return Err(GenesisNavWithoutShares);
    }
    if 0 < supply && nav == 0 {
      return Err(DepositAtZeroSharePrice);
    }
    var claims := AggregateClaims(deposits);
    match claims {
      case Err(fault) => return Err(fault);
      case Ok(grouped) => return MintClaims(nav, supply, grouped);
    }
  }

  /**
   What a successful mint promises: every unit of deposit is attributed, no owner gets
   nothing, and the new shares are never worth more than the deposits at the old price.
   */
  lemma {:induction false} MintIsFair(nav: int, supply: int, deposits: seq<Entry>)
    requires MintShares(nav, supply, deposits).Ok?
    ensures var r := MintShares(nav, supply, deposits).value;
            && AllPositive(deposits) && deposits != []
            && r.totalDeposit == SumAll(deposits)
            && 0 < r.totalMinted && r.postSupply == supply + r.totalMinted
            && r.totalMinted * nav <= r.totalDeposit * supply
            && 0 <= r.retainedDust < |Totals(deposits)|
  {
    var claims := ClaimsOf(Totals(deposits));
    ClaimsOfMap(Totals(deposits));
    GroupingConserves(deposits);
    assert deposits[0].owner in Owners(deposits);
    assert Totals(deposits) != map[];
    assert claims != [];
    IdentityFloorDust(claims, MintMultiplier(supply), MintDenominator(nav, supply));
  }

  /** Each owner's shares are the floor of that owner's own exact claim. */
  lemma {:induction false} MintOfOwner(nav: int, supply: int, deposits: seq<Entry>, i: nat)
    requires MintShares(nav, supply, deposits).Ok?
    requires i < |MintShares(nav, supply, deposits).value.allocations|
    ensures var a := MintShares(nav, supply, deposits).value.allocations[i];
            && a.owner in Owners(deposits) && a.weight == SumFor(deposits, a.owner)
            && 0 < a.amount == a.weight * MintMultiplier(supply) / MintDenominator(nav, supply)
  {
    ClaimsOfMap(Totals(deposits));
  }

  /** Permuting the deposits changes nothing that is minted. */
  lemma {:induction false} MintIgnoresOrder(nav: int, supply: int, a: seq<Entry>, b: seq<Entry>)
    requires multiset(a) == multiset(b)
    ensures MintShares(nav, supply, a) == MintShares(nav, supply, b)
  {
    ClaimsIgnoreOrder(a, b);
  }

  /** Neither does depositing one owner's amount in two parts. */
  lemma {:induction false} MintIgnoresEntrySplit(nav: int, supply: int, before: seq<Entry>, owner: nat, x: Positive,
                                                 y: Positive,
                              after: seq<Entry>)
    ensures MintShares(nav, supply, before + [Entry(owner, x), Entry(owner, y)] + after)
         == MintShares(nav, supply, before + [Entry(owner, x + y)] + after)
  {
    ClaimsIgnoreEntrySplit(before, owner, x, y, after);
  }
}
