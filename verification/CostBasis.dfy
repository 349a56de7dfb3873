/** The cost basis that a share lot gives up as it is burned. */
module CostBasis {
  import opened Common
  import opened OwnerClaims

  datatype CostBasisLot = CostBasisLot(shares: int, basis: int, burned: int)

  datatype CostBasisBurn = CostBasisBurn(allocatedBasis: int, cumulativeBasis: int, remainingShares: int,
                                         remainingBasis: int, carriedRemainder: int, nextLot: CostBasisLot)

  function AllocateCostBasis(lot: CostBasisLot, burn: int): Result<CostBasisBurn, Fault> {
    if lot.shares <= 0 || lot.basis < 0 || lot.burned < 0 || burn <= 0 || lot.shares < lot.burned
    then Err(InvalidLot)
    else if lot.shares < lot.burned + burn then Err(BurnExceedsLot)
    else
      var next := lot.burned + burn;
      var prior := lot.basis * lot.burned / lot.shares;
      var cumulative := if next == lot.shares then lot.basis else lot.basis * next / lot.shares;
      Ok(CostBasisBurn(cumulative - prior, cumulative, lot.shares - next, lot.basis - cumulative,
                       lot.basis * next % lot.shares, lot.(burned := next)))
  }

  /** The basis that a lot has given up once `burned` of its shares are gone. */
  function CumulativeBasis(shares: Positive, basis: nat, burned: nat): nat {
    basis * burned / shares
  }

  function BurnEach(lot: CostBasisLot, burns: seq<int>): Result<(CostBasisLot, int), Fault>
    decreases |burns|
  {
    if burns == [] then Ok((lot, 0))
    else
      match AllocateCostBasis(lot, burns[0])
      case Err(fault) => Err(fault)
      case Ok(step) =>
        match BurnEach(step.nextLot, burns[1..])
        case Err(fault) => Err(fault)
        case Ok(rest) => Ok((rest.0, step.allocatedBasis + rest.1))
  }

  function Sum(xs: seq<int>): int {
    if xs == [] then 0 else xs[0] + Sum(xs[1..])
  }

  /** One burn: the two branches of the cumulative basis are one formula. */
  lemma {:induction false} CostBasisStep(lot: CostBasisLot, burn: int)
    requires AllocateCostBasis(lot, burn).Ok?
    ensures var step := AllocateCostBasis(lot, burn).value;
            && step.cumulativeBasis == CumulativeBasis(lot.shares, lot.basis, lot.burned + burn)
            && step.allocatedBasis
               == step.cumulativeBasis - CumulativeBasis(lot.shares, lot.basis, lot.burned)
            && 0 <= step.allocatedBasis && 0 <= step.remainingBasis
  {
    FloorExact(lot.basis, lot.shares);
    MulMono(lot.burned, lot.burned + burn, lot.basis);
    MulMono(lot.burned + burn, lot.shares, lot.basis);
    FloorMono(lot.basis * lot.burned, lot.basis * (lot.burned + burn), lot.shares);
    FloorMono(lot.basis * (lot.burned + burn), lot.basis * lot.shares, lot.shares);
  }

  /**
   However a burn is split, the lot ends in the same state having given up the same
   basis; a lot burned to nothing has given up exactly its whole original basis.
   */
  lemma {:induction false} SplitBurnsAgree(lot: CostBasisLot, burns: seq<int>)
    requires 0 < lot.shares && 0 <= lot.basis && 0 <= lot.burned
    requires BurnEach(lot, burns).Ok?
    ensures 0 <= Sum(burns)
    ensures var r := BurnEach(lot, burns).value;
            && r.0 == lot.(burned := lot.burned + Sum(burns))
            && r.1 == CumulativeBasis(lot.shares, lot.basis, lot.burned + Sum(burns))
                    - CumulativeBasis(lot.shares, lot.basis, lot.burned)
    decreases |burns|
  {
    if burns != [] {
      CostBasisStep(lot, burns[0]);
      SplitBurnsAgree(AllocateCostBasis(lot, burns[0]).value.nextLot, burns[1..]);
    }
  }

  /** Splitting a burn is the same as making it at once. */
  lemma {:induction false} SplitBurnIsOneBurn(lot: CostBasisLot, burns: seq<int>)
    requires burns != [] && BurnEach(lot, burns).Ok?
    ensures AllocateCostBasis(lot, Sum(burns)).Ok?
    ensures var whole := AllocateCostBasis(lot, Sum(burns)).value;
            BurnEach(lot, burns).value == (whole.nextLot, whole.allocatedBasis)
    ensures lot.burned == 0 && Sum(burns) == lot.shares ==> BurnEach(lot, burns).value.1 == lot.basis
  {
    SplitBurnsAgree(lot, burns);
    BurnsStayInLot(lot, burns);
    CostBasisStep(lot, Sum(burns));
    CumulativeEnds(lot.shares, lot.basis);
  }

  lemma {:induction false} CumulativeEnds(shares: Positive, basis: nat)
    ensures CumulativeBasis(shares, basis, 0) == 0 && CumulativeBasis(shares, basis, shares) == basis
  {
    FloorExact(basis, shares);
    FloorExact(0, shares);
  }

  lemma {:induction false} BurnsStayInLot(lot: CostBasisLot, burns: seq<int>)
    requires burns != [] && BurnEach(lot, burns).Ok?
    ensures lot.burned + Sum(burns) <= lot.shares && 0 < Sum(burns)
    decreases |burns|
  {
    if |burns| == 1 {
      assert Sum(burns[1..]) == 0;
    } else {
      BurnsStayInLot(AllocateCostBasis(lot, burns[0]).value.nextLot, burns[1..]);
    }
  }
}
