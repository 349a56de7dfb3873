/** Dividing a mint over the eligible deposits, owner by owner, without losing a share. */
module VaultSharing {
  import opened Common
  import opened VaultTables
  import opened VaultSteps
  import OwnerClaims
  import DepositSplit

  ghost predicate DistinctOwners(owners: seq<OwnerClaims.Allocation>) {
    forall i, j :: 0 <= i < j < |owners| ==> owners[i].owner != owners[j].owner
  }

  function ShareOf(m: map<nat, nat>, row: nat): nat {
    if row in m then m[row] else 0
  }

  function SumShares(rows: seq<nat>, m: map<nat, nat>): nat {
    if rows == [] then 0 else SumShares(rows[..|rows| - 1], m) + ShareOf(m, rows[|rows| - 1])
  }

  /** What `m` gives to the deposits of one user. */
  function UserShares(deposits: seq<Deposit>, rows: seq<nat>, user: nat, m: map<nat, nat>): nat
    requires Numbers(rows, |deposits|)
  {
    if rows == [] then 0
    else
      var row := rows[|rows| - 1];
      UserShares(deposits, rows[..|rows| - 1], user, m) + (if deposits[row].user == user then ShareOf(m, row) else 0)
  }

  predicate Owns(owners: seq<OwnerClaims.Allocation>, user: nat) {
    exists i :: 0 <= i < |owners| && owners[i].owner == user
  }

  /** What `m` gives to the deposits of the listed owners. */
  function OwnersShares(deposits: seq<Deposit>, rows: seq<nat>, owners: seq<OwnerClaims.Allocation>, m: map<nat,
                        nat>): nat
    requires Numbers(rows, |deposits|)
  {
    if rows == [] then 0
    else
      var row := rows[|rows| - 1];
      OwnersShares(deposits, rows[..|rows| - 1], owners, m)
      + (if Owns(owners, deposits[row].user) then ShareOf(m, row) else 0)
  }

  function SumAmounts(owners: seq<OwnerClaims.Allocation>): nat {
    if owners == [] then 0 else SumAmounts(owners[..|owners| - 1]) + owners[|owners| - 1].amount
  }

  // ---------------------------------------------------------------- one owner

  lemma {:induction false} PartsAre(deposits: seq<Deposit>, rows: seq<nat>, user: nat)
    requires Numbers(rows, |deposits|) && Distinct(rows)
    ensures forall k :: 0 <= k < |PartsOf(deposits, rows, user)| ==>
      var p := PartsOf(deposits, rows, user)[k];
      p.id in rows && p.id < |deposits| && deposits[p.id].user == user && deposits[p.id].amount == p.amount
    ensures DepositSplit.DistinctIds(PartsOf(deposits, rows, user))
  {
    if rows != [] {
      PartsAre(deposits, rows[..|rows| - 1], user);
    }
  }

  lemma {:induction false} PartsSum(deposits: seq<Deposit>, rows: seq<nat>, user: nat, m: map<nat, nat>)
    requires Numbers(rows, |deposits|)
    ensures DepositSplit.SumOver(PartsOf(deposits, rows, user), m) == UserShares(deposits, rows, user, m)
  {
    if rows != [] {
      var init, row := rows[..|rows| - 1], rows[|rows| - 1];
      PartsSum(deposits, init, user, m);
      var part := DepositSplit.Part(row, deposits[row].amount);
      if deposits[row].user == user {
        DepositSplit.SumOverConcat(PartsOf(deposits, init, user), [part], m);
        assert DepositSplit.SumOver([part], m) == ShareOf(m, row);
      } else {
        assert PartsOf(deposits, rows, user) == PartsOf(deposits, init, user);
      }
    }
  }

  /** Adding an owner's split gives that owner's deposits exactly the owner's mint. */
  lemma {:induction false} OwnSplit(deposits: seq<Deposit>, rows: seq<nat>, user: nat, minted: nat, m: map<nat, nat>)
    requires Numbers(rows, |deposits|) && Distinct(rows)
    requires DepositSplit.Splittable(minted, PartsOf(deposits, rows, user))
    ensures UserShares(deposits, rows, user, m + DepositSplit.Split(minted, PartsOf(deposits, rows, user))) == minted
  {
    var parts := PartsOf(deposits, rows, user);
    var split := DepositSplit.Split(minted, parts);
    PartsAre(deposits, rows, user);
    PartsSum(deposits, rows, user, m + split);
    DepositSplit.SplitConserves(minted, parts);
    forall i | 0 <= i < |parts|
      ensures parts[i].id in split
    {
      DepositSplit.SplitOfDeposit(minted, parts, i);
    }
    DepositSplit.SumOverAlike(parts, m + split, split);
  }

  /** It leaves every other owner's deposits alone. */
  lemma {:induction false} OtherSplit(deposits: seq<Deposit>, rows: seq<nat>, user: nat, minted: nat, m: map<nat, nat>,
                                      other: nat)
    requires Numbers(rows, |deposits|) && Distinct(rows) && other != user
    requires DepositSplit.Splittable(minted, PartsOf(deposits, rows, user))
    ensures UserShares(deposits, rows, other, m + DepositSplit.Split(minted, PartsOf(deposits, rows, user)))
         == UserShares(deposits, rows, other, m)
  {
    var split := DepositSplit.Split(minted, PartsOf(deposits, rows, user));
    var parts := PartsOf(deposits, rows, other);
    PartsAre(deposits, rows, other);
    PartsSum(deposits, rows, other, m);
    PartsSum(deposits, rows, other, m + split);
    forall i | 0 <= i < |parts|
      ensures parts[i].id !in split
    {
      if parts[i].id in split {
        SplitOwner(deposits, rows, user, minted, parts[i].id);
      }
    }
    DepositSplit.SumOverAlike(parts, m, m + split);
  }

  lemma {:induction false} SplitOwner(deposits: seq<Deposit>, rows: seq<nat>, user: nat, minted: nat, id: nat)
    requires Numbers(rows, |deposits|) && Distinct(rows)
    requires DepositSplit.Splittable(minted, PartsOf(deposits, rows, user))
    requires id in DepositSplit.Split(minted, PartsOf(deposits, rows, user))
    ensures id in rows && id < |deposits| && deposits[id].user == user
  {
    PartsAre(deposits, rows, user);
    DepositSplit.SplitIds(minted, PartsOf(deposits, rows, user), id);
  }

  // ---------------------------------------------------------------- all owners

  ghost predicate SharedOut(deposits: seq<Deposit>, rows: seq<nat>, owners: seq<OwnerClaims.Allocation>, m: map<nat,
                            nat>)
    requires Numbers(rows, |deposits|)
  {
    && (forall i :: 0 <= i < |owners| ==> UserShares(deposits, rows, owners[i].owner, m) == owners[i].amount)
    && (forall id :: id in m ==> id < |deposits| && Owns(owners, deposits[id].user))
  }

  lemma {:induction false} SharesOut(deposits: seq<Deposit>, rows: seq<nat>, owners: seq<OwnerClaims.Allocation>)
    requires Numbers(rows, |deposits|) && Distinct(rows) && DistinctOwners(owners)
    requires SharesByDeposit(deposits, rows, owners).Ok?
    ensures SharedOut(deposits, rows, owners, SharesByDeposit(deposits, rows, owners).value)
  {
    if owners == [] {
    } else {
      hide SharedOut, Distinct, PartsOf;
      var init, last := owners[..|owners| - 1], owners[|owners| - 1];
      assert owners == init + [last];
      assert DistinctOwners(init) by {
        assert forall i :: 0 <= i < |init| ==> init[i] == owners[i];
      }
      SharesOut(deposits, rows, init);
      var m := SharesByDeposit(deposits, rows, init).value;
      SharesOutStep(deposits, rows, init, last, m);
    }
  }

  lemma {:induction false} SharesOutStep(deposits: seq<Deposit>, rows: seq<nat>, init: seq<OwnerClaims.Allocation>,
                                         last: OwnerClaims.Allocation, m: map<nat, nat>)
    requires Numbers(rows, |deposits|) && Distinct(rows) && DistinctOwners(init + [last])
    requires SharedOut(deposits, rows, init, m)
    requires DepositSplit.Splittable(last.amount, PartsOf(deposits, rows, last.owner))
    ensures SharedOut(deposits, rows, init + [last],
                      m + DepositSplit.Split(last.amount, PartsOf(deposits, rows, last.owner)))
  {
    var split := DepositSplit.Split(last.amount, PartsOf(deposits, rows, last.owner));
    var owners := init + [last];
    OwnSplit(deposits, rows, last.owner, last.amount, m);
    forall i | 0 <= i < |owners|
      ensures UserShares(deposits, rows, owners[i].owner, m + split) == owners[i].amount
    {
      if i < |init| {
        assert owners[i].owner != owners[|init|].owner;
        OtherSplit(deposits, rows, last.owner, last.amount, m, owners[i].owner);
      }
    }
    forall id | id in m + split
      ensures id < |deposits| && Owns(owners, deposits[id].user)
    {
      if id in split {
        SplitOwner(deposits, rows, last.owner, last.amount, id);
        assert owners[|init|].owner == deposits[id].user;
      } else {
        var i :| 0 <= i < |init| && init[i].owner == deposits[id].user;
        assert owners[i].owner == deposits[id].user;
      }
    }
  }

  lemma {:induction false} OneOwnerMore(deposits: seq<Deposit>, rows: seq<nat>, init: seq<OwnerClaims.Allocation>,
                                        last: OwnerClaims.Allocation, m: map<nat, nat>)
    requires Numbers(rows, |deposits|) && !Owns(init, last.owner)
    ensures OwnersShares(deposits, rows, init + [last], m)
         == OwnersShares(deposits, rows, init, m) + UserShares(deposits, rows, last.owner, m)
  {
    if rows != [] {
      OneOwnerMore(deposits, rows[..|rows| - 1], init, last, m);
      var user := deposits[rows[|rows| - 1]].user;
      OwnsOneMore(init, last, user);
    }
  }

  lemma {:induction false} OwnsOneMore(init: seq<OwnerClaims.Allocation>, last: OwnerClaims.Allocation, user: nat)
    ensures Owns(init + [last], user) <==> Owns(init, user) || last.owner == user
  {
    var owners := init + [last];
    assert owners[|init|] == last;
    if Owns(init, user) {
      var i :| 0 <= i < |init| && init[i].owner == user;
      assert owners[i].owner == user;
    }
  }

  lemma {:induction false} OwnersShareAll(deposits: seq<Deposit>, rows: seq<nat>, owners: seq<OwnerClaims.Allocation>,
                                          m: map<nat, nat>)
    requires Numbers(rows, |deposits|) && DistinctOwners(owners)
    requires forall i :: 0 <= i < |owners| ==> UserShares(deposits, rows, owners[i].owner, m) == owners[i].amount
    ensures OwnersShares(deposits, rows, owners, m) == SumAmounts(owners)
  {
    if owners == [] {
      NobodyShares(deposits, rows, m);
    } else {
      var init, last := owners[..|owners| - 1], owners[|owners| - 1];
      assert forall i :: 0 <= i < |init| ==> init[i] == owners[i];
      OwnersShareAll(deposits, rows, init, m);
      OneOwnerMore(deposits, rows, init, last, m);
      assert owners == init + [last];
    }
  }

  lemma {:induction false} NobodyShares(deposits: seq<Deposit>, rows: seq<nat>, m: map<nat, nat>)
    requires Numbers(rows, |deposits|)
    ensures OwnersShares(deposits, rows, [], m) == 0
  {
    if rows != [] {
      NobodyShares(deposits, rows[..|rows| - 1], m);
    }
  }

  lemma {:induction false} AllOwned(deposits: seq<Deposit>, rows: seq<nat>, owners: seq<OwnerClaims.Allocation>,
                                    m: map<nat, nat>)
    requires Numbers(rows, |deposits|)
    requires forall i :: 0 <= i < |rows| ==> Owns(owners, deposits[rows[i]].user)
    ensures SumShares(rows, m) == OwnersShares(deposits, rows, owners, m)
  {
    if rows != [] {
      AllOwned(deposits, rows[..|rows| - 1], owners, m);
    }
  }

  /** Over all the deposits together, exactly what the owners were minted is handed out. */
  lemma {:induction false} SharesConserve(deposits: seq<Deposit>, rows: seq<nat>, owners: seq<OwnerClaims.Allocation>,
                                          m: map<nat, nat>)
    requires Numbers(rows, |deposits|) && Distinct(rows) && DistinctOwners(owners)
    requires SharesByDeposit(deposits, rows, owners) == Ok(m)
    requires forall i :: 0 <= i < |rows| ==> rows[i] in m
    ensures SumShares(rows, m) == SumAmounts(owners)
  {
    SharesOut(deposits, rows, owners);
    OwnersShareAll(deposits, rows, owners, m);
    AllOwned(deposits, rows, owners, m);
  }

  // ---------------------------------------------------------------- the split never fails

  /** An owner with a positive mint and a deposit among the rows can always be split. */
  lemma {:induction false} AlwaysSplits(deposits: seq<Deposit>, rows: seq<nat>, owners: seq<OwnerClaims.Allocation>)
    requires Numbers(rows, |deposits|) && Distinct(rows)
    requires forall i :: 0 <= i < |rows| ==> 0 < deposits[rows[i]].amount
    requires forall i :: 0 <= i < |owners| ==> 0 < owners[i].amount && PartsOf(deposits, rows, owners[i].owner) != []
    ensures SharesByDeposit(deposits, rows, owners).Ok?
  {
    if owners != [] {
      var last := owners[|owners| - 1];
      AlwaysSplits(deposits, rows, owners[..|owners| - 1]);
      PartsAre(deposits, rows, last.owner);
    }
  }
}
