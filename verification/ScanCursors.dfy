/** The block scanner's cursors: they never move back, and observe no block beyond themselves. */
module ScanCursors {
  import opened Common

  datatype Cursor = Cursor(block: nat, blockHash: Option<nat>, observations: map<nat, nat>)

  datatype Observation = Observation(block: int, blockHash: nat)

  datatype Save = Save(chain: nat, name: nat, block: nat, blockHash: Option<nat>, observations: seq<Observation>)

  datatype Fault = InvalidObservation | CursorRegression

  predicate Admissible(observations: seq<Observation>, block: nat) {
    forall i :: 0 <= i < |observations| ==> 0 <= observations[i].block <= block
  }

  function Collect(observations: seq<Observation>): map<nat, nat> {
    if observations == [] then map[]
    else
      var last := observations[|observations| - 1];
      var rest := Collect(observations[..|observations| - 1]);
      if last.block < 0 then rest else rest[last.block := last.blockHash]
  }

  function Observed(save: Save): map<nat, nat> {
    var collected := Collect(save.observations);
    if save.blockHash.Some? then collected[save.block := save.blockHash.value] else collected
  }

  /** The stored cursor, if any, after a save. */
  function SaveOne(cursor: Option<Cursor>, save: Save): Result<Cursor, Fault> {
    if !Admissible(save.observations, save.block) then Err(InvalidObservation)
    else if cursor.Some? && save.block < cursor.value.block then Err(CursorRegression)
    else
      var before := if cursor.Some? then cursor.value.observations else map[];
      Ok(Cursor(save.block, save.blockHash, before + Observed(save)))
  }

  ghost predicate CursorSound(cursor: Cursor) {
    && (forall b :: b in cursor.observations ==> b <= cursor.block)
    && (cursor.blockHash.Some? ==>
          cursor.block in cursor.observations && cursor.observations[cursor.block] == cursor.blockHash.value)
  }

  lemma {:induction false} CollectedWithin(observations: seq<Observation>, block: nat)
    requires Admissible(observations, block)
    ensures forall b :: b in Collect(observations) ==> b <= block
  {
    if observations != [] {
      CollectedWithin(observations[..|observations| - 1], block);
    }
  }

  /** A save moves a cursor forward or not at all, and keeps its observations within it. */
  lemma {:induction false} SavesMoveForward(cursor: Option<Cursor>, save: Save)
    requires SaveOne(cursor, save).Ok? && (cursor.Some? ==> CursorSound(cursor.value))
    ensures CursorSound(SaveOne(cursor, save).value)
    ensures cursor.Some? ==> cursor.value.block <= SaveOne(cursor, save).value.block
  {
    CollectedWithin(save.observations, save.block);
  }

  /** Observation `i` is the last one of its block. */
  ghost predicate Latest(observations: seq<Observation>, i: nat) {
    i < |observations| && forall j :: i < j < |observations| ==> observations[j].block != observations[i].block
  }

  lemma {:induction false} LatestCollected(observations: seq<Observation>, block: nat)
    requires forall i :: 0 <= i < |observations| ==> 0 <= observations[i].block
    ensures block in Collect(observations) <==>
              exists i :: 0 <= i < |observations| && observations[i].block == block
    ensures forall i: nat :: Latest(observations, i) && observations[i].block == block ==>
      block in Collect(observations) && Collect(observations)[block] == observations[i].blockHash
  {
    if observations != [] {
      var n := |observations| - 1;
      var init := observations[..n];
      LatestCollected(init, block);
      if i :| 0 <= i < n && init[i].block == block {
        assert observations[i].block == block;
      }
      forall i: nat | Latest(observations, i) && observations[i].block == block
        ensures block in Collect(observations) && Collect(observations)[block] == observations[i].blockHash
      {
        if i < n {
          assert observations[n].block != block && Latest(init, i) && init[i].block == block;
        }
      }
    }
  }

  /** What a stored cursor says of a block after a save: the save's own hash, its last observation, or as before. */
  ghost predicate SaysOf(before: Option<Cursor>, save: Save, after: map<nat, nat>, block: nat) {
    if save.blockHash.Some? && block == save.block then block in after && after[block] == save.blockHash.value
    else if exists i :: 0 <= i < |save.observations| && save.observations[i].block == block then
      forall i: nat :: Latest(save.observations, i) && save.observations[i].block == block ==>
        block in after && after[block] == save.observations[i].blockHash
    else if before.Some? && block in before.value.observations then
      block in after && after[block] == before.value.observations[block]
    else block !in after
  }

  /**
   A save is refused for an observation outside the scanned blocks, or else for going back, and not otherwise; it is
   then the stored cursor, with everything that was observed before and is not observed anew.
   */
  lemma {:induction false} SaveMeans(cursor: Option<Cursor>, save: Save)
    ensures var r := SaveOne(cursor, save);
            if exists i :: 0 <= i < |save.observations|
                           && !(0 <= save.observations[i].block <= save.block)
            then r == Err(InvalidObservation)
            else if cursor.Some? && save.block < cursor.value.block then r == Err(CursorRegression)
            else
              && r.Ok? && r.value.block == save.block && r.value.blockHash == save.blockHash
              && forall block: nat :: SaysOf(cursor, save, r.value.observations, block)
  {
    if SaveOne(cursor, save).Ok? {
      var after := SaveOne(cursor, save).value.observations;
      forall block: nat
        ensures SaysOf(cursor, save, after, block)
      {
        LatestCollected(save.observations, block);
      }
    }
  }

  class CursorStore {
    var cursors: map<(nat, nat), Cursor>

    constructor ()
      ensures cursors == map[]
    {
      cursors := map[];
    }

    ghost predicate Valid()
      reads this
    {
      forall key :: key in cursors ==> CursorSound(cursors[key])
    }

    function Stored(chain: nat, name: nat): Option<Cursor>
      reads this
    {
      if (chain, name) in cursors then Some(cursors[(chain, name)]) else None
    }

    method SaveScanCursor(save: Save) returns (fault: Option<Fault>)
      requires Valid()
      modifies this
      ensures Valid()
      ensures match SaveOne(old(Stored(save.chain, save.name)), save)
              case Ok(cursor) => fault == None && cursors == old(cursors)[(save.chain, save.name) := cursor]
              case Err(f) => fault == Some(f) && cursors == old(cursors)
      ensures forall key :: key in old(cursors) ==> key in cursors && old(cursors[key].block) <= cursors[key].block
    {
      var observations: map<nat, nat> := map[];
      for i := 0 to |save.observations|
        invariant forall k :: 0 <= k < i ==> 0 <= save.observations[k].block <= save.block
        invariant observations == Collect(save.observations[..i])
      {
        var o := save.observations[i];
        if o.block < 0 || save.block < o.block {
          return Some(InvalidObservation);
        }
        assert save.observations[..i + 1][..i] == save.observations[..i];
        observations := observations[o.block := o.blockHash];
      }
      assert save.observations[..|save.observations|] == save.observations;
      if save.blockHash.Some? {
        observations := observations[save.block := save.blockHash.value];
      }
      var stored := Stored(save.chain, save.name);
      if stored.Some? && save.block < stored.value.block {
        return Some(CursorRegression);
      }
      SavesMoveForward(stored, save);
      var before := if stored.Some? then stored.value.observations else map[];
      cursors := cursors[(save.chain, save.name) := Cursor(save.block, save.blockHash, before + observations)];
      return None;
    }
  }
}
