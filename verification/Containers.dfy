/** The three containers shared between threads. Every method body is one critical section; a
    condition-variable wait that is not yet satisfied is reported as None. */
module Containers {
  import opened Types

  // ---------------------------------------------------------------- moves

  function FreshSlots(n: nat): seq<Slot> {
    seq(n, _ => Slot(false, Join([])))
  }

  function Cleared(slots: seq<Slot>): seq<Slot> {
    seq(|slots|, i requires 0 <= i < |slots| => slots[i].(updated := false))
  }

  /** An update of a slot that does not exist throws and changes nothing. */
  function Updated(slots: seq<Slot>, slot: U8, move: ClientMessage): seq<Slot> {
    if slot < |slots| then slots[slot := Slot(true, move)] else slots
  }

  class MoveContainer {
    var slots: seq<Slot>

    constructor (n: U8)
      ensures slots == FreshSlots(n)
      ensures |slots| == n && forall i :: 0 <= i < n ==> !slots[i].updated
    {
      var empty: seq<Slot> := [];
      for i := 0 to n
        invariant empty == FreshSlots(i)
      {
        empty := empty + [Slot(false, Join([]))];
      }
      slots := empty;
    }

    method AtomicSnapshotAndClear() returns (copy: seq<Slot>)
      modifies this
      ensures copy == old(slots) && slots == Cleared(old(slots))
      ensures |slots| == |copy| && forall i :: 0 <= i < |copy| ==> slots[i] == Slot(false, copy[i].move)
    {
      copy := slots;
      for i := 0 to |slots|
        invariant |slots| == |copy|
        invariant forall j :: 0 <= j < i ==> slots[j] == Slot(false, copy[j].move)
        invariant forall j :: i <= j < |copy| ==> slots[j] == copy[j]
      {
        slots := slots[i := slots[i].(updated := false)];
      }
    }

    method UpdateSlot(slot: U8, move: ClientMessage) returns (ok: bool)
      modifies this
      ensures ok <==> slot < |old(slots)|
      ensures slots == Updated(old(slots), slot, move)
      ensures slots == if ok then old(slots)[slot := Slot(true, move)] else old(slots)
    {
      if slot >= |slots| {
        return false;
      }
      slots := slots[slot := Slot(true, move)];
      return true;
    }
  }

  datatype MoveOp = Update(slot: U8, move: ClientMessage) | Snapshot

  /** The slots after any interleaving of updates and snapshots. */
  function SlotsAfter(n: nat, ops: seq<MoveOp>): (slots: seq<Slot>)
    ensures |slots| == n
  {
    if ops == [] then FreshSlots(n)
    else
      var before := SlotsAfter(n, ops[..|ops| - 1]);
      match ops[|ops| - 1]
      case Update(slot, move) => Updated(before, slot, move)
      case Snapshot => Cleared(before)
  }

  /** ops[u] is the last update of the slot before position s with no snapshot in between. */
  predicate PendingAt(ops: seq<MoveOp>, slot: U8, u: nat, s: nat) {
    && u < s <= |ops| && ops[u].Update? && ops[u].slot == slot
    && (forall j :: u < j < s ==> !ops[j].Snapshot? && (ops[j].Update? ==> ops[j].slot != slot))
  }

  /** A snapshot taken at position s flags a slot exactly when some update of it is pending there,
      and then shows that update's move: overwritten updates are never delivered. */
  lemma {:induction false} SnapshotShowsPending(n: nat, ops: seq<MoveOp>, slot: U8, s: nat)
    requires slot < n && s <= |ops|
    ensures var shown := SlotsAfter(n, ops[..s])[slot];
            && (shown.updated <==> exists u: nat :: PendingAt(ops, slot, u, s))
            && (forall u: nat :: PendingAt(ops, slot, u, s) ==> shown.updated && shown.move == ops[u].move)
  {
    if s > 0 {
      assert ops[..s][..s - 1] == ops[..s - 1];
      SnapshotShowsPending(n, ops, slot, s - 1);
      var last := ops[s - 1];
      if last.Update? && last.slot == slot {
        assert PendingAt(ops, slot, s - 1, s);
        assert forall u: nat :: PendingAt(ops, slot, u, s) ==> u == s - 1;
      } else if last.Update? {
        forall u: nat ensures PendingAt(ops, slot, u, s) <==> PendingAt(ops, slot, u, s - 1) {
        }
        var before := SlotsAfter(n, ops[..s - 1]);
        assert SlotsAfter(n, ops[..s])[slot] == before[slot];
        if before[slot].updated {
          var u: nat :| PendingAt(ops, slot, u, s - 1);
          assert PendingAt(ops, slot, u, s);
        }
      } else {
        assert forall u: nat :: PendingAt(ops, slot, u, s) ==> u == s - 1;
      }
    }
  }

  /** No update is delivered by two snapshots, and no snapshot delivers two updates of one slot. */
  lemma DeliveredOnce(ops: seq<MoveOp>, slot: U8, u: nat, u': nat, s: nat, s': nat)
    requires s < |ops| && s' < |ops| && ops[s].Snapshot? && ops[s'].Snapshot?
    requires PendingAt(ops, slot, u, s) && PendingAt(ops, slot, u', s')
    ensures u == u' <==> s == s'
  {
    assert !(u < u' < s) && !(u' < u < s');
    assert !(u < s < s') || u != u';
    assert !(u' < s' < s) || u != u';
  }

  // ---------------------------------------------------------------- turns

  class TurnContainer {
    var turns: seq<Turn>
    var finished: bool
    var scoreMap: map<U8, U32>

    constructor ()
      ensures turns == [] && !finished && scoreMap == map[]
    {
      turns, finished, scoreMap := [], false, map[];
    }

    method AppendNewTurn(turn: Turn)
      modifies this`turns
      ensures turns == old(turns) + [turn]
    {
      turns := turns + [turn];
    }

    method GetTurn(turnId: U16) returns (turn: Option<Turn>)
      ensures turn == if turnId < |turns| then Some(turns[turnId]) else None
    {
      if |turns| > turnId {
        return Some(turns[turnId]);
      }
      return None;
    }

    method ReturnWhenGameFinished() returns (scores: Option<map<U8, U32>>)
      ensures scores == if finished then Some(scoreMap) else None
    {
      if finished {
        return Some(scoreMap);
      }
      return None;
    }

    method MarkTheGameAsFinished(scores: map<U8, U32>)
      modifies this`finished, this`scoreMap
      ensures finished && scoreMap == scores
    {
      finished := true;
      scoreMap := scores;
    }
  }

  // ---------------------------------------------------------------- accepted players

  /** The registry holds the ids 0..k-1 for some k no larger than its target. */
  predicate Registered(accepted: map<U8, Player>, target: U8) {
    |accepted| <= target && accepted.Keys == Ids(|accepted|)
  }

  datatype Admission = Admitted(id: U8) | Rejected

  /** The registry after one more request: full registries reject, others insert the player under
      their size, cut to the 8 bits of an id. */
  function AfterJoin(accepted: map<U8, Player>, target: U8, player: Player): map<U8, Player> {
    if |accepted| == target then accepted else InsertAbsent(accepted, |accepted| % 0x100, player)
  }

  lemma JoinKeepsRegistered(accepted: map<U8, Player>, target: U8, player: Player)
    requires Registered(accepted, target)
    ensures Registered(AfterJoin(accepted, target, player), target)
    ensures |AfterJoin(accepted, target, player)| == if |accepted| == target then target else |accepted| + 1
  {
    if |accepted| < target {
      var next := AfterJoin(accepted, target, player);
      assert next.Keys == accepted.Keys + {|accepted|};
      assert |accepted| !in accepted.Keys;
      assert Ids(|accepted| + 1) == Ids(|accepted|) + {|accepted|};
      assert |next.Keys| == |accepted.Keys| + 1;
    }
  }

  class AcceptedPlayerContainer {
    const target: U8
    var accepted: map<U8, Player>

    ghost predicate Valid()
      reads this
    {
      Registered(accepted, target)
    }

    constructor (target: U8)
      ensures Valid() && this.target == target && accepted == map[]
    {
      this.target := target;
      accepted := map[];
    }

    method ReturnWhenTargetPlayersJoined() returns (players: Option<map<U8, Player>>)
      requires Valid()
      ensures players == if |accepted| == target then Some(accepted) else None
      ensures players.Some? ==> players.value.Keys == Ids(target)
    {
      if |accepted| == target {
        return Some(accepted);
      }
      return None;
    }

    method AddNewPlayer(player: Player) returns (r: Admission)
      requires Valid()
      modifies this
      ensures Valid()
      ensures r.Rejected? <==> |old(accepted)| == target
      ensures r.Rejected? ==> accepted == old(accepted)
      ensures r.Admitted? ==> r.id == |old(accepted)| && r.id !in old(accepted) && accepted == old(accepted)[r.id := player]
    {
      JoinKeepsRegistered(accepted, target, player);
      assert |accepted| < target ==> |accepted| !in accepted.Keys;
      if |accepted| == target {
        return Rejected;
      }
      accepted := InsertAbsent(accepted, |accepted| % 0x100, player);
      return Admitted((|accepted| - 1) % 0x100);
    }

    /** never when the id is out of range (the source throws), None while the player has not joined yet. */
    method GetAcceptedPlayer(id: U8) returns (never: bool, player: Option<Player>)
      requires Valid()
      ensures never <==> id >= target
      ensures player.Some? <==> id in accepted
      ensures player.Some? ==> player.value == accepted[id]
    {
      if id >= target {
        return true, None;
      }
      if |accepted| > id {
        return false, Some(accepted[id]);
      }
      return false, None;
    }
  }
}
