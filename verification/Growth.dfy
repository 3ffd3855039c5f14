/** What the server's containers keep for ever, and the safety of the in-threads over whole runs. */
module Growth {
  import opened Types
  import opened Engine
  import opened ReplicaProof
  import opened Containers
  import opened Protocol
  import opened ProtocolProof

  /** Containers only grow; a full registry and a finished game never change again. */
  ghost predicate VersionGrows(cfg: Settings, was: Version, now: Version) {
    && (forall id :: id in was.players ==> id in now.players && now.players[id] == was.players[id])
    && (Full(cfg, was) ==> now.players == was.players)
    && was.turns <= now.turns && was.states <= now.states && was.snaps <= now.snaps
    && was.owners <= now.owners && was.ops <= now.ops && was.writers <= now.writers && was.marks <= now.marks
    && (was.finished ==> now.finished && now.Game() == was.Game() && now.players == was.players
                         && now.scoreMap == was.scoreMap)
  }

  ghost predicate Grows(cfg: Settings, was: seq<Version>, now: seq<Version>) {
    && |was| <= |now|
    && (forall v: nat :: v < |was| ==> VersionGrows(cfg, was[v], now[v]))
  }

  lemma GrowsOne(cfg: Settings, was: seq<Version>, now: seq<Version>, v: nat)
    requires v < |was| == |now| && now == was[v := now[v]] && VersionGrows(cfg, was[v], now[v])
    ensures Grows(cfg, was, now)
  {
  }

  lemma MainGrows(cfg: Settings, draws: Draws, s: System, s': System)
    requires cfg.Playable() && Inv(cfg, draws, s) && MainStep(cfg, draws, s, s')
    ensures Grows(cfg, s.versions, s'.versions)
  {
    hide VersionOk, InsOk, TraceStep, SnapAt, GameInit;
    if s'.versions != s.versions && !s.main.MainReset? {
      assert Sound(cfg, draws, s, s.main.v);
      GrowsOne(cfg, s.versions, s'.versions, s.main.v - 1);
    }
  }

  lemma AdmitGrows(cfg: Settings, ver: Version, k: nat, player: Player)
    requires !Full(cfg, ver) && !ver.finished
    ensures VersionGrows(cfg, ver, Admit(cfg, ver, k, player))
  {
  }

  lemma WriteGrows(cfg: Settings, ver: Version, slot: U8, k: nat, move: ClientMessage)
    ensures VersionGrows(cfg, ver, Written(ver, slot, k, move))
  {
  }

  lemma InGrows(cfg: Settings, draws: Draws, s: System, s': System, k: nat, msg: ClientMessage)
    requires cfg.Playable() && Inv(cfg, draws, s) && InStep(cfg, s, s', k, msg)
    ensures Grows(cfg, s.versions, s'.versions)
  {
    hide MainOk, Updated, InOk, VersionOk, Complete, LastId;
    var t := s.sessions[k].inward;
    if s'.versions != s.versions {
      var v := t.pc.v;
      assert Sound(cfg, draws, s, v);
      if t.pc.InAct? {
        hide VersionGrows;
        OpenIsCurrent(cfg, draws, s, v);
        AdmitGrows(cfg, Ver(s, v), k, Player(t.pc.msg.name, s.sessions[k].address));
      } else {
        hide VersionGrows;
        WriteGrows(cfg, Ver(s, v), t.id, k, t.pc.msg);
      }
      GrowsOne(cfg, s.versions, s'.versions, v - 1);
    } else {
      hide InStep, Inv;
    }
  }

  lemma RegistryIsIds(cfg: Settings, draws: Draws, s: System, v: nat)
    requires cfg.Playable() && Inv(cfg, draws, s) && Exists(s, v)
    ensures var ver := Ver(s, v);
            && Registered(ver.players, cfg.playersCount)
            && |ver.owners| == |ver.players| && Distinct(ver.owners)
  {
    assert Sound(cfg, draws, s, v);
  }

  lemma StepGrows(cfg: Settings, draws: Draws, s: System, step: Step, s': System)
    requires cfg.Playable() && Inv(cfg, draws, s) && Do(cfg, draws, s, step, s')
    ensures Grows(cfg, s.versions, s'.versions)
  {
    hide Inv, MainStep, InStep;
    match step
    case Main => MainGrows(cfg, draws, s, s');
    case In(k, msg) => InGrows(cfg, draws, s, s', k, msg);
    case _ =>
  }

  lemma GrowsReflexive(cfg: Settings, a: seq<Version>)
    ensures Grows(cfg, a, a)
  {
  }

  lemma GrowsTransitive(cfg: Settings, a: seq<Version>, b: seq<Version>, c: seq<Version>)
    requires Grows(cfg, a, b) && Grows(cfg, b, c)
    ensures Grows(cfg, a, c)
  {
    forall v: nat | v < |a| ensures VersionGrows(cfg, a[v], c[v]) {
      assert VersionGrows(cfg, a[v], b[v]) && VersionGrows(cfg, b[v], c[v]);
    }
  }

  // ---------------------------------------------------------------- over whole runs

  /** Nothing a thread has read from a container is ever taken back: logs, snapshots, players and
      ownership only grow, and finished games are frozen. */
  lemma {:induction false} RunGrows(cfg: Settings, draws: Draws, states: seq<System>, steps: seq<Step>, i: nat, j: nat)
    requires cfg.Playable() && Run(cfg, draws, states, steps) && i <= j < |states|
    ensures Grows(cfg, states[i].versions, states[j].versions)
    decreases j - i
  {
    hide Inv, Do, VersionGrows;
    if i == j {
      GrowsReflexive(cfg, states[i].versions);
    } else {
      RunGrows(cfg, draws, states, steps, i, j - 1);
      RunKeeps(cfg, draws, states, steps, j - 1);
      assert RunStep(cfg, draws, states, steps, j - 1);
      StepGrows(cfg, draws, states[j - 1], steps[j - 1], states[j]);
      GrowsTransitive(cfg, states[i].versions, states[j - 1].versions, states[j].versions);
    }
  }

  /** A Join that the registry accepts always reaches the current game, before its start, from a
      session with no id in it, however stale the session's snapshot is. */
  lemma StaleJoinsAreHarmless(cfg: Settings, draws: Draws, states: seq<System>, steps: seq<Step>, i: nat, k: nat)
    requires cfg.Playable() && Run(cfg, draws, states, steps) && i < |states| && k < |states[i].sessions|
    requires var t := states[i].sessions[k].inward; t.pc.InAct? && !t.joined
    ensures var s := states[i];
            var v := s.sessions[k].inward.pc.v;
            && Exists(s, v) && k !in Ver(s, v).owners
            && (!Full(cfg, Ver(s, v)) ==> v == |s.versions| && !s.gameStarted && Ver(s, v).turns == [])
  {
    hide Sound, MainOk;
    RunKeeps(cfg, draws, states, steps, i);
    var s := states[i];
    var t := s.sessions[k].inward;
    assert InOk(s.versions, t, k);
    assert Known(s.versions, t.pc.v, t, k);
    if !Full(cfg, Ver(s, t.pc.v)) {
      OpenIsCurrent(cfg, draws, s, t.pc.v);
    }
  }

  /** Every superseded game is full and played to its end. */
  lemma SupersededIsComplete(cfg: Settings, draws: Draws, states: seq<System>, steps: seq<Step>, i: nat, v: nat)
    requires cfg.Playable() && Run(cfg, draws, states, steps) && i < |states| && 1 <= v < |states[i].versions|
    ensures var ver := Ver(states[i], v);
            && Full(cfg, ver) && Complete(cfg, ver) && ver.players.Keys == Ids(cfg.playersCount)
            && (ver.finished ==> |ver.states| == cfg.gameLength + 1
                                 && ver.scoreMap == ver.states[cfg.gameLength].world.scores)
  {
    RunKeeps(cfg, draws, states, steps, i);
    assert Sound(cfg, draws, states[i], v);
  }

  /** Ids are issued once: each of a game's ids to a different session, in order, and a session that
      believes it has joined holds exactly the id it believes it has. */
  lemma IdsBelongToOneSession(cfg: Settings, draws: Draws, states: seq<System>, steps: seq<Step>, i: nat, v: nat, k: nat)
    requires cfg.Playable() && Run(cfg, draws, states, steps) && i < |states|
    requires Exists(states[i], v) && k < |states[i].sessions|
    ensures var s := states[i];
            var ver, t := Ver(s, v), s.sessions[k].inward;
            && |ver.owners| <= cfg.playersCount && ver.players.Keys == Ids(|ver.owners|) && Distinct(ver.owners)
            && (t.joined ==> Owns(s.versions, t.last, t.id, k))
            && (k in ver.owners && t.last == v ==> t.joined && ver.owners[t.id] == k)
  {
    hide Sound, MainOk;
    var s := states[i];
    RunKeeps(cfg, draws, states, steps, i);
    RegistryIsIds(cfg, draws, s, v);
    assert InOk(s.versions, s.sessions[k].inward, k);
    assert Known(s.versions, v, s.sessions[k].inward, k);
  }

  // ---------------------------------------------------------------- what the snapshots deliver

  /** Operation w updates the slot, at or after position lo and before position hi. */
  predicate WrittenIn(ops: seq<MoveOp>, slot: U8, lo: nat, hi: nat, w: nat) {
    lo <= w < hi <= |ops| && ops[w].Update? && ops[w].slot == slot
  }

  /** w is the last such update. */
  ghost predicate LastIn(ops: seq<MoveOp>, slot: U8, lo: nat, hi: nat, w: nat) {
    WrittenIn(ops, slot, lo, hi, w) && forall j: nat :: w < j ==> !WrittenIn(ops, slot, lo, hi, j)
  }

  lemma {:induction false} LastExists(ops: seq<MoveOp>, slot: U8, lo: nat, hi: nat, w: nat) returns (last: nat)
    requires WrittenIn(ops, slot, lo, hi, w)
    ensures LastIn(ops, slot, lo, hi, last)
    decreases hi - w
  {
    if j: nat :| w < j && WrittenIn(ops, slot, lo, hi, j) {
      last := LastExists(ops, slot, lo, hi, j);
    } else {
      last := w;
    }
  }

  /** Without a snapshot in between, the pending update is the last one. */
  lemma PendingIsLast(ops: seq<MoveOp>, slot: U8, lo: nat, hi: nat, u: nat)
    requires lo <= hi <= |ops| && (forall j :: lo <= j < hi ==> !ops[j].Snapshot?)
    requires lo > 0 ==> ops[lo - 1].Snapshot?
    ensures PendingAt(ops, slot, u, hi) <==> LastIn(ops, slot, lo, hi, u)
  {
    if PendingAt(ops, slot, u, hi) {
      assert lo > 0 ==> !(u < lo - 1 < hi);
    }
    if LastIn(ops, slot, lo, hi, u) {
      forall j | u < j < hi ensures !ops[j].Snapshot? && (ops[j].Update? ==> ops[j].slot != slot) {
        assert !WrittenIn(ops, slot, lo, hi, j);
      }
    }
  }

  /** Where the updates that snapshot t can deliver begin: after the snapshot before it. */
  function Since(marks: seq<nat>, t: nat): nat
    requires t < |marks|
  {
    if t == 0 then 0 else marks[t - 1] + 1
  }

  lemma MarksAround(marks: seq<nat>, t: nat, u: nat)
    requires (forall a, b :: 0 <= a < b < |marks| ==> marks[a] < marks[b]) && t < |marks| && u < |marks|
    ensures if u < t then marks[u] < Since(marks, t) else marks[t] <= marks[u]
  {
  }

  lemma NoSnapshotBetween(ops: seq<MoveOp>, marks: seq<nat>, t: nat)
    requires MarksOk(ops, marks) && t < |marks|
    ensures Since(marks, t) <= marks[t] < |ops| && ops[marks[t]].Snapshot?
    ensures forall j :: Since(marks, t) <= j < marks[t] ==> !ops[j].Snapshot?
    ensures Since(marks, t) > 0 ==> ops[Since(marks, t) - 1].Snapshot?
  {
    assert MarkAt(ops, marks, t);
    if t > 0 {
      assert MarkAt(ops, marks, t - 1);
    }
    forall j | Since(marks, t) <= j < marks[t] ensures !ops[j].Snapshot? {
      if ops[j].Snapshot? {
        var u :| 0 <= u < |marks| && marks[u] == j;
        MarksAround(marks, t, u);
      }
    }
  }

  /** Snapshot t shows in slot id what was written to it since snapshot t - 1: it is flagged exactly if
      there was an update, and then shows the last one, which came from the session holding the id. */
  ghost predicate DeliveredAt(ver: Version, t: nat, id: U8)
    requires t < |ver.marks| && t < |ver.snaps| && id < |ver.snaps[t]|
  {
    var shown, lo, hi := ver.snaps[t][id], Since(ver.marks, t), ver.marks[t];
    && (shown.updated <==> exists w: nat :: WrittenIn(ver.ops, id, lo, hi, w))
    && (forall w: nat :: LastIn(ver.ops, id, lo, hi, w) ==>
          shown.move == ver.ops[w].move && id < |ver.owners| && w < |ver.writers| && ver.writers[w] == ver.owners[id])
  }

  lemma SnapshotDelivers(cfg: Settings, ver: Version, t: nat, id: U8)
    requires MovesOk(cfg, ver) && t < |ver.snaps| && id < cfg.playersCount
    ensures t < |ver.marks| && |ver.snaps[t]| == cfg.playersCount && DeliveredAt(ver, t, id)
  {
    assert SnapAt(cfg.playersCount, ver.ops, ver.marks, ver.snaps[t], t);
    var lo, hi, shown := Since(ver.marks, t), ver.marks[t], ver.snaps[t][id];
    NoSnapshotBetween(ver.ops, ver.marks, t);
    SnapshotShowsPending(cfg.playersCount, ver.ops, id, hi);
    hide LogOk, SlotsAfter, PendingAt;
    forall u: nat ensures PendingAt(ver.ops, id, u, hi) <==> LastIn(ver.ops, id, lo, hi, u) {
      PendingIsLast(ver.ops, id, lo, hi, u);
    }
    if w: nat :| WrittenIn(ver.ops, id, lo, hi, w) {
      var u := LastExists(ver.ops, id, lo, hi, w);
      assert PendingAt(ver.ops, id, u, hi);
    }
    forall w: nat | LastIn(ver.ops, id, lo, hi, w)
      ensures shown.move == ver.ops[w].move && id < |ver.owners| && w < |ver.writers| && ver.writers[w] == ver.owners[id]
    {
      assert PendingAt(ver.ops, id, w, hi);
      WritersOwn(cfg, ver, w);
    }
  }

  lemma WritersOwn(cfg: Settings, ver: Version, w: nat)
    requires MovesOk(cfg, ver)
    ensures WriteAt(ver.owners, ver.ops, ver.writers, w) && |ver.writers| == |ver.ops|
  {
  }

  /** In every run every update of a slot came from the session its id was issued to, and every
      snapshot the game used delivers the last update since the snapshot before it, and nothing else. */
  lemma MovesComeFromOwners(
    cfg: Settings, draws: Draws, states: seq<System>, steps: seq<Step>, i: nat, v: nat, turn: nat, id: U8)
    requires cfg.Playable() && Run(cfg, draws, states, steps) && i < |states| && Exists(states[i], v)
    ensures var ver := Ver(states[i], v);
            && (forall w: nat :: WriteAt(ver.owners, ver.ops, ver.writers, w))
            && (turn < |ver.snaps| && id < cfg.playersCount ==>
                  turn < |ver.marks| && |ver.snaps[turn]| == cfg.playersCount && DeliveredAt(ver, turn, id))
  {
    hide LogOk, ValidTrace, Registered, Distinct, DeliveredAt, WriteAt;
    RunKeeps(cfg, draws, states, steps, i);
    assert Sound(cfg, draws, states[i], v);
    var ver := Ver(states[i], v);
    forall w: nat ensures WriteAt(ver.owners, ver.ops, ver.writers, w) {
      WritersOwn(cfg, ver, w);
    }
    if turn < |ver.snaps| && id < cfg.playersCount {
      SnapshotDelivers(cfg, ver, turn, id);
    }
  }

  // ---------------------------------------------------------------- nobody waits for a superseded game

  /** The version an out-thread is at, 0 if it is between games. */
  function At(pc: OutCounter): nat {
    match pc
    case OutHello => 0
    case OutSnapshot => 0
    case OutCheck(v) => v
    case OutAccepted(v, _) => v
    case OutStarted(v, _) => v
    case OutTurns(v, _, _) => v
    case OutEnd(v, _) => v
  }

  /** In every reachable state an out-thread at a superseded game can take its next step, unless it
      waits for the scores that the main thread is just about to publish. */
  lemma SupersededNeverWaits(cfg: Settings, draws: Draws, states: seq<System>, steps: seq<Step>, i: nat, k: nat)
    requires cfg.Playable() && Run(cfg, draws, states, steps) && i < |states| && k < |states[i].sessions|
    requires 1 <= At(states[i].sessions[k].outward.pc) < |states[i].versions|
    ensures var s := states[i];
            var pc := s.sessions[k].outward.pc;
            (exists s' :: OutStep(cfg, s, s', k)) <==> !(pc.OutEnd? && Closing(s, pc.v))
  {
    var s := states[i];
    var t := s.sessions[k].outward;
    var v := At(t.pc);
    RunKeeps(cfg, draws, states, steps, i);
    SupersededFacts(cfg, draws, s, v);
    hide Inv, Run, Full, Complete;
    match t.pc
    case OutCheck(_) =>
      assert OutStep(cfg, s, SetOut(s, k, t.(pc := if s.gameStarted then OutStarted(v, false) else OutAccepted(v, 0))), k);
    case OutAccepted(_, n) =>
      if n < cfg.playersCount {
        assert OutStep(cfg, s, SetOut(s, k, Sending(t, AcceptedPlayer(n, Ver(s, v).players[n]), v, OutAccepted(v, n + 1))), k);
      } else {
        assert OutStep(cfg, s, SetOut(s, k, t.(pc := OutStarted(v, true))), k);
      }
    case OutStarted(_, a) =>
      assert OutStep(cfg, s, SetOut(s, k, Sending(t, GameStarted(Ver(s, v).players), v, OutTurns(v, a, 0))), k);
    case OutTurns(_, a, n) =>
      if InTurnLoop(cfg, n) {
        assert OutStep(cfg, s, SetOut(s, k, Sending(t, TurnMessage(Ver(s, v).turns[n]), v, OutTurns(v, a, NextTurn(n)))), k);
      } else {
        assert OutStep(cfg, s, SetOut(s, k, t.(pc := OutEnd(v, a))), k);
      }
    case OutEnd(_, a) =>
      if Ver(s, v).finished {
        assert OutStep(cfg, s, SetOut(s, k, Sending(t, GameEnded(Ver(s, v).scoreMap), v, OutSnapshot).(
                                              visits := t.visits + [Visit(v, a)])), k);
      }
  }

  lemma SupersededFacts(cfg: Settings, draws: Draws, s: System, v: nat)
    requires cfg.Playable() && Inv(cfg, draws, s) && 1 <= v < |s.versions|
    ensures var ver := Ver(s, v);
            && Full(cfg, ver) && |ver.turns| == cfg.gameLength + 1 && (ver.finished <==> !Closing(s, v))
            && (forall id: U8 :: id < cfg.playersCount ==> id in ver.players)
  {
    assert Sound(cfg, draws, s, v);
  }

  /** update_slot never throws: no in-thread ends for lack of a slot. */
  lemma NoThreadThrows(cfg: Settings, draws: Draws, states: seq<System>, steps: seq<Step>, i: nat, k: nat)
    requires cfg.Playable() && Run(cfg, draws, states, steps) && i < |states| && k < |states[i].sessions|
    ensures !states[i].sessions[k].inward.pc.InThrown?
  {
    hide Sound, MainOk;
    RunKeeps(cfg, draws, states, steps, i);
    assert InOk(states[i].versions, states[i].sessions[k].inward, k);
  }
}
