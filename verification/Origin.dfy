/** Where the server's data come from: every player of a registry is the one a session introduced in a
    Join it sent, and every move of a game is a message that the owner of the slot sent (`server.cpp`). */
module Origins {
  import opened Types
  import opened Engine
  import opened ReplicaProof
  import opened Containers
  import opened Protocol
  import opened ProtocolProof
  import opened Growth

  // ---------------------------------------------------------------- the message a thread is working on

  /** In step p session k's in-thread reads message m. */
  predicate ReadAt(states: seq<System>, steps: seq<Step>, p: nat, k: nat, m: ClientMessage) {
    && p < |steps| && p < |states| && steps[p] == In(k, m)
    && k < |states[p].sessions| && states[p].sessions[k].inward.pc.InRead?
  }

  /** After step p and up to state i the in-thread has not come back for another message. */
  predicate BusySince(states: seq<System>, k: nat, p: nat, i: nat) {
    && p < i < |states|
    && forall x :: p < x <= i ==> k < |states[x].sessions| && !states[x].sessions[k].inward.pc.InRead?
  }

  /** Since step p version v was the shared one at some moment. */
  ghost predicate SawVersion(states: seq<System>, p: nat, i: nat, v: nat) {
    exists a :: p < a < i < |states| && |states[a].versions| == v
  }

  /** Since step p a game was on at some moment. */
  ghost predicate SawStart(states: seq<System>, p: nat, i: nat) {
    exists a :: p < a < i < |states| && states[a].gameStarted
  }

  /** What the thread has looked up for the message it read in step p. */
  ghost predicate LookedUp(states: seq<System>, p: nat, i: nat, pc: InCounter) {
    match pc
    case InAct(_, v) => SawVersion(states, p, i, v)
    case InCheck(_, v) => SawVersion(states, p, i, v)
    case InUpdate(_, v) => SawVersion(states, p, i, v) && SawStart(states, p, i)
    case _ => true
  }

  function Held(pc: InCounter): Option<ClientMessage> {
    match pc
    case InRead => None
    case InSnapshot(m) => Some(m)
    case InAct(m, _) => Some(m)
    case InCheck(m, _) => Some(m)
    case InUpdate(m, _) => Some(m)
    case InThrown => None
  }

  lemma MainLeavesSessions(cfg: Settings, draws: Draws, s: System, s': System)
    requires cfg.Playable() && MainStep(cfg, draws, s, s')
    ensures s'.sessions == s.sessions
  {
    hide TraceStep, Full, Started, Appended, Snapped, GameInit, NewVersion, Ver;
  }

  lemma OutLeavesInward(cfg: Settings, s: System, s': System, k: nat)
    requires OutStep(cfg, s, s', k)
    ensures |s'.sessions| == |s.sessions|
    ensures forall j :: 0 <= j < |s.sessions| ==>
              s'.sessions[j].inward == s.sessions[j].inward && s'.sessions[j].address == s.sessions[j].address
  {
    hide Full, Ver, InTurnLoop, NextTurn;
  }

  lemma InLeavesOthers(cfg: Settings, s: System, s': System, k: nat, msg: ClientMessage)
    requires InStep(cfg, s, s', k, msg)
    ensures k < |s.sessions| == |s'.sessions|
    ensures forall j :: 0 <= j < |s.sessions| ==> s'.sessions[j].address == s.sessions[j].address
    ensures forall j :: 0 <= j < |s.sessions| && j != k ==> s'.sessions[j].inward == s.sessions[j].inward
  {
    hide Full, Ver, Admit, Written, LastId;
  }

  /** Only its own steps change an in-thread, and nothing changes a session's address. */
  lemma Inward(cfg: Settings, draws: Draws, s: System, step: Step, s': System)
    requires cfg.Playable() && Do(cfg, draws, s, step, s')
    ensures |s.sessions| <= |s'.sessions|
    ensures forall k :: 0 <= k < |s.sessions| ==> s'.sessions[k].address == s.sessions[k].address
    ensures forall k :: 0 <= k < |s.sessions| && !(step.In? && step.k == k) ==> s'.sessions[k].inward == s.sessions[k].inward
    ensures forall k :: |s.sessions| <= k < |s'.sessions| ==> s'.sessions[k].inward.pc.InRead?
    ensures step.In? ==> InStep(cfg, s, s', step.k, step.msg) && step.k < |s.sessions| == |s'.sessions|
  {
    hide MainStep, InStep, OutStep;
    match step
    case Main => MainLeavesSessions(cfg, draws, s, s');
    case In(k, msg) => InLeavesOthers(cfg, s, s', k, msg);
    case Out(k) => OutLeavesInward(cfg, s, s', k);
    case Connect(_) =>
  }

  /** The registries are as they were, and no update was made. */
  ghost predicate SameMoves(s: System, s': System) {
    && |s.versions| <= |s'.versions|
    && forall v: nat :: v < |s.versions| ==> KeptMoves(s.versions[v], s'.versions[v])
  }

  predicate KeptMoves(was: Version, now: Version) {
    && now.owners == was.owners && now.players == was.players && was.ops <= now.ops
    && forall j :: |was.ops| <= j < |now.ops| ==> now.ops[j].Snapshot?
  }

  lemma OneKept(s: System, s': System, v: nat)
    requires Exists(s, v) && |s'.versions| == |s.versions| && s'.versions == s.versions[v - 1 := Ver(s', v)]
    requires KeptMoves(Ver(s, v), Ver(s', v))
    ensures SameMoves(s, s')
  {
  }

  lemma OneMoreVersion(s: System, s': System, ver: Version)
    requires s'.versions == s.versions + [ver]
    ensures SameMoves(s, s')
  {
  }

  lemma MainSame(cfg: Settings, draws: Draws, s: System, s': System)
    requires cfg.Playable() && MainStep(cfg, draws, s, s')
    ensures SameMoves(s, s')
  {
    hide SameMoves, TraceStep, GameInit, Cleared, NewVersion, Full;
    if s.main.MainReset? {
      OneMoreVersion(s, s', NewVersion(cfg));
    } else if s'.versions == s.versions {
      Unmoved(s, s');
    } else {
      OneKept(s, s', s.main.v);
    }
  }

  lemma OthersSame(cfg: Settings, draws: Draws, s: System, step: Step, s': System)
    requires cfg.Playable() && Do(cfg, draws, s, step, s') && !step.In?
    ensures SameMoves(s, s')
  {
    hide MainStep, SameMoves;
    if step.Main? {
      MainSame(cfg, draws, s, s');
    } else {
      Unmoved(s, s');
    }
  }

  lemma Unmoved(s: System, s': System)
    ensures s'.versions == s.versions ==> SameMoves(s, s')
  {
  }

  lemma HeldNext(cfg: Settings, s: System, s': System, k: nat, msg: ClientMessage)
    requires InStep(cfg, s, s', k, msg)
    ensures var was, now := Held(s.sessions[k].inward.pc), Held(s'.sessions[k].inward.pc);
            now.Some? ==> if s.sessions[k].inward.pc.InRead? then now == Some(msg) else was == now
    ensures !s'.sessions[k].inward.pc.InRead? && s.sessions[k].inward.pc.InRead? ==>
              s'.sessions[k].inward.pc == InSnapshot(msg)
  {
  }

  lemma LookUpNext(cfg: Settings, states: seq<System>, p: nat, i: nat, k: nat, msg: ClientMessage)
    requires p < i < |states| - 1 && InStep(cfg, states[i], states[i + 1], k, msg)
    requires LookedUp(states, p, i, states[i].sessions[k].inward.pc)
    ensures LookedUp(states, p, i + 1, states[i + 1].sessions[k].inward.pc)
  {
    hide Admit, Written, Full;
    var pc := states[i].sessions[k].inward.pc;
    if pc.InSnapshot? {
      assert SawVersion(states, p, i + 1, |states[i].versions|);
    } else if pc.InAct? || pc.InCheck? {
      SawLonger(states, p, i, pc.v);
    }
  }

  lemma SawLonger(states: seq<System>, p: nat, i: nat, v: nat)
    requires i + 1 < |states|
    ensures SawVersion(states, p, i, v) ==> SawVersion(states, p, i + 1, v)
    ensures SawStart(states, p, i) ==> SawStart(states, p, i + 1)
  {
  }

  /** The message an in-thread is working on is the last one it has read, and what it knows it has looked
      up since. */
  lemma {:induction false} CurrentMessage(
    cfg: Settings, draws: Draws, states: seq<System>, steps: seq<Step>, i: nat, k: nat) returns (p: nat)
    requires cfg.Playable() && Run(cfg, draws, states, steps) && i < |states| && k < |states[i].sessions|
    requires Held(states[i].sessions[k].inward.pc).Some?
    ensures ReadAt(states, steps, p, k, Held(states[i].sessions[k].inward.pc).value) && BusySince(states, k, p, i)
    ensures LookedUp(states, p, i, states[i].sessions[k].inward.pc)
  {
    hide Do, InStep, SawVersion, SawStart;
    assert i > 0;
    assert RunStep(cfg, draws, states, steps, i - 1);
    var s, step := states[i - 1], steps[i - 1];
    Inward(cfg, draws, s, step, states[i]);
    if step.In? && step.k == k {
      HeldNext(cfg, s, states[i], k, step.msg);
      if s.sessions[k].inward.pc.InRead? {
        p := i - 1;
      } else {
        p := CurrentMessage(cfg, draws, states, steps, i - 1, k);
        LookUpNext(cfg, states, p, i - 1, k, step.msg);
      }
    } else {
      p := CurrentMessage(cfg, draws, states, steps, i - 1, k);
      var pc := s.sessions[k].inward.pc;
      SawLonger(states, p, i - 1, if pc.InAct? || pc.InCheck? || pc.InUpdate? then pc.v else 0);
    }
  }

  // ---------------------------------------------------------------- who the players are

  /** In step q version v admitted session k, while it was working on a Join it had read in step p; the
      version was the shared one in between. */
  ghost predicate Introduced(
    states: seq<System>, steps: seq<Step>, p: nat, q: nat, v: nat, id: nat, k: nat, name: Bytes)
  {
    && ReadAt(states, steps, p, k, Join(name)) && BusySince(states, k, p, q) && q + 1 < |states|
    && Exists(states[q], v) && Exists(states[q + 1], v)
    && SawVersion(states, p, q, v) && |Ver(states[q], v).owners| == id
    && Ver(states[q + 1], v).owners == Ver(states[q], v).owners + [k]
  }

  lemma Newcomer(cfg: Settings, ver: Version, k: nat, player: Player)
    requires Registered(ver.players, cfg.playersCount) && !Full(cfg, ver) && |ver.owners| == |ver.players|
    ensures var ver' := Admit(cfg, ver, k, player);
            && ver'.owners == ver.owners + [k] && |ver.owners| in ver'.players && ver'.players[|ver.owners|] == player
  {
    assert |ver.players| !in ver.players.Keys;
  }

  lemma AdmitStep(cfg: Settings, draws: Draws, s: System, s': System, k: nat, msg: ClientMessage, v: nat)
    requires cfg.Playable() && Inv(cfg, draws, s) && InStep(cfg, s, s', k, msg) && Exists(s, v) && Exists(s', v)
    requires Ver(s', v).owners != Ver(s, v).owners
    ensures k < |s.sessions| && s.sessions[k].inward.pc.InAct? && s.sessions[k].inward.pc.msg.Join?
    ensures s.sessions[k].inward.pc.v == v
    ensures var ver, ver', id := Ver(s, v), Ver(s', v), |Ver(s, v).owners|;
            && ver'.owners == ver.owners + [k] && id in ver'.players
            && ver'.players[id] == Player(s.sessions[k].inward.pc.msg.name, s.sessions[k].address)
  {
    hide Inv, Admit, Updated, Registered, Full, LastId;
    RegistryIsIds(cfg, draws, s, v);
    var pc := s.sessions[k].inward.pc;
    if pc.InAct? && pc.msg.Join? && !Full(cfg, Ver(s, v)) {
      Newcomer(cfg, Ver(s, v), k, Player(pc.msg.name, s.sessions[k].address));
    }
  }

  /** Every registered player is a session that introduced itself: the name is that of a Join it had read,
      the one it was admitted for, and the address is its own. */
  lemma {:induction false} PlayersAreWhoTheySay(
    cfg: Settings, draws: Draws, states: seq<System>, steps: seq<Step>, i: nat, v: nat, id: U8)
    requires cfg.Playable() && Run(cfg, draws, states, steps) && i < |states| && Exists(states[i], v)
    requires id < |Ver(states[i], v).owners|
    ensures var s := states[i];
            var ver, k := Ver(s, v), Ver(s, v).owners[id];
            && k < |s.sessions| && id in ver.players && ver.players[id].address == s.sessions[k].address
            && exists p: nat, q: nat :: q < i && Introduced(states, steps, p, q, v, id, k, ver.players[id].name)
  {
    hide Inv, Do, InStep, SameMoves, VersionGrows, Introduced, KeptMoves;
    RunKeeps(cfg, draws, states, steps, i);
    if i == 0 {
      NobodyYet(cfg, states[0], v);
    } else {
      RunKeeps(cfg, draws, states, steps, i - 1);
      assert RunStep(cfg, draws, states, steps, i - 1);
      var s, s', step := states[i - 1], states[i], steps[i - 1];
      Inward(cfg, draws, s, step, s');
      StepGrows(cfg, draws, s, step, s');
      if Exists(s, v) && id < |Ver(s, v).owners| {
        PlayersAreWhoTheySay(cfg, draws, states, steps, i - 1, v, id);
        assert VersionGrows(cfg, s.versions[v - 1], s'.versions[v - 1]);
        StillThere(cfg, s.versions[v - 1], s'.versions[v - 1], id);
      } else {
        NewPlayer(cfg, draws, states, steps, i, v, id);
      }
    }
  }

  lemma NobodyYet(cfg: Settings, s: System, v: nat)
    requires Init(cfg, s) && Exists(s, v)
    ensures Ver(s, v).owners == [] && Ver(s, v).ops == []
  {
  }

  lemma StillThere(cfg: Settings, was: Version, now: Version, id: U8)
    requires VersionGrows(cfg, was, now) && id in was.players && id < |was.owners|
    ensures id in now.players && now.players[id] == was.players[id] && now.owners[id] == was.owners[id]
  {
  }

  /** A version that is new has no players and no moves. */
  lemma NewIsEmpty(cfg: Settings, draws: Draws, s: System, step: Step, s': System, v: nat)
    requires cfg.Playable() && Do(cfg, draws, s, step, s') && Exists(s', v) && !Exists(s, v)
    ensures Ver(s', v).owners == [] && Ver(s', v).ops == [] && !step.In?
  {
    hide TraceStep, Full, Started, Admit, Updated, Cleared, GameInit;
  }

  lemma SameOwners(s: System, s': System, v: nat)
    requires SameMoves(s, s') && Exists(s, v)
    ensures Exists(s', v) && KeptMoves(Ver(s, v), Ver(s', v)) && Ver(s', v).owners == Ver(s, v).owners
  {
  }

  /** The step that admitted the player. */
  lemma NewPlayer(cfg: Settings, draws: Draws, states: seq<System>, steps: seq<Step>, i: nat, v: nat, id: U8)
    requires cfg.Playable() && Run(cfg, draws, states, steps) && 0 < i < |states| && Exists(states[i], v)
    requires id < |Ver(states[i], v).owners| && Inv(cfg, draws, states[i - 1])
    requires !(Exists(states[i - 1], v) && id < |Ver(states[i - 1], v).owners|)
    ensures var s := states[i];
            var ver, k := Ver(s, v), Ver(s, v).owners[id];
            && k < |s.sessions| && id in ver.players && ver.players[id].address == s.sessions[k].address
            && exists p: nat, q: nat :: q < i && Introduced(states, steps, p, q, v, id, k, ver.players[id].name)
  {
    hide Inv, Do, InStep, SameMoves, KeptMoves;
    assert RunStep(cfg, draws, states, steps, i - 1);
    var s, s', step := states[i - 1], states[i], steps[i - 1];
    Inward(cfg, draws, s, step, s');
    if !Exists(s, v) {
      NewIsEmpty(cfg, draws, s, step, s', v);
    } else if !step.In? {
      OthersSame(cfg, draws, s, step, s');
      SameOwners(s, s', v);
    } else {
      AdmitStep(cfg, draws, s, s', step.k, step.msg, v);
      var p := CurrentMessage(cfg, draws, states, steps, i - 1, step.k);
      assert Introduced(states, steps, p, i - 1, v, id, step.k, s.sessions[step.k].inward.pc.msg.name);
    }
  }

  // ---------------------------------------------------------------- where the moves come from

  /** In step q update number j of version v was made by session k, which was working on message m that it
      had read in step p; in between the version was the shared one and a game was on, and afterwards the
      thread is done with the message. */
  ghost predicate Passed(
    states: seq<System>, steps: seq<Step>, p: nat, q: nat, v: nat, j: nat, k: nat, m: ClientMessage)
  {
    && ReadAt(states, steps, p, k, m) && BusySince(states, k, p, q) && q + 1 < |states|
    && Exists(states[q], v) && Exists(states[q + 1], v)
    && SawVersion(states, p, q, v) && SawStart(states, p, q)
    && |Ver(states[q], v).ops| == j && |Ver(states[q + 1], v).ops| == j + 1
    && k < |states[q + 1].sessions| && states[q + 1].sessions[k].inward.pc.InRead?
  }

  lemma WriteStep(cfg: Settings, draws: Draws, s: System, s': System, k: nat, msg: ClientMessage, v: nat)
    requires cfg.Playable() && Inv(cfg, draws, s) && InStep(cfg, s, s', k, msg) && Exists(s, v) && Exists(s', v)
    requires Ver(s', v).ops != Ver(s, v).ops
    ensures k < |s.sessions| == |s'.sessions| && s.sessions[k].inward.pc.InUpdate? && s'.sessions[k].inward.pc.InRead?
    ensures s.sessions[k].inward.pc.v == v
    ensures |Ver(s', v).ops| == |Ver(s, v).ops| + 1
    ensures Ver(s', v).ops[|Ver(s, v).ops|] == Update(s.sessions[k].inward.id, s.sessions[k].inward.pc.msg)
    ensures Ver(s', v).writers == Ver(s, v).writers + [k] && |Ver(s, v).writers| == |Ver(s, v).ops|
  {
    hide AfterJoin, Updated, Full, LastId, ValidTrace, Registered, MainOk, InsOk, PastOk;
    assert Sound(cfg, draws, s, v);
  }

  /** Every move written into a slot is a message its writer had read, the one it was working on. */
  lemma {:induction false} MovesAreWhatTheySay(
    cfg: Settings, draws: Draws, states: seq<System>, steps: seq<Step>, i: nat, v: nat, j: nat)
    requires cfg.Playable() && Run(cfg, draws, states, steps) && i < |states| && Exists(states[i], v)
    requires j < |Ver(states[i], v).ops| && Ver(states[i], v).ops[j].Update?
    ensures var ver := Ver(states[i], v);
            && j < |ver.writers|
            && exists p: nat, q: nat :: q < i && Passed(states, steps, p, q, v, j, ver.writers[j], ver.ops[j].move)
  {
    hide Inv, Do, InStep, SameMoves, VersionGrows, Passed, KeptMoves;
    if i == 0 {
      NobodyYet(cfg, states[0], v);
    } else {
      RunKeeps(cfg, draws, states, steps, i - 1);
      assert RunStep(cfg, draws, states, steps, i - 1);
      var s, s', step := states[i - 1], states[i], steps[i - 1];
      Inward(cfg, draws, s, step, s');
      StepGrows(cfg, draws, s, step, s');
      if Exists(s, v) && j < |Ver(s, v).ops| {
        assert VersionGrows(cfg, s.versions[v - 1], s'.versions[v - 1]);
        StillMoved(cfg, s.versions[v - 1], s'.versions[v - 1], j);
        MovesAreWhatTheySay(cfg, draws, states, steps, i - 1, v, j);
        StillWritten(cfg, s.versions[v - 1], s'.versions[v - 1], j);
      } else {
        NewMove(cfg, draws, states, steps, i, v, j);
      }
    }
  }

  lemma StillMoved(cfg: Settings, was: Version, now: Version, j: nat)
    requires VersionGrows(cfg, was, now) && j < |was.ops|
    ensures j < |now.ops| && now.ops[j] == was.ops[j]
  {
  }

  lemma StillWritten(cfg: Settings, was: Version, now: Version, j: nat)
    requires VersionGrows(cfg, was, now) && j < |was.writers|
    ensures j < |now.writers| && now.writers[j] == was.writers[j]
  {
  }

  lemma NoMoves(s: System, s': System, v: nat, j: nat)
    requires SameMoves(s, s') && Exists(s, v) && Exists(s', v) && |Ver(s, v).ops| <= j < |Ver(s', v).ops|
    ensures Ver(s', v).ops[j].Snapshot?
  {
    assert KeptMoves(Ver(s, v), Ver(s', v));
  }

  lemma NewMove(cfg: Settings, draws: Draws, states: seq<System>, steps: seq<Step>, i: nat, v: nat, j: nat)
    requires cfg.Playable() && Run(cfg, draws, states, steps) && 0 < i < |states| && Exists(states[i], v)
    requires j < |Ver(states[i], v).ops| && Ver(states[i], v).ops[j].Update? && Inv(cfg, draws, states[i - 1])
    requires !(Exists(states[i - 1], v) && j < |Ver(states[i - 1], v).ops|)
    ensures var ver := Ver(states[i], v);
            && j < |ver.writers|
            && exists p: nat, q: nat :: q < i && Passed(states, steps, p, q, v, j, ver.writers[j], ver.ops[j].move)
  {
    hide Inv, Do, InStep, SameMoves, KeptMoves;
    assert RunStep(cfg, draws, states, steps, i - 1);
    var s, s', step := states[i - 1], states[i], steps[i - 1];
    Inward(cfg, draws, s, step, s');
    if !Exists(s, v) {
      NewIsEmpty(cfg, draws, s, step, s', v);
    } else if !step.In? {
      OthersSame(cfg, draws, s, step, s');
      NoMoves(s, s', v, j);
    } else {
      WriteStep(cfg, draws, s, s', step.k, step.msg, v);
      assert j == |Ver(s, v).ops| && Ver(s', v).ops[j] == Update(s.sessions[step.k].inward.id, s.sessions[step.k].inward.pc.msg);
      assert Ver(s', v).writers[j] == step.k;
      var p := CurrentMessage(cfg, draws, states, steps, i - 1, step.k);
      assert Passed(states, steps, p, i - 1, v, j, step.k, s.sessions[step.k].inward.pc.msg);
    }
  }

  /** A message is written at most once, and a session's messages in the order in which it read them. */
  lemma OneMoveEach(
    states: seq<System>, steps: seq<Step>, p: nat, q: nat, v: nat, j: nat, p': nat, q': nat, v': nat, j': nat,
    k: nat, m: ClientMessage, m': ClientMessage)
    requires Passed(states, steps, p, q, v, j, k, m) && Passed(states, steps, p', q', v', j', k, m')
    ensures q < q' ==> p < p'
    ensures p == p' ==> q == q'
  {
  }
}
