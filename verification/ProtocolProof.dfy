/** Safety of the server's threads in every interleaving: the containers of a superseded game are
    complete and harmless, ids belong to one session each, and no thread throws. */
module ProtocolProof {
  import opened Types
  import opened Engine
  import opened ReplicaProof
  import opened Containers
  import opened Protocol

  // ---------------------------------------------------------------- the invariant

  /** Update number j came from the session that was issued its slot's id, and is no Join. */
  predicate WriteAt(owners: seq<nat>, ops: seq<MoveOp>, writers: seq<nat>, j: nat) {
    j < |ops| == |writers| && ops[j].Update? ==>
      ops[j].slot < |owners| && owners[ops[j].slot] == writers[j] && !ops[j].move.Join?
  }

  predicate MarkAt(ops: seq<MoveOp>, marks: seq<nat>, t: nat) {
    t < |marks| ==> marks[t] < |ops| && ops[marks[t]].Snapshot?
  }

  /** The marks are exactly the snapshots, in order. */
  ghost predicate MarksOk(ops: seq<MoveOp>, marks: seq<nat>) {
    && (forall t: nat :: MarkAt(ops, marks, t))
    && (forall t, u :: 0 <= t < u < |marks| ==> marks[t] < marks[u])
    && (forall j :: 0 <= j < |ops| && ops[j].Snapshot? ==> j in marks)
  }

  /** Snapshot t shows what the container held when it was taken. */
  predicate SnapAt(n: nat, ops: seq<MoveOp>, marks: seq<nat>, snap: seq<Slot>, t: nat) {
    t < |marks| && marks[t] <= |ops| && snap == SlotsAfter(n, ops[..marks[t]])
  }

  ghost predicate SnapsOk(n: nat, ops: seq<MoveOp>, marks: seq<nat>, snaps: seq<seq<Slot>>) {
    forall t: nat :: t < |snaps| ==> SnapAt(n, ops, marks, snaps[t], t)
  }

  /** The move container and its history agree. */
  ghost predicate LogOk(
    n: nat, owners: seq<nat>, ops: seq<MoveOp>, writers: seq<nat>, marks: seq<nat>, slots: seq<Slot>,
    snaps: seq<seq<Slot>>)
  {
    && |writers| == |ops| && slots == SlotsAfter(n, ops)
    && (forall j: nat :: WriteAt(owners, ops, writers, j))
    && MarksOk(ops, marks) && SnapsOk(n, ops, marks, snaps)
  }

  ghost predicate MovesOk(cfg: Settings, ver: Version) {
    LogOk(cfg.playersCount, ver.owners, ver.ops, ver.writers, ver.marks, ver.slots, ver.snaps)
  }

  lemma LogAdmits(
    n: nat, owners: seq<nat>, k: nat, ops: seq<MoveOp>, writers: seq<nat>, marks: seq<nat>, slots: seq<Slot>,
    snaps: seq<seq<Slot>>)
    requires LogOk(n, owners, ops, writers, marks, slots, snaps)
    ensures LogOk(n, owners + [k], ops, writers, marks, slots, snaps)
  {
    hide MarksOk, SnapsOk;
    forall j: nat ensures WriteAt(owners + [k], ops, writers, j) {
      assert WriteAt(owners, ops, writers, j);
    }
  }

  lemma SnapsStable(n: nat, ops: seq<MoveOp>, ops': seq<MoveOp>, marks: seq<nat>, marks': seq<nat>, snaps: seq<seq<Slot>>)
    requires SnapsOk(n, ops, marks, snaps) && ops <= ops' && marks <= marks'
    ensures SnapsOk(n, ops', marks', snaps)
  {
    forall t: nat | t < |snaps| ensures SnapAt(n, ops', marks', snaps[t], t) {
      SnapStable(n, ops, ops', marks, marks', snaps[t], t);
    }
  }

  lemma SnapStable(n: nat, ops: seq<MoveOp>, ops': seq<MoveOp>, marks: seq<nat>, marks': seq<nat>, snap: seq<Slot>, t: nat)
    requires SnapAt(n, ops, marks, snap, t) && ops <= ops' && marks <= marks'
    ensures SnapAt(n, ops', marks', snap, t)
  {
    assert ops'[..marks[t]] == ops[..marks[t]];
  }

  lemma SlotsAfterOne(n: nat, ops: seq<MoveOp>, op: MoveOp)
    ensures SlotsAfter(n, ops + [op]) ==
            if op.Update? then Updated(SlotsAfter(n, ops), op.slot, op.move) else Cleared(SlotsAfter(n, ops))
  {
    assert (ops + [op])[..|ops + [op]| - 1] == ops;
  }

  lemma LogWrites(
    n: nat, owners: seq<nat>, ops: seq<MoveOp>, writers: seq<nat>, marks: seq<nat>, slots: seq<Slot>,
    snaps: seq<seq<Slot>>, id: U8, k: nat, move: ClientMessage)
    requires LogOk(n, owners, ops, writers, marks, slots, snaps)
    requires id < |owners| && owners[id] == k && !move.Join?
    ensures LogOk(n, owners, ops + [Update(id, move)], writers + [k], marks, Updated(slots, id, move), snaps)
  {
    hide SnapsOk, SlotsAfter, Updated;
    var ops', writers' := ops + [Update(id, move)], writers + [k];
    SlotsAfterOne(n, ops, Update(id, move));
    forall j: nat ensures WriteAt(owners, ops', writers', j) {
      assert WriteAt(owners, ops, writers, j);
    }
    forall t: nat ensures MarkAt(ops', marks, t) {
      assert MarkAt(ops, marks, t);
    }
    SnapsStable(n, ops, ops', marks, marks, snaps);
  }

  lemma LogSnaps(
    n: nat, owners: seq<nat>, ops: seq<MoveOp>, writers: seq<nat>, marks: seq<nat>, slots: seq<Slot>,
    snaps: seq<seq<Slot>>)
    requires LogOk(n, owners, ops, writers, marks, slots, snaps)
    ensures LogOk(n, owners, ops + [Snapshot], writers + [0], marks + [|ops|], Cleared(slots), snaps)
    ensures SnapAt(n, ops + [Snapshot], marks + [|ops|], slots, |marks|)
  {
    hide SnapsOk, SlotsAfter, Cleared;
    var ops', writers', marks' := ops + [Snapshot], writers + [0], marks + [|ops|];
    SlotsAfterOne(n, ops, Snapshot);
    forall j: nat ensures WriteAt(owners, ops', writers', j) {
      assert WriteAt(owners, ops, writers, j);
    }
    forall t: nat ensures MarkAt(ops', marks', t) {
      assert MarkAt(ops, marks, t);
    }
    forall t | 0 <= t < |marks| ensures marks[t] < |ops| {
      assert MarkAt(ops, marks, t);
    }
    forall j | 0 <= j < |ops'| && ops'[j].Snapshot? ensures j in marks' {
      if j == |ops| {
        assert marks'[|marks|] == j;
      } else {
        assert j in marks;
      }
    }
    SnapsStable(n, ops, ops', marks, marks', snaps);
    assert ops'[..|ops|] == ops;
  }

  ghost predicate VersionOk(cfg: Settings, draws: Draws, ver: Version, sessions: nat)
    requires cfg.Playable()
  {
    && Registered(ver.players, cfg.playersCount)
    && |ver.slots| == cfg.playersCount
    && ValidTrace(cfg, draws, ver.Game())
    && |ver.owners| == |ver.players| && Distinct(ver.owners)
    && (forall k :: k in ver.owners ==> k < sessions)
    && MovesOk(cfg, ver)
    && (if ver.turns == [] then ver.marks == [] else Full(cfg, ver))
    && (ver.finished ==> Complete(cfg, ver) && ver.scoreMap == ver.states[cfg.gameLength].world.scores)
  }

  /** Superseded versions are full and complete, and finished unless the main thread is still to say so. */
  predicate PastOk(cfg: Settings, ver: Version, superseded: bool, closing: bool) {
    if superseded then Full(cfg, ver) && Complete(cfg, ver) && ver.finished == !closing else !ver.finished
  }

  predicate Closing(s: System, v: nat) {
    s.main.MainFinish? && s.main.v == v
  }

  ghost predicate Sound(cfg: Settings, draws: Draws, s: System, v: nat)
    requires cfg.Playable() && Exists(s, v)
  {
    VersionOk(cfg, draws, Ver(s, v), |s.sessions|) && PastOk(cfg, Ver(s, v), v < |s.versions|, Closing(s, v))
  }

  /** Where the main thread is and what the current version looks like meanwhile. */
  ghost predicate MainOk(cfg: Settings, draws: Draws, s: System)
    requires cfg.Playable()
  {
    var cur := |s.versions|;
    && cur >= 1
    && var ver := Ver(s, cur);
    match s.main
    case MainSnapshot => !s.gameStarted && ver.turns == []
    case MainWait(v) => v == cur && !s.gameStarted && ver.turns == []
    case MainStart(v) => v == cur && !s.gameStarted && ver.turns == [] && Full(cfg, ver)
    case MainInit(v) => v == cur && s.gameStarted && ver.turns == [] && Full(cfg, ver)
    case MainLoop(v, st, i) =>
      && v == cur && s.gameStarted && i <= cfg.gameLength
      && |ver.turns| == |ver.states| == i + 1 && st == ver.states[i] && |ver.marks| == |ver.snaps|
    case MainAppend(v, next, snapshot, turn, i) =>
      && v == cur && s.gameStarted && i < cfg.gameLength
      && |ver.turns| == |ver.states| == i + 1 && |ver.marks| == |ver.snaps| + 1
      && SnapAt(cfg.playersCount, ver.ops, ver.marks, snapshot, |ver.snaps|)
      && TraceStep(cfg, draws, snapshot, ver.states[i], turn, next)
    case MainReset(v, scores) =>
      && v == cur && s.gameStarted && |ver.turns| == |ver.states| == cfg.gameLength + 1
      && scores == ver.states[cfg.gameLength].world.scores
    case MainFinish(v, scores) =>
      && v == cur - 1 && v >= 1 && !s.gameStarted && ver.turns == []
      && var past := Ver(s, v); |past.states| == cfg.gameLength + 1
                                && scores == past.states[cfg.gameLength].world.scores
  }

  /** Version v issued the id to session k. */
  predicate Owns(versions: seq<Version>, v: nat, id: U8, k: nat) {
    1 <= v <= |versions| && id < |versions[v - 1].owners| && versions[v - 1].owners[id] == k
  }

  /** A session has no id in a version it has not seen, and in the one it saw last only if it knows. */
  predicate Known(versions: seq<Version>, v: nat, t: InThread, k: nat) {
    1 <= v <= |versions| && k in versions[v - 1].owners ==> v <= t.last && (v == t.last ==> t.joined)
  }

  ghost predicate InOk(versions: seq<Version>, t: InThread, k: nat) {
    && t.last <= |versions|
    && (t.joined ==> Owns(versions, t.last, t.id, k))
    && (forall v: nat :: Known(versions, v, t, k))
    && PlaceOk(t)
  }

  predicate PlaceOk(t: InThread) {
    match t.pc
    case InRead => true
    case InSnapshot(_) => true
    case InAct(_, v) => 1 <= v == t.last
    case InCheck(m, v) => 1 <= v == t.last && t.joined && !m.Join?
    case InUpdate(m, v) => 1 <= v == t.last && t.joined && !m.Join?
    case InThrown => false
  }

  ghost predicate InsOk(s: System) {
    forall k :: 0 <= k < |s.sessions| ==> InOk(s.versions, s.sessions[k].inward, k)
  }

  ghost predicate Inv(cfg: Settings, draws: Draws, s: System)
    requires cfg.Playable()
  {
    && (forall v: nat :: Exists(s, v) ==> Sound(cfg, draws, s, v))
    && MainOk(cfg, draws, s)
    && InsOk(s)
  }

  // ---------------------------------------------------------------- growing traces

  lemma EmptyTrace(cfg: Settings, draws: Draws)
    requires cfg.Playable()
    ensures ValidTrace(cfg, draws, Trace([], [], []))
  {
  }

  lemma FirstTrace(cfg: Settings, draws: Draws)
    requires cfg.Playable()
    ensures var o := GameInit(cfg, draws); ValidTrace(cfg, draws, Trace([Turn(0, o.events)], [o.state], []))
  {
  }

  lemma LongerTrace(cfg: Settings, draws: Draws, tr: Trace, slots: seq<Slot>, turn: Turn, next: ServerState)
    requires cfg.Playable() && ValidTrace(cfg, draws, tr) && 0 < |tr.turns| <= cfg.gameLength
    requires TraceStep(cfg, draws, slots, tr.states[|tr.states| - 1], turn, next)
    ensures ValidTrace(cfg, draws, Trace(tr.turns + [turn], tr.states + [next], tr.snaps + [slots]))
  {
    hide TraceStep, GameInit;
    var longer := Trace(tr.turns + [turn], tr.states + [next], tr.snaps + [slots]);
    forall k | 0 <= k < |longer.turns| - 1 ensures StepAt(cfg, draws, longer, k) {
      if k < |tr.turns| - 1 {
        assert StepAt(cfg, draws, tr, k);
      }
    }
  }

  // ---------------------------------------------------------------- steps of the main thread

  /** Nothing an in-thread relies on has changed. */
  ghost predicate OwnersKept(was: seq<Version>, now: seq<Version>) {
    && |was| <= |now|
    && (forall v: nat :: v < |was| ==> now[v].owners == was[v].owners)
    && (forall v: nat :: |was| <= v < |now| ==> now[v].owners == [])
  }

  lemma InStable(was: seq<Version>, now: seq<Version>, t: InThread, k: nat)
    requires OwnersKept(was, now) && InOk(was, t, k)
    ensures InOk(now, t, k)
  {
    forall v: nat ensures Known(now, v, t, k) {
      assert Known(was, v, t, k);
    }
  }

  lemma InsStable(s: System, s': System)
    requires OwnersKept(s.versions, s'.versions) && s'.sessions == s.sessions && InsOk(s)
    ensures InsOk(s')
  {
    hide InOk, OwnersKept;
    forall k | 0 <= k < |s'.sessions| ensures InOk(s'.versions, s'.sessions[k].inward, k) {
      InStable(s.versions, s'.versions, s.sessions[k].inward, k);
    }
  }

  /** One version was replaced, all others are as before. */
  lemma OthersSound(cfg: Settings, draws: Draws, s: System, s': System, v: nat)
    requires cfg.Playable() && Exists(s, v) && |s'.versions| == |s.versions| && |s'.sessions| == |s.sessions|
    requires s'.versions == s.versions[v - 1 := Ver(s', v)]
    requires forall u: nat :: Exists(s, u) ==> Sound(cfg, draws, s, u)
    requires Sound(cfg, draws, s', v)
    requires s.main.MainFinish? ==> s.main.v == v || s'.main == s.main
    requires s'.main.MainFinish? ==> s'.main == s.main
    ensures forall u: nat :: Exists(s', u) ==> Sound(cfg, draws, s', u)
  {
    hide VersionOk;
    forall u: nat | Exists(s', u) ensures Sound(cfg, draws, s', u) {
      if u != v {
        assert Sound(cfg, draws, s, u);
        assert Ver(s', u) == Ver(s, u);
      }
    }
  }

  lemma SoundStable(cfg: Settings, draws: Draws, s: System, s': System)
    requires cfg.Playable() && s'.versions == s.versions && |s'.sessions| >= |s.sessions|
    requires forall u: nat :: Exists(s, u) ==> Sound(cfg, draws, s, u)
    requires s.main.MainFinish? || s'.main.MainFinish? ==> s'.main == s.main
    ensures forall u: nat :: Exists(s', u) ==> Sound(cfg, draws, s', u)
  {
    hide ValidTrace, Registered, MovesOk, Distinct, Complete, Full;
    forall u: nat | Exists(s', u) ensures Sound(cfg, draws, s', u) {
      assert Sound(cfg, draws, s, u);
    }
  }

  lemma StartKeeps(cfg: Settings, draws: Draws, s: System, s': System)
    requires cfg.Playable() && Inv(cfg, draws, s) && MainStep(cfg, draws, s, s')
    requires s.main.MainSnapshot? || s.main.MainWait? || s.main.MainStart?
    ensures Inv(cfg, draws, s')
  {
    hide VersionOk, InOk;
    SoundStable(cfg, draws, s, s');
    InsStable(s, s');
  }

  lemma InitKeeps(cfg: Settings, draws: Draws, s: System, s': System)
    requires cfg.Playable() && Inv(cfg, draws, s) && MainStep(cfg, draws, s, s') && s.main.MainInit?
    ensures Inv(cfg, draws, s')
  {
    hide InOk, Registered, Distinct, GameInit, LogOk;
    var v, none: seq<Turn> := s.main.v, [];
    assert Sound(cfg, draws, s, v);
    FirstTrace(cfg, draws);
    var ver := Ver(s, v);
    assert ver.Game().turns == [];
    assert Started(cfg, draws, ver).Game().turns == [Turn(0, GameInit(cfg, draws).events)];
    assert Started(cfg, draws, ver).Game().states == [GameInit(cfg, draws).state];
    assert ver.snaps == [] && ver.marks == [];
    SameVersion(cfg, draws, ver, Started(cfg, draws, ver), |s.sessions|);
    assert Sound(cfg, draws, s', v);
    OthersSound(cfg, draws, s, s', v);
    InsStable(s, s');
  }

  /** Replacing the trace and the moves of a full version by other valid ones. */
  lemma SameVersion(cfg: Settings, draws: Draws, ver: Version, ver': Version, sessions: nat)
    requires cfg.Playable() && VersionOk(cfg, draws, ver, sessions) && Full(cfg, ver)
    requires ver'.players == ver.players && ver'.owners == ver.owners
    requires ver'.finished == ver.finished && ver'.scoreMap == ver.scoreMap
    requires ValidTrace(cfg, draws, ver'.Game()) && ver'.turns != [] && |ver'.slots| == |ver.slots|
    requires MovesOk(cfg, ver')
    requires ver.finished ==> Complete(cfg, ver') && ver.scoreMap == ver'.states[cfg.gameLength].world.scores
    ensures VersionOk(cfg, draws, ver', sessions)
  {
    hide ValidTrace, Registered, Distinct, LogOk;
  }

  lemma SnappedVersion(cfg: Settings, draws: Draws, ver: Version, sessions: nat)
    requires cfg.Playable() && VersionOk(cfg, draws, ver, sessions) && ver.turns != []
    ensures var ver' := Snapped(ver);
            && VersionOk(cfg, draws, ver', sessions)
            && SnapAt(cfg.playersCount, ver'.ops, ver'.marks, ver.slots, |ver.marks|)
            && ver'.turns == ver.turns && ver'.states == ver.states && ver'.snaps == ver.snaps
            && |ver'.marks| == |ver.marks| + 1 && ver'.owners == ver.owners
    ensures forall superseded, closing :: PastOk(cfg, Snapped(ver), superseded, closing) == PastOk(cfg, ver, superseded, closing)
  {
    hide ValidTrace, LogOk;
    var ver' := Snapped(ver);
    assert ver'.Game() == ver.Game();
    LogSnaps(cfg.playersCount, ver.owners, ver.ops, ver.writers, ver.marks, ver.slots, ver.snaps);
    SameVersion(cfg, draws, ver, ver', sessions);
  }

  lemma SnapshotKeeps(cfg: Settings, draws: Draws, s: System, s': System)
    requires cfg.Playable() && Inv(cfg, draws, s) && MainStep(cfg, draws, s, s')
    requires s.main.MainLoop? && s.main.i < cfg.gameLength
    ensures Inv(cfg, draws, s')
  {
    hide InOk, ValidTrace, TraceStep;
    hide VersionOk, SnapAt, Snapped, Full, Complete;
    var v := s.main.v;
    assert Sound(cfg, draws, s, v);
    SnappedVersion(cfg, draws, Ver(s, v), |s.sessions|);
    assert Sound(cfg, draws, s', v);
    OthersSound(cfg, draws, s, s', v);
    InsStable(s, s');
  }

  lemma LoopEndKeeps(cfg: Settings, draws: Draws, s: System, s': System)
    requires cfg.Playable() && Inv(cfg, draws, s) && MainStep(cfg, draws, s, s')
    requires s.main.MainLoop? && s.main.i >= cfg.gameLength
    ensures Inv(cfg, draws, s')
  {
    hide InOk, VersionOk;
    SoundStable(cfg, draws, s, s');
    InsStable(s, s');
  }

  lemma AppendKeeps(cfg: Settings, draws: Draws, s: System, s': System)
    requires cfg.Playable() && Inv(cfg, draws, s) && MainStep(cfg, draws, s, s') && s.main.MainAppend?
    ensures Inv(cfg, draws, s')
  {
    hide InOk, ValidTrace, TraceStep, SnapAt;
    var v, m := s.main.v, s.main;
    var ver := Ver(s, v);
    assert Sound(cfg, draws, s, v);
    LongerTrace(cfg, draws, ver.Game(), m.snapshot, m.turn, m.next);
    var ver' := Appended(ver, m.next, m.snapshot, m.turn);
    assert ver'.Game() == Trace(ver.turns + [m.turn], ver.states + [m.next], ver.snaps + [m.snapshot]);
    assert MovesOk(cfg, ver');
    SameVersion(cfg, draws, ver, ver', |s.sessions|);
    assert Sound(cfg, draws, s', v);
    OthersSound(cfg, draws, s, s', v);
    InsStable(s, s');
  }

  lemma NewVersionOk(cfg: Settings, draws: Draws, sessions: nat)
    requires cfg.Playable()
    ensures VersionOk(cfg, draws, NewVersion(cfg), sessions)
  {
    EmptyTrace(cfg, draws);
    assert NewVersion(cfg).Game() == Trace([], [], []);
    assert NewVersion(cfg).players.Keys == Ids(0);
  }

  lemma PlayedIsFull(cfg: Settings, draws: Draws, ver: Version, sessions: nat)
    requires cfg.Playable() && VersionOk(cfg, draws, ver, sessions) && ver.turns != []
    ensures Full(cfg, ver)
  {
  }

  lemma ResetKeeps(cfg: Settings, draws: Draws, s: System, s': System)
    requires cfg.Playable() && Inv(cfg, draws, s) && MainStep(cfg, draws, s, s') && s.main.MainReset?
    ensures Inv(cfg, draws, s')
  {
    hide InOk, VersionOk;
    NewVersionOk(cfg, draws, |s.sessions|);
    PlayedIsFull(cfg, draws, Ver(s, s.main.v), |s.sessions|);
    forall u: nat | Exists(s', u) ensures Sound(cfg, draws, s', u) {
      if u <= |s.versions| {
        assert Sound(cfg, draws, s, u);
        assert Ver(s', u) == Ver(s, u);
      }
    }
    InsStable(s, s');
  }

  lemma FinishKeeps(cfg: Settings, draws: Draws, s: System, s': System)
    requires cfg.Playable() && Inv(cfg, draws, s) && MainStep(cfg, draws, s, s') && s.main.MainFinish?
    ensures Inv(cfg, draws, s')
  {
    hide InOk, ValidTrace, LogOk, Registered, Distinct;
    var v := s.main.v;
    assert Sound(cfg, draws, s, v);
    assert Ver(s', v).Game() == Ver(s, v).Game();
    assert Sound(cfg, draws, s', v);
    OthersSound(cfg, draws, s, s', v);
    InsStable(s, s');
  }

  lemma MainKeeps(cfg: Settings, draws: Draws, s: System, s': System)
    requires cfg.Playable() && Inv(cfg, draws, s) && MainStep(cfg, draws, s, s')
    ensures Inv(cfg, draws, s')
  {
    hide Inv, MainStep;
    match s.main
    case MainInit(_) => InitKeeps(cfg, draws, s, s');
    case MainLoop(_, _, i) =>
      if i < cfg.gameLength {
        SnapshotKeeps(cfg, draws, s, s');
      } else {
        LoopEndKeeps(cfg, draws, s, s');
      }
    case MainAppend(_, _, _, _, _) => AppendKeeps(cfg, draws, s, s');
    case MainReset(_, _) => ResetKeeps(cfg, draws, s, s');
    case MainFinish(_, _) => FinishKeeps(cfg, draws, s, s');
    case _ => StartKeeps(cfg, draws, s, s');
  }

  // ---------------------------------------------------------------- steps of the in-threads

  /** One in-thread has moved on, all others are as before. */
  lemma OtherIns(s: System, s': System, k: nat, t: InThread)
    requires InsOk(s) && k < |s.sessions| && s'.sessions == SetIn(s, k, t).sessions
    requires s'.versions == s.versions && InOk(s'.versions, t, k)
    ensures InsOk(s')
  {
    hide InOk;
    forall j | 0 <= j < |s'.sessions| ensures InOk(s'.versions, s'.sessions[j].inward, j) {
      assert InOk(s.versions, s.sessions[j].inward, j);
    }
  }

  lemma MainStable(cfg: Settings, draws: Draws, s: System, s': System)
    requires cfg.Playable() && s'.versions == s.versions && s'.main == s.main && s'.gameStarted == s.gameStarted
    requires MainOk(cfg, draws, s)
    ensures MainOk(cfg, draws, s')
  {
    hide SnapAt, TraceStep, Full;
  }

  /** A step of session k's in-thread that leaves the containers alone. */
  lemma QuietInKeeps(cfg: Settings, draws: Draws, s: System, s': System, k: nat, t: InThread)
    requires cfg.Playable() && Inv(cfg, draws, s) && k < |s.sessions| && s' == SetIn(s, k, t)
    requires InOk(s.versions, t, k)
    ensures Inv(cfg, draws, s')
  {
    hide MainOk, InOk, Sound, InsOk;
    SoundStable(cfg, draws, s, s');
    OtherIns(s, s', k, t);
    MainStable(cfg, draws, s, s');
  }

  lemma AdmitVersion(cfg: Settings, draws: Draws, ver: Version, sessions: nat, k: nat, player: Player)
    requires cfg.Playable() && VersionOk(cfg, draws, ver, sessions) && !Full(cfg, ver)
    requires k < sessions && k !in ver.owners
    ensures VersionOk(cfg, draws, Admit(cfg, ver, k, player), sessions)
    ensures LastId(Admit(cfg, ver, k, player)) == |ver.owners|
  {
    hide ValidTrace, LogOk;
    var ver' := Admit(cfg, ver, k, player);
    assert ver'.Game() == ver.Game();
    JoinKeepsRegistered(ver.players, cfg.playersCount, player);
    LogAdmits(cfg.playersCount, ver.owners, k, ver.ops, ver.writers, ver.marks, ver.slots, ver.snaps);
  }

  lemma WriteVersion(cfg: Settings, draws: Draws, ver: Version, sessions: nat, id: U8, k: nat, move: ClientMessage)
    requires cfg.Playable() && VersionOk(cfg, draws, ver, sessions)
    requires id < |ver.owners| && ver.owners[id] == k && !move.Join?
    ensures VersionOk(cfg, draws, Written(ver, id, k, move), sessions)
  {
    hide ValidTrace, Registered, Distinct, LogOk;
    var ver' := Written(ver, id, k, move);
    assert ver'.Game() == ver.Game();
    LogWrites(cfg.playersCount, ver.owners, ver.ops, ver.writers, ver.marks, ver.slots, ver.snaps, id, k, move);
  }

  lemma InPlace(versions: seq<Version>, t: InThread, k: nat)
    requires InOk(versions, t, k)
    ensures PlaceOk(t)
  {
  }

  lemma Moved(versions: seq<Version>, t: InThread, t': InThread, k: nat)
    requires InOk(versions, t, k) && PlaceOk(t')
    requires t'.last == t.last && t'.joined == t.joined && t'.id == t.id
    ensures InOk(versions, t', k)
  {
    forall v: nat ensures Known(versions, v, t', k) {
      assert Known(versions, v, t, k);
    }
  }

  lemma Refreshed(versions: seq<Version>, t: InThread, m: ClientMessage, k: nat)
    requires InOk(versions, t, k) && versions != []
    ensures InOk(versions, InThread(InAct(m, |versions|), |versions|, t.joined && t.last == |versions|, t.id), k)
  {
    var t' := InThread(InAct(m, |versions|), |versions|, t.joined && t.last == |versions|, t.id);
    forall v: nat ensures Known(versions, v, t', k) {
      assert Known(versions, v, t, k);
    }
  }

  /** Reading, taking the snapshot, a refused or repeated Join, and the checks before an update. */
  lemma QuietStepKeeps(cfg: Settings, draws: Draws, s: System, s': System, k: nat, msg: ClientMessage)
    requires cfg.Playable() && Inv(cfg, draws, s) && InStep(cfg, s, s', k, msg)
    requires s'.versions == s.versions && !s.sessions[k].inward.pc.InUpdate?
    ensures Inv(cfg, draws, s')
  {
    hide Sound, InOk;
    var t, t' := s.sessions[k].inward, s'.sessions[k].inward;
    assert InOk(s.versions, t, k);
    if t.pc.InSnapshot? {
      Refreshed(s.versions, t, t.pc.msg, k);
    } else {
      InPlace(s.versions, t, k);
      Moved(s.versions, t, t', k);
    }
    QuietInKeeps(cfg, draws, s, s', k, t');
  }

  /** The id a session holds is always a slot of the container it writes to: update_slot never throws. */
  lemma UpdateNeverThrows(cfg: Settings, draws: Draws, s: System, k: nat)
    requires cfg.Playable() && Inv(cfg, draws, s) && k < |s.sessions| && s.sessions[k].inward.pc.InUpdate?
    ensures var t := s.sessions[k].inward;
            && t.joined && Exists(s, t.pc.v) && t.pc.v == t.last && !t.pc.msg.Join?
            && Owns(s.versions, t.last, t.id, k) && t.id < |Ver(s, t.last).slots|
  {
    hide Sound, MainOk;
    var t := s.sessions[k].inward;
    assert InOk(s.versions, t, k);
    assert Sound(cfg, draws, s, t.last);
    PlayersHaveSlots(cfg, draws, s, t.last);
  }

  lemma PlayersHaveSlots(cfg: Settings, draws: Draws, s: System, v: nat)
    requires cfg.Playable() && Exists(s, v) && Sound(cfg, draws, s, v)
    ensures |Ver(s, v).owners| <= |Ver(s, v).slots|
  {
  }

  /** A registry that still accepts players is the current one, and its game has not started. */
  lemma OpenIsCurrent(cfg: Settings, draws: Draws, s: System, v: nat)
    requires cfg.Playable() && Inv(cfg, draws, s) && Exists(s, v) && !Full(cfg, Ver(s, v))
    ensures v == |s.versions| && !s.gameStarted && Ver(s, v).turns == []
    ensures s.main.MainSnapshot? || s.main.MainWait? || s.main.MainFinish?
  {
    hide VersionOk;
    assert Sound(cfg, draws, s, v);
    if Ver(s, v).turns != [] {
      PlayedIsFull(cfg, draws, Ver(s, v), |s.sessions|);
    }
  }

  lemma AdmittedIn(was: seq<Version>, now: seq<Version>, v: nat, t: InThread, j: nat, k: nat)
    requires 1 <= v <= |was| && j != k && InOk(was, t, j)
    requires |now| == |was| && now[v - 1].owners == was[v - 1].owners + [k]
    requires forall u: nat :: u < |was| && u != v - 1 ==> now[u] == was[u]
    ensures InOk(now, t, j)
  {
    forall u: nat ensures Known(now, u, t, j) {
      assert Known(was, u, t, j);
    }
  }

  lemma AdmittedSelf(was: seq<Version>, now: seq<Version>, v: nat, t: InThread, k: nat, id: U8)
    requires 1 <= v <= |was| && InOk(was, t, k) && t.last == v && !t.joined
    requires |now| == |was| && now[v - 1].owners == was[v - 1].owners + [k] && id == |was[v - 1].owners|
    requires forall u: nat :: u < |was| && u != v - 1 ==> now[u] == was[u]
    ensures k !in was[v - 1].owners
    ensures InOk(now, t.(pc := InRead, joined := true, id := id), k)
  {
    forall u: nat ensures Known(now, u, t.(pc := InRead, joined := true, id := id), k) {
      assert Known(was, u, t, k);
    }
    assert Known(was, v, t, k);
  }

  lemma AdmitInsOk(s: System, s': System, v: nat, k: nat, t: InThread, id: U8)
    requires InsOk(s) && Exists(s, v) && k < |s.sessions| && t == s.sessions[k].inward && t.last == v && !t.joined
    requires |s'.versions| == |s.versions| && Ver(s', v).owners == Ver(s, v).owners + [k] && id == |Ver(s, v).owners|
    requires forall u: nat :: u < |s.versions| && u != v - 1 ==> s'.versions[u] == s.versions[u]
    requires s'.sessions == SetIn(s, k, t.(pc := InRead, joined := true, id := id)).sessions
    ensures InsOk(s') && k !in Ver(s, v).owners
  {
    hide InOk;
    assert InOk(s.versions, s.sessions[k].inward, k);
    AdmittedSelf(s.versions, s'.versions, v, t, k, id);
    forall j | 0 <= j < |s'.sessions| ensures InOk(s'.versions, s'.sessions[j].inward, j) {
      if j != k {
        assert InOk(s.versions, s.sessions[j].inward, j);
        AdmittedIn(s.versions, s'.versions, v, s.sessions[j].inward, j, k);
      }
    }
  }

  /** A session that does not know of an id in a version has none there. */
  lemma NotYetIn(s: System, v: nat, k: nat)
    requires InsOk(s) && Exists(s, v) && k < |s.sessions|
    requires s.sessions[k].inward.last == v && !s.sessions[k].inward.joined
    ensures k !in Ver(s, v).owners
  {
    assert InOk(s.versions, s.sessions[k].inward, k);
    assert Known(s.versions, v, s.sessions[k].inward, k);
  }

  lemma AdmitKeeps(cfg: Settings, draws: Draws, s: System, s': System, k: nat, player: Player)
    requires cfg.Playable() && Inv(cfg, draws, s) && k < |s.sessions|
    requires var t := s.sessions[k].inward;
             && Exists(s, t.last) && !t.joined && !Full(cfg, Ver(s, t.last))
             && var ver' := Admit(cfg, Ver(s, t.last), k, player);
                s' == SetIn(Put(s, t.last, ver'), k, t.(pc := InRead, joined := true, id := LastId(ver')))
    ensures Inv(cfg, draws, s')
  {
    hide InOk, InsOk, VersionOk, LastId;
    var t := s.sessions[k].inward;
    var v := t.last;
    assert Sound(cfg, draws, s, v);
    OpenIsCurrent(cfg, draws, s, v);
    NotYetIn(s, v, k);
    AdmitVersion(cfg, draws, Ver(s, v), |s.sessions|, k, player);
    AdmitInsOk(s, s', v, k, t, LastId(Ver(s', v)));
    assert Sound(cfg, draws, s', v);
    OthersSound(cfg, draws, s, s', v);
  }

  lemma UpdateKeeps(cfg: Settings, draws: Draws, s: System, s': System, k: nat, m: ClientMessage)
    requires cfg.Playable() && Inv(cfg, draws, s) && k < |s.sessions|
    requires var t := s.sessions[k].inward;
             && t.joined && Owns(s.versions, t.last, t.id, k) && !m.Join? && t.id < |Ver(s, t.last).slots|
             && var ver := Ver(s, t.last);
                s' == SetIn(Put(s, t.last, Written(ver, t.id, k, m)), k, t.(pc := InRead))
    ensures Inv(cfg, draws, s')
  {
    hide InOk, VersionOk;
    var t := s.sessions[k].inward;
    var v := t.last;
    assert Sound(cfg, draws, s, v);
    WriteVersion(cfg, draws, Ver(s, v), |s.sessions|, t.id, k, m);
    assert Sound(cfg, draws, s', v);
    OthersSound(cfg, draws, s, s', v);
    WroteMainOk(cfg, draws, s, s', v);
    var mid := s.(versions := s'.versions);
    InsStable(s, mid);
    assert InOk(mid.versions, t, k);
    Moved(mid.versions, t, t.(pc := InRead), k);
    OtherIns(mid, s', k, t.(pc := InRead));
  }

  lemma WroteMainOk(cfg: Settings, draws: Draws, s: System, s': System, v: nat)
    requires cfg.Playable() && MainOk(cfg, draws, s) && Exists(s, v) && |s'.versions| == |s.versions|
    requires s'.versions == s.versions[v - 1 := Ver(s', v)] && s'.main == s.main && s'.gameStarted == s.gameStarted
    requires var ver, ver' := Ver(s, v), Ver(s', v);
             && ver'.players == ver.players && ver'.turns == ver.turns && ver'.states == ver.states
             && ver'.marks == ver.marks && ver'.snaps == ver.snaps && ver.ops <= ver'.ops
    ensures MainOk(cfg, draws, s')
  {
    hide SnapAt, TraceStep;
    if s.main.MainAppend? && v == |s.versions| {
      SnapStable(cfg.playersCount, Ver(s, v).ops, Ver(s', v).ops, Ver(s, v).marks, Ver(s', v).marks,
                 s.main.snapshot, |Ver(s, v).snaps|);
    }
  }

  lemma InKeeps(cfg: Settings, draws: Draws, s: System, s': System, k: nat, msg: ClientMessage)
    requires cfg.Playable() && Inv(cfg, draws, s) && InStep(cfg, s, s', k, msg)
    ensures Inv(cfg, draws, s')
  {
    hide MainOk, Sound, VersionOk;
    var t := s.sessions[k].inward;
    assert InOk(s.versions, t, k);
    if t.pc.InAct? && t.pc.msg.Join? && !t.joined && !Full(cfg, Ver(s, t.pc.v)) {
      AdmitKeeps(cfg, draws, s, s', k, Player(t.pc.msg.name, s.sessions[k].address));
    } else if t.pc.InUpdate? {
      UpdateNeverThrows(cfg, draws, s, k);
      UpdateKeeps(cfg, draws, s, s', k, t.pc.msg);
    } else {
      QuietStepKeeps(cfg, draws, s, s', k, msg);
    }
  }

  // ---------------------------------------------------------------- out-threads, new sessions, runs

  lemma OutKeeps(cfg: Settings, draws: Draws, s: System, s': System, k: nat)
    requires cfg.Playable() && Inv(cfg, draws, s) && OutStep(cfg, s, s', k)
    ensures Inv(cfg, draws, s')
  {
    hide MainOk, Sound, InOk, Full;
    SoundStable(cfg, draws, s, s');
    MainStable(cfg, draws, s, s');
    forall j | 0 <= j < |s'.sessions| ensures InOk(s'.versions, s'.sessions[j].inward, j) {
      assert InOk(s.versions, s.sessions[j].inward, j);
      assert s'.sessions[j].inward == s.sessions[j].inward;
    }
  }

  lemma ConnectKeeps(cfg: Settings, draws: Draws, s: System, s': System, address: Bytes)
    requires cfg.Playable() && Inv(cfg, draws, s) && s' == s.(sessions := s.sessions + [NewSession(address)])
    ensures Inv(cfg, draws, s')
  {
    hide MainOk, Sound, InOk;
    SoundStable(cfg, draws, s, s');
    MainStable(cfg, draws, s, s');
    var k := |s.sessions|;
    forall j | 0 <= j < |s'.sessions| ensures InOk(s'.versions, s'.sessions[j].inward, j) {
      if j < k {
        assert InOk(s.versions, s.sessions[j].inward, j);
      } else {
        StrangerIsOk(cfg, draws, s, NewSession(address).inward);
      }
    }
  }

  lemma StrangerIsOk(cfg: Settings, draws: Draws, s: System, t: InThread)
    requires cfg.Playable() && t == InThread(InRead, 0, false, 0)
    requires forall v: nat :: Exists(s, v) ==> Sound(cfg, draws, s, v)
    ensures InOk(s.versions, t, |s.sessions|)
  {
    hide ValidTrace, Registered, Distinct, MovesOk, Full, Complete;
    forall v: nat ensures Known(s.versions, v, t, |s.sessions|) {
      if Exists(s, v) {
        assert Sound(cfg, draws, s, v);
      }
    }
  }

  lemma InitialKeeps(cfg: Settings, draws: Draws, s: System)
    requires cfg.Playable() && Init(cfg, s)
    ensures Inv(cfg, draws, s)
  {
    hide VersionOk;
    NewVersionOk(cfg, draws, 0);
  }

  lemma StepKeeps(cfg: Settings, draws: Draws, s: System, step: Step, s': System)
    requires cfg.Playable() && Inv(cfg, draws, s) && Do(cfg, draws, s, step, s')
    ensures Inv(cfg, draws, s')
  {
    hide Inv, MainStep, InStep, OutStep;
    match step
    case Main => MainKeeps(cfg, draws, s, s');
    case In(k, msg) => InKeeps(cfg, draws, s, s', k, msg);
    case Out(k) => OutKeeps(cfg, draws, s, s', k);
    case Connect(address) => ConnectKeeps(cfg, draws, s, s', address);
  }

  /** The invariant holds after every step of every run. */
  lemma {:induction false} RunKeeps(cfg: Settings, draws: Draws, states: seq<System>, steps: seq<Step>, i: nat)
    requires cfg.Playable() && Run(cfg, draws, states, steps) && i < |states|
    ensures Inv(cfg, draws, states[i])
  {
    hide Inv, Do;
    if i == 0 {
      InitialKeeps(cfg, draws, states[0]);
    } else {
      RunKeeps(cfg, draws, states, steps, i - 1);
      assert RunStep(cfg, draws, states, steps, i - 1);
      StepKeeps(cfg, draws, states[i - 1], steps[i - 1], states[i]);
    }
  }
}
