/** The server's threads as a transition system (`server.cpp`): the main thread, one pair of threads for
    each client, and the three shared containers, which are replaced for every new game while threads
    may still hold the old ones. Every critical section is one step; a wait is a step that is not
    enabled until its condition holds. A thread whose connection fails simply takes no more steps. */
module Protocol {
  import opened Types
  import opened Engine
  import opened ReplicaProof
  import opened Containers

  /** The containers of one game. The fields from `states` on are history: what the server's game
      object held after each turn, the snapshots it used, the session each id was issued to, every
      update and snapshot of the move container in the order of its critical sections, the session
      behind each of them (0 for a snapshot), and where in this order the snapshots stand. */
  datatype Version = Version(
    players: map<U8, Player>, slots: seq<Slot>, turns: seq<Turn>, finished: bool, scoreMap: map<U8, U32>,
    states: seq<ServerState>, snaps: seq<seq<Slot>>, owners: seq<nat>,
    ops: seq<MoveOp>, writers: seq<nat>, marks: seq<nat>)
  {
    function Game(): Trace {
      Trace(turns, states, snaps)
    }
  }

  datatype MainThread =
    | MainSnapshot
    | MainWait(v: nat)
    | MainStart(v: nat)
    | MainInit(v: nat)
    | MainLoop(v: nat, st: ServerState, i: nat)
    | MainAppend(v: nat, next: ServerState, snapshot: seq<Slot>, turn: Turn, i: nat)
    | MainReset(v: nat, scores: map<U8, U32>)
    | MainFinish(v: nat, scores: map<U8, U32>)

  datatype InCounter =
    | InRead
    | InSnapshot(msg: ClientMessage)
    | InAct(msg: ClientMessage, v: nat)
    | InCheck(msg: ClientMessage, v: nat)
    | InUpdate(msg: ClientMessage, v: nat)
    | InThrown

  /** `last` is the version the thread saw last (0 before the first message). */
  datatype InThread = InThread(pc: InCounter, last: nat, joined: bool, id: U8)

  datatype OutCounter =
    | OutHello
    | OutSnapshot
    | OutCheck(v: nat)
    | OutAccepted(v: nat, next: U8)
    | OutStarted(v: nat, announced: bool)
    | OutTurns(v: nat, announced: bool, turn: U16)
    | OutEnd(v: nat, announced: bool)

  /** A game an out-thread has sent in full, and whether it listed the accepted players. */
  datatype Visit = Visit(version: nat, announced: bool)

  /** `sent` is the stream so far, `origin` the version each message was taken from. */
  datatype OutThread = OutThread(pc: OutCounter, sent: seq<ServerMessage>, origin: seq<nat>, visits: seq<Visit>)

  datatype Session = Session(address: Bytes, inward: InThread, outward: OutThread)

  datatype System = System(versions: seq<Version>, gameStarted: bool, main: MainThread, sessions: seq<Session>)

  datatype Step = Main | In(k: nat, msg: ClientMessage) | Out(k: nat) | Connect(address: Bytes)

  // ---------------------------------------------------------------- versions

  /** Versions are numbered from 1; the last one is the shared one. */
  predicate Exists(s: System, v: nat) {
    1 <= v <= |s.versions|
  }

  function Ver(s: System, v: nat): Version
    requires Exists(s, v)
  {
    s.versions[v - 1]
  }

  function Put(s: System, v: nat, ver: Version): System
    requires Exists(s, v)
  {
    s.(versions := s.versions[v - 1 := ver])
  }

  function NewVersion(cfg: Settings): Version {
    Version(map[], FreshSlots(cfg.playersCount), [], false, map[], [], [], [], [], [], [])
  }

  predicate Full(cfg: Settings, ver: Version) {
    |ver.players| == cfg.playersCount
  }

  predicate Complete(cfg: Settings, ver: Version) {
    |ver.turns| == cfg.gameLength + 1
  }

  // ---------------------------------------------------------------- the main thread

  function Started(cfg: Settings, draws: Draws, ver: Version): Version
    requires cfg.Playable()
  {
    var o := GameInit(cfg, draws);
    ver.(turns := ver.turns + [Turn(0, o.events)], states := ver.states + [o.state])
  }

  function Appended(ver: Version, next: ServerState, snapshot: seq<Slot>, turn: Turn): Version {
    ver.(turns := ver.turns + [turn], states := ver.states + [next], snaps := ver.snaps + [snapshot])
  }

  /** The move container after a snapshot. */
  function Snapped(ver: Version): Version {
    ver.(slots := Cleared(ver.slots), ops := ver.ops + [Snapshot], writers := ver.writers + [0],
         marks := ver.marks + [|ver.ops|])
  }

  /** The move container after session k has updated a slot. */
  function Written(ver: Version, slot: U8, k: nat, move: ClientMessage): Version {
    ver.(slots := Updated(ver.slots, slot, move), ops := ver.ops + [Update(slot, move)],
         writers := ver.writers + [k])
  }

  /** The game takes a snapshot of the moves and computes its next turn, to be appended later. */
  ghost predicate SnapshotStep(cfg: Settings, draws: Draws, s: System, s': System, v: nat, st: ServerState, i: nat)
    requires cfg.Playable() && Exists(s, v)
  {
    var slots := Ver(s, v).slots;
    && s'.main.MainAppend? && TraceStep(cfg, draws, slots, st, s'.main.turn, s'.main.next)
    && s' == Put(s, v, Snapped(Ver(s, v))).(
         main := MainAppend(v, s'.main.next, slots, s'.main.turn, i))
  }

  ghost predicate MainStep(cfg: Settings, draws: Draws, s: System, s': System)
    requires cfg.Playable()
  {
    match s.main
    case MainSnapshot => s' == s.(main := MainWait(|s.versions|))
    case MainWait(v) => Exists(s, v) && Full(cfg, Ver(s, v)) && s' == s.(main := MainStart(v))
    case MainStart(v) => s' == s.(main := MainInit(v), gameStarted := true)
    case MainInit(v) =>
      && Exists(s, v)
      && s' == Put(s, v, Started(cfg, draws, Ver(s, v))).(main := MainLoop(v, GameInit(cfg, draws).state, 0))
    case MainLoop(v, st, i) =>
      if i < cfg.gameLength then
        Exists(s, v) && SnapshotStep(cfg, draws, s, s', v, st, i)
      else s' == s.(main := MainReset(v, st.world.scores))
    case MainAppend(v, next, snapshot, turn, i) =>
      Exists(s, v) && s' == Put(s, v, Appended(Ver(s, v), next, snapshot, turn)).(main := MainLoop(v, next, i + 1))
    case MainReset(v, scores) =>
      s' == s.(gameStarted := false, versions := s.versions + [NewVersion(cfg)], main := MainFinish(v, scores))
    case MainFinish(v, scores) =>
      Exists(s, v) && s' == Put(s, v, Ver(s, v).(finished := true, scoreMap := scores)).(main := MainSnapshot)
  }

  // ---------------------------------------------------------------- in-threads

  function SetIn(s: System, k: nat, t: InThread): System
    requires k < |s.sessions|
  {
    s.(sessions := s.sessions[k := s.sessions[k].(inward := t)])
  }

  /** The registry takes one more player, issuing the next id to session k. */
  function Admit(cfg: Settings, ver: Version, k: nat, player: Player): Version {
    ver.(players := AfterJoin(ver.players, cfg.playersCount, player), owners := ver.owners + [k])
  }

  /** The id that was issued last. */
  function LastId(ver: Version): U8 {
    (|ver.players| - 1) % 0x100
  }

  ghost predicate InStep(cfg: Settings, s: System, s': System, k: nat, msg: ClientMessage) {
    && k < |s.sessions|
    && var t := s.sessions[k].inward;
    match t.pc
    case InRead => s' == SetIn(s, k, t.(pc := InSnapshot(msg)))
    case InSnapshot(m) =>
      var v := |s.versions|;
      s' == SetIn(s, k, InThread(InAct(m, v), v, t.joined && t.last == v, t.id))
    case InAct(m, v) =>
      if m.Join? then
        if t.joined then s' == SetIn(s, k, t.(pc := InRead))
        else
          && Exists(s, v)
          && var ver := Ver(s, v);
          if Full(cfg, ver) then s' == SetIn(s, k, t.(pc := InRead))
          else
            var ver' := Admit(cfg, ver, k, Player(m.name, s.sessions[k].address));
            s' == SetIn(Put(s, v, ver'), k, t.(pc := InRead, joined := true, id := LastId(ver')))
      else s' == SetIn(s, k, t.(pc := if t.joined then InCheck(m, v) else InRead))
    case InCheck(m, v) => s' == SetIn(s, k, t.(pc := if s.gameStarted then InUpdate(m, v) else InRead))
    case InUpdate(m, v) =>
      && Exists(s, v)
      && var ver := Ver(s, v);
      if t.id < |ver.slots| then
        s' == SetIn(Put(s, v, Written(ver, t.id, k, m)), k, t.(pc := InRead))
      else s' == SetIn(s, k, t.(pc := InThrown))
    case InThrown => false
  }

  // ---------------------------------------------------------------- out-threads

  function SetOut(s: System, k: nat, t: OutThread): System
    requires k < |s.sessions|
  {
    s.(sessions := s.sessions[k := s.sessions[k].(outward := t)])
  }

  /** A message taken from version v goes out and the thread moves on. */
  function Sending(t: OutThread, m: ServerMessage, v: nat, pc: OutCounter): OutThread {
    t.(pc := pc, sent := t.sent + [m], origin := t.origin + [v])
  }

  /** The condition of the loop over the turns: the counter is 16 bits wide, the bound is not. */
  predicate InTurnLoop(cfg: Settings, turn: U16) {
    turn < cfg.gameLength + 1
  }

  ghost predicate OutStep(cfg: Settings, s: System, s': System, k: nat) {
    && k < |s.sessions|
    && var t := s.sessions[k].outward;
    match t.pc
    case OutHello => s' == SetOut(s, k, Sending(t, HelloMessage(cfg.ToHello()), 0, OutSnapshot))
    case OutSnapshot => s' == SetOut(s, k, t.(pc := OutCheck(|s.versions|)))
    case OutCheck(v) => s' == SetOut(s, k, t.(pc := if s.gameStarted then OutStarted(v, false) else OutAccepted(v, 0)))
    case OutAccepted(v, i) =>
      if i < cfg.playersCount then
        && Exists(s, v) && i in Ver(s, v).players
        && s' == SetOut(s, k, Sending(t, AcceptedPlayer(i, Ver(s, v).players[i]), v, OutAccepted(v, i + 1)))
      else s' == SetOut(s, k, t.(pc := OutStarted(v, true)))
    case OutStarted(v, announced) =>
      && Exists(s, v) && Full(cfg, Ver(s, v))
      && s' == SetOut(s, k, Sending(t, GameStarted(Ver(s, v).players), v, OutTurns(v, announced, 0)))
    case OutTurns(v, announced, i) =>
      if InTurnLoop(cfg, i) then
        && Exists(s, v) && i < |Ver(s, v).turns|
        && s' == SetOut(s, k, Sending(t, TurnMessage(Ver(s, v).turns[i]), v, OutTurns(v, announced, NextTurn(i))))
      else s' == SetOut(s, k, t.(pc := OutEnd(v, announced)))
    case OutEnd(v, announced) =>
      && Exists(s, v) && Ver(s, v).finished
      && s' == SetOut(s, k, Sending(t, GameEnded(Ver(s, v).scoreMap), v, OutSnapshot).(
                              visits := t.visits + [Visit(v, announced)]))
  }

  // ---------------------------------------------------------------- the system

  function NewSession(address: Bytes): Session {
    Session(address, InThread(InRead, 0, false, 0), OutThread(OutHello, [], [], []))
  }

  ghost predicate Init(cfg: Settings, s: System) {
    s == System([NewVersion(cfg)], false, MainSnapshot, [])
  }

  ghost predicate Do(cfg: Settings, draws: Draws, s: System, step: Step, s': System)
    requires cfg.Playable()
  {
    match step
    case Main => MainStep(cfg, draws, s, s')
    case In(k, msg) => InStep(cfg, s, s', k, msg)
    case Out(k) => OutStep(cfg, s, s', k)
    case Connect(address) => s' == s.(sessions := s.sessions + [NewSession(address)])
  }

  /** A run: any interleaving of the threads, any messages from the clients, any explosion orders. */
  ghost predicate Run(cfg: Settings, draws: Draws, states: seq<System>, steps: seq<Step>)
    requires cfg.Playable()
  {
    && |states| == |steps| + 1
    && Init(cfg, states[0])
    && (forall i :: 0 <= i < |steps| ==> RunStep(cfg, draws, states, steps, i))
  }

  ghost predicate RunStep(cfg: Settings, draws: Draws, states: seq<System>, steps: seq<Step>, i: nat)
    requires cfg.Playable() && i < |steps| && |states| == |steps| + 1
  {
    Do(cfg, draws, states[i], steps[i], states[i + 1])
  }
}
