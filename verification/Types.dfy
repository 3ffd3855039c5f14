/** Value types of the protocol and of the game: the field widths of `config.h` and the
    records of `messages.h`. */
module Types {

  type U8 = n: int | 0 <= n < 0x100
  type U16 = n: int | 0 <= n < 0x1_0000
  type U32 = n: int | 0 <= n < 0x1_0000_0000

  /** A C++ `std::string` seen as its bytes. */
  type Bytes = seq<U8>

  datatype Option<+T> = None | Some(value: T)

  datatype Position = Position(x: U16, y: U16)

  datatype Bomb = Bomb(position: Position, timer: U16)

  datatype Player = Player(name: Bytes, address: Bytes)

  datatype Event =
    | BombPlaced(id: U32, position: Position)
    | BombExploded(id: U32, robots: seq<U8>, blocks: seq<Position>)
    | PlayerMoved(player: U8, position: Position)
    | BlockPlaced(position: Position)

  datatype Turn = Turn(turn: U16, events: seq<Event>)

  datatype Hello = Hello(
    serverName: Bytes, playersCount: U8, sizeX: U16, sizeY: U16,
    gameLength: U16, explosionRadius: U16, bombTimer: U16)

  /** A direction is the raw byte that arrived: 0 up, 1 right, 2 down, anything else left. */
  datatype ClientMessage = Join(name: Bytes) | PlaceBomb | PlaceBlock | Move(direction: U8)

  datatype ServerMessage =
    | HelloMessage(hello: Hello)
    | AcceptedPlayer(id: U8, player: Player)
    | GameStarted(players: map<U8, Player>)
    | TurnMessage(turn: Turn)
    | GameEnded(scores: map<U8, U32>)

  /** What the GUI is shown during a game; the sets and the bombs are listed in some order. */
  datatype GameMessage = GameMessage(
    serverName: Bytes, sizeX: U16, sizeY: U16, gameLength: U16, turn: U16,
    players: map<U8, Player>, positions: map<U8, Position>, blocks: seq<Position>, bombs: seq<Bomb>,
    explosions: seq<Position>, scores: map<U8, U32>)

  /** One slot of the move container: the last message and whether it is newer than the last snapshot. */
  datatype Slot = Slot(updated: bool, move: ClientMessage)

  /** The part of `options_server` the game depends on. */
  datatype Settings = Settings(
    serverName: Bytes, playersCount: U8, sizeX: U16, sizeY: U16, gameLength: U16,
    explosionRadius: U16, bombTimer: U16, initialBlocks: U16)
  {
    /** Random positions are reduced modulo the board sizes, so both must be positive. */
    predicate Playable() {
      0 < sizeX && 0 < sizeY
    }

    function ToHello(): Hello {
      Hello(serverName, playersCount, sizeX, sizeY, gameLength, explosionRadius, bombTimer)
    }
  }

  predicate IsBelow(i: U8, n: nat) {
    i < n
  }

  /** The ids 0..n-1 of the players of a game. */
  function Ids(n: nat): (ids: set<U8>)
    requires n <= 0x100
    ensures |ids| == n
    ensures forall i: U8 :: i in ids <==> i < n
  {
    IdsSize(n);
    set i: U8 | IsBelow(i, n)
  }

  lemma {:induction false} IdsSize(n: nat)
    requires n <= 0x100
    ensures |set i: U8 | IsBelow(i, n)| == n
  {
    if n == 0 {
      assert (set i: U8 | IsBelow(i, n)) == {};
    } else {
      var m := n - 1;
      IdsSize(m);
      assert (set i: U8 | IsBelow(i, n)) == (set i: U8 | IsBelow(i, m)) + {m};
    }
  }

  /** `std::map` iteration order: the keys from i upwards, ascending. */
  function KeysFrom(keys: set<U8>, i: nat): seq<U8>
    requires i <= 0x100
    decreases 0x100 - i
  {
    if i == 0x100 then []
    else if i in keys then [i] + KeysFrom(keys, i + 1)
    else KeysFrom(keys, i + 1)
  }

  function AscendingKeys(keys: set<U8>): seq<U8> {
    KeysFrom(keys, 0)
  }

  lemma {:induction false} KeysFromIsAscending(keys: set<U8>, i: nat)
    requires i <= 0x100
    ensures var ks := KeysFrom(keys, i);
            && (forall k :: k in ks <==> k in keys && i <= k)
            && (forall a, b :: 0 <= a < b < |ks| ==> ks[a] < ks[b])
    decreases 0x100 - i
  {
    if i < 0x100 {
      KeysFromIsAscending(keys, i + 1);
      var ks, rest := KeysFrom(keys, i), KeysFrom(keys, i + 1);
      if i in keys {
        forall a, b | 0 <= a < b < |ks| ensures ks[a] < ks[b] {
          assert ks[b] == rest[b - 1] && rest[b - 1] in rest;
        }
      }
    }
  }

  function ToSet<T>(s: seq<T>): set<T> {
    set x | x in s
  }

  predicate Distinct<T(==)>(s: seq<T>) {
    forall i, j :: 0 <= i < j < |s| ==> s[i] != s[j]
  }

  /** `map::insert`: an existing entry is kept. */
  function InsertAbsent<K, V>(m: map<K, V>, k: K, v: V): map<K, V> {
    if k in m then m else m[k := v]
  }

  lemma {:induction false} DistinctSize<T>(s: seq<T>)
    requires Distinct(s)
    ensures |ToSet(s)| == |s|
  {
    if s != [] {
      var front := s[..|s| - 1];
      DistinctSize(front);
      assert ToSet(s) == ToSet(front) + {s[|s| - 1]};
      assert s[|s| - 1] !in ToSet(front);
    }
  }
}
