/** The room store (lib/gameStore.js): the table of rooms keyed by code,
    activity tracking, the reconnect grace period, the idle sweep and the
    snapshot transformations of persistence. Timers are explicit operations:
    `Expire` is the body of the 60-second removal timer, `CleanupExpiredGames`
    the body of the periodic sweep; the current time is a parameter. */
module Store {
  import opened Common
  import opened Rooms

  /** Two hours without activity expire a room. */
  const GameExpirationMs := 2 * 60 * 60 * 1000

  /** A pending removal: which room and which socket id it was for. */
  datatype Pending = Pending(roomCode: RoomCode, playerId: SocketId)

  /** A successful reconnect: the room, the player as rebound, and the code. */
  datatype Rejoin = Rejoin(room: Room, player: Player, roomCode: RoomCode)

  /** A partial update: every field that is `Some` overwrites the room's. */
  datatype RoomPatch = RoomPatch(
    hostId: Option<SocketId>,
    players: Option<seq<Player>>,
    state: Option<State>,
    currentRound: Option<int>,
    judgeIndex: Option<int>,
    decks: Option<Decks>,
    originalPrompts: Option<seq<string>>,
    originalResponses: Option<seq<Card>>,
    currentPrompt: Option<Option<string>>,
    currentRoundConfig: Option<Option<RoundConfig>>,
    submissions: Option<map<SocketId, seq<Card>>>,
    shuffledSubmissions: Option<seq<Submission>>,
    revealIndex: Option<nat>,
    phonePartyMode: Option<bool>,
    selectedPacks: Option<seq<PackId>>,
    lastActivity: Option<int>)

  function Or<T>(o: Option<T>, d: T): T { if o.Some? then o.value else d }

  /** `Object.assign(room, patch)` on a room's fields. */
  function Patched(r: RoomRecord, u: RoomPatch): RoomRecord
  {
    RoomRecord(
      Or(u.hostId, r.hostId), Or(u.players, r.players), Or(u.state, r.state),
      Or(u.currentRound, r.currentRound), Or(u.judgeIndex, r.judgeIndex), Or(u.decks, r.decks),
      Or(u.originalPrompts, r.originalPrompts), Or(u.originalResponses, r.originalResponses),
      Or(u.currentPrompt, r.currentPrompt), Or(u.currentRoundConfig, r.currentRoundConfig),
      Or(u.submissions, r.submissions), Or(u.shuffledSubmissions, r.shuffledSubmissions),
      Or(u.revealIndex, r.revealIndex), Or(u.phonePartyMode, r.phonePartyMode),
      Or(u.selectedPacks, r.selectedPacks), Or(u.lastActivity, r.lastActivity))
  }

  // ------------------------------------------------------- persistence

  /** What `_saveToDisk` writes for a room: everything but the reveal order. */
  function ForSave(r: RoomRecord): (s: RoomRecord)
    ensures s.shuffledSubmissions == []
    ensures s == r.(shuffledSubmissions := [])
  {
    r.(shuffledSubmissions := [])
  }

  /** A player as `_loadFromDisk` restores it: no socket, disconnected. */
  function Detached(p: Player): Player
  {
    p.(id := None, disconnected := true)
  }

  /** A room as `_loadFromDisk` restores it: every player detached, nothing
      else changed. */
  function ForLoad(r: RoomRecord): (l: RoomRecord)
    ensures |l.players| == |r.players|
    ensures forall i :: 0 <= i < |l.players| ==>
              && l.players[i].id.None? && l.players[i].disconnected
              && l.players[i].hand == r.players[i].hand
              && l.players[i].score == r.players[i].score
              && l.players[i].sessionToken == r.players[i].sessionToken
              && l.players[i].name == r.players[i].name
    ensures l == r.(players := l.players)
  {
    r.(players := seq(|r.players|, i requires 0 <= i < |r.players| => Detached(r.players[i])))
  }

  predicate Recent(r: RoomRecord, now: int)
  {
    now - r.lastActivity < GameExpirationMs
  }

  /** The rooms `_loadFromDisk` keeps from a snapshot read at time `now`. */
  function LoadFilter(data: map<RoomCode, RoomRecord>, now: int): map<RoomCode, RoomRecord>
  {
    map c | c in data && Recent(data[c], now) :: ForLoad(data[c])
  }

  /** Saving and then loading at time `now` gives back exactly the rooms that
      were active within the last two hours, with their players detached and
      their reveal order dropped, and everything else as it was. */
  lemma SaveThenLoad(rooms: map<RoomCode, RoomRecord>, now: int)
    ensures var loaded := LoadFilter(map c | c in rooms :: ForSave(rooms[c]), now);
            && (forall c :: c in loaded <==> c in rooms && now - rooms[c].lastActivity < GameExpirationMs)
            && (forall c :: c in loaded ==>
                  loaded[c] == rooms[c].(shuffledSubmissions := [], players := loaded[c].players)
                  && |loaded[c].players| == |rooms[c].players|
                  && forall i :: 0 <= i < |rooms[c].players| ==>
                       loaded[c].players[i] == rooms[c].players[i].(id := None, disconnected := true))
  {
  }

  /** The hourly sweep (`cleanupExpiredGames`) and a reload from disk
      (`_loadFromDisk`) at the same moment `now` disagree only at the
      boundary: every room a load keeps also survives the sweep, and a room
      the sweep keeps is reloaded exactly when it is not idle for precisely
      two hours. */
  lemma ExpiryBoundary(rooms: map<RoomCode, RoomRecord>, now: int)
    ensures forall c :: c in LoadFilter(rooms, now) ==> c in rooms && !Expired(rooms[c], now)
    ensures forall c :: c in rooms && !Expired(rooms[c], now) ==>
              (c in LoadFilter(rooms, now) <==> now - rooms[c].lastActivity != GameExpirationMs)
  {
  }

  // ----------------------------------------------------------- the store

  function IdMatch(id: SocketId): Player -> bool { p => HasId(p, id) }
  function TokenMatch(t: Token): Player -> bool { p => HasToken(p, t) }
  function TokenMismatch(t: Token): Player -> bool { p => !HasToken(p, t) }

  predicate Expired(r: RoomRecord, now: int)
  {
    now - r.lastActivity > GameExpirationMs
  }

  /** Removes every player holding `token` from the room, and the
      submission under `playerId`. */
  method DropHolder(room: Room, token: Token, playerId: SocketId)
    modifies room
    ensures room.Value() == old(room.Value()).(
              players := Filter(old(room.players), TokenMismatch(token)),
              submissions := old(room.submissions) - {playerId})
  {
    room.players := Filter(room.players, TokenMismatch(token));
    room.submissions := room.submissions - {playerId};
  }

  /** A fresh room for every snapshot entry less than two hours idle, with
      its players detached. */
  method LoadRooms(snapshot: map<RoomCode, RoomRecord>, now: int) returns (rooms: map<RoomCode, Room>)
    ensures rooms.Keys == LoadFilter(snapshot, now).Keys
    ensures forall c :: c in rooms ==> fresh(rooms[c]) && rooms[c].Value() == LoadFilter(snapshot, now)[c]
    ensures forall c1, c2 :: c1 in rooms && c2 in rooms && c1 != c2 ==> rooms[c1] != rooms[c2]
  {
    rooms := map[];
    var keys := snapshot.Keys;
    while keys != {}
      invariant keys <= snapshot.Keys
      invariant forall c :: c in rooms <==> c in snapshot && c !in keys && Recent(snapshot[c], now)
      invariant forall c :: c in rooms ==> fresh(rooms[c]) && rooms[c].Value() == ForLoad(snapshot[c])
      invariant forall c1, c2 :: c1 in rooms && c2 in rooms && c1 != c2 ==> rooms[c1] != rooms[c2]
      decreases keys
    {
      var c :| c in keys;
      if now - snapshot[c].lastActivity < GameExpirationMs {
        var room := new Room.FromRecord(ForLoad(snapshot[c]));
        rooms := rooms[c := room];
      }
      keys := keys - {c};
    }
  }

  class GameStore {
    var games: map<RoomCode, Room>
    var disconnectedPlayers: map<Token, Pending>

    /** Every code names its own room object. */
    ghost predicate Valid()
      reads this
    {
      forall c1, c2 :: c1 in games && c2 in games && c1 != c2 ==> games[c1] != games[c2]
    }

    /** The room a code names, as a (possibly empty) frame. */
    function At(code: RoomCode): set<Room>
      reads this
    {
      if code in games then {games[code]} else {}
    }

    /** The room a pending removal points at, as a (possibly empty) frame. */
    function PendingAt(token: Token): set<Room>
      reads this
    {
      if token in disconnectedPlayers then At(disconnectedPlayers[token].roomCode) else {}
    }

    function Records(): map<RoomCode, RoomRecord>
      reads this, games.Values
    {
      map c | c in games :: games[c].Value()
    }

    /** Starts with the rooms of a snapshot that are less than two hours
        idle, each player detached from its old socket. */
    constructor (snapshot: map<RoomCode, RoomRecord>, now: int)
      ensures Valid()
      ensures disconnectedPlayers == map[]
      ensures games.Keys == LoadFilter(snapshot, now).Keys
      ensures forall c :: c in games ==> fresh(games[c]) && games[c].Value() == LoadFilter(snapshot, now)[c]
    {
      var loaded := LoadRooms(snapshot, now);
      games := loaded;
      disconnectedPlayers := map[];
    }

    /** `get`: the room a code names, or null; present exactly when `Exists`. */
    function Get(code: RoomCode): (room: Room?)
      reads this
      ensures room != null <==> Exists(code)
      ensures room != null ==> room in At(code)
    {
      if code in games then games[code] else null
    }

    function Exists(code: RoomCode): bool
      reads this
    {
      code in games
    }

    /** Stores a new room built from `data`, stamped with the current time. */
    method Create(code: RoomCode, data: RoomRecord, now: int) returns (room: Room)
      requires Valid()
      modifies this
      ensures Valid()
      ensures fresh(room)
      ensures games == old(games)[code := room]
      ensures Exists(code) && Get(code) == room
      ensures room.Value() == data.(lastActivity := now)
      ensures disconnectedPlayers == old(disconnectedPlayers)
    {
      room := new Room.FromRecord(data.(lastActivity := now));
      games := games[code := room];
    }

    /** Overwrites the fields a patch names; null and no change for an
        unknown code. */
    method Update(code: RoomCode, u: RoomPatch) returns (room: Room?)
      modifies At(code)
      ensures room == Get(code)
      ensures code in games ==> games[code].Value() == Patched(old(games[code].Value()), u)
    {
      if code !in games {
        return null;
      }
      room := games[code];
      room.Assign(Patched(room.Value(), u));
    }

    /** Forgets a room; every other room stays as it was. */
    method Delete(code: RoomCode)
      requires Valid()
      modifies this
      ensures Valid()
      ensures !Exists(code)
      ensures games == old(games) - {code}
      ensures disconnectedPlayers == old(disconnectedPlayers)
    {
      games := games - {code};
    }

    /** Stamps a room with the current time; nothing for an unknown code. */
    method UpdateActivity(code: RoomCode, now: int)
      modifies At(code)
      ensures code in games ==> games[code].Value() == old(games[code].Value()).(lastActivity := now)
    {
      if code in games {
        games[code].lastActivity := now;
      }
    }

    /** Flags the first player with socket id `playerId` as disconnected at
        `now` and records the pending removal under the session token;
        nothing when the room or the player is missing. */
    method MarkPlayerDisconnected(code: RoomCode, playerId: SocketId, token: Token, now: int)
      requires Valid()
      modifies this, At(code)
      ensures Valid() && games == old(games)
      ensures code !in games ==> disconnectedPlayers == old(disconnectedPlayers)
      ensures code in games ==>
                var room := games[code];
                var i := FindIndex(old(room.players), IdMatch(playerId));
                && (i.None? ==> room.Value() == old(room.Value())
                                && disconnectedPlayers == old(disconnectedPlayers))
                && (i.Some? ==>
                      && room.Value() == old(room.Value()).(players := room.players)
                      && room.players == old(room.players)[i.value :=
                           old(room.players[i.value]).(disconnected := true, disconnectedAt := Some(now))]
                      && disconnectedPlayers == old(disconnectedPlayers)[token := Pending(code, playerId)])
    {
      if code !in games {
        return;
      }
      var room := games[code];
      var i := FindIndex(room.players, IdMatch(playerId));
      if i.None? {
        return;
      }
      var p := room.players[i.value];
      room.players := room.players[i.value := p.(disconnected := true, disconnectedAt := Some(now))];
      disconnectedPlayers := disconnectedPlayers[token := Pending(code, playerId)];
    }

    /** The removal timer for `token` fires: every player holding the token
        leaves the room together with the submission under the socket id the
        player had, and the pending entry is dropped. A token with no pending
        entry (the timer was cancelled) changes nothing. */
    method Expire(token: Token)
      requires Valid()
      modifies this, PendingAt(token)
      ensures Valid() && games == old(games)
      ensures disconnectedPlayers == old(disconnectedPlayers) - {token}
      ensures token in old(disconnectedPlayers) && old(disconnectedPlayers[token]).roomCode in games ==>
                var e := old(disconnectedPlayers[token]);
                var room := games[e.roomCode];
                && room.Value() == old(room.Value()).(players := room.players, submissions := room.submissions)
                && room.players == Filter(old(room.players), TokenMismatch(token))
                && (forall i :: 0 <= i < |room.players| ==> !HasToken(room.players[i], token))
                && room.submissions == old(room.submissions) - {e.playerId}
    {
      if token !in disconnectedPlayers {
        return;
      }
      var e := disconnectedPlayers[token];
      if e.roomCode in games {
        DropHolder(games[e.roomCode], token, e.playerId);
      }
      disconnectedPlayers := disconnectedPlayers - {token};
    }


    /** Rebinds the player holding `token` to socket `newId`: `None` for an
        unknown token, and `None` with the entry dropped when the room or the
        player is gone. On success the entry is dropped (cancelling the
        removal), the player gets the new id and is no longer disconnected,
        and a submission under the old id moves, unchanged, to the new id. */
    method ReconnectPlayer(newId: SocketId, token: Token) returns (r: Option<Rejoin>)
      requires Valid()
      modifies this, PendingAt(token)
      ensures Valid() && games == old(games)
      ensures token !in old(disconnectedPlayers) ==> r.None? && disconnectedPlayers == old(disconnectedPlayers)
      ensures token in old(disconnectedPlayers) ==> disconnectedPlayers == old(disconnectedPlayers) - {token}
      ensures token in old(disconnectedPlayers) ==>
                var code := old(disconnectedPlayers[token]).roomCode;
                && (code !in games ==> r.None?)
                && (code in games ==>
                      var room := games[code];
                      var i := FindIndex(old(room.players), TokenMatch(token));
                      && (i.None? ==> r.None? && room.Value() == old(room.Value()))
                      && (i.Some? ==>
                            var was := old(room.players[i.value]);
                            var now := was.(id := Some(newId), disconnected := false, disconnectedAt := None);
                            && r == Some(Rejoin(room, now, code))
                            && room.Value() == old(room.Value()).(players := room.players, submissions := room.submissions)
                            && room.players == old(room.players)[i.value := now]
                            && (was.id.Some? && was.id.value in old(room.submissions) ==>
                                  room.submissions == old(room.submissions)[newId := old(room.submissions)[was.id.value]] - {was.id.value})
                            && (!(was.id.Some? && was.id.value in old(room.submissions)) ==>
                                  room.submissions == old(room.submissions))))
    {
      if token !in disconnectedPlayers {
        return None;
      }
      var e := disconnectedPlayers[token];
      if e.roomCode !in games {
        disconnectedPlayers := disconnectedPlayers - {token};
        return None;
      }
      var room := games[e.roomCode];
      var i := FindIndex(room.players, TokenMatch(token));
      if i.None? {
        disconnectedPlayers := disconnectedPlayers - {token};
        return None;
      }
      disconnectedPlayers := disconnectedPlayers - {token};
      var player := room.players[i.value];
      var oldId := player.id;
      player := player.(id := Some(newId), disconnected := false, disconnectedAt := None);
      room.players := room.players[i.value := player];
      if oldId.Some? && oldId.value in room.submissions {
        room.submissions := room.submissions[newId := room.submissions[oldId.value]] - {oldId.value};
      }
      r := Some(Rejoin(room, player, e.roomCode));
    }

    /** Removes every room idle for more than two hours and returns them, for
        the expiry notification; every other room stays. */
    method CleanupExpiredGames(now: int) returns (expired: map<RoomCode, Room>)
      requires Valid()
      modifies this
      ensures Valid()
      ensures disconnectedPlayers == old(disconnectedPlayers)
      ensures forall c :: c in games <==> c in old(games) && !Expired(old(games)[c].Value(), now)
      ensures forall c :: c in games ==> games[c] == old(games)[c]
      ensures forall c :: c in expired <==> c in old(games) && Expired(old(games)[c].Value(), now)
      ensures forall c :: c in expired ==> expired[c] == old(games)[c]
    {
      var kept := games;
      var keys := kept.Keys;
      expired := map[];
      while keys != {}
        invariant keys <= old(games).Keys
        invariant forall c :: c in keys ==> c in kept
        invariant forall c :: c in kept <==> c in old(games) && (c in keys || !Expired(old(games)[c].Value(), now))
        invariant forall c :: c in kept ==> kept[c] == old(games)[c]
        invariant forall c :: c in expired <==> c in old(games) && c !in keys && Expired(old(games)[c].Value(), now)
        invariant forall c :: c in expired ==> expired[c] == old(games)[c]
        decreases keys
      {
        var c :| c in keys;
        var room := kept[c];
        if now - room.lastActivity > GameExpirationMs {
          expired := expired[c := room];
          kept := kept - {c};
        }
        keys := keys - {c};
      }
      games := kept;
    }


    /** What `_saveToDisk` writes: every room, without its reveal order. */
    function SaveToDisk(): (snapshot: map<RoomCode, RoomRecord>)
      reads this, games.Values
      ensures snapshot.Keys == games.Keys
      ensures forall c :: c in games ==> snapshot[c] == games[c].Value().(shuffledSubmissions := [])
    {
      map c | c in games :: ForSave(games[c].Value())
    }
  }
}
