/** The bodies of the connection handlers (lib/socketHandlers.js): the
    rate-limit gate every intent passes, and the validation and authorisation
    each intent performs before it changes the room it names. Messages sent
    back to sockets are left out; the socket's own session fields are kept. */
module SocketHandlers {
  import opened Common
  import opened Rooms
  import opened Helpers
  import opened Store
  import opened GameLogic
  import opened Validation

  /** The per-connection state a handler reads and writes. */
  class Socket {
    const id: SocketId
    var roomCode: Option<RoomCode>
    var isHost: bool
    var playerName: Option<string>
    var sessionToken: Option<Token>

    constructor (id: SocketId)
      ensures this.id == id && roomCode.None? && !isHost && playerName.None? && sessionToken.None?
    {
      this.id := id;
      roomCode, isHost, playerName, sessionToken := None, false, None, None;
    }

    /** The room this socket is in, as a (possibly empty) frame. */
    function In(store: GameStore): set<Room>
      reads this, store
    {
      if roomCode.Some? then store.At(roomCode.value) else {}
    }
  }

  // ----------------------------------------------------------- the gate

  /** The handlers' limiter allows ten requests per second per socket. */
  const HandlerWindowMs := 1000
  const HandlerMaxRequests := 10

  /** `rateLimitedHandler`: counts the request and lets the handler body run
      exactly when the socket is not over its limit. */
  method Gate(limiter: RateLimiter, socket: Socket, now: int) returns (run: bool)
    modifies limiter
    ensures limiter.limits == old(limiter.limits)[socket.id :=
              Counted(if socket.id in old(limiter.limits) then Some(old(limiter.limits)[socket.id]) else None, now, limiter.windowMs)]
    ensures run <==> limiter.limits[socket.id].count <= limiter.maxRequests
  {
    var limited := limiter.IsLimited(socket.id, now);
    run := !limited;
  }

  /** With the handlers' limiter, of eleven requests from a new socket within
      one second the first ten run and the eleventh is refused. */
  lemma EleventhRequestRefused(start: int, times: seq<int>)
    requires |times| == 10
    requires forall i :: 0 <= i < |times| ==> start <= times[i] <= start + HandlerWindowMs
    ensures CountAll(None, [start] + times[..9], HandlerWindowMs) == Some(Entry(10, start + HandlerWindowMs))
    ensures CountAll(None, [start] + times, HandlerWindowMs) == Some(Entry(11, start + HandlerWindowMs))
  {
    assert ([start] + times[..9])[1..] == times[..9];
    assert ([start] + times)[1..] == times;
    BurstCounted(start, times[..9], HandlerWindowMs);
    BurstCounted(start, times, HandlerWindowMs);
  }

  // ----------------------------------------------------------- join_game

  /** The `roomCode` field of a join request as it arrives: a string, a
      falsy value (absent, `null`, `false`, `0`), or some other value, which
      has no `toUpperCase` method. */
  datatype CodeField = CodeText(text: string) | Falsy | NotText

  /** A `join_game` payload; a `playerName` that is not a string is `None`. */
  datatype JoinData = JoinData(roomCode: CodeField, playerName: Option<string>)

  /** `(data.roomCode || '').toUpperCase().trim()`: `None` where the call
      throws a TypeError (a truthy code that is not a string); otherwise no
      ASCII lower-case letter survives, and a falsy code becomes empty. */
  function NormalizeCode(raw: CodeField): (code: Option<string>)
    ensures code.None? <==> raw.NotText?
    ensures raw.Falsy? ==> code == Some("")
    ensures code.Some? ==> forall c :: c in code.value ==> !('a' <= c <= 'z')
  {
    if raw.NotText? then None
    else
      var up := AsciiUpper(if raw.CodeText? then raw.text else "");
      assert forall c :: c in up ==> !('a' <= c <= 'z');
      Some(Trim(up))
  }

  /** Whether the handler throws on its first line: no payload at all
      (`data.roomCode` on `undefined`), or a code that is not a string. */
  predicate ThrowsOnCode(data: Option<JoinData>)
  {
    data.None? || data.value.roomCode.NotText?
  }

  /** The normalised code of a request that does not throw (empty for one
      that does, where no room is touched). */
  function RequestedCode(data: Option<JoinData>): (code: RoomCode)
    ensures !ThrowsOnCode(data) ==> Some(code) == NormalizeCode(data.value.roomCode)
  {
    if ThrowsOnCode(data) then "" else NormalizeCode(data.value.roomCode).value
  }

  /** The room a request may change: none when it throws. */
  function JoinFrame(store: GameStore, data: Option<JoinData>): set<Room>
    reads store
  {
    if ThrowsOnCode(data) then {} else store.At(RequestedCode(data))
  }

  /** `toLowerCase` on ASCII letters; every other character is kept. */
  function AsciiLower(s: string): (r: string)
    ensures |r| == |s|
    ensures forall i :: 0 <= i < |s| ==>
              r[i] == if 'A' <= s[i] <= 'Z' then (s[i] as int + 32) as char else s[i]
  {
    if s == [] then []
    else [if 'A' <= s[0] <= 'Z' then (s[0] as int + 32) as char else s[0]] + AsciiLower(s[1..])
  }

  /** Whether some player's name equals `name` ignoring case. */
  predicate NameTaken(ps: seq<Player>, name: string)
  {
    exists i :: 0 <= i < |ps| && AsciiLower(ps[i].name) == AsciiLower(name)
  }

  datatype JoinOutcome = CodeThrew | BadName | BadCode | NotFound | InProgress | Full | Taken | Joined(player: Player)

  /** What `join_game` does to a room it found, in the handler's order of
      checks: a game already under way, a full room and a name already taken
      (ignoring case) each refuse and change nothing; otherwise a new player
      (the socket's id, score 0, an empty hand, a fresh session token) is
      appended and the room's activity stamped. */
  ghost predicate Admitted(before: RoomRecord, after: RoomRecord, id: SocketId, name: string, maxPlayers: int,
                           token: Token, avatar: string, now: int, outcome: JoinOutcome)
  {
    if before.state != Lobby then outcome == InProgress && after == before
    else if |before.players| >= maxPlayers then outcome == Full && after == before
    else if NameTaken(before.players, name) then outcome == Taken && after == before
    else
      && outcome == Joined(Player(Some(id), name, 0, avatar, [], Some(token), false, None))
      && after == before.(players := before.players + [outcome.player], lastActivity := now)
  }

  /** `join_game` as written: the code is upper-cased and trimmed and the
      name passed through `sanitizeName` as it stands, which can leave
      white space at either end or a name of spaces only. A joined player's
      name is never empty, and is at most 12 characters with no angle
      bracket. */
  method JoinGame(store: GameStore, socket: Socket, data: Option<JoinData>,
                  settings: Settings, token: Token, avatar: string, now: int) returns (outcome: JoinOutcome)
    modifies socket, JoinFrame(store, data)
    ensures JoinHandled(store, socket, data, settings, token, avatar, now, outcome)
    ensures outcome.Joined? ==>
              var name := outcome.player.name;
              name != [] && |name| <= MaxNameLength && '<' !in name && '>' !in name
  {
    if ThrowsOnCode(data) {
      return CodeThrew;
    }
    var name := SanitizeNameAsWritten(data.value.playerName);
    outcome := JoinAs(store, socket, RequestedCode(data), name, settings, token, avatar, now);
  }

  /** What `join_game` does with a payload as sent: a TypeError before
      anything changes, or the checks on the normalised code and the name as
      `sanitizeName` returns it. */
  twostate predicate JoinHandled(store: GameStore, socket: Socket, data: Option<JoinData>,
                                 settings: Settings, token: Token, avatar: string, now: int, outcome: JoinOutcome)
    reads store, socket, JoinFrame(store, data)
  {
    if ThrowsOnCode(data) then outcome == CodeThrew && unchanged(socket)
    else JoinDecided(store, socket, RequestedCode(data), SanitizeNameAsWritten(data.value.playerName),
                     settings, token, avatar, now, outcome)
  }

  /** `join_game` with the corrected sanitiser, which trims again after the
      brackets are stripped: a joined player's name is non-empty and has no
      white space at either end. */
  method JoinGameCorrected(store: GameStore, socket: Socket, data: Option<JoinData>,
                           settings: Settings, token: Token, avatar: string, now: int) returns (outcome: JoinOutcome)
    modifies socket, JoinFrame(store, data)
    ensures JoinHandledCorrected(store, socket, data, settings, token, avatar, now, outcome)
    ensures outcome.Joined? ==>
              var name := outcome.player.name;
              name != [] && !IsJsSpace(name[0]) && !IsJsSpace(name[|name| - 1])
  {
    if ThrowsOnCode(data) {
      return CodeThrew;
    }
    var name := SanitizeName(data.value.playerName);
    outcome := JoinAs(store, socket, RequestedCode(data), name, settings, token, avatar, now);
  }

  /** What the corrected `join_game` does with a payload as sent. */
  twostate predicate JoinHandledCorrected(store: GameStore, socket: Socket, data: Option<JoinData>,
                                          settings: Settings, token: Token, avatar: string, now: int,
                                          outcome: JoinOutcome)
    reads store, socket, JoinFrame(store, data)
  {
    if ThrowsOnCode(data) then outcome == CodeThrew && unchanged(socket)
    else JoinDecided(store, socket, RequestedCode(data), SanitizeName(data.value.playerName),
                     settings, token, avatar, now, outcome)
  }

  /** What `join_game` does with a normalised code and a sanitised name: a
      blank name, then a malformed code, then an unknown room are refused
      before the room is looked at; any refusal leaves the socket and the room
      as they were, and a join binds the socket to the room under its name and
      token. */
  twostate predicate JoinDecided(store: GameStore, socket: Socket, code: RoomCode, name: string, settings: Settings,
                                 token: Token, avatar: string, now: int, outcome: JoinOutcome)
    reads store, socket, store.At(code)
  {
    && (name == [] ==> outcome == BadName)
    && (name != [] && !IsValidRoomCode(Some(code)) ==> outcome == BadCode)
    && (name != [] && IsValidRoomCode(Some(code)) && code !in old(store.games) ==> outcome == NotFound)
    && (name != [] && IsValidRoomCode(Some(code)) && code in old(store.games) ==>
          && code in store.games
          && Admitted(old(store.games[code].Value()), store.games[code].Value(), socket.id, name,
                      settings.maxPlayers, token, avatar, now, outcome))
    && (outcome.Joined? ==>
          && socket.roomCode == Some(code) && socket.playerName == Some(name)
          && socket.sessionToken == Some(token) && socket.isHost == old(socket.isHost))
    && (!outcome.Joined? ==> unchanged(socket))
    && (!outcome.Joined? && code in old(store.games) ==>
          code in store.games && store.games[code].Value() == old(store.games[code].Value()))
  }

  method JoinAs(store: GameStore, socket: Socket, code: RoomCode, name: string,
                settings: Settings, token: Token, avatar: string, now: int) returns (outcome: JoinOutcome)
    modifies socket, store.At(code)
    ensures JoinDecided(store, socket, code, name, settings, token, avatar, now, outcome)
    ensures outcome.Joined? ==> outcome.player.name == name && name != []
  {
    if name == [] {
      return BadName;
    }
    if !IsValidRoomCode(Some(code)) {
      return BadCode;
    }
    if code !in store.games {
      return NotFound;
    }
    var room := store.games[code];
    ghost var s0 := socket.roomCode;
    outcome := Admit(room, socket.id, name, settings.maxPlayers, token, avatar, now);
    assert socket.roomCode == s0;
    if outcome.Joined? {
      socket.roomCode, socket.playerName, socket.sessionToken := Some(code), Some(name), Some(token);
    }
  }

  /** The checks and the append of `join_game` on the room found. */
  method Admit(room: Room, id: SocketId, name: string, maxPlayers: int, token: Token, avatar: string, now: int)
    returns (outcome: JoinOutcome)
    modifies room
    ensures Admitted(old(room.Value()), room.Value(), id, name, maxPlayers, token, avatar, now, outcome)
  {
    if room.state != Lobby {
      return InProgress;
    }
    if |room.players| >= maxPlayers {
      return Full;
    }
    if NameTaken(room.players, name) {
      return Taken;
    }
    var player := Player(Some(id), name, 0, avatar, [], Some(token), false, None);
    room.players, room.lastActivity := room.players + [player], now;
    outcome := Joined(player);
  }

  /** No two players' names are equal ignoring case. */
  predicate DistinctNames(ps: seq<Player>)
  {
    forall i, j :: 0 <= i < j < |ps| ==> AsciiLower(ps[i].name) != AsciiLower(ps[j].name)
  }

  /** Joins keep a room's names distinct ignoring case and its size within
      the limit, and only ever add one player, under the name given, with a
      fresh start. */
  lemma {:induction false} JoinKeepsRoomSound(before: RoomRecord, after: RoomRecord, id: SocketId, name: string,
                                              maxPlayers: int, token: Token, avatar: string, now: int, outcome: JoinOutcome)
    requires Admitted(before, after, id, name, maxPlayers, token, avatar, now, outcome)
    requires DistinctNames(before.players) && |before.players| <= maxPlayers
    ensures DistinctNames(after.players) && |after.players| <= maxPlayers
    ensures outcome.Joined? ==>
              var p := after.players[|after.players| - 1];
              && |after.players| == |before.players| + 1
              && after.players[..|before.players|] == before.players
              && p.name == name && p.score == 0 && p.hand == []
  {
    if outcome.Joined? {
      var ps := after.players;
      var n := |before.players|;
      forall i, j | 0 <= i < j < |ps|
        ensures AsciiLower(ps[i].name) != AsciiLower(ps[j].name)
      {
        if j == n {
          assert ps[i] == before.players[i];
        }
      }
    }
  }

  /** As written, `join_game` lets the name `"<  >"` through its emptiness
      check, and a lobby with room for it and no player called `"  "` admits
      a player whose name is two spaces. */
  lemma BlankNameJoins(before: RoomRecord, after: RoomRecord, id: SocketId, maxPlayers: int,
                       token: Token, avatar: string, now: int, outcome: JoinOutcome)
    requires Admitted(before, after, id, SanitizeNameAsWritten(Some("<  >")), maxPlayers, token, avatar, now, outcome)
    requires before.state == Lobby && |before.players| < maxPlayers
    requires forall i :: 0 <= i < |before.players| ==> AsciiLower(before.players[i].name) != "  "
    ensures SanitizeNameAsWritten(Some("<  >")) != []
    ensures outcome.Joined? && outcome.player.name == "  "
  {
    BlankNameAccepted();
    assert AsciiLower("  ") == "  ";
  }

  // -------------------------------------------------------- submit_cards

  /** Whether every index selects a card of the hand (`player.hand[idx]` is
      truthy). */
  predicate Selects(hand: seq<Card>, indices: seq<int>)
  {
    forall j :: 0 <= j < |indices| ==> 0 <= indices[j] < |hand| && Present(hand[indices[j]])
  }

  /** The cards the indices select, in the order given, skipping indices
      that select nothing: every index counts exactly when all select a
      card, and then the `j`-th card is the one at the `j`-th index. */
  function Picked(hand: seq<Card>, indices: seq<int>): (r: seq<Card>)
    ensures |r| <= |indices|
    ensures |r| == |indices| <==> Selects(hand, indices)
    ensures Selects(hand, indices) ==> forall j :: 0 <= j < |indices| ==> r[j] == hand[indices[j]]
    decreases |indices|
  {
    if indices == [] then []
    else
      var rest := indices[..|indices| - 1];
      var idx := indices[|indices| - 1];
      assert Selects(hand, indices) ==> Selects(hand, rest);
      Picked(hand, rest) + (if 0 <= idx < |hand| && Present(hand[idx]) then [hand[idx]] else [])
  }

  /** The pick loop: collects the selected cards. */
  method PickCards(hand: seq<Card>, indices: seq<int>) returns (played: seq<Card>)
    ensures played == Picked(hand, indices)
  {
    played := [];
    for k := 0 to |indices|
      invariant played == Picked(hand, indices[..k])
    {
      assert indices[..k + 1][..k] == indices[..k];
      var idx := indices[k];
      if 0 <= idx < |hand| && Present(hand[idx]) {
        played := played + [hand[idx]];
      }
    }
    assert indices[..|indices|] == indices;
  }

  /** `s.splice(i, 1)`: removes the element at `i` (counted from the end
      when negative); an index past the end removes nothing. */
  function Splice(s: seq<Card>, i: int): (r: seq<Card>)
    ensures 0 <= i < |s| ==> |r| == |s| - 1 && r[..i] == s[..i] && multiset(r) + multiset{s[i]} == multiset(s)
    ensures i >= |s| ==> r == s
  {
    var start := if i < 0 then Max(|s| + i, 0) else i;
    if start < |s| then
      assert s == s[..start] + [s[start]] + s[start + 1..];
      s[..start] + s[start + 1..]
    else s
  }

  /** The hand after splicing at each index of `order` in turn. */
  function SpliceAll(s: seq<Card>, order: seq<int>): seq<Card>
    decreases |order|
  {
    if order == [] then s else SpliceAll(Splice(s, order[0]), order[1..])
  }

  /** The removal loop. */
  method SpliceCards(hand: seq<Card>, order: seq<int>) returns (h: seq<Card>)
    ensures h == SpliceAll(hand, order)
  {
    h := hand;
    for k := 0 to |order|
      invariant SpliceAll(hand, order) == SpliceAll(h, order[k..])
    {
      assert order[k..][1..] == order[k + 1..];
      h := Splice(h, order[k]);
    }
  }

  predicate NonIncreasing(s: seq<int>)
  {
    forall i, j :: 0 <= i < j < |s| ==> s[i] >= s[j]
  }

  /** `x` placed into a non-increasing sequence, in front of the first
      element it is not smaller than. */
  function InsertDesc(x: int, s: seq<int>): (r: seq<int>)
    requires NonIncreasing(s)
    ensures |r| == |s| + 1 && r[0] == (if s == [] || x >= s[0] then x else s[0])
    ensures NonIncreasing(r)
  {
    if s == [] || x >= s[0] then
      PrependNonIncreasing(x, s);
      [x] + s
    else
      var t := InsertDesc(x, s[1..]);
      assert t[0] <= s[0] by {
        if s[1..] != [] {
          assert s[1] <= s[0];
        }
      }
      PrependNonIncreasing(s[0], t);
      [s[0]] + t
  }

  /** Inserting adds exactly `x`: the result is a permutation of `s` with
      `x` added. */
  lemma {:induction false} InsertDescCounts(x: int, s: seq<int>)
    requires NonIncreasing(s)
    ensures multiset(InsertDesc(x, s)) == multiset(s) + multiset{x}
    decreases |s|
  {
    if s != [] && x < s[0] {
      InsertDescCounts(x, s[1..]);
      assert s == [s[0]] + s[1..];
      assert InsertDesc(x, s) == [s[0]] + InsertDesc(x, s[1..]);
    }
  }

  lemma PrependNonIncreasing(y: int, t: seq<int>)
    requires NonIncreasing(t) && (t == [] || y >= t[0])
    ensures NonIncreasing([y] + t)
  {
    var r := [y] + t;
    forall i, j | 0 <= i < j < |r|
      ensures r[i] >= r[j]
    {
      if i == 0 {
        assert r[j] == t[j - 1] <= t[0];
      }
    }
  }

  /** `[...indices].sort((a, b) => b - a)`: the same indices, largest first. */
  function SortDesc(s: seq<int>): (r: seq<int>)
    ensures NonIncreasing(r) && multiset(r) == multiset(s)
  {
    if s == [] then []
    else
      assert s == [s[0]] + s[1..];
      InsertDescCounts(s[0], SortDesc(s[1..]));
      InsertDesc(s[0], SortDesc(s[1..]))
  }

  /** No index is given twice. */
  predicate NoRepeats(s: seq<int>)
  {
    forall x | x in s :: multiset(s)[x] <= 1
  }

  /** The card at position `k`, or the empty string (`undefined`) past
      either end. */
  function CardAt(hand: seq<Card>, k: int): Card
  {
    if 0 <= k < |hand| then hand[k] else ""
  }

  /** The cards at the given positions, in order. */
  function CardsAt(hand: seq<Card>, d: seq<int>): (r: seq<Card>)
    ensures |r| == |d|
  {
    if d == [] then [] else [CardAt(hand, d[0])] + CardsAt(hand, d[1..])
  }

  lemma {:induction false} CardsAtAppend(hand: seq<Card>, u: seq<int>, v: seq<int>)
    ensures CardsAt(hand, u + v) == CardsAt(hand, u) + CardsAt(hand, v)
    decreases |u|
  {
    if u != [] {
      assert (u + v)[0] == u[0] && (u + v)[1..] == u[1..] + v;
      CardsAtAppend(hand, u[1..], v);
      assert CardsAt(hand, u + v) == [CardAt(hand, u[0])] + CardsAt(hand, u[1..] + v);
    } else {
      assert u + v == v;
    }
  }

  /** Splicing at `i` leaves every card before `i` where it was. */
  lemma {:induction false} SpliceKeepsBelow(hand: seq<Card>, i: int, d: seq<int>)
    requires 0 <= i < |hand|
    requires forall j :: 0 <= j < |d| ==> 0 <= d[j] < i
    ensures CardsAt(Splice(hand, i), d) == CardsAt(hand, d)
    decreases |d|
  {
    if d != [] {
      var h1 := Splice(hand, i);
      assert h1[..i][d[0]] == hand[..i][d[0]];
      SpliceKeepsBelow(hand, i, d[1..]);
    }
  }

  /** Splicing at strictly decreasing in-range positions removes exactly the
      cards at those positions: each splice leaves the positions still to
      come where they were. */
  lemma {:induction false} SpliceDescending(hand: seq<Card>, d: seq<int>)
    requires forall i, j :: 0 <= i < j < |d| ==> d[i] > d[j]
    requires forall j :: 0 <= j < |d| ==> 0 <= d[j] < |hand|
    ensures |SpliceAll(hand, d)| == |hand| - |d|
    ensures multiset(SpliceAll(hand, d)) + multiset(CardsAt(hand, d)) == multiset(hand)
    decreases |d|
  {
    if d != [] {
      var i := d[0];
      var rest := d[1..];
      var h1 := Splice(hand, i);
      assert forall j :: 0 <= j < |rest| ==> 0 <= rest[j] < i by {
        forall j | 0 <= j < |rest| ensures 0 <= rest[j] < i {
          assert rest[j] == d[j + 1];
        }
      }
      SpliceKeepsBelow(hand, i, rest);
      SpliceDescending(h1, rest);
      MultisetShift(SpliceAll(h1, rest), CardsAt(h1, rest), h1, hand, hand[i]);
    }
  }

  /** Multiset bookkeeping for one splice. */
  lemma MultisetShift(tail: seq<Card>, cs: seq<Card>, h1: seq<Card>, hand: seq<Card>, c: Card)
    requires multiset(tail) + multiset(cs) == multiset(h1)
    requires multiset(h1) + multiset{c} == multiset(hand)
    ensures multiset(tail) + multiset([c] + cs) == multiset(hand)
  {
  }

  /** Reordering the positions reorders the cards: the same multiset. */
  lemma {:induction false} CardsAtPermutation(hand: seq<Card>, a: seq<int>, b: seq<int>)
    requires multiset(a) == multiset(b)
    ensures multiset(CardsAt(hand, a)) == multiset(CardsAt(hand, b))
    decreases |a|
  {
    if a != [] {
      var x := a[0];
      assert x in multiset(b) by {
        assert x in multiset(a);
      }
      var p :| 0 <= p < |b| && b[p] == x;
      var front, back := b[..p], b[p + 1..];
      assert b == front + [x] + back;
      assert a == [x] + a[1..];
      TakeOut(a[1..], front, back, x);
      CardsAtPermutation(hand, a[1..], front + back);
      CardsAtAppend(hand, front, back);
      CardsAtAppend(hand, front + [x], back);
      CardsAtAppend(hand, front, [x]);
      MultisetMiddle(CardsAt(hand, front), CardAt(hand, x), CardsAt(hand, back), CardsAt(hand, a[1..]));
    }
  }

  /** Taking the same element out of two equal multisets. */
  lemma TakeOut(rest: seq<int>, front: seq<int>, back: seq<int>, x: int)
    requires multiset([x] + rest) == multiset(front + [x] + back)
    ensures multiset(rest) == multiset(front + back)
  {
    assert multiset([x] + rest) == multiset{x} + multiset(rest);
    assert multiset(front + [x] + back) == multiset{x} + multiset(front + back);
    forall y ensures multiset(rest)[y] == multiset(front + back)[y] {
      assert (multiset{x} + multiset(rest))[y] == (multiset{x} + multiset(front + back))[y];
    }
  }

  /** Multiset bookkeeping for one moved card. */
  lemma MultisetMiddle(front: seq<Card>, c: Card, back: seq<Card>, rest: seq<Card>)
    requires multiset(rest) == multiset(front + back)
    ensures multiset([c] + rest) == multiset(front + [c] + back)
  {
  }



  /** A non-increasing sequence without repeats is strictly decreasing. */
  lemma StrictlyDecreasing(s: seq<int>)
    requires NonIncreasing(s) && NoRepeats(s)
    ensures forall i, j :: 0 <= i < j < |s| ==> s[i] > s[j]
  {
    forall i, j | 0 <= i < j < |s|
      ensures s[i] > s[j]
    {
      if s[i] == s[j] {
        TwiceInMultiset(s, i, j);
      }
    }
  }

  /** An accepted play of distinct indices moves exactly the selected cards:
      the submission is the selected cards in the order given, and the hand
      keeps every other card and shrinks by the number played. */
  lemma {:induction false} PlayMovesCards(hand: seq<Card>, indices: seq<int>)
    requires Selects(hand, indices) && NoRepeats(indices)
    ensures |SpliceAll(hand, SortDesc(indices))| == |hand| - |indices|
    ensures multiset(SpliceAll(hand, SortDesc(indices))) + multiset(Picked(hand, indices)) == multiset(hand)
  {
    var d := SortDesc(indices);
    assert NoRepeats(d) by {
      forall x | x in d ensures multiset(d)[x] <= 1 {
        assert x in multiset(indices);
      }
    }
    StrictlyDecreasing(d);
    CardsAtPermutation(hand, indices, d);
    assert forall j :: 0 <= j < |d| ==> 0 <= d[j] < |hand| by {
      forall j | 0 <= j < |d| ensures 0 <= d[j] < |hand| {
        assert d[j] in multiset(indices);
      }
    }
    SpliceDescending(hand, d);
    PickedIsCardsAt(hand, indices);
  }

  /** When every index selects a card, the picked cards are the cards at
      the indices. */
  lemma PickedIsCardsAt(hand: seq<Card>, indices: seq<int>)
    requires Selects(hand, indices)
    ensures Picked(hand, indices) == CardsAt(hand, indices)
  {
  }

  /** Indices are not checked for repeats: playing `[0, 0]` from the hand
      `["a", "b"]` when two cards are needed submits "a" twice and empties
      the hand, so "b" is lost and "a" is played twice. */
  lemma RepeatedIndexPlaysOneCardTwice()
    ensures Selects(["a", "b"], [0, 0])
    ensures Picked(["a", "b"], [0, 0]) == ["a", "a"]
    ensures SpliceAll(["a", "b"], SortDesc([0, 0])) == []
  {
    PickedTwice();
    SortedZeros();
    SplicedTwice();
  }

  lemma PickedTwice()
    ensures Selects(["a", "b"], [0, 0])
    ensures Picked(["a", "b"], [0, 0]) == ["a", "a"]
  {
  }

  lemma SortedZeros()
    ensures SortDesc([0, 0]) == [0, 0]
  {
  }

  lemma SplicedTwice()
    ensures SpliceAll(["a", "b"], [0, 0]) == []
  {
  }



  /** Whether the socket may play at all this round: the phase is `playing`,
      the socket is a player, it is not the (clamped) judge, and it has not
      submitted yet. */
  predicate MaySubmit(r: RoomRecord, id: SocketId)
  {
    && r.state == Playing
    && FindIndex(r.players, IdMatch(id)).Some?
    && r.players[ClampedJudge(r.judgeIndex, |r.players|)].id != Some(id)
    && id !in r.submissions
  }

  datatype SubmitOutcome = Ignored | Raised | Accepted(played: seq<Card>, revealDue: bool)

  /** What `submit_cards` does to a room. Outside the `playing` phase nothing
      changes; past that the judge index is clamped first. A socket that may
      not play is ignored; a round without rules throws when its combo size
      is read; a play whose length is not the combo size or that selects a
      missing card is ignored. An accepted play records the selected cards
      under the socket id, removes the played positions from the player's
      hand (largest first) and stamps the room's activity. */
  ghost predicate CardsPlayed(before: RoomRecord, after: RoomRecord, id: SocketId, indices: seq<int>,
                              now: int, outcome: SubmitOutcome)
  {
    var clamped := before.(judgeIndex := ClampedJudge(before.judgeIndex, |before.players|));
    if before.state != Playing then outcome == Ignored && after == before
    else if !MaySubmit(before, id) then outcome == Ignored && after == clamped
    else if before.currentRoundConfig.None? then outcome == Raised && after == clamped
    else
      var p := FindIndex(before.players, IdMatch(id)).value;
      var hand := before.players[p].hand;
      if |indices| != before.currentRoundConfig.value.cardsNeeded || !Selects(hand, indices) then
        outcome == Ignored && after == clamped
      else
        && outcome.Accepted? && outcome.played == Picked(hand, indices)
        && after == clamped.(players := before.players[p := before.players[p].(hand := SpliceAll(hand, SortDesc(indices)))],
                             submissions := before.submissions[id := outcome.played],
                             lastActivity := now)
  }

  /** `submit_cards` from the socket; the reveal is due when, after an
      accepted play, everybody but the judge has submitted. */
  method SubmitCards(store: GameStore, socket: Socket, indices: seq<int>, now: int) returns (outcome: SubmitOutcome)
    modifies socket.In(store)
    ensures socket.roomCode.None? || socket.roomCode.value !in store.games ==> outcome == Ignored
    ensures socket.roomCode.Some? && socket.roomCode.value in store.games ==>
              var room := store.games[socket.roomCode.value];
              && CardsPlayed(old(room.Value()), room.Value(), socket.id, indices, now,
                             if outcome.Accepted? then outcome.(revealDue := false) else outcome)
              && (outcome.Accepted? ==>
                    && socket.id in room.submissions
                    && 0 <= room.judgeIndex < |room.players|
                    && (outcome.revealDue <==> CheckAllSubmitted(store, socket.roomCode.value)))
  {
    if socket.roomCode.None? || socket.roomCode.value !in store.games {
      return Ignored;
    }
    var code := socket.roomCode.value;
    var room := store.games[code];
    outcome := PlayCards(room, socket.id, indices, now);
    if outcome.Accepted? {
      outcome := outcome.(revealDue := CheckAllSubmitted(store, code));
    }
  }

  /** The body of `submit_cards` on the socket's room. */
  method PlayCards(room: Room, id: SocketId, indices: seq<int>, now: int) returns (outcome: SubmitOutcome)
    modifies room
    ensures CardsPlayed(old(room.Value()), room.Value(), id, indices, now, outcome)
    ensures outcome.Accepted? ==> !outcome.revealDue && 0 <= room.judgeIndex < |room.players|
  {
    if room.state != Playing {
      return Ignored;
    }
    var judge := GetJudge(room);
    var p := FindIndex(room.players, IdMatch(id));
    if p.None? || (judge.Some? && judge.value.id == Some(id)) || id in room.submissions {
      return Ignored;
    }
    if room.currentRoundConfig.None? {
      return Raised;
    }
    var played := Commit(room, p.value, id, indices, room.currentRoundConfig.value.cardsNeeded, now);
    outcome := if played.Some? then Accepted(played.value, false) else Ignored;
  }

  /** The size check, the pick loop, the descending removal and the record
      of the play, for the player at seat `p`: nothing changes unless exactly
      `need` indices each select a card. */
  method Commit(room: Room, p: nat, id: SocketId, indices: seq<int>, need: int, now: int)
    returns (played: Option<seq<Card>>)
    requires p < |room.players|
    modifies room
    ensures var before := old(room.Value());
            var hand := before.players[p].hand;
            if |indices| == need && Selects(hand, indices) then
              && played == Some(Picked(hand, indices))
              && room.Value() == before.(players := before.players[p := before.players[p].(hand := SpliceAll(hand, SortDesc(indices)))],
                                         submissions := before.submissions[id := played.value],
                                         lastActivity := now)
            else played.None? && room.Value() == before
  {
    if |indices| != need {
      return None;
    }
    var hand := room.players[p].hand;
    var cards := PickCards(hand, indices);
    if |cards| != need {
      return None;
    }
    var order := SortDesc(indices);
    var rest := SpliceCards(hand, order);
    var before := room.Value();
    room.Assign(before.(players := before.players[p := before.players[p].(hand := rest)],
                        submissions := before.submissions[id := cards],
                        lastActivity := now));
    played := Some(cards);
  }

  // ---------------------------------------------------------- next_round

  datatype NextOutcome = Roomless | NotAllowed | GameOver(leaderboard: seq<Player>) | NewRound(started: StartOutcome)

  /** Who may move the game on: in phone party mode the socket whose id is
      the room's host id, otherwise the socket flagged as host. */
  predicate CanTrigger(r: RoomRecord, id: SocketId, isHost: bool)
  {
    if r.phonePartyMode then id == r.hostId else isHost
  }

  /** What `next_round` does to the room it found: a caller who may not
      trigger changes nothing; otherwise the activity is stamped and then the
      game ends once the round counter has reached the number of rounds, and
      the next round starts (as `startRound` says) before that. */
  ghost predicate Advanced(before: RoomRecord, after: RoomRecord, id: SocketId, isHost: bool, settings: Settings,
                           rounds: RoundsConfig, now: int, outcome: NextOutcome, draw: PromptDraw, drawnFrom: Decks)
  {
    var stamped := before.(lastActivity := now);
    if !CanTrigger(before, id, isHost) then outcome == NotAllowed && after == before
    else if before.currentRound >= rounds.totalRounds then
      outcome == GameOver(Leaderboard(before.players)) && after == stamped.(state := Ended)
    else if |before.players| < 2 then outcome == NewRound(Skipped) && after == stamped
    else outcome.NewRound? && RoundStarted(stamped, after, settings, rounds.phases, outcome.started, draw, drawnFrom)
  }

  /** `next_round` from the socket. */
  method NextRound(store: GameStore, socket: Socket, settings: Settings, rounds: RoundsConfig, rand: nat -> nat, now: int)
    returns (outcome: NextOutcome, ghost draw: PromptDraw, ghost drawnFrom: Decks)
    modifies socket.In(store)
    ensures socket.roomCode.None? || socket.roomCode.value !in store.games ==> outcome == Roomless
    ensures socket.roomCode.Some? && socket.roomCode.value in store.games ==>
              Advanced(old(store.games[socket.roomCode.value].Value()), store.games[socket.roomCode.value].Value(),
                       socket.id, socket.isHost, settings, rounds, now, outcome, draw, drawnFrom)
  {
    draw, drawnFrom := Undefined, Decks([], [], [], []);
    if socket.roomCode.None? {
      return Roomless, draw, drawnFrom;
    }
    outcome, draw, drawnFrom := Advance(store, socket.roomCode.value, socket.id, socket.isHost, settings, rounds, rand, now);
  }

  /** The body of `next_round` on the room `code` names. */
  method Advance(store: GameStore, code: RoomCode, id: SocketId, isHost: bool, settings: Settings, rounds: RoundsConfig,
                 rand: nat -> nat, now: int)
    returns (outcome: NextOutcome, ghost draw: PromptDraw, ghost drawnFrom: Decks)
    modifies store.At(code)
    ensures code !in store.games ==> outcome == Roomless
    ensures code in store.games ==>
              Advanced(old(store.games[code].Value()), store.games[code].Value(), id, isHost, settings, rounds, now,
                       outcome, draw, drawnFrom)
  {
    draw, drawnFrom := Undefined, Decks([], [], [], []);
    if code !in store.games {
      return Roomless, draw, drawnFrom;
    }
    var room := store.games[code];
    if !(if room.phonePartyMode then id == room.hostId else isHost) {
      return NotAllowed, draw, drawnFrom;
    }
    store.UpdateActivity(code, now);
    if room.currentRound >= rounds.totalRounds {
      var leaderboard := EndGame(store, code);
      outcome := GameOver(leaderboard);
    } else {
      var started;
      started, draw, drawnFrom := StartRound(store, code, settings, rounds, rand);
      outcome := NewRound(started);
    }
  }

  /** Moving on never takes the round counter past the number of rounds:
      it only rises below that number, by one, and the game ends on it. */
  lemma NextRoundWithinTotal(before: RoomRecord, after: RoomRecord, id: SocketId, isHost: bool, settings: Settings,
                             rounds: RoundsConfig, now: int, outcome: NextOutcome, draw: PromptDraw, drawnFrom: Decks)
    requires Advanced(before, after, id, isHost, settings, rounds, now, outcome, draw, drawnFrom)
    requires before.currentRound <= rounds.totalRounds
    ensures after.currentRound <= rounds.totalRounds
    ensures outcome.GameOver? <==> CanTrigger(before, id, isHost) && before.currentRound == rounds.totalRounds
    ensures outcome.GameOver? ==> after.state == Ended
    ensures after.currentRound != before.currentRound ==> after.currentRound == before.currentRound + 1 && after.state == Playing
  {
  }

  // ---------------------------------------------------------- leave_game

  /** The filter that keeps every player other than the socket's. */
  function OtherThan(id: SocketId): Player -> bool
  {
    p => !HasId(p, id)
  }

  /** `leave_game` from the socket: nothing when it names no room. The host
      leaving deletes the room; anyone else is removed from the players
      together with their submission. Either way the socket forgets the
      room. */
  method LeaveGame(store: GameStore, socket: Socket)
    requires store.Valid()
    modifies store, socket, socket.In(store)
    ensures store.Valid() && store.disconnectedPlayers == old(store.disconnectedPlayers)
    ensures old(socket.roomCode).None? || old(socket.roomCode).value !in old(store.games) ==>
              unchanged(socket) && store.games == old(store.games)
    ensures old(socket.roomCode).Some? && old(socket.roomCode).value in old(store.games) ==>
              && Left(store, old(socket.roomCode).value, socket.id, old(socket.isHost))
              && socket.roomCode.None? && socket.isHost == old(socket.isHost)
              && socket.playerName == old(socket.playerName) && socket.sessionToken == old(socket.sessionToken)
  {
    if socket.roomCode.None? || socket.roomCode.value !in store.games {
      return;
    }
    Leave(store, socket.roomCode.value, socket.id, socket.isHost);
    socket.roomCode := None;
  }

  /** What leaving does to the store: the host's room is deleted, otherwise
      the leaver's players and submission are removed from it. */
  twostate predicate Left(store: GameStore, code: RoomCode, id: SocketId, isHost: bool)
    reads store, store.At(code)
  {
    && (isHost ==> store.games == old(store.games) - {code})
    && (!isHost ==>
          && store.games == old(store.games)
          && code in store.games
          && var before := old(store.games[code].Value());
             store.games[code].Value() == before.(players := Filter(before.players, OtherThan(id)),
                                                  submissions := before.submissions - {id}))
  }

  /** The body of `leave_game` on a room known to exist. */
  method Leave(store: GameStore, code: RoomCode, id: SocketId, isHost: bool)
    requires store.Valid() && code in store.games
    modifies store, store.At(code)
    ensures store.Valid() && store.disconnectedPlayers == old(store.disconnectedPlayers)
    ensures Left(store, code, id, isHost)
  {
    if isHost {
      store.Delete(code);
    } else {
      var room := store.games[code];
      room.players, room.submissions := Filter(room.players, OtherThan(id)), room.submissions - {id};
    }
  }

  /** After a player leaves, nobody with that socket id is left, every
      other player stays as often as before, and the room shrinks exactly
      when somebody had that id. */
  lemma LeaveRemovesOnlyLeaver(ps: seq<Player>, id: SocketId)
    ensures forall i :: 0 <= i < |Filter(ps, OtherThan(id))| ==> !HasId(Filter(ps, OtherThan(id))[i], id)
    ensures forall p :: multiset(Filter(ps, OtherThan(id)))[p] == if HasId(p, id) then 0 else multiset(ps)[p]
    ensures (forall i :: 0 <= i < |ps| ==> !HasId(ps[i], id)) ==> Filter(ps, OtherThan(id)) == ps
    ensures (exists i :: 0 <= i < |ps| && HasId(ps[i], id)) ==> |Filter(ps, OtherThan(id))| < |ps|
  {
    FilterCounts(ps, OtherThan(id));
    FilterKeepsAll(ps, OtherThan(id));
  }

  /** Leaving undoes joining: a player who joined a room nobody else in it
      shares the socket id with, and then leaves, leaves the players and the
      submissions as they were before the join. */
  lemma JoinThenLeave(before: RoomRecord, mid: RoomRecord, id: SocketId, name: string, maxPlayers: int,
                      token: Token, avatar: string, now: int, outcome: JoinOutcome)
    requires Admitted(before, mid, id, name, maxPlayers, token, avatar, now, outcome) && outcome.Joined?
    requires forall i :: 0 <= i < |before.players| ==> !HasId(before.players[i], id)
    requires id !in before.submissions
    ensures Filter(mid.players, OtherThan(id)) == before.players
    ensures mid.submissions - {id} == before.submissions
  {
    FilterAppend(before.players, [outcome.player], OtherThan(id));
    FilterKeepsAll(before.players, OtherThan(id));
    assert [outcome.player][1..] == [];
  }

  // ---------------------------------------------------------- play_again

  /** Every player's score and hand cleared, nothing else about them
      changed. */
  function Cleared(ps: seq<Player>): (r: seq<Player>)
    ensures |r| == |ps|
    ensures forall i :: 0 <= i < |ps| ==> r[i] == ps[i].(score := 0, hand := [])
  {
    if ps == [] then [] else [ps[0].(score := 0, hand := [])] + Cleared(ps[1..])
  }

  /** The `forEach` that clears the players. */
  method ClearPlayers(ps: seq<Player>) returns (qs: seq<Player>)
    ensures qs == Cleared(ps)
  {
    qs := ps;
    for i := 0 to |ps|
      invariant |qs| == |ps|
      invariant forall j :: 0 <= j < i ==> qs[j] == ps[j].(score := 0, hand := [])
      invariant forall j :: i <= j < |ps| ==> qs[j] == ps[j]
    {
      qs := qs[i := qs[i].(score := 0, hand := [])];
    }
  }

  /** What `play_again` does to the host's room: the activity is stamped,
      fresh piles are built from the room's chosen packs and become the
      refill sources too, the game is back in the lobby at round 0 with no
      judge, the submissions and the reveal order are emptied, and every
      player keeps their seat with score 0 and an empty hand. */
  ghost predicate Restarted(before: RoomRecord, after: RoomRecord, packs: map<PackId, Pack>, now: int)
  {
    && after == before.(lastActivity := now, state := Lobby, currentRound := 0, judgeIndex := -1,
                        decks := after.decks, originalPrompts := after.decks.prompts,
                        originalResponses := after.decks.responses, submissions := map[],
                        shuffledSubmissions := [], players := Cleared(before.players))
    && forall k :: multiset(DeckPile(after.decks, k)) == multiset(Gather(before.selectedPacks, packs, k))
  }

  /** `play_again` from the socket: only the host's socket id may restart;
      anything else changes nothing. */
  method PlayAgain(store: GameStore, socket: Socket, packs: map<PackId, Pack>, rand: nat -> nat, now: int)
    returns (restarted: bool)
    modifies socket.In(store)
    ensures socket.roomCode.None? || socket.roomCode.value !in store.games ==> !restarted
    ensures socket.roomCode.Some? && socket.roomCode.value in store.games ==>
              var room := store.games[socket.roomCode.value];
              && (restarted <==> socket.id == old(room.hostId))
              && (restarted ==> Restarted(old(room.Value()), room.Value(), packs, now))
              && (!restarted ==> room.Value() == old(room.Value()))
  {
    if socket.roomCode.None? || socket.roomCode.value !in store.games {
      return false;
    }
    var room := store.games[socket.roomCode.value];
    if socket.id != room.hostId {
      return false;
    }
    Restart(room, packs, rand, now);
    restarted := true;
  }

  /** The body of `play_again` on the host's room. */
  method Restart(room: Room, packs: map<PackId, Pack>, rand: nat -> nat, now: int)
    modifies room
    ensures Restarted(old(room.Value()), room.Value(), packs, now)
  {
    var before := room.Value();
    var decks := BuildDecks(before.selectedPacks, packs, rand);
    var players := ClearPlayers(before.players);
    room.Assign(before.(lastActivity := now, state := Lobby, currentRound := 0, judgeIndex := -1,
                        decks := decks, originalPrompts := decks.prompts, originalResponses := decks.responses,
                        submissions := map[], shuffledSubmissions := [], players := players));
  }

  /** After a restart the scores add up to zero, every hand is empty, and the
      seats (ids, names, tokens) are those of before. */
  lemma {:induction false} RestartClearsScores(ps: seq<Player>)
    ensures TotalScore(Cleared(ps)) == 0
    ensures forall i :: 0 <= i < |ps| ==>
              Cleared(ps)[i].hand == [] && Cleared(ps)[i].id == ps[i].id && Cleared(ps)[i].name == ps[i].name
              && Cleared(ps)[i].sessionToken == ps[i].sessionToken
    decreases |ps|
  {
    if ps != [] {
      RestartClearsScores(ps[1..]);
      assert Cleared(ps)[1..] == Cleared(ps[1..]);
    }
  }

  // ---------------------------------------------------------- disconnect

  /** `disconnect`: nothing unless the socket names an existing room. The
      host's socket deletes the room; a socket holding a (non-empty) session
      token marks its player as disconnected, to be removed later unless it
      rejoins; any other socket's players are removed at once (their
      submission stays). */
  method Disconnect(store: GameStore, socket: Socket, now: int)
    requires store.Valid()
    modifies store, socket.In(store)
    ensures store.Valid()
    ensures socket.roomCode.None? || socket.roomCode.value !in old(store.games) ==>
              store.games == old(store.games) && store.disconnectedPlayers == old(store.disconnectedPlayers)
    ensures socket.roomCode.Some? && socket.roomCode.value in old(store.games) ==>
              Dropped(store, socket.roomCode.value, socket.id, socket.isHost, socket.sessionToken, now)
  {
    if socket.roomCode.None? || socket.roomCode.value !in store.games {
      return;
    }
    Drop(store, socket.roomCode.value, socket.id, socket.isHost, socket.sessionToken, now);
  }

  /** Whether the socket holds a truthy session token. */
  predicate HoldsToken(token: Option<Token>)
  {
    token.Some? && token.value != []
  }

  /** What a disconnect does to the store and the room `code` names. */
  twostate predicate Dropped(store: GameStore, code: RoomCode, id: SocketId, isHost: bool, token: Option<Token>, now: int)
    reads store, store.At(code)
  {
    && (isHost ==>
          store.games == old(store.games) - {code} && store.disconnectedPlayers == old(store.disconnectedPlayers))
    && (!isHost ==> store.games == old(store.games) && code in store.games)
    && (!isHost && HoldsToken(token) ==>
          var before := old(store.games[code].Value());
          var i := FindIndex(before.players, IdMatch(id));
          && (i.None? ==> store.games[code].Value() == before && store.disconnectedPlayers == old(store.disconnectedPlayers))
          && (i.Some? ==>
                && store.games[code].Value() == before.(players := before.players[i.value :=
                     before.players[i.value].(disconnected := true, disconnectedAt := Some(now))])
                && store.disconnectedPlayers == old(store.disconnectedPlayers)[token.value := Pending(code, id)]))
    && (!isHost && !HoldsToken(token) ==>
          var before := old(store.games[code].Value());
          && store.games[code].Value() == before.(players := Filter(before.players, OtherThan(id)))
          && store.disconnectedPlayers == old(store.disconnectedPlayers))
  }

  /** The body of `disconnect` on a room known to exist. */
  method Drop(store: GameStore, code: RoomCode, id: SocketId, isHost: bool, token: Option<Token>, now: int)
    requires store.Valid() && code in store.games
    modifies store, store.At(code)
    ensures store.Valid()
    ensures Dropped(store, code, id, isHost, token, now)
  {
    if isHost {
      store.Delete(code);
    } else if HoldsToken(token) {
      store.MarkPlayerDisconnected(code, id, token.value, now);
    } else {
      var room := store.games[code];
      room.players := Filter(room.players, OtherThan(id));
    }
  }
}
