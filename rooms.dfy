/** The room record that every part of the game server reads and updates in
    place, and the player records it owns. */
module Rooms {
  import opened Common

  datatype State = Lobby | Playing | Reveal | Winner | Ended

  /** A participant. `id` is the current socket id (`null` after a restart);
      `hand` is the ordered list of response cards held. */
  datatype Player = Player(
    id: Option<SocketId>,
    name: string,
    score: int,
    avatar: string,
    hand: seq<Card>,
    sessionToken: Option<Token>,
    disconnected: bool,
    disconnectedAt: Option<int>)

  /** The combo size, point value and label that apply to one round (the
      source field `label` is `roundLabel` here: `label` is a Dafny keyword). */
  datatype RoundConfig = RoundConfig(cardsNeeded: int, points: int, roundLabel: string)

  /** One entry of the frozen reveal order: who played which cards. */
  datatype Submission = Submission(playerId: SocketId, cards: seq<Card>)

  /** The four draw piles; each is used as a stack (drawn from the end). */
  datatype Decks = Decks(
    prompts: seq<string>,
    prompts2: seq<string>,
    prompts3: seq<string>,
    responses: seq<Card>)

  /** A snapshot of every field of a room, as a value. */
  datatype RoomRecord = RoomRecord(
    hostId: SocketId,
    players: seq<Player>,
    state: State,
    currentRound: int,
    judgeIndex: int,
    decks: Decks,
    originalPrompts: seq<string>,
    originalResponses: seq<Card>,
    currentPrompt: Option<string>,
    currentRoundConfig: Option<RoundConfig>,
    submissions: map<SocketId, seq<Card>>,
    shuffledSubmissions: seq<Submission>,
    revealIndex: nat,
    phonePartyMode: bool,
    selectedPacks: seq<PackId>,
    lastActivity: int)

  /** A room as the server holds it: one mutable record per game. */
  class Room {
    var hostId: SocketId
    var players: seq<Player>
    var state: State
    var currentRound: int
    var judgeIndex: int
    var decks: Decks
    var originalPrompts: seq<string>
    var originalResponses: seq<Card>
    var currentPrompt: Option<string>
    var currentRoundConfig: Option<RoundConfig>
    var submissions: map<SocketId, seq<Card>>
    var shuffledSubmissions: seq<Submission>
    var revealIndex: nat
    var phonePartyMode: bool
    var selectedPacks: seq<PackId>
    var lastActivity: int

    /** The room's whole state as a value, so that contracts can say which
        fields an operation changes and that the others stay as they were. */
    function Value(): RoomRecord
      reads this
    {
      RoomRecord(hostId, players, state, currentRound, judgeIndex, decks,
                 originalPrompts, originalResponses, currentPrompt, currentRoundConfig,
                 submissions, shuffledSubmissions, revealIndex, phonePartyMode,
                 selectedPacks, lastActivity)
    }

    constructor FromRecord(r: RoomRecord)
      ensures Value() == r
    {
      hostId, players, state, currentRound, judgeIndex := r.hostId, r.players, r.state, r.currentRound, r.judgeIndex;
      decks, originalPrompts, originalResponses := r.decks, r.originalPrompts, r.originalResponses;
      currentPrompt, currentRoundConfig := r.currentPrompt, r.currentRoundConfig;
      submissions, shuffledSubmissions, revealIndex := r.submissions, r.shuffledSubmissions, r.revealIndex;
      phonePartyMode, selectedPacks, lastActivity := r.phonePartyMode, r.selectedPacks, r.lastActivity;
    }

    /** Overwrites the host, the players, the phase and the mode. */
    method AssignSeats(r: RoomRecord)
      modifies this
      ensures Value() == old(Value()).(hostId := r.hostId, players := r.players, state := r.state, phonePartyMode := r.phonePartyMode)
    {
      hostId, players, state, phonePartyMode := r.hostId, r.players, r.state, r.phonePartyMode;
    }

    /** Overwrites the round counter, the judge, the prompt and the round's rules. */
    method AssignRound(r: RoomRecord)
      modifies this
      ensures Value() == old(Value()).(currentRound := r.currentRound, judgeIndex := r.judgeIndex, currentPrompt := r.currentPrompt, currentRoundConfig := r.currentRoundConfig)
    {
      currentRound, judgeIndex, currentPrompt, currentRoundConfig := r.currentRound, r.judgeIndex, r.currentPrompt, r.currentRoundConfig;
    }

    /** Overwrites the piles, their sources and the chosen packs. */
    method AssignDecks(r: RoomRecord)
      modifies this
      ensures Value() == old(Value()).(decks := r.decks, originalPrompts := r.originalPrompts, originalResponses := r.originalResponses, selectedPacks := r.selectedPacks)
    {
      decks, originalPrompts, originalResponses, selectedPacks := r.decks, r.originalPrompts, r.originalResponses, r.selectedPacks;
    }

    /** Overwrites the submissions, the reveal order and position, and the activity stamp. */
    method AssignPlays(r: RoomRecord)
      modifies this
      ensures Value() == old(Value()).(submissions := r.submissions, shuffledSubmissions := r.shuffledSubmissions, revealIndex := r.revealIndex, lastActivity := r.lastActivity)
    {
      submissions, shuffledSubmissions, revealIndex, lastActivity := r.submissions, r.shuffledSubmissions, r.revealIndex, r.lastActivity;
    }

    /** Overwrites every field with the record's (in four steps, to keep
        each proof small). */
    method Assign(r: RoomRecord)
      modifies this
      ensures Value() == r
    {
      AssignSeats(r);
      AssignRound(r);
      AssignDecks(r);
      AssignPlays(r);
    }
  }

  /** `players.findIndex(f)`, with `None` for -1: the first position whose
      player satisfies `f`. */
  function FindIndex(ps: seq<Player>, f: Player -> bool): (r: Option<nat>)
    ensures r.Some? ==> r.value < |ps| && f(ps[r.value])
    ensures r.Some? ==> forall j :: 0 <= j < r.value ==> !f(ps[j])
    ensures r.None? ==> forall j :: 0 <= j < |ps| ==> !f(ps[j])
  {
    if ps == [] then None
    else if f(ps[0]) then Some(0)
    else match FindIndex(ps[1..], f)
      case None => None
      case Some(k) => Some(k + 1)
  }

  /** `players.filter(keep)`: the players `keep` accepts, in their order. */
  function Filter(ps: seq<Player>, keep: Player -> bool): (r: seq<Player>)
    ensures |r| <= |ps|
    ensures forall i :: 0 <= i < |r| ==> keep(r[i])
    decreases |ps|
  {
    if ps == [] then []
    else (if keep(ps[0]) then [ps[0]] else []) + Filter(ps[1..], keep)
  }

  /** The filter keeps every accepted player as often as it occurs and
      drops every other one. */
  lemma {:induction false} FilterCounts(ps: seq<Player>, keep: Player -> bool)
    ensures forall p :: multiset(Filter(ps, keep))[p] == if keep(p) then multiset(ps)[p] else 0
    decreases |ps|
  {
    if ps != [] {
      FilterCounts(ps[1..], keep);
      assert ps == [ps[0]] + ps[1..];
    }
  }

  /** Filtering a concatenation filters each part. */
  lemma {:induction false} FilterAppend(a: seq<Player>, b: seq<Player>, keep: Player -> bool)
    ensures Filter(a + b, keep) == Filter(a, keep) + Filter(b, keep)
    decreases |a|
  {
    if a == [] {
      assert a + b == b;
    } else {
      assert (a + b)[1..] == a[1..] + b;
      FilterAppend(a[1..], b, keep);
    }
  }

  /** A filter that accepts every player keeps the sequence as it is, and
      one that refuses some player shortens it. */
  lemma {:induction false} FilterKeepsAll(ps: seq<Player>, keep: Player -> bool)
    ensures (forall i :: 0 <= i < |ps| ==> keep(ps[i])) ==> Filter(ps, keep) == ps
    ensures (exists i :: 0 <= i < |ps| && !keep(ps[i])) ==> |Filter(ps, keep)| < |ps|
    decreases |ps|
  {
    if ps != [] {
      FilterKeepsAll(ps[1..], keep);
      if exists i :: 0 <= i < |ps| && !keep(ps[i]) {
        var i :| 0 <= i < |ps| && !keep(ps[i]);
        if i > 0 {
          assert !keep(ps[1..][i - 1]);
        }
      }
    }
  }

  predicate HasId(p: Player, id: SocketId) { p.id == Some(id) }

  predicate HasToken(p: Player, t: Token) { p.sessionToken == Some(t) }
}
