/** The round state machine (lib/gameLogic.js): starting a round, the
    all-submitted check, the frozen reveal order and its cursor, crediting
    the round's winner and the final leaderboard. Every operation looks the
    room up by code in the store and does nothing for an unknown code. The
    messages sent to clients are not modelled, except for who receives a
    room-wide message. */
module GameLogic {
  import opened Common
  import opened Rooms
  import opened Helpers
  import opened Store

  /** The server's game settings. */
  datatype Settings = Settings(handSize: int, extraCardsPerCombo: int, maxPlayers: int, minPlayers: int)

  /** The hand size for a round: the base size plus the extra cards a combo
      of the round's size brings. */
  function TargetHandSize(s: Settings, cfg: RoundConfig): int
  {
    s.handSize + cfg.cardsNeeded * s.extraCardsPerCombo
  }

  // ------------------------------------------------------------ judges

  /** The judge index `getJudge` settles on: unchanged when it points into
      the player list, 0 otherwise. */
  function ClampedJudge(j: int, n: nat): (r: int)
    ensures n > 0 ==> 0 <= r < n
    ensures 0 <= j < n ==> r == j
  {
    if n == 0 || 0 <= j < n then j else 0
  }

  /** The judge index after rotation: the next seat, wrapping around, and
      then clamped into range. */
  function NextJudge(j: int, n: nat): (r: int)
    requires n > 0
    ensures 0 <= r < n
    ensures j >= -1 ==> r == (j + 1) % n
    ensures 0 <= j < n - 1 ==> r == j + 1
    ensures j == n - 1 ==> r == 0
  {
    ClampedJudge(JsRem(j + 1, n), n)
  }

  // -------------------------------------------------------- startRound

  /** Every player kept its place and everything but its hand; each hand was
      topped up to `count` cards, all drawn from `pile` or, after a refill,
      from `originals` (or `undefined` when both ran dry). */
  ghost predicate Dealt(before: seq<Player>, after: seq<Player>, count: int, pile: seq<Card>, originals: seq<Card>)
  {
    && |after| == |before|
    && forall q :: 0 <= q < |after| ==>
         && after[q] == before[q].(hand := after[q].hand)
         && ToppedUp(before[q].hand, after[q].hand, count)
         && DrawnFromPool(after[q].hand[|before[q].hand|..], pile, originals)
  }

  /** Deals to every player in turn, as `room.players.forEach(dealCards)`. */
  method DealAll(room: Room, count: int, rand: nat -> nat)
    modifies room
    ensures room.Value() == old(room.Value()).(players := room.players, decks := room.decks)
    ensures room.decks == old(room.decks).(responses := room.decks.responses)
    ensures Dealt(old(room.players), room.players, count, old(room.decks.responses), room.originalResponses)
  {
    ghost var pile := room.decks.responses;
    for q := 0 to |room.players|
      invariant room.Value() == old(room.Value()).(players := room.players, decks := room.decks)
      invariant room.decks == old(room.decks).(responses := room.decks.responses)
      invariant |room.players| == |old(room.players)|
      invariant forall c :: c in room.decks.responses ==> c in pile || c in room.originalResponses
      invariant forall k :: q <= k < |room.players| ==> room.players[k] == old(room.players[k])
      invariant forall k :: 0 <= k < q ==>
                  && room.players[k] == old(room.players[k]).(hand := room.players[k].hand)
                  && ToppedUp(old(room.players[k].hand), room.players[k].hand, count)
                  && DrawnFromPool(room.players[k].hand[|old(room.players[k].hand)|..], pile, room.originalResponses)
    {
      ghost var mid := room.decks.responses;
      DealCards(room, q, count, rand);
      ghost var drawn := room.players[q].hand[|old(room.players[q].hand)|..];
      forall c | c in drawn
        ensures c in pile || c in room.originalResponses || (c == "" && room.originalResponses == [])
      {
        assert c in mid || c in room.originalResponses || (c == "" && room.originalResponses == []);
      }
    }
  }

  /** What `startRound` leaves in a room with two or more players, up to the
      prompt draw: the round counter moved on, the phase is `playing`, the
      submissions and the reveal cursor are cleared, the round's rules are
      those of the new round number and the judge seat has rotated. */
  ghost predicate RoundBegun(before: RoomRecord, after: RoomRecord, phases: seq<Phase>)
    requires |before.players| > 0
  {
    && after.currentRound == before.currentRound + 1
    && after.state == Playing
    && after.submissions == map[]
    && after.revealIndex == 0
    && after.currentRoundConfig == Some(GetRoundConfig(after.currentRound, phases))
    && after.judgeIndex == NextJudge(before.judgeIndex, |before.players|)
  }

  datatype StartOutcome = Skipped | Aborted | Started(judge: Player)

  /** What `startRound` does to a room with two or more players: the round
      is begun; the prompt is drawn from `drawnFrom`'s predecessor, leaving
      the piles as `drawnFrom`; a draw that throws stops there, with no prompt
      set and no cards dealt; otherwise the prompt is set, every hand is
      topped up to the round's hand size, and the judge is reported. */
  ghost predicate RoundStarted(before: RoomRecord, after: RoomRecord, settings: Settings, phases: seq<Phase>,
                               outcome: StartOutcome, draw: PromptDraw, drawnFrom: Decks)
    requires |before.players| > 0
  {
    var cfg := GetRoundConfig(after.currentRound, phases);
    && RoundBegun(before, after, phases)
    && after == before.(
         currentRound := after.currentRound, state := after.state, submissions := after.submissions,
         revealIndex := after.revealIndex, currentRoundConfig := after.currentRoundConfig,
         judgeIndex := after.judgeIndex, currentPrompt := after.currentPrompt,
         decks := after.decks, players := after.players)
    && PromptTaken(before.decks, drawnFrom, before.originalPrompts, cfg.cardsNeeded, draw)
    && (draw.Threw? ==>
          && outcome == Aborted
          && after.decks == drawnFrom && after.players == before.players
          && after.currentPrompt == before.currentPrompt)
    && (!draw.Threw? ==>
          && |after.players| == |before.players|
          && outcome == Started(after.players[after.judgeIndex])
          && after.currentPrompt == (if draw.Drawn? then Some(draw.text) else None)
          && after.decks == drawnFrom.(responses := after.decks.responses)
          && Dealt(before.players, after.players, TargetHandSize(settings, cfg), drawnFrom.responses, before.originalResponses))
  }

  /** Every hand dealt to reaches at least the target size. */
  lemma DealtReachesTarget(before: seq<Player>, after: seq<Player>, count: int, pile: seq<Card>, originals: seq<Card>)
    requires Dealt(before, after, count, pile, originals)
    ensures forall q :: 0 <= q < |after| ==> |after[q].hand| >= count && after[q].hand[..|before[q].hand|] == before[q].hand
  {
  }

  /** Opens the next round: nothing for an unknown room or fewer than two
      players, otherwise as `RoundStarted` says. */
  method StartRound(store: GameStore, code: RoomCode, settings: Settings, rounds: RoundsConfig, rand: nat -> nat)
    returns (outcome: StartOutcome, ghost draw: PromptDraw, ghost drawnFrom: Decks)
    modifies store.At(code)
    ensures code !in store.games ==> outcome == Skipped
    ensures code in store.games && |old(store.games[code].players)| < 2 ==>
              outcome == Skipped && store.games[code].Value() == old(store.games[code].Value())
    ensures code in store.games && |old(store.games[code].players)| >= 2 ==>
              RoundStarted(old(store.games[code].Value()), store.games[code].Value(), settings, rounds.phases,
                           outcome, draw, drawnFrom)
  {
    draw, drawnFrom := Undefined, Decks([], [], [], []);
    if code !in store.games {
      return Skipped, draw, drawnFrom;
    }
    var room := store.games[code];
    if |room.players| < 2 {
      return Skipped, draw, drawnFrom;
    }
    outcome, draw, drawnFrom := PlayRound(room, settings, rounds.phases, rand);
  }

  /** `startRound` on a room known to have two or more players. */
  method PlayRound(room: Room, settings: Settings, phases: seq<Phase>, rand: nat -> nat)
    returns (outcome: StartOutcome, ghost draw: PromptDraw, ghost drawnFrom: Decks)
    requires |room.players| >= 2
    modifies room
    ensures RoundStarted(old(room.Value()), room.Value(), settings, phases, outcome, draw, drawnFrom)
  {
    OpenRound(room, phases);
    var cfg := room.currentRoundConfig.value;
    var prompt := GetPromptForRound(room, cfg.cardsNeeded, rand);
    draw, drawnFrom := prompt, room.decks;
    if prompt.Threw? {
      return Aborted, draw, drawnFrom;
    }
    room.currentPrompt := if prompt.Drawn? then Some(prompt.text) else None;
    DealAll(room, TargetHandSize(settings, cfg), rand);
    outcome := Started(room.players[room.judgeIndex]);
  }

  /** Begins the round and settles the judge (who cannot be missing: the
      room has players). */
  method OpenRound(room: Room, phases: seq<Phase>)
    requires |room.players| > 0
    modifies room
    ensures RoundBegun(old(room.Value()), room.Value(), phases)
    ensures room.Value() == old(room.Value()).(
              currentRound := room.currentRound, state := room.state, submissions := room.submissions,
              revealIndex := room.revealIndex, currentRoundConfig := room.currentRoundConfig,
              judgeIndex := room.judgeIndex)
  {
    BeginRound(room, phases);
    var judge := GetJudge(room);
  }

  /** The bookkeeping half of `startRound`, before the judge is settled: the
      rotated index is taken modulo the player count. */
  method BeginRound(room: Room, phases: seq<Phase>)
    requires |room.players| > 0
    modifies room
    ensures room.Value() == old(room.Value()).(
              currentRound := old(room.currentRound) + 1, state := Playing, submissions := map[],
              revealIndex := 0, currentRoundConfig := Some(GetRoundConfig(old(room.currentRound) + 1, phases)),
              judgeIndex := JsRem(old(room.judgeIndex) + 1, |old(room.players)|))
  {
    var round := room.currentRound + 1;
    room.Assign(room.Value().(
      currentRound := round, state := Playing, submissions := map[], revealIndex := 0,
      currentRoundConfig := Some(GetRoundConfig(round, phases)),
      judgeIndex := JsRem(room.judgeIndex + 1, |room.players|)));
  }

  // ------------------------------------------------- checkAllSubmitted

  /** A player has submitted when a submission is keyed by its socket id (a
      player without a socket id never has). */
  predicate Submitted(p: Player, subs: map<SocketId, seq<Card>>)
  {
    p.id.Some? && p.id.value in subs
  }

  /** `players.filter(not the judge seat).every(submitted)`, over the seats
      from `from` on. */
  function EverySubmitted(ps: seq<Player>, judgeIndex: int, subs: map<SocketId, seq<Card>>, from: nat): (r: bool)
    requires from <= |ps|
    ensures r <==> forall i :: from <= i < |ps| && i != judgeIndex ==> Submitted(ps[i], subs)
    decreases |ps| - from
  {
    if from == |ps| then true
    else (from == judgeIndex || Submitted(ps[from], subs)) && EverySubmitted(ps, judgeIndex, subs, from + 1)
  }

  /** Whether every player but the one in the judge seat has submitted;
      false for an unknown room. */
  function CheckAllSubmitted(store: GameStore, code: RoomCode): (r: bool)
    reads store, store.At(code)
    ensures r <==> code in store.games &&
                   var room := store.games[code];
                   forall i :: 0 <= i < |room.players| && i != room.judgeIndex ==> Submitted(room.players[i], room.submissions)
  {
    code in store.games &&
    var room := store.games[code];
    EverySubmitted(room.players, room.judgeIndex, room.submissions, 0)
  }

  // --------------------------------------------------------- startReveal

  /** The reveal order holds every submission exactly once, as a
      (player id, cards) pair, and nothing else. */
  ghost predicate RevealOrderOf(order: seq<Submission>, subs: map<SocketId, seq<Card>>)
  {
    forall s :: multiset(order)[s] == if s.playerId in subs && subs[s.playerId] == s.cards then 1 else 0
  }

  /** `Object.entries(room.submissions)` as (player id, cards) pairs. */
  method EntriesOf(subs: map<SocketId, seq<Card>>) returns (entries: seq<Submission>)
    ensures RevealOrderOf(entries, subs)
  {
    entries := [];
    var keys := subs.Keys;
    while keys != {}
      invariant keys <= subs.Keys
      invariant forall s :: multiset(entries)[s] ==
                  if s.playerId in subs && s.playerId !in keys && subs[s.playerId] == s.cards then 1 else 0
      decreases keys
    {
      var k :| k in keys;
      entries := entries + [Submission(k, subs[k])];
      keys := keys - {k};
    }
  }

  /** Two positions holding the same value make it occur twice. */
  lemma TwiceInMultiset<T>(s: seq<T>, i: nat, j: nat)
    requires i < j < |s| && s[i] == s[j]
    ensures multiset(s)[s[i]] >= 2
  {
    assert s == s[..j] + [s[j]] + s[j + 1..];
    assert s[i] == s[..j][i];
    assert s[i] in multiset(s[..j]);
  }

  /** A reveal order lists only real submissions, lists each player at most
      once, and lists every player who submitted. */
  lemma RevealOrderCovers(order: seq<Submission>, subs: map<SocketId, seq<Card>>)
    requires RevealOrderOf(order, subs)
    ensures forall i :: 0 <= i < |order| ==> order[i].playerId in subs && subs[order[i].playerId] == order[i].cards
    ensures forall i, j :: 0 <= i < j < |order| ==> order[i].playerId != order[j].playerId
    ensures forall k :: k in subs ==> exists i :: 0 <= i < |order| && order[i] == Submission(k, subs[k])
  {
    forall i | 0 <= i < |order|
      ensures order[i].playerId in subs && subs[order[i].playerId] == order[i].cards
    {
      assert order[i] in multiset(order);
    }
    forall i, j | 0 <= i < j < |order|
      ensures order[i].playerId != order[j].playerId
    {
      assert order[i] in multiset(order) && order[j] in multiset(order);
      if order[i].playerId == order[j].playerId {
        TwiceInMultiset(order, i, j);
      }
    }
    forall k | k in subs
      ensures exists i :: 0 <= i < |order| && order[i] == Submission(k, subs[k])
    {
      var s := Submission(k, subs[k]);
      assert multiset(order)[s] == 1;
      assert s in order;
    }
  }

  /** Freezes the reveal order: the phase becomes `reveal`, the cursor goes
      back to 0 and the submissions are laid out in a shuffled order. Reading
      the round's rules throws when there are none, before the judge is
      settled; otherwise the judge index is clamped. */
  method StartReveal(store: GameStore, code: RoomCode, rand: nat -> nat) returns (threw: bool)
    modifies store.At(code)
    ensures code !in store.games ==> !threw
    ensures code in store.games ==>
              var room := store.games[code];
              && room.Value() == old(room.Value()).(state := Reveal, revealIndex := 0,
                   shuffledSubmissions := room.shuffledSubmissions, judgeIndex := room.judgeIndex)
              && RevealOrderOf(room.shuffledSubmissions, room.submissions)
              && (threw <==> room.currentRoundConfig.None?)
              && room.judgeIndex == (if threw then old(room.judgeIndex) else ClampedJudge(old(room.judgeIndex), |room.players|))
  {
    if code !in store.games {
      return false;
    }
    var room := store.games[code];
    var entries := EntriesOf(room.submissions);
    var order := Shuffle(entries, rand);
    room.state := Reveal;
    room.revealIndex := 0;
    room.shuffledSubmissions := order;
    if room.currentRoundConfig.None? {
      return true;
    }
    var judge := GetJudge(room);
    threw := false;
  }

  // ------------------------------------------------------ revealNextCard

  datatype Revealed = Revealed(cards: seq<Card>, index: nat, isLast: bool)

  /** Whether `requester` may advance the reveal: in phone party mode the
      judge's socket, otherwise the host's. */
  predicate MayReveal(r: RoomRecord, requester: SocketId)
    requires 0 <= r.judgeIndex < |r.players|
  {
    if r.phonePartyMode then r.players[r.judgeIndex].id == Some(requester) else r.hostId == requester
  }

  /** Shows the submission at the cursor and moves the cursor on by one.
      Nothing happens outside the reveal phase, without players, for a
      requester who may not reveal, or once every submission has been shown;
      the judge index is clamped as soon as the phase check passes. */
  method RevealNextCard(store: GameStore, code: RoomCode, requester: SocketId) returns (revealed: Option<Revealed>)
    modifies store.At(code)
    ensures code !in store.games ==> revealed.None?
    ensures code in store.games ==>
              var room := store.games[code];
              var order := room.shuffledSubmissions;
              var at := old(room.revealIndex);
              && room.Value() == old(room.Value()).(judgeIndex := room.judgeIndex, revealIndex := room.revealIndex)
              && (old(room.state) != Reveal || |room.players| == 0 ==>
                    revealed.None? && room.Value() == old(room.Value()))
              && (old(room.state) == Reveal && |room.players| > 0 ==>
                    && room.judgeIndex == ClampedJudge(old(room.judgeIndex), |room.players|)
                    && (revealed.Some? <==> MayReveal(room.Value(), requester) && at < |order|))
              && (revealed.Some? ==>
                    && revealed.value == Revealed(order[at].cards, at, at == |order| - 1)
                    && room.revealIndex == at + 1)
              && (revealed.None? ==> room.revealIndex == at)
              && (at <= |order| ==> room.revealIndex <= |order|)
  {
    if code !in store.games {
      return None;
    }
    var room := store.games[code];
    if room.state != Reveal {
      return None;
    }
    var judge := GetJudge(room);
    if judge.None? {
      return None;
    }
    var canReveal := if room.phonePartyMode then judge.value.id == Some(requester) else room.hostId == requester;
    if !canReveal {
      return None;
    }
    if room.revealIndex < |room.shuffledSubmissions| {
      var at := room.revealIndex;
      revealed := Some(Revealed(room.shuffledSubmissions[at].cards, at, at == |room.shuffledSubmissions| - 1));
      room.revealIndex := at + 1;
    } else {
      revealed := None;
    }
  }

  // ----------------------------------------------------------- showWinner

  datatype WinOutcome = NoRoom | Crashed | Credited(winner: Option<nat>, points: int)

  /** The sum of the players' scores. */
  function TotalScore(ps: seq<Player>): int
  {
    if ps == [] then 0 else ps[0].score + TotalScore(ps[1..])
  }

  /** Crediting one player raises the total by exactly the points credited. */
  lemma {:induction false} CreditRaisesTotal(ps: seq<Player>, i: nat, points: int)
    requires i < |ps|
    ensures TotalScore(ps[i := ps[i].(score := ps[i].score + points)]) == TotalScore(ps) + points
  {
    var after := ps[i := ps[i].(score := ps[i].score + points)];
    if i == 0 {
      assert after[1..] == ps[1..];
    } else {
      CreditRaisesTotal(ps[1..], i - 1, points);
      assert after[1..] == ps[1..][i - 1 := ps[1..][i - 1].(score := ps[1..][i - 1].score + points)];
    }
  }

  /** The players after crediting `points` to seat `i`: that seat's score
      rises by `points`, every other seat is unchanged, and the total rises
      by exactly `points`. */
  function Credit(ps: seq<Player>, i: nat, points: int): (r: seq<Player>)
    requires i < |ps|
    ensures |r| == |ps|
    ensures r[i] == ps[i].(score := ps[i].score + points)
    ensures forall q :: 0 <= q < |ps| && q != i ==> r[q] == ps[q]
    ensures TotalScore(r) == TotalScore(ps) + points
  {
    CreditRaisesTotal(ps, i, points);
    ps[i := ps[i].(score := ps[i].score + points)]
  }

  /** What `showWinner` does to a room: an index outside the reveal order
      (reading `playerId` of `undefined`) or a round without rules (reading
      `points` of `null`) throws before anything changes; otherwise the first
      player with the winning submission's socket id, if still present, is
      credited the round's points, and the phase becomes `winner`. */
  ghost predicate WinnerShown(before: RoomRecord, after: RoomRecord, winningIndex: int, outcome: WinOutcome)
  {
    if !(0 <= winningIndex < |before.shuffledSubmissions|) || before.currentRoundConfig.None? then
      outcome == Crashed && after == before
    else
      var points := before.currentRoundConfig.value.points;
      var w := FindIndex(before.players, IdMatch(before.shuffledSubmissions[winningIndex].playerId));
      && outcome == Credited(w, points)
      && after == before.(state := Winner,
                          players := if w.Some? then Credit(before.players, w.value, points) else before.players)
  }

  /** Credits the round's winner, as `WinnerShown` says. */
  method ShowWinner(store: GameStore, code: RoomCode, winningIndex: int) returns (outcome: WinOutcome)
    modifies store.At(code)
    ensures code !in store.games ==> outcome == NoRoom
    ensures code in store.games ==>
              WinnerShown(old(store.games[code].Value()), store.games[code].Value(), winningIndex, outcome)
  {
    if code !in store.games {
      return NoRoom;
    }
    var room := store.games[code];
    if !(0 <= winningIndex < |room.shuffledSubmissions|) || room.currentRoundConfig.None? {
      return Crashed;
    }
    var winner := room.shuffledSubmissions[winningIndex];
    var w := FindIndex(room.players, IdMatch(winner.playerId));
    var points := room.currentRoundConfig.value.points;
    if w.Some? {
      room.players := Credit(room.players, w.value, points);
    }
    room.state := Winner;
    outcome := Credited(w, points);
  }

  // -------------------------------------------------------------- endGame

  function Scores(ps: seq<Player>): (s: seq<int>)
    ensures |s| == |ps| && forall i :: 0 <= i < |ps| ==> s[i] == ps[i].score
  {
    seq(|ps|, i requires 0 <= i < |ps| => ps[i].score)
  }

  /** Seat `a` ranks before seat `b`: a higher score, or an equal score and
      an earlier seat (the order a stable descending sort produces). */
  predicate Before(scores: seq<int>, a: nat, b: nat)
    requires a < |scores| && b < |scores|
  {
    scores[a] > scores[b] || (scores[a] == scores[b] && a < b)
  }

  /** `order` lists seats in ranking order. */
  ghost predicate Ranked(order: seq<nat>, scores: seq<int>)
  {
    && (forall i :: 0 <= i < |order| ==> order[i] < |scores|)
    && forall i, j :: 0 <= i < j < |order| ==> Before(scores, order[i], order[j])
  }

  /** Inserts seat `x` after every seat that ranks before it. */
  function Insert(order: seq<nat>, scores: seq<int>, x: nat): (r: seq<nat>)
    requires x < |scores|
    requires forall i :: 0 <= i < |order| ==> order[i] < |scores|
    ensures |r| == |order| + 1
    ensures multiset(r) == multiset(order) + multiset{x}
    ensures forall i :: 0 <= i < |r| ==> r[i] < |scores|
  {
    if order == [] then [x]
    else if scores[order[0]] >= scores[x] then
      assert order == [order[0]] + order[1..];
      var rest := Insert(order[1..], scores, x);
      [order[0]] + rest
    else
      [x] + order
  }

  /** A seat that ranks before every seat of a ranked order can lead it. */
  lemma PrependRanked(y: nat, rest: seq<nat>, scores: seq<int>)
    requires y < |scores| && Ranked(rest, scores)
    requires forall j :: 0 <= j < |rest| ==> Before(scores, y, rest[j])
    ensures Ranked([y] + rest, scores)
  {
  }

  /** Every seat of an insertion is the inserted one or an old one. */
  lemma InsertMember(order: seq<nat>, scores: seq<int>, x: nat, j: nat)
    requires x < |scores|
    requires forall i :: 0 <= i < |order| ==> order[i] < |scores|
    requires j < |Insert(order, scores, x)|
    ensures var y := Insert(order, scores, x)[j]; y == x || exists m :: 0 <= m < |order| && order[m] == y
  {
    var r := Insert(order, scores, x);
    assert r[j] in multiset(r);
    if r[j] != x {
      assert r[j] in multiset(order);
    }
  }

  /** Inserting a seat later than every ranked seat keeps the ranking. */
  lemma {:induction false} InsertRanked(order: seq<nat>, scores: seq<int>, x: nat)
    requires x < |scores| && Ranked(order, scores)
    requires forall i :: 0 <= i < |order| ==> order[i] < x
    ensures Ranked(Insert(order, scores, x), scores)
  {
    if order == [] {
    } else if scores[order[0]] >= scores[x] {
      var tail := order[1..];
      assert Ranked(tail, scores) by {
        forall i, j | 0 <= i < j < |tail|
          ensures Before(scores, tail[i], tail[j])
        {
          assert tail[i] == order[i + 1] && tail[j] == order[j + 1];
        }
      }
      InsertRanked(tail, scores, x);
      var rest := Insert(tail, scores, x);
      forall j | 0 <= j < |rest|
        ensures Before(scores, order[0], rest[j])
      {
        InsertMember(tail, scores, x, j);
        if rest[j] != x {
          var m :| 0 <= m < |tail| && tail[m] == rest[j];
          assert order[m + 1] == rest[j];
        }
      }
      PrependRanked(order[0], rest, scores);
    } else {
      forall j | 0 <= j < |order|
        ensures Before(scores, x, order[j])
      {
        if j > 0 {
          assert Before(scores, order[0], order[j]);
        }
      }
      PrependRanked(x, order, scores);
    }
  }

  /** The first `n` seats, ranked: each seat exactly once. */
  function RankOrder(scores: seq<int>, n: nat): (r: seq<nat>)
    requires n <= |scores|
    ensures |r| == n
    ensures forall i :: 0 <= i < |r| ==> r[i] < n
    ensures forall k: nat :: multiset(r)[k] == if k < n then 1 else 0
  {
    if n == 0 then
      var r: seq<nat> := [];
      assert multiset(r) == multiset{};
      r
    else
      var prev := RankOrder(scores, n - 1);
      var r := Insert(prev, scores, n - 1);
      OneMoreSeat(prev, r, n);
      r
  }

  lemma OneMoreSeat(prev: seq<nat>, r: seq<nat>, n: nat)
    requires n > 0
    requires forall k: nat :: multiset(prev)[k] == if k < n - 1 then 1 else 0
    requires multiset(r) == multiset(prev) + multiset{(n - 1) as nat}
    ensures forall k: nat :: multiset(r)[k] == if k < n then 1 else 0
    ensures forall i :: 0 <= i < |r| ==> r[i] < n
  {
    forall i | 0 <= i < |r|
      ensures r[i] < n
    {
      assert r[i] in multiset(r);
    }
  }

  /** The ranking is stable and descending. */
  lemma {:induction false} RankOrderRanked(scores: seq<int>, n: nat)
    requires n <= |scores|
    ensures Ranked(RankOrder(scores, n), scores)
  {
    if n > 0 {
      RankOrderRanked(scores, n - 1);
      InsertRanked(RankOrder(scores, n - 1), scores, n - 1);
    }
  }

  /** The players in ranking order, as `endGame`'s stable sort by descending
      score lists them. */
  function Leaderboard(ps: seq<Player>): (lb: seq<Player>)
    ensures |lb| == |ps|
    ensures forall i :: 0 <= i < |lb| ==> lb[i] == ps[RankOrder(Scores(ps), |ps|)[i]]
  {
    var order := RankOrder(Scores(ps), |ps|);
    seq(|ps|, i requires 0 <= i < |ps| => ps[order[i]])
  }

  /** The leaderboard holds every player exactly once, highest score first,
      and players with equal scores in their seat order. */
  lemma LeaderboardSorted(ps: seq<Player>)
    ensures var lb := Leaderboard(ps);
            var order := RankOrder(Scores(ps), |ps|);
            && (forall k: nat :: multiset(order)[k] == if k < |ps| then 1 else 0)
            && (forall i, j :: 0 <= i < j < |lb| ==> lb[i].score >= lb[j].score)
            && (forall i, j :: 0 <= i < j < |lb| && lb[i].score == lb[j].score ==> order[i] < order[j])
  {
    RankOrderRanked(Scores(ps), |ps|);
  }

  /** Ends the game: the phase becomes `ended` and the leaderboard is the
      players stably sorted by descending score; nothing else changes. */
  method EndGame(store: GameStore, code: RoomCode) returns (leaderboard: seq<Player>)
    modifies store.At(code)
    ensures code !in store.games ==> leaderboard == []
    ensures code in store.games ==>
              var room := store.games[code];
              && room.Value() == old(room.Value()).(state := Ended)
              && leaderboard == Leaderboard(room.players)
  {
    if code !in store.games {
      return [];
    }
    var room := store.games[code];
    room.state := Ended;
    leaderboard := Leaderboard(room.players);
  }

  // ------------------------------------------------------------- emitToRoom

  /** Who hears a room-wide message: every player's socket in phone party
      mode, only the host's screen otherwise. */
  function Recipients(r: RoomRecord): (ids: seq<Option<SocketId>>)
    ensures r.phonePartyMode ==> |ids| == |r.players| && forall i :: 0 <= i < |ids| ==> ids[i] == r.players[i].id
    ensures !r.phonePartyMode ==> ids == [Some(r.hostId)]
  {
    if r.phonePartyMode then seq(|r.players|, i requires 0 <= i < |r.players| => r.players[i].id)
    else [Some(r.hostId)]
  }
}
