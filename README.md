# trashtalk game server — a verified model

trashtalk is a party card game for phones and a shared screen. A host opens a
room under a short code and players join it by name. Each round a judge seat
rotates. A prompt card is drawn, and every other player submits a combo of one
to three response cards from their hand. The submissions are revealed one at a
time in a shuffled order. The judge picks a winner, who earns the round's
points. After the last round a leaderboard ranks the players by score.

This project models the server's engine and the browser's selection logic:

- **Decks** (`Helpers`, helpers.js): shuffling, building decks from packs,
  round configuration, dealing, prompt drawing and the judge lookup.
- **Rounds** (`GameLogic`, gameLogic.js): starting a round, the all-submitted
  check, the reveal order and its cursor, crediting the winner, the
  leaderboard, and who hears a room-wide message.
- **Rooms** (`Store`, gameStore.js): the table of rooms, activity stamps, the
  reconnect grace period, the idle sweep and the snapshot transformations of
  persistence.
- **Handlers** (`SocketHandlers`, socketHandlers.js): the rate-limit gate and
  the bodies of `join_game`, `submit_cards`, `next_round`, `leave_game`,
  `play_again` and `disconnect`.
- **Validation** (`Validation`, validation.js): name sanitising, the room-code
  check and the per-connection request limiter.
- **Client** (`Client`, app.js): card and pack selection, the stored reconnect
  session, and the guards of the submit and start buttons.

A room is a `class` whose fields the operations update in place. `Value()`
returns the whole room as a `RoomRecord`, so every contract states each field
an operation changes and that the rest stay as they were. Players, decks and
submissions are values owned by their room. `Room.FromRecord` and the
`Assign` setters only build or overwrite a room from a record; they model no
source line of their own and so have no row below.

The world outside the code is passed in as parameters:

- the current time is a `now` parameter;
- `Math.random` is a function `rand: nat -> nat`;
- the packs of the card configuration are a map;
- the session token and avatar of a new player are parameters.

The two timers of the store become explicit operations: `Expire` removes a
player who did not rejoin, and `CleanupExpiredGames` sweeps idle rooms. A
JavaScript exception becomes an outcome constructor (`Raised`, `CodeThrew`,
`Crashed`, `Threw`, `Aborted`). Those contracts say exactly what changed before the
throw.

## Model

| member | source | states |
|---|---|---|
| Common.JsRem | lib/gameLogic.js:30 | JavaScript `%` keeps the dividend's sign: equal to Dafny's `%` for a non-negative dividend, in (-b, 0] for a negative one |
| Rooms.FindIndex | lib/gameStore.js:75 | the result is the first position whose player satisfies the test, or none when no player does |
| Rooms.Filter | lib/socketHandlers.js:254 | the result is no longer than the input and holds only accepted players |
| Rooms.FilterCounts | lib/socketHandlers.js:254 | the filter keeps every accepted player exactly as often as it occurred and drops every other one |
| Rooms.FilterAppend | lib/socketHandlers.js:254 | filtering a concatenation filters each part |
| Rooms.FilterKeepsAll | lib/socketHandlers.js:254 | a filter accepting everyone returns the list unchanged; one refusing someone shortens it |
| Helpers.Shuffle | lib/helpers.js:7-14 | the shuffle returns a permutation of its input: same length, same multiset |
| Helpers.GatherAppend | lib/helpers.js:37-45 | collecting the piles of two pack lists concatenates their collections |
| Helpers.GatherSkipsUnknown | lib/helpers.js:38-39 | an unknown pack id contributes nothing, wherever it stands in the selection |
| Helpers.GatherMember | lib/helpers.js:37-45 | a card is in a collected pile exactly when some selected pack supplies it |
| Helpers.CollectPiles | lib/helpers.js:32-45 | the push loop yields, for each of the four piles, the selected packs' lists concatenated in selection order |
| Helpers.BuildDecks | lib/helpers.js:31-53 | each of the four piles is a permutation of the concatenation of that list over the selected packs |
| Helpers.GetRoundConfig | lib/helpers.js:55-66 | the config of the first phase listing the round; one card for one point, unlabelled, when no phase lists it |
| Helpers.Draw | lib/helpers.js:69-74 | the hand keeps its cards as a prefix and is topped up to the count; drawn cards come off the end of the pile, or from a reshuffle of the originals when it runs dry, or are `undefined` when both are empty |
| Helpers.DealCards | lib/helpers.js:68-75 | only the dealt player's hand and the response pile change, as `Draw` states |
| Helpers.IndexOf | lib/helpers.js:90-94 | the first occurrence of the pattern at or after `from`, or none when there is none |
| Helpers.Expand | lib/helpers.js:90-94 | for a 2- or 3-card combo the first blank becomes that many blanks joined by " + "; otherwise, or with no blank, the prompt is kept |
| Helpers.GetPromptForRound | lib/helpers.js:77-98 | the 3-card or 2-card pile gives up its last prompt when that combo size has one left; otherwise the single pile is used; only the piles change |
| Helpers.DrawSinglePrompt | lib/helpers.js:84-95 | a non-empty single pile gives up its last prompt, expanded; an empty pile is refilled from the originals and the drawn prompt is one of them; with no originals the result is `undefined`, or a throw for a 2- or 3-card combo |
| Helpers.GetJudge | lib/helpers.js:101-107 | no judge exactly when there are no players; otherwise an out-of-range index is reset to 0 and the judge is the player at the index |
| GameLogic.ClampedJudge | lib/helpers.js:103-105 | the settled index is in range when there are players and unchanged when it was already in range |
| GameLogic.NextJudge | lib/gameLogic.js:30-31 | the rotated judge is in range: the next seat, wrapping from the last seat to 0 |
| GameLogic.DealAll | lib/gameLogic.js:36-37 | every player keeps their seat and all but their hand; every hand is topped up to the target from the pile or the originals |
| GameLogic.DealtReachesTarget | lib/gameLogic.js:36-37 | after dealing every hand has at least the target size and keeps its old cards in front |
| GameLogic.StartRound | lib/gameLogic.js:17-37 | nothing for an unknown room or fewer than two players; otherwise the round counter rises by one, the phase is playing, submissions and cursor are cleared, the rules are those of the new round, the judge rotates, a prompt is drawn and hands are dealt, or the round aborts without prompt or dealing when the draw throws |
| GameLogic.PlayRound | lib/gameLogic.js:21-37 | the `startRound` effect on a room with two or more players, field by field |
| GameLogic.OpenRound | lib/gameLogic.js:21-31 | the bookkeeping of a new round, with the judge rotated and then settled into range |
| GameLogic.BeginRound | lib/gameLogic.js:21-30 | counter +1, phase playing, no submissions, cursor 0, the new round's rules, and the judge index advanced with JavaScript `%` |
| GameLogic.EverySubmitted | lib/gameLogic.js:80-81 | true exactly when every seat from `from` on other than the judge seat has a submission under its socket id |
| GameLogic.CheckAllSubmitted | lib/gameLogic.js:77-82 | true exactly when the room exists and every player but the judge seat has submitted |
| GameLogic.EntriesOf | lib/gameLogic.js:91-94 | the entries list every submission exactly once as a (player id, cards) pair |
| GameLogic.RevealOrderCovers | lib/gameLogic.js:91-95 | a reveal order lists only real submissions, never a player twice, and every player who submitted |
| GameLogic.StartReveal | lib/gameLogic.js:84-105 | phase reveal, cursor 0, the reveal order a shuffle of the submissions; a round without rules throws before the judge is settled, otherwise the judge index is clamped |
| GameLogic.RevealNextCard | lib/gameLogic.js:121-152 | outside reveal or with no players nothing changes; a caller who is not the host (or, in phone party mode, the judge) or a finished reveal gets nothing; otherwise the submission at the cursor is shown, flagged last when it is the final one, and the cursor moves on by one without passing the end |
| GameLogic.CreditRaisesTotal | lib/gameLogic.js:162 | crediting one seat raises the score total by exactly the points credited |
| GameLogic.Credit | lib/gameLogic.js:162 | only the credited seat's score changes, by the points, and the total rises by the same amount |
| GameLogic.ShowWinner | lib/gameLogic.js:154-164 | an index outside the reveal order or a round without rules throws with nothing changed; otherwise the first player with the winning socket id, if present, gains the round's points and the phase becomes winner |
| GameLogic.Insert | lib/gameLogic.js:205 | one insertion step of the stable sort adds exactly the seat given |
| GameLogic.PrependRanked | lib/gameLogic.js:205 | a seat ranking before every seat of a ranked order can lead it |
| GameLogic.InsertRanked | lib/gameLogic.js:205 | inserting a later seat into a ranked order keeps it ranked |
| GameLogic.RankOrder | lib/gameLogic.js:205 | the ranking lists each seat exactly once |
| GameLogic.RankOrderRanked | lib/gameLogic.js:205 | the ranking is by descending score, ties in seat order (a stable sort) |
| GameLogic.Leaderboard | lib/gameLogic.js:205 | the leaderboard lists the players in ranking order |
| GameLogic.LeaderboardSorted | lib/gameLogic.js:205 | the leaderboard is a permutation of the players, scores non-increasing, equal scores in seat order |
| GameLogic.EndGame | lib/gameLogic.js:199-205 | the phase becomes ended, nothing else changes, and the leaderboard is the stably sorted players |
| GameLogic.Recipients | lib/gameLogic.js:225-231 | in phone party mode every player's socket hears a room message, otherwise only the host's screen |
| Store.ForSave | lib/gameStore.js:175-182 | a saved room is the room with an empty reveal order |
| Store.ForLoad | lib/gameStore.js:148-151 | a loaded room has every player without a socket id and disconnected, with hand, score, token and name kept, and nothing else changed |
| Store.SaveThenLoad | lib/gameStore.js:145-182 | saving then loading gives back exactly the rooms active within two hours, players detached, reveal order dropped, all else as saved |
| Store.ExpiryBoundary | lib/gameStore.js:146 | every room a reload keeps also survives the sweep at the same moment (line 193), and a room the sweep keeps is reloaded exactly when it is not idle for precisely two hours |
| Store.LoadRooms | lib/gameStore.js:145-154 | one fresh, distinct room for each snapshot entry less than two hours idle, each as `ForLoad` gives it |
| Store.GameStore.constructor | lib/gameStore.js:14-28 | the store starts with the recent rooms of the snapshot and no pending removals |
| Store.GameStore.Get | lib/gameStore.js:31-37 | a room is returned exactly when the code exists, and it is the room the code names |
| Store.GameStore.Create | lib/gameStore.js:39-45 | a fresh room from the data, stamped with the current time, is stored under the code; the other codes are untouched |
| Store.GameStore.Update | lib/gameStore.js:47-53 | the room takes the patched fields; an unknown code gives null and changes nothing |
| Store.GameStore.Delete | lib/gameStore.js:55-57 | the code no longer exists and every other room stays |
| Store.GameStore.UpdateActivity | lib/gameStore.js:64-68 | only the activity stamp changes, and only for a known code |
| Store.GameStore.MarkPlayerDisconnected | lib/gameStore.js:71-94 | the first player with the socket id is flagged disconnected at `now` and a pending removal is recorded under the token; a missing room or player changes nothing |
| Store.GameStore.Expire | lib/gameStore.js:83-91 | when the timer fires, every holder of the token and the submission under the old socket id are removed, and the pending entry is dropped |
| Store.GameStore.ReconnectPlayer | lib/gameStore.js:96-129 | an unknown token fails with nothing changed; a gone room or player fails and drops the entry; success drops the entry, gives the player the new id, clears the disconnect flag and moves their submission to the new id |
| Store.GameStore.CleanupExpiredGames | lib/gameStore.js:190-199 | exactly the rooms idle for more than two hours are removed and returned; every other room stays |
| Store.GameStore.SaveToDisk | lib/gameStore.js:166-188 | the snapshot has every room, each without its reveal order |
| Validation.TrimStart | lib/validation.js:9 | removes exactly the leading white space |
| Validation.TrimEnd | lib/validation.js:9 | removes exactly the trailing white space |
| Validation.Trim | lib/validation.js:9 | the result neither starts nor ends with white space, holds only characters of the input, and is empty for an all-space input |
| Validation.Take | lib/validation.js:10 | a prefix of at most `n` characters, the whole string when it is short enough |
| Validation.StripBrackets | lib/validation.js:11 | the result holds exactly the input's characters other than `<` and `>` |
| Validation.SanitizeNameAsWritten | lib/validation.js:6-12 | a non-string gives ""; the result has at most 12 characters and no angle brackets |
| Validation.BlankNameAccepted | lib/validation.js:8-11 | the name `<  >` sanitises to two spaces, a blank name |
| Validation.SanitizeName | lib/validation.js:6-12 | as above, and the result neither starts nor ends with white space |
| Validation.BlankNameRejected | lib/validation.js:6-12 | a name of only white space and angle brackets sanitises to "", which `join_game` refuses |
| Validation.AllAlnum | lib/validation.js:15 | true exactly when every character is an ASCII letter or digit |
| Validation.IsValidRoomCode | lib/validation.js:14-16 | true exactly for a string of 4 to 8 ASCII letters or digits |
| Validation.AsciiUpper | lib/socketHandlers.js:94 | upper-cases exactly the ASCII lower-case letters, position by position |
| Validation.ValidCodeIgnoresCase | lib/validation.js:15 | upper-casing never changes whether a code is valid, and a valid upper-cased code has no lower-case letter |
| Validation.Counted | lib/validation.js:37-45 | a missing or ended window restarts at one request; otherwise the count rises by one |
| Validation.BurstCountedFrom | lib/validation.js:40-45 | requests before the window ends each add one to the count |
| Validation.BurstCounted | lib/validation.js:36-49 | a burst of `n` requests within one window after the opening request counts `n + 1`, so the (max + 1)-th is the first refused |
| Validation.RateLimiter.constructor | lib/validation.js:20-24 | the limiter starts empty with the given window and limit |
| Validation.RateLimiter.IsLimited | lib/validation.js:36-49 | only the caller's entry changes, as `Counted` says, and the request is limited exactly when that count exceeds the limit |
| Validation.RateLimiter.Cleanup | lib/validation.js:26-33 | forgets exactly the entries whose window ended more than a minute ago and keeps the rest unchanged |
| SocketHandlers.Socket.constructor | lib/socketHandlers.js:21 | a new connection is in no room, not host, with no name or token |
| SocketHandlers.Gate | lib/socketHandlers.js:19-31 | the request is counted, and the handler runs exactly when the count is within the limit |
| SocketHandlers.EleventhRequestRefused | lib/socketHandlers.js:19 | with 10 requests per second, of eleven requests from a new socket within one second the tenth is counted 10 and the eleventh 11 |
| SocketHandlers.NormalizeCode | lib/socketHandlers.js:94 | a truthy code that is not a string throws (`None`), and only then; a falsy code becomes ""; a normalised code holds no ASCII lower-case letter |
| SocketHandlers.RequestedCode | lib/socketHandlers.js:93-94 | for a payload that does not throw, the code the handler goes on with is the normalised one |
| SocketHandlers.AsciiLower | lib/socketHandlers.js:120 | lower-cases exactly the ASCII upper-case letters, position by position |
| SocketHandlers.JoinGame | lib/socketHandlers.js:93-150 | a missing payload or a non-string code throws before anything changes; then, with the name as `sanitizeName` returns it, in order: an empty name, a malformed code and an unknown room are refused; a game in progress, a full room and a name taken ignoring case are refused with nothing changed; otherwise a fresh player is appended, the room stamped, and the socket bound to the room, name and token; a joined name is non-empty, at most 12 characters and free of angle brackets |
| SocketHandlers.JoinGameCorrected | lib/socketHandlers.js:93-150 | the same handler with the corrected sanitiser: a joined name is non-empty and has no white space at either end |
| SocketHandlers.JoinAs | lib/socketHandlers.js:97-133 | the same decisions on an already normalised code and sanitised name; a joined player carries that name, which is non-empty |
| SocketHandlers.Admit | lib/socketHandlers.js:109-138 | the checks on the room found and the append of the new player |
| SocketHandlers.JoinKeepsRoomSound | lib/socketHandlers.js:115-133 | joins keep names distinct ignoring case and the room within its size limit, keep the earlier players in place, and add one player under the name given with score 0 and an empty hand |
| SocketHandlers.BlankNameJoins | lib/socketHandlers.js:95-133 | as written, the name `<  >` passes the emptiness check, and a lobby with room and no player called two spaces admits a player whose name is two spaces |
| SocketHandlers.Picked | lib/socketHandlers.js:185-187 | every index counts exactly when each selects a card, and then the played cards are the selected cards in the order given |
| SocketHandlers.PickCards | lib/socketHandlers.js:185-187 | the pick loop collects the cards `Picked` describes |
| SocketHandlers.Splice | lib/socketHandlers.js:191 | splicing an in-range index removes exactly that card and keeps the cards before it; an index past the end removes nothing |
| SocketHandlers.SpliceCards | lib/socketHandlers.js:191 | the removal loop splices at each index in turn |
| SocketHandlers.InsertDesc | lib/socketHandlers.js:183 | inserting into a non-increasing list keeps it non-increasing, one longer, with the larger of the element and the old head in front |
| SocketHandlers.InsertDescCounts | lib/socketHandlers.js:183 | inserting adds exactly the element: the result is a permutation of the list plus it |
| SocketHandlers.SortDesc | lib/socketHandlers.js:183 | the sorted indices are non-increasing and a permutation of the input |
| SocketHandlers.SpliceDescending | lib/socketHandlers.js:191 | splicing at strictly decreasing in-range positions removes exactly the cards at those positions |
| SocketHandlers.CardsAtPermutation | lib/socketHandlers.js:183-191 | reordering the positions reorders the cards, as a multiset |
| SocketHandlers.PlayMovesCards | lib/socketHandlers.js:182-193 | an accepted play of distinct indices moves exactly the selected cards from the hand to the submission |
| SocketHandlers.RepeatedIndexPlaysOneCardTwice | lib/socketHandlers.js:179-191 | indices are not checked for repeats: `[0, 0]` on the hand `["a", "b"]` submits "a" twice and empties the hand |
| SocketHandlers.SubmitCards | lib/socketHandlers.js:170-208 | outside playing nothing changes; the judge is then clamped; a non-player, the judge, or a repeat submitter is ignored; a round without rules throws; a wrong count or a missing card is ignored; an accepted play records the cards, removes the played positions largest first, stamps the room, and the reveal is due exactly when all but the judge have submitted |
| SocketHandlers.PlayCards | lib/socketHandlers.js:171-193 | the `submit_cards` effect on the socket's room, field by field |
| SocketHandlers.Commit | lib/socketHandlers.js:180-195 | unless exactly the needed number of indices each select a card nothing changes; otherwise the hand, the submission and the activity stamp change as `SubmitCards` says |
| SocketHandlers.NextRound | lib/socketHandlers.js:227-241 | an unknown room gives nothing; only the host (in phone party mode the socket whose id is the host id) may act; the room is stamped; at or past the last round the game ends with the leaderboard, otherwise the next round starts as `StartRound` says |
| SocketHandlers.Advance | lib/socketHandlers.js:228-240 | the same on the room a code names |
| SocketHandlers.NextRoundWithinTotal | lib/socketHandlers.js:236-240 | the round counter never passes the number of rounds; it only rises, by one, to a playing round; the game ends exactly at the total |
| SocketHandlers.LeaveGame | lib/socketHandlers.js:243-266 | nothing without a room; the host leaving deletes the room; anyone else's players and submission are removed; the socket forgets the room |
| SocketHandlers.Leave | lib/socketHandlers.js:248-255 | the same on a known room |
| SocketHandlers.LeaveRemovesOnlyLeaver | lib/socketHandlers.js:254 | after leaving nobody holds the socket id, every other player stays as often as before, and the room shrinks exactly when somebody held the id |
| SocketHandlers.JoinThenLeave | lib/socketHandlers.js:254-255 | leaving undoes joining: players and submissions are as before the join |
| SocketHandlers.Cleared | lib/socketHandlers.js:282 | every player's score and hand are cleared and nothing else about them changes |
| SocketHandlers.ClearPlayers | lib/socketHandlers.js:282 | the `forEach` loop computes `Cleared` |
| SocketHandlers.PlayAgain | lib/socketHandlers.js:268-282 | only the host's socket id restarts: the room is stamped and back in the lobby at round 0 with no judge; fresh piles (a permutation of the chosen packs) also become the refill sources; submissions and reveal order are emptied and scores and hands cleared; anyone else changes nothing |
| SocketHandlers.Restart | lib/socketHandlers.js:272-282 | the same on the host's room |
| SocketHandlers.RestartClearsScores | lib/socketHandlers.js:282 | after a restart the scores total 0, every hand is empty, and ids, names and tokens are kept |
| SocketHandlers.Disconnect | lib/socketHandlers.js:343-366 | nothing unless the socket names an existing room; the host deletes the room; a socket with a token marks its player disconnected with a pending removal; any other socket's players are removed at once |
| SocketHandlers.Drop | lib/socketHandlers.js:349-364 | the same on a known room |
| Client.IndexOf | public/js/app.js:221 | -1 exactly when the value is absent; otherwise its first position |
| Client.RemoveAt | public/js/app.js:223 | removing one position shortens the list by one and takes out exactly that element |
| Client.CardToggled | public/js/app.js:218-233 | a selected index is removed at its first occurrence, the others staying in order (one copy fewer; absent afterwards when there were no repeats); an unselected one is appended while there is room and otherwise replaces the oldest selection |
| Client.ToggleKeepsSelectionValid | public/js/app.js:218-233 | while at least one card is wanted, the selection never repeats an index nor exceeds the combo size |
| Client.ToggleTwiceRestores | public/js/app.js:218-233 | selecting a card with room to spare and clicking it again restores the selection |
| Client.PackToggled | public/js/app.js:99-109 | a selected pack is removed at its first occurrence, the others staying in order (absent afterwards when there were no repeats), unless it is the only one; an unselected pack is appended |
| Client.PackToggleKeepsChoice | public/js/app.js:99-109 | the pack list never becomes empty, never repeats, and holds the pack afterwards exactly when it did not before or was the only one |
| Client.Live | public/js/app.js:18-28 | a session is handed out exactly when one is saved and younger than 60 seconds, and it is the saved one |
| Client.SavedSessionLasts | public/js/app.js:14-28 | a session saved at `t` comes back unchanged exactly until `t` + 60 s |
| Client.Client.constructor | public/js/app.js:7-10 | the page starts wanting one card with nothing selected |
| Client.Client.ToggleCardSelection | public/js/app.js:218-233 | the selection becomes `CardToggled` of the old one, other state is kept, and a valid selection stays valid |
| Client.Client.TogglePack | public/js/app.js:99-109 | the packs become `PackToggled` of the old ones, other state kept |
| Client.Client.SaveSession | public/js/app.js:14-16 | storage holds the code and token stamped with `now` |
| Client.Client.GetSession | public/js/app.js:18-32 | returns the live session and keeps it; otherwise returns nothing and clears the storage |
| Client.Client.SubmitCombo | public/js/app.js:266-270 | the selection is sent exactly when it has the combo size, and it is sent as it is |
| Client.StartDisabled | public/js/app.js:200-203 | the start button is disabled exactly below three players |

## Findings

| source | as written | input that shows it | evidently intended | confidence | as-written member | corrected member |
|---|---|---|---|---|---|---|
| lib/validation.js:8-11 | the name is trimmed, cut to 12 characters, and only then are `<` and `>` removed, so spaces the brackets enclosed end up at the ends | player name `<  >` sanitises to two spaces; `join_game`'s emptiness check (lib/socketHandlers.js:97) accepts it, so a player can join with a blank name | a sanitised name is empty or has no white space at either end, so a blank name is refused | not executed | Validation.SanitizeNameAsWritten (shown by Validation.BlankNameAccepted), used by SocketHandlers.JoinGame (shown by SocketHandlers.BlankNameJoins) | Validation.SanitizeName (proved by Validation.BlankNameRejected), used by SocketHandlers.JoinGameCorrected |

## Left out

- Messages to sockets (`emit`, room broadcasts) and console output. Only who receives a room-wide message is modelled (`GameLogic.Recipients`).
- File-system and JSON I/O of persistence. What is written and read is modelled (`SaveToDisk`, `LoadRooms`); a failed read or write is not.
- `setInterval` scheduling of the save and the sweep, and `shutdown`. Their bodies are modelled as operations the caller invokes.
- The removal timer itself. `Store.GameStore.Expire` is its body for a token whose pending entry is still recorded. A timer left running after a reconnect that failed (room or player gone) is not modelled.
- `Math.random` and `Date.now`. They become the `rand` and `now` parameters.
- `getRandomEmoji`, `generateSessionToken` and `generateRoomCode`. They only produce random values, which enter the model as parameters.
- `GameStore.all`. It only returns the table, which the model exposes as the `games` field.
- The `create_game`, `start_game`, `reveal_next`, `pick_winner` and `rejoin_game` handler bodies. The game-logic and store operations they call are modelled (`StartRound`, `RevealNextCard`, `ShowWinner`, `ReconnectPlayer`).
- `submit_cards` with a non-array payload, non-integer or string indices, or non-array stored submissions (lib/gameLogic.js:93). Indices are integers and submissions are card lists.
- Unicode case mapping. `toUpperCase`/`toLowerCase` are modelled on ASCII letters only; other characters are kept. Strings are sequences of characters, not UTF-16 code units.
- Sharing of player objects by reference. Players are values owned by their room; a `Rejoin` result carries a copy of the player.
- The rest of public/js/app.js: DOM rendering, sounds, and the socket events that reset `cardsNeeded` and the selection.
- `Client.StartDisabled`: the threshold of three is fixed in the client and does not follow the server's `minPlayers` setting (lib/socketHandlers.js:155). The model keeps the client's constant.
- Where the code and its intended design differ, the model follows the code (for the name sanitiser it also gives the corrected variant, under Findings):
  - The pending removals are not persisted, so nobody can rejoin after a server restart.
  - `next_round` does not check the room's phase.
  - A disconnect without a token keeps the leaver's submission.
  - `play_again` does not reset `revealIndex`, `currentPrompt` or `currentRoundConfig`.
  - `pick_winner` with an index outside the reveal order throws (`Crashed`).
  - `submit_cards` accepts repeated indices (`SocketHandlers.RepeatedIndexPlaysOneCardTwice`).
