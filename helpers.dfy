/** The deck and prompt allocator (lib/helpers.js): shuffling, deck building
    from card packs, round configuration lookup, dealing, prompt drawing and
    the judge lookup that repairs a stale judge index. */
module Helpers {
  import opened Common
  import opened Rooms

  // ---------------------------------------------------------------- shuffle

  /** Fisher–Yates shuffle of a copy of `a`. `rand(i)` stands for the random
      draw made when position `i` is filled; it is reduced into 0..i as
      `Math.floor(Math.random() * (i + 1))` is. The argument, a value, is left
      as it was. */
  method Shuffle<T>(a: seq<T>, rand: nat -> nat) returns (r: seq<T>)
    ensures |r| == |a|
    ensures multiset(r) == multiset(a)
  {
    var arr := new T[|a|](k requires 0 <= k < |a| => a[k]);
    assert arr[..] == a;
    var i := |a| - 1;
    while i > 0
      invariant i < arr.Length == |a|
      invariant multiset(arr[..]) == multiset(a)
    {
      var j := rand(i) % (i + 1);
      arr[i], arr[j] := arr[j], arr[i];
      i := i - 1;
    }
    r := arr[..];
  }

  // ------------------------------------------------------------ buildDecks

  /** A card pack; a list the pack does not define is `None`. */
  datatype Pack = Pack(
    prompts: Option<seq<string>>,
    prompts2: Option<seq<string>>,
    prompts3: Option<seq<string>>,
    responses: Option<seq<Card>>)

  /** Which of the four lists of a pack (and of a room's decks) is meant. */
  datatype Pile = Single | Double | Triple | Responses

  function PileOf(p: Pack, k: Pile): seq<string>
  {
    var l := match k
      case Single => p.prompts
      case Double => p.prompts2
      case Triple => p.prompts3
      case Responses => p.responses;
    if l.Some? then l.value else []
  }

  function DeckPile(d: Decks, k: Pile): seq<string>
  {
    match k
    case Single => d.prompts
    case Double => d.prompts2
    case Triple => d.prompts3
    case Responses => d.responses
  }

  /** What one selected pack id adds to a pile: nothing when the id is unknown. */
  function Contribution(id: PackId, packs: map<PackId, Pack>, k: Pile): seq<string>
  {
    if id in packs then PileOf(packs[id], k) else []
  }

  /** The concatenation, in selection order, of pile `k` of every selected pack. */
  function Gather(ids: seq<PackId>, packs: map<PackId, Pack>, k: Pile): seq<string>
    decreases |ids|
  {
    if ids == [] then []
    else Gather(ids[..|ids| - 1], packs, k) + Contribution(ids[|ids| - 1], packs, k)
  }

  lemma {:induction false} GatherAppend(a: seq<PackId>, b: seq<PackId>, packs: map<PackId, Pack>, k: Pile)
    ensures Gather(a + b, packs, k) == Gather(a, packs, k) + Gather(b, packs, k)
    decreases |b|
  {
    if b == [] {
      assert a + b == a;
    } else {
      var b' := b[..|b| - 1];
      assert (a + b)[..|a + b| - 1] == a + b';
      assert (a + b)[|a + b| - 1] == b[|b| - 1];
      GatherAppend(a, b', packs, k);
    }
  }

  /** An unknown pack id contributes nothing, wherever it stands. */
  lemma GatherSkipsUnknown(a: seq<PackId>, id: PackId, b: seq<PackId>, packs: map<PackId, Pack>, k: Pile)
    requires id !in packs
    ensures Gather(a + [id] + b, packs, k) == Gather(a + b, packs, k)
  {
    assert [id][..0] == [];
    assert Gather([id], packs, k) == [];
    GatherAppend(a, [id], packs, k);
    assert Gather(a + [id], packs, k) == Gather(a, packs, k);
    GatherAppend(a + [id], b, packs, k);
    GatherAppend(a, b, packs, k);
  }

  /** A card is in a gathered pile exactly when some selected pack supplies it. */
  lemma {:induction false} GatherMember(ids: seq<PackId>, packs: map<PackId, Pack>, k: Pile, c: string)
    ensures c in Gather(ids, packs, k) <==> exists i :: 0 <= i < |ids| && c in Contribution(ids[i], packs, k)
    decreases |ids|
  {
    if ids != [] {
      var n := |ids| - 1;
      GatherMember(ids[..n], packs, k, c);
      if c in Gather(ids, packs, k) {
        if c in Gather(ids[..n], packs, k) {
          var i :| 0 <= i < n && c in Contribution(ids[..n][i], packs, k);
          assert ids[..n][i] == ids[i];
        } else {
          assert c in Contribution(ids[n], packs, k);
        }
      } else {
        forall i | 0 <= i < |ids|
          ensures c !in Contribution(ids[i], packs, k)
        {
          if i < n { assert ids[..n][i] == ids[i]; }
        }
      }
    }
  }

  /** Gathering one more selected pack appends its contribution. */
  lemma GatherStep(ids: seq<PackId>, i: nat, packs: map<PackId, Pack>)
    requires i < |ids|
    ensures forall k :: Gather(ids[..i + 1], packs, k) == Gather(ids[..i], packs, k) + Contribution(ids[i], packs, k)
  {
    assert ids[..i + 1][..i] == ids[..i];
  }

  /** Collects each pile of the selected packs in order, then shuffles each
      pile independently. */
  method BuildDecks(selectedPacks: seq<PackId>, packs: map<PackId, Pack>, rand: nat -> nat) returns (d: Decks)
    ensures forall k :: multiset(DeckPile(d, k)) == multiset(Gather(selectedPacks, packs, k))
  {
    var prompts, prompts2, prompts3, responses := CollectPiles(selectedPacks, packs);
    var s1 := Shuffle(prompts, rand);
    var s2 := Shuffle(prompts2, rand);
    var s3 := Shuffle(prompts3, rand);
    var sr := Shuffle(responses, rand);
    d := Decks(s1, s2, s3, sr);
    forall k
      ensures multiset(DeckPile(d, k)) == multiset(Gather(selectedPacks, packs, k))
    {
      match k
      case Single =>
      case Double =>
      case Triple =>
      case Responses =>
    }
  }

  /** The push loop of `buildDecks`: every pile of every known selected
      pack, appended in selection order. */
  method CollectPiles(selectedPacks: seq<PackId>, packs: map<PackId, Pack>)
    returns (prompts: seq<string>, prompts2: seq<string>, prompts3: seq<string>, responses: seq<Card>)
    ensures prompts == Gather(selectedPacks, packs, Single)
    ensures prompts2 == Gather(selectedPacks, packs, Double)
    ensures prompts3 == Gather(selectedPacks, packs, Triple)
    ensures responses == Gather(selectedPacks, packs, Responses)
  {
    prompts, prompts2, prompts3, responses := [], [], [], [];
    for i := 0 to |selectedPacks|
      invariant prompts == Gather(selectedPacks[..i], packs, Single)
      invariant prompts2 == Gather(selectedPacks[..i], packs, Double)
      invariant prompts3 == Gather(selectedPacks[..i], packs, Triple)
      invariant responses == Gather(selectedPacks[..i], packs, Responses)
    {
      GatherStep(selectedPacks, i, packs);
      var id := selectedPacks[i];
      if id in packs {
        var pack := packs[id];
        if pack.prompts.Some? { prompts := prompts + pack.prompts.value; }
        if pack.prompts2.Some? { prompts2 := prompts2 + pack.prompts2.value; }
        if pack.prompts3.Some? { prompts3 := prompts3 + pack.prompts3.value; }
        if pack.responses.Some? { responses := responses + pack.responses.value; }
      }
    }
    assert selectedPacks[..|selectedPacks|] == selectedPacks;
  }

  // -------------------------------------------------------- getRoundConfig

  /** One phase of the round schedule: the rounds it covers and what they need. */
  datatype Phase = Phase(rounds: seq<int>, cardsNeeded: int, points: int, roundLabel: string)

  datatype RoundsConfig = RoundsConfig(phases: seq<Phase>, totalRounds: int)

  function ConfigOf(ph: Phase): RoundConfig
  {
    RoundConfig(ph.cardsNeeded, ph.points, ph.roundLabel)
  }

  const DefaultConfig := RoundConfig(1, 1, "")

  /** The configuration of the first phase whose rounds include `round`;
      one card for one point, unlabelled, when no phase does. */
  function GetRoundConfig(round: int, phases: seq<Phase>): (c: RoundConfig)
    ensures (forall i :: 0 <= i < |phases| ==> round !in phases[i].rounds) ==> c == DefaultConfig
    ensures forall i :: 0 <= i < |phases| && round in phases[i].rounds
                        && (forall j :: 0 <= j < i ==> round !in phases[j].rounds)
                        ==> c == ConfigOf(phases[i])
  {
    if phases == [] then DefaultConfig
    else if round in phases[0].rounds then ConfigOf(phases[0])
    else
      var c := GetRoundConfig(round, phases[1..]);
      assert forall i :: 1 <= i < |phases| ==> phases[1..][i - 1] == phases[i];
      c
  }

  // ------------------------------------------------------------- dealCards

  /** The hand was topped up to `count` cards: it keeps its old cards, in
      order, as a prefix, and grows only when it held fewer than `count`. */
  ghost predicate ToppedUp(before: seq<Card>, after: seq<Card>, count: int)
  {
    |after| == Max(|before|, count) && after[..|before|] == before
  }

  /** The cards were popped off the end of `pile` while it lasted. */
  ghost predicate PoppedFrom(pile: seq<Card>, drawn: seq<Card>)
  {
    forall j :: 0 <= j < |drawn| && j < |pile| ==> drawn[j] == pile[|pile| - 1 - j]
  }

  /** Every card drawn came from the pile or from the original response list
      that refills it, or is `undefined` (here "") when that list is empty. */
  ghost predicate DrawnFromPool(drawn: seq<Card>, pile: seq<Card>, originals: seq<Card>)
  {
    forall c :: c in drawn ==> c in pile || c in originals || (c == "" && originals == [])
  }

  /** Pops response cards into the hand of player `p` until it holds `count`
      cards, refilling the response pile with a fresh shuffle of the original
      responses whenever it is empty. */
  method DealCards(room: Room, p: nat, count: int, rand: nat -> nat)
    requires p < |room.players|
    modifies room
    ensures room.Value() == old(room.Value()).(players := room.players, decks := room.decks)
    ensures room.decks == old(room.decks).(responses := room.decks.responses)
    ensures |room.players| == old(|room.players|)
    ensures forall q :: 0 <= q < |room.players| && q != p ==> room.players[q] == old(room.players[q])
    ensures room.players[p] == old(room.players[p]).(hand := room.players[p].hand)
    ensures ToppedUp(old(room.players[p].hand), room.players[p].hand, count)
    ensures var drawn := room.players[p].hand[|old(room.players[p].hand)|..];
            && PoppedFrom(old(room.decks.responses), drawn)
            && DrawnFromPool(drawn, old(room.decks.responses), room.originalResponses)
            && (|drawn| <= |old(room.decks.responses)| ==>
                  room.decks.responses == old(room.decks.responses)[..|old(room.decks.responses)| - |drawn|])
    ensures forall c :: c in room.decks.responses ==> c in old(room.decks.responses) || c in room.originalResponses
  {
    var hand, deck := Draw(room.players[p].hand, room.decks.responses, count, room.originalResponses, rand);
    room.decks := room.decks.(responses := deck);
    room.players := room.players[p := room.players[p].(hand := hand)];
  }

  /** The loop of `dealCards` on the hand and the response pile. */
  method Draw(hand0: seq<Card>, deck0: seq<Card>, count: int, originals: seq<Card>, rand: nat -> nat)
    returns (hand: seq<Card>, deck: seq<Card>)
    ensures ToppedUp(hand0, hand, count)
    ensures var drawn := hand[|hand0|..];
            && PoppedFrom(deck0, drawn)
            && DrawnFromPool(drawn, deck0, originals)
            && (|drawn| <= |deck0| ==> deck == deck0[..|deck0| - |drawn|])
    ensures forall c :: c in deck ==> c in deck0 || c in originals
  {
    hand, deck := hand0, deck0;
    while |hand| < count
      invariant |hand0| <= |hand| <= Max(|hand0|, count)
      invariant hand[..|hand0|] == hand0
      invariant PoppedFrom(deck0, hand[|hand0|..])
      invariant DrawnFromPool(hand[|hand0|..], deck0, originals)
      invariant |hand| - |hand0| <= |deck0| ==> deck == deck0[..|deck0| - (|hand| - |hand0|)]
      invariant forall c :: c in deck ==> c in deck0 || c in originals
      decreases count - |hand|
    {
      if |deck| == 0 {
        deck := Shuffle(originals, rand);
        forall c | c in deck
          ensures c in originals
        {
          assert c in multiset(deck);
        }
      }
      var card: Card := if |deck| == 0 then "" else deck[|deck| - 1];
      assert card in deck || (card == "" && originals == []);
      ghost var prev := deck;
      deck := if |deck| == 0 then deck else deck[..|deck| - 1];
      assert forall c :: c in deck ==> c in prev;
      assert (hand + [card])[|hand0|..] == hand[|hand0|..] + [card];
      hand := hand + [card];
    }
  }

  // ----------------------------------------------------- getPromptForRound

  /** The blank placeholder of a prompt. */
  const Blank := "______"

  predicate OccursAt(s: string, pat: string, i: int)
  {
    0 <= i && i + |pat| <= |s| && s[i..i + |pat|] == pat
  }

  /** `s.indexOf(pat, from)`, with `None` for -1. */
  function IndexOf(s: string, pat: string, from: nat): (r: Option<nat>)
    ensures r.Some? ==> from <= r.value && OccursAt(s, pat, r.value)
    ensures r.Some? ==> forall j :: from <= j < r.value ==> !OccursAt(s, pat, j)
    ensures r.None? ==> forall j :: from <= j ==> !OccursAt(s, pat, j)
    decreases |s| - from
  {
    if from + |pat| > |s| then None
    else if s[from..from + |pat|] == pat then Some(from)
    else IndexOf(s, pat, from + 1)
  }

  /** `String.prototype.replace` with a string pattern: only the first
      occurrence is replaced. */
  function ReplaceFirst(s: string, pat: string, rep: string): string
  {
    match IndexOf(s, pat, 0)
    case None => s
    case Some(i) => s[..i] + rep + s[i + |pat|..]
  }

  /** The placeholder a prompt shows for a combo of `n` cards. */
  function Blanks(n: int): string
  {
    if n == 3 then Blank + " + " + Blank + " + " + Blank
    else if n == 2 then Blank + " + " + Blank
    else Blank
  }

  /** A single-blank prompt adapted to a combo of 2 or 3 cards: the first
      blank, if any, becomes that many blanks joined by " + ". */
  function Expand(prompt: string, cardsNeeded: int): (r: string)
    ensures cardsNeeded != 2 && cardsNeeded != 3 ==> r == prompt
    ensures (forall j :: !OccursAt(prompt, Blank, j)) ==> r == prompt
    ensures forall i :: (cardsNeeded == 2 || cardsNeeded == 3) && OccursAt(prompt, Blank, i)
                        && (forall j :: 0 <= j < i ==> !OccursAt(prompt, Blank, j))
                        ==> r == prompt[..i] + Blanks(cardsNeeded) + prompt[i + |Blank|..]
  {
    if cardsNeeded == 2 || cardsNeeded == 3 then ReplaceFirst(prompt, Blank, Blanks(cardsNeeded))
    else prompt
  }

  /** What drawing a prompt yields: a text, JavaScript's `undefined` (the
      single-prompt pile and its originals are both empty), or the TypeError
      that `undefined.replace` throws for a 2- or 3-card combo. */
  datatype PromptDraw = Drawn(text: string) | Undefined | Threw

  function Last(s: seq<string>): string requires |s| > 0 { s[|s| - 1] }
  function DropLast(s: seq<string>): seq<string> requires |s| > 0 { s[..|s| - 1] }

  /** Whether a combo of `cardsNeeded` cards draws from the single-prompt pile:
      it has no dedicated pile, or that pile is empty. */
  predicate UsesSinglePile(d: Decks, cardsNeeded: int)
  {
    !(cardsNeeded == 3 && |d.prompts3| > 0) && !(cardsNeeded == 2 && |d.prompts2| > 0)
  }

  /** The prompt draw for a combo of `cardsNeeded` cards: the 3-card or the
      2-card pile gives up its last prompt, leaving the other piles as they
      were, when that combo size has one left; otherwise the single pile is
      used as `SingleDraw` says. */
  ghost predicate PromptTaken(before: Decks, after: Decks, originals: seq<string>, cardsNeeded: int, prompt: PromptDraw)
  {
    && (cardsNeeded == 3 && |before.prompts3| > 0 ==>
          prompt == Drawn(Last(before.prompts3)) && after == before.(prompts3 := DropLast(before.prompts3)))
    && (cardsNeeded == 2 && |before.prompts2| > 0 ==>
          prompt == Drawn(Last(before.prompts2)) && after == before.(prompts2 := DropLast(before.prompts2)))
    && (UsesSinglePile(before, cardsNeeded) ==> SingleDraw(before, after, originals, cardsNeeded, prompt))
  }

  /** Pops a prompt for a combo of `cardsNeeded` cards: from the 3-card pile
      or the 2-card pile when that combo size has one left, otherwise from the
      single pile, expanded to the combo size. */
  method GetPromptForRound(room: Room, cardsNeeded: int, rand: nat -> nat) returns (prompt: PromptDraw)
    modifies room
    ensures room.Value() == old(room.Value()).(decks := room.decks)
    ensures PromptTaken(old(room.decks), room.decks, room.originalPrompts, cardsNeeded, prompt)
  {
    if cardsNeeded == 3 && |room.decks.prompts3| > 0 {
      prompt := Drawn(Last(room.decks.prompts3));
      room.decks := room.decks.(prompts3 := DropLast(room.decks.prompts3));
    } else if cardsNeeded == 2 && |room.decks.prompts2| > 0 {
      prompt := Drawn(Last(room.decks.prompts2));
      room.decks := room.decks.(prompts2 := DropLast(room.decks.prompts2));
    } else {
      prompt := DrawSinglePrompt(room, cardsNeeded, rand);
    }
  }

  /** The single-pile draw: only that pile changes; a non-empty pile gives up
      its last prompt; an empty pile is first refilled with a shuffle of the
      original prompts; an empty pile with no originals gives `undefined`,
      which a 2- or 3-card combo turns into a TypeError. */
  ghost predicate SingleDraw(before: Decks, after: Decks, originals: seq<string>, cardsNeeded: int, prompt: PromptDraw)
  {
    && after == before.(prompts := after.prompts)
    && (|before.prompts| > 0 ==>
          prompt == Drawn(Expand(Last(before.prompts), cardsNeeded))
          && after.prompts == DropLast(before.prompts))
    && (|before.prompts| == 0 && |originals| > 0 ==>
          exists q :: q in originals && prompt == Drawn(Expand(q, cardsNeeded))
                      && multiset(after.prompts) + multiset{q} == multiset(originals))
    && (|before.prompts| == 0 && |originals| == 0 ==>
          after.prompts == []
          && prompt == if cardsNeeded == 2 || cardsNeeded == 3 then Threw else Undefined)
  }

  method DrawSinglePrompt(room: Room, cardsNeeded: int, rand: nat -> nat) returns (prompt: PromptDraw)
    modifies room
    ensures room.Value() == old(room.Value()).(decks := room.decks)
    ensures SingleDraw(old(room.decks), room.decks, room.originalPrompts, cardsNeeded, prompt)
  {
    var pile := room.decks.prompts;
    if |pile| == 0 {
      pile := Shuffle(room.originalPrompts, rand);
    }
    if |pile| == 0 {
      // `pop()` of an empty array is `undefined`; `undefined.replace` throws.
      var before := room.Value();
      room.Assign(before.(decks := before.decks.(prompts := pile)));
      prompt := if cardsNeeded == 2 || cardsNeeded == 3 then Threw else Undefined;
    } else {
      var q := Last(pile);
      var rest := DropLast(pile);
      assert pile == rest + [q];
      assert multiset(pile) == multiset(rest) + multiset{q};
      assert q in multiset(pile);
      if |room.decks.prompts| == 0 {
        assert q in room.originalPrompts;
      }
      var before := room.Value();
      room.Assign(before.(decks := before.decks.(prompts := rest)));
      prompt := Drawn(Expand(q, cardsNeeded));
    }
  }

  // --------------------------------------------------------------- getJudge

  /** The player at the judge index, after resetting an index that no longer
      points into the player list to 0; `None` when there are no players. */
  method GetJudge(room: Room) returns (judge: Option<Player>)
    modifies room
    ensures judge.None? <==> |room.players| == 0
    ensures room.Value() == old(room.Value()).(judgeIndex := room.judgeIndex)
    ensures |room.players| > 0 ==>
              && 0 <= room.judgeIndex < |room.players|
              && judge == Some(room.players[room.judgeIndex])
              && room.judgeIndex == if 0 <= old(room.judgeIndex) < |room.players| then old(room.judgeIndex) else 0
    ensures |room.players| == 0 ==> room.judgeIndex == old(room.judgeIndex)
  {
    if |room.players| == 0 {
      return None;
    }
    if room.judgeIndex < 0 || room.judgeIndex >= |room.players| {
      room.judgeIndex := 0;
    }
    judge := Some(room.players[room.judgeIndex]);
  }
}
