/** The browser client's selection logic (public/js/app.js): the cards picked
    for a combo, the packs picked for a new game, the stored reconnect session,
    and the guards in front of the submit and start buttons. The page's
    module-level variables become the fields of one `Client` object;
    rendering and sounds are left out. */
module Client {
  import opened Common

  // ------------------------------------------------------------ lists

  /** `s.indexOf(x)`: the first position holding `x`, or -1. */
  function IndexOf<T(==)>(s: seq<T>, x: T): (r: int)
    ensures r == -1 <==> x !in s
    ensures r != -1 ==> 0 <= r < |s| && s[r] == x && x !in s[..r]
    decreases |s|
  {
    if s == [] then -1
    else if s[0] == x then 0
    else
      var k := IndexOf(s[1..], x);
      assert k != -1 ==> s[..k + 1] == [s[0]] + s[1..][..k];
      if k == -1 then -1 else k + 1
  }

  /** `s.splice(i, 1)` for an index inside `s`. */
  function RemoveAt<T>(s: seq<T>, i: nat): (r: seq<T>)
    requires i < |s|
    ensures |r| == |s| - 1
    ensures multiset(r) + multiset{s[i]} == multiset(s)
  {
    assert s == s[..i] + [s[i]] + s[i + 1..];
    s[..i] + s[i + 1..]
  }

  /** No value occurs twice. */
  predicate NoDup<T(==)>(s: seq<T>)
  {
    forall i, j :: 0 <= i < j < |s| ==> s[i] != s[j]
  }

  lemma {:induction false} NoDupMultiset<T>(s: seq<T>, x: T)
    requires NoDup(s)
    ensures multiset(s)[x] <= 1
    decreases |s|
  {
    if s != [] {
      NoDupMultiset(s[1..], x);
      assert s == [s[0]] + s[1..];
      if s[0] == x {
        assert x !in s[1..] by {
          forall j | 0 <= j < |s[1..]|
            ensures s[1..][j] != x
          {
            assert s[j + 1] != s[0];
          }
        }
      }
    }
  }

  // -------------------------------------------------- card selection

  /** `toggleCardSelection` on the selection `sel` with `need` cards
      wanted: a selected index is removed; an unselected one is appended
      while there is room, and otherwise replaces the oldest selection
      (`shift` on an empty list removes nothing). */
  function CardToggled(sel: seq<int>, need: int, index: int): (r: seq<int>)
    ensures index in sel ==> r == sel[..IndexOf(sel, index)] + sel[IndexOf(sel, index) + 1..]
    ensures index in sel ==> multiset(r) + multiset{index} == multiset(sel)
    ensures index in sel && NoDup(sel) ==> index !in r
    ensures index !in sel ==> index in r && r[|r| - 1] == index
    ensures index !in sel && |sel| < need ==> r == sel + [index]
    ensures index !in sel && |sel| >= need && sel != [] ==> r == sel[1..] + [index]
  {
    var k := IndexOf(sel, index);
    if k > -1 then
      var r := RemoveAt(sel, k);
      assert NoDup(sel) ==> index !in r by {
        if NoDup(sel) {
          NoDupMultiset(sel, index);
          assert index !in multiset(r);
        }
      }
      r
    else if |sel| < need then sel + [index]
    else (if sel == [] then [] else sel[1..]) + [index]
  }

  /** A selection without repeats and within the combo size stays so
      under every toggle, as long as at least one card is wanted. */
  lemma ToggleKeepsSelectionValid(sel: seq<int>, need: int, index: int)
    requires need >= 1 && NoDup(sel) && |sel| <= need
    ensures NoDup(CardToggled(sel, need, index)) && |CardToggled(sel, need, index)| <= need
  {
  }

  /** Selecting a card while there is room and then clicking it again gives
      back the selection as it was. */
  lemma ToggleTwiceRestores(sel: seq<int>, need: int, index: int)
    requires index !in sel && |sel| < need
    ensures CardToggled(CardToggled(sel, need, index), need, index) == sel
  {
  }

  // -------------------------------------------------- pack selection

  /** `togglePack`: a selected pack is removed unless it is the only one
      selected; an unselected pack is appended. */
  function PackToggled(packs: seq<PackId>, id: PackId): (r: seq<PackId>)
    ensures id in packs && |packs| > 1 ==> r == packs[..IndexOf(packs, id)] + packs[IndexOf(packs, id) + 1..]
    ensures id in packs && |packs| > 1 ==> multiset(r) + multiset{id} == multiset(packs)
    ensures id in packs && |packs| > 1 && NoDup(packs) ==> id !in r
    ensures id in packs && |packs| == 1 ==> r == packs
    ensures id !in packs ==> r == packs + [id]
  {
    var k := IndexOf(packs, id);
    if k > -1 then
      if |packs| > 1 then
        var r := RemoveAt(packs, k);
        assert NoDup(packs) ==> id !in r by {
          if NoDup(packs) {
            NoDupMultiset(packs, id);
            assert id !in multiset(r);
          }
        }
        r
      else packs
    else packs + [id]
  }

  /** The pack list never becomes empty once something is chosen, stays
      without repeats, and holds the toggled pack afterwards exactly when
      it did not before or was the only one. */
  lemma PackToggleKeepsChoice(packs: seq<PackId>, id: PackId)
    requires NoDup(packs)
    ensures packs != [] ==> PackToggled(packs, id) != []
    ensures NoDup(PackToggled(packs, id))
    ensures id in PackToggled(packs, id) <==> id !in packs || |packs| == 1
  {
  }

  // ---------------------------------------------------------- session

  /** What `saveSession` stores. */
  datatype SessionData = SessionData(roomCode: RoomCode, sessionToken: Token, timestamp: int)

  /** The browser's storage slot for the session: nothing, something that
      does not parse, or a saved session. */
  datatype Slot = Empty | Unreadable | Saved(data: SessionData)

  /** How long a saved session stays usable. */
  const SessionTtlMs := 60000

  /** The session `getSession` hands out from `slot` at `now`: the saved one
      while it is younger than a minute, nothing otherwise. */
  function Live(slot: Slot, now: int): (r: Option<SessionData>)
    ensures r.Some? <==> slot.Saved? && now - slot.data.timestamp < SessionTtlMs
    ensures r.Some? ==> r.value == slot.data
  {
    if slot.Saved? && now - slot.data.timestamp < SessionTtlMs then Some(slot.data) else None
  }

  /** A session saved at `t` is handed back, unchanged, exactly until a
      minute has passed. */
  lemma SavedSessionLasts(code: RoomCode, token: Token, t: int, now: int)
    ensures Live(Saved(SessionData(code, token, t)), now) == Some(SessionData(code, token, t)) <==> now < t + SessionTtlMs
    ensures now >= t + SessionTtlMs ==> Live(Saved(SessionData(code, token, t)), now).None?
  {
  }

  // ----------------------------------------------------------- client

  /** The page's selection state and its stored session. */
  class Client {
    var cardsNeeded: int
    var selectedCards: seq<int>
    var selectedPacks: seq<PackId>
    var storage: Slot

    /** A page load: one card wanted, nothing selected, whatever the browser
        had stored. */
    constructor (stored: Slot)
      ensures cardsNeeded == 1 && selectedCards == [] && selectedPacks == [] && storage == stored
    {
      cardsNeeded, selectedCards, selectedPacks, storage := 1, [], [], stored;
    }

    /** The selection holds no index twice and no more than the combo size. */
    predicate SelectionValid()
      reads this
    {
      NoDup(selectedCards) && |selectedCards| <= cardsNeeded
    }

    /** `toggleCardSelection(index)`. */
    method ToggleCardSelection(index: int)
      modifies this
      ensures selectedCards == CardToggled(old(selectedCards), cardsNeeded, index)
      ensures cardsNeeded == old(cardsNeeded) && selectedPacks == old(selectedPacks) && storage == old(storage)
      ensures old(SelectionValid()) && cardsNeeded >= 1 ==> SelectionValid()
    {
      var existing := IndexOf(selectedCards, index);
      if existing > -1 {
        selectedCards := RemoveAt(selectedCards, existing);
      } else if |selectedCards| < cardsNeeded {
        selectedCards := selectedCards + [index];
      } else {
        if selectedCards != [] {
          selectedCards := selectedCards[1..];
        }
        selectedCards := selectedCards + [index];
      }
      if old(SelectionValid()) && cardsNeeded >= 1 {
        ToggleKeepsSelectionValid(old(selectedCards), cardsNeeded, index);
      }
    }

    /** `togglePack(packId)`. */
    method TogglePack(id: PackId)
      modifies this
      ensures selectedPacks == PackToggled(old(selectedPacks), id)
      ensures cardsNeeded == old(cardsNeeded) && selectedCards == old(selectedCards) && storage == old(storage)
    {
      var idx := IndexOf(selectedPacks, id);
      if idx > -1 {
        if |selectedPacks| > 1 {
          selectedPacks := RemoveAt(selectedPacks, idx);
        }
      } else {
        selectedPacks := selectedPacks + [id];
      }
    }

    /** `saveSession`: stores the code and token stamped with `now`. */
    method SaveSession(code: RoomCode, token: Token, now: int)
      modifies this
      ensures storage == Saved(SessionData(code, token, now))
      ensures cardsNeeded == old(cardsNeeded) && selectedCards == old(selectedCards) && selectedPacks == old(selectedPacks)
    {
      storage := Saved(SessionData(code, token, now));
    }

    /** `getSession`: hands out a live session and keeps it; anything else
        (nothing stored, unreadable, or a minute old) clears the slot. */
    method GetSession(now: int) returns (session: Option<SessionData>)
      modifies this
      ensures session == Live(old(storage), now)
      ensures storage == if session.Some? then old(storage) else Empty
      ensures cardsNeeded == old(cardsNeeded) && selectedCards == old(selectedCards) && selectedPacks == old(selectedPacks)
    {
      if storage.Saved? && now - storage.data.timestamp < SessionTtlMs {
        return Some(storage.data);
      }
      storage := Empty;
      session := None;
    }

    /** `submitCombo`: the selection is sent exactly when it has the combo
        size. */
    method SubmitCombo() returns (sent: Option<seq<int>>)
      ensures sent.Some? <==> |selectedCards| == cardsNeeded
      ensures sent.Some? ==> sent.value == selectedCards
    {
      if |selectedCards| != cardsNeeded {
        return None;
      }
      sent := Some(selectedCards);
    }
  }

  /** The fewest players the start button accepts. */
  const MinPlayersToStart := 3

  /** `updateStartButton`: the button is disabled below three players. */
  function StartDisabled(count: int): (r: bool)
    ensures r <==> count < MinPlayersToStart
  {
    count < 3
  }
}
