/** Input validation and rate limiting (lib/validation.js): player-name
    sanitising, the room-code format check, and the per-connection
    fixed-window request counter. */
module Validation {
  import opened Common

  // ------------------------------------------------------------ trimming

  /** The characters `String.prototype.trim` removes: ECMAScript white space
      and line terminators. */
  predicate IsJsSpace(c: char)
  {
    || c == '\t' || c == '\n' || c == '\U{000B}' || c == '\U{000C}' || c == '\r' || c == ' '
    || c == '\U{00A0}' || c == '\U{1680}' || ('\U{2000}' <= c <= '\U{200A}')
    || c == '\U{2028}' || c == '\U{2029}' || c == '\U{202F}' || c == '\U{205F}'
    || c == '\U{3000}' || c == '\U{FEFF}'
  }

  /** `s` without its leading white space. */
  function TrimStart(s: string): (r: string)
    ensures |r| <= |s| && r == s[|s| - |r|..]
    ensures r != [] ==> !IsJsSpace(r[0])
    ensures forall i :: 0 <= i < |s| - |r| ==> IsJsSpace(s[i])
  {
    if s != [] && IsJsSpace(s[0]) then TrimStart(s[1..]) else s
  }

  /** `s` without its trailing white space. */
  function TrimEnd(s: string): (r: string)
    ensures |r| <= |s| && r == s[..|r|]
    ensures r != [] ==> !IsJsSpace(r[|r| - 1])
    ensures forall i :: |r| <= i < |s| ==> IsJsSpace(s[i])
  {
    if s != [] && IsJsSpace(s[|s| - 1]) then TrimEnd(s[..|s| - 1]) else s
  }

  /** `s.trim()`: the longest stretch of `s` that neither starts nor ends
      with white space, obtained by removing only white space. */
  function Trim(s: string): (r: string)
    ensures |r| <= |s|
    ensures forall c :: c in r ==> c in s
    ensures r != [] ==> !IsJsSpace(r[0]) && !IsJsSpace(r[|r| - 1])
    ensures (forall i :: 0 <= i < |s| ==> IsJsSpace(s[i])) ==> r == []
  {
    TrimEnd(TrimStart(s))
  }

  /** `s.slice(0, n)`. */
  function Take(s: string, n: nat): (r: string)
    ensures |r| <= n && |r| <= |s| && r == s[..|r|]
    ensures |s| <= n ==> r == s
  {
    if |s| <= n then s else s[..n]
  }

  /** `s.replace(/[<>]/g, '')`: the characters of `s` other than angle
      brackets, in order. */
  function StripBrackets(s: string): (r: string)
    ensures |r| <= |s|
    ensures forall c :: c in r <==> c in s && c != '<' && c != '>'
  {
    if s == [] then []
    else (if s[0] == '<' || s[0] == '>' then [] else [s[0]]) + StripBrackets(s[1..])
  }

  // ------------------------------------------------------- sanitizeName

  /** The longest name a player can have. */
  const MaxNameLength := 12

  /** `sanitizeName` as written: `None` stands for a value that is not a
      string. It trims, keeps the first twelve characters, and only then
      removes angle brackets, so white space the brackets were shielding
      stays at either end. */
  function SanitizeNameAsWritten(name: Option<string>): (r: string)
    ensures name.None? ==> r == []
    ensures |r| <= MaxNameLength
    ensures '<' !in r && '>' !in r
  {
    if name.None? then [] else StripBrackets(Take(Trim(name.value), MaxNameLength))
  }

  /** A name made of two spaces between brackets passes as a name of two
      spaces, which the join handler's emptiness check lets through. */
  lemma BlankNameAccepted()
    ensures SanitizeNameAsWritten(Some("<  >")) == "  "
  {
    var s := "<  >";
    assert !IsJsSpace(s[0]) && !IsJsSpace(s[3]);
    assert Trim(s) == s;
    assert StripBrackets(s[3..]) == [];
    assert StripBrackets(s[2..]) == [' '];
    assert StripBrackets(s[1..]) == [' ', ' '];
  }

  /** `sanitizeName` with white space removed again after the brackets: a
      non-string gives the empty name, the result has at most twelve
      characters, no angle brackets, and no white space at either end. */
  function SanitizeName(name: Option<string>): (r: string)
    ensures name.None? ==> r == []
    ensures |r| <= MaxNameLength
    ensures '<' !in r && '>' !in r
    ensures r != [] ==> !IsJsSpace(r[0]) && !IsJsSpace(r[|r| - 1])
  {
    var t := SanitizeNameAsWritten(name);
    var r := Trim(t);
    assert forall c :: c in r ==> c in t;
    r
  }

  /** A name made only of white space and angle brackets sanitises to the
      empty name, which the join handler rejects. */
  lemma BlankNameRejected(s: string)
    requires forall i :: 0 <= i < |s| ==> IsJsSpace(s[i]) || s[i] == '<' || s[i] == '>'
    ensures SanitizeName(Some(s)) == []
  {
    var t := Take(Trim(s), MaxNameLength);
    assert forall i :: 0 <= i < |t| ==> t[i] in s;
    var u := StripBrackets(t);
    forall i | 0 <= i < |u|
      ensures IsJsSpace(u[i])
    {
      assert u[i] in u;
      assert u[i] in t;
    }
  }

  // ---------------------------------------------------- isValidRoomCode

  predicate IsAsciiAlnum(c: char)
  {
    'A' <= c <= 'Z' || 'a' <= c <= 'z' || '0' <= c <= '9'
  }

  /** Whether every character of `s` is an ASCII letter or digit. */
  function AllAlnum(s: string): (r: bool)
    ensures r <==> forall i :: 0 <= i < |s| ==> IsAsciiAlnum(s[i])
  {
    s == [] || (IsAsciiAlnum(s[0]) && AllAlnum(s[1..]))
  }

  /** `/^[A-Z0-9]{4,8}$/i` on a string; false for a value that is not one
      (`None`). */
  function IsValidRoomCode(code: Option<string>): (r: bool)
    ensures r <==> code.Some? && 4 <= |code.value| <= 8
                   && forall i :: 0 <= i < |code.value| ==> IsAsciiAlnum(code.value[i])
  {
    code.Some? && 4 <= |code.value| <= 8 && AllAlnum(code.value)
  }

  /** `toUpperCase` on ASCII letters; every other character is kept. */
  function AsciiUpper(s: string): (r: string)
    ensures |r| == |s|
    ensures forall i :: 0 <= i < |s| ==>
              r[i] == if 'a' <= s[i] <= 'z' then (s[i] as int - 32) as char else s[i]
  {
    if s == [] then []
    else [if 'a' <= s[0] <= 'z' then (s[0] as int - 32) as char else s[0]] + AsciiUpper(s[1..])
  }

  /** The code check ignores case: upper-casing a code never changes whether
      it is valid, and a valid upper-cased code has no lower-case letter. */
  lemma ValidCodeIgnoresCase(s: string)
    ensures IsValidRoomCode(Some(AsciiUpper(s))) <==> IsValidRoomCode(Some(s))
    ensures IsValidRoomCode(Some(AsciiUpper(s))) ==>
              forall i :: 0 <= i < |s| ==> !('a' <= AsciiUpper(s)[i] <= 'z')
  {
    var u := AsciiUpper(s);
    forall i | 0 <= i < |s|
      ensures IsAsciiAlnum(u[i]) <==> IsAsciiAlnum(s[i])
      ensures !('a' <= u[i] <= 'z')
    {
    }
  }

  // -------------------------------------------------------- RateLimiter

  /** One connection's window: requests counted so far and when it ends. */
  datatype Entry = Entry(count: int, resetAt: int)

  /** How long an expired window is kept before the sweep forgets it. */
  const StaleAfterMs := 60000

  /** The entry after one more request at `now`: a new window when there was
      none or the old one has ended, otherwise one more request counted. */
  function Counted(e: Option<Entry>, now: int, windowMs: int): (r: Entry)
    ensures e.None? ==> r == Entry(1, now + windowMs)
    ensures e.Some? && now > e.value.resetAt ==> r == Entry(1, now + windowMs)
    ensures e.Some? && now <= e.value.resetAt ==> r == e.value.(count := e.value.count + 1)
  {
    var entry := if e.Some? then e.value else Entry(0, now + windowMs);
    if now > entry.resetAt then Entry(1, now + windowMs) else entry.(count := entry.count + 1)
  }

  /** The entry after requests at each of `times`, in order. */
  function CountAll(e: Option<Entry>, times: seq<int>, windowMs: int): Option<Entry>
    decreases |times|
  {
    if times == [] then e
    else CountAll(Some(Counted(e, times[0], windowMs)), times[1..], windowMs)
  }

  /** Requests that all fall inside the window opened by the first of them
      are all counted: after `n` of them the count is `n`, so with a limit of
      `m` requests per window the `(m + 1)`-th is the first one refused. */
  lemma {:induction false} BurstCounted(start: int, times: seq<int>, windowMs: int)
    requires windowMs >= 0
    requires forall i :: 0 <= i < |times| ==> start <= times[i] <= start + windowMs
    ensures CountAll(Some(Entry(1, start + windowMs)), times, windowMs) == Some(Entry(1 + |times|, start + windowMs))
  {
    if times != [] {
      BurstCountedFrom(Entry(1, start + windowMs), times, windowMs);
    }
  }

  lemma {:induction false} BurstCountedFrom(e: Entry, times: seq<int>, windowMs: int)
    requires forall i :: 0 <= i < |times| ==> times[i] <= e.resetAt
    ensures CountAll(Some(e), times, windowMs) == Some(e.(count := e.count + |times|))
    decreases |times|
  {
    if times != [] {
      var next := Counted(Some(e), times[0], windowMs);
      assert next == e.(count := e.count + 1);
      BurstCountedFrom(next, times[1..], windowMs);
    }
  }

  /** The per-connection fixed-window counter. */
  class RateLimiter {
    const windowMs: int
    const maxRequests: int
    var limits: map<SocketId, Entry>

    constructor (windowMs: int, maxRequests: int)
      ensures this.windowMs == windowMs && this.maxRequests == maxRequests
      ensures limits == map[]
    {
      this.windowMs := windowMs;
      this.maxRequests := maxRequests;
      limits := map[];
    }

    /** Counts a request from `id` at `now` and says whether it is over the
        limit; only `id`'s entry changes. */
    method IsLimited(id: SocketId, now: int) returns (limited: bool)
      modifies this
      ensures limits == old(limits)[id := Counted(if id in old(limits) then Some(old(limits)[id]) else None, now, windowMs)]
      ensures limited <==> limits[id].count > maxRequests
    {
      var entry := if id in limits then limits[id] else Entry(0, now + windowMs);
      if now > entry.resetAt {
        entry := Entry(1, now + windowMs);
      } else {
        entry := entry.(count := entry.count + 1);
      }
      limits := limits[id := entry];
      limited := entry.count > maxRequests;
    }

    /** The minutely sweep: forgets exactly the entries whose window ended
        more than a minute before `now`. */
    method Cleanup(now: int)
      modifies this
      ensures forall id :: id in limits <==> id in old(limits) && !(now > old(limits)[id].resetAt + StaleAfterMs)
      ensures forall id :: id in limits ==> limits[id] == old(limits)[id]
    {
      var ids := limits.Keys;
      while ids != {}
        invariant ids <= old(limits).Keys
        invariant forall id :: id in ids ==> id in limits
        invariant forall id :: id in limits <==>
                    id in old(limits) && (id in ids || !(now > old(limits)[id].resetAt + StaleAfterMs))
        invariant forall id :: id in limits ==> limits[id] == old(limits)[id]
        decreases ids
      {
        var id :| id in ids;
        if now > limits[id].resetAt + StaleAfterMs {
          limits := limits - {id};
        }
        ids := ids - {id};
      }
    }
  }
}
