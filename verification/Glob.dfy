/**
 * The drawers' glob: matched piece by piece, left to right, never backtracking.
 *
 * `Matches` is the meaning: the whole text against the regex the glob stands
 * for (`*` is `.*`, `?` is `.`, everything else itself).  `Keep` is the code.
 */
module Glob {
  /**
   * One character of a needle against one of a text: with the case toggle on
   * this is equality, with it off the regex engine's case folding.  Either
   * way a newline is like no other character.
   */
  type Like = (char, char) -> bool

  ghost predicate NewlineIsItself(like: Like)
  {
    forall c: char :: (like('\n', c) <==> c == '\n') && (like(c, '\n') <==> c == '\n')
  }

  predicate Matches(needle: string, text: string, like: Like)
    decreases |needle| + |text|
  {
    if needle == "" then text == ""
    else if needle[0] == '*' then
      Matches(needle[1..], text, like) || (text != "" && text[0] != '\n' && Matches(needle, text[1..], like))
    else
      text != "" && One(needle[0], text[0], like) && Matches(needle[1..], text[1..], like)
  }

  predicate One(p: char, c: char, like: Like)
  {
    if p == '?' then c != '\n' else like(p, c)
  }

  /** `needle.split("*")`. */
  function Split(needle: string): (pieces: seq<string>)
    ensures pieces != []
    ensures forall k :: 0 <= k < |pieces| ==> '*' !in pieces[k]
  {
    if needle == "" then [""]
    else
      var rest := Split(needle[1..]);
      if needle[0] == '*' then [""] + rest else [[needle[0]] + rest[0]] + rest[1..]
  }

  /** The pieces with a star between each two. */
  function Join(pieces: seq<string>): string
    requires pieces != []
  {
    if |pieces| == 1 then pieces[0] else pieces[0] + "*" + Join(pieces[1..])
  }

  lemma {:induction false} SplitIsExact(needle: string)
    ensures Join(Split(needle)) == needle
  {
    if needle != "" {
      SplitIsExact(needle[1..]);
      var rest := Split(needle[1..]);
      if needle[0] != '*' && |rest| > 1 {
        assert ([[needle[0]] + rest[0]] + rest[1..])[1..] == rest[1..];
      }
    }
  }

  /** A piece - no star in it - stands at `at` in the text. */
  predicate StandsAt(piece: string, text: string, at: nat, like: Like)
  {
    at + |piece| <= |text| && forall k :: 0 <= k < |piece| ==> One(piece[k], text[at + k], like)
  }

  predicate NoNewline(text: string) { '\n' !in text }

  // ----- what `Matches` says of a piece and of a star --------------------------------

  lemma {:induction false} PieceFirst(piece: string, rest: string, text: string, like: Like)
    requires '*' !in piece
    ensures Matches(piece + rest, text, like)
            <==> StandsAt(piece, text, 0, like) && Matches(rest, text[|piece|..], like)
  {
    if piece == "" {
      assert piece + rest == rest && text[0..] == text;
    } else {
      assert (piece + rest)[1..] == piece[1..] + rest;
      if text != "" {
        PieceFirst(piece[1..], rest, text[1..], like);
        if |piece| <= |text| {
          assert text[1..][|piece| - 1..] == text[|piece|..];
        }
        assert StandsAt(piece, text, 0, like) == (One(piece[0], text[0], like) && StandsAt(piece[1..], text[1..], 0, like)) by {
          forall k | 1 <= k < |piece| && |piece| <= |text|
            ensures piece[k] == piece[1..][k - 1] && text[k] == text[1..][k - 1]
          {}
        }
      }
    }
  }

  /** A star is any newline-free run: one side of it ... */
  lemma {:induction false} StarRun(rest: string, text: string, at: nat, like: Like)
    requires at <= |text| && NoNewline(text[..at]) && Matches(rest, text[at..], like)
    ensures Matches("*" + rest, text, like)
  {
    var needle := "*" + rest;
    assert needle[1..] == rest;
    if at == 0 {
      assert text[0..] == text;
    } else {
      assert text[1..][..at - 1] == text[..at][1..] && text[1..][at - 1..] == text[at..];
      assert text[0] == text[..at][0];
      StarRun(rest, text[1..], at - 1, like);
    }
  }

  /** ... and the other. */
  lemma {:induction false} RunOfStar(rest: string, text: string, like: Like) returns (at: nat)
    requires Matches("*" + rest, text, like)
    ensures at <= |text| && NoNewline(text[..at]) && Matches(rest, text[at..], like)
  {
    var needle := "*" + rest;
    assert needle[1..] == rest;
    if Matches(rest, text, like) {
      at := 0;
      assert text[0..] == text;
    } else {
      var below := RunOfStar(rest, text[1..], like);
      at := below + 1;
      assert text[..at] == [text[0]] + text[1..][..below] && text[at..] == text[1..][below..];
    }
  }

  // ----- the leftmost place loses nothing ------------------------------------------

  /** The first place from `at` where `piece` stands, ending by `end`; |text| + 1 for none. */
  method Search(piece: string, text: string, at: nat, end: nat, like: Like) returns (found: nat)
    requires at <= end <= |text|
    ensures found <= end ==> at <= found && found + |piece| <= end && StandsAt(piece, text, found, like)
    ensures found > end ==> found > |text|
    ensures forall k :: at <= k < found && k + |piece| <= end ==> !StandsAt(piece, text, k, like)
  {
    found := at;
    while found + |piece| <= end
      invariant at <= found <= end + 1
      invariant forall k :: at <= k < found && k + |piece| <= end ==> !StandsAt(piece, text, k, like)
    {
      if StandsAt(piece, text, found, like) {
        return;
      }
      found := found + 1;
    }
    found := |text| + 1;
  }

  /**
   * The exchange: a match that puts a piece at `later` is still one with the
   * piece at an earlier place it stands at.  What lies between goes to the next
   * star, so it must hold no newline: it can only be one the piece itself
   * spells, and then the two places are the same.
   */
  lemma EarlierPlaceWorks(piece: string, rest: string, text: string, first: nat, later: nat, like: Like)
    requires NewlineIsItself(like) && '*' !in piece
    requires first <= later && StandsAt(piece, text, first, like) && StandsAt(piece, text, later, like)
    requires NoNewline(text[..later])
    requires Matches("*" + rest, text[later + |piece|..], like)
    ensures Matches("*" + rest, text[first + |piece|..], like)
  {
    if first < later {
      BetweenPlacesNoNewline(piece, text, first, later, like);
      var run := RunOfStar(rest, text[later + |piece|..], like);
      var from := first + |piece|;
      var at := later - first + run;
      var tail := text[from..];
      assert tail[at..] == text[later + |piece|..][run..];
      assert tail[..at] == text[from..later + |piece|] + text[later + |piece|..][..run];
      StarRun(rest, tail, at, like);
    }
  }

  /** A piece that spells a newline stands at one place at most, if no newline is before it. */
  lemma SpelledNewlineFixesThePlace(piece: string, text: string, first: nat, later: nat, like: Like)
    requires NewlineIsItself(like) && '\n' in piece
    requires first <= later && StandsAt(piece, text, first, like) && StandsAt(piece, text, later, like)
    requires NoNewline(text[..later])
    ensures first == later
  {
    var k := FirstNewline(piece);
    assert One(piece[k], text[first + k], like);
    forall p | 0 <= p < later
      ensures text[p] != '\n'
    {
      assert text[..later][p] == text[p];
    }
    var j := first + k - later;
    assert One(piece[j], text[later + j], like);
  }

  lemma BetweenPlacesNoNewline(piece: string, text: string, first: nat, later: nat, like: Like)
    requires NewlineIsItself(like)
    requires first < later && StandsAt(piece, text, first, like) && StandsAt(piece, text, later, like)
    requires NoNewline(text[..later])
    ensures NoNewline(text[first + |piece|..later + |piece|])
  {
    if '\n' in piece {
      SpelledNewlineFixesThePlace(piece, text, first, later, like);
      assert false;
    }
    forall p | first + |piece| <= p < later + |piece|
      ensures text[p] != '\n'
    {
      if p < later {
        assert text[..later][p] != '\n';
      } else {
        assert One(piece[p - later], text[later + (p - later)], like);
      }
    }
  }

  lemma FirstNewline(piece: string) returns (k: nat)
    requires '\n' in piece
    ensures k < |piece| && piece[k] == '\n' && forall j :: 0 <= j < k ==> piece[j] != '\n'
  {
    k := 0;
    while piece[k] != '\n'
      invariant k < |piece| && forall j :: 0 <= j < k ==> piece[j] != '\n'
      invariant exists m :: k <= m < |piece| && piece[m] == '\n'
      decreases |piece| - k
    {
      k := k + 1;
    }
  }

  // ----- the code ---------------------------------------------------------------------

  /** What is still to be matched after a piece: a star, the next piece, and so on. */
  function StarThen(pieces: seq<string>): string
    requires pieces != []
  {
    "*" + Join(pieces)
  }

  /** A place of the next piece starts a match, if what is skipped and what follows do. */
  lemma PlaceSuffices(pieces: seq<string>, text: string, at: nat, found: nat, like: Like)
    requires |pieces| >= 2 && '*' !in pieces[0]
    requires at <= found <= |text| && StandsAt(pieces[0], text, found, like) && NoNewline(text[at..found])
    requires Matches(StarThen(pieces[1..]), text[found + |pieces[0]|..], like)
    ensures Matches(StarThen(pieces), text[at..], like)
  {
    var piece, rest, u := pieces[0], StarThen(pieces[1..]), text[at..];
    assert Join(pieces) == piece + rest;
    PlaceShifts(piece, text, at, found - at, like);
    assert u[found - at..][|piece|..] == text[found + |piece|..];
    PieceFirst(piece, rest, u[found - at..], like);
    assert text[at..found] == u[..found - at];
    StarRun(piece + rest, u, found - at, like);
  }

  /** A match has a place for the next piece, and room for the last one after it. */
  lemma MatchHasAPlace(pieces: seq<string>, text: string, at: nat, like: Like) returns (later: nat)
    requires |pieces| >= 2 && forall k :: 0 <= k < |pieces| ==> '*' !in pieces[k]
    requires at <= |text| && Matches(StarThen(pieces), text[at..], like)
    ensures at <= later && later + |pieces[0]| + |pieces[|pieces| - 1]| <= |text|
    ensures StandsAt(pieces[0], text, later, like) && NoNewline(text[at..later])
    ensures Matches(StarThen(pieces[1..]), text[later + |pieces[0]|..], like)
  {
    var piece, rest, u := pieces[0], StarThen(pieces[1..]), text[at..];
    assert Join(pieces) == piece + rest;
    var run := RunOfStar(piece + rest, u, like);
    later := at + run;
    PieceFirst(piece, rest, u[run..], like);
    PlaceShifts(piece, text, at, run, like);
    assert u[run..][|piece|..] == text[later + |piece|..];
    assert text[at..later] == u[..run];
    EnoughLeft(pieces[1..], text[later + |piece|..], like);
  }

  /** One round of the loop: the leftmost place decides. */
  lemma LeftmostDecides(pieces: seq<string>, text: string, at: nat, end: nat, found: nat, like: Like)
    requires NewlineIsItself(like) && |pieces| >= 2 && forall k :: 0 <= k < |pieces| ==> '*' !in pieces[k]
    requires at <= end <= |text| && end == |text| - |pieces[|pieces| - 1]|
    requires found <= end ==> at <= found && found + |pieces[0]| <= end && StandsAt(pieces[0], text, found, like)
    requires forall k :: at <= k < found && k + |pieces[0]| <= end ==> !StandsAt(pieces[0], text, k, like)
    requires found > end ==> found > |text|
    ensures Matches(StarThen(pieces), text[at..], like) <==>
      found <= end && NoNewline(text[at..found]) && Matches(StarThen(pieces[1..]), text[found + |pieces[0]|..], like)
  {
    var piece, u := pieces[0], text[at..];
    if Matches(StarThen(pieces), u, like) {
      var later := MatchHasAPlace(pieces, text, at, like);
      assert found <= later;
      PlaceIn(piece, text, at, found - at, like);
      PlaceIn(piece, text, at, later - at, like);
      assert text[at..found] == text[at..later][..found - at];
      assert text[at..later] == u[..later - at];
      assert u[later - at + |piece|..] == text[later + |piece|..];
      EarlierPlaceWorks(piece, Join(pieces[1..]), u, found - at, later - at, like);
      assert u[found - at + |piece|..] == text[found + |piece|..];
    }
    if found <= end && NoNewline(text[at..found]) && Matches(StarThen(pieces[1..]), text[found + |piece|..], like) {
      PlaceSuffices(pieces, text, at, found, like);
    }
  }

  lemma PlaceIn(piece: string, text: string, at: nat, d: nat, like: Like)
    requires at + d <= |text|
    ensures StandsAt(piece, text[at..], d, like) <==> StandsAt(piece, text, at + d, like)
  {
    var u := text[at..];
    forall k | 0 <= k < |piece| && at + d + |piece| <= |text|
      ensures One(piece[k], u[d + k], like) <==> One(piece[k], text[at + d + k], like)
    {}
  }

  lemma PlaceShifts(piece: string, text: string, at: nat, d: nat, like: Like)
    requires at + d <= |text|
    ensures StandsAt(piece, text[at..][d..], 0, like) <==> StandsAt(piece, text, at + d, like)
  {
    assert text[at..][d..] == text[at + d..];
    PlaceIn(piece, text, at + d, 0, like);
  }

  /** The last piece needs its own length at the end. */
  lemma {:induction false} EnoughLeft(pieces: seq<string>, text: string, like: Like)
    requires pieces != [] && forall k :: 0 <= k < |pieces| ==> '*' !in pieces[k]
    requires Matches(StarThen(pieces), text, like)
    ensures |text| >= |pieces[|pieces| - 1]|
  {
    var at := RunOfStar(Join(pieces), text, like);
    if |pieces| == 1 {
      assert pieces[0] + "" == pieces[0];
      PieceFirst(pieces[0], "", text[at..], like);
    } else {
      var rest := StarThen(pieces[1..]);
      assert Join(pieces) == pieces[0] + rest;
      PieceFirst(pieces[0], rest, text[at..], like);
      EnoughLeft(pieces[1..], text[at..][|pieces[0]|..], like);
    }
  }

  /** The end of the text: the last piece stands there, and the last star takes what is left. */
  lemma LastPiece(piece: string, text: string, at: nat, end: nat, like: Like)
    requires '*' !in piece && at <= end == |text| - |piece|
    ensures Matches(StarThen([piece]), text[at..], like) <==>
            StandsAt(piece, text, end, like) && NoNewline(text[at..end])
  {
    var u := text[at..];
    assert piece + "" == piece;
    if Matches("*" + piece, u, like) {
      var run := RunOfStar(piece, u, like);
      PieceFirst(piece, "", u[run..], like);
      assert run == end - at;
      PlaceShifts(piece, text, at, run, like);
      assert text[at..end] == u[..run];
    }
    if StandsAt(piece, text, end, like) && NoNewline(text[at..end]) {
      PlaceShifts(piece, text, at, end - at, like);
      PieceFirst(piece, "", u[end - at..], like);
      assert u[end - at..][|piece|..] == "";
      assert text[at..end] == u[..end - at];
      StarRun(piece, u, end - at, like);
    }
  }

  /** The glob keeps a text exactly when the regex it stands for matches the whole of it. */
  method Keep(needle: string, text: string, like: Like) returns (kept: bool)
    requires NewlineIsItself(like)
    ensures kept <==> Matches(needle, text, like)
  {
    var pieces := Split(needle);
    SplitIsExact(needle);
    if |pieces| == 1 {
      assert needle + "" == needle;
      PieceFirst(needle, "", text, like);
      return |text| == |needle| && StandsAt(needle, text, 0, like);
    }
    hide Matches, StandsAt, Join, NoNewline;
    var head, last := pieces[0], pieces[|pieces| - 1];
    HeadThenStar(pieces, text, like);
    if !StandsAt(head, text, 0, like) || |text| - |last| < |head| || !StandsAt(last, text, |text| - |last|, like) {
      WholeNeedsEnds(pieces, text, like);
      return false;
    }
    kept := Middle(pieces, text, |head|, |text| - |last|, like);
  }

  /** The pieces between the first and the last, each at the leftmost place it has. */
  method Middle(pieces: seq<string>, text: string, start: nat, end: nat, like: Like) returns (kept: bool)
    requires NewlineIsItself(like) && |pieces| >= 2 && forall k :: 0 <= k < |pieces| ==> '*' !in pieces[k]
    requires start <= end <= |text| && end == |text| - |pieces[|pieces| - 1]| && StandsAt(pieces[|pieces| - 1], text, end, like)
    ensures kept <==> Matches(StarThen(pieces[1..]), text[start..], like)
  {
    hide Matches, StandsAt, Join, NoNewline, NewlineIsItself;
    var at := start;
    for i := 1 to |pieces| - 1
      invariant start <= at <= end
      invariant Matches(StarThen(pieces[1..]), text[start..], like) <==> Matches(StarThen(pieces[i..]), text[at..], like)
    {
      var found := Search(pieces[i], text, at, end, like);
      assert pieces[i..][0] == pieces[i] && pieces[i..][1..] == pieces[i + 1..];
      LeftmostDecides(pieces[i..], text, at, end, found, like);
      if found > end || !NoNewline(text[at..found]) {
        return false;
      }
      at := found + |pieces[i]|;
    }
    assert pieces[|pieces| - 1..] == [pieces[|pieces| - 1]];
    LastPiece(pieces[|pieces| - 1], text, at, end, like);
    return NoNewline(text[at..end]);
  }

  lemma HeadThenStar(pieces: seq<string>, text: string, like: Like)
    requires |pieces| >= 2 && forall k :: 0 <= k < |pieces| ==> '*' !in pieces[k]
    ensures Matches(Join(pieces), text, like)
            <==> StandsAt(pieces[0], text, 0, like) && Matches(StarThen(pieces[1..]), text[|pieces[0]|..], like)
  {
    assert Join(pieces) == pieces[0] + StarThen(pieces[1..]);
    PieceFirst(pieces[0], StarThen(pieces[1..]), text, like);
  }

  /** The first and the last piece have fixed places, and both must fit. */
  lemma {:induction false} WholeNeedsEnds(pieces: seq<string>, text: string, like: Like)
    requires |pieces| >= 2 && forall k :: 0 <= k < |pieces| ==> '*' !in pieces[k]
    ensures Matches(Join(pieces), text, like) ==>
      && StandsAt(pieces[0], text, 0, like)
      && |pieces[0]| + |pieces[|pieces| - 1]| <= |text|
      && StandsAt(pieces[|pieces| - 1], text, |text| - |pieces[|pieces| - 1]|, like)
  {
    HeadThenStar(pieces, text, like);
    if Matches(Join(pieces), text, like) {
      var u, last := text[|pieces[0]|..], pieces[|pieces| - 1];
      LastStandsAtEnd(pieces[1..], u, like);
      PlaceIn(last, text, |pieces[0]|, |u| - |last|, like);
    }
  }

  lemma {:induction false} LastStandsAtEnd(pieces: seq<string>, text: string, like: Like)
    requires pieces != [] && forall k :: 0 <= k < |pieces| ==> '*' !in pieces[k]
    requires Matches(StarThen(pieces), text, like)
    ensures |pieces[|pieces| - 1]| <= |text|
    ensures StandsAt(pieces[|pieces| - 1], text, |text| - |pieces[|pieces| - 1]|, like)
  {
    EnoughLeft(pieces, text, like);
    if |pieces| == 1 {
      assert text[0..] == text && pieces == [pieces[0]];
      LastPiece(pieces[0], text, 0, |text| - |pieces[0]|, like);
    } else {
      var last := pieces[|pieces| - 1];
      var at := RunOfStar(Join(pieces), text, like);
      HeadThenStar(pieces, text[at..], like);
      var v := text[at..][|pieces[0]|..];
      LastStandsAtEnd(pieces[1..], v, like);
      assert v == text[at + |pieces[0]|..];
      PlaceIn(last, text, at + |pieces[0]|, |v| - |last|, like);
    }
  }
}
