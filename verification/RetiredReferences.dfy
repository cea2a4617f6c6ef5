/** Removing the placements of retired documents from the text of a note. */
module RetiredReferences {
  import opened Vault

  const ID_LENGTH := 36

  predicate IsIdChar(c: char) {
    '0' <= c <= '9' || 'a' <= c <= 'f' || 'A' <= c <= 'F' || c == '-'
  }

  function LowerChar(c: char): char {
    if 'A' <= c <= 'Z' then (c as int + 32) as char else c
  }

  function Lower(s: string): string {
    if s == "" then "" else [LowerChar(s[0])] + Lower(s[1..])
  }

  /** The text starts with "[[", an id of 36 characters, and "]]". */
  predicate StartsWithBrackets(s: string) {
    && |s| >= ID_LENGTH + 4 && s[0] == '[' && s[1] == '['
    && (forall i :: 2 <= i < ID_LENGTH + 2 ==> IsIdChar(s[i]))
    && s[ID_LENGTH + 2] == ']' && s[ID_LENGTH + 3] == ']'
  }

  /** The length of the placement the text starts with, or 0. */
  function TokenLength(s: string): (n: nat)
    ensures n <= |s|
  {
    if StartsWithBrackets(s) then ID_LENGTH + 4
    else if s != "" && s[0] == '!' && StartsWithBrackets(s[1..]) then ID_LENGTH + 5
    else 0
  }

  function TokenId(token: string): string
    requires TokenLength(token) == |token| && token != ""
  {
    if token[0] == '!' then token[3..ID_LENGTH + 3] else token[2..ID_LENGTH + 2]
  }

  predicate IsRetired(token: string, documentIds: set<Cell>) {
    TokenLength(token) == |token| && token != "" && Text(Lower(TokenId(token))) in documentIds
  }

  lemma {:induction false} TokenIsItself(s: string)
    ensures TokenLength(s[..TokenLength(s)]) == TokenLength(s)
  {
    var n := TokenLength(s);
    if n == ID_LENGTH + 5 {
      assert s[..n][1..] == s[1..][..n - 1];
      assert s[..n][0] == '!';
    }
  }

  /** One pass of the substitution: matches are taken from the left and never overlap. */
  function Cleaned(s: string, documentIds: set<Cell>): string
    decreases |s|
  {
    if s == "" then ""
    else if TokenLength(s) == 0 then [s[0]] + Cleaned(s[1..], documentIds)
    else
      var token := s[..TokenLength(s)];
      (if IsRetired(token, documentIds) then "" else token) + Cleaned(s[TokenLength(s)..], documentIds)
  }

  // ---------- what one pass takes away ----------

  /** The text cut up: a piece is one placement, or one character where no placement starts. */
  function Pieces(s: string): seq<string>
    decreases |s|
  {
    if s == "" then []
    else
      var n := if TokenLength(s) == 0 then 1 else TokenLength(s);
      [s[..n]] + Pieces(s[n..])
  }

  function Joined(pieces: seq<string>): string {
    if pieces == [] then "" else pieces[0] + Joined(pieces[1..])
  }

  function Kept(pieces: seq<string>, documentIds: set<Cell>): seq<string> {
    if pieces == [] then []
    else (if IsRetired(pieces[0], documentIds) then [] else [pieces[0]]) + Kept(pieces[1..], documentIds)
  }

  /** Every cut is where a left-to-right pass makes it: at a placement if one starts there. */
  ghost predicate CutFromTheLeft(pieces: seq<string>) {
    forall i :: 0 <= i < |pieces| ==>
      |pieces[i]| == if TokenLength(Joined(pieces[i..])) == 0 then 1 else TokenLength(Joined(pieces[i..]))
  }

  ghost function FirstCut(s: string): (n: nat)
    requires s != ""
    ensures 0 < n <= |s|
  {
    if TokenLength(s) == 0 then 1 else TokenLength(s)
  }

  lemma {:induction false} PiecesAreTheText(s: string)
    ensures Joined(Pieces(s)) == s && CutFromTheLeft(Pieces(s))
    decreases |s|
  {
    hide TokenLength, FirstCut, Pieces, Joined, CutFromTheLeft;
    if s == "" {
      NoPieces();
    } else {
      var n := FirstCut(s);
      PiecesAreTheText(s[n..]);
      PiecesStep(s);
      CutOnce(s, Pieces(s[n..]));
    }
  }

  lemma {:induction false} NoPieces()
    ensures Pieces("") == [] && Joined([]) == "" && CutFromTheLeft([])
  {
  }

  lemma {:induction false} PiecesStep(s: string)
    requires s != "" && Joined(Pieces(s[FirstCut(s)..])) == s[FirstCut(s)..]
    ensures Pieces(s) == [s[..FirstCut(s)]] + Pieces(s[FirstCut(s)..]) && Joined(Pieces(s)) == s
  {
    hide TokenLength;
    var n := FirstCut(s);
    var later := Pieces(s[n..]);
    assert Pieces(s) == [s[..n]] + later;
    hide Pieces;
    assert ([s[..n]] + later)[1..] == later;
    assert Joined([s[..n]] + later) == s[..n] + s[n..] == s;
  }

  /** One more cut at the front. */
  lemma {:induction false} CutOnce(s: string, later: seq<string>)
    requires s != "" && Joined(later) == s[FirstCut(s)..] && CutFromTheLeft(later)
    requires Joined([s[..FirstCut(s)]] + later) == s
    ensures CutFromTheLeft([s[..FirstCut(s)]] + later)
  {
    hide TokenLength, Joined;
    var pieces := [s[..FirstCut(s)]] + later;
    forall i | 0 <= i < |pieces|
      ensures |pieces[i]| == if TokenLength(Joined(pieces[i..])) == 0 then 1 else TokenLength(Joined(pieces[i..]))
    {
      if i > 0 {
        assert pieces[i..] == later[i - 1..] && pieces[i] == later[i - 1];
      } else {
        assert pieces[0..] == pieces;
      }
    }
  }

  lemma {:induction false} CleanedFirst(s: string, documentIds: set<Cell>)
    requires s != ""
    ensures var n := FirstCut(s);
            && Pieces(s) == [s[..n]] + Pieces(s[n..])
            && Cleaned(s, documentIds)
                 == (if IsRetired(s[..n], documentIds) then "" else s[..n]) + Cleaned(s[n..], documentIds)
  {
    TokenIsItself(s);
  }

  lemma {:induction false} CleanedIsKept(s: string, documentIds: set<Cell>)
    ensures Cleaned(s, documentIds) == Joined(Kept(Pieces(s), documentIds))
    decreases |s|
  {
    if s != "" {
      var n := FirstCut(s);
      CleanedIsKept(s[n..], documentIds);
      CleanedFirst(s, documentIds);
      assert Pieces(s)[1..] == Pieces(s[n..]);
      var kept := Kept(Pieces(s[n..]), documentIds);
      assert ([s[..n]] + kept)[1..] == kept;
      assert Joined([s[..n]] + kept) == s[..n] + Joined(kept);
      hide Cleaned, Pieces, IsRetired, Joined;
      if IsRetired(s[..n], documentIds) {
        assert Kept(Pieces(s), documentIds) == [] + kept == kept;
        assert Cleaned(s, documentIds) == "" + Cleaned(s[n..], documentIds) == Cleaned(s[n..], documentIds);
      } else {
        assert Kept(Pieces(s), documentIds) == [s[..n]] + kept;
      }
    }
  }

  lemma {:induction false} UnchangedWhenNothingRetired(s: string, documentIds: set<Cell>)
    ensures |Cleaned(s, documentIds)| <= |s|
    ensures Cleaned(s, documentIds) == s <==> forall piece :: piece in Pieces(s) ==> !IsRetired(piece, documentIds)
    decreases |s|
  {
    if s != "" {
      var n := FirstCut(s);
      UnchangedWhenNothingRetired(s[n..], documentIds);
      CleanedFirst(s, documentIds);
      hide Cleaned, Pieces, IsRetired, TokenLength;
      var rest := Cleaned(s[n..], documentIds);
      assert s == s[..n] + s[n..];
      if !IsRetired(s[..n], documentIds) {
        assert Cleaned(s, documentIds)[n..] == rest;
      }
    }
  }

  /** Exactly the placements of retired documents go; every other character stays, in order. */
  lemma {:induction false} RemovesExactlyRetired(s: string, documentIds: set<Cell>)
    ensures Joined(Pieces(s)) == s && CutFromTheLeft(Pieces(s))
    ensures Cleaned(s, documentIds) == Joined(Kept(Pieces(s), documentIds))
    ensures Cleaned(s, documentIds) == s <==> forall piece :: piece in Pieces(s) ==> !IsRetired(piece, documentIds)
  {
    PiecesAreTheText(s);
    CleanedIsKept(s, documentIds);
    UnchangedWhenNothingRetired(s, documentIds);
  }

  // ---------- what a placement is ----------

  /** A hexadecimal digit of either case, or a dash. */
  predicate InId(c: char) {
    c == '-' || c in "0123456789abcdefABCDEF"
  }

  /** The same id, character by character, with A to F as a to f. */
  ghost predicate Lowered(id: string, low: string) {
    |low| == |id| && forall i :: 0 <= i < |id| ==>
      low[i] == if 'A' <= id[i] <= 'F' then (id[i] as int + 32) as char else id[i]
  }

  ghost predicate IsId(id: string) {
    |id| == 36 && forall i :: 0 <= i < 36 ==> InId(id[i])
  }

  /** A placement of an id, as an image or not. */
  function Placement(image: bool, id: string): string {
    (if image then "!" else "") + "[[" + id + "]]"
  }

  lemma {:induction false} LowerIs(id: string, low: string)
    requires Lowered(id, low) && forall i :: 0 <= i < |id| ==> InId(id[i])
    ensures Lower(id) == low
  {
    if id != "" {
      LowerIs(id[1..], low[1..]);
      assert low == [low[0]] + low[1..];
    }
  }

  /** The text of one placement and what follows it. */
  lemma {:induction false} BareParts(id: string, rest: string)
    requires IsId(id)
    ensures var bare := "[[" + id + "]]";
      && |bare| == 40 && bare[2..38] == id && StartsWithBrackets(bare + rest) && StartsWithBrackets(bare)
      && (bare + rest)[..40] == bare && (bare + rest)[40..] == rest
  {
    var bare := "[[" + id + "]]";
    assert "[[" == ['[', '['] && "]]" == [']', ']'];
    forall i | 2 <= i < ID_LENGTH + 2
      ensures bare[i] == id[i - 2] && IsIdChar(bare[i])
    {
      assert InId(id[i - 2]);
    }
    assert forall i :: 0 <= i < 40 ==> (bare + rest)[i] == bare[i];
  }

  lemma {:induction false} PlacementParts(image: bool, id: string, rest: string)
    requires IsId(id)
    ensures var s, n := Placement(image, id) + rest, if image then 41 else 40;
      && TokenLength(s) == n == |Placement(image, id)| && s[..n] == Placement(image, id) && s[n..] == rest
      && TokenLength(s[..n]) == n && TokenId(s[..n]) == id
  {
    hide StartsWithBrackets, IsId;
    var bare := "[[" + id + "]]";
    var s := Placement(image, id) + rest;
    BareParts(id, rest);
    assert bare[0] == '[';
    if image {
      assert "!" == ['!'] && Placement(true, id) == "!" + bare;
      assert s[0] == '!' && s[1..] == bare + rest && s[..41] == "!" + bare && ("!" + bare)[1..] == bare;
      BangIsNoBracket(s);
      BangIsNoBracket("!" + bare);
      assert s[41..] == (bare + rest)[40..];
      assert ("!" + bare)[3..39] == bare[2..38];
    } else {
      assert Placement(false, id) == bare && s == bare + rest;
    }
  }

  lemma {:induction false} BangIsNoBracket(s: string)
    requires s != "" && s[0] == '!'
    ensures !StartsWithBrackets(s)
  {
  }

  /** A placement goes exactly if the lowered id is that of a retired document; the text after it is cleaned. */
  lemma {:induction false} PlacementGoes(image: bool, id: string, low: string, rest: string, documentIds: set<Cell>)
    requires IsId(id) && Lowered(id, low)
    ensures Cleaned(Placement(image, id) + rest, documentIds)
      == (if Text(low) in documentIds then "" else Placement(image, id)) + Cleaned(rest, documentIds)
  {
    PlacementParts(image, id, rest);
    LowerIs(id, low);
    hide TokenLength, TokenId, Lower, Placement;
  }

  lemma {:induction false} BracketsArePlacement(s: string)
    ensures StartsWithBrackets(s) ==> IsId(s[2..38]) && s[..40] == Placement(false, s[2..38])
  {
    if StartsWithBrackets(s) {
      var id := s[2..38];
      assert "[[" == ['[', '['] && "]]" == [']', ']'];
      forall i | 0 <= i < 36
        ensures InId(id[i])
      {
        assert IsIdChar(s[i + 2]);
      }
    }
  }

  /** A character with which no placement starts stays. */
  lemma {:induction false} OtherTextStays(s: string, documentIds: set<Cell>)
    requires s != "" && forall image: bool, id: string :: IsId(id) ==> !(Placement(image, id) <= s)
    ensures Cleaned(s, documentIds) == [s[0]] + Cleaned(s[1..], documentIds)
  {
    hide IsId, StartsWithBrackets;
    NoBareStart(s);
    if s[0] == '!' {
      NoImageStart(s);
    }
  }

  lemma {:induction false} NoBareStart(s: string)
    requires forall id: string :: IsId(id) ==> !(Placement(false, id) <= s)
    ensures !StartsWithBrackets(s)
  {
    BracketsArePlacement(s);
    hide IsId, Placement;
  }

  lemma {:induction false} NoImageStart(s: string)
    requires s != "" && s[0] == '!' && forall id: string :: IsId(id) ==> !(Placement(true, id) <= s)
    ensures !StartsWithBrackets(s[1..])
  {
    hide IsId;
    forall id: string | IsId(id)
      ensures !(Placement(false, id) <= s[1..])
    {
      assert "!" == ['!'] && Placement(true, id) == "!" + Placement(false, id);
      assert Placement(false, id) <= s[1..] ==> "!" + Placement(false, id) <= s;
    }
    NoBareStart(s[1..]);
  }
}
