/** The legacy tag bar: tokens, wrapped tokens, and what appending a token does to them. */
module TagBar {
  import opened Wrappers
  import opened PythonText

  const MAX_DELIMITER_DEPTH := 3

  predicate IsOpener(c: char) {
    c == '[' || c == '{' || c == '('
  }

  function Closer(opener: char): char {
    if opener == '[' then ']' else if opener == '{' then '}' else ')'
  }

  /** How often the character at `i` is repeated from there. */
  function RunLength(s: string, i: nat): (n: nat)
    requires i < |s|
    ensures n > 0 && i + n <= |s|
    decreases |s| - i
  {
    if i + 1 < |s| && s[i + 1] == s[i] then 1 + RunLength(s, i + 1) else 1
  }

  function Repeat(c: char, n: nat): (r: string)
    ensures |r| == n
  {
    seq(n, _ => c)
  }

  function WordEnd(s: string, i: nat): (e: nat)
    requires i <= |s|
    ensures i <= e <= |s|
    decreases |s| - i
  {
    if i < |s| && !IsSpace(s[i]) then WordEnd(s, i + 1) else i
  }

  /** What the tokenizer does at one position. */
  datatype Piece = Stop | Skip(to: nat) | Token(text: string, to: nat)

  predicate StartsComment(s: string, i: nat)
    requires i < |s|
  {
    !IsSpace(s[i]) && StartsAt(s, "/*", i)
  }

  /** A run of brackets that can open a wrapped token. */
  predicate StartsWrapped(s: string, i: nat)
    requires i < |s|
  {
    !IsSpace(s[i]) && !StartsComment(s, i) && IsOpener(s[i]) && RunLength(s, i) <= MAX_DELIMITER_DEPTH
  }

  function Needle(s: string, i: nat): string
    requires i < |s|
  {
    Repeat(Closer(s[i]), RunLength(s, i))
  }

  function CloseOf(s: string, i: nat): Option<nat>
    requires i < |s|
  {
    Find(s, Needle(s, i), i + RunLength(s, i))
  }

  function At(s: string, i: nat): (p: Piece)
    requires i < |s|
    ensures !p.Stop? ==> i < p.to <= |s|
    ensures p.Token? ==> p.text == s[i..p.to]
  {
    if IsSpace(s[i]) then Skip(i + 1)
    else if StartsComment(s, i) then
      match Find(s, "*/", i + 2) case None => Stop case Some(end) => Skip(end + 2)
    else if StartsWrapped(s, i) && CloseOf(s, i).Some? then
      var to := CloseOf(s, i).value + RunLength(s, i);
      Token(s[i..to], to)
    else
      Token(s[i..WordEnd(s, i)], WordEnd(s, i))
  }

  function Tokens(s: string, i: nat): (tokens: seq<string>)
    decreases |s| - i
  {
    if i >= |s| then []
    else match At(s, i)
         case Stop => []
         case Skip(to) => Tokens(s, to)
         case Token(text, to) => [text] + Tokens(s, to)
  }

  method ReadRun(tags: string, index: nat) returns (run: nat)
    requires index < |tags|
    ensures run == RunLength(tags, index)
  {
    run := 1;
    while index + run < |tags| && tags[index + run] == tags[index]
      invariant 0 < run && index + run <= |tags| && tags[index + run - 1] == tags[index]
      invariant RunLength(tags, index) == run - 1 + RunLength(tags, index + run - 1)
    {
      run := run + 1;
    }
  }

  /** Where a wrapped token that opens here ends. */
  method ReadWrapped(tags: string, index: nat) returns (to: Option<nat>)
    requires index < |tags| && !IsSpace(tags[index]) && !StartsComment(tags, index)
    ensures to == if StartsWrapped(tags, index) && CloseOf(tags, index).Some?
                  then Some(CloseOf(tags, index).value + RunLength(tags, index)) else None
  {
    hide RunLength, Find, IsSpace, StartsComment;
    var opener := tags[index];
    if !IsOpener(opener) { return None; }
    var run := ReadRun(tags, index);
    if run > MAX_DELIMITER_DEPTH { return None; }
    var close := Find(tags, Repeat(Closer(opener), run), index + run);
    return if close.Some? then Some(close.value + run) else None;
  }

  method ReadWord(tags: string, start: nat) returns (index: nat)
    requires start <= |tags|
    ensures index == WordEnd(tags, start)
  {
    index := start;
    while index < |tags| && !IsSpace(tags[index])
      invariant start <= index <= |tags| && WordEnd(tags, start) == WordEnd(tags, index)
    {
      index := index + 1;
    }
  }

  lemma {:induction false} TokenRead(tokens: seq<string>, tags: string, start: nat, to: nat)
    requires start < |tags| && start <= to <= |tags| && At(tags, start) == Token(tags[start..to], to)
    ensures tokens + Tokens(tags, start) == tokens + [tags[start..to]] + Tokens(tags, to)
  {
    assert tokens + ([tags[start..to]] + Tokens(tags, to)) == tokens + [tags[start..to]] + Tokens(tags, to);
  }

  /** The cursor loop of the program. */
  method TokenizeTagBar(tags: string) returns (tokens: seq<string>)
    ensures tokens == Tokens(tags, 0)
  {
    hide StartsWrapped, CloseOf, RunLength, WordEnd, IsSpace;
    tokens := [];
    var index := 0;
    while index < |tags|
      invariant 0 <= index <= |tags|
      invariant tokens + Tokens(tags, index) == Tokens(tags, 0)
      decreases |tags| - index
    {
      if IsSpace(tags[index]) {
        index := index + 1;
        continue;
      }
      if StartsAt(tags, "/*", index) {
        var end := Find(tags, "*/", index + 2);
        if end.None? { break; }
        index := end.value + 2;
        continue;
      }
      var start := index;
      var wrapped := ReadWrapped(tags, start);
      if wrapped.Some? {
        index := wrapped.value;
      } else {
        index := ReadWord(tags, start);
      }
      TokenRead(tokens, tags, start, index);
      tokens := tokens + [tags[start..index]];
    }
  }

  // ---------- text added at the end ----------

  /** Reading `s` meets something here that `added` text could close: a comment, or a bracket run. */
  predicate Blocked(s: string, i: nat, added: string)
    requires i < |s|
  {
    || (StartsComment(s, i) && Find(s, "*/", i + 2).None?)
    || (StartsWrapped(s, i) && CloseOf(s, i).None? && Find(added, Needle(s, i), 0).Some?)
  }

  /** The tokenizer leaves a comment open in `s`, or a bracket run that `added` would close. */
  predicate Open(s: string, i: nat, added: string)
    decreases |s| - i
  {
    i < |s| && (Blocked(s, i, added) || (!At(s, i).Stop? && Open(s, At(s, i).to, added)))
  }

  /** A needle of closing brackets, or the end of a comment, cannot begin before a space and end after it. */
  lemma {:induction false} FindAcross(s: string, added: string, needle: string, from: nat)
    requires from <= |s| && needle != "" && (added != "" ==> IsSpace(added[0]))
    requires forall j :: 0 <= j < |needle| ==> !IsSpace(needle[j])
    ensures Find(s, needle, from).Some? ==> Find(s + added, needle, from) == Find(s, needle, from)
    ensures Find(s, needle, from).None? ==>
      (Find(s + added, needle, from).Some? <==> Find(added, needle, 0).Some?)
      && (Find(s + added, needle, from).Some? ==> Find(s + added, needle, from).value >= |s|)
  {
    hide Find, IsSpace;
    var both := s + added;
    var near, far, late := Find(s, needle, from), Find(both, needle, from), Find(added, needle, 0);
    assert near.Some? ==> near.value < |s|;
    hide StartsAt;
    if near.Some? {
      StartsAcross(s, added, needle, near.value);
      FindIsFirst(both, needle, from, near.value);
    }
    if far.Some? {
      StartsAcross(s, added, needle, far.value);
      if far.value < |s| {
        FindIsFirst(s, needle, from, far.value);
      } else {
        FindIsFirst(added, needle, 0, far.value - |s|);
      }
    }
    if late.Some? {
      StartsAcross(s, added, needle, |s| + late.value);
      FindIsFirst(both, needle, from, |s| + late.value);
    }
  }

  lemma {:induction false} StartsAcross(s: string, added: string, needle: string, j: nat)
    requires needle != "" && (added != "" ==> IsSpace(added[0]))
    requires forall k :: 0 <= k < |needle| ==> !IsSpace(needle[k])
    ensures j < |s| ==> (StartsAt(s + added, needle, j) <==> StartsAt(s, needle, j))
    ensures j >= |s| ==> (StartsAt(s + added, needle, j) <==> StartsAt(added, needle, j - |s|))
  {
    var both := s + added;
    if j < |s| {
      if j + |needle| <= |s| {
        assert both[j..j + |needle|] == s[j..j + |needle|];
      } else if j + |needle| <= |both| {
        assert both[j..j + |needle|][|s| - j] == added[0];
      }
    } else if j + |needle| <= |both| {
      assert both[j..j + |needle|] == added[j - |s|..j - |s| + |needle|];
    }
  }

  lemma {:induction false} RunAcross(s: string, added: string, i: nat)
    requires i < |s| && !IsSpace(s[i]) && (added != "" ==> IsSpace(added[0]))
    ensures RunLength(s + added, i) == RunLength(s, i)
    decreases |s| - i
  {
    if i + 1 < |s| && s[i + 1] == s[i] {
      RunAcross(s, added, i + 1);
    }
  }

  lemma {:induction false} WordAcross(s: string, added: string, i: nat)
    requires i <= |s| && (added != "" ==> IsSpace(added[0]))
    ensures WordEnd(s + added, i) == WordEnd(s, i)
    decreases |s| - i
  {
    if i < |s| && !IsSpace(s[i]) {
      WordAcross(s, added, i + 1);
    }
  }

  lemma {:induction false} WrappedAcross(s: string, added: string, i: nat)
    requires i < |s| && !IsSpace(s[i]) && !StartsComment(s, i) && (added != "" ==> IsSpace(added[0]))
    requires !Blocked(s, i, added)
    ensures !StartsComment(s + added, i) && (StartsWrapped(s + added, i) <==> StartsWrapped(s, i))
    ensures StartsWrapped(s, i) ==> CloseOf(s + added, i) == CloseOf(s, i)
  {
    hide Find, Needle, RunLength, IsSpace, IsOpener;
    CommentAcross(s, added, i);
    NeedleAcross(s, added, i);
    hide StartsComment;
    if StartsWrapped(s, i) {
      NeedleHasNoSpace(s, i);
      FindAcross(s, added, Needle(s, i), i + RunLength(s, i));
    }
  }

  /** Unless something is left open here, the added text changes nothing at this position. */
  lemma {:induction false} AtAcross(s: string, added: string, i: nat)
    requires i < |s| && (added != "" ==> IsSpace(added[0])) && !Blocked(s, i, added)
    ensures At(s + added, i) == At(s, i) && !At(s, i).Stop?
  {
    assert (s + added)[i] == s[i];
    SliceAcross(s, added, i);
    if !IsSpace(s[i]) {
      CommentAcross(s, added, i);
      if StartsComment(s, i) {
        FindAcross(s, added, "*/", i + 2);
      } else {
        WrappedAcross(s, added, i);
        RunAcross(s, added, i);
        WordAcross(s, added, i);
        hide StartsWrapped, CloseOf, StartsComment, IsSpace, Blocked;
      }
    }
  }

  lemma {:induction false} SliceAcross(s: string, added: string, i: nat)
    requires i <= |s|
    ensures forall to :: i <= to <= |s| ==> (s + added)[i..to] == s[i..to]
  {
  }

  lemma {:induction false} CommentAcross(s: string, added: string, i: nat)
    requires i < |s| && !IsSpace(s[i]) && (added != "" ==> IsSpace(added[0]))
    ensures StartsComment(s + added, i) <==> StartsComment(s, i)
  {
    StartsAcross(s, added, "/*", i);
  }

  lemma {:induction false} NotOpenHere(s: string, added: string, i: nat)
    requires i < |s| && !Open(s, i, added)
    ensures !Blocked(s, i, added) && (!At(s, i).Stop? ==> !Open(s, At(s, i).to, added))
  {
  }

  /** Then the tokens of the longer text are those of `s`, and after them those of what was added. */
  lemma {:induction false} TokensAcross(s: string, added: string, i: nat)
    requires i <= |s| && (added != "" ==> IsSpace(added[0])) && !Open(s, i, added)
    ensures Tokens(s + added, i) == Tokens(s, i) + Tokens(s + added, |s|)
    decreases |s| - i
  {
    if i < |s| {
      NotOpenHere(s, added, i);
      AtAcross(s, added, i);
      hide Open, Blocked, At, IsSpace;
      TokensAcross(s, added, At(s, i).to);
    }
  }

  // ---------- text put before ----------

  lemma {:induction false} StartsAfter(p: string, t: string, needle: string, j: nat)
    ensures StartsAt(p + t, needle, |p| + j) <==> StartsAt(t, needle, j)
  {
    if j + |needle| <= |t| {
      assert (p + t)[|p| + j..|p| + j + |needle|] == t[j..j + |needle|];
    }
  }

  lemma {:induction false} FindAfter(p: string, t: string, needle: string, from: nat)
    ensures Find(p + t, needle, |p| + from)
        == match Find(t, needle, from) case None => None case Some(j) => Some(|p| + j)
  {
    hide Find, StartsAt;
    var there, here := Find(p + t, needle, |p| + from), Find(t, needle, from);
    if here.Some? {
      StartsAfter(p, t, needle, here.value);
      FindIsFirst(p + t, needle, |p| + from, |p| + here.value);
    }
    if there.Some? {
      StartsAfter(p, t, needle, there.value - |p|);
      FindIsFirst(t, needle, from, there.value - |p|);
    }
  }

  lemma {:induction false} RunAfter(p: string, t: string, i: nat)
    requires i < |t|
    ensures RunLength(p + t, |p| + i) == RunLength(t, i)
    decreases |t| - i
  {
    if i + 1 < |t| && t[i + 1] == t[i] {
      RunAfter(p, t, i + 1);
    }
  }

  lemma {:induction false} WordAfter(p: string, t: string, i: nat)
    requires i <= |t|
    ensures WordEnd(p + t, |p| + i) == |p| + WordEnd(t, i)
    decreases |t| - i
  {
    if i < |t| && !IsSpace(t[i]) {
      WordAfter(p, t, i + 1);
    }
  }

  function Moved(piece: Piece, n: nat): Piece {
    match piece case Stop => Stop case Skip(to) => Skip(n + to) case Token(text, to) => Token(text, n + to)
  }

  lemma {:induction false} NeedleAfter(p: string, t: string, i: nat)
    requires i < |t|
    ensures RunLength(p + t, |p| + i) == RunLength(t, i) && Needle(p + t, |p| + i) == Needle(t, i)
  {
    RunAfter(p, t, i);
    assert (p + t)[|p| + i] == t[i];
  }

  lemma {:induction false} OpenerAfter(p: string, t: string, i: nat)
    requires i < |t|
    ensures StartsWrapped(p + t, |p| + i) <==> StartsWrapped(t, i)
  {
    hide Find, Needle, RunLength, StartsComment, IsSpace, IsOpener;
    CommentAfter(p, t, i);
    NeedleAfter(p, t, i);
    assert (p + t)[|p| + i] == t[i];
  }

  lemma {:induction false} CloseAfter(p: string, t: string, i: nat)
    requires i < |t|
    ensures CloseOf(p + t, |p| + i) == match CloseOf(t, i) case None => None case Some(j) => Some(|p| + j)
  {
    hide Find, Needle, RunLength;
    NeedleAfter(p, t, i);
    FindAfter(p, t, Needle(t, i), i + RunLength(t, i));
    assert |p| + i + RunLength(t, i) == |p| + (i + RunLength(t, i));
  }

  lemma {:induction false} TokenAfter(p: string, t: string, i: nat, to: nat)
    requires i <= to <= |t|
    ensures Token((p + t)[|p| + i..|p| + to], |p| + to) == Moved(Token(t[i..to], to), |p|)
  {
    SliceAfter(p, t, i);
  }

  lemma {:induction false} AtAfterWord(p: string, t: string, i: nat)
    requires i < |t| && !IsSpace(t[i]) && !StartsComment(t, i)
    ensures At(p + t, |p| + i) == Moved(At(t, i), |p|)
  {
    assert (p + t)[|p| + i] == t[i];
    CommentAfter(p, t, i);
    OpenerAfter(p, t, i);
    CloseAfter(p, t, i);
    NeedleAfter(p, t, i);
    if StartsWrapped(t, i) && CloseOf(t, i).Some? {
      TokenAfter(p, t, i, CloseOf(t, i).value + RunLength(t, i));
    } else {
      WordAfter(p, t, i);
      TokenAfter(p, t, i, WordEnd(t, i));
    }
    hide StartsWrapped, CloseOf, StartsComment, IsSpace, Find, RunLength, WordEnd, Needle, StartsAt;
  }

  lemma {:induction false} AtAfter(p: string, t: string, i: nat)
    requires i < |t|
    ensures At(p + t, |p| + i) == Moved(At(t, i), |p|)
  {
    assert (p + t)[|p| + i] == t[i];
    if !IsSpace(t[i]) {
      CommentAfter(p, t, i);
      if StartsComment(t, i) {
        FindAfter(p, t, "*/", i + 2);
        hide StartsComment, IsSpace, Find, StartsAt;
      } else {
        AtAfterWord(p, t, i);
      }
    }
  }

  lemma {:induction false} SliceAfter(p: string, t: string, i: nat)
    requires i <= |t|
    ensures forall to :: i <= to <= |t| ==> (p + t)[|p| + i..|p| + to] == t[i..to]
  {
  }

  lemma {:induction false} CommentAfter(p: string, t: string, i: nat)
    requires i < |t|
    ensures StartsComment(p + t, |p| + i) <==> StartsComment(t, i)
  {
    if i + 2 <= |t| {
      assert (p + t)[|p| + i..|p| + i + 2] == t[i..i + 2];
    }
  }

  lemma {:induction false} TokensStep(s: string, i: nat)
    requires i < |s|
    ensures Tokens(s, i) == match At(s, i)
                            case Stop => []
                            case Skip(to) => Tokens(s, to)
                            case Token(text, to) => [text] + Tokens(s, to)
  {
  }

  lemma {:induction false} NothingLeft(s: string, i: nat)
    requires i >= |s|
    ensures Tokens(s, i) == []
  {
  }

  lemma {:induction false} TokensAfter(p: string, t: string, i: nat)
    requires i <= |t|
    ensures Tokens(p + t, |p| + i) == Tokens(t, i)
    decreases |t| - i
  {
    hide At, Tokens, IsSpace;
    var both := p + t;
    if i < |t| {
      AtAfter(p, t, i);
      TokensStep(t, i);
      TokensStep(both, |p| + i);
      match At(t, i)
      case Stop =>
      case Skip(to) => TokensAfter(p, t, to);
      case Token(_, to) => TokensAfter(p, t, to);
    } else {
      NothingLeft(t, i);
      NothingLeft(both, |p| + i);
    }
  }

  // ---------- space around does not matter ----------

  lemma {:induction false} SpaceBefore(s: string)
    ensures Tokens(StripLeft(s), 0) == Tokens(s, 0)
  {
    if s != "" && IsSpace(s[0]) {
      SpaceBefore(s[1..]);
      assert s == [s[0]] + s[1..];
      TokensAfter([s[0]], s[1..], 0);
    }
  }

  lemma {:induction false} OnlySpace(s: string, i: nat)
    requires i <= |s| && forall j :: i <= j < |s| ==> IsSpace(s[j])
    ensures Tokens(s, i) == []
    decreases |s| - i
  {
    if i < |s| {
      OnlySpace(s, i + 1);
    }
  }

  lemma {:induction false} NothingInSpace(space: string, needle: string)
    requires needle != "" && !IsSpace(needle[0]) && forall j :: 0 <= j < |space| ==> IsSpace(space[j])
    ensures Find(space, needle, 0) == None
  {
    if Find(space, needle, 0).Some? {
      FoundFirst(space, needle);
    }
  }

  lemma {:induction false} FoundFirst(s: string, needle: string)
    requires needle != "" && Find(s, needle, 0).Some?
    ensures Find(s, needle, 0).value < |s| && s[Find(s, needle, 0).value] == needle[0]
  {
    var j := Find(s, needle, 0).value;
    assert s[j..j + |needle|][0] == s[j];
  }

  lemma {:induction false} SpaceAfter(s: string, space: string, i: nat)
    requires i <= |s| && forall j :: 0 <= j < |space| ==> IsSpace(space[j])
    ensures Tokens(s + space, i) == Tokens(s, i)
    decreases |s| - i
  {
    if i == |s| {
      OnlySpace(s + space, i);
    } else if StartsComment(s, i) && Find(s, "*/", i + 2).None? {
      CommentAcross(s, space, i);
      NothingInSpace(space, "*/");
      FindAcross(s, space, "*/", i + 2);
    } else {
      NothingInSpace(space, Needle(s, i));
      AtAcross(s, space, i);
      hide At;
      SpaceAfter(s, space, At(s, i).to);
    }
  }

  lemma {:induction false} TokensOfStripped(tags: string)
    ensures Tokens(Strip(tags), 0) == Tokens(tags, 0)
  {
    SpaceBefore(tags);
    var left := StripLeft(tags);
    var stripped := StripRight(left);
    SpaceAfter(stripped, left[|stripped|..], 0);
    assert left == stripped + left[|stripped|..];
  }

  // ---------- appending a token ----------

  function AppendTagToken(tags: string, token: string): string {
    var stripped := Strip(tags);
    if stripped == "" then token else stripped + (" " + token)
  }

  /** Alone the text is read as one token, and it ends no comment. */
  predicate Standalone(token: string) {
    Tokens(token, 0) == [token] && Find(token, "*/", 0).None?
  }

  lemma {:induction false} TokensOfAdded(s: string, token: string)
    ensures Tokens(s + (" " + token), |s|) == Tokens(token, 0)
  {
    TokensAfter(s, " " + token, 0);
    TokensAfter(" ", token, 0);
    assert At(" " + token, 0) == Skip(1);
  }

  lemma {:induction false} NoCommentEnd(token: string)
    requires Find(token, "*/", 0).None?
    ensures Find(" " + token, "*/", 0).None?
  {
    var found := Find(" " + token, "*/", 0);
    if found.Some? {
      FoundFirst(" " + token, "*/");
      assert found.value > 0;
      StartsAfter(" ", token, "*/", found.value - 1);
      FindIsFirst(token, "*/", 0, found.value - 1);
    }
  }

  lemma {:induction false} CommentSwallows(s: string, token: string, i: nat)
    requires i < |s| && Standalone(token) && StartsComment(s, i) && Find(s, "*/", i + 2).None?
    ensures Tokens(s + (" " + token), i) == [] && Tokens(s, i) == []
  {
    var added := " " + token;
    assert (s + added)[i] == s[i];
    CommentAcross(s, added, i);
    NoCommentEnd(token);
    FindAcross(s, added, "*/", i + 2);
  }

  lemma {:induction false} WrappedSwallows(s: string, added: string, i: nat)
    requires i < |s| && added != "" && IsSpace(added[0])
    requires StartsWrapped(s, i) && CloseOf(s, i).None? && Find(added, Needle(s, i), 0).Some?
    ensures StartsWrapped(s + added, i) && CloseOf(s + added, i).Some? && CloseOf(s + added, i).value >= |s|
  {
    hide Find, Needle, RunLength, StartsComment, IsSpace, IsOpener;
    CommentAcross(s, added, i);
    NeedleAcross(s, added, i);
    NeedleHasNoSpace(s, i);
    FindAcross(s, added, Needle(s, i), i + RunLength(s, i));
  }

  lemma {:induction false} NeedleAcross(s: string, added: string, i: nat)
    requires i < |s| && !IsSpace(s[i]) && (added != "" ==> IsSpace(added[0]))
    ensures (s + added)[i] == s[i] && RunLength(s + added, i) == RunLength(s, i) && Needle(s + added, i) == Needle(s, i)
  {
    RunAcross(s, added, i);
  }

  lemma {:induction false} NeedleHasNoSpace(s: string, i: nat)
    requires i < |s|
    ensures Needle(s, i) != "" && forall j :: 0 <= j < |Needle(s, i)| ==> !IsSpace(Needle(s, i)[j])
  {
  }

  /** A comment swallows the added token, and a bracket run that it closes gives a longer token. */
  lemma {:induction false} BlockedDiffers(s: string, token: string, i: nat)
    requires i < |s| && Standalone(token) && Blocked(s, i, " " + token)
    ensures Tokens(s + (" " + token), i) != Tokens(s, i) + [token]
  {
    var added := " " + token;
    if StartsComment(s, i) {
      CommentSwallows(s, token, i);
    } else {
      WrappedSwallows(s, added, i);
      SwallowedIsLonger(s, added, i);
      hide Tokens, At, StartsWrapped, CloseOf, StartsComment, Find, Standalone;
      assert (Tokens(s, i) + [token])[0] == Tokens(s, i)[0];
    }
  }

  lemma {:induction false} SwallowedIsLonger(s: string, added: string, i: nat)
    requires i < |s| && StartsWrapped(s, i) && CloseOf(s, i).None?
    requires StartsWrapped(s + added, i) && CloseOf(s + added, i).Some? && CloseOf(s + added, i).value >= |s|
    ensures At(s, i).Token? && At(s + added, i).Token? && |At(s, i).text| <= |s| - i < |At(s + added, i).text|
    ensures Tokens(s, i) != [] && Tokens(s, i)[0] == At(s, i).text
    ensures Tokens(s + added, i) != [] && Tokens(s + added, i)[0] == At(s + added, i).text
  {
  }

  lemma {:induction false} OpenDiffers(s: string, token: string, i: nat)
    requires i <= |s| && Standalone(token) && Open(s, i, " " + token)
    ensures Tokens(s + (" " + token), i) != Tokens(s, i) + [token]
    decreases |s| - i
  {
    var added := " " + token;
    if Blocked(s, i, added) {
      BlockedDiffers(s, token, i);
    } else {
      AtAcross(s, added, i);
      OpenDiffers(s, token, At(s, i).to);
      hide At, Open, Blocked, Standalone;
      if At(s, i).Token? {
        var head := [At(s, i).text];
        assert head + Tokens(s, At(s, i).to) + [token] == head + (Tokens(s, At(s, i).to) + [token]);
        assert (head + Tokens(s + added, At(s, i).to))[1..] == Tokens(s + added, At(s, i).to);
        assert (head + (Tokens(s, At(s, i).to) + [token]))[1..] == Tokens(s, At(s, i).to) + [token];
      }
    }
  }

  /**
   Appending a token adds exactly that token, exactly when the bar leaves nothing open that it would
   close or that would swallow it.
   */
  lemma {:induction false} AppendAddsOneToken(tags: string, token: string)
    requires Standalone(token)
    ensures Tokens(AppendTagToken(tags, token), 0) == Tokens(tags, 0) + [token] <==> !Open(Strip(tags), 0, " " + token)
  {
    var stripped := Strip(tags);
    TokensOfStripped(tags);
    if stripped == "" {
      assert Tokens("", 0) == [];
    } else if Open(stripped, 0, " " + token) {
      OpenDiffers(stripped, token, 0);
    } else {
      TokensAcross(stripped, " " + token, 0);
      TokensOfAdded(stripped, token);
    }
  }

  // ---------- wrapped tokens and the markers of an imported note ----------

  datatype Unwrapped = Bare(text: string) | Wrapped(text: string, opener: char, depth: nat)

  /** How often the last character is repeated at the end. */
  function ClosingRun(s: string, closer: char): nat {
    if s != "" && s[|s| - 1] == closer then 1 + ClosingRun(s[..|s| - 1], closer) else 0
  }

  function UnwrapTagToken(token: string): Unwrapped {
    if token == "" || !IsOpener(token[0]) then Bare(token)
    else
      var depth := RunLength(token, 0);
      if depth > MAX_DELIMITER_DEPTH || |token| < depth * 2 || ClosingRun(token, Closer(token[0])) != depth ||
        |token| == depth * 2
      then Bare(token)
      else Wrapped(token[depth..|token| - depth], token[0], depth)
  }

  /** casefold() is a parameter. */
  predicate IsMarker(word: string, name: string, fold: string -> string) {
    word != "" && word[0] == '@' && fold(word[1..]) == fold(name)
  }

  predicate NamesGlobal(tokens: seq<string>, name: string, fold: string -> string) {
    exists token :: token in tokens && UnwrapTagToken(token).Bare? && IsMarker(UnwrapTagToken(token).text, name, fold)
  }

  predicate NamesScoped(tokens: seq<string>, name: string, opener: char, depth: nat, fold: string -> string) {
    exists token :: token in tokens && ScopesRenderer(UnwrapTagToken(token), name, opener, depth, fold)
  }

  predicate HasGlobalTag(tags: string, name: string, fold: string -> string) {
    NamesGlobal(Tokens(tags, 0), name, fold)
  }

  predicate HasScopedRenderer(tags: string, name: string, opener: char, depth: nat, fold: string -> string) {
    NamesScoped(Tokens(tags, 0), name, opener, depth, fold)
  }

  predicate ScopesRenderer(unwrapped: Unwrapped, name: string, opener: char, depth: nat, fold: string -> string) {
    && unwrapped.Wrapped? && unwrapped.opener == opener && unwrapped.depth == depth
    && exists word :: word in Split(unwrapped.text, "") && IsMarker(word, name, fold)
  }

  const MARKDOWN := "@markdown"
  const LATEX := "[[@LaTeX]]"

  /** The tag bar of a note whose content had LaTeX wrapped. */
  function MarkLatex(tags: string, fold: string -> string): string {
    var marked := if HasGlobalTag(tags, "markdown", fold) then tags else AppendTagToken(tags, MARKDOWN);
    if HasScopedRenderer(marked, "latex", '[', 2, fold) then marked else AppendTagToken(marked, LATEX)
  }

  lemma {:induction false} WordIsOneToken(word: string)
    requires word != "" && !IsOpener(word[0]) && word[0] != '/' && forall j :: 0 <= j < |word| ==> !IsSpace(word[j])
    ensures Tokens(word, 0) == [word]
  {
    WordToTheEnd(word, 0);
    CommentSlash(word, 0);
    assert word[0..|word|] == word && Tokens(word, |word|) == [];
  }

  lemma {:induction false} CommentSlash(s: string, i: nat)
    requires i < |s|
    ensures StartsAt(s, "/*", i) ==> s[i] == '/'
  {
    if StartsAt(s, "/*", i) {
      assert s[i..i + 2][0] == s[i];
    }
  }

  lemma {:induction false} WordToTheEnd(word: string, i: nat)
    requires i <= |word| && forall j :: 0 <= j < |word| ==> !IsSpace(word[j])
    ensures WordEnd(word, i) == |word|
    decreases |word| - i
  {
    if i < |word| {
      WordToTheEnd(word, i + 1);
    }
  }

  lemma {:induction false} WordStandsAlone(word: string)
    requires word != "" && !IsOpener(word[0]) && word[0] != '/'
    requires forall j :: 0 <= j < |word| ==> !IsSpace(word[j]) && word[j] != '*'
    ensures Standalone(word) && UnwrapTagToken(word) == Bare(word)
  {
    hide Tokens, Find, IsSpace;
    WordIsOneToken(word);
    NoStarSlash(word);
  }

  lemma {:induction false} MarkdownStandsAlone()
    ensures Standalone(MARKDOWN) && UnwrapTagToken(MARKDOWN) == Bare(MARKDOWN)
  {
    hide Standalone, UnwrapTagToken;
    assert MARKDOWN == ['@', 'm', 'a', 'r', 'k', 'd', 'o', 'w', 'n'];
    WordStandsAlone(MARKDOWN);
  }

  lemma {:induction false} NoStarSlash(token: string)
    requires forall j :: 0 <= j < |token| ==> token[j] != '*'
    ensures Find(token, "*/", 0).None?
  {
    if Find(token, "*/", 0).Some? {
      FoundFirst(token, "*/");
    }
  }

  lemma {:induction false} LatexRun()
    ensures |LATEX| == 10 && LATEX[0] == '[' && RunLength(LATEX, 0) == 2 && !IsSpace(LATEX[0])
    ensures !StartsComment(LATEX, 0)
  {
    assert LATEX == ['[', '[', '@', 'L', 'a', 'T', 'e', 'X', ']', ']'];
    assert RunLength(LATEX, 1) == 1;
    CommentSlash(LATEX, 0);
  }

  lemma {:induction false} LatexStandsAlone()
    ensures Standalone(LATEX) && UnwrapTagToken(LATEX) == Wrapped("@LaTeX", '[', 2)
  {
    assert LATEX == ['[', '[', '@', 'L', 'a', 'T', 'e', 'X', ']', ']'];
    NoStarSlash(LATEX);
    LatexRun();
    LatexCloses();
    assert LATEX[2..8] == "@LaTeX" && LATEX[0..10] == LATEX;
    hide Find, WordEnd, ClosingRun, RunLength, StartsComment, IsSpace;
    assert At(LATEX, 0) == Token(LATEX[0..10], 10);
  }

  lemma {:induction false} LatexCloses()
    ensures Find(LATEX, Repeat(']', 2), 2) == Some(8) && ClosingRun(LATEX, ']') == 2
  {
    assert LATEX == ['[', '[', '@', 'L', 'a', 'T', 'e', 'X', ']', ']'];
    var needle := Repeat(']', 2);
    assert needle == [']', ']'];
    assert LATEX[8..10] == needle;
    FindIsFirst(LATEX, needle, 2, 8);
    var j := Find(LATEX, needle, 2).value;
    assert LATEX[j..j + 2][0] == LATEX[j];
    assert LATEX[..9][|LATEX[..9]| - 1] == ']' && LATEX[..9][..8] == LATEX[..8] && LATEX[..8][7] == 'X';
    assert ClosingRun(LATEX[..8], ']') == 0;
    assert ClosingRun(LATEX[..9], ']') == 1;
  }

  /** A marker that closes nothing leaves the bar as open, or as closed, as it was. */
  lemma {:induction false} StaysClosed(s: string, first: string, second: string, i: nat)
    requires i <= |s| && first != "" && IsSpace(first[0]) && second != "" && IsSpace(second[0])
    requires !Open(s, i, first) && !Open(s, i, second) && !Open(s + first, |s|, second)
    ensures !Open(s + first, i, second)
    decreases |s| - i
  {
    if i < |s| {
      NotOpenHere(s, first, i);
      NotOpenHere(s, second, i);
      AtAcross(s, first, i);
      NotBlockedStill(s, first, second, i);
      hide At, Blocked, IsSpace;
      StaysClosed(s, first, second, At(s, i).to);
    }
  }

  lemma {:induction false} NotBlockedStill(s: string, first: string, second: string, i: nat)
    requires i < |s| && first != "" && IsSpace(first[0])
    requires !Blocked(s, i, first) && !Blocked(s, i, second)
    ensures !Blocked(s + first, i, second)
  {
    var both := s + first;
    assert both[i] == s[i];
    if !IsSpace(s[i]) {
      CommentAcross(s, first, i);
      if StartsComment(s, i) {
        FindAcross(s, first, "*/", i + 2);
      } else {
        WrappedAcross(s, first, i);
        RunAcross(s, first, i);
        assert Needle(both, i) == Needle(s, i);
        hide StartsWrapped, CloseOf, StartsComment, Needle, Find;
      }
    }
  }

  /** The tail that a markdown marker adds opens nothing. */
  lemma {:induction false} MarkdownOpensNothing(s: string, added: string)
    ensures !Open(s + (" " + MARKDOWN), |s|, added)
  {
    var both := s + (" " + MARKDOWN);
    assert MARKDOWN == ['@', 'm', 'a', 'r', 'k', 'd', 'o', 'w', 'n'];
    assert both[|s|] == ' ' && both[|s| + 1] == '@';
    CommentSlash(both, |s| + 1);
    WordAfter(s + " ", MARKDOWN, 0);
    WordToTheEnd(MARKDOWN, 0);
    assert s + " " + MARKDOWN == both && |s + " "| == |s| + 1;
    hide WordEnd, RunLength, CloseOf, Find;
    assert At(both, |s|) == Skip(|s| + 1) && !Blocked(both, |s|, added);
    assert At(both, |s| + 1).to == |both| && !Blocked(both, |s| + 1, added);
    assert !Open(both, |both|, added);
    assert !Open(both, |s| + 1, added);
  }

  lemma {:induction false} StrippedAlready(s: string)
    requires s != "" && !IsSpace(s[0]) && !IsSpace(s[|s| - 1])
    ensures Strip(s) == s
  {
  }

  lemma {:induction false} StripEnds(s: string)
    ensures Strip(s) != "" ==> !IsSpace(Strip(s)[0])
  {
    var left := StripLeft(s);
    assert Strip(s) != "" ==> Strip(s)[0] == left[0];
  }

  lemma {:induction false} MarkedOnce(tags: string)
    requires !Open(Strip(tags), 0, " " + MARKDOWN) && !Open(Strip(tags), 0, " " + LATEX)
    ensures !Open(Strip(AppendTagToken(tags, MARKDOWN)), 0, " " + LATEX)
  {
    var stripped := Strip(tags);
    StripEnds(tags);
    assert MARKDOWN == ['@', 'm', 'a', 'r', 'k', 'd', 'o', 'w', 'n'];
    var marked := AppendTagToken(tags, MARKDOWN);
    StrippedAlready(marked);
    if stripped == "" {
      MarkdownOpensNothing("", " " + LATEX);
      OpenAfterSpace(MARKDOWN, " " + LATEX);
      assert "" + (" " + MARKDOWN) == " " + MARKDOWN;
    } else {
      MarkdownOpensNothing(stripped, " " + LATEX);
      StaysClosed(stripped, " " + MARKDOWN, " " + LATEX, 0);
    }
  }

  lemma {:induction false} OpenAfterSpace(word: string, added: string)
    requires word != "" && !IsOpener(word[0]) && word[0] != '/' && forall j :: 0 <= j < |word| ==> !IsSpace(word[j])
    ensures !Open(word, 0, added)
  {
    WordIsOneToken(word);
    WordToTheEnd(word, 0);
    CommentSlash(word, 0);
  }

  lemma {:induction false} OneWord(word: string)
    requires word == "@LaTeX"
    ensures Split(word, "") == [word]
  {
    WordsOf(word, "");
    assert "" + word == word;
  }

  lemma {:induction false} WordsOf(s: string, word: string)
    requires word + s != "" && forall j :: 0 <= j < |s| ==> !IsSpace(s[j])
    ensures Split(s, word) == [word + s]
    decreases |s|
  {
    if s == "" {
      assert word + s == word;
    } else {
      WordsOf(s[1..], word + [s[0]]);
      assert word + [s[0]] + s[1..] == word + s;
    }
  }
}
