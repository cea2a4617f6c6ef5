/** When an imported note whose LaTeX was wrapped ends up with both of its marks, and when it does not. */
module LatexMarks {
  import opened Wrappers
  import opened PythonText
  import opened TagBar

  /** Where reading `s` first meets something open that the added text could close. */
  function FirstOpen(s: string, i: nat, added: string): (p: Option<nat>)
    ensures p.Some? ==> i <= p.value < |s| && Blocked(s, p.value, added)
    decreases |s| - i
  {
    if i >= |s| then None
    else if Blocked(s, i, added) then Some(i)
    else if At(s, i).Stop? then None
    else FirstOpen(s, At(s, i).to, added)
  }

  /** The tokens read before that. */
  function Before(s: string, i: nat, added: string): seq<string>
    decreases |s| - i
  {
    if i >= |s| || Blocked(s, i, added) then []
    else match At(s, i)
         case Stop => []
         case Skip(to) => Before(s, to, added)
         case Token(text, to) => [text] + Before(s, to, added)
  }

  lemma {:induction false} FirstOpenIsOpen(s: string, i: nat, added: string)
    ensures FirstOpen(s, i, added).Some? <==> Open(s, i, added)
    decreases |s| - i
  {
    hide Blocked, At;
    if i < |s| && !Blocked(s, i, added) && !At(s, i).Stop? {
      FirstOpenIsOpen(s, At(s, i).to, added);
    }
  }

  /** Up to there the bar is read as it would be alone. */
  lemma {:induction false} ReadUpTo(s: string, added: string, i: nat)
    requires added != "" && IsSpace(added[0]) && FirstOpen(s, i, added).Some?
    ensures var p := FirstOpen(s, i, added).value;
      && Tokens(s, i) == Before(s, i, added) + Tokens(s, p)
      && Tokens(s + added, i) == Before(s, i, added) + Tokens(s + added, p)
    decreases |s| - i
  {
    hide Blocked, At, IsSpace;
    if !Blocked(s, i, added) {
      AtAcross(s, added, i);
      ReadUpTo(s, added, At(s, i).to);
    }
  }

  /** An open comment swallows the token. */
  lemma {:induction false} Swallowed(tags: string, token: string)
    requires Standalone(token) && FirstOpen(Strip(tags), 0, " " + token).Some?
    requires StartsComment(Strip(tags), FirstOpen(Strip(tags), 0, " " + token).value)
    ensures Tokens(AppendTagToken(tags, token), 0) == Tokens(tags, 0)
  {
    var s, added := Strip(tags), " " + token;
    var p := FirstOpen(s, 0, added).value;
    TokensOfStripped(tags);
    ReadUpTo(s, added, 0);
    CommentSwallows(s, token, p);
  }

  // ---------- a bracket run that the LaTeX marker closes ----------

  const TAIL := " " + LATEX

  lemma {:induction false} TailIs()
    ensures TAIL == [' ', '[', '[', '@', 'L', 'a', 'T', 'e', 'X', ']', ']'] && IsSpace(TAIL[0])
  {
  }

  /** Only square brackets, one or two, are closed by it, and where its closing brackets begin. */
  lemma {:induction false} ClosedByTail(s: string, p: nat)
    requires p < |s| && Blocked(s, p, TAIL) && !StartsComment(s, p)
    ensures s[p] == '[' && RunLength(s, p) in {1, 2} && Find(TAIL, Needle(s, p), 0) == Some(9)
  {
    TailIs();
    var needle := Needle(s, p);
    var j := Find(TAIL, needle, 0).value;
    assert TAIL[j..j + |needle|][0] == TAIL[j] == needle[0];
    if |needle| > 1 {
      assert TAIL[j..j + |needle|][1] == TAIL[j + 1] == needle[1];
    }
    assert |needle| <= 2;
    assert TAIL[9..9 + |needle|] == needle;
    FindIsFirst(TAIL, needle, 0, 9);
  }

  lemma {:induction false} FindBeyond(s: string, added: string, needle: string, from: nat, j: nat)
    requires from <= |s| && needle != "" && added != "" && IsSpace(added[0])
    requires forall k :: 0 <= k < |needle| ==> !IsSpace(needle[k])
    requires Find(s, needle, from).None? && Find(added, needle, 0) == Some(j)
    ensures Find(s + added, needle, from) == Some(|s| + j)
  {
    hide Find, IsSpace;
    FindAcross(s, added, needle, from);
    var v := Find(s + added, needle, from).value;
    StartsAcross(s, added, needle, v);
    StartsAcross(s, added, needle, |s| + j);
    hide StartsAt;
    FindIsFirst(added, needle, 0, v - |s|);
    FindIsFirst(s + added, needle, from, |s| + j);
  }

  /** So the token that begins with the run goes on into the marker. */
  lemma {:induction false} RunGoesOn(s: string, p: nat)
    requires p < |s| && Blocked(s, p, TAIL) && !StartsComment(s, p)
    ensures var to := |s| + 9 + RunLength(s, p);
      to <= |s + TAIL| && At(s + TAIL, p) == Token((s + TAIL)[p..to], to)
  {
    hide Find, Needle, RunLength, StartsComment, IsOpener, IsSpace;
    TailIs();
    ClosedByTail(s, p);
    WrappedSwallows(s, TAIL, p);
    NeedleAcross(s, TAIL, p);
    NeedleHasNoSpace(s, p);
    FindBeyond(s, TAIL, Needle(s, p), p + RunLength(s, p), 9);
    CommentAcross(s, TAIL, p);
    assert (s + TAIL)[p] == s[p];
  }

  /** The marker up to its closing brackets. */
  const NAMED := " " + "[[@LaTeX"

  /** The token that swallows the marker, whole or but for its last bracket. */
  function SwallowingToken(s: string, p: nat): string
    requires p < |s|
  {
    s[p..] + NAMED + Repeat(']', RunLength(s, p))
  }

  lemma {:induction false} TailEnds()
    ensures |NAMED| == 9 && NAMED == TAIL[..9] && NAMED[8] == 'X' && NAMED[0] == ' '
    ensures NAMED + Repeat(']', 1) == TAIL[..10] && NAMED + Repeat(']', 2) == TAIL
  {
    TailIs();
    assert "[[@LaTeX" == ['[', '[', '@', 'L', 'a', 'T', 'e', 'X'];
  }

  lemma {:induction false} TokensFromRun(s: string, p: nat)
    requires p < |s| && Blocked(s, p, TAIL) && !StartsComment(s, p)
    ensures RunLength(s, p) in {1, 2}
    ensures Tokens(s + TAIL, p) == [SwallowingToken(s, p)] + (if RunLength(s, p) == 2 then [] else ["]"])
  {
    hide At, Blocked, StartsComment, RunLength, Find, Tokens, IsSpace, Needle;
    TailIs();
    ClosedByTail(s, p);
    RunGoesOn(s, p);
    var both := s + TAIL;
    var to := |s| + 9 + RunLength(s, p);
    TailEnds();
    assert both[p..to] == SwallowingToken(s, p);
    TokensStep(both, p);
    if RunLength(s, p) == 2 {
      NothingLeft(both, to);
    } else {
      BracketAlone();
      assert both == (s + TAIL[..10]) + "]" && to == |s + TAIL[..10]|;
      TokensAfter(s + TAIL[..10], "]", 0);
    }
  }

  lemma {:induction false} BracketAlone()
    ensures Tokens("]", 0) == ["]"]
  {
    WordIsOneToken("]");
  }

  lemma {:induction false} RunHere(s: string, p: nat)
    requires p < |s| && !IsSpace(s[p])
    ensures RunLength(s[p..], 0) == RunLength(s, p)
  {
    RunAfter(s[..p], s[p..], 0);
    assert s[..p] + s[p..] == s;
  }

  /** Its brackets match, so it is read as wrapped, one or two deep. */
  lemma {:induction false} UnwrapsSwallowing(s: string, p: nat)
    requires p < |s| && s[p] == '[' && RunLength(s, p) in {1, 2}
    ensures UnwrapTagToken(SwallowingToken(s, p)) == Wrapped(s[p..][RunLength(s, p)..] + NAMED, '[', RunLength(s, p))
  {
    assert !IsSpace(s[p]);
    hide UnwrapTagToken, RunLength, IsSpace;
    RunHere(s, p);
    UnwrapRun(s[p..], RunLength(s, p));
  }

  lemma {:induction false} UnwrapRun(x: string, r: nat)
    requires x != "" && x[0] == '[' && RunLength(x, 0) == r && r in {1, 2}
    ensures UnwrapTagToken(x + NAMED + Repeat(']', r)) == Wrapped(x[r..] + NAMED, '[', r)
  {
    assert IsOpener(x[0]) && !IsSpace(x[0]) && IsSpace(' ');
    hide UnwrapTagToken, RunLength, ClosingRun, IsSpace, IsOpener, NAMED, TAIL;
    RunFits(x, r);
    TailEnds();
    var last := Repeat(']', r);
    var token := x + NAMED + last;
    assert token == x + (NAMED + last) && token[0] == '[' && |token| == |x| + 9 + r;
    RunAcross(x, NAMED + last, 0);
    assert (x + NAMED)[|x + NAMED| - 1] == NAMED[8];
    ClosesTwice(x + NAMED, r);
    UnwrapsMatched(token, r);
    MiddleOf(x, NAMED, last, r);
  }

  lemma {:induction false} UnwrapsMatched(token: string, r: nat)
    requires token != "" && token[0] == '[' && RunLength(token, 0) == r <= 2 && ClosingRun(token, ']') == r
    requires |token| > 2 * r
    ensures UnwrapTagToken(token) == Wrapped(token[r..|token| - r], '[', r)
  {
    assert IsOpener(token[0]) && Closer(token[0]) == ']';
    hide RunLength, ClosingRun, IsOpener, Closer;
  }

  lemma {:induction false} MiddleOf(x: string, middle: string, last: string, r: nat)
    requires r == |last| <= |x|
    ensures var token := x + middle + last; token[r..|token| - r] == x[r..] + middle
  {
  }

  lemma {:induction false} RunFits(s: string, r: nat)
    requires s != "" && RunLength(s, 0) == r
    ensures r <= |s|
  {
  }

  lemma {:induction false} ClosesTwice(s: string, r: nat)
    requires s != "" && s[|s| - 1] != ']' && r in {1, 2}
    ensures ClosingRun(s + Repeat(']', r), ']') == r
  {
    var one := s + [']'];
    assert one[..|one| - 1] == s && ClosingRun(one, ']') == 1;
    if r == 1 {
      assert s + Repeat(']', 1) == one;
    } else {
      var two := s + Repeat(']', 2);
      assert two[..|two| - 1] == one;
    }
  }

  // ---------- marks in token lists ----------

  predicate GlobalIn(tokens: seq<string>, fold: string -> string) {
    NamesGlobal(tokens, "markdown", fold)
  }

  predicate ScopedIn(tokens: seq<string>, fold: string -> string) {
    NamesScoped(tokens, "latex", '[', 2, fold)
  }

  predicate Both(tags: string, fold: string -> string) {
    GlobalIn(Tokens(tags, 0), fold) && ScopedIn(Tokens(tags, 0), fold)
  }

  lemma {:induction false} MarksOfConcat(x: seq<string>, y: seq<string>, fold: string -> string)
    ensures GlobalIn(x + y, fold) <==> GlobalIn(x, fold) || GlobalIn(y, fold)
    ensures ScopedIn(x + y, fold) <==> ScopedIn(x, fold) || ScopedIn(y, fold)
  {
    hide UnwrapTagToken, IsMarker, ScopesRenderer;
    assert forall token :: token in x + y <==> token in x || token in y;
  }

  lemma {:induction false} MarksOfOne(token: string, fold: string -> string)
    ensures GlobalIn([token], fold) <==>
        UnwrapTagToken(token).Bare? && IsMarker(UnwrapTagToken(token).text, "markdown", fold)
    ensures ScopedIn([token], fold) <==> ScopesRenderer(UnwrapTagToken(token), "latex", '[', 2, fold)
  {
    hide UnwrapTagToken, IsMarker, ScopesRenderer;
    assert token in [token] && forall other :: other in [token] ==> other == token;
  }

  lemma {:induction false} MarkersMark(fold: string -> string)
    requires fold("LaTeX") == fold("latex")
    ensures GlobalIn([MARKDOWN], fold) && !ScopedIn([MARKDOWN], fold)
    ensures ScopedIn([LATEX], fold) && !GlobalIn([LATEX], fold)
    ensures !GlobalIn(["]"], fold) && !ScopedIn(["]"], fold)
  {
    MarkdownStandsAlone();
    LatexStandsAlone();
    MarksOfOne(MARKDOWN, fold);
    MarksOfOne(LATEX, fold);
    MarksOfOne("]", fold);
    assert MARKDOWN[1..] == "markdown";
    var word := "@LaTeX";
    OneWord(word);
    assert word[1..] == "LaTeX";
    assert word in Split(word, "") && IsMarker(word, "latex", fold);
  }

  lemma {:induction false} SplitAtSpace(a: string, b: string, word: string)
    ensures Split(a + (" " + b), word) == Split(a, word) + Split(b, "")
    decreases |a|
  {
    if a == "" {
      assert a + (" " + b) == " " + b && (" " + b)[1..] == b;
      assert Split(" " + b, word) == (if word == "" then [] else [word]) + Split(b, "");
    } else {
      assert (a + (" " + b))[1..] == a[1..] + (" " + b);
      if IsSpace(a[0]) {
        SplitAtSpace(a[1..], b, "");
        var head := if word == "" then [] else [word];
        assert head + (Split(a[1..], "") + Split(b, "")) == head + Split(a[1..], "") + Split(b, "");
      } else {
        SplitAtSpace(a[1..], b, word + [a[0]]);
      }
    }
  }

  /** Text after a double bracket that already names the renderer. */
  predicate NamesLatex(text: string, fold: string -> string) {
    exists word :: word in Split(text, "") && IsMarker(word, "latex", fold)
  }

  /** Of the marks, the swallowing token can carry the scoped one only, and only by text of its own. */
  lemma {:induction false} MarksFromRun(s: string, p: nat, fold: string -> string)
    requires fold("LaTeX") == fold("latex") && p < |s| && Blocked(s, p, TAIL) && !StartsComment(s, p)
    ensures !GlobalIn(Tokens(s + TAIL, p), fold)
    ensures ScopedIn(Tokens(s + TAIL, p), fold) <==> RunLength(s, p) == 2 && NamesLatex(s[p..][2..], fold)
  {
    ClosedByTail(s, p);
    TokensFromRun(s, p);
    UnwrapsSwallowing(s, p);
    var token := SwallowingToken(s, p);
    var r := RunLength(s, p);
    hide Tokens, UnwrapTagToken, Blocked, StartsComment, RunLength, IsMarker, Split;
    MarksOfOne(token, fold);
    MarkersMark(fold);
    MarksOfConcat([token], if r == 2 then [] else ["]"], fold);
    hide GlobalIn, ScopedIn;
    NoMarks(fold);
    if r == 2 {
      NamedBySplit(s[p..][2..], fold);
    }
  }

  lemma {:induction false} NoMarks(fold: string -> string)
    ensures !GlobalIn([], fold) && !ScopedIn([], fold)
  {
  }

  lemma {:induction false} NamedBySplit(text: string, fold: string -> string)
    ensures NamesLatex(text + (" " + "[[@LaTeX"), fold) <==> NamesLatex(text, fold)
  {
    var last := "[[@LaTeX";
    assert last == ['[', '[', '@', 'L', 'a', 'T', 'e', 'X'];
    SplitAtSpace(text, last, "");
    WordsOf(last, "");
    assert "" + last == last && Split(last, "") == [last];
    hide Split;
    assert forall word :: word in Split(text, "") + [last] <==> word in Split(text, "") || word == last;
    assert !IsMarker(last, "latex", fold);
    hide IsMarker;
  }

  // ---------- the two marks ----------

  lemma {:induction false} NotInMarkdown(needle: string)
    requires needle != "" && needle[0] in {']', '}', ')'}
    ensures Find(" " + MARKDOWN, needle, 0).None?
  {
    hide Find;
    assert MARKDOWN == ['@', 'm', 'a', 'r', 'k', 'd', 'o', 'w', 'n'];
    if Find(" " + MARKDOWN, needle, 0).Some? {
      FoundFirst(" " + MARKDOWN, needle);
    }
  }

  /** The markdown marker closes no brackets, so only an open comment is in its way. */
  lemma {:induction false} MarkdownClosesNothing(s: string, i: nat)
    requires i < |s| && Blocked(s, i, " " + MARKDOWN)
    ensures StartsComment(s, i) && Blocked(s, i, TAIL)
  {
    assert Needle(s, i) != "" && Needle(s, i)[0] == Closer(s[i]);
    NotInMarkdown(Needle(s, i));
    hide Find, Needle, RunLength, CloseOf, StartsComment, StartsWrapped;
  }

  lemma {:induction false} OpenForMarkdown(s: string, i: nat)
    requires Open(s, i, " " + MARKDOWN)
    ensures Open(s, i, TAIL)
    decreases |s| - i
  {
    if Blocked(s, i, " " + MARKDOWN) {
      MarkdownClosesNothing(s, i);
    } else {
      hide Blocked, At;
      OpenForMarkdown(s, At(s, i).to);
    }
  }

  lemma {:induction false} AppendMarkdown(tags: string)
    ensures Tokens(AppendTagToken(tags, MARKDOWN), 0)
      == Tokens(tags, 0) + (if Open(Strip(tags), 0, " " + MARKDOWN) then [] else [MARKDOWN])
  {
    var s, added := Strip(tags), " " + MARKDOWN;
    MarkdownStandsAlone();
    FirstOpenIsOpen(s, 0, added);
    AppendAddsOneToken(tags, MARKDOWN);
    if Open(s, 0, added) {
      MarkdownClosesNothing(s, FirstOpen(s, 0, added).value);
      Swallowed(tags, MARKDOWN);
    }
    hide Tokens, AppendTagToken, Open, FirstOpen, Strip;
  }

  /** What appending the LaTeX marker makes of the marks. */
  lemma {:induction false} AppendLatex(tags: string, fold: string -> string)
    requires fold("LaTeX") == fold("latex")
    ensures var s := Strip(tags);
      var tokens, after := Tokens(tags, 0), Tokens(AppendTagToken(tags, LATEX), 0);
      match FirstOpen(s, 0, TAIL)
      case None => after == tokens + [LATEX]
      case Some(p) =>
        if StartsComment(s, p) then after == tokens
        else
          && (GlobalIn(after, fold) <==> GlobalIn(Before(s, 0, TAIL), fold))
          && (ScopedIn(after, fold) <==>
              ScopedIn(Before(s, 0, TAIL), fold) || (RunLength(s, p) == 2 && NamesLatex(s[p..][2..], fold)))
          && (GlobalIn(Before(s, 0, TAIL), fold) ==> GlobalIn(tokens, fold))
          && (ScopedIn(Before(s, 0, TAIL), fold) ==> ScopedIn(tokens, fold))
  {
    hide Tokens, Blocked, GlobalIn, ScopedIn, NamesLatex, RunLength, Strip, StartsComment, Standalone, Open, Before;
    var s := Strip(tags);
    LatexStandsAlone();
    TailIs();
    FirstOpenIsOpen(s, 0, TAIL);
    AppendAddsOneToken(tags, LATEX);
    if FirstOpen(s, 0, TAIL).Some? {
      var p := FirstOpen(s, 0, TAIL).value;
      if StartsComment(s, p) {
        Swallowed(tags, LATEX);
      } else {
        ReadUpTo(s, TAIL, 0);
        TokensOfStripped(tags);
        MarksFromRun(s, p, fold);
        MarksOfConcat(Before(s, 0, TAIL), Tokens(s + TAIL, p), fold);
        MarksOfConcat(Before(s, 0, TAIL), Tokens(s, p), fold);
        assert AppendTagToken(tags, LATEX) == s + TAIL;
      }
    }
  }

  /** The markdown marker leaves a bracket run that the LaTeX marker closes as open as it was. */
  lemma {:induction false} StillBlocked(s: string, first: string, i: nat)
    requires i < |s| && first == " " + MARKDOWN && Blocked(s, i, TAIL) && !Blocked(s, i, first) && !StartsComment(s, i)
    ensures Blocked(s + first, i, TAIL)
  {
    assert (s + first)[i] == s[i];
    WrappedAcross(s, first, i);
    NeedleAcross(s, first, i);
    hide Find, RunLength, StartsComment, Needle;
  }

  lemma {:induction false} StillOpen(s: string, first: string, i: nat)
    requires first == " " + MARKDOWN && !Open(s, i, first) && FirstOpen(s, i, TAIL).Some?
    ensures FirstOpen(s + first, i, TAIL).Some? && Before(s + first, i, TAIL) == Before(s, i, TAIL)
    ensures !StartsComment(s, FirstOpen(s, i, TAIL).value)
    ensures FirstOpen(s + first, i, TAIL) == FirstOpen(s, i, TAIL)
    decreases |s| - i
  {
    NotOpenHere(s, first, i);
    if Blocked(s, i, TAIL) {
      CommentBlocks(s, i);
      StillBlocked(s, first, i);
    } else {
      NotBlockedStill(s, first, TAIL, i);
      AtAcross(s, first, i);
      hide Blocked, At, Open, StartsComment;
      StillOpen(s, first, At(s, i).to);
    }
  }

  lemma {:induction false} CommentBlocks(s: string, i: nat)
    requires i < |s| && Blocked(s, i, TAIL) && !Blocked(s, i, " " + MARKDOWN)
    ensures !StartsComment(s, i)
  {
  }

  lemma {:induction false} MarkLatexIs(tags: string, fold: string -> string)
    ensures var marked := if GlobalIn(Tokens(tags, 0), fold) then tags else AppendTagToken(tags, MARKDOWN);
      MarkLatex(tags, fold) == if ScopedIn(Tokens(marked, 0), fold) then marked else AppendTagToken(marked, LATEX)
  {
    hide Tokens, AppendTagToken, UnwrapTagToken, IsMarker, ScopesRenderer;
  }

  /** A note without either mark gets both exactly when nothing that they could close is left open. */
  lemma {:induction false} BothAdded(tags: string, fold: string -> string)
    requires fold("LaTeX") == fold("latex") && !GlobalIn(Tokens(tags, 0), fold) && !ScopedIn(Tokens(tags, 0), fold)
    ensures Both(MarkLatex(tags, fold), fold) <==> !Open(Strip(tags), 0, TAIL)
  {
    hide Tokens, GlobalIn, ScopedIn, Strip, Open, FirstOpen, Before, AppendTagToken, NamesLatex, RunLength;
    var marked := AppendTagToken(tags, MARKDOWN);
    AppendMarkdown(tags);
    MarkersMark(fold);
    MarksOfConcat(Tokens(tags, 0), [MARKDOWN], fold);
    assert Tokens(tags, 0) + [] == Tokens(tags, 0);
    MarkLatexIs(tags, fold);
    AppendLatex(marked, fold);
    MarksOfConcat(Tokens(marked, 0), [LATEX], fold);
    FirstOpenIsOpen(Strip(marked), 0, TAIL);
    FirstOpenIsOpen(Strip(tags), 0, TAIL);
    if Open(Strip(tags), 0, " " + MARKDOWN) {
      OpenForMarkdown(Strip(tags), 0);
    } else if Open(Strip(tags), 0, TAIL) {
      StripOfMarked(tags);
      StillOpen(Strip(tags), " " + MARKDOWN, 0);
      AppendLatex(tags, fold);
      BlockedAgain(Strip(tags), 0);
    } else {
      MarkedOnce(tags);
    }
  }

  /** At an open place that is no comment, the longer bar has no comment either. */
  lemma {:induction false} BlockedAgain(s: string, i: nat)
    requires i <= |s| && !Open(s, i, " " + MARKDOWN) && FirstOpen(s, i, TAIL).Some?
    ensures !StartsComment(s, FirstOpen(s, i, TAIL).value)
    ensures !StartsComment(s + (" " + MARKDOWN), FirstOpen(s, i, TAIL).value)
  {
    StillOpen(s, " " + MARKDOWN, i);
    var p := FirstOpen(s, i, TAIL).value;
    if !IsSpace(s[p]) { CommentAcross(s, " " + MARKDOWN, p); }
    assert (s + (" " + MARKDOWN))[p] == s[p];
  }

  lemma {:induction false} StripOfMarked(tags: string)
    requires Strip(tags) != ""
    ensures Strip(AppendTagToken(tags, MARKDOWN)) == Strip(tags) + (" " + MARKDOWN)
  {
    StripEnds(tags);
    assert MARKDOWN == ['@', 'm', 'a', 'r', 'k', 'd', 'o', 'w', 'n'];
    StrippedAlready(Strip(tags) + (" " + MARKDOWN));
  }

  /**
   Exactly when an imported note with LaTeX is seen as global markdown and scoped LaTeX.  A note that
   already names the renderer needs the markdown tag, or room for it: no comment left open.  Any
   other needs a bar that leaves open neither a comment nor a bracket run that the LaTeX marker
   closes; or else, where that run is a double bracket, the renderer's name after it and the
   markdown tag before it.
   */
  lemma {:induction false} LatexNotesAreMarked(tags: string, fold: string -> string)
    requires fold("LaTeX") == fold("latex")
    ensures Both(MarkLatex(tags, fold), fold) <==>
      var s := Strip(tags);
      if ScopedIn(Tokens(tags, 0), fold) then GlobalIn(Tokens(tags, 0), fold) || !Open(s, 0, " " + MARKDOWN)
      else match FirstOpen(s, 0, TAIL)
           case None => true
           case Some(p) =>
             && !StartsComment(s, p) && RunLength(s, p) == 2
             && NamesLatex(s[p..][2..], fold) && GlobalIn(Before(s, 0, TAIL), fold)
  {
    hide Tokens, GlobalIn, ScopedIn, Strip, Open, FirstOpen, Before, AppendTagToken, NamesLatex, RunLength,
      StartsComment;
    var tokens := Tokens(tags, 0);
    MarkLatexIs(tags, fold);
    AppendLatex(tags, fold);
    MarkersMark(fold);
    if ScopedIn(tokens, fold) {
      AppendMarkdown(tags);
      MarksOfConcat(tokens, [MARKDOWN], fold);
      assert tokens + [] == tokens;
    } else if GlobalIn(tokens, fold) {
      MarksOfConcat(tokens, [LATEX], fold);
    } else {
      BothAdded(tags, fold);
      FirstOpenIsOpen(Strip(tags), 0, TAIL);
      NotGlobalBefore(tags, fold);
    }
  }

  lemma {:induction false} NotGlobalBefore(tags: string, fold: string -> string)
    requires !GlobalIn(Tokens(tags, 0), fold)
    ensures FirstOpen(Strip(tags), 0, TAIL).Some? ==> !GlobalIn(Before(Strip(tags), 0, TAIL), fold)
  {
    hide Tokens, GlobalIn, Strip, Before, FirstOpen;
    if FirstOpen(Strip(tags), 0, TAIL).Some? {
      TailIs();
      ReadUpTo(Strip(tags), TAIL, 0);
      TokensOfStripped(tags);
      MarksOfConcat(Before(Strip(tags), 0, TAIL), Tokens(Strip(tags), FirstOpen(Strip(tags), 0, TAIL).value), fold);
    }
  }
}
