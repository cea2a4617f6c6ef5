/** The grammar of a tag bar, said on the text: words, comments, and tokens wrapped in matching brackets. */
module TagGrammar {
  import opened Wrappers
  import opened PythonText
  import opened TagBar

  /** A pair of brackets. */
  predicate Pair(opener: char, closer: char) {
    (opener, closer) in {('[', ']'), ('{', '}'), ('(', ')')}
  }

  /** Text without the closing bracket, and not beginning with the opening one. */
  predicate Inner(text: string, opener: char, closer: char) {
    (text != "" ==> text[0] != opener) && forall i :: 0 <= i < |text| ==> text[i] != closer
  }

  function Wrap(opener: char, closer: char, depth: nat, text: string): string {
    Repeat(opener, depth) + text + Repeat(closer, depth)
  }

  lemma {:induction false} RunOf(c: char, n: nat, rest: string, i: nat)
    requires i < n && (rest == "" || rest[0] != c)
    ensures RunLength(Repeat(c, n) + rest, i) == n - i
    decreases n - i
  {
    if i + 1 < n {
      RunOf(c, n, rest, i + 1);
    }
  }

  lemma {:induction false} PairsDiffer(opener: char, closer: char)
    requires Pair(opener, closer)
    ensures IsOpener(opener) && Closer(opener) == closer != opener && !IsSpace(opener) && !IsSpace(closer)
    ensures opener != '/' && closer != '/'
  {
  }

  /** The first run of closing brackets after text that has none of them. */
  lemma {:induction false} FirstClose(before: string, text: string, closer: char, depth: nat, rest: string, j: nat)
    requires depth > 0 && j <= |text| && forall i :: 0 <= i < |text| ==> text[i] != closer
    ensures var s := before + text + Repeat(closer, depth) + rest;
      Find(s, Repeat(closer, depth), |before| + j) == Some(|before| + |text|)
    decreases |text| - j
  {
    var needle := Repeat(closer, depth);
    var s := before + text + needle + rest;
    var at := |before| + j;
    assert needle[0] == closer && |needle| == depth;
    hide Repeat;
    if j == |text| {
      assert s[at..at + depth] == needle;
    } else {
      assert s[at] == text[j] != closer;
      if at + depth <= |s| {
        assert s[at..at + depth][0] == s[at];
      }
      assert !StartsAt(s, needle, at);
      hide StartsAt;
      FirstClose(before, text, closer, depth, rest, j + 1);
    }
  }

  /** Up to three brackets of one kind wrap whatever is between them, spaces included, into one token. */
  lemma {:induction false} WrappedIsOneToken(opener: char, closer: char, depth: nat, text: string, rest: string)
    requires Pair(opener, closer) && 1 <= depth <= 3 && Inner(text, opener, closer)
    ensures Tokens(Wrap(opener, closer, depth, text) + rest, 0)
      == [Wrap(opener, closer, depth, text)] + Tokens(rest, 0)
  {
    var token := Wrap(opener, closer, depth, text);
    var s := token + rest;
    hide Tokens, At, Find, IsSpace, IsOpener, Wrap, Repeat, Pair, Inner;
    WrappedAt(opener, closer, depth, text, rest);
    TokensStep(s, 0);
    TokensAfter(token, rest, 0);
  }

  lemma {:induction false} WrappedStart(opener: char, closer: char, depth: nat, text: string, rest: string)
    requires depth > 0 && opener != closer && Inner(text, opener, closer)
    ensures var s := Wrap(opener, closer, depth, text) + rest;
      s != "" && s[0] == opener && RunLength(s, 0) == depth
  {
    hide RunLength;
    var tail := text + Repeat(closer, depth) + rest;
    assert Wrap(opener, closer, depth, text) + rest == Repeat(opener, depth) + tail;
    assert tail[0] == (if text == "" then closer else text[0]);
    RunOf(opener, depth, tail, 0);
  }

  lemma {:induction false} WrappedAt(opener: char, closer: char, depth: nat, text: string, rest: string)
    requires Pair(opener, closer) && 1 <= depth <= 3 && Inner(text, opener, closer)
    ensures var token := Wrap(opener, closer, depth, text);
      token + rest != "" && At(token + rest, 0) == Token(token, |token|)
  {
    var token := Wrap(opener, closer, depth, text);
    var s := token + rest;
    PairsDiffer(opener, closer);
    hide Find, RunLength, IsSpace, Pair, IsOpener, Closer;
    WrappedStart(opener, closer, depth, text, rest);
    CommentSlash(s, 0);
    FirstClose(Repeat(opener, depth), text, closer, depth, rest, 0);
    assert s == Repeat(opener, depth) + text + Repeat(closer, depth) + rest;
    assert s[..|token|] == token == s[0..|token|];
  }

  lemma {:induction false} DeepStart(opener: char, closer: char, depth: nat, tail: string)
    requires Pair(opener, closer) && depth > 3 && (tail != "" ==> tail[0] != opener)
    ensures var s := Repeat(opener, depth) + tail;
      && s[0] == opener && !IsSpace(s[0]) && !StartsComment(s, 0) && !StartsWrapped(s, 0)
  {
    PairsDiffer(opener, closer);
    RunOf(opener, depth, tail, 0);
    CommentSlash(Repeat(opener, depth) + tail, 0);
    hide RunLength, IsSpace, IsOpener, Pair;
  }

  /** More than three wrap nothing: what they begin is a word, up to the next space. */
  lemma {:induction false} DeeperIsAWord(opener: char, closer: char, depth: nat, word: string, rest: string)
    requires Pair(opener, closer) && depth > 3 && (word + rest != "" ==> (word + rest)[0] != opener)
    requires (forall i :: 0 <= i < |word| ==> !IsSpace(word[i])) && (rest != "" ==> IsSpace(rest[0]))
    ensures var first := Repeat(opener, depth) + word;
      Tokens(first + rest, 0) == [first] + Tokens(rest, 0)
  {
    var first := Repeat(opener, depth) + word;
    var s := first + rest;
    PairsDiffer(opener, closer);
    assert s == Repeat(opener, depth) + (word + rest);
    DeepStart(opener, closer, depth, word + rest);
    hide IsSpace, Pair, Repeat, StartsWrapped, StartsComment, Find, RunLength, IsOpener;
    WordToTheEnd(first, 0);
    WordAcross(first, rest, 0);
    hide WordEnd, Tokens;
    assert s[0..|first|] == first;
    assert At(s, 0) == Token(first, |first|);
    hide At;
    TokensStep(s, 0);
    TokensAfter(first, rest, 0);
  }

  /** A comment goes, up to the first end after its two characters; one without an end takes the rest of the bar. */
  lemma {:induction false} CommentGoes(text: string, rest: string)
    requires forall i :: 0 <= i < |text| ==> text[i] != '*'
    ensures Tokens("/*" + text + "*/" + rest, 0) == Tokens(rest, 0)
    ensures Tokens("/*" + text, 0) == []
  {
    var comment := "/*" + text + "*/";
    var s := comment + rest;
    assert "/*" == ['/', '*'] && "*/" == ['*', '/'];
    CommentEnd(text, "*/" + rest, 0);
    assert s == "/*" + text + ("*/" + rest);
    assert s[0..2] == "/*" && ("/*" + text)[0..2] == "/*";
    NoCommentEndIn(text, 0);
    hide Find;
    assert At(s, 0) == Skip(|comment|);
    hide Tokens, At;
    TokensStep(s, 0);
    TokensAfter(comment, rest, 0);
    TokensStep("/*" + text, 0);
  }

  lemma {:induction false} CommentEnd(text: string, end: string, j: nat)
    requires j <= |text| && (forall i :: 0 <= i < |text| ==> text[i] != '*') && "*/" <= end
    ensures Find("/*" + text + end, "*/", 2 + j) == Some(2 + |text|)
    decreases |text| - j
  {
    var s := "/*" + text + end;
    if j == |text| {
      assert s[2 + j..4 + j] == end[..2] == "*/";
    } else {
      assert s[2 + j] == text[j];
      assert s[2 + j..4 + j][0] == s[2 + j];
      CommentEnd(text, end, j + 1);
    }
  }

  lemma {:induction false} NoCommentEndIn(text: string, j: nat)
    requires j <= |text| && forall i :: 0 <= i < |text| ==> text[i] != '*'
    ensures Find("/*" + text, "*/", 2 + j) == None
    decreases |text| - j
  {
    var s := "/*" + text;
    if j < |text| {
      assert s[2 + j] == text[j];
      if 4 + j <= |s| { assert s[2 + j..4 + j][0] == s[2 + j]; }
      NoCommentEndIn(text, j + 1);
    }
  }

  /** Words are the tokens between spaces. */
  lemma {:induction false} WordThenSpace(word: string, rest: string)
    requires word != "" && !IsOpener(word[0]) && word[0] != '/' && (forall i :: 0 <= i < |word| ==> !IsSpace(word[i]))
    requires rest != "" ==> IsSpace(rest[0])
    ensures Tokens(word + rest, 0) == [word] + Tokens(rest, 0)
  {
    var s := word + rest;
    CommentSlash(s, 0);
    WordToTheEnd(word, 0);
    WordAcross(word, rest, 0);
    assert s[0] == word[0] && s[0..|word|] == word;
    assert At(s, 0) == Token(word, |word|);
    hide Tokens, At, IsSpace;
    TokensStep(s, 0);
    TokensAfter(word, rest, 0);
  }

  // ---------- unwrapping ----------

  lemma {:induction false} ClosingRunOf(before: string, c: char, n: nat)
    requires before == "" || before[|before| - 1] != c
    ensures ClosingRun(before + Repeat(c, n), c) == n
  {
    var s := before + Repeat(c, n);
    if n > 0 {
      ClosingRunOf(before, c, n - 1);
      assert s[..|s| - 1] == before + Repeat(c, n - 1);
    }
  }

  /** A token is unwrapped exactly if it begins with up to three brackets, ends with as many of the closing kind,
      and has something between them. */
  lemma {:induction false} UnwrapsExactly(opener: char, closer: char, m: nat, n: nat, text: string)
    requires Pair(opener, closer) && m > 0 && text != "" && text[0] != opener && text[|text| - 1] != closer
    ensures var token := Repeat(opener, m) + text + Repeat(closer, n);
      UnwrapTagToken(token) == if m == n && m <= 3 then Wrapped(text, opener, m) else Bare(token)
  {
    PairsDiffer(opener, closer);
    var token := Repeat(opener, m) + text + Repeat(closer, n);
    assert token == Repeat(opener, m) + (text + Repeat(closer, n)) && token[0] == opener;
    RunOf(opener, m, text + Repeat(closer, n), 0);
    ClosingRunOf(Repeat(opener, m) + text, closer, n);
    if m == n {
      assert token[m..|token| - m] == text;
    }
    hide RunLength, ClosingRun, Pair;
  }

  /** Brackets around nothing, and text that begins with no bracket, stay as they are. */
  lemma {:induction false} OthersStayBare(opener: char, closer: char, depth: nat, text: string)
    requires Pair(opener, closer) && depth > 0
    ensures var token := Repeat(opener, depth) + Repeat(closer, depth); UnwrapTagToken(token) == Bare(token)
    ensures text == "" || text[0] !in {'[', '{', '('} ==> UnwrapTagToken(text) == Bare(text)
  {
    PairsDiffer(opener, closer);
    var token := Repeat(opener, depth) + Repeat(closer, depth);
    RunOf(opener, depth, Repeat(closer, depth), 0);
    assert token[0] == opener;
    hide RunLength, ClosingRun, Pair;
  }

  /** A wrapped token scopes a renderer exactly if it has these brackets, so many of them, and the renderer's name,
      after "@" and in whatever case, among the words between them. */
  lemma {:induction false} ScopesExactly(opener: char, closer: char, m: nat, text: string, name: string,
        wanted: char, depth: nat, fold: string -> string)
    requires Pair(opener, closer) && 1 <= m <= 3 && text != "" && text[0] != opener && text[|text| - 1] != closer
    ensures ScopesRenderer(UnwrapTagToken(Wrap(opener, closer, m, text)), name, wanted, depth, fold) <==>
      && opener == wanted && m == depth
      && exists word :: ("@" + word) in Split(text, "") && fold(word) == fold(name)
  {
    UnwrapsExactly(opener, closer, m, m, text);
    hide Split, UnwrapTagToken, Pair;
    if word :| word in Split(text, "") && IsMarker(word, name, fold) {
      assert word == "@" + word[1..];
    }
    if word :| ("@" + word) in Split(text, "") && fold(word) == fold(name) {
      assert ("@" + word)[1..] == word && IsMarker("@" + word, name, fold);
    }
  }

  /** A token without brackets is a global tag exactly if it is that name after "@". */
  lemma {:induction false} GlobalExactly(word: string, name: string, fold: string -> string)
    requires word != "" && word[0] !in {'[', '{', '('}
    ensures NamesGlobal([word], name, fold) <==> word[0] == '@' && fold(word[1..]) == fold(name)
  {
    OthersStayBare('[', ']', 1, word);
    hide UnwrapTagToken;
    assert word in [word];
  }
}
