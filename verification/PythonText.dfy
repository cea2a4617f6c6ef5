/** The string operations of Python that several parts of the program rely on. */
module PythonText {
  import opened Wrappers

  /** str.isspace() of one character; split() and strip() drop the same ones. */
  predicate IsSpace(c: char) {
    var n := c as int;
    || 0x09 <= n <= 0x0d || 0x1c <= n <= 0x20 || n == 0x85 || n == 0xa0 || n == 0x1680
    || 0x2000 <= n <= 0x200a || n == 0x2028 || n == 0x2029 || n == 0x202f || n == 0x205f || n == 0x3000
  }

  predicate StartsAt(s: string, needle: string, i: nat) {
    i + |needle| <= |s| && s[i..i + |needle|] == needle
  }

  /** s.find(needle, from): the first place at or after `from`. */
  function Find(s: string, needle: string, from: nat): (r: Option<nat>)
    ensures r.Some? ==> from <= r.value && StartsAt(s, needle, r.value)
    decreases |s| - from
  {
    if from > |s| then None
    else if StartsAt(s, needle, from) then Some(from)
    else Find(s, needle, from + 1)
  }

  lemma {:induction false} FindIsFirst(s: string, needle: string, from: nat, j: nat)
    requires from <= j && StartsAt(s, needle, j)
    ensures Find(s, needle, from).Some? && Find(s, needle, from).value <= j
    decreases |s| - from
  {
    if !StartsAt(s, needle, from) {
      FindIsFirst(s, needle, from + 1, j);
    }
  }

  function StripLeft(s: string): (r: string)
    ensures r != "" ==> !IsSpace(r[0])
  {
    if s != "" && IsSpace(s[0]) then StripLeft(s[1..]) else s
  }

  function StripRight(s: string): (r: string)
    ensures r != "" ==> !IsSpace(r[|r| - 1])
    ensures |r| <= |s| && r == s[..|r|] && forall i :: |r| <= i < |s| ==> IsSpace(s[i])
  {
    if s != "" && IsSpace(s[|s| - 1]) then StripRight(s[..|s| - 1]) else s
  }

  function Strip(s: string): string {
    StripRight(StripLeft(s))
  }

  /** str.split(), with `word` read so far. */
  function Split(s: string, word: string): seq<string>
    decreases |s|
  {
    if s == "" then if word == "" then [] else [word]
    else if IsSpace(s[0]) then (if word == "" then [] else [word]) + Split(s[1..], "")
    else Split(s[1..], word + [s[0]])
  }

  /** Tabs, line ends and the like are space; no printing ASCII character is. */
  lemma {:induction false} SpacesAre(c: char)
    ensures c in {' ', '\t', '\n', '\r', '\U{b}', '\U{c}', '\U{a0}', '\U{3000}'} ==> IsSpace(c)
    ensures 0x21 <= c as int <= 0x7e ==> !IsSpace(c)
  {
  }

  /** Words are what stands between any spaces. */
  lemma {:induction false} SplitWords(spaces: string, word: string, rest: string)
    requires (forall i :: 0 <= i < |spaces| ==> IsSpace(spaces[i])) && (rest != "" ==> IsSpace(rest[0]))
    requires word != "" && forall i :: 0 <= i < |word| ==> !IsSpace(word[i])
    ensures Split(spaces + word + rest, "") == [word] + Split(rest, "") && Split(spaces, "") == []
    decreases |spaces|
  {
    if spaces == "" {
      SplitRest(word, rest, "");
      assert spaces + word + rest == word + rest && "" + word == word;
    } else {
      SplitWords(spaces[1..], word, rest);
      assert (spaces + word + rest)[1..] == spaces[1..] + word + rest;
    }
  }

  lemma {:induction false} SplitRest(word: string, rest: string, before: string)
    requires (forall i :: 0 <= i < |word| ==> !IsSpace(word[i])) && before + word != ""
    requires rest != "" ==> IsSpace(rest[0])
    ensures Split(word + rest, before) == [before + word] + Split(rest, "")
    decreases |word|
  {
    if word == "" {
      assert word + rest == rest && before + word == before;
    } else {
      assert (word + rest)[1..] == word[1..] + rest && before + [word[0]] + word[1..] == before + word;
      SplitRest(word[1..], rest, before + [word[0]]);
    }
  }
}
