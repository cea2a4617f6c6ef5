/** What the style filters make of the text of an attribute, declaration by declaration. */
module StyleText {
  import opened Wrappers
  import opened PythonText
  import opened StyleFilter

  predicate Blanks(s: string) {
    forall i :: 0 <= i < |s| ==> IsSpace(s[i])
  }

  lemma {:induction false} StripLeftOf(a: string, core: string)
    requires Blanks(a) && (core == "" || !IsSpace(core[0]))
    ensures StripLeft(a + core) == core
  {
    if a == "" {
      assert a + core == core;
    } else {
      assert (a + core)[1..] == a[1..] + core;
      StripLeftOf(a[1..], core);
    }
  }

  lemma {:induction false} StripRightOf(core: string, d: string)
    requires Blanks(d) && (core == "" || !IsSpace(core[|core| - 1]))
    ensures StripRight(core + d) == core
  {
    if d == "" {
      assert core + d == core;
    } else {
      assert (core + d)[..|core + d| - 1] == core + d[..|d| - 1];
      StripRightOf(core, d[..|d| - 1]);
    }
  }

  /** strip() takes the space around, and no more. */
  lemma {:induction false} StripAround(a: string, core: string, d: string)
    requires Blanks(a) && Blanks(d) && Trimmed(core)
    ensures Strip(a + core + d) == core
  {
    if core == "" {
      assert a + core + d == a + d && Blanks(a + d) && a + d == (a + d) + "";
      StripLeftOf(a + d, "");
    } else {
      assert a + core + d == a + (core + d);
      StripLeftOf(a, core + d);
      StripRightOf(core, d);
    }
  }

  /** One declaration, with any space around its parts. */
  function Declared(a: string, name: string, b: string, c: string, value: string, d: string): string {
    a + name + b + ":" + c + value + d
  }

  predicate Plain(s: string) {
    s != "" && Trimmed(s) && Without(s, ':') && Without(s, ';')
  }

  /** The colon after a name, and what is on both sides. */
  lemma {:induction false} ColonAfter(name: string, b: string, tail: string)
    requires Blanks(b) && Without(name, ':')
    ensures var text, i := name + b + ":" + tail, |name + b|;
      FirstAt(text, ':') == i < |text| && text[..i] == name + b && text[i + 1..] == tail
  {
    var text, i := name + b + ":" + tail, |name + b|;
    assert !IsSpace(':');
    hide IsSpace;
    assert text[..i] == name + b && text[i] == ':' && text[i + 1..] == tail;
    assert Without(name + b, ':');
    FirstIs(text, ':', i);
  }

  /** It is read as its name, folded, and its value, which may have more colons. */
  lemma {:induction false} DeclarationIsRead(policy: Policy, a: string, name: string, b: string, c: string,
        value: string, d: string)
    requires Blanks(a) && Blanks(b) && Blanks(c) && Blanks(d) && Plain(name) && value != "" && Trimmed(value)
    ensures Parse(policy, Declared(a, name, b, c, value, d)) == Some((policy.fold(name), value))
  {
    hide IsSpace, Strip, FirstAt, Without, Blanks;
    var text := name + b + ":" + c + value;
    assert text == name + b + ":" + (c + value);
    assert Declared(a, name, b, c, value, d) == a + text + d;
    assert text[0] == name[0] && text[|text| - 1] == value[|value| - 1];
    StripAround(a, text, d);
    ColonAfter(name, b, c + value);
    NoBlanks();
    StripAround("", name, b);
    StripAround(c, value, "");
    assert "" + name + b == name + b && c + value + "" == c + value;
  }

  lemma {:induction false} NoBlanks()
    ensures Blanks("")
  {
  }

  lemma {:induction false} FirstOfNone(s: string, c: char)
    requires Without(s, c)
    ensures FirstAt(s, c) == |s|
  {
    if s != "" {
      FirstOfNone(s[1..], c);
    }
  }

  /** Text without a colon declares nothing. */
  lemma {:induction false} NoColonNothing(policy: Policy, part: string)
    requires Without(part, ':')
    ensures Parse(policy, part) == None
  {
    StripIsPiece(part, ':');
    FirstOfNone(Strip(part), ':');
  }

  /** A property that the policy lists, is known, and may stand on this element with this value. */
  predicate Fits(policy: Policy, place: Place, name: string, value: string) {
    && name in policy.allowed && name in policy.known && policy.safe(name, value, place.isImage)
    && !(name in policy.block && !place.isBlock) && !(name in policy.image && !place.isImage)
  }

  /** Of the declarations before a semicolon and after it, the first is kept exactly if it fits. */
  lemma {:induction false} FirstIsKept(policy: Policy, place: Place, a: string, name: string, b: string, c: string,
        value: string, d: string, more: string)
    requires Blanks(a) && Blanks(b) && Blanks(c) && Blanks(d)
    requires Plain(name) && value != "" && Trimmed(value) && Without(value, ';')
    ensures var rest := Kept(policy, place, Cut(more, ';', ""));
      Kept(policy, place, Cut(Declared(a, name, b, c, value, d) + ";" + more, ';', ""))
        == (if Fits(policy, place, policy.fold(name), value) then [(policy.fold(name), value)] else []) + rest
  {
    var part := Declared(a, name, b, c, value, d);
    DeclarationIsRead(policy, a, name, b, c, value, d);
    NoSemicolon(a, name, b, c, value, d);
    CutHead(part, more, ';', "");
    assert part + [';'] + more == part + ";" + more && "" + part == part;
    var parts := [part] + Cut(more, ';', "");
    assert parts[0] == part && parts[1..] == Cut(more, ';', "");
    hide Cut, Parse, Declared;
  }

  lemma {:induction false} NoSemicolon(a: string, name: string, b: string, c: string, value: string, d: string)
    requires Blanks(a) && Blanks(b) && Blanks(c) && Blanks(d) && Without(name, ';') && Without(value, ';')
    ensures Without(Declared(a, name, b, c, value, d), ';')
  {
    assert !IsSpace(';');
    assert Without(a, ';') && Without(b, ';') && Without(c, ';') && Without(d, ';');
  }

  /** The stored attribute: what is kept, written out with "; " between and ";" at the end, or no attribute. */
  lemma {:induction false} StoredIsWritten(policy: Policy, place: Place, raw: string)
    ensures var ds := Kept(policy, place, Cut(raw, ';', ""));
      Stored(policy, place, raw) ==
        if ds == [] then None else Some(WrittenOut(ds))
  {
    var ds := Kept(policy, place, Cut(raw, ';', ""));
    if ds != [] { WrittenIs(ds); }
  }

  function WrittenOut(ds: seq<Declaration>): string
    requires ds != []
  {
    ds[0].0 + ": " + ds[0].1 + ";" + if |ds| == 1 then "" else " " + WrittenOut(ds[1..])
  }

  lemma {:induction false} WrittenIs(ds: seq<Declaration>)
    requires ds != []
    ensures Join(AllWritten(ds), "; ") + ";" == WrittenOut(ds)
  {
    var parts := AllWritten(ds);
    assert parts[0] == ds[0].0 + ": " + ds[0].1;
    if |ds| > 1 {
      WrittenIs(ds[1..]);
      assert parts[1..] == AllWritten(ds[1..]);
      assert "; " == ";" + " ";
      assert parts[0] + "; " + Join(parts[1..], "; ") + ";" == parts[0] + ";" + (" " + (Join(parts[1..], "; ") + ";"));
    }
  }

  // ---------- the size factor ----------

  predicate Numerals(s: string) {
    s != "" && forall i :: 0 <= i < |s| ==> s[i] in "0123456789"
  }

  /** Digits, or digits, a point and digits. */
  ghost predicate Decimal(s: string) {
    Numerals(s) || exists whole, part :: Numerals(whole) && Numerals(part) && s == whole + "." + part
  }

  lemma {:induction false} NumeralsAre(s: string)
    ensures Numerals(s) <==> Digits(s)
    ensures Digits(s) ==> Without(s, '.')
  {
  }

  lemma {:induction false} DecimalIs(s: string)
    ensures IsNumber(s) <==> Decimal(s)
  {
    var i := FirstAt(s, '.');
    NumeralsAre(s);
    if i < |s| {
      NumeralsAre(s[..i]);
      NumeralsAre(s[i + 1..]);
      assert s == s[..i] + "." + s[i + 1..];
      assert !Numerals(s);
    } else {
      assert s[..i] == s;
    }
    hide Numerals;
    if whole, part :| Numerals(whole) && Numerals(part) && s == whole + "." + part {
      NumeralsAre(whole);
      NumeralsAre(part);
      assert s[|whole|] == '.' && s[..|whole|] == whole && s[|whole| + 1..] == part;
      FirstIs(s, '.', |whole|);
    }
  }

  /** The size factor is that property with a decimal number, and nothing else. */
  lemma {:induction false} SizeFactorExactly(name: string, b: string, c: string, value: string)
    requires Blanks(b) && Blanks(c) && Plain(name) && (value == "" || !IsSpace(value[0]))
    ensures IsSizeFactor(name + b + ":" + c + value) <==> name == "--meta-size-factor" && Decimal(value)
  {
    assert name + b + ":" + c + value == name + b + ":" + (c + value);
    ColonAfter(name, b, c + value);
    StripRightOf(name, b);
    StripLeftOf(c, value);
    DecimalIs(value);
  }

  // ---------- classes ----------

  /** Of the words of a class attribute exactly those let through stay, in their order. */
  lemma {:induction false} ClassesExactly(words: seq<string>, ok: string -> bool)
    requires forall i :: 0 <= i < |words| ==> IsWord(words[i])
    ensures Classes(Join(words, " "), ok) ==
      if Chosen(words, ok) == [] then None else Some(Join(Chosen(words, ok), " "))
  {
    WordsAgain(words, _ => true);
    hide Split, Join, IsWord;
    ChosenAre(words, ok);
  }

  /** Taken from the end. */
  function Chosen(words: seq<string>, ok: string -> bool): seq<string> {
    if words == [] then []
    else
      var last := words[|words| - 1];
      if ok(last) then Chosen(words[..|words| - 1], ok) + [last] else Chosen(words[..|words| - 1], ok)
  }

  lemma {:induction false} ChosenAre(words: seq<string>, ok: string -> bool)
    ensures Filtered(words, ok) == Chosen(words, ok)
  {
    if words != [] {
      var front, last := words[..|words| - 1], words[|words| - 1];
      ChosenAre(front, ok);
      FilteredMore(front, last, ok);
      assert words == front + [last];
    }
  }

  lemma {:induction false} FilteredMore(words: seq<string>, last: string, ok: string -> bool)
    ensures Filtered(words + [last], ok) == Filtered(words, ok) + (if ok(last) then [last] else [])
  {
    var longer := words + [last];
    if words != [] {
      FilteredMore(words[1..], last, ok);
      assert longer[1..] == words[1..] + [last];
    }
  }
}
