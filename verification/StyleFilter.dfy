/** The passes over style and class attributes, stored and rendered, and why passing again changes nothing. */
module StyleFilter {
  import opened Wrappers
  import opened PythonText

  type Declaration = (string, string)

  /** The style policy of stored notes.  `safe` is the check of one value, `fold` str.casefold(). */
  datatype Policy = Policy(
    allowed: set<string>, block: set<string>, image: set<string>, known: set<string>,
    safe: (string, string, bool) -> bool, fold: string -> string)

  /** What kind of tag carries the attribute. */
  datatype Place = Place(isBlock: bool, isImage: bool)

  const SIZE_FACTOR := "--meta-size-factor"

  predicate Without(s: string, c: char) {
    forall i :: 0 <= i < |s| ==> s[i] != c
  }

  predicate Trimmed(s: string) {
    s == "" || (!IsSpace(s[0]) && !IsSpace(s[|s| - 1]))
  }

  /** Property names are as casefold and strip leave them, and the size factor is none of them. */
  ghost predicate PolicyOk(policy: Policy) {
    SIZE_FACTOR !in policy.allowed && forall name :: name in policy.allowed ==> NameOk(policy, name)
  }

  ghost predicate NameOk(policy: Policy, name: string) {
    name != "" && Trimmed(name) && Without(name, ':') && Without(name, ';') && policy.fold(name) == name
  }

  /** allowed_style_properties of note-html-policy.json */
  const STYLE_PROPERTIES := {
    "font-style", "font-weight", "height", "margin-left", "max-height", "max-width", "padding-left", "text-decoration",
    "text-decoration-line", "text-indent", "vertical-align", "white-space", "width"}

  /** The policy that is shipped meets the condition. */
  lemma {:induction false} ShippedPolicyOk(policy: Policy)
    requires policy.allowed == STYLE_PROPERTIES && forall name :: name in STYLE_PROPERTIES ==> policy.fold(name) == name
    ensures PolicyOk(policy)
  {
    forall name | name in STYLE_PROPERTIES
      ensures NameOk(policy, name)
    {
      assert |name| <= 20;
    }
    assert SIZE_FACTOR[0] == '-';
  }

  // ---------- splitting and joining ----------

  /** s.split(c), with `part` read so far. */
  function Cut(s: string, c: char, part: string): seq<string>
    decreases |s|
  {
    if s == "" then [part]
    else if s[0] == c then [part] + Cut(s[1..], c, "")
    else Cut(s[1..], c, part + [s[0]])
  }

  function Join(parts: seq<string>, between: string): string {
    if parts == [] then ""
    else if |parts| == 1 then parts[0]
    else parts[0] + between + Join(parts[1..], between)
  }

  /** The first place of `c`, or the end. */
  function FirstAt(s: string, c: char): (i: nat)
    ensures i <= |s| && Without(s[..i], c) && (i < |s| ==> s[i] == c)
  {
    if s == "" || s[0] == c then 0
    else
      assert s[1..][..FirstAt(s[1..], c)] == s[1..1 + FirstAt(s[1..], c)];
      1 + FirstAt(s[1..], c)
  }

  // ---------- the stored-note pass ----------

  function Parse(policy: Policy, part: string): Option<Declaration> {
    var text := Strip(part);
    var i := FirstAt(text, ':');
    if i == |text| then None
    else Some((policy.fold(Strip(text[..i])), Strip(text[i + 1..])))
  }

  predicate Accepts(policy: Policy, place: Place, d: Declaration) {
    && d.0 in policy.allowed && d.0 in policy.known
    && (d.0 in policy.block ==> place.isBlock) && (d.0 in policy.image ==> place.isImage)
    && policy.safe(d.0, d.1, place.isImage)
  }

  /** The accepted declarations, in order. */
  function Kept(policy: Policy, place: Place, parts: seq<string>): seq<Declaration> {
    if parts == [] then []
    else
      var d := Parse(policy, parts[0]);
      (if d.Some? && Accepts(policy, place, d.value) then [d.value] else []) + Kept(policy, place, parts[1..])
  }

  function Written(d: Declaration): string {
    d.0 + ": " + d.1
  }

  function AllWritten(ds: seq<Declaration>): (r: seq<string>)
    ensures |r| == |ds|
  {
    if ds == [] then [] else [Written(ds[0])] + AllWritten(ds[1..])
  }

  function Stored(policy: Policy, place: Place, raw: string): Option<string> {
    var ds := Kept(policy, place, Cut(raw, ';', ""));
    if ds == [] then None else Some(Join(AllWritten(ds), "; ") + ";")
  }

  /** _sanitize_style */
  method SanitizeStyle(policy: Policy, place: Place, raw: string) returns (r: Option<string>)
    ensures r == Stored(policy, place, raw)
  {
    hide Parse, Accepts, Kept;
    var parts := Cut(raw, ';', "");
    assert parts[0..] == parts;
    var declarations: seq<string> := [];
    for i := 0 to |parts|
      invariant AllWritten(Kept(policy, place, parts)) == declarations + AllWritten(Kept(policy, place, parts[i..]))
    {
      KeptStep(policy, place, parts[i..]);
      assert parts[i..][1..] == parts[i + 1..];
      var parsed := Parse(policy, parts[i]);
      if parsed.None? { continue; }
      var (name, value) := parsed.value;
      if !Accepts(policy, place, (name, value)) { continue; }
      declarations := declarations + [name + ": " + value];
    }
    KeptOfNone(policy, place, parts[|parts|..]);
    assert declarations == AllWritten(Kept(policy, place, parts));
    if declarations == [] { return None; }
    return Some(Join(declarations, "; ") + ";");
  }

  lemma {:induction false} KeptOfNone(policy: Policy, place: Place, parts: seq<string>)
    requires parts == []
    ensures AllWritten(Kept(policy, place, parts)) == []
  {
  }

  lemma {:induction false} KeptStep(policy: Policy, place: Place, parts: seq<string>)
    requires parts != []
    ensures var d := Parse(policy, parts[0]);
      AllWritten(Kept(policy, place, parts)) ==
        (if d.Some? && Accepts(policy, place, d.value) then [Written(d.value)] else [])
          + AllWritten(Kept(policy, place, parts[1..]))
  {
    hide Parse, Accepts;
    var d, rest := Parse(policy, parts[0]), Kept(policy, place, parts[1..]);
    if d.Some? && Accepts(policy, place, d.value) {
      assert ([d.value] + rest)[1..] == rest;
    } else {
      assert [] + rest == rest;
    }
  }

  // ---------- the rendered pass ----------

  predicate Digits(s: string) {
    s != "" && forall i :: 0 <= i < |s| ==> '0' <= s[i] <= '9'
  }

  predicate IsNumber(s: string) {
    var i := FirstAt(s, '.');
    if i == |s| then Digits(s) else Digits(s[..i]) && Digits(s[i + 1..])
  }

  predicate IsSizeFactor(text: string) {
    var i := FirstAt(text, ':');
    i < |text| && StripRight(text[..i]) == SIZE_FACTOR && IsNumber(StripLeft(text[i + 1..]))
  }

  /** The parts that are not blank, trimmed. */
  function Texts(parts: seq<string>): seq<string> {
    if parts == [] then []
    else (if Strip(parts[0]) != "" then [Strip(parts[0])] else []) + Texts(parts[1..])
  }

  /** The size factors, or the others. */
  function Pick(texts: seq<string>, sizes: bool): seq<string> {
    if texts == [] then []
    else (if IsSizeFactor(texts[0]) == sizes then [texts[0]] else []) + Pick(texts[1..], sizes)
  }

  function Cleaned(policy: Policy, place: Place, others: seq<string>): seq<string> {
    if Join(others, "; ") == "" then []
    else match Stored(policy, place, Join(others, "; "))
         case None => []
         case Some(s) => [s]
  }

  /** _sanitize_renderer_style */
  function Rendered(policy: Policy, place: Place, raw: string): Option<string> {
    var texts := Texts(Cut(raw, ';', ""));
    var kept := Pick(texts, true) + Cleaned(policy, place, Pick(texts, false));
    if kept == [] then None else Some(Join(kept, "; "))
  }

  // ---------- text lemmas ----------

  lemma {:induction false} StripLeftIsTail(s: string) returns (n: nat)
    ensures n <= |s| && StripLeft(s) == s[n..]
  {
    n := 0;
    if s != "" && IsSpace(s[0]) {
      var m := StripLeftIsTail(s[1..]);
      n := m + 1;
    }
  }

  lemma {:induction false} StripIsPiece(s: string, c: char)
    ensures Trimmed(Strip(s)) && (Without(s, c) ==> Without(Strip(s), c))
  {
    var n := StripLeftIsTail(s);
  }

  lemma {:induction false} StripTrimmed(s: string)
    requires Trimmed(s)
    ensures Strip(s) == s && Strip(" " + s) == s
  {
    assert (" " + s)[1..] == s;
  }

  lemma {:induction false} FirstIs(s: string, c: char, i: nat)
    requires i < |s| && s[i] == c && Without(s[..i], c)
    ensures FirstAt(s, c) == i
  {
  }

  lemma {:induction false} CutWithout(s: string, c: char, part: string)
    requires Without(part, c)
    ensures forall p :: p in Cut(s, c, part) ==> Without(p, c)
    decreases |s|
  {
    if s != "" {
      CutWithout(s[1..], c, if s[0] == c then "" else part + [s[0]]);
    }
  }

  lemma {:induction false} CutHead(p: string, rest: string, c: char, pre: string)
    requires Without(p, c)
    ensures Cut(p + [c] + rest, c, pre) == [pre + p] + Cut(rest, c, "")
    ensures Cut(p, c, pre) == [pre + p]
    decreases |p|
  {
    if p == "" {
      assert (p + [c] + rest)[1..] == rest && pre + p == pre;
    } else {
      CutHead(p[1..], rest, c, pre + [p[0]]);
      assert (p + [c] + rest)[1..] == p[1..] + [c] + rest;
      assert pre + [p[0]] + p[1..] == pre + p;
    }
  }

  /** What splitting joined parts gives: all but the first begin with a space. */
  function Spaced(ps: seq<string>, pre: string): seq<string> {
    if ps == [] then [] else [pre + ps[0]] + Spaced(ps[1..], " ")
  }

  lemma {:induction false} CutJoined(ps: seq<string>, pre: string)
    requires ps != [] && forall p :: p in ps ==> Without(p, ';')
    ensures Cut(Join(ps, "; "), ';', pre) == Spaced(ps, pre)
    ensures Cut(Join(ps, "; ") + ";", ';', pre) == Spaced(ps, pre) + [""]
    decreases |ps|
  {
    if |ps| == 1 {
      CutHead(ps[0], "", ';', pre);
      assert ps[0] + [';'] + "" == Join(ps, "; ") + ";";
      assert ps[1..] == [];
    } else {
      var rest := Join(ps[1..], "; ");
      CutJoined(ps[1..], " ");
      CutHead(ps[0], " " + rest, ';', pre);
      CutHead(ps[0], " " + rest + ";", ';', pre);
      assert Join(ps, "; ") == ps[0] + [';'] + (" " + rest);
      assert Join(ps, "; ") + ";" == ps[0] + [';'] + (" " + rest + ";");
      StartsSpaced(rest);
      StartsSpaced(rest + ";");
      assert " " + (rest + ";") == " " + rest + ";";
    }
  }

  lemma {:induction false} StartsSpaced(s: string)
    ensures Cut(" " + s, ';', "") == Cut(s, ';', " ")
  {
    assert (" " + s)[1..] == s && "" + [' '] == " ";
  }

  // ---------- declarations ----------

  /** An accepted declaration whose value is as parsing leaves it. */
  ghost predicate Neat(policy: Policy, place: Place, d: Declaration) {
    Accepts(policy, place, d) && Trimmed(d.1) && Without(d.1, ';')
  }

  ghost predicate AllNeat(policy: Policy, place: Place, ds: seq<Declaration>) {
    forall d :: d in ds ==> Neat(policy, place, d)
  }

  lemma {:induction false} KeptAreNeat(policy: Policy, place: Place, parts: seq<string>)
    requires forall p :: p in parts ==> Without(p, ';')
    ensures AllNeat(policy, place, Kept(policy, place, parts))
  {
    hide Accepts;
    if parts != [] {
      KeptAreNeat(policy, place, parts[1..]);
      ParsedIsNeat(policy, parts[0]);
    }
  }

  lemma {:induction false} ParsedIsNeat(policy: Policy, part: string)
    requires Without(part, ';')
    ensures Parse(policy, part).Some? ==>
        Trimmed(Parse(policy, part).value.1) && Without(Parse(policy, part).value.1, ';')
  {
    hide Strip;
    var text := Strip(part);
    StripIsPiece(part, ';');
    var i := FirstAt(text, ':');
    if i < |text| {
      StripIsPiece(text[i + 1..], ';');
    }
  }

  /** A written declaration reads back, trimmed or not, with a space before it or not. */
  lemma {:induction false} ParseWritten(policy: Policy, place: Place, d: Declaration)
    requires PolicyOk(policy) && Neat(policy, place, d)
    ensures Parse(policy, Written(d)) == Some(d) == Parse(policy, " " + Written(d))
    ensures Parse(policy, Strip(Written(d))) == Some(d) == Parse(policy, " " + Strip(Written(d)))
    ensures Strip(Written(d)) != "" && Without(Strip(Written(d)), ';') && Without(Written(d), ';')
    ensures !IsSizeFactor(Strip(Written(d)))
  {
    assert NameOk(policy, d.0);
    hide Accepts, PolicyOk, NameOk, IsSizeFactor, FirstAt, Strip, Parse, Written;
    var text := Strip(Written(d));
    StripWritten(d.0, d.1);
    SpaceAhead(Written(d));
    StripTrimmed(text);
    ColonIn(d.0, d.1, text);
    StripTrimmed(d.0);
    StripTrimmed(d.1);
    StripTrimmed("");
    NotASizeFactor(policy, text, d.0);
    WithoutWritten(d.0, d.1);
    ParseOf(policy, Written(d), text, d);
    ParseOf(policy, " " + Written(d), text, d);
    ParseOf(policy, text, text, d);
    ParseOf(policy, " " + text, text, d);
  }

  lemma {:induction false} ParseOf(policy: Policy, part: string, text: string, d: Declaration)
    requires Strip(part) == text && policy.fold(d.0) == d.0 && FirstAt(text, ':') == |d.0| < |text|
    requires Strip(text[..|d.0|]) == d.0 && Strip(text[|d.0| + 1..]) == d.1
    ensures Parse(policy, part) == Some(d)
  {
    hide Strip, FirstAt;
  }

  lemma {:induction false} WithoutWritten(name: string, value: string)
    requires Without(name, ';') && Without(value, ';')
    ensures Without(name + ": " + value, ';')
  {
  }

  lemma {:induction false} ColonIn(name: string, value: string, text: string)
    requires Without(name, ':') && text == name + (if value == "" then ":" else ": " + value)
    ensures FirstAt(text, ':') == |name| < |text| && text[..|name|] == name
    ensures text[|name| + 1..] == if value == "" then "" else " " + value
    ensures Without(name, ';') && Without(value, ';') ==> Without(text, ';')
  {
    hide FirstAt;
    assert text[..|name|] == name;
    FirstIs(text, ':', |name|);
  }

  lemma {:induction false} NotASizeFactor(policy: Policy, text: string, name: string)
    requires name != SIZE_FACTOR && Trimmed(name) && FirstAt(text, ':') == |name| <= |text| && text[..|name|] == name
    ensures !IsSizeFactor(text)
  {
    StripTrimmed(name);
  }

  lemma {:induction false} SpaceAhead(s: string)
    ensures Strip(" " + s) == Strip(s)
  {
    assert (" " + s)[1..] == s;
  }

  lemma {:induction false} StripWritten(name: string, value: string)
    requires name != "" && Trimmed(name) && Trimmed(value)
    ensures Strip(name + ": " + value) == name + (if value == "" then ":" else ": " + value)
    ensures Trimmed(Strip(name + ": " + value))
  {
    var s := name + ": " + value;
    assert StripLeft(s) == s;
    if value == "" {
      assert s[..|s| - 1] == name + ":";
      assert StripRight(name + ":") == name + ":";
    } else {
      assert s == name + (": " + value);
    }
  }

  // ---------- passing again ----------

  lemma {:induction false} NeatRest(policy: Policy, place: Place, ds: seq<Declaration>)
    requires AllNeat(policy, place, ds) && ds != []
    ensures Neat(policy, place, ds[0]) && AllNeat(policy, place, ds[1..])
  {
    hide Neat;
    assert ds[0] in ds;
  }

  /** Written declarations, split again, are kept as they are. */
  lemma {:induction false} KeptAgain(policy: Policy, place: Place, ds: seq<Declaration>, pre: string)
    requires PolicyOk(policy) && AllNeat(policy, place, ds) && pre in {"", " "}
    ensures Kept(policy, place, Spaced(AllWritten(ds), pre) + [""]) == ds
    ensures Kept(policy, place, Spaced(Stripped(AllWritten(ds)), pre)) == ds
  {
    hide Parse, PolicyOk, AllNeat, Strip, Written, Kept, Accepts, Without, Trimmed;
    if ds == [] {
      BlankIsNothing(policy, place);
      assert Spaced(AllWritten(ds), pre) + [""] == [""];
    } else {
      NeatRest(policy, place, ds);
      KeptAgain(policy, place, ds[1..], " ");
      ParseWritten(policy, place, ds[0]);
      var w, rest := Written(ds[0]), AllWritten(ds[1..]);
      assert "" + w == w && "" + Strip(w) == Strip(w);
      KeptFirst(policy, place, pre + w, Spaced(rest, " ") + [""], ds[0]);
      KeptFirst(policy, place, pre + Strip(w), Spaced(Stripped(rest), " "), ds[0]);
      assert Spaced(AllWritten(ds), pre) + [""] == [pre + w] + (Spaced(rest, " ") + [""]);
      assert Spaced(Stripped(AllWritten(ds)), pre) == [pre + Strip(w)] + Spaced(Stripped(rest), " ");
    }
  }

  lemma {:induction false} KeptFirst(policy: Policy, place: Place, part: string, rest: seq<string>, d: Declaration)
    requires Parse(policy, part) == Some(d) && Neat(policy, place, d)
    ensures Kept(policy, place, [part] + rest) == [d] + Kept(policy, place, rest)
  {
    hide Parse, Accepts;
    assert ([part] + rest)[1..] == rest;
  }

  function Stripped(ps: seq<string>): seq<string> {
    if ps == [] then [] else [Strip(ps[0])] + Stripped(ps[1..])
  }

  lemma {:induction false} BlankIsNothing(policy: Policy, place: Place)
    ensures Kept(policy, place, [""]) == Kept(policy, place, []) == []
  {
    assert Parse(policy, "").None?;
  }

  lemma {:induction false} WrittenParts(policy: Policy, place: Place, ds: seq<Declaration>)
    requires PolicyOk(policy) && AllNeat(policy, place, ds)
    ensures forall w :: w in AllWritten(ds) ==> Without(w, ';')
    ensures forall w :: w in Stripped(AllWritten(ds)) ==> Without(w, ';') && w != "" && !IsSizeFactor(w)
    ensures |Stripped(AllWritten(ds))| == |ds|
  {
    hide PolicyOk, AllNeat, Strip, Written, IsSizeFactor, Without;
    if ds != [] {
      NeatRest(policy, place, ds);
      ParseWritten(policy, place, ds[0]);
      WrittenParts(policy, place, ds[1..]);
    }
  }

  lemma {:induction false} NoneNeat(policy: Policy, place: Place)
    ensures AllNeat(policy, place, [])
  {
  }

  /** The declarations kept from a raw attribute. */
  lemma {:induction false} KeptNeat(policy: Policy, place: Place, raw: string)
    ensures AllNeat(policy, place, Kept(policy, place, Cut(raw, ';', "")))
  {
    CutWithout(raw, ';', "");
    KeptAreNeat(policy, place, Cut(raw, ';', ""));
  }

  lemma {:induction false} StoredAgain(policy: Policy, place: Place, ds: seq<Declaration>)
    requires PolicyOk(policy) && AllNeat(policy, place, ds) && ds != []
    ensures Stored(policy, place, Join(AllWritten(ds), "; ") + ";") == Some(Join(AllWritten(ds), "; ") + ";")
    ensures Stored(policy, place, Join(Stripped(AllWritten(ds)), "; ")) == Some(Join(AllWritten(ds), "; ") + ";")
    ensures Join(Stripped(AllWritten(ds)), "; ") != ""
  {
    hide PolicyOk, AllNeat, Kept, Strip, IsSizeFactor;
    WrittenParts(policy, place, ds);
    CutJoined(AllWritten(ds), "");
    CutJoined(Stripped(AllWritten(ds)), "");
    KeptAgain(policy, place, ds, "");
    assert Stripped(AllWritten(ds))[0] in Stripped(AllWritten(ds));
  }

  /** Cleaning a stored style again changes nothing. */
  lemma {:induction false} StoredIsStable(policy: Policy, place: Place, raw: string)
    requires PolicyOk(policy) && Stored(policy, place, raw).Some?
    ensures Stored(policy, place, Stored(policy, place, raw).value) == Stored(policy, place, raw)
  {
    hide PolicyOk, AllNeat, Kept, AllWritten;
    KeptNeat(policy, place, raw);
    StoredAgain(policy, place, Kept(policy, place, Cut(raw, ';', "")));
  }

  // ---------- the rendered pass over its own output ----------

  predicate Piece(t: string) {
    t != "" && Trimmed(t) && Without(t, ';')
  }

  ghost predicate SizeParts(fs: seq<string>) {
    forall i :: 0 <= i < |fs| ==> Piece(fs[i]) && IsSizeFactor(fs[i])
  }

  lemma {:induction false} PickedSizes(parts: seq<string>)
    requires forall i :: 0 <= i < |parts| ==> Without(parts[i], ';')
    ensures SizeParts(Pick(Texts(parts), true))
  {
    hide Strip, Without, Trimmed, IsSizeFactor;
    if parts != [] {
      PickedSizes(parts[1..]);
      StripIsPiece(parts[0], ';');
      var t, rest := Strip(parts[0]), Texts(parts[1..]);
      assert [] + rest == rest && ([t] + rest)[1..] == rest;
    }
  }

  lemma {:induction false} SizesSplit(fs: seq<string>, ws: seq<string>)
    requires SizeParts(fs) && forall i :: 0 <= i < |ws| ==> !IsSizeFactor(ws[i])
    ensures Pick(fs + ws, true) == fs && Pick(fs + ws, false) == ws
    decreases |fs| + |ws|
  {
    hide IsSizeFactor, Piece;
    if fs != [] {
      SizesSplit(fs[1..], ws);
      assert (fs + ws)[1..] == fs[1..] + ws;
    } else if ws != [] {
      SizesSplit(fs, ws[1..]);
      assert fs + ws == ws && fs + ws[1..] == ws[1..];
    } else {
      assert fs + ws == [];
    }
  }

  /** Parts with a space before them, trimmed. */
  lemma {:induction false} TextsOfSpaced(ps: seq<string>, pre: string)
    requires pre in {"", " "} && forall i :: 0 <= i < |ps| ==> Strip(ps[i]) != ""
    ensures Texts(Spaced(ps, pre)) == Texts(Spaced(ps, pre) + [""]) == Stripped(ps)
  {
    hide Strip;
    var all := Spaced(ps, pre);
    if ps == [] {
      StripTrimmed("");
      assert all + [""] == [""];
    } else {
      TextsOfSpaced(ps[1..], " ");
      SpaceAhead(ps[0]);
      assert "" + ps[0] == ps[0];
      assert (all + [""])[1..] == Spaced(ps[1..], " ") + [""];
    }
  }

  lemma {:induction false} StrippedParts(fs: seq<string>, ws: seq<string>)
    requires SizeParts(fs)
    ensures Stripped(fs + ws) == fs + Stripped(ws)
  {
    hide Strip, IsSizeFactor, Without;
    if fs == [] {
      assert fs + ws == ws && fs + Stripped(ws) == Stripped(ws);
    } else {
      StrippedParts(fs[1..], ws);
      StripTrimmed(fs[0]);
      assert (fs + ws)[1..] == fs[1..] + ws;
    }
  }

  /** Size factors and then written declarations, joined and split, come apart again. */
  lemma {:induction false} ComesApart(fs: seq<string>, ws: seq<string>)
    requires SizeParts(fs) && forall i :: 0 <= i < |Stripped(ws)| ==>
        Stripped(ws)[i] != "" && !IsSizeFactor(Stripped(ws)[i])
    ensures var texts := fs + Stripped(ws);
      && Texts(Spaced(fs + ws, "")) == texts && Texts(Spaced(fs + ws, "") + [""]) == texts
      && Pick(texts, true) == fs && Pick(texts, false) == Stripped(ws)
  {
    hide Strip, IsSizeFactor, Without, Texts, Pick, Spaced, Trimmed;
    StrippedParts(fs, ws);
    SizesSplit(fs, Stripped(ws));
    StrippedAt(fs + ws);
    forall i | 0 <= i < |fs + ws|
      ensures Strip((fs + ws)[i]) != ""
    {
      assert Stripped(fs + ws)[i] == Strip((fs + ws)[i]);
      assert i < |fs| ==> Piece(fs[i]);
    }
    TextsOfSpaced(fs + ws, "");
  }

  lemma {:induction false} StrippedAt(ps: seq<string>)
    ensures |Stripped(ps)| == |ps| && forall i :: 0 <= i < |ps| ==> Stripped(ps)[i] == Strip(ps[i])
  {
    hide Strip;
    if ps != [] {
      StrippedAt(ps[1..]);
    }
  }

  lemma {:induction false} JoinMore(fs: seq<string>, ws: seq<string>)
    requires ws != []
    ensures Join(fs + [Join(ws, "; ") + ";"], "; ") == Join(fs + ws, "; ") + ";"
  {
    if fs == [] {
      assert fs + ws == ws && fs + [Join(ws, "; ") + ";"] == [Join(ws, "; ") + ";"];
    } else {
      JoinMore(fs[1..], ws);
      assert (fs + ws)[1..] == fs[1..] + ws;
      var more := fs + [Join(ws, "; ") + ";"];
      assert more[1..] == fs[1..] + [Join(ws, "; ") + ";"];
      assert fs[0] + "; " + (Join(fs[1..] + ws, "; ") + ";") == fs[0] + "; " + Join(fs[1..] + ws, "; ") + ";";
    }
  }

  /** Rendering size factors and kept declarations gives them back. */
  lemma {:induction false} RenderedParts(policy: Policy, place: Place, fs: seq<string>, ds: seq<Declaration>)
    requires PolicyOk(policy) && SizeParts(fs) && AllNeat(policy, place, ds) && fs + AllWritten(ds) != []
    ensures var out := if ds == [] then Join(fs, "; ") else Join(fs + AllWritten(ds), "; ") + ";";
      Rendered(policy, place, out) == Some(out)
  {
    hide PolicyOk, AllNeat, Strip, IsSizeFactor, Stored, Kept;
    var ws := AllWritten(ds);
    WrittenParts(policy, place, ds);
    assert forall p :: p in fs + ws ==> Without(p, ';');
    CutJoined(fs + ws, "");
    assert forall i :: 0 <= i < |Stripped(ws)| ==> Stripped(ws)[i] in Stripped(ws);
    ComesApart(fs, ws);
    hide Without, Texts, Cut, Pick;
    if ds == [] {
      assert fs + ws == fs && fs + [] == fs;
    } else {
      StoredAgain(policy, place, ds);
      JoinMore(fs, ws);
    }
  }

  /** The rendered pass leaves a stored style as it is. */
  lemma {:induction false} RenderedKeepsStored(policy: Policy, place: Place, raw: string)
    requires PolicyOk(policy) && Stored(policy, place, raw).Some?
    ensures Rendered(policy, place, Stored(policy, place, raw).value) == Stored(policy, place, raw)
  {
    hide PolicyOk, AllNeat, Kept, Rendered, Strip;
    var ds := Kept(policy, place, Cut(raw, ';', ""));
    KeptNeat(policy, place, raw);
    RenderedParts(policy, place, [], ds);
    assert [] + AllWritten(ds) == AllWritten(ds);
  }

  /** Cleaning a rendered style again changes nothing. */
  lemma {:induction false} RenderedIsStable(policy: Policy, place: Place, raw: string)
    requires PolicyOk(policy) && Rendered(policy, place, raw).Some?
    ensures Rendered(policy, place, Rendered(policy, place, raw).value) == Rendered(policy, place, raw)
  {
    hide PolicyOk, AllNeat, Kept, Strip, IsSizeFactor, Texts, Cut, Pick, Without, SizeParts, Trimmed;
    var texts := Texts(Cut(raw, ';', ""));
    CutWithout(raw, ';', "");
    PickedSizes(Cut(raw, ';', ""));
    var fs, others := Pick(texts, true), Join(Pick(texts, false), "; ");
    var ds := if others == "" then [] else Kept(policy, place, Cut(others, ';', ""));
    KeptNeat(policy, place, others);
    NoneNeat(policy, place);
    if ds == [] {
      assert fs + [] == fs;
    } else {
      JoinMore(fs, AllWritten(ds));
    }
    assert |AllWritten(ds)| == |ds| && (ds != [] || fs != []);
    RenderedParts(policy, place, fs, ds);
  }

  // ---------- class names ----------

  function Filtered(words: seq<string>, ok: string -> bool): seq<string> {
    if words == [] then [] else (if ok(words[0]) then [words[0]] else []) + Filtered(words[1..], ok)
  }

  /** _sanitize_class_attribute and _sanitize_renderer_classes, with the names each lets through. */
  function Classes(value: string, ok: string -> bool): Option<string> {
    var kept := Filtered(Split(value, ""), ok);
    if kept == [] then None else Some(Join(kept, " "))
  }

  predicate IsWord(w: string) {
    w != "" && forall i :: 0 <= i < |w| ==> !IsSpace(w[i])
  }

  lemma {:induction false} SplitGivesWords(s: string, word: string)
    requires word == "" || IsWord(word)
    ensures forall i :: 0 <= i < |Split(s, word)| ==> IsWord(Split(s, word)[i])
    decreases |s|
  {
    if s != "" {
      SplitGivesWords(s[1..], if IsSpace(s[0]) then "" else word + [s[0]]);
    }
  }

  lemma {:induction false} FilteredWords(words: seq<string>, ok: string -> bool)
    requires forall i :: 0 <= i < |words| ==> IsWord(words[i])
    ensures forall i :: 0 <= i < |Filtered(words, ok)| ==> IsWord(Filtered(words, ok)[i]) && ok(Filtered(words, ok)[i])
  {
    hide IsWord;
    if words != [] {
      FilteredWords(words[1..], ok);
    }
  }

  lemma {:induction false} WordSplits(w: string, word: string, rest: string)
    requires IsWord(word + w)
    ensures Split(w + " " + rest, word) == [word + w] + Split(rest, "") && Split(w, word) == [word + w]
    decreases |w|
  {
    if w == "" {
      assert word + w == word && (w + " " + rest)[1..] == rest;
    } else {
      assert (word + w)[|word|] == w[0];
      assert word + [w[0]] + w[1..] == word + w && (w + " " + rest)[1..] == w[1..] + " " + rest;
      WordSplits(w[1..], word + [w[0]], rest);
    }
  }

  lemma {:induction false} WordsAgain(words: seq<string>, ok: string -> bool)
    requires forall i :: 0 <= i < |words| ==> IsWord(words[i]) && ok(words[i])
    ensures Split(Join(words, " "), "") == words && Filtered(words, ok) == words
  {
    hide IsWord;
    if words == [] {
    } else {
      WordsAgain(words[1..], ok);
      assert "" + words[0] == words[0];
      WordSplits(words[0], "", Join(words[1..], " "));
      assert |words| == 1 ==> words == [words[0]];
    }
  }

  /** A later pass that lets through at least as many names changes nothing: the same pass, or the rendered
      one after the stored one. */
  lemma {:induction false} ClassesAreStable(value: string, ok: string -> bool, later: string -> bool)
    requires Classes(value, ok).Some? && forall w :: ok(w) ==> later(w)
    ensures Classes(Classes(value, ok).value, later) == Classes(value, ok)
  {
    hide IsWord, Split, Filtered, Join;
    SplitGivesWords(value, "");
    FilteredWords(Split(value, ""), ok);
    WordsAgain(Filtered(Split(value, ""), ok), later);
  }
}
