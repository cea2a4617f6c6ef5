/** The two startup checks of exception handlers, against what a handler can do when it runs. */
module HandlerChecks {
  import opened Wrappers

  /**
   One statement.  `If` is an instanceof guard when its condition is `!(x instanceof A)` with an
   allow-listed class; `Act` is an expression, `rethrow` when it calls rethrowUnexpectedError.
   `Else` is the else clause of a JavaScript parse tree, `Try` also stands for a `with` that may swallow.
   */
  datatype Stmt =
    | Throw | Return | Break | Continue | Act(rethrow: bool)
    | If(guard: bool, consequence: Stmt, alternative: Option<Stmt>)
    | Else(body: Stmt) | Block(body_: seq<Stmt>) | Loop(body: Stmt)
    | Try(body: Stmt, handler: Stmt) | Define(body: Stmt)

  datatype Outcome = Normal | Thrown | Returned | Broke | Continued

  // ---------- runs ----------

  /**
   `s` can complete with outcome `o`, and `waived` says whether an allow-listed test was true on
   the way.  Conditions may come out either way; `n` bounds the turns of the loops.
   */
  ghost predicate Runs(n: nat, s: Stmt, o: Outcome, waived: bool)
    decreases n, s, 0
  {
    match s
    case Throw => o == Thrown && !waived
    case Return => o in {Returned, Thrown} && !waived
    case Break => o == Broke && !waived
    case Continue => o == Continued && !waived
    case Act(rethrow) => (o == Thrown && !waived) || (o == Normal && waived == rethrow)
    case If(guard, consequence, alternative) =>
      || (o == Thrown && !waived)
      || Runs(n, consequence, o, waived)
      || (match alternative
          case None => o == Normal && waived == guard
          case Some(other) => exists later: bool :: Runs(n, other, o, later) && waived == (guard || later))
    case Else(body) => Runs(n, body, o, waived)
    case Block(body) => RunsAll(n, body, o, waived)
    case Loop(body) =>
      || (o in {Normal, Thrown} && !waived)
      || (n > 0 && RunsTurn(n - 1, s, o, waived))
    case Try(body, handler) =>
      || (o != Thrown && Runs(n, body, o, waived))
      || (exists first: bool, later: bool ::
           Runs(n, body, Thrown, first) && Runs(n, handler, o, later) && waived == (first || later))
    case Define(_) => o == Normal && !waived
  }

  /** One turn of a loop, and what follows it. */
  ghost predicate RunsTurn(n: nat, loop: Stmt, o: Outcome, waived: bool)
    decreases n, loop, 3
  {
    loop.Loop? && exists turn: Outcome, first: bool ::
        Runs(n, loop.body, turn, first) && RunsOn(n, loop, o, waived, turn, first)
  }

  /** What may follow one turn of a loop. */
  ghost predicate RunsOn(n: nat, loop: Stmt, o: Outcome, waived: bool, turn: Outcome, first: bool)
    decreases n, loop, 2
  {
    match turn
    case Broke => o == Normal && waived == first
    case Thrown => o == turn && waived == first
    case Returned => o == turn && waived == first
    case _ => exists later: bool :: Runs(n, loop, o, later) && waived == (first || later)
  }

  ghost predicate RunsAll(n: nat, body: seq<Stmt>, o: Outcome, waived: bool)
    decreases n, body, 1
  {
    if body == [] then o == Normal && !waived
    else
      || (o != Normal && Runs(n, body[0], o, waived))
      || exists first: bool, later: bool ::
           Runs(n, body[0], Normal, first) && RunsAll(n, body[1..], o, later) && waived == (first || later)
  }

  // ---------- shapes ----------

  /** No break or continue leaves the statement. */
  ghost predicate Closed(s: Stmt, inLoop: bool) {
    match s
    case Break => inLoop
    case Continue => inLoop
    case If(_, consequence, alternative) =>
      Closed(consequence, inLoop) && (alternative.Some? ==> Closed(alternative.value, inLoop))
    case Else(body) => Closed(body, inLoop)
    case Block(body) => forall i :: 0 <= i < |body| ==> Closed(body[i], inLoop)
    case Loop(body) => Closed(body, true)
    case Try(body, handler) => Closed(body, inLoop) && Closed(handler, inLoop)
    case _ => true
  }

  /** A return anywhere below, nested functions included. */
  predicate ContainsReturn(s: Stmt) {
    match s
    case Return => true
    case If(_, consequence, alternative) =>
      ContainsReturn(consequence) || (alternative.Some? && ContainsReturn(alternative.value))
    case Else(body) => ContainsReturn(body)
    case Block(body) => exists i :: 0 <= i < |body| && ContainsReturn(body[i])
    case Loop(body) => ContainsReturn(body)
    case Try(body, handler) => ContainsReturn(body) || ContainsReturn(handler)
    case Define(body) => ContainsReturn(body)
    case _ => false
  }

  /** The statement and all statements inside it, nested functions included. */
  ghost function Parts(s: Stmt): set<Stmt>
    decreases s, 0
  {
    {s} + match s
          case If(_, consequence, alternative) =>
            Parts(consequence) + (if alternative.Some? then Parts(alternative.value) else {})
          case Else(body) => Parts(body)
          case Block(body) => PartsOfAll(body)
          case Loop(body) => Parts(body)
          case Try(body, handler) => Parts(body) + Parts(handler)
          case Define(body) => Parts(body)
          case _ => {}
  }

  ghost function PartsOfAll(body: seq<Stmt>): set<Stmt>
    decreases body, 1
  {
    if body == [] then {} else Parts(body[0]) + PartsOfAll(body[1..])
  }

  /** The walk over the tree finds a return exactly if there is one. */
  lemma {:induction false} ReturnIsFound(s: Stmt)
    ensures ContainsReturn(s) <==> Return in Parts(s)
    decreases s, 0
  {
    match s
    case If(_, consequence, alternative) =>
      ReturnIsFound(consequence);
      if alternative.Some? { ReturnIsFound(alternative.value); }
    case Else(body) => ReturnIsFound(body);
    case Block(body) => ReturnIsFoundInAll(body);
    case Loop(body) => ReturnIsFound(body);
    case Try(body, handler) =>
      ReturnIsFound(body);
      ReturnIsFound(handler);
    case Define(body) => ReturnIsFound(body);
    case _ =>
  }

  lemma {:induction false} ReturnIsFoundInAll(body: seq<Stmt>)
    ensures (exists i :: 0 <= i < |body| && ContainsReturn(body[i])) <==> Return in PartsOfAll(body)
    decreases body, 1
  {
    if body != [] {
      ReturnIsFound(body[0]);
      ReturnIsFoundInAll(body[1..]);
      if i :| 0 <= i < |body| && ContainsReturn(body[i]) {
        assert i > 0 ==> body[1..][i - 1] == body[i];
      }
      if i :| 0 <= i < |body[1..]| && ContainsReturn(body[1..][i]) {
        assert body[i + 1] == body[1..][i];
      }
    }
  }

  // ---------- how a statement can end ----------

  /** Read off the text: the ways a run in which no allow-listed test was true can end. */
  function Ends(s: Stmt): set<Outcome>
    decreases s, 0
  {
    match s
    case Throw => {Thrown}
    case Return => {Returned, Thrown}
    case Break => {Broke}
    case Continue => {Continued}
    case Act(rethrow) => if rethrow then {Thrown} else {Normal, Thrown}
    case If(guard, consequence, alternative) =>
      {Thrown} + Ends(consequence)
      + (if guard then {} else if alternative.None? then {Normal} else Ends(alternative.value))
    case Else(body) => Ends(body)
    case Block(body) => EndsAll(body)
    case Loop(body) => {Normal, Thrown} + Ends(body) * {Returned}
    case Try(body, handler) => (Ends(body) - {Thrown}) + (if Thrown in Ends(body) then Ends(handler) else {})
    case Define(_) => {Normal}
  }

  function EndsAll(body: seq<Stmt>): set<Outcome>
    decreases body, 1
  {
    if body == [] then {Normal}
    else (Ends(body[0]) - {Normal}) + (if Normal in Ends(body[0]) then EndsAll(body[1..]) else {})
  }

  /** Turns of loops that a run may need. */
  function Nesting(s: Stmt): nat
    decreases s, 0
  {
    match s
    case If(_, consequence, alternative) =>
      Max(Nesting(consequence), if alternative.Some? then Nesting(alternative.value) else 0)
    case Else(body) => Nesting(body)
    case Block(body) => NestingAll(body)
    case Loop(body) => 1 + Nesting(body)
    case Try(body, handler) => Max(Nesting(body), Nesting(handler))
    case _ => 0
  }

  function NestingAll(body: seq<Stmt>): nat
    decreases body, 1
  {
    if body == [] then 0 else Max(Nesting(body[0]), NestingAll(body[1..]))
  }

  function Max(a: nat, b: nat): nat {
    if a < b then b else a
  }

  lemma {:induction false} NoOtherEnd(n: nat, s: Stmt, o: Outcome)
    requires Runs(n, s, o, false)
    ensures o in Ends(s)
    decreases n, s, 0
  {
    match s
    case If(guard, consequence, alternative) =>
      if Runs(n, consequence, o, false) {
        NoOtherEnd(n, consequence, o);
      } else if alternative.Some? && o != Thrown {
        NoOtherEnd(n, alternative.value, o);
      }
    case Else(body) => NoOtherEnd(n, body, o);
    case Block(body) => NoOtherEndAll(n, body, o);
    case Loop(body) =>
      if o !in {Normal, Thrown} {
        var turn: Outcome, first: bool :| Runs(n - 1, body, turn, first) && RunsOn(n - 1, s, o, false, turn, first);
        NoOtherEnd(n - 1, if turn.Returned? then body else s, o);
      }
    case Try(body, handler) =>
      if o != Thrown && Runs(n, body, o, false) {
        NoOtherEnd(n, body, o);
      } else {
        NoOtherEnd(n, body, Thrown);
        NoOtherEnd(n, handler, o);
      }
    case _ =>
  }

  lemma {:induction false} NoOtherEndAll(n: nat, body: seq<Stmt>, o: Outcome)
    requires RunsAll(n, body, o, false)
    ensures o in EndsAll(body)
    decreases n, body, 1
  {
    if body != [] {
      if o != Normal && Runs(n, body[0], o, false) {
        NoOtherEnd(n, body[0], o);
      } else {
        NoOtherEnd(n, body[0], Normal);
        NoOtherEndAll(n, body[1..], o);
      }
    }
  }

  lemma {:induction false} EndsLikeThat(n: nat, s: Stmt, o: Outcome)
    requires o in Ends(s) && Nesting(s) <= n
    ensures Runs(n, s, o, false)
    decreases s, 0
  {
    match s
    case If(guard, consequence, alternative) =>
      if o in Ends(consequence) {
        EndsLikeThat(n, consequence, o);
      } else if o != Thrown && alternative.Some? {
        EndsLikeThat(n, alternative.value, o);
      }
    case Else(body) => EndsLikeThat(n, body, o);
    case Block(body) => EndsLikeThatAll(n, body, o);
    case Loop(body) =>
      if o.Returned? {
        EndsLikeThat(n - 1, body, Returned);
        assert RunsOn(n - 1, s, o, false, Returned, false);
        assert RunsTurn(n - 1, s, o, false);
      }
    case Try(body, handler) =>
      if o != Thrown && o in Ends(body) {
        EndsLikeThat(n, body, o);
      } else {
        EndsLikeThat(n, body, Thrown);
        EndsLikeThat(n, handler, o);
      }
    case _ =>
  }

  lemma {:induction false} EndsLikeThatAll(n: nat, body: seq<Stmt>, o: Outcome)
    requires o in EndsAll(body) && NestingAll(body) <= n
    ensures RunsAll(n, body, o, false)
    decreases body, 1
  {
    if body != [] {
      if o != Normal && o in Ends(body[0]) {
        EndsLikeThat(n, body[0], o);
      } else {
        EndsLikeThat(n, body[0], Normal);
        EndsLikeThatAll(n, body[1..], o);
        assert Runs(n, body[0], Normal, false) && RunsAll(n, body[1..], o, false);
      }
    }
  }

  /** The text says exactly how the runs without a true test can end. */
  lemma {:induction false} EndsExactly(s: Stmt, o: Outcome)
    ensures o in Ends(s) <==> exists n: nat :: Runs(n, s, o, false)
  {
    hide Ends, Nesting;
    if o in Ends(s) {
      var n := Nesting(s);
      EndsLikeThat(n, s, o);
      assert Runs(n, s, o, false);
    }
    if exists n: nat :: Runs(n, s, o, false) {
      var n: nat :| Runs(n, s, o, false);
      NoOtherEnd(n, s, o);
    }
  }

  // ---------- what makes a handler safe ----------

  /** Every completed run throws, or an allow-listed test was true on the way. */
  ghost predicate Safe(s: Stmt) {
    forall n: nat, o: Outcome, waived: bool :: Runs(n, s, o, waived) ==> o == Thrown || waived
  }

  lemma {:induction false} SafeExactly(s: Stmt)
    ensures Safe(s) <==> Ends(s) <= {Thrown}
  {
    hide Runs, Ends;
    if Ends(s) <= {Thrown} {
      forall n: nat, o: Outcome, waived: bool | Runs(n, s, o, waived)
        ensures o == Thrown || waived
      {
        if !waived { NoOtherEnd(n, s, o); }
      }
    }
    if Safe(s) {
      forall o | o in Ends(s)
        ensures o == Thrown
      {
        EndsLikeThat(Nesting(s), s, o);
      }
    }
  }

  /** A break or continue that leaves the statement can be reached. */
  predicate JumpsOut(s: Stmt) {
    Broke in Ends(s) || Continued in Ends(s)
  }

  lemma {:induction false} ClosedStaysIn(s: Stmt)
    requires Closed(s, false)
    ensures !JumpsOut(s)
    decreases s, 0
  {
    match s
    case If(_, consequence, alternative) =>
      ClosedStaysIn(consequence);
      if alternative.Some? { ClosedStaysIn(alternative.value); }
    case Else(body) => ClosedStaysIn(body);
    case Block(body) => ClosedStaysInAll(body);
    case Try(body, handler) =>
      ClosedStaysIn(body);
      ClosedStaysIn(handler);
    case _ =>
  }

  lemma {:induction false} ClosedStaysInAll(body: seq<Stmt>)
    requires forall i :: 0 <= i < |body| ==> Closed(body[i], false)
    ensures Broke !in EndsAll(body) && Continued !in EndsAll(body)
    decreases body, 1
  {
    if body != [] {
      ClosedStaysIn(body[0]);
      ClosedStaysInAll(body[1..]);
    }
  }

  lemma {:induction false} NoReturn(s: Stmt)
    requires !ContainsReturn(s)
    ensures Returned !in Ends(s)
    decreases s, 0
  {
    match s
    case If(_, consequence, alternative) =>
      NoReturn(consequence);
      if alternative.Some? { NoReturn(alternative.value); }
    case Else(body) => NoReturn(body);
    case Block(body) => NoReturnAll(body);
    case Loop(body) => NoReturn(body);
    case Try(body, handler) =>
      NoReturn(body);
      NoReturn(handler);
    case _ =>
  }

  lemma {:induction false} NoReturnAll(body: seq<Stmt>)
    requires forall i :: 0 <= i < |body| ==> !ContainsReturn(body[i])
    ensures Returned !in EndsAll(body)
    decreases body, 1
  {
    if body != [] {
      NoReturn(body[0]);
      NoReturnAll(body[1..]);
    }
  }

  /** Nothing gets past a block one of whose statements nothing gets past. */
  lemma {:induction false} StopsBlock(body: seq<Stmt>, i: nat)
    requires i < |body| && Normal !in Ends(body[i])
    ensures Normal !in EndsAll(body)
    decreases body
  {
    if i > 0 {
      assert body[1..][i - 1] == body[i];
      StopsBlock(body[1..], i - 1);
    }
  }

  /** Without returns a statement that nothing gets past is safe unless a jump leaves it. */
  lemma {:induction false} StopsExactly(s: Stmt)
    requires Normal !in Ends(s) && !ContainsReturn(s)
    ensures Safe(s) <==> !JumpsOut(s)
  {
    hide Ends, Safe;
    NoReturn(s);
    SafeExactly(s);
    hide ContainsReturn;
    forall o | o in Ends(s)
      ensures o in {Thrown, Broke, Continued}
    {
      assert o != Normal && o != Returned;
    }
  }

  // ---------- the Python check ----------

  /** A Python body: branches are statement lists, and there are no guards and no rethrow calls. */
  ghost predicate PythonShape(s: Stmt) {
    match s
    case Act(rethrow) => !rethrow
    case If(guard, consequence, alternative) =>
      !guard && consequence.Block? && PythonShape(consequence)
      && (alternative.Some? ==> alternative.value.Block? && PythonShape(alternative.value))
    case Else(_) => false
    case Block(body) => forall i :: 0 <= i < |body| ==> PythonShape(body[i])
    case Loop(body) => PythonShape(body)
    case Try(body, handler) => PythonShape(body) && PythonShape(handler)
    case _ => true
  }

  /** _contains_raise: a raise in the list, or an if with an else whose two lists both do. */
  predicate ContainsRaise(body: seq<Stmt>)
    decreases body, 1
  {
    exists i :: 0 <= i < |body| && Raises(body[i])
  }

  predicate Raises(s: Stmt)
    decreases s, 0
  {
    match s
    case Throw => true
    case If(_, Block(consequence), Some(Block(alternative))) => ContainsRaise(consequence) && ContainsRaise(alternative)
    case _ => false
  }

  lemma {:induction false} RaisesStops(s: Stmt)
    requires Raises(s)
    ensures Normal !in Ends(s)
    decreases s, 0
  {
    match s
    case If(_, Block(consequence), Some(Block(alternative))) =>
      RaisingStops(consequence);
      RaisingStops(alternative);
    case _ =>
  }

  lemma {:induction false} RaisingStops(body: seq<Stmt>)
    requires ContainsRaise(body)
    ensures Normal !in EndsAll(body)
    decreases body, 1
  {
    var i :| 0 <= i < |body| && Raises(body[i]);
    RaisesStops(body[i]);
    StopsBlock(body, i);
  }

  /** Raises, plain statements, and ifs over lists of such statements. */
  predicate StraightPython(s: Stmt) {
    match s
    case Throw => true
    case Act(rethrow) => !rethrow
    case If(guard, consequence, alternative) =>
      && !guard && consequence.Block? && StraightPython(consequence)
      && (alternative.Some? ==> alternative.value.Block? && StraightPython(alternative.value))
    case Block(body) => forall i :: 0 <= i < |body| ==> !body[i].Block? && StraightPython(body[i])
    case _ => false
  }

  /** For such bodies the check misses nothing: it accepts exactly those that nothing gets past. */
  lemma {:induction false} PythonCheckIsComplete(body: seq<Stmt>)
    requires StraightPython(Block(body))
    ensures ContainsRaise(body) <==> Normal !in EndsAll(body)
    decreases body, 1
  {
    if ContainsRaise(body) {
      RaisingStops(body);
    } else {
      forall i | 0 <= i < |body|
        ensures Normal in Ends(body[i])
      {
        StatementIsRead(body, i);
      }
      PassesAll(body);
    }
  }

  lemma {:induction false} StatementIsRead(body: seq<Stmt>, i: nat)
    requires StraightPython(Block(body)) && !ContainsRaise(body) && i < |body|
    ensures Normal in Ends(body[i])
    decreases body, 0
  {
    assert StraightPython(body[i]) && !Raises(body[i]);
    match body[i]
    case If(_, consequence, alternative) =>
      var first := consequence.body_;
      assert consequence == Block(first);
      PythonCheckIsComplete(first);
      if alternative.Some? {
        assert alternative.value == Block(alternative.value.body_);
        PythonCheckIsComplete(alternative.value.body_);
      }
    case _ =>
  }

  /** A run gets past a block if it gets past each of its statements. */
  lemma {:induction false} PassesAll(body: seq<Stmt>)
    requires forall i :: 0 <= i < |body| ==> Normal in Ends(body[i])
    ensures Normal in EndsAll(body)
    decreases body
  {
    if body != [] {
      PassesAll(body[1..]);
    }
  }

  lemma {:induction false} PythonNeverWaives(n: nat, s: Stmt, o: Outcome, waived: bool)
    requires PythonShape(s) && Runs(n, s, o, waived)
    ensures !waived
    decreases n, s, 0
  {
    match s
    case If(guard, consequence, alternative) =>
      if Runs(n, consequence, o, waived) {
        PythonNeverWaives(n, consequence, o, waived);
      } else if alternative.Some? && !(o == Thrown && !waived) {
        var later: bool :| Runs(n, alternative.value, o, later) && waived == (guard || later);
        PythonNeverWaives(n, alternative.value, o, later);
      }
    case Block(body) => PythonNeverWaivesAll(n, body, o, waived);
    case Loop(body) =>
      if waived {
        var turn: Outcome, first: bool :| Runs(n - 1, body, turn, first) && RunsOn(n - 1, s, o, waived, turn, first);
        PythonNeverWaives(n - 1, body, turn, first);
        if turn.Normal? || turn.Continued? {
          var later: bool :| Runs(n - 1, s, o, later) && waived == (first || later);
          PythonNeverWaives(n - 1, s, o, later);
        }
      }
    case Try(body, handler) =>
      if o != Thrown && Runs(n, body, o, waived) {
        PythonNeverWaives(n, body, o, waived);
      } else {
        var first: bool, later: bool :|
            Runs(n, body, Thrown, first) && Runs(n, handler, o, later) && waived == (first || later);
        PythonNeverWaives(n, body, Thrown, first);
        PythonNeverWaives(n, handler, o, later);
      }
    case _ =>
  }

  lemma {:induction false} PythonNeverWaivesAll(n: nat, body: seq<Stmt>, o: Outcome, waived: bool)
    requires (forall i :: 0 <= i < |body| ==> PythonShape(body[i])) && RunsAll(n, body, o, waived)
    ensures !waived
    decreases n, body, 1
  {
    if body != [] {
      if o != Normal && Runs(n, body[0], o, waived) {
        PythonNeverWaives(n, body[0], o, waived);
      } else {
        var first: bool, later: bool :|
            Runs(n, body[0], Normal, first) && RunsAll(n, body[1..], o, later) && waived == (first || later);
        PythonNeverWaives(n, body[0], Normal, first);
        PythonNeverWaivesAll(n, body[1..], o, later);
      }
    }
  }

  /** Every completed run raises. */
  ghost predicate AlwaysRaises(s: Stmt) {
    forall n: nat, o: Outcome, waived: bool :: Runs(n, s, o, waived) ==> o == Thrown
  }

  /** An accepted Python handler always raises, exactly if no break or continue out of it can be reached. */
  lemma {:induction false} AcceptedPythonHandlerRaises(body: seq<Stmt>)
    requires PythonShape(Block(body)) && ContainsRaise(body) && !ContainsReturn(Block(body))
    ensures AlwaysRaises(Block(body)) <==> !JumpsOut(Block(body))
  {
    RaisingStops(body);
    StopsExactly(Block(body));
    hide Runs, Ends, PythonShape, ContainsReturn;
    forall n: nat, o: Outcome, waived: bool | Runs(n, Block(body), o, waived)
      ensures !waived
    {
      PythonNeverWaives(n, Block(body), o, waived);
    }
  }

  // ---------- the JavaScript check ----------

  /** _contains_throw of a node: the named children of an if are its branches, those of an else its body. */
  predicate ContainsThrow(s: Stmt)
    decreases s, 1, 0
  {
    match s
    case Throw => true
    case If(_, consequence, alternative) =>
      Scan(s, [consequence] + (if alternative.Some? then [alternative.value] else []))
    case Else(body) => Scan(s, [body])
    case Block(body) => Scan(s, body)
    case Loop(body) => Scan(s, [body])
    case _ => false
  }

  /** The scan of a node's children, up to the one that settles it. */
  predicate Scan(node: Stmt, children: seq<Stmt>)
    requires forall i :: 0 <= i < |children| ==> children[i] < node
    decreases node, 0, |children|
  {
    children != [] &&
    var current := children[0];
    if current.Throw? || (current.Act? && current.rethrow) then true
    else if current.If? && ContainsThrow(current.consequence)
            && ((current.alternative.Some? && ContainsThrow(current.alternative.value)) || current.guard) then true
    else if current.Return? || current.If? then false
    else Scan(node, children[1..])
  }

  /** An else clause is where the grammar puts it, and no branch of an if is itself an unbraced if or loop. */
  ghost predicate Braced(s: Stmt) {
    match s
    case If(_, consequence, alternative) =>
      (consequence.Block? || (!consequence.If? && !consequence.Loop? && !consequence.Else?)) && Braced(consequence)
      && (alternative.Some? ==> alternative.value.Else? && Braced(alternative.value))
    case Else(body) => !body.Else? && Braced(body)
    case Block(body) => forall i :: 0 <= i < |body| ==> !body[i].Else? && Braced(body[i])
    case _ => true
  }

  lemma {:induction false} ThrowingStops(s: Stmt)
    requires ContainsThrow(s) && Braced(s) && (s.Throw? || s.Block? || s.Else?)
    ensures Normal !in Ends(s)
    decreases s, 1, 0
  {
    match s
    case Throw =>
    case Block(body) =>
      var i := ScannedStops(s, body);
      StopsBlock(body, i);
    case Else(body) =>
      var i := ScannedStops(s, [body]);
  }

  lemma {:induction false} ScannedStops(node: Stmt, children: seq<Stmt>) returns (i: nat)
    requires forall j :: 0 <= j < |children| ==> children[j] < node && Braced(children[j]) && !children[j].Else?
    requires Scan(node, children)
    ensures i < |children| && Normal !in Ends(children[i])
    decreases node, 0, |children|
  {
    var current := children[0];
    if current.Throw? || (current.Act? && current.rethrow) {
      i := 0;
    } else if current.If? {
      i := 0;
      BranchThrows(current.consequence);
      ThrowingStops(current.consequence);
      if current.alternative.Some? && ContainsThrow(current.alternative.value) {
        ThrowingStops(current.alternative.value);
      }
    } else {
      i := ScannedStops(node, children[1..]);
      i := i + 1;
    }
  }

  /** A braced branch that passes is a throw or a block. */
  lemma {:induction false} BranchThrows(s: Stmt)
    requires ContainsThrow(s) && !s.If? && !s.Loop? && !s.Else?
    ensures s.Throw? || s.Block?
  {
  }

  /** An accepted, braced catch block always throws or passes an allow-listed test, exactly if no break or
      continue out of it can be reached. */
  lemma {:induction false} AcceptedCatchIsSafe(body: seq<Stmt>)
    requires Braced(Block(body)) && ContainsThrow(Block(body)) && !ContainsReturn(Block(body))
    ensures Safe(Block(body)) <==> !JumpsOut(Block(body))
  {
    ThrowingStops(Block(body));
    StopsExactly(Block(body));
  }

  /** A block of throws and plain statements. */
  predicate Flat(s: Stmt) {
    s.Block? && forall i :: 0 <= i < |s.body_| ==> s.body_[i].Throw? || s.body_[i].Act?
  }

  /** A throw, a plain statement, or an if over such a block, whose else, if any, is one such statement. */
  predicate Straight(s: Stmt) {
    s.Throw? || s.Act? || (s.If? && Flat(s.consequence) && (s.alternative.Some? ==>
        s.alternative.value.Else? && (s.alternative.value.body.Throw? || s.alternative.value.body.Act?)))
  }

  /** Nothing gets past statement `i`, and no if stands before it. */
  ghost predicate SettledAt(body: seq<Stmt>, i: nat)
    requires i < |body|
  {
    Normal !in Ends(body[i]) && forall j :: 0 <= j < i ==> !body[j].If?
  }

  ghost predicate Settled(body: seq<Stmt>) {
    exists i :: 0 <= i < |body| && SettledAt(body, i)
  }

  lemma {:induction false} FlatIsRead(node: Stmt, body: seq<Stmt>)
    requires forall i :: 0 <= i < |body| ==> body[i] < node && (body[i].Throw? || body[i].Act?)
    ensures Scan(node, body) <==> Normal !in EndsAll(body)
    decreases |body|
  {
    if body != [] {
      FlatIsRead(node, body[1..]);
    }
  }

  lemma {:induction false} IfIsRead(s: Stmt)
    requires Straight(s) && s.If?
    ensures Normal !in Ends(s) <==>
      ContainsThrow(s.consequence) && (s.guard || (s.alternative.Some? && ContainsThrow(s.alternative.value)))
  {
    FlatIsRead(s.consequence, s.consequence.body_);
    assert ContainsThrow(s.consequence) <==> Normal !in Ends(s.consequence);
    if s.alternative.Some? {
      var other := s.alternative.value;
      assert Scan(other, [other.body]) <==> other.body.Throw? || (other.body.Act? && other.body.rethrow);
      assert ContainsThrow(other) <==> Normal !in Ends(other.body);
      assert Ends(other) == Ends(other.body);
    }
  }

  lemma {:induction false} SettledNext(body: seq<Stmt>)
    requires body != []
    ensures Settled(body) <==> Normal !in Ends(body[0]) || (!body[0].If? && Settled(body[1..]))
  {
    if Normal !in Ends(body[0]) {
      assert SettledAt(body, 0);
    }
    if !body[0].If? && Settled(body[1..]) {
      var i :| 0 <= i < |body[1..]| && SettledAt(body[1..], i);
      assert SettledAt(body, i + 1);
    }
    if Settled(body) {
      var i :| 0 <= i < |body| && SettledAt(body, i);
      if i > 0 {
        assert body[1..][i - 1] == body[i] && SettledAt(body[1..], i - 1);
      }
    }
  }

  lemma {:induction false} ScanIsRead(node: Stmt, body: seq<Stmt>)
    requires forall i :: 0 <= i < |body| ==> body[i] < node && Straight(body[i])
    ensures Scan(node, body) <==> Settled(body)
    decreases |body|
  {
    if body != [] {
      ScanIsRead(node, body[1..]);
      SettledNext(body);
      if body[0].If? { IfIsRead(body[0]); }
      hide Settled, ContainsThrow;
    }
  }

  /** On straight code the check is exact: it accepts if nothing gets past some statement and no if stands before. */
  lemma {:induction false} CatchCheckIsComplete(body: seq<Stmt>)
    requires forall i :: 0 <= i < |body| ==> Straight(body[i])
    ensures ContainsThrow(Block(body)) <==> Settled(body)
  {
    ScanIsRead(Block(body), body);
  }

  /** It looks into no braces after an else: a catch that throws in both branches is refused. */
  lemma {:induction false} BracedElseIsRefused(body: seq<Stmt>)
    requires body == [If(false, Block([Throw]), Some(Else(Block([Throw]))))]
    ensures Braced(Block(body)) && Safe(Block(body)) && !ContainsThrow(Block(body))
  {
    var other := Else(Block([Throw]));
    assert Block([Throw]) < other && !Scan(other, [Block([Throw])]);
    assert !ContainsThrow(other) && Braced(other);
    assert Ends(body[0]) <= {Thrown};
    assert body[0].alternative == Some(other);
    assert !Scan(Block(body), body);
    SafeExactly(Block(body));
  }

  lemma {:induction false} UnbracedIsAccepted(inner: Stmt)
    requires inner == If(false, Throw, None) || inner == Loop(Throw)
    ensures ContainsThrow(Block([If(true, inner, None)]))
  {
    var guarded := If(true, inner, None);
    assert Scan(inner, [Throw]);
    assert ContainsThrow(inner);
    assert Scan(Block([guarded]), [guarded]);
  }

  lemma {:induction false} UnbracedShape(inner: Stmt)
    requires inner == If(false, Throw, None) || inner == Loop(Throw)
    ensures var body := Block([If(true, inner, None)]);
            !ContainsReturn(body) && Closed(body, false) && Normal in Ends(body)
  {
    var guarded := If(true, inner, None);
    assert !ContainsReturn(inner) && Closed(inner, false) && Normal in Ends(inner);
    assert !ContainsReturn(guarded) && Closed(guarded, false) && Normal in Ends(guarded);
    assert EndsAll([guarded][1..]) == {Normal};
  }

  /**
   Without braces the check can be fooled: under an allow-listed guard, an unbraced if or while
   over a throw is accepted, and the catch can complete with nothing thrown and no test true.
   */
  lemma {:induction false} UnbracedBranchIsUnsafe(inner: Stmt)
    requires inner == If(false, Throw, None) || inner == Loop(Throw)
    ensures var body := Block([If(true, inner, None)]);
            && ContainsThrow(body) && !ContainsReturn(body) && Closed(body, false)
            && !Safe(body) && exists n: nat :: Runs(n, body, Normal, false)
  {
    hide Runs, Scan, Closed, ContainsReturn, Ends;
    UnbracedIsAccepted(inner);
    UnbracedShape(inner);
    EndsExactly(Block([If(true, inner, None)]), Normal);
    SafeExactly(Block([If(true, inner, None)]));
  }

  lemma {:induction false} MayContinue(first: Stmt)
    requires Continued in Ends(first)
    ensures JumpsOut(Block([first, Throw]))
  {
  }

  /** In a loop, a handler that may continue before it raises is accepted, and need not raise. */
  lemma {:induction false} JumpIsUnsafe(body: seq<Stmt>)
    requires body == [If(false, Block([Continue]), None), Throw]
    ensures PythonShape(Block(body)) && ContainsRaise(body) && !ContainsReturn(Block(body))
    ensures !AlwaysRaises(Block(body))
  {
    var skip := Block([Continue]);
    assert PythonShape(skip) && !ContainsReturn(skip) && Continued in Ends(skip);
    assert PythonShape(body[0]) && !ContainsReturn(body[0]) && Continued in Ends(body[0]);
    assert Raises(body[1]);
    hide Ends, PythonShape, ContainsReturn, Raises;
    MayContinue(body[0]);
    AcceptedPythonHandlerRaises(body);
  }

  /** So is a catch block that may continue before it throws, if the condition stands in a block of its own. */
  lemma {:induction false} JumpIsUnsafeInCatch(body: seq<Stmt>)
    requires body == [Block([If(false, Block([Continue]), None)]), Throw]
    ensures Braced(Block(body)) && ContainsThrow(Block(body)) && !ContainsReturn(Block(body))
    ensures !Safe(Block(body))
  {
    var maybe := If(false, Block([Continue]), None);
    var inner := Block([maybe]);
    assert !ContainsReturn(Block([Continue])) && Continued in Ends(Block([Continue]));
    assert !ContainsReturn(maybe) && Continued in Ends(maybe);
    assert !ContainsReturn(inner) && Continued in Ends(inner) && Braced(inner);
    assert body[1] == Throw && body[1..] == [Throw];
    assert Scan(Block(body), [Throw]);
    assert Scan(Block(body), body);
    hide Ends, Safe, Scan, ContainsReturn, Braced, ContainsThrow;
    MayContinue(inner);
    SafeExactly(Block(body));
  }
}
