/**
 * The order in which a function component's body runs during one render,
 * reduced to the bindings the boards' first hooks touch. A `const` is in
 * its temporal dead zone from the start of the body until its declaration
 * runs: reading it there throws a ReferenceError and the render fails.
 */
module RenderOrder {
  import opened Optional

  /** The bindings of a board's body that its first hooks touch. */
  datatype Binding = Difficulty | CurrentFamily | StartNewRound

  /** One step of a render, in source order. */
  datatype Step = Declare(b: Binding) | Read(b: Binding)

  /** The bindings `steps` declare. */
  function Declared(steps: seq<Step>): (r: set<Binding>)
    ensures forall b :: b in r <==> Declare(b) in steps
  {
    set s | s in steps && s.Declare? :: s.b
  }

  /** Step `i` reads a binding the body declares only after it. */
  predicate ReadsTooEarly(steps: seq<Step>, i: nat)
    requires i < |steps|
  {
    steps[i].Read? && Declare(steps[i].b) !in steps[..i] && Declare(steps[i].b) in steps[i + 1..]
  }

  /**
   * Runs `steps` with `scope` the bindings the body declares and `live`
   * those declared so far: `None` is the ReferenceError, otherwise the
   * bindings live at the end.
   */
  function Run(steps: seq<Step>, scope: set<Binding>, live: set<Binding>): (r: Option<set<Binding>>)
    ensures r.Some? ==> live <= r.value
  {
    if steps == [] then Some(live)
    else match steps[0]
      case Declare(b) => Run(steps[1..], scope, live + {b})
      case Read(b) => if b in scope && b !in live then None else Run(steps[1..], scope, live)
  }

  /** A render of the body: nothing is live at its start. */
  function Render(steps: seq<Step>): Option<set<Binding>> {
    Run(steps, Declared(steps), {})
  }

  lemma DeclaredStep(steps: seq<Step>, k: nat)
    requires k < |steps|
    ensures Declared(steps[..k + 1]) == Declared(steps[..k]) + (if steps[k].Declare? then {steps[k].b} else {})
  {
    assert steps[..k + 1] == steps[..k] + [steps[k]];
  }

  lemma {:induction false} RunFrom(steps: seq<Step>, k: nat)
    requires k <= |steps|
    ensures Run(steps[k..], Declared(steps), Declared(steps[..k])).Some?
        <==> forall i :: k <= i < |steps| ==> !ReadsTooEarly(steps, i)
    decreases |steps| - k
  {
    if k < |steps| {
      var rest := steps[k..];
      assert rest[0] == steps[k];
      assert rest[1..] == steps[k + 1..];
      DeclaredStep(steps, k);
      RunFrom(steps, k + 1);
      if steps[k].Read? {
        var b := steps[k].b;
        var early := Declare(b) in steps && Declare(b) !in steps[..k];
        if early {
          var j :| 0 <= j < |steps| && steps[j] == Declare(b);
          assert steps[k + 1..][j - k - 1] == Declare(b);
        }
        assert early <==> ReadsTooEarly(steps, k);
        assert b in Declared(steps) <==> Declare(b) in steps;
        assert b in Declared(steps[..k]) <==> Declare(b) in steps[..k];
        assert Declared(steps[..k + 1]) == Declared(steps[..k]);
        assert Run(rest, Declared(steps), Declared(steps[..k]))
            == if early then None else Run(rest[1..], Declared(steps), Declared(steps[..k]));
      }
    }
  }

  /** A render fails exactly when some step reads a binding before its declaration. */
  lemma RenderIff(steps: seq<Step>)
    ensures Render(steps).Some? <==> forall i :: 0 <= i < |steps| ==> !ReadsTooEarly(steps, i)
  {
    RunFrom(steps, 0);
    assert steps[0..] == steps;
    assert Declared(steps[..0]) == {};
  }

  /**
   * The web board's body as written: the state hooks, the effect's
   * dependency list `[difficulty, currentFamily, startNewRound]`, then
   * `useCallback`'s dependency list `[difficulty]` and the binding of
   * `startNewRound`.
   */
  function WebBoardAsWritten(): seq<Step> {
    [Declare(Difficulty), Declare(CurrentFamily),
     Read(Difficulty), Read(CurrentFamily), Read(StartNewRound),
     Read(Difficulty), Declare(StartNewRound)]
  }

  /** The effect's dependency list reads `startNewRound` in its dead zone, so the first render throws. */
  lemma WebBoardThrows()
    ensures ReadsTooEarly(WebBoardAsWritten(), 4)
    ensures Render(WebBoardAsWritten()) == None
  {
    var steps := WebBoardAsWritten();
    assert steps[..4] == [Declare(Difficulty), Declare(CurrentFamily), Read(Difficulty), Read(CurrentFamily)];
    assert steps[4 + 1..][1] == Declare(StartNewRound);
    assert ReadsTooEarly(steps, 4);
    RenderIff(steps);
  }

  /** The same body with the effect placed after `startNewRound` is declared. */
  function WebBoardIntended(): seq<Step> {
    [Declare(Difficulty), Declare(CurrentFamily),
     Read(Difficulty), Declare(StartNewRound),
     Read(Difficulty), Read(CurrentFamily), Read(StartNewRound)]
  }

  /** Every read of the intended order comes after its declaration, so the render completes. */
  lemma WebBoardIntendedRenders()
    ensures forall i :: 0 <= i < |WebBoardIntended()| ==> !ReadsTooEarly(WebBoardIntended(), i)
    ensures Render(WebBoardIntended()).Some?
  {
    var steps := WebBoardIntended();
    forall i | 0 <= i < |steps| ensures !ReadsTooEarly(steps, i) {
      if i >= 4 {
        assert steps[..i][i - 1 - (i - 4)] == steps[3];
        assert steps[..i][0] == Declare(Difficulty) && steps[..i][1] == Declare(CurrentFamily);
      } else if i == 2 {
        assert steps[..i][0] == Declare(Difficulty);
      }
    }
    RenderIff(steps);
  }

  /**
   * The mobile board's body: its effect lists only `[difficulty]`, and
   * `useCallback`'s list is `[difficulty]` too.
   */
  function MobileBoard(): seq<Step> {
    [Declare(Difficulty), Declare(CurrentFamily),
     Read(Difficulty), Read(Difficulty), Declare(StartNewRound)]
  }

  /** The mobile body reads only `difficulty`, after its declaration, so it renders. */
  lemma MobileBoardRenders()
    ensures Render(MobileBoard()).Some?
  {
    var steps := MobileBoard();
    forall i | 0 <= i < |steps| ensures !ReadsTooEarly(steps, i) {
      if i == 2 || i == 3 {
        assert steps[..i][0] == Declare(Difficulty);
      }
    }
    RenderIff(steps);
  }
}
