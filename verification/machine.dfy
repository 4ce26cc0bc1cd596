/** The whole interpreter without its command line: the transition file's
    lines are loaded, the input string is put on the tape, and the machine
    runs on it. */
module Machine {
  import opened Wrappers
  import opened Tokens
  import opened Table
  import opened TapeModel
  import opened Executor

  /** How the interpreter ends. */
  datatype Report =
    | LoadAborted(error: LoadError)  // the transition file was rejected
    | BadInput                       // the input string holds an unknown symbol
    | Finished(outcome: Outcome)     // the machine ran

  /** Loading, tape initialisation and the run, each stopping the whole
      program on its first error. */
  function Simulate(lines: seq<string>, input: string, fuel: nat): Report
  {
    var loaded := LoadAll(Empty, lines);
    if loaded.error.Some? then LoadAborted(loaded.error.value)
    else if KnownPrefix(input, loaded.tables.symbols) < |input| then BadInput
    else
      LoadAllWellFormed(Empty, lines);
      Finished(Execute(loaded.tables, InputCells(input), fuel))
  }

  /** The program's sequence of calls on fresh tables and a fresh tape. */
  method RunProgram(lines: seq<string>, input: string, fuel: nat) returns (report: Report)
    ensures report == Simulate(lines, input, fuel)
  {
    var loader := new Loader();
    var error := loader.ReadLines(lines);
    if error.Some? {
      return LoadAborted(error.value);
    }
    ghost var tables := LoadAll(Empty, lines).tables;
    assert loader.Current() == tables;
    var tape := new Tape();
    var ok := InitializeTape(input, loader.allowedSymbols, tape);
    if !ok {
      return BadInput;
    }
    assert input[..|input|] == input;
    assert tape.cells == InputCells(input);
    SimulateRuns(lines, input, fuel);
    var outcome := RunMachine(tape, loader.Current(), fuel);
    return Finished(outcome);
  }

  /** Lines that are all empty or comments leave the tables empty. */
  lemma {:induction false} SkippedLinesLoadNothing(lines: seq<string>)
    requires forall i :: 0 <= i < |lines| ==> !IsRuleLine(lines[i])
    ensures LoadAll(Empty, lines) == Loaded(Empty, None)
    decreases |lines|
  {
    if lines != [] {
      var init := lines[..|lines| - 1];
      assert forall i :: 0 <= i < |init| ==> init[i] == lines[i];
      SkippedLinesLoadNothing(init);
    }
  }

  /** With no rule line at all, no symbol is known, so any non-empty input is
      rejected before the machine starts, and an empty input leaves a tape
      without cells. The machine never gets to halt on its first step. */
  lemma EmptyRuleFileNeverRuns(lines: seq<string>, input: string, fuel: nat)
    requires forall i :: 0 <= i < |lines| ==> !IsRuleLine(lines[i])
    ensures Simulate(lines, input, fuel) == if input == [] then Finished(NoTape) else BadInput
  {
    SkippedLinesLoadNothing(lines);
  }

  /** Two rules for the same state and symbol abort the load. */
  lemma DuplicateRuleAborts(t: seq<string>, u: seq<string>, input: string, fuel: nat)
    requires RuleTokens(t) && RuleTokens(u) && t[0] == u[0] && t[1] == u[1]
    ensures Simulate([RuleText(t), RuleText(u)], input, fuel) == LoadAborted(DuplicateTransition(RuleKey(t[0], t[1])))
  {
    SameKeyAborts(t, u);
  }

  /** Only the symbols a rule names are known: with a single rule, an input
      character that is neither its current nor its new symbol is rejected.
      A wildcard rule `q * * d q'` names only `*`, so it admits no other input. */
  lemma UnnamedInputRejected(t: seq<string>, input: string, i: nat, fuel: nat)
    requires RuleTokens(t) && i < |input| && [input[i]] != t[1] && [input[i]] != t[2]
    ensures Simulate([RuleText(t)], input, fuel) == BadInput
  {
    LoadOneRule(t);
  }

  /** The tables of the single rule `0 1 1 r 0`. */
  function WalkRight(): Tables
  {
    Tables({"1"}, {"0"}, map[RuleKey("0", "1") := RuleText(["0", "1", "1", "r", "0"])])
  }

  lemma WalkRightWellFormed()
    ensures WellFormed(WalkRight())
    ensures Split(RuleText(["0", "1", "1", "r", "0"])) == ["0", "1", "1", "r", "0"]
  {
    RuleTextRoundTrip(["0", "1", "1", "r", "0"]);
  }

  /** In state `0` on a `1` the one rule is found, as an exact match. */
  lemma WalkRightLookup()
    ensures Lookup(WalkRight().transitions, "0", "1") == Some(Match(RuleText(["0", "1", "1", "r", "0"]), false))
  {
  }

  /** The rule applies to the first input cell and moves right. */
  lemma WalkRightFirstStep()
    requires WellFormed(WalkRight())
    requires Split(RuleText(["0", "1", "1", "r", "0"])) == ["0", "1", "1", "r", "0"]
    ensures Step(WalkRight(), Config(Head(["1", "1"], 0), "0")) == Continue(Config(Head(["1", "1"], 1), "0"))
  {
    WalkRightLookup();
    assert ["1", "1"][0 := "1"] == ["1", "1"];
  }

  /** The rule applies to the second input cell; moving right grows the tape. */
  lemma WalkRightSecondStep()
    requires WellFormed(WalkRight())
    requires Split(RuleText(["0", "1", "1", "r", "0"])) == ["0", "1", "1", "r", "0"]
    ensures Step(WalkRight(), Config(Head(["1", "1"], 1), "0")) == Continue(Config(Head(["1", "1", "_"], 2), "0"))
  {
    WalkRightLookup();
    assert ["1", "1"][1 := "1"] == ["1", "1"];
    assert Move(Head(["1", "1"], 1), "r") == Head(["1", "1", "_"], 2);
  }

  /** The blank the tape grew by is not a known symbol. */
  lemma WalkRightThirdStep()
    requires WellFormed(WalkRight())
    ensures Step(WalkRight(), Config(Head(["1", "1", "_"], 2), "0")) == Abort(InvalidSymbol)
  {
    assert "_" != "1";
  }

  /** Walking right off the input grows the tape by a blank cell, and reading
      that blank aborts the run when no rule names `_`: it is not a halt. */
  lemma UnnamedBlankAborts(fuel: nat)
    requires fuel >= 3
    ensures Simulate([RuleText(["0", "1", "1", "r", "0"])], "11", fuel) ==
            Finished(Failed(InvalidSymbol, Config(Head(["1", "1", "_"], 2), "0")))
  {
    var t := ["0", "1", "1", "r", "0"];
    LoadOneRule(t);
    assert {t[1], t[2]} == {"1"} && {t[0], t[4]} == {"0"};
    assert LoadAll(Empty, [RuleText(t)]) == Loaded(WalkRight(), None);
    assert KnownPrefix("11", {"1"}) == 2;
    assert InputCells("11") == ["1", "1"];
    SimulateRuns([RuleText(t)], "11", fuel);
    WalkRightRun(fuel);
  }

  /** A file that loads and an input of known symbols get to run. */
  lemma SimulateRuns(lines: seq<string>, input: string, fuel: nat)
    requires LoadAll(Empty, lines).error.None?
    requires KnownPrefix(input, LoadAll(Empty, lines).tables.symbols) == |input|
    ensures WellFormed(LoadAll(Empty, lines).tables)
    ensures Simulate(lines, input, fuel) == Finished(Execute(LoadAll(Empty, lines).tables, InputCells(input), fuel))
  {
    LoadAllWellFormed(Empty, lines);
  }

  /** The run itself: two steps right, then the abort on the blank. */
  lemma WalkRightRun(fuel: nat)
    requires fuel >= 3
    ensures WellFormed(WalkRight())
    ensures Execute(WalkRight(), ["1", "1"], fuel) == Failed(InvalidSymbol, Config(Head(["1", "1", "_"], 2), "0"))
  {
    WalkRightWellFormed();
    WalkRightFirstStep();
    WalkRightSecondStep();
    WalkRightThirdStep();
    var c0, c1, c2 := Config(Head(["1", "1"], 0), "0"), Config(Head(["1", "1"], 1), "0"),
                      Config(Head(["1", "1", "_"], 2), "0");
    assert Run(WalkRight(), c2, fuel - 2) == Failed(InvalidSymbol, c2);
    assert Run(WalkRight(), c1, fuel - 1) == Run(WalkRight(), c2, fuel - 2);
  }
}
