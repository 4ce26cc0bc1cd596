/** Running the machine: starting in state `0` on the first cell, each step
    checks that the state and the symbol under the cursor are known, looks up
    the rule for `state symbol` (falling back to `state *`), writes, moves and
    changes state. The machine halts when no rule matches. */
module Executor {
  import opened Wrappers
  import opened Tokens
  import opened Table
  import opened TapeModel

  /** The state every run starts in. */
  const Start := "0"

  /** The symbol that, as a rule's current symbol, matches any symbol and, as
      its new symbol under such a rule, writes back the symbol read. */
  const Wildcard := "*"

  /** Why a run is aborted. */
  datatype Fault = InvalidState | InvalidSymbol

  /** The tape with its cursor, and the current state. */
  datatype Config = Config(head: Head, state: string)

  /** What one step does. */
  datatype StepResult = Continue(next: Config) | Halt | Abort(fault: Fault)

  /** How a run ends: halted (no rule matched), aborted, still running when
      the fuel ran out, or never started because the tape has no cell. */
  datatype Outcome =
    | Halted(last: Config)
    | Failed(fault: Fault, last: Config)
    | OutOfFuel(last: Config)
    | NoTape

  /** The rule string a lookup found, and whether it was the wildcard rule. */
  datatype Match = Match(rule: string, wildcard: bool)

  /** The exact key first, then the wildcard key of the state. */
  function Lookup(transitions: map<string, string>, state: string, symbol: string): (r: Option<Match>)
    ensures r.None? <==> RuleKey(state, symbol) !in transitions && RuleKey(state, Wildcard) !in transitions
    ensures r.Some? && !r.value.wildcard ==>
              RuleKey(state, symbol) in transitions && r.value.rule == transitions[RuleKey(state, symbol)]
    ensures r.Some? && r.value.wildcard ==>
              RuleKey(state, symbol) !in transitions && r.value.rule == transitions[RuleKey(state, Wildcard)]
  {
    if RuleKey(state, symbol) in transitions then Some(Match(transitions[RuleKey(state, symbol)], false))
    else if RuleKey(state, Wildcard) in transitions then Some(Match(transitions[RuleKey(state, Wildcard)], true))
    else None
  }

  /** The symbol a rule writes: its new-symbol token, except that a `*`
      under the wildcard rule writes back the symbol read. */
  function Written(t: seq<string>, wildcard: bool, read: string): string
    requires |t| == 5
  {
    if wildcard && t[2] == Wildcard then read else t[2]
  }

  /** One step of the machine. The new state is the rule's last token taken
      verbatim, so a `*` there becomes the state `*`. */
  function Step(tb: Tables, c: Config): (r: StepResult)
    requires WellFormed(tb) && OnTape(c.head)
    ensures r.Continue? ==> OnTape(r.next.head)
  {
    var symbol := c.head.cells[c.head.cursor];
    if c.state !in tb.states then Abort(InvalidState)
    else if symbol !in tb.symbols then Abort(InvalidSymbol)
    else
      match Lookup(tb.transitions, c.state, symbol)
      case None => Halt
      case Some(m) =>
        var t := Split(m.rule);
        assert Registered(tb, RuleKey(c.state, if m.wildcard then Wildcard else symbol), t);
        var written := Head(c.head.cells[c.head.cursor := Written(t, m.wildcard, symbol)], c.head.cursor);
        var moved := if t[3] == "l" || t[3] == "r" then Move(written, t[3]) else written;
        Continue(Config(moved, t[4]))
  }

  /** At most `fuel` steps from `c`. */
  function Run(tb: Tables, c: Config, fuel: nat): (r: Outcome)
    requires WellFormed(tb) && OnTape(c.head)
    ensures !r.NoTape? && OnTape(r.last.head)
    decreases fuel
  {
    if fuel == 0 then OutOfFuel(c)
    else
      match Step(tb, c)
      case Halt => Halted(c)
      case Abort(f) => Failed(f, c)
      case Continue(next) => Run(tb, next, fuel - 1)
  }

  /** A run on a freshly loaded tape: state `0` on the first cell. */
  function Execute(tb: Tables, cells: seq<string>, fuel: nat): (r: Outcome)
    requires WellFormed(tb)
    ensures r.NoTape? <==> cells == []
  {
    if cells == [] then NoTape else Run(tb, Config(Head(cells, 0), Start), fuel)
  }

  /** The executor's loop, at most `fuel` iterations. It overwrites the
      current cell and moves through the tape in place. */
  method RunMachine(tape: Tape, tb: Tables, fuel: nat) returns (outcome: Outcome)
    requires WellFormed(tb)
    modifies tape
    ensures outcome == Execute(tb, old(tape.cells), fuel)
    ensures tape.cells == if outcome.NoTape? then old(tape.cells) else outcome.last.head.cells
  {
    if |tape.cells| == 0 {
      return NoTape;
    }
    ghost var expected := Execute(tb, tape.cells, fuel);
    var currentState := Start;
    var currentBox: nat := 0;
    var remaining: nat := fuel;
    while remaining > 0
      invariant currentBox < |tape.cells|
      invariant expected == Run(tb, Config(Head(tape.cells, currentBox), currentState), remaining)
    {
      var before := Config(Head(tape.cells, currentBox), currentState);
      var currentSymbol := tape.cells[currentBox];
      if currentState !in tb.states {
        return Failed(InvalidState, before);
      }
      if currentSymbol !in tb.symbols {
        return Failed(InvalidSymbol, before);
      }
      var found := Lookup(tb.transitions, currentState, currentSymbol);
      if found.None? {
        return Halted(before);
      }
      StepApplies(tb, before);
      currentBox, currentState := ApplyRule(tape, currentBox, currentSymbol, found.value);
      RunContinues(tb, before, Config(Head(tape.cells, currentBox), currentState), remaining);
      remaining := remaining - 1;
    }
    return OutOfFuel(Config(Head(tape.cells, currentBox), currentState));
  }

  /** The rest of one iteration of the executor's loop, once a rule is
      found: the rule string is split again, a `*` new symbol under the
      wildcard rule is replaced by the symbol read, the current cell is
      overwritten, the cursor moves on `l` and `r` only, and the rule's new
      state is returned as written. */
  method ApplyRule(tape: Tape, currentBox: nat, currentSymbol: string, found: Match) returns (nextBox: nat, newState: string)
    requires currentBox < |tape.cells| && currentSymbol == tape.cells[currentBox]
    requires found.rule != [] && |Split(found.rule)| == 5
    modifies tape
    ensures var t := Split(found.rule);
            var w := Head(old(tape.cells)[currentBox := Written(t, found.wildcard, currentSymbol)], currentBox);
            Head(tape.cells, nextBox) == (if t[3] == "l" || t[3] == "r" then Move(w, t[3]) else w) &&
            newState == t[4]
  {
    var currentWildcard := found.wildcard;
    var tokens := SplitRule(found.rule);
    if currentWildcard {
      currentWildcard := false;
      if tokens[2] == Wildcard {
        tokens := tokens[2 := currentSymbol];
      }
    }
    var newSymbol, direction := tokens[2], tokens[3];
    newState := tokens[4];
    tape.cells := tape.cells[currentBox := newSymbol];
    nextBox := currentBox;
    if direction == "l" {
      nextBox := tape.MoveBox(nextBox, direction);
    }
    if direction == "r" {
      nextBox := tape.MoveBox(nextBox, direction);
    }
  }

  /** A run with fuel left whose first step continues goes on from the
      configuration that step reaches. */
  lemma RunContinues(tb: Tables, c: Config, next: Config, fuel: nat)
    requires WellFormed(tb) && OnTape(c.head) && fuel > 0 && Step(tb, c) == Continue(next)
    ensures OnTape(next.head)
    ensures Run(tb, c, fuel) == Run(tb, next, fuel - 1)
  {
  }

  /** A step on a known state and symbol with a matching rule applies that
      rule, whose string is not empty and splits into five tokens. */
  lemma StepApplies(tb: Tables, c: Config)
    requires WellFormed(tb) && OnTape(c.head)
    requires c.state in tb.states && c.head.cells[c.head.cursor] in tb.symbols
    requires Lookup(tb.transitions, c.state, c.head.cells[c.head.cursor]).Some?
    ensures var symbol := c.head.cells[c.head.cursor];
            var m := Lookup(tb.transitions, c.state, symbol).value;
            var t := Split(m.rule);
            var w := Head(c.head.cells[c.head.cursor := Written(t, m.wildcard, symbol)], c.head.cursor);
            m.rule != [] && |t| == 5 &&
            Step(tb, c) == Continue(Config(if t[3] == "l" || t[3] == "r" then Move(w, t[3]) else w, t[4]))
  {
    var symbol := c.head.cells[c.head.cursor];
    var m := Lookup(tb.transitions, c.state, symbol).value;
    assert Registered(tb, RuleKey(c.state, if m.wildcard then Wildcard else symbol), Split(m.rule));
  }

  /** Every cell holds a known symbol or a blank the tape grew by. */
  predicate KnownCells(tb: Tables, h: Head)
  {
    forall s :: s in h.cells ==> s in tb.symbols || s == Blank
  }

  /** A lookup finds a rule written for the current state and for the symbol
      read (exact match) or for `*` (wildcard match). */
  lemma LookupFindsOwnRule(tb: Tables, state: string, symbol: string)
    requires WellFormed(tb) && state in tb.states
    requires Lookup(tb.transitions, state, symbol).Some?
    ensures var m := Lookup(tb.transitions, state, symbol).value;
            var t := Split(m.rule);
            |t| == 5 && t[0] == state && t[1] == (if m.wildcard then Wildcard else symbol)
  {
    var m := Lookup(tb.transitions, state, symbol).value;
    var key := RuleKey(state, if m.wildcard then Wildcard else symbol);
    var t := Split(m.rule);
    assert Registered(tb, key, t);
    RuleKeyInjective(t[0], t[1], state, if m.wildcard then Wildcard else symbol);
  }

  /** What a step that continues does: the rule it applies is the one for the
      current state and the symbol read (or `*`); the cell under the cursor
      gets the written symbol, every other cell keeps its symbol, the cursor
      moves by the rule's direction (a blank cell is added when it steps off
      either end, and at the left end the cursor stays on index 0), and the
      state becomes the rule's last
      token as written. */
  lemma StepEffect(tb: Tables, c: Config)
    requires WellFormed(tb) && OnTape(c.head) && Step(tb, c).Continue?
    ensures var symbol := c.head.cells[c.head.cursor];
            var m := Lookup(tb.transitions, c.state, symbol).value;
            var t := Split(m.rule);
            var next := Step(tb, c).next;
            |t| == 5 && t[0] == c.state && t[1] == (if m.wildcard then Wildcard else symbol) &&
            next.state == t[4] &&
            CellAt(next.head, -Delta(t[3])) == Written(t, m.wildcard, symbol) &&
            (forall d :: d != 0 ==> CellAt(next.head, d - Delta(t[3])) == CellAt(c.head, d)) &&
            next.head.cursor == (if t[3] == "l" && c.head.cursor == 0 then 0 else c.head.cursor + Delta(t[3])) &&
            |next.head.cells| == |c.head.cells| + (if AtEdge(c.head, t[3]) then 1 else 0)
  {
    var symbol := c.head.cells[c.head.cursor];
    LookupFindsOwnRule(tb, c.state, symbol);
    var m := Lookup(tb.transitions, c.state, symbol).value;
    var t := Split(m.rule);
    var w := Head(c.head.cells[c.head.cursor := Written(t, m.wildcard, symbol)], c.head.cursor);
    assert forall d :: d != 0 ==> CellAt(w, d) == CellAt(c.head, d);
    assert CellAt(w, 0) == Written(t, m.wildcard, symbol);
  }

  /** An exact rule for the state and the symbol read wins over the state's
      wildcard rule, and its new-symbol token is written as it stands, even
      when it is `*`. */
  lemma ExactRuleWins(tb: Tables, c: Config)
    requires WellFormed(tb) && OnTape(c.head)
    requires c.state in tb.states && c.head.cells[c.head.cursor] in tb.symbols
    requires RuleKey(c.state, c.head.cells[c.head.cursor]) in tb.transitions
    ensures Step(tb, c).Continue?
    ensures var t := Split(tb.transitions[RuleKey(c.state, c.head.cells[c.head.cursor])]);
            |t| == 5 && Step(tb, c).next.state == t[4] &&
            CellAt(Step(tb, c).next.head, -Delta(t[3])) == t[2]
  {
    StepEffect(tb, c);
  }

  /** Without an exact rule the state's wildcard rule applies; a `*` as its
      new symbol writes back the symbol read. */
  lemma WildcardPassThrough(tb: Tables, c: Config)
    requires WellFormed(tb) && OnTape(c.head)
    requires c.state in tb.states && c.head.cells[c.head.cursor] in tb.symbols
    requires RuleKey(c.state, c.head.cells[c.head.cursor]) !in tb.transitions
    requires RuleKey(c.state, Wildcard) in tb.transitions
    ensures Step(tb, c).Continue?
    ensures var t := Split(tb.transitions[RuleKey(c.state, Wildcard)]);
            |t| == 5 && Step(tb, c).next.state == t[4] &&
            CellAt(Step(tb, c).next.head, -Delta(t[3])) ==
              (if t[2] == Wildcard then c.head.cells[c.head.cursor] else t[2])
  {
    StepEffect(tb, c);
  }

  /** The validity checks come first and in this order: a step aborts with an
      invalid state exactly when the state is unknown, and with an invalid
      symbol exactly when the state is known and the symbol read is not. */
  lemma StepChecksValidity(tb: Tables, c: Config)
    requires WellFormed(tb) && OnTape(c.head)
    ensures Step(tb, c) == Abort(InvalidState) <==> c.state !in tb.states
    ensures Step(tb, c) == Abort(InvalidSymbol) <==>
              c.state in tb.states && c.head.cells[c.head.cursor] !in tb.symbols
  {
  }

  /** A known state and symbol with neither an exact nor a wildcard rule halt
      the run on the spot: tape, cursor and state are those of the last step. */
  lemma NoRuleHalts(tb: Tables, c: Config, fuel: nat)
    requires WellFormed(tb) && OnTape(c.head) && fuel > 0
    requires c.state in tb.states && c.head.cells[c.head.cursor] in tb.symbols
    requires RuleKey(c.state, c.head.cells[c.head.cursor]) !in tb.transitions
    requires RuleKey(c.state, Wildcard) !in tb.transitions
    ensures Run(tb, c, fuel) == Halted(c)
  {
  }

  /** A run halts only where no rule matches a known state and symbol. */
  lemma {:induction false} HaltedIsStuck(tb: Tables, c: Config, fuel: nat)
    requires WellFormed(tb) && OnTape(c.head) && Run(tb, c, fuel).Halted?
    ensures var last := Run(tb, c, fuel).last;
            last.state in tb.states && last.head.cells[last.head.cursor] in tb.symbols &&
            RuleKey(last.state, last.head.cells[last.head.cursor]) !in tb.transitions &&
            RuleKey(last.state, Wildcard) !in tb.transitions
    decreases fuel
  {
    if Step(tb, c).Continue? {
      HaltedIsStuck(tb, Step(tb, c).next, fuel - 1);
    }
  }

  /** Every state a step enters is a known state. */
  lemma StepEntersKnownState(tb: Tables, c: Config)
    requires WellFormed(tb) && OnTape(c.head) && Step(tb, c).Continue?
    ensures Step(tb, c).next.state in tb.states
  {
    var symbol := c.head.cells[c.head.cursor];
    var m := Lookup(tb.transitions, c.state, symbol).value;
    assert Registered(tb, RuleKey(c.state, if m.wildcard then Wildcard else symbol), Split(m.rule));
  }

  /** From a known state a run never aborts for an invalid state. */
  lemma {:induction false} KnownStateStaysValid(tb: Tables, c: Config, fuel: nat)
    requires WellFormed(tb) && OnTape(c.head) && c.state in tb.states
    ensures !(Run(tb, c, fuel).Failed? && Run(tb, c, fuel).fault == InvalidState)
    decreases fuel
  {
    if fuel > 0 && Step(tb, c).Continue? {
      StepEntersKnownState(tb, c);
      KnownStateStaysValid(tb, Step(tb, c).next, fuel - 1);
    }
  }

  /** An invalid state can abort a run only at its very first step, before
      anything is written: when the start state `0` is not a known state. */
  lemma InvalidStateOnlyAtStart(tb: Tables, cells: seq<string>, fuel: nat)
    requires WellFormed(tb)
    requires Execute(tb, cells, fuel).Failed? && Execute(tb, cells, fuel).fault == InvalidState
    ensures Start !in tb.states
    ensures Execute(tb, cells, fuel).last == Config(Head(cells, 0), Start)
  {
    if Start in tb.states {
      KnownStateStaysValid(tb, Config(Head(cells, 0), Start), fuel);
    }

  }

  /** A step writes only known symbols onto a tape of known symbols and
      blanks. */
  lemma StepKeepsKnownCells(tb: Tables, c: Config)
    requires WellFormed(tb) && OnTape(c.head) && KnownCells(tb, c.head) && Step(tb, c).Continue?
    ensures KnownCells(tb, Step(tb, c).next.head)
  {
    var symbol := c.head.cells[c.head.cursor];
    var m := Lookup(tb.transitions, c.state, symbol).value;
    var t := Split(m.rule);
    assert Registered(tb, RuleKey(c.state, if m.wildcard then Wildcard else symbol), t);
    var w := c.head.cells[c.head.cursor := Written(t, m.wildcard, symbol)];
    assert forall s :: s in w ==> s in c.head.cells || s == Written(t, m.wildcard, symbol);
  }

  /** On a tape of known symbols, a run aborts for an invalid symbol only on
      a blank cell the tape grew by, and only because `_` was never
      registered: a blank is not implicitly known. */
  lemma {:induction false} InvalidSymbolIsBlank(tb: Tables, c: Config, fuel: nat)
    requires WellFormed(tb) && OnTape(c.head) && KnownCells(tb, c.head)
    requires Run(tb, c, fuel).Failed? && Run(tb, c, fuel).fault == InvalidSymbol
    ensures var last := Run(tb, c, fuel).last;
            last.head.cells[last.head.cursor] == Blank && Blank !in tb.symbols
    decreases fuel
  {
    if Step(tb, c).Continue? {
      StepKeepsKnownCells(tb, c);
      InvalidSymbolIsBlank(tb, Step(tb, c).next, fuel - 1);
    } else {
      assert c.head.cells[c.head.cursor] in c.head.cells;
    }
  }
}
