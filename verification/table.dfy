/** Loading the transition file: each rule line registers its symbols and
    states and stores the rule under the key `state symbol`. The three
    growing tables are the known symbols, the known states and the
    transitions; a second rule for the same key aborts the load. */
module Table {
  import opened Wrappers
  import opened Tokens

  /** The three tables the loader fills. The source keeps the symbol and
      state tables as maps from a name to itself; only their key sets matter. */
  datatype Tables = Tables(symbols: set<string>, states: set<string>, transitions: map<string, string>)

  /** The tables before the first line is read. */
  const Empty := Tables({}, {}, map[])

  /** Why a load is aborted. */
  datatype LoadError =
    | SyntaxError(line: string)         // a rule line that does not give five tokens
    | DuplicateTransition(key: string)  // a second rule for a key already stored

  /** The tables after a line (or a run of lines), and the error that stopped
      the load, if any. */
  datatype Loaded = Loaded(tables: Tables, error: Option<LoadError>)

  /** A line the loader tokenizes: empty lines and lines starting with `;`
      are skipped without looking at them. */
  predicate IsRuleLine(line: string)
  {
    line != [] && line[0] != ';'
  }

  /** A rule line that gives exactly five tokens. */
  predicate IsRule(line: string)
  {
    IsRuleLine(line) && |LineTokens(line)| == 5
  }

  /** The key a five-token rule line is stored under. */
  function LineKey(line: string): string
    requires IsRule(line)
  {
    var t := LineTokens(line);
    RuleKey(t[0], t[1])
  }

  /** `after` keeps every known symbol and state of `before` and every stored
      rule unchanged. */
  predicate Extends(before: Tables, after: Tables)
  {
    before.symbols <= after.symbols &&
    before.states <= after.states &&
    forall k :: k in before.transitions ==> k in after.transitions && after.transitions[k] == before.transitions[k]
  }

  /** The tokens `t` of a rule stored under `key` are five, their first two
      form `key`, and their two states and two symbols are known. */
  predicate Registered(tb: Tables, key: string, t: seq<string>)
  {
    |t| == 5 && key == RuleKey(t[0], t[1]) &&
    t[0] in tb.states && t[4] in tb.states &&
    t[1] in tb.symbols && t[2] in tb.symbols
  }

  /** What loading guarantees about the tables: names hold no space and every
      stored rule re-splits into the five tokens it was stored from. */
  predicate WellFormed(tb: Tables)
  {
    (forall s :: s in tb.symbols ==> ' ' !in s) &&
    (forall s :: s in tb.states ==> ' ' !in s) &&
    (forall k :: k in tb.transitions ==> Registered(tb, k, Split(tb.transitions[k])))
  }

  /** One line of the transition file. Symbols are registered before the
      duplicate check, so a duplicate line still leaves its two symbols
      registered; states are registered only after the rule is stored. */
  function CheckLine(tb: Tables, line: string): (r: Loaded)
    ensures Extends(tb, r.tables)
    ensures !IsRuleLine(line) ==> r == Loaded(tb, None)
    ensures r.error == Some(SyntaxError(line)) <==> IsRuleLine(line) && !IsRule(line)
    ensures r.error.None? <==> !IsRuleLine(line) || (IsRule(line) && LineKey(line) !in tb.transitions)
    ensures IsRule(line) && LineKey(line) in tb.transitions ==> r.error == Some(DuplicateTransition(LineKey(line)))
    ensures r.error.Some? ==> r.tables.transitions == tb.transitions && r.tables.states == tb.states
    ensures IsRule(line) ==> r.tables.symbols == tb.symbols + {LineTokens(line)[1], LineTokens(line)[2]}
    ensures !IsRule(line) ==> r.tables.symbols == tb.symbols
    ensures r.error.None? && IsRule(line) ==> r.tables.states == tb.states + {LineTokens(line)[0], LineTokens(line)[4]}
    ensures r.error.Some? && r.error.value.DuplicateTransition? ==>
              IsRule(line) && r.error.value.key == LineKey(line) &&
              LineKey(line) in tb.transitions && r.tables.transitions == tb.transitions
    ensures r.error.None? && IsRuleLine(line) ==>
              IsRule(line) && LineKey(line) !in tb.transitions &&
              r.tables.transitions == tb.transitions[LineKey(line) := RuleText(LineTokens(line))]
  {
    if !IsRuleLine(line) then Loaded(tb, None)
    else
      var t := LineTokens(line);
      if |t| != 5 then Loaded(tb, Some(SyntaxError(line)))
      else
        var symbols := tb.symbols + {t[1], t[2]};
        var key := RuleKey(t[0], t[1]);
        if key in tb.transitions then
          Loaded(tb.(symbols := symbols), Some(DuplicateTransition(key)))
        else
          Loaded(Tables(symbols, tb.states + {t[0], t[4]}, tb.transitions[key := RuleText(t)]), None)
  }

  /** The lines of the transition file, in order, stopping at the first error. */
  function LoadAll(tb: Tables, lines: seq<string>): (r: Loaded)
    decreases |lines|
  {
    if lines == [] then Loaded(tb, None)
    else
      var before := LoadAll(tb, lines[..|lines| - 1]);
      if before.error.Some? then before
      else CheckLine(before.tables, lines[|lines| - 1])
  }

  /** Five tokens without spaces or `;`, written as a rule line, are read
      back as exactly those tokens. */
  lemma RuleTextIsRule(t: seq<string>)
    requires RuleTokens(t)
    ensures IsRule(RuleText(t)) && LineTokens(RuleText(t)) == t
    ensures LineKey(RuleText(t)) == RuleKey(t[0], t[1])
  {
    var line := RuleText(t);
    assert ';' !in line;
    assert line[0] in line;
    RuleTextRoundTrip(t);
  }

  /** A file whose only rule line is `t` registers its two symbols and two
      states and stores it under its key. */
  lemma LoadOneRule(t: seq<string>)
    requires RuleTokens(t)
    ensures LoadAll(Empty, [RuleText(t)]) ==
            Loaded(Tables({t[1], t[2]}, {t[0], t[4]}, map[RuleKey(t[0], t[1]) := RuleText(t)]), None)
  {
    RuleTextIsRule(t);
    assert [RuleText(t)][..0] == [];
  }

  /** A second rule line for the same state and symbol aborts the load, even
      when the two rules agree on what to do. */
  lemma SameKeyAborts(t: seq<string>, u: seq<string>)
    requires RuleTokens(t) && RuleTokens(u) && t[0] == u[0] && t[1] == u[1]
    ensures LoadAll(Empty, [RuleText(t), RuleText(u)]).error == Some(DuplicateTransition(RuleKey(t[0], t[1])))
  {
    LoadOneRule(t);
    RuleTextIsRule(u);
    assert [RuleText(t), RuleText(u)][..1] == [RuleText(t)];
  }

  /** A stored rule string gives back, re-split, exactly the tokens of the
      line it came from. */
  lemma StoredRuleRoundTrip(tb: Tables, line: string)
    requires CheckLine(tb, line).error.None? && IsRuleLine(line)
    ensures LineKey(line) in CheckLine(tb, line).tables.transitions
    ensures Split(CheckLine(tb, line).tables.transitions[LineKey(line)]) == LineTokens(line)
  {
    LineTokensClean(line);
    RuleTextRoundTrip(LineTokens(line));
  }

  /** Loading one line keeps the tables well formed. */
  lemma CheckLineWellFormed(tb: Tables, line: string)
    requires WellFormed(tb)
    ensures WellFormed(CheckLine(tb, line).tables)
  {
    var r := CheckLine(tb, line).tables;
    if IsRule(line) {
      var t := LineTokens(line);
      LineTokensClean(line);
      assert ' ' !in t[1] && ' ' !in t[2] && ' ' !in t[0] && ' ' !in t[4];
      if CheckLine(tb, line).error.None? {
        RuleTextRoundTrip(t);
        forall k | k in r.transitions
          ensures Registered(r, k, Split(r.transitions[k]))
        {
          if k != LineKey(line) {
            assert Registered(tb, k, Split(tb.transitions[k]));
          }
        }
      } else {
        forall k | k in r.transitions
          ensures Registered(r, k, Split(r.transitions[k]))
        {
          assert Registered(tb, k, Split(tb.transitions[k]));
        }
      }
    }
  }

  /** Loading several lines keeps the tables well formed. */
  lemma {:induction false} LoadAllWellFormed(tb: Tables, lines: seq<string>)
    requires WellFormed(tb)
    ensures WellFormed(LoadAll(tb, lines).tables)
    decreases |lines|
  {
    if lines != [] {
      var init := lines[..|lines| - 1];
      LoadAllWellFormed(tb, init);
      if LoadAll(tb, init).error.None? {
        CheckLineWellFormed(LoadAll(tb, init).tables, lines[|lines| - 1]);
      }
    }
  }

  /** Loading only grows the tables: no symbol or state is forgotten and no
      stored rule is overwritten, whatever the lines and however the load ends. */
  lemma {:induction false} LoadAllExtends(tb: Tables, lines: seq<string>)
    ensures Extends(tb, LoadAll(tb, lines).tables)
    decreases |lines|
  {
    if lines != [] {
      var init := lines[..|lines| - 1];
      LoadAllExtends(tb, init);
    }
  }

  /** A load that succeeds has read every rule line as five tokens and
      stores each rule line's text under a key that was not stored before. */
  lemma {:induction false} LoadAllStored(tb: Tables, lines: seq<string>)
    requires LoadAll(tb, lines).error.None?
    ensures forall i :: 0 <= i < |lines| && IsRuleLine(lines[i]) ==> IsRule(lines[i])
    ensures forall i :: 0 <= i < |lines| && IsRule(lines[i]) ==>
              LineKey(lines[i]) !in tb.transitions &&
              LineKey(lines[i]) in LoadAll(tb, lines).tables.transitions &&
              LoadAll(tb, lines).tables.transitions[LineKey(lines[i])] == RuleText(LineTokens(lines[i]))
    decreases |lines|
  {
    if lines != [] {
      var init, last := lines[..|lines| - 1], lines[|lines| - 1];
      LoadAllStored(tb, init);
      LoadAllExtends(tb, init);
      var mid := LoadAll(tb, init).tables;
      var r := LoadAll(tb, lines).tables;
      assert r == CheckLine(mid, last).tables;
      forall i | 0 <= i < |lines| && IsRuleLine(lines[i])
        ensures IsRule(lines[i])
      {
        if i < |init| {
          assert lines[i] == init[i];
        }
      }
      forall i | 0 <= i < |lines| && IsRule(lines[i])
        ensures LineKey(lines[i]) !in tb.transitions
        ensures LineKey(lines[i]) in r.transitions
        ensures r.transitions[LineKey(lines[i])] == RuleText(LineTokens(lines[i]))
      {
        if i < |init| {
          assert lines[i] == init[i];
        }
      }
    }
  }

  /** A load that succeeds never sees two rule lines with the same key. */
  lemma {:induction false} LoadAllKeysDistinct(tb: Tables, lines: seq<string>)
    requires LoadAll(tb, lines).error.None?
    ensures forall i, j :: 0 <= i < j < |lines| && IsRule(lines[i]) && IsRule(lines[j]) ==>
              LineKey(lines[i]) != LineKey(lines[j])
    decreases |lines|
  {
    if lines != [] {
      var init, last := lines[..|lines| - 1], lines[|lines| - 1];
      LoadAllKeysDistinct(tb, init);
      LoadAllStored(tb, init);
      var mid := LoadAll(tb, init).tables;
      assert LoadAll(tb, lines) == CheckLine(mid, last);
      forall i, j | 0 <= i < j < |lines| && IsRule(lines[i]) && IsRule(lines[j])
        ensures LineKey(lines[i]) != LineKey(lines[j])
      {
        assert lines[i] == init[i];
        if j == |init| {
          assert LineKey(lines[i]) in mid.transitions;
        } else {
          assert lines[j] == init[j];
        }
      }
    }
  }

  /** The rule lines each give five tokens, under keys that are not stored in
      `tb` and that no two of them share. */
  predicate CleanRules(tb: Tables, lines: seq<string>)
  {
    (forall i :: 0 <= i < |lines| && IsRuleLine(lines[i]) ==>
       IsRule(lines[i]) && LineKey(lines[i]) !in tb.transitions) &&
    (forall i, j :: 0 <= i < j < |lines| && IsRule(lines[i]) && IsRule(lines[j]) ==>
       LineKey(lines[i]) != LineKey(lines[j]))
  }

  /** A load succeeds exactly when its rule lines are clean: every rule line
      gives five tokens and no key is stored twice. */
  lemma LoadAllSucceeds(tb: Tables, lines: seq<string>)
    ensures LoadAll(tb, lines).error.None? <==> CleanRules(tb, lines)
  {
    if LoadAll(tb, lines).error.None? {
      LoadAllStored(tb, lines);
      LoadAllKeysDistinct(tb, lines);
    }
    if CleanRules(tb, lines) {
      CleanRulesLoad(tb, lines);
    }
  }

  /** Clean rule lines load without an error. */
  lemma {:induction false} CleanRulesLoad(tb: Tables, lines: seq<string>)
    requires CleanRules(tb, lines)
    ensures LoadAll(tb, lines).error.None?
    decreases |lines|
  {
    if lines != [] {
      var init, last := lines[..|lines| - 1], lines[|lines| - 1];
      assert forall i :: 0 <= i < |init| ==> init[i] == lines[i];
      CleanRulesLoad(tb, init);
      var before := LoadAll(tb, init);
      if IsRuleLine(last) {
        LoadAllNewKeys(tb, init);
        forall i | 0 <= i < |init| && IsRule(init[i])
          ensures LineKey(init[i]) != LineKey(last)
        {
          assert lines[i] == init[i] && lines[|init|] == last;
        }
        assert LineKey(last) !in before.tables.transitions;
      }
    }
  }

  /** Every key a load adds, whether it succeeds or not, comes from one of its
      rule lines. */
  lemma {:induction false} LoadAllNewKeys(tb: Tables, lines: seq<string>)
    ensures forall k :: k in LoadAll(tb, lines).tables.transitions && k !in tb.transitions ==>
              exists i :: 0 <= i < |lines| && IsRule(lines[i]) && LineKey(lines[i]) == k
    decreases |lines|
  {
    if lines != [] {
      var init, last := lines[..|lines| - 1], lines[|lines| - 1];
      LoadAllNewKeys(tb, init);
      var before := LoadAll(tb, init);
      if before.error.None? {
        var r := CheckLine(before.tables, last);
        assert LoadAll(tb, lines) == r;
        forall k | k in r.tables.transitions && k !in tb.transitions
          ensures exists i :: 0 <= i < |lines| && IsRule(lines[i]) && LineKey(lines[i]) == k
        {
          if k in before.tables.transitions {
            var i :| 0 <= i < |init| && IsRule(init[i]) && LineKey(init[i]) == k;
            assert lines[i] == init[i];
          } else {
            assert r.error.None? && IsRuleLine(last);
            assert IsRule(lines[|init|]) && LineKey(lines[|init|]) == k;
          }
        }
      } else {
        assert LoadAll(tb, lines) == before;
        forall k | k in before.tables.transitions && k !in tb.transitions
          ensures exists i :: 0 <= i < |lines| && IsRule(lines[i]) && LineKey(lines[i]) == k
        {
          var i :| 0 <= i < |init| && IsRule(init[i]) && LineKey(init[i]) == k;
          assert lines[i] == init[i];
        }
      }
    }
  }

  /** The three tables as the source keeps them, filled in place line by line. */
  class Loader {
    var allowedSymbols: set<string>
    var allowedStates: set<string>
    var allowedTransitions: map<string, string>

    /** The tables as a value. */
    function Current(): Tables
      reads this
    {
      Tables(allowedSymbols, allowedStates, allowedTransitions)
    }

    constructor ()
      ensures Current() == Empty
    {
      allowedSymbols, allowedStates, allowedTransitions := {}, {}, map[];
    }

    /** Reads one line of the transition file into the tables. */
    method CheckLineSyntax(line: string) returns (error: Option<LoadError>)
      modifies this
      ensures Loaded(Current(), error) == CheckLine(old(Current()), line)
    {
      if |line| == 0 {
        return None;
      }
      if line[0] == ';' {
        return None;
      }
      var tokens := Tokenize(line);
      if |tokens| != 5 {
        return Some(SyntaxError(line));
      }
      if tokens[1] !in allowedSymbols {
        allowedSymbols := allowedSymbols + {tokens[1]};
      }
      if tokens[2] !in allowedSymbols {
        allowedSymbols := allowedSymbols + {tokens[2]};
      }
      assert allowedSymbols == old(allowedSymbols) + {tokens[1], tokens[2]};
      var completeTransition := tokens[0] + " " + tokens[1] + " " + tokens[2] + " " + tokens[3] + " " + tokens[4];
      var partialTransition := tokens[0] + " " + tokens[1];
      assert completeTransition == RuleText(tokens) && partialTransition == RuleKey(tokens[0], tokens[1]);
      if partialTransition in allowedTransitions {
        return Some(DuplicateTransition(partialTransition));
      }
      allowedTransitions := allowedTransitions[partialTransition := completeTransition];
      if tokens[0] !in allowedStates {
        allowedStates := allowedStates + {tokens[0]};
      }
      if tokens[4] !in allowedStates {
        allowedStates := allowedStates + {tokens[4]};
      }
      assert allowedStates == old(allowedStates) + {tokens[0], tokens[4]};
      return None;
    }

    /** Reads the lines of the transition file in order, stopping at the first
        line that aborts the load. */
    method ReadLines(lines: seq<string>) returns (error: Option<LoadError>)
      modifies this
      ensures Loaded(Current(), error) == LoadAll(old(Current()), lines)
    {
      error := None;
      var i := 0;
      while i < |lines|
        invariant 0 <= i <= |lines|
        invariant Loaded(Current(), error) == LoadAll(old(Current()), lines[..i])
        invariant error.None?
      {
        assert lines[..i + 1][..i] == lines[..i];
        error := CheckLineSyntax(lines[i]);
        if error.Some? {
          assert Loaded(Current(), error) == LoadAll(old(Current()), lines[..i + 1]);
          assert LoadAll(old(Current()), lines) == LoadAll(old(Current()), lines[..i + 1]) by {
            LoadAllStops(old(Current()), lines, i + 1);
          }
          return;
        }
        i := i + 1;
      }
      assert lines[..i] == lines;
    }
  }

  /** Once a prefix of the lines aborts the load, the rest is never read. */
  lemma {:induction false} LoadAllStops(tb: Tables, lines: seq<string>, n: nat)
    requires n <= |lines| && LoadAll(tb, lines[..n]).error.Some?
    ensures LoadAll(tb, lines) == LoadAll(tb, lines[..n])
    decreases |lines| - n
  {
    if n < |lines| {
      assert lines[..n + 1][..n] == lines[..n];
      LoadAllStops(tb, lines, n + 1);
    } else {
      assert lines[..n] == lines;
    }
  }
}
