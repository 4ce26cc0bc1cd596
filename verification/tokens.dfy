/** The two hand-written tokenizers of the interpreter: the one that splits a
    rule line of the transition file (stopping at a `;` comment), and the one
    the executor uses to split a stored rule string again. Both split on every
    single space, so doubled or trailing spaces yield empty tokens. */
module Tokens {

  /** Splitting `s` at every single space, the way a character loop does that
      closes the current token at each space and once more at the last
      character: `Split("a  b ") == ["a", "", "b", ""]`. On the empty string
      such a loop closes nothing and yields no token, while `Split("")` is
      `[""]`; the two tokenizer loops below treat that case on its own. No token holds a space
      (`SplitSpaceFreeTokens`), and there is one more token than there are
      spaces (`SplitCount`). */
  function Split(s: string): (r: seq<string>)
    ensures |r| >= 1
  {
    if s == [] then [""] else Feed(Split(s[..|s| - 1]), s[|s| - 1])
  }

  /** One character of the splitting loop: a space closes the current (last)
      token and opens an empty one, any other character extends it. */
  function Feed(tokens: seq<string>, c: char): (r: seq<string>)
    requires |tokens| >= 1
    ensures |r| >= 1
  {
    if c == ' ' then tokens + [""]
    else tokens[..|tokens| - 1] + [tokens[|tokens| - 1] + [c]]
  }

  /** Every space closes exactly one token: a split has one token more than
      the string has spaces. */
  lemma {:induction false} SplitCount(s: string)
    ensures |Split(s)| == 1 + multiset(s)[' ']
  {
    if s != [] {
      var p, c := s[..|s| - 1], s[|s| - 1];
      SplitCount(p);
      assert s == p + [c];
      assert multiset(s) == multiset(p) + multiset{c};
    }
  }

  /** No token of a split holds a space. */
  lemma {:induction false} SplitSpaceFreeTokens(s: string)
    ensures SpaceFree(Split(s))
  {
    if s != [] {
      var p, c := s[..|s| - 1], s[|s| - 1];
      SplitSpaceFreeTokens(p);
      var tokens := Split(p);
      assert c != ' ' ==> ' ' !in tokens[|tokens| - 1] + [c];
    }
  }

  /** The index of the first `;` of `line`, or `|line|` when there is none. */
  function CommentStart(line: string): (k: nat)
    ensures k <= |line|
    ensures forall j :: 0 <= j < k ==> line[j] != ';'
    ensures k < |line| ==> line[k] == ';'
  {
    if line == [] || line[0] == ';' then 0
    else 1 + CommentStart(line[1..])
  }

  /** The tokens the rule-line loop produces. Without a `;` the whole line is
      split. With one, the text before it is split and its last piece is
      dropped: the loop breaks on the `;` before the piece after the last
      space is appended, so that piece survives only as the empty token
      that a space just before the `;` leaves behind. */
  function LineTokens(line: string): seq<string>
  {
    var k := CommentStart(line);
    if k < |line| then
      var pieces := Split(line[..k]);
      pieces[..|pieces| - 1]
    else if line == [] then []
    else Split(line)
  }

  /** The rule-line tokens hold neither a space nor a `;`. */
  lemma LineTokensClean(line: string)
    ensures SpaceFree(LineTokens(line))
    ensures forall i :: 0 <= i < |LineTokens(line)| ==> ';' !in LineTokens(line)[i]
  {
    var k := CommentStart(line);
    SplitAvoids(line[..k], ';');
    SplitSpaceFreeTokens(line[..k]);
    assert line[..|line|] == line;
  }

  /** A character that is not in `s` is in none of its tokens. */
  lemma {:induction false} SplitAvoids(s: string, x: char)
    requires x !in s
    ensures forall i :: 0 <= i < |Split(s)| ==> x !in Split(s)[i]
  {
    if s != [] {
      var p, c := s[..|s| - 1], s[|s| - 1];
      assert s == p + [c];
      assert x !in p;
      SplitAvoids(p, x);
      SplitSnoc(p, c);
      assert x != c;
    }
  }

  /** True when no token holds a space. */
  predicate SpaceFree(t: seq<string>)
  {
    forall i :: 0 <= i < |t| ==> ' ' !in t[i]
  }

  /** Five tokens as a rule line can give them: none holds a space or a `;`. */
  predicate RuleTokens(t: seq<string>)
  {
    |t| == 5 && SpaceFree(t) && forall i :: 0 <= i < 5 ==> ';' !in t[i]
  }

  /** The rule string stored in the transition table: the five tokens joined by
      single spaces. */
  function RuleText(t: seq<string>): string
    requires |t| == 5
  {
    t[0] + " " + t[1] + " " + t[2] + " " + t[3] + " " + t[4]
  }

  /** The key under which a rule is stored and looked up. */
  function RuleKey(state: string, symbol: string): string
  {
    state + " " + symbol
  }

  /** The rule-line tokenizer, as the character loop that builds `tokens`
      and `token`; it stops at the first `;`. */
  method Tokenize(line: string) returns (tokens: seq<string>)
    ensures tokens == LineTokens(line)
  {
    tokens := [];
    var token := "";
    var i := 0;
    ghost var atComment := false;
    while i < |line|
      invariant i <= |line|
      invariant forall j :: 0 <= j < i ==> line[j] != ';'
      invariant (tokens, token) == Scan(line, i)
      invariant !atComment
    {
      if line[i] == ' ' {
        tokens := tokens + [token];
        token := "";
      } else if line[i] == ';' {
        atComment := true;
        break;
      } else {
        token := token + [line[i]];
      }
      if i == |line| - 1 {
        tokens := tokens + [token];
      }
      i := i + 1;
    }
    ScanSplits(line, i);
    if atComment {
      CommentDropsLastPiece(line, i, tokens, token);
    } else {
      LineWithoutComment(line, tokens);
    }
  }

  /** The variables `tokens` and `token` of either splitting loop after its
      first `i` iterations over `s`, including the append of the last token
      in the iteration on the last character. */
  ghost function Scan(s: string, i: nat): (seq<string>, string)
    requires i <= |s|
  {
    if i == 0 then ([], "")
    else
      var (tokens, token) := Scan(s, i - 1);
      var (tokens', token') := if s[i - 1] == ' ' then (tokens + [token], "") else (tokens, token + [s[i - 1]]);
      if i == |s| then (tokens' + [token'], token') else (tokens', token')
  }

  /** Before the last character the loop's closed tokens and open token make
      up the split of what it has read; after it, the closed tokens are the
      split of the whole string. */
  lemma {:induction false} ScanSplits(s: string, i: nat)
    requires i <= |s|
    ensures i < |s| ==> Scan(s, i).0 + [Scan(s, i).1] == Split(s[..i])
    ensures 0 < i == |s| ==> Scan(s, i).0 == Split(s)
  {
    if i > 0 {
      ScanSplits(s, i - 1);
      var (tokens, token) := Scan(s, i - 1);
      SplitStep(s, i - 1, tokens, token);
      if i == |s| {
        assert s[..i] == s;
      }
    }
  }

  /** Breaking at the first `;` leaves the tokens closed before it and drops
      the one still open. */
  lemma CommentDropsLastPiece(line: string, i: nat, tokens: seq<string>, token: string)
    requires i < |line| && line[i] == ';'
    requires forall j :: 0 <= j < i ==> line[j] != ';'
    requires tokens + [token] == Split(line[..i])
    ensures tokens == LineTokens(line)
  {
    CommentStartAt(line, i);
    assert (tokens + [token])[..|tokens|] == tokens;
  }

  /** A line without `;` is split whole, and an empty line gives no token. */
  lemma LineWithoutComment(line: string, tokens: seq<string>)
    requires forall j :: 0 <= j < |line| ==> line[j] != ';'
    requires 0 < |line| ==> tokens == Split(line)
    requires line == [] ==> tokens == []
    ensures tokens == LineTokens(line)
  {
  }

  /** The executor's loop that splits a stored rule string again; it has no
      comment handling. */
  method SplitRule(transition: string) returns (tokens: seq<string>)
    ensures tokens == if transition == [] then [] else Split(transition)
  {
    tokens := [];
    var token := "";
    var i := 0;
    while i < |transition|
      invariant i <= |transition|
      invariant (tokens, token) == Scan(transition, i)
    {
      if transition[i] == ' ' {
        tokens := tokens + [token];
        token := "";
      } else {
        token := token + [transition[i]];
      }
      if i == |transition| - 1 {
        tokens := tokens + [token];
      }
      i := i + 1;
    }
    ScanSplits(transition, i);
  }

  /** One iteration of either splitting loop: the character at `i` closes the
      current token (a space) or extends it. */
  lemma SplitStep(s: string, i: nat, tokens: seq<string>, token: string)
    requires i < |s| && tokens + [token] == Split(s[..i])
    ensures Split(s[..i + 1]) == if s[i] == ' ' then tokens + [token] + [""] else tokens + [token + [s[i]]]
  {
    assert s[..i + 1] == s[..i] + [s[i]];
    SplitSnoc(s[..i], s[i]);
    assert (tokens + [token])[..|tokens|] == tokens;
  }

  /** A string without spaces is one token. */
  lemma {:induction false} SplitSpaceFree(s: string)
    requires ' ' !in s
    ensures Split(s) == [s]
  {
    if s != [] {
      var p := s[..|s| - 1];
      assert forall x :: x in p ==> x in s;
      SplitSpaceFree(p);
      assert p + [s[|s| - 1]] == s;
    }
  }

  /** Splitting a string with one more character feeds that character. */
  lemma SplitSnoc(p: string, c: char)
    ensures Split(p + [c]) == Feed(Split(p), c)
  {
    assert (p + [c])[..|p + [c]| - 1] == p;
  }

  /** Feeding a character only touches the last token. */
  lemma FeedAppend(x: seq<string>, y: seq<string>, c: char)
    requires |y| >= 1
    ensures Feed(x + y, c) == x + Feed(y, c)
  {
    if c != ' ' {
      assert (x + y)[..|x + y| - 1] == x + y[..|y| - 1];
    }
  }

  /** Splitting at a space splits each side separately. */
  lemma {:induction false} SplitAtSpace(a: string, b: string)
    ensures Split(a + " " + b) == Split(a) + Split(b)
  {
    if b == [] {
      assert a + " " + b == a + [' '];
      SplitSnoc(a, ' ');
    } else {
      var b', c := b[..|b| - 1], b[|b| - 1];
      assert b == b' + [c];
      assert a + " " + b == (a + " " + b') + [c];
      SplitAtSpace(a, b');
      SplitSnoc(a + " " + b', c);
      SplitSnoc(b', c);
      FeedAppend(Split(a), Split(b'), c);
    }
  }

  /** Round trip: re-splitting a stored rule string gives back its five
      tokens, because none of them holds a space. */
  lemma RuleTextRoundTrip(t: seq<string>)
    requires |t| == 5 && SpaceFree(t)
    ensures Split(RuleText(t)) == t
  {
    assert ' ' !in t[0] && ' ' !in t[1] && ' ' !in t[2] && ' ' !in t[3] && ' ' !in t[4];
    JoinRoundTrip(t[0], t[1], t[2], t[3], t[4]);
    assert [t[0], t[1], t[2], t[3], t[4]] == t;
  }

  /** Five space-free words joined by single spaces split back into them. */
  lemma JoinRoundTrip(a: string, b: string, c: string, d: string, e: string)
    requires ' ' !in a && ' ' !in b && ' ' !in c && ' ' !in d && ' ' !in e
    ensures Split(a + " " + b + " " + c + " " + d + " " + e) == [a, b, c, d, e]
  {
    SplitSpaceFree(a);
    SplitThenToken(a, [a], b);
    SplitThenToken(a + " " + b, [a, b], c);
    SplitThenToken(a + " " + b + " " + c, [a, b, c], d);
    SplitThenToken(a + " " + b + " " + c + " " + d, [a, b, c, d], e);
  }

  /** A space followed by a space-free token adds exactly that token. */
  lemma SplitThenToken(prefix: string, tokens: seq<string>, token: string)
    requires Split(prefix) == tokens && ' ' !in token
    ensures Split(prefix + " " + token) == tokens + [token]
  {
    SplitAtSpace(prefix, token);
    SplitSpaceFree(token);
  }

  /** Keys of space-free states are unambiguous: the key determines both the
      state and the symbol. */
  lemma RuleKeyInjective(s1: string, a1: string, s2: string, a2: string)
    requires ' ' !in s1 && ' ' !in s2
    requires RuleKey(s1, a1) == RuleKey(s2, a2)
    ensures s1 == s2 && a1 == a2
  {
    var k := RuleKey(s1, a1);
    RuleKeyLayout(s1, a1);
    RuleKeyLayout(s2, a2);
    if |s1| == |s2| {
      assert s1 == k[..|s1|] == s2;
      assert a1 == k[|s1| + 1..] == a2;
    }
  }

  /** Where the state, the separating space and the symbol sit in a key. */
  lemma RuleKeyLayout(state: string, symbol: string)
    ensures |RuleKey(state, symbol)| == |state| + 1 + |symbol|
    ensures forall i :: 0 <= i < |state| ==> RuleKey(state, symbol)[i] == state[i]
    ensures RuleKey(state, symbol)[|state|] == ' '
  {
  }

  /** The first `;` is where the comment starts. */
  lemma CommentStartAt(line: string, i: nat)
    requires i < |line| && line[i] == ';'
    requires forall j :: 0 <= j < i ==> line[j] != ';'
    ensures CommentStart(line) == i
  {
  }

  /** A `;` that directly follows the last field makes that field vanish,
      while a space before the `;` keeps it: a rule written as
      `0 1 1 r 0;note` yields only four tokens (a syntax error), and
      `0 1 1 r 0 ;note` yields the five fields. */
  lemma CommentNeedsSpace(t: seq<string>, note: string)
    requires |t| == 5 && SpaceFree(t)
    requires forall i :: 0 <= i < 5 ==> ';' !in t[i]
    ensures LineTokens(RuleText(t) + ";" + note) == t[..4]
    ensures LineTokens(RuleText(t) + " ;" + note) == t
  {
    RuleTextRoundTrip(t);
    RuleTextAvoids(t, ';');
    GluedCommentDropsField(RuleText(t), t, note);
    SpacedCommentKeepsField(RuleText(t), t, note);
  }

  /** The joined rule text holds no character that none of its tokens holds,
      other than the separating spaces. */
  lemma RuleTextAvoids(t: seq<string>, x: char)
    requires |t| == 5 && x != ' ' && forall i :: 0 <= i < 5 ==> x !in t[i]
    ensures x !in RuleText(t)
  {
  }

  /** A `;` glued to the last field cuts the line inside that field. */
  lemma GluedCommentDropsField(text: string, t: seq<string>, note: string)
    requires |t| == 5 && Split(text) == t && ';' !in text
    ensures LineTokens(text + ";" + note) == t[..4]
  {
    var glued := text + ";" + note;
    assert glued[..|text|] == text;
    CommentStartAt(glued, |text|);
  }

  /** A space before the `;` closes the last field first. */
  lemma SpacedCommentKeepsField(text: string, t: seq<string>, note: string)
    requires Split(text) == t && ';' !in text
    ensures LineTokens(text + " ;" + note) == t
  {
    var spaced := text + " ;" + note;
    assert spaced[..|text| + 1] == text + " " + "";
    CommentStartAt(spaced, |text| + 1);
    SplitAtSpace(text, "");
  }
}
