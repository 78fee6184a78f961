// The remote client's quoting: join_arguments and tokenize_command_line.
module CommandLine {
  import opened Sequences
  import opened Text

  // ---------------------------------------------------------------- tokenizer

  /** The tokenizer between two characters. */
  datatype Lexer = Lexer(tokens: seq<string>, current: string, inSingleQuotes: bool, inDoubleQuotes: bool, escaping: bool)

  const START := Lexer([], "", false, false, false)

  function Step(s: Lexer, c: char): Lexer {
    if s.escaping then s.(current := s.current + [c], escaping := false)
    else if c == '\\' && !s.inSingleQuotes then s.(escaping := true)
    else if c == '\'' && !s.inDoubleQuotes then s.(inSingleQuotes := !s.inSingleQuotes)
    else if c == '"' && !s.inSingleQuotes then s.(inDoubleQuotes := !s.inDoubleQuotes)
    else if IsSpace(c) && !s.inSingleQuotes && !s.inDoubleQuotes then
      if s.current == "" then s else s.(tokens := s.tokens + [s.current], current := "")
    else s.(current := s.current + [c])
  }

  function Run(s: Lexer, text: string): Lexer
    decreases |text|
  {
    if text == "" then s else Run(Step(s, text[0]), text[1..])
  }

  /** What the tokenizer returns at the end of the input. */
  function Finish(s: Lexer): seq<string> {
    if s.escaping || s.inSingleQuotes || s.inDoubleQuotes then []
    else if s.current == "" then s.tokens
    else s.tokens + [s.current]
  }

  function Tokens(command: string): seq<string> {
    Finish(Run(START, command))
  }

  method TokenizeCommandLine(command: string) returns (tokens: seq<string>)
    ensures tokens == Tokens(command)
  {
    tokens := [];
    var current := "";
    var inSingleQuotes, inDoubleQuotes, escaping := false, false, false;
    for k := 0 to |command|
      invariant Run(Lexer(tokens, current, inSingleQuotes, inDoubleQuotes, escaping), command[k..]) == Run(START, command)
    {
      var c := command[k];
      assert command[k..][1..] == command[k + 1..];
      if escaping {
        current := current + [c];
        escaping := false;
        continue;
      }
      if c == '\\' && !inSingleQuotes {
        escaping := true;
        continue;
      }
      if c == '\'' && !inDoubleQuotes {
        inSingleQuotes := !inSingleQuotes;
        continue;
      }
      if c == '"' && !inSingleQuotes {
        inDoubleQuotes := !inDoubleQuotes;
        continue;
      }
      if IsSpace(c) && !inSingleQuotes && !inDoubleQuotes {
        if current != "" {
          tokens := tokens + [current];
          current := "";
        }
        continue;
      }
      current := current + [c];
    }
    if escaping || inSingleQuotes || inDoubleQuotes {
      return [];
    }
    if current != "" {
      tokens := tokens + [current];
    }
  }

  // ------------------------------------------------------------------ quoting

  predicate Triggers(c: char) {
    c == ' ' || c == '\t' || c == '\r' || c == '\n' || c == '"' || c == '\''
  }

  predicate NeedsQuotes(argument: string) {
    exists k :: 0 <= k < |argument| && Triggers(argument[k])
  }

  function QuotedChar(c: char): string {
    if c == '\\' || c == '"' then ['\\', c] else [c]
  }

  function QuotedChars(argument: string): string {
    if argument == "" then "" else QuotedChar(argument[0]) + QuotedChars(argument[1..])
  }

  function Quoted(argument: string): string {
    if NeedsQuotes(argument) then ['"'] + QuotedChars(argument) + ['"'] else argument
  }

  function Joined(arguments: seq<string>): string {
    if arguments == [] then ""
    else if |arguments| == 1 then Quoted(arguments[0])
    else Joined(arguments[..|arguments| - 1]) + [' '] + Quoted(arguments[|arguments| - 1])
  }

  lemma QuotedStep(done: string, argument: string, k: nat)
    requires k < |argument|
    ensures done + QuotedChars(argument[k..]) == done + QuotedChar(argument[k]) + QuotedChars(argument[k + 1..])
  {
    assert argument[k..][1..] == argument[k + 1..];
    hide QuotedChar;
    assert QuotedChars(argument[k..]) == QuotedChar(argument[k]) + QuotedChars(argument[k + 1..]);
  }

  method JoinArguments(arguments: seq<string>) returns (command: string)
    ensures command == Joined(arguments)
  {
    command := "";
    for i := 0 to |arguments|
      invariant command == Joined(arguments[..i])
    {
      assert arguments[..i + 1][..i] == arguments[..i];
      if i > 0 {
        command := command + [' '];
      }
      var argument := arguments[i];
      var quoted := QuoteArgument(argument);
      command := command + quoted;
    }
    assert arguments[..|arguments|] == arguments;
  }

  method QuoteArgument(argument: string) returns (quoted: string)
    ensures quoted == Quoted(argument)
  {
    if !NeedsQuotes(argument) {
      return argument;
    }
    quoted := ['"'];
    assert argument[0..] == argument && QuotedChars(argument[|argument|..]) == "";
    hide QuotedChars;
    for k := 0 to |argument|
      invariant quoted + QuotedChars(argument[k..]) == ['"'] + QuotedChars(argument)
    {
      QuotedStep(quoted, argument, k);
      var c := argument[k];
      if c == '\\' || c == '"' {
        quoted := quoted + ['\\', c];
      } else {
        quoted := quoted + [c];
      }
    }
    quoted := quoted + ['"'];
  }

  // ------------------------------------------------------- reading arguments back

  lemma {:induction false} RunConcat(s: Lexer, a: string, b: string)
    ensures Run(s, a + b) == Run(Run(s, a), b)
    decreases |a|
  {
    if a == "" {
      assert a + b == b;
    } else {
      RunConcat(Step(s, a[0]), a[1..], b);
      assert (a + b)[1..] == a[1..] + b;
    }
  }

  ghost predicate Outside(s: Lexer) {
    !s.inSingleQuotes && !s.inDoubleQuotes
  }

  lemma StepQuotedChar(s: Lexer, c: char)
    requires !s.inSingleQuotes && s.inDoubleQuotes && !s.escaping
    ensures Run(s, QuotedChar(c)) == s.(current := s.current + [c])
  {
    assert [c][1..] == "" && Run(s, [c]) == Step(s, c);
    if c == '\\' || c == '"' {
      assert QuotedChar(c)[1..] == [c];
      assert Run(s.(escaping := true), [c]) == Step(s.(escaping := true), c);
    }
  }

  lemma {:induction false} RunQuotedChars(s: Lexer, argument: string)
    requires !s.inSingleQuotes && s.inDoubleQuotes && !s.escaping
    ensures Run(s, QuotedChars(argument)) == s.(current := s.current + argument)
    decreases |argument|
  {
    if argument == "" {
      assert s.current + argument == s.current;
    } else {
      StepQuotedChar(s, argument[0]);
      RunConcat(s, QuotedChar(argument[0]), QuotedChars(argument[1..]));
      RunQuotedChars(s.(current := s.current + [argument[0]]), argument[1..]);
      assert s.current + [argument[0]] + argument[1..] == s.current + argument;
    }
  }

  /** A quoted argument is read whole, whatever it holds. */
  lemma RunQuoted(s: Lexer, argument: string)
    requires Outside(s) && !s.escaping && NeedsQuotes(argument)
    ensures Run(s, Quoted(argument)) == s.(current := s.current + argument)
  {
    var inside := s.(inDoubleQuotes := true);
    RunQuotedChars(inside, argument);
    hide QuotedChars;
    RunConcat(s, ['"'] + QuotedChars(argument), ['"']);
    RunConcat(s, ['"'], QuotedChars(argument));
    assert ['"'][1..] == "";
    assert Run(s, ['"']) == inside;
    assert Run(inside.(current := s.current + argument), ['"']) == s.(current := s.current + argument);
  }

  // -------------------------------------------------- single and open quotes

  lemma {:induction false} RunInSingleQuotes(s: Lexer, text: string)
    requires s.inSingleQuotes && !s.inDoubleQuotes && !s.escaping && '\'' !in text
    ensures Run(s, text) == s.(current := s.current + text)
    decreases |text|
  {
    if text == "" {
      assert s.current + text == s.current;
    } else {
      assert text[0] in text;
      RunInSingleQuotes(s.(current := s.current + [text[0]]), text[1..]);
      assert s.current + [text[0]] + text[1..] == s.current + text;
    }
  }

  lemma OneStep(s: Lexer, c: char)
    ensures Run(s, [c]) == Step(s, c)
  {
    assert [c][1..] == "";
  }

  /** A text in single quotes is read whole, backslashes, double quotes and white space included. */
  lemma RunSingleQuoted(s: Lexer, text: string)
    requires Outside(s) && !s.escaping && '\'' !in text
    ensures Run(s, ['\''] + text + ['\'']) == s.(current := s.current + text)
  {
    var inside := s.(inSingleQuotes := true);
    OneStep(s, '\'');
    RunConcat(s, ['\''], text);
    RunConcat(s, ['\''] + text, ['\'']);
    RunInSingleQuotes(inside, text);
    OneStep(inside.(current := s.current + text), '\'');
    hide Run;
  }

  /** A command that is one text in single quotes has that text as its only token. */
  lemma SingleQuotedToken(text: string)
    requires '\'' !in text
    ensures Tokens(['\''] + text + ['\'']) == if text == "" then [] else [text]
  {
    RunSingleQuoted(START, text);
    hide Run;
    assert "" + text == text;
  }

  /** A command that ends within single quotes has no tokens, whatever stands before. */
  lemma OpenSingleQuote(front: string, text: string)
    requires Outside(Run(START, front)) && !Run(START, front).escaping && '\'' !in text
    ensures Tokens(front + (['\''] + text)) == []
  {
    var s := Run(START, front);
    RunConcat(START, front, ['\''] + text);
    RunConcat(s, ['\''], text);
    OneStep(s, '\'');
    RunInSingleQuotes(s.(inSingleQuotes := true), text);
    hide Run;
  }

  /** Nor has one that ends within double quotes, whatever was quoted. */
  lemma OpenDoubleQuote(front: string, argument: string)
    requires Outside(Run(START, front)) && !Run(START, front).escaping
    ensures Tokens(front + (['"'] + QuotedChars(argument))) == []
  {
    var s := Run(START, front);
    RunConcat(START, front, ['"'] + QuotedChars(argument));
    RunConcat(s, ['"'], QuotedChars(argument));
    OneStep(s, '"');
    RunQuotedChars(s.(inDoubleQuotes := true), argument);
    hide Run, QuotedChars;
  }

  /** Nor has one that ends with a backslash, except within single quotes or behind another one. */
  lemma TrailingBackslash(front: string)
    requires !Run(START, front).inSingleQuotes && !Run(START, front).escaping
    ensures Tokens(front + ['\\']) == []
  {
    RunConcat(START, front, ['\\']);
    OneStep(Run(START, front), '\\');
    hide Run;
  }

  // --------------------------------------------------- which arguments come back

  /** White space that does not trigger quoting. */
  predicate IsRareSpace(c: char) {
    c == '\U{B}' || c == '\U{C}'
  }

  predicate Mangled(c: char) {
    c == '\\' || IsRareSpace(c)
  }

  /** Not empty, and without backslash, vertical tab and form feed unless something triggers quoting. */
  predicate Survives(argument: string) {
    argument != "" && (NeedsQuotes(argument) || forall k :: 0 <= k < |argument| ==> !Mangled(argument[k]))
  }

  function RareSpaces(text: string): nat {
    if text == "" then 0 else (if IsRareSpace(text[0]) then 1 else 0) + RareSpaces(text[1..])
  }

  /** Each token weighs its length and one separator. */
  function Weight(tokens: seq<string>): nat {
    if tokens == [] then 0 else Weight(tokens[..|tokens| - 1]) + |tokens[|tokens| - 1]| + 1
  }

  function Score(s: Lexer): nat {
    Weight(s.tokens) + |s.current|
  }

  lemma WeightMore(tokens: seq<string>, token: string)
    ensures Weight(tokens + [token]) == Weight(tokens) + |token| + 1
  {
    assert (tokens + [token])[..|tokens|] == tokens;
  }

  /** One unquoted character scores at most one; a backslash scores nothing. */
  lemma StepScore(s: Lexer, c: char)
    requires Outside(s) && c != '"' && c != '\''
    ensures var t := Step(s, c);
            && Outside(t) && Score(t) <= Score(s) + 1
            && (!s.escaping && c == '\\' ==> Score(t) == Score(s))
            && (!s.escaping && c != '\\' ==>
                  !t.escaping && (Score(t) == Score(s) + 1 ==>
                    |t.tokens| == |s.tokens| + (if IsSpace(c) then 1 else 0) && (!IsSpace(c) ==> t.current == s.current + [c])))
            && (s.escaping ==> !t.escaping && Score(t) == Score(s) + 1)
  {
    WeightMore(s.tokens, s.current);
  }

  /** An unquoted argument scores at most its length, and less if it holds a backslash. */
  lemma {:induction false} RunUnquotedScore(s: Lexer, text: string)
    requires Outside(s) && forall k :: 0 <= k < |text| ==> !Triggers(text[k])
    ensures var t := Run(s, text);
            && Outside(t) && Score(t) <= Score(s) + |text|
            && (!s.escaping && Score(t) == Score(s) + |text| ==>
                  !t.escaping && '\\' !in text && |t.tokens| == |s.tokens| + RareSpaces(text))
    decreases |text|
  {
    if text != "" {
      StepScore(s, text[0]);
      RunUnquotedScore(Step(s, text[0]), text[1..]);
      assert text == [text[0]] + text[1..];
      hide Step, Score;
    }
  }

  lemma {:induction false} RunPlain(s: Lexer, text: string)
    requires Outside(s) && !s.escaping && forall k :: 0 <= k < |text| ==> !Triggers(text[k]) && !Mangled(text[k])
    ensures Run(s, text) == s.(current := s.current + text)
    decreases |text|
  {
    if text == "" {
      assert s.current + text == s.current;
    } else {
      RunPlain(Step(s, text[0]), text[1..]);
      assert s.current + [text[0]] + text[1..] == s.current + text;
    }
  }

  lemma RunSurvivor(s: Lexer, argument: string)
    requires Outside(s) && !s.escaping && Survives(argument)
    ensures Run(s, Quoted(argument)) == s.(current := s.current + argument)
  {
    if NeedsQuotes(argument) {
      RunQuoted(s, argument);
    } else {
      RunPlain(s, argument);
    }
  }

  lemma RunSpace(s: Lexer)
    requires Outside(s)
    ensures Run(s, [' ']) == Step(s, ' ')
  {
    assert [' '][1..] == "";
  }

  lemma RunJoined(arguments: seq<string>)
    requires |arguments| > 1
    ensures Run(START, Joined(arguments)) ==
            Run(Run(Run(START, Joined(arguments[..|arguments| - 1])), [' ']), Quoted(arguments[|arguments| - 1]))
  {
    var front := Joined(arguments[..|arguments| - 1]);
    RunConcat(START, front + [' '], Quoted(arguments[|arguments| - 1]));
    RunConcat(START, front, [' ']);
  }

  lemma StartsEmpty(argument: string)
    requires Survives(argument)
    ensures Run(START, Quoted(argument)) == Lexer([], argument, false, false, false)
  {
    hide Survives, Quoted, Run;
    RunSurvivor(START, argument);
    assert "" + argument == argument;
  }

  lemma NextSurvivor(tokens: seq<string>, current: string, argument: string)
    requires current != "" && Survives(argument)
    ensures Run(Run(Lexer(tokens, current, false, false, false), [' ']), Quoted(argument)) ==
            Lexer(tokens + [current], argument, false, false, false)
  {
    RunSpace(Lexer(tokens, current, false, false, false));
    hide Survives, Quoted, Run;
    RunSurvivor(Lexer(tokens + [current], "", false, false, false), argument);
    assert "" + argument == argument;
  }

  lemma {:induction false} SurvivorsComeBack(arguments: seq<string>)
    requires arguments != [] && forall k :: 0 <= k < |arguments| ==> Survives(arguments[k]) && arguments[k] != ""
    ensures Run(START, Joined(arguments)) == Lexer(arguments[..|arguments| - 1], arguments[|arguments| - 1], false, false, false)
  {
    hide Survives, Quoted, Run;
    var n := |arguments| - 1;
    if n == 0 {
      StartsEmpty(arguments[0]);
    } else {
      SurvivorsComeBack(arguments[..n]);
      RunJoined(arguments);
      hide Joined;
      NextSurvivor(arguments[..n][..n - 1], arguments[n - 1], arguments[n]);
      assert arguments[..n][..n - 1] + [arguments[n - 1]] == arguments[..n];
    }
  }

  /** Everything the arguments and the separators between them can score. */
  function Budget(arguments: seq<string>): int {
    Weight(arguments) - 1
  }

  /** The state behind the joined arguments: within budget, and on budget only if nothing was lost. */
  ghost predicate OnBudget(arguments: seq<string>, s: Lexer) {
    && !s.escaping
    && (forall k :: 0 <= k < |arguments| - 1 ==> arguments[k] != "")
    && (forall k :: 0 <= k < |arguments| ==> NeedsQuotes(arguments[k]) || '\\' !in arguments[k])
    && |s.tokens| == |arguments| - 1 + AllRareSpaces(arguments)
    && (arguments[|arguments| - 1] == "" ==> s.current == "")
  }

  /** Rare white space in the arguments that are not quoted. */
  function AllRareSpaces(arguments: seq<string>): nat {
    if arguments == [] then 0
    else AllRareSpaces(arguments[..|arguments| - 1]) +
         if NeedsQuotes(arguments[|arguments| - 1]) then 0 else RareSpaces(arguments[|arguments| - 1])
  }

  /** The score of one more argument. */
  lemma ArgumentScore(s: Lexer, argument: string)
    requires Outside(s) && !s.escaping
    ensures var t := Run(s, Quoted(argument));
            && Outside(t) && Score(t) <= Score(s) + |argument|
            && (Score(t) == Score(s) + |argument| ==>
                  !t.escaping && (NeedsQuotes(argument) || '\\' !in argument)
                  && |t.tokens| == |s.tokens| + (if NeedsQuotes(argument) then 0 else RareSpaces(argument)))
            && (argument == "" ==> t == s)
  {
    if NeedsQuotes(argument) {
      RunQuoted(s, argument);
    } else {
      RunUnquotedScore(s, argument);
    }
  }

  /** The separator scores at most one, and exactly one only behind a non-empty current token. */
  lemma SeparatorScore(s: Lexer)
    requires Outside(s)
    ensures var t := Run(s, [' ']);
            && Outside(t) && !t.escaping && Score(t) <= Score(s) + 1
            && (!s.escaping && Score(t) == Score(s) + 1 ==> s.current != "" && t.current == "" && |t.tokens| == |s.tokens| + 1)
  {
    RunSpace(s);
    WeightMore(s.tokens, s.current);
  }

  lemma {:induction false} JoinedScore(arguments: seq<string>)
    requires arguments != []
    ensures var s := Run(START, Joined(arguments));
            Outside(s) && Score(s) <= Budget(arguments) && (Score(s) == Budget(arguments) ==> OnBudget(arguments, s))
  {
    var n := |arguments| - 1;
    var last := arguments[n];
    hide Run, Quoted, Score, NeedsQuotes, RareSpaces;
    if n == 0 {
      ArgumentScore(START, last);
      StartScore();
      OneArgument(arguments);
    } else {
      var rest := arguments[..n];
      JoinedScore(rest);
      RunJoined(arguments);
      var before := Run(START, Joined(rest));
      var between := Run(before, [' ']);
      SeparatorScore(before);
      ArgumentScore(between, last);
      hide Joined;
      OneMore(arguments, before, between, Run(between, Quoted(last)));
    }
  }

  lemma StartScore()
    ensures Score(START) == 0
  {
  }

  lemma OneArgument(arguments: seq<string>)
    requires |arguments| == 1
    ensures Budget(arguments) == |arguments[0]|
    ensures AllRareSpaces(arguments) == if NeedsQuotes(arguments[0]) then 0 else RareSpaces(arguments[0])
  {
    assert arguments[..|arguments| - 1] == [];
    assert AllRareSpaces([]) == 0 && Weight([]) == 0;
    hide NeedsQuotes, RareSpaces;
  }

  lemma OneMore(arguments: seq<string>, before: Lexer, between: Lexer, after: Lexer)
    requires |arguments| > 1
    requires var rest := arguments[..|arguments| - 1]; Score(before) <= Budget(rest) && (Score(before) == Budget(rest) ==> OnBudget(rest, before))
    requires Score(between) <= Score(before) + 1
    requires !before.escaping && Score(between) == Score(before) + 1 ==>
               before.current != "" && between.current == "" && |between.tokens| == |before.tokens| + 1
    requires var last := arguments[|arguments| - 1];
             && Score(after) <= Score(between) + |last|
             && (Score(after) == Score(between) + |last| ==>
                   !after.escaping && (NeedsQuotes(last) || '\\' !in last)
                   && |after.tokens| == |between.tokens| + (if NeedsQuotes(last) then 0 else RareSpaces(last)))
             && (last == "" ==> after == between)
    ensures Score(after) <= Budget(arguments) && (Score(after) == Budget(arguments) ==> OnBudget(arguments, after))
  {
    hide Score, NeedsQuotes, RareSpaces;
    var rest, last := arguments[..|arguments| - 1], arguments[|arguments| - 1];
    assert Budget(arguments) == Budget(rest) + 1 + |last|;
    if Score(after) == Budget(arguments) {
      assert OnBudget(rest, before);
      assert rest[|rest| - 1] != "";
      assert forall k :: 0 <= k < |rest| ==> rest[k] == arguments[k];
    }
  }

  lemma {:induction false} NoRareSpaces(text: string)
    requires RareSpaces(text) == 0
    ensures forall k :: 0 <= k < |text| ==> !IsRareSpace(text[k])
  {
    if text != "" {
      NoRareSpaces(text[1..]);
      forall k | 0 <= k < |text| ensures !IsRareSpace(text[k]) {
        assert k > 0 ==> text[k] == text[1..][k - 1];
      }
    }
  }

  lemma {:induction false} NoneRare(arguments: seq<string>, k: nat)
    requires AllRareSpaces(arguments) == 0 && k < |arguments|
    ensures NeedsQuotes(arguments[k]) || RareSpaces(arguments[k]) == 0
  {
    if k < |arguments| - 1 {
      NoneRare(arguments[..|arguments| - 1], k);
    }
  }

  lemma ReturnedWhole(arguments: seq<string>)
    requires arguments != [] && Tokens(Joined(arguments)) == arguments
    ensures forall k :: 0 <= k < |arguments| ==> Survives(arguments[k])
  {
    JoinedScore(arguments);
    var s := Run(START, Joined(arguments));
    hide Run, Joined, NeedsQuotes, RareSpaces, AllRareSpaces;
    if s.current != "" {
      WeightMore(s.tokens, s.current);
    }
    assert Score(s) == Budget(arguments) && s.current != "" && |s.tokens| == |arguments| - 1;
    forall k: nat | k < |arguments| ensures Survives(arguments[k]) {
      NoneRare(arguments, k);
      if !NeedsQuotes(arguments[k]) {
        NoRareSpaces(arguments[k]);
        assert forall j :: 0 <= j < |arguments[k]| ==> arguments[k][j] in arguments[k];
      }
    }
  }

  lemma FinishLast(front: seq<string>, last: string)
    requires last != ""
    ensures Finish(Lexer(front, last, false, false, false)) == front + [last]
  {
  }

  lemma SurvivorsAreNonEmpty(arguments: seq<string>)
    requires forall k :: 0 <= k < |arguments| ==> Survives(arguments[k])
    ensures forall k :: 0 <= k < |arguments| ==> Survives(arguments[k]) && arguments[k] != ""
  {
    hide NeedsQuotes;
  }

  lemma SurvivorsReturn(arguments: seq<string>)
    requires arguments != [] && forall k :: 0 <= k < |arguments| ==> Survives(arguments[k])
    ensures Tokens(Joined(arguments)) == arguments
  {
    hide Survives, Run, Joined, Finish;
    SurvivorsAreNonEmpty(arguments);
    SurvivorsComeBack(arguments);
    FinishLast(arguments[..|arguments| - 1], arguments[|arguments| - 1]);
    assert arguments[..|arguments| - 1] + [arguments[|arguments| - 1]] == arguments;
  }

  /** Quoting round trip: tokenizing the joined arguments returns them exactly when every one of them is
      non-empty and is quoted if it holds a backslash, a vertical tab or a form feed. */
  lemma QuotingRoundTrip(arguments: seq<string>)
    ensures Tokens(Joined(arguments)) == arguments <==> forall k :: 0 <= k < |arguments| ==> Survives(arguments[k])
  {
    if arguments != [] {
      hide Tokens, Joined, Survives;
      if forall k :: 0 <= k < |arguments| ==> Survives(arguments[k]) {
        SurvivorsReturn(arguments);
      }
      if Tokens(Joined(arguments)) == arguments {
        ReturnedWhole(arguments);
      }
    }
  }
}
