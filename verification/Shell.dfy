/** Splitting a shell command into words, or giving up on it. */
module Shell {
  import opened Trees

  predicate IsSpace(c: char) {
    c == ' ' || c == '\n' || c == '\U{000C}' || c == '\t'
  }

  const CONTROL: set<char> := {'$', '>', '<', '&', '|', ';', '*', '?', '(', ')', '{', '}', '~', '`', '#'}

  predicate IsControl(c: char) {
    c in CONTROL
  }

  // ---------------------------------------------------------------- one character at a time

  datatype Mode = Plain | Escaped | Single | Double | DoubleEscaped

  /** `spaced`: the character before, quoted or not, was a space, or there was none. */
  datatype State = State(mode: Mode, word: string, result: seq<string>, spaced: bool)

  /** None: give up. */
  function Step(s: State, c: char): Option<State> {
    var next := s.(spaced := IsSpace(c));
    var taken := next.(word := s.word + [c]);
    match s.mode
    case Single => Some(if c == '\'' then next.(mode := Plain) else taken)
    case DoubleEscaped => Some(taken.(mode := Double))
    case Double =>
      if c == '"' then Some(next.(mode := Plain))
      else if c == '\\' then Some(next.(mode := DoubleEscaped))
      else if c == '$' then None
      else Some(taken)
    case Escaped => Some(taken.(mode := Plain))
    case Plain =>
      if c == '\'' then Some(next.(mode := Single))
      else if c == '"' then Some(next.(mode := Double))
      else if c == '\\' then Some(next.(mode := Escaped))
      else if IsControl(c) then None
      else if !IsSpace(c) then Some(taken)
      else if s.spaced then Some(next)
      else Some(next.(result := s.result + [s.word], word := ""))
  }

  function Steps(s: State, text: string): Option<State>
    decreases |text|
  {
    if text == "" then Some(s)
    else
      match Step(s, text[0])
      case None => None
      case Some(s1) => Steps(s1, text[1..])
  }

  lemma OneStep(s: State, c: char)
    ensures Steps(s, [c]) == Step(s, c)
  {
    assert [c][1..] == "";
  }

  lemma TwoSteps(s: State, b: char, c: char)
    ensures Steps(s, [b, c]) == match Step(s, b) case None => None case Some(t) => Step(t, c)
  {
    assert [b, c][1..] == [c];
    if Step(s, b).Some? {
      OneStep(Step(s, b).value, c);
    }
  }

  function Finish(s: State): seq<string> {
    if s.spaced then s.result else s.result + [s.word]
  }

  function Outcome(s: State, text: string): Option<seq<string>> {
    match Steps(s, text)
    case None => None
    case Some(t) => Some(Finish(t))
  }

  function Parse(cmd: string): Option<seq<string>> {
    Outcome(State(Plain, "", [], true), cmd)
  }

  function ModeOf(escape: bool, squote: bool, dquote: bool): Mode {
    if squote then Single
    else if dquote then (if escape then DoubleEscaped else Double)
    else if escape then Escaped else Plain
  }

  /** ParseCommand. */
  method ParseCommand(cmd: string) returns (words: Option<seq<string>>)
    ensures words == Parse(cmd)
  {
    var escape, squote, dquote := false, false, false;
    var result: seq<string>, word: string := [], "";
    for i := 0 to |cmd|
      invariant Steps(State(Plain, "", [], true), cmd) ==
        Steps(State(ModeOf(escape, squote, dquote), word, result, i == 0 || IsSpace(cmd[i - 1])), cmd[i..])
      invariant squote ==> !escape && !dquote
    {
      var c := cmd[i];
      assert cmd[i..][0] == c && cmd[i..][1..] == cmd[i + 1..];
      ghost var s := State(ModeOf(escape, squote, dquote), word, result, i == 0 || IsSpace(cmd[i - 1]));
      assert Steps(s, cmd[i..]) == match Step(s, c) case None => None case Some(t) => Steps(t, cmd[i + 1..]);
      if squote {
        if c == '\'' {
          squote := false;
        } else {
          word := word + [c];
        }
        continue;
      }
      if dquote {
        if escape {
          word := word + [c];
          escape := false;
          continue;
        }
        match c {
          case '"' => dquote := !dquote;
          case '\\' => escape := true;
          case '$' => return None;
          case _ => word := word + [c];
        }
        continue;
      }
      if escape {
        word := word + [c];
        escape := false;
        continue;
      }
      if c == '\'' {
        squote := true;
        continue;
      }
      if c == '"' {
        dquote := true;
        continue;
      }
      if c == '\\' {
        escape := true;
        continue;
      }
      if IsControl(c) {
        return None;
      }
      if IsSpace(c) {
        if i > 0 && !IsSpace(cmd[i - 1]) {
          result := result + [word];
          word := "";
        }
      } else {
        word := word + [c];
      }
    }
    if |cmd| > 0 && !IsSpace(cmd[|cmd| - 1]) {
      result := result + [word];
    }
    words := Some(result);
  }

  lemma {:induction false} StepsConcat(s: State, a: string, b: string)
    ensures Steps(s, a + b) == match Steps(s, a) case None => None case Some(t) => Steps(t, b)
    decreases |a|
  {
    if a == "" {
      assert a + b == b;
    } else {
      assert (a + b)[1..] == a[1..] + b;
      if Step(s, a[0]).Some? {
        StepsConcat(Step(s, a[0]).value, a[1..], b);
      }
    }
  }

  // ---------------------------------------------------------------- ways to write a word

  /** What section 2.3 (Token Recognition) of the POSIX.1-2017 Shell Command Language ends a word at. */
  predicate Separates(c: char) {
    c == ' ' || c == '\t' || c == '\n'
  }

  /** The ways of writing part of a word, as section 2.2 (Quoting) there has them: as it is, after a
      backslash, in single quotes, in double quotes. */
  datatype Segment = Bare(c: char) | Slash(c: char) | Quoted(s: string) | DoubleQuoted(chars: seq<DoubleChar>)

  /** In double quotes, with a backslash before it or without. */
  datatype DoubleChar = As(c: char) | Back(c: char)

  predicate WfInside(d: DoubleChar) {
    d.As? ==> d.c != '"' && d.c != '\\' && d.c != '$'
  }

  predicate WfSegment(g: Segment) {
    match g
    case Bare(c) => !Separates(c) && !IsControl(c) && c != '\'' && c != '"' && c != '\\'
    case Slash(_) => true
    case Quoted(s) => '\'' !in s
    case DoubleQuoted(chars) => forall i :: 0 <= i < |chars| ==> WfInside(chars[i])
  }

  function SpellInside(chars: seq<DoubleChar>): string {
    if chars == [] then ""
    else (if chars[0].As? then [chars[0].c] else ['\\', chars[0].c]) + SpellInside(chars[1..])
  }

  function Spell(g: Segment): string {
    match g
    case Bare(c) => [c]
    case Slash(c) => ['\\', c]
    case Quoted(s) => ['\''] + s + ['\'']
    case DoubleQuoted(chars) => ['"'] + SpellInside(chars) + ['"']
  }

  function TakeInside(chars: seq<DoubleChar>): string {
    if chars == [] then "" else [chars[0].c] + TakeInside(chars[1..])
  }

  /** The program takes a form feed outside quotes for a space. */
  predicate Feeds(g: Segment) {
    g == Bare('\U{000C}')
  }

  /** What the program adds to a word. */
  function Taken(g: Segment): string {
    match g
    case Bare(c) => if Feeds(g) then "" else [c]
    case Slash(c) => [c]
    case Quoted(s) => s
    case DoubleQuoted(chars) => TakeInside(chars)
  }

  predicate EndsInSpace(g: Segment) {
    g.Slash? && IsSpace(g.c)
  }

  lemma Assoc<T>(a: seq<T>, b: seq<T>, c: seq<T>)
    ensures (a + b) + c == a + (b + c)
  {
  }

  lemma {:induction false} SingleSteps(s: State, body: string)
    requires s.mode == Single && '\'' !in body
    ensures Steps(s, body).Some?
    ensures var t := Steps(s, body).value; t.mode == Single && t.word == s.word + body && t.result == s.result
    decreases |body|
  {
    if body != "" {
      var t := Step(s, body[0]).value;
      SingleSteps(t, body[1..]);
      assert s.word + body == t.word + body[1..];
    }
  }

  lemma {:induction false} InsideStep(s: State, d: DoubleChar)
    requires s.mode == Double && WfInside(d)
    ensures Steps(s, if d.As? then [d.c] else ['\\', d.c]) ==
      Some(State(Double, s.word + [d.c], s.result, IsSpace(d.c)))
  {
    OneStep(s, d.c);
    TwoSteps(s, '\\', d.c);
  }

  lemma {:induction false} DoubleSteps(s: State, chars: seq<DoubleChar>)
    requires s.mode == Double && WfSegment(DoubleQuoted(chars))
    ensures Steps(s, SpellInside(chars)).Some?
    ensures var t := Steps(s, SpellInside(chars)).value;
      t.mode == Double && t.word == s.word + TakeInside(chars) && t.result == s.result
    decreases |chars|
  {
    if chars != [] {
      InsideStep(s, chars[0]);
      var t := State(Double, s.word + [chars[0].c], s.result, IsSpace(chars[0].c));
      assert WfSegment(DoubleQuoted(chars[1..]));
      DoubleSteps(t, chars[1..]);
      assert Steps(s, SpellInside(chars)) == Steps(t, SpellInside(chars[1..])) by {
        StepsConcat(s, if chars[0].As? then [chars[0].c] else ['\\', chars[0].c], SpellInside(chars[1..]));
      }
      TakeInsideMore(s.word, chars);
    }
  }

  lemma TakeInsideMore(before: string, chars: seq<DoubleChar>)
    requires chars != []
    ensures (before + [chars[0].c]) + TakeInside(chars[1..]) == before + TakeInside(chars)
  {
    Assoc(before, [chars[0].c], TakeInside(chars[1..]));
  }

  /** Reading one segment adds to the word what the program takes it for. */
  lemma SegmentSteps(s: State, g: Segment)
    requires s.mode == Plain && WfSegment(g) && !Feeds(g)
    ensures Steps(s, Spell(g)) == Some(State(Plain, s.word + Taken(g), s.result, EndsInSpace(g)))
  {
    match g
    case Bare(c) => OneStep(s, c);
    case Slash(c) => TwoSteps(s, '\\', c);
    case Quoted(body) =>
      var t := State(Single, s.word, s.result, false);
      assert (['\''] + body + ['\''])[1..] == body + ['\''];
      StepsConcat(t, body, ['\'']);
      SingleSteps(t, body);
      OneStep(Steps(t, body).value, '\'');
    case DoubleQuoted(chars) =>
      var t := State(Double, s.word, s.result, false);
      assert (['"'] + SpellInside(chars) + ['"'])[1..] == SpellInside(chars) + ['"'];
      StepsConcat(t, SpellInside(chars), ['"']);
      DoubleSteps(t, chars);
      OneStep(Steps(t, SpellInside(chars)).value, '"');
  }

  // ---------------------------------------------------------------- words and the gaps between them

  function SpellWord(w: seq<Segment>): string {
    if w == [] then "" else Spell(w[0]) + SpellWord(w[1..])
  }

  function TakeWord(w: seq<Segment>): string {
    if w == [] then "" else Taken(w[0]) + TakeWord(w[1..])
  }

  predicate WfWord(w: seq<Segment>) {
    w != [] && forall i :: 0 <= i < |w| ==> WfSegment(w[i])
  }

  predicate NoFeed(w: seq<Segment>) {
    forall i :: 0 <= i < |w| ==> !Feeds(w[i])
  }

  /** Its spelling ends in a space, which can only be one after a backslash. */
  predicate Trailing(w: seq<Segment>)
    requires w != []
  {
    EndsInSpace(w[|w| - 1])
  }

  lemma {:induction false} WordSteps(s: State, w: seq<Segment>)
    requires s.mode == Plain && WfWord(w) && NoFeed(w)
    ensures Steps(s, SpellWord(w)) == Some(State(Plain, s.word + TakeWord(w), s.result, Trailing(w)))
    decreases |w|
  {
    var t := State(Plain, s.word + Taken(w[0]), s.result, EndsInSpace(w[0]));
    assert Steps(s, SpellWord(w)) == Steps(t, SpellWord(w[1..])) by {
      SegmentSteps(s, w[0]);
      StepsConcat(s, Spell(w[0]), SpellWord(w[1..]));
    }
    if |w| > 1 {
      WordSteps(t, w[1..]);
      TakeMore(s.word, w);
    } else {
      assert SpellWord(w[1..]) == "" && TakeWord(w) == Taken(w[0]);
    }
  }

  lemma TakeMore(before: string, w: seq<Segment>)
    requires w != []
    ensures (before + Taken(w[0])) + TakeWord(w[1..]) == before + TakeWord(w)
  {
    Assoc(before, Taken(w[0]), TakeWord(w[1..]));
  }

  /** A word and what separates it from the next. */
  datatype Written = Written(word: seq<Segment>, gap: string)

  predicate Blank(s: string) {
    forall i :: 0 <= i < |s| ==> Separates(s[i])
  }

  /** Space of any kind between words, and after the last if one likes. */
  predicate WfText(ws: seq<Written>) {
    forall i :: 0 <= i < |ws| ==> WfWord(ws[i].word) && Blank(ws[i].gap) && (i < |ws| - 1 ==> ws[i].gap != "")
  }

  predicate NoFeeds(ws: seq<Written>) {
    forall i :: 0 <= i < |ws| ==> NoFeed(ws[i].word)
  }

  function Text(ws: seq<Written>): string {
    if ws == [] then "" else SpellWord(ws[0].word) + ws[0].gap + Text(ws[1..])
  }

  function Takens(ws: seq<Written>): seq<string> {
    if ws == [] then [] else [TakeWord(ws[0].word)] + Takens(ws[1..])
  }

  function Clean(ws: seq<Written>): nat
    requires WfText(ws)
  {
    if ws == [] then 0
    else
      assert WfText(ws[1..]);
      (if Trailing(ws[0].word) then 0 else 1) + Clean(ws[1..])
  }

  /** The first space after something ends a word; the others do nothing. */
  lemma {:induction false} GapSteps(s: State, gap: string)
    requires s.mode == Plain && Blank(gap)
    ensures Steps(s, gap) == Some(
      if gap == "" then s
      else if s.spaced then s
      else State(Plain, "", s.result + [s.word], true))
    decreases |gap|
  {
    if gap != "" {
      var t := Step(s, gap[0]).value;
      GapSteps(t, gap[1..]);
    }
  }

  /** The state after a word and its gap. */
  function After(s: State, w: Written): State
    requires w.word != []
  {
    var word := s.word + TakeWord(w.word);
    if w.gap == "" || Trailing(w.word) then State(Plain, word, s.result, Trailing(w.word))
    else State(Plain, "", s.result + [word], true)
  }

  lemma {:induction false} WrittenSteps(s: State, ws: seq<Written>)
    requires s.mode == Plain && ws != [] && WfText(ws) && NoFeeds(ws)
    ensures Steps(s, Text(ws)) == Steps(After(s, ws[0]), Text(ws[1..]))
    ensures WfText(ws[1..]) && NoFeeds(ws[1..])
  {
    WordSteps(s, ws[0].word);
    var t := State(Plain, s.word + TakeWord(ws[0].word), s.result, Trailing(ws[0].word));
    GapSteps(t, ws[0].gap);
    StepsConcat(s, SpellWord(ws[0].word), ws[0].gap);
    StepsConcat(s, SpellWord(ws[0].word) + ws[0].gap, Text(ws[1..]));
  }

  /** Every word that does not end in a space adds one to the result, and no other does. */
  lemma {:induction false} WordCount(s: State, ws: seq<Written>)
    requires s.mode == Plain && s.spaced && WfText(ws) && NoFeeds(ws)
    ensures Outcome(s, Text(ws)).Some? && |Outcome(s, Text(ws)).value| == |s.result| + Clean(ws)
    decreases |ws|
  {
    if ws != [] {
      WrittenSteps(s, ws);
      if ws[0].gap == "" {
        assert ws[1..] == [];
      } else {
        WordCount(After(s, ws[0]), ws[1..]);
      }
    }
  }

  predicate NoneTrailing(ws: seq<Written>)
    requires WfText(ws)
  {
    forall i :: 0 <= i < |ws| ==> !Trailing(ws[i].word)
  }

  lemma OneRead(s: State, w: Written, rest: seq<string>)
    requires s.word == "" && w.word != [] && !Trailing(w.word)
    ensures w.gap != "" ==> After(s, w) == State(Plain, "", s.result + [TakeWord(w.word)], true)
    ensures w.gap == "" ==> After(s, w) == State(Plain, TakeWord(w.word), s.result, false)
    ensures (s.result + [TakeWord(w.word)]) + rest == s.result + ([TakeWord(w.word)] + rest)
  {
    assert "" + TakeWord(w.word) == TakeWord(w.word);
  }

  /** If no word ends in a space, the result is the words, as the program takes them. */
  lemma {:induction false} WordsRead(s: State, ws: seq<Written>)
    requires s.mode == Plain && s.spaced && s.word == "" && WfText(ws) && NoFeeds(ws) && NoneTrailing(ws)
    ensures Outcome(s, Text(ws)) == Some(s.result + Takens(ws))
    decreases |ws|
  {
    if ws == [] {
      assert s.result + Takens(ws) == s.result;
    } else {
      WrittenSteps(s, ws);
      assert !Trailing(ws[0].word);
      OneRead(s, ws[0], Takens(ws[1..]));
      if ws[0].gap == "" {
        assert ws[1..] == [] && Takens(ws) == [TakeWord(ws[0].word)];
      } else {
        WordsRead(After(s, ws[0]), ws[1..]);
      }
    }
  }

  // ---------------------------------------------------------------- nothing the program takes is lost

  function Joined(words: seq<string>): string {
    if words == [] then "" else words[0] + Joined(words[1..])
  }

  lemma {:induction false} JoinedSnoc(words: seq<string>, w: string)
    ensures Joined(words + [w]) == Joined(words) + w
    decreases |words|
  {
    if words == [] {
      assert [] + [w] == [w] && [w][1..] == [];
    } else {
      assert (words + [w])[1..] == words[1..] + [w];
      JoinedSnoc(words[1..], w);
      assert words[0] + (Joined(words[1..]) + w) == words[0] + Joined(words[1..]) + w;
    }
  }

  /** All characters taken so far, in order. */
  function Flat(s: State): string {
    Joined(s.result) + s.word
  }

  function TakeText(ws: seq<Written>): string {
    if ws == [] then "" else TakeWord(ws[0].word) + TakeText(ws[1..])
  }

  lemma FlatSegment(s: State, g: Segment)
    requires s.mode == Plain && WfSegment(g)
    ensures Steps(s, Spell(g)).Some?
    ensures var t := Steps(s, Spell(g)).value; t.mode == Plain && Flat(t) == Flat(s) + Taken(g)
  {
    if Feeds(g) {
      OneStep(s, g.c);
      FlatFlushed(s);
    } else {
      SegmentSteps(s, g);
      Assoc(Joined(s.result), s.word, Taken(g));
    }
  }

  /** Putting the word at hand into the result loses nothing. */
  lemma FlatFlushed(s: State)
    ensures forall mode, spaced :: Flat(State(mode, "", s.result + [s.word], spaced)) == Flat(s)
    ensures Flat(s) + "" == Flat(s)
  {
    JoinedSnoc(s.result, s.word);
    assert Flat(s) + "" == Flat(s);
  }

  lemma {:induction false} FlatWord(s: State, w: seq<Segment>)
    requires s.mode == Plain && forall i :: 0 <= i < |w| ==> WfSegment(w[i])
    ensures Steps(s, SpellWord(w)).Some?
    ensures var t := Steps(s, SpellWord(w)).value; t.mode == Plain && Flat(t) == Flat(s) + TakeWord(w)
    decreases |w|
  {
    if w != [] {
      FlatSegment(s, w[0]);
      var t := Steps(s, Spell(w[0])).value;
      FlatWord(t, w[1..]);
      StepsConcat(s, Spell(w[0]), SpellWord(w[1..]));
      TakeMore(Flat(s), w);
    }
  }

  lemma FlatGap(s: State, gap: string)
    requires s.mode == Plain && Blank(gap)
    ensures Steps(s, gap).Some?
    ensures var t := Steps(s, gap).value; t.mode == Plain && Flat(t) == Flat(s)
  {
    GapSteps(s, gap);
    FlatFlushed(s);
  }

  lemma FlatWritten(s: State, w: Written)
    requires s.mode == Plain && WfWord(w.word) && Blank(w.gap)
    ensures Steps(s, SpellWord(w.word) + w.gap).Some?
    ensures var t := Steps(s, SpellWord(w.word) + w.gap).value;
      t.mode == Plain && Flat(t) == Flat(s) + TakeWord(w.word)
  {
    FlatWord(s, w.word);
    StepsConcat(s, SpellWord(w.word), w.gap);
    FlatGap(Steps(s, SpellWord(w.word)).value, w.gap);
  }

  lemma TakeTextMore(before: string, ws: seq<Written>)
    requires ws != []
    ensures (before + TakeWord(ws[0].word)) + TakeText(ws[1..]) == before + TakeText(ws)
  {
    Assoc(before, TakeWord(ws[0].word), TakeText(ws[1..]));
  }

  /** Whatever the text, the program keeps all it takes, in its result or in the word it is at. */
  lemma {:induction false} FlatText(s: State, ws: seq<Written>)
    requires s.mode == Plain && WfText(ws)
    ensures Steps(s, Text(ws)).Some?
    ensures var t := Steps(s, Text(ws)).value; t.mode == Plain && Flat(t) == Flat(s) + TakeText(ws)
    decreases |ws|
  {
    if ws != [] {
      FlatWritten(s, ws[0]);
      var first := SpellWord(ws[0].word) + ws[0].gap;
      var t := Steps(s, first).value;
      FlatText(t, ws[1..]);
      StepsConcat(s, first, Text(ws[1..]));
      TakeTextMore(Flat(s), ws);
    }
  }

  // ---------------------------------------------------------------- giving up

  lemma ControlStops(s: State, c: char, rest: string)
    requires s.mode == Plain && IsControl(c)
    ensures Steps(s, [c] + rest) == None
  {
    StepsConcat(s, [c], rest);
    OneStep(s, c);
  }

  /** A shell metacharacter outside quotes ends the attempt, whatever follows. */
  lemma GivesUp(ws: seq<Written>, c: char, rest: string)
    requires WfText(ws) && IsControl(c)
    ensures Parse(Text(ws) + ([c] + rest)) == None
  {
    var s := State(Plain, "", [], true);
    FlatText(s, ws);
    StepsConcat(s, Text(ws), [c] + rest);
    ControlStops(Steps(s, Text(ws)).value, c, rest);
  }

  lemma DollarStops(s: State, chars: seq<DoubleChar>, rest: string)
    requires s.mode == Double && WfSegment(DoubleQuoted(chars))
    ensures Steps(s, SpellInside(chars) + (['$'] + rest)) == None
  {
    DoubleSteps(s, chars);
    StepsConcat(s, SpellInside(chars), ['$'] + rest);
    var t := Steps(s, SpellInside(chars)).value;
    StepsConcat(t, ['$'], rest);
    OneStep(t, '$');
  }

  /** So does a dollar in double quotes. */
  lemma GivesUpInDouble(ws: seq<Written>, chars: seq<DoubleChar>, rest: string)
    requires WfText(ws) && WfSegment(DoubleQuoted(chars))
    ensures Parse(Text(ws) + (['"'] + (SpellInside(chars) + (['$'] + rest)))) == None
  {
    var s, more := State(Plain, "", [], true), SpellInside(chars) + (['$'] + rest);
    FlatText(s, ws);
    var t := Steps(s, Text(ws)).value;
    StepsConcat(s, Text(ws), ['"'] + more);
    StepsConcat(t, ['"'], more);
    OneStep(t, '"');
    DollarStops(Step(t, '"').value, chars, rest);
  }

  // ---------------------------------------------------------------- every command line

  /** What follows an opening single quote, if the quote is closed. */
  lemma {:induction false} ReadSingle(s: State, cmd: string) returns (body: string, rest: string)
    requires s.mode == Single && Steps(s, cmd).Some? && Steps(s, cmd).value.mode == Plain
    ensures '\'' !in body && cmd == body + ['\''] + rest
    decreases |cmd|
  {
    if cmd[0] == '\'' {
      body, rest := "", cmd[1..];
      assert cmd == [cmd[0]] + rest;
    } else {
      body, rest := ReadSingle(Step(s, cmd[0]).value, cmd[1..]);
      assert cmd == [cmd[0]] + cmd[1..];
      body := [cmd[0]] + body;
    }
  }

  lemma {:induction false} ReadDouble(s: State, cmd: string) returns (chars: seq<DoubleChar>, rest: string)
    requires s.mode == Double && Steps(s, cmd).Some? && Steps(s, cmd).value.mode == Plain
    ensures WfSegment(DoubleQuoted(chars)) && cmd == SpellInside(chars) + ['"'] + rest
    decreases |cmd|
  {
    if cmd[0] == '"' {
      chars, rest := [], cmd[1..];
      assert cmd == [cmd[0]] + cmd[1..];
    } else {
      var d, t, more := ReadChar(s, cmd);
      var others;
      others, rest := ReadDouble(t, more);
      chars := [d] + others;
      assert chars[1..] == others;
      Regroup(if d.As? then [d.c] else ['\\', d.c], SpellInside(others), ['"'], rest);
    }
  }

  /** The first character in double quotes. */
  lemma ReadChar(s: State, cmd: string) returns (d: DoubleChar, t: State, more: string)
    requires s.mode == Double && Steps(s, cmd).Some? && Steps(s, cmd).value.mode == Plain && cmd != "" && cmd[0] != '"'
    ensures WfInside(d) && cmd == (if d.As? then [d.c] else ['\\', d.c]) + more && |more| < |cmd|
    ensures t.mode == Double && Steps(t, more) == Steps(s, cmd)
  {
    assert cmd == [cmd[0]] + cmd[1..];
    d, t, more := As(cmd[0]), Step(s, cmd[0]).value, cmd[1..];
    if cmd[0] == '\\' {
      assert more == [more[0]] + more[1..];
      d, t, more := Back(more[0]), Step(t, more[0]).value, more[1..];
    }
  }

  /** The first segment of what is left. */
  lemma ReadSegment(s: State, cmd: string) returns (g: Segment, rest: string)
    requires s.mode == Plain && Steps(s, cmd).Some? && Steps(s, cmd).value.mode == Plain
    requires cmd != "" && !Separates(cmd[0])
    ensures WfSegment(g) && cmd == Spell(g) + rest && |rest| < |cmd|
  {
    var c, more := cmd[0], cmd[1..];
    assert cmd == [c] + more;
    if c == '\'' {
      var body;
      body, rest := ReadSingle(Step(s, c).value, more);
      g := Quoted(body);
    } else if c == '"' {
      var chars;
      chars, rest := ReadDouble(Step(s, c).value, more);
      g := DoubleQuoted(chars);
    } else if c == '\\' {
      g, rest := Slash(more[0]), more[1..];
      assert more == [more[0]] + rest;
    } else {
      g, rest := Bare(c), more;
    }
  }

  lemma NextSegment(s: State, cmd: string) returns (g: Segment, t: State, rest: string)
    requires s.mode == Plain && Steps(s, cmd).Some? && Steps(s, cmd).value.mode == Plain
    requires cmd != "" && !Separates(cmd[0])
    ensures WfSegment(g) && cmd == Spell(g) + rest && |rest| < |cmd|
    ensures t.mode == Plain && Steps(t, rest) == Steps(s, cmd)
  {
    g, rest := ReadSegment(s, cmd);
    FlatSegment(s, g);
    t := Steps(s, Spell(g)).value;
    StepsConcat(s, Spell(g), rest);
  }

  /** A command line the parser does not give up on, and in which every quote is closed, is written
      in the ways above. */
  lemma {:induction false} EveryLine(s: State, cmd: string) returns (lead: string, ws: seq<Written>)
    requires s.mode == Plain && Steps(s, cmd).Some? && Steps(s, cmd).value.mode == Plain
    ensures Blank(lead) && WfText(ws) && cmd == lead + Text(ws)
    decreases |cmd|
  {
    if cmd == "" {
      lead, ws := "", [];
    } else if Separates(cmd[0]) {
      var more;
      more, ws := EveryLine(Step(s, cmd[0]).value, cmd[1..]);
      lead := [cmd[0]] + more;
      assert cmd == [cmd[0]] + cmd[1..];
      Assoc([cmd[0]], more, Text(ws));
    } else {
      var g, t, rest := NextSegment(s, cmd);
      var gap, more := EveryLine(t, rest);
      ws := Prepend(g, gap, more);
      lead := "";
      assert lead + Text(ws) == Text(ws);
    }
  }

  lemma Extend(g: Segment, ws: seq<Written>) returns (more: seq<Written>)
    requires WfSegment(g) && WfText(ws) && ws != []
    ensures WfText(more) && Text(more) == Spell(g) + Text(ws)
  {
    var w, rest := Written([g] + ws[0].word, ws[0].gap), ws[1..];
    more := [w] + rest;
    assert WfWord(w.word);
    assert more[1..] == rest && forall i :: 0 < i < |more| ==> more[i] == ws[i];
    assert SpellWord(w.word) == Spell(g) + SpellWord(ws[0].word) by {
      assert w.word[1..] == ws[0].word;
    }
    Regroup(Spell(g), SpellWord(ws[0].word), w.gap, Text(rest));
  }

  lemma Regroup(a: string, b: string, c: string, d: string)
    ensures (a + b) + c + d == a + (b + c + d)
  {
  }

  lemma Begin(g: Segment, lead: string, ws: seq<Written>) returns (more: seq<Written>)
    requires WfSegment(g) && Blank(lead) && WfText(ws) && (ws != [] ==> lead != "")
    ensures WfText(more) && Text(more) == Spell(g) + (lead + Text(ws))
  {
    var w := Written([g], lead);
    more := [w] + ws;
    BeginWf(w, ws);
    SpellOne(g);
    assert more[1..] == ws;
    assert Text(more) == Spell(g) + lead + Text(ws);
    Assoc(Spell(g), lead, Text(ws));
  }

  lemma BeginWf(w: Written, ws: seq<Written>)
    requires WfWord(w.word) && Blank(w.gap) && WfText(ws) && (ws != [] ==> w.gap != "")
    ensures WfText([w] + ws)
  {
    assert forall i :: 0 < i < |[w] + ws| ==> ([w] + ws)[i] == ws[i - 1];
  }

  lemma SpellOne(g: Segment)
    ensures SpellWord([g]) == Spell(g)
  {
    assert [g][1..] == [];
  }

  lemma Prepend(g: Segment, lead: string, ws: seq<Written>) returns (more: seq<Written>)
    requires WfSegment(g) && Blank(lead) && WfText(ws)
    ensures WfText(more) && Text(more) == Spell(g) + (lead + Text(ws))
  {
    if lead == "" && ws != [] {
      more := Extend(g, ws);
      assert lead + Text(ws) == Text(ws);
    } else {
      more := Begin(g, lead, ws);
    }
  }
}
