/** When the words the parser finds are the words a shell would find. */
module Quoting {
  import opened Trees
  import opened Shell

  // ---------------------------------------------------------------- what a shell makes of it

  /** In double quotes a backslash quotes only these (section 2.2.3 of the POSIX.1-2017 Shell Command
      Language); before any other character it stands for itself. */
  const SPECIAL_IN_DOUBLE: set<char> := {'"', '\\', '$', '`'}

  predicate Keeps(d: DoubleChar) {
    d.Back? && d.c !in SPECIAL_IN_DOUBLE && d.c != '\n'
  }

  /** A backslash and the end of a line mean nothing at all (section 2.2.1). */
  predicate Continues(d: DoubleChar) {
    d == Back('\n')
  }

  function MeanChar(d: DoubleChar): string {
    if Keeps(d) then ['\\', d.c] else if Continues(d) then "" else [d.c]
  }

  function MeanInside(chars: seq<DoubleChar>): string {
    if chars == [] then "" else MeanChar(chars[0]) + MeanInside(chars[1..])
  }

  function Meaning(g: Segment): string {
    match g
    case Bare(c) => [c]
    case Slash(c) => if c == '\n' then "" else [c]
    case Quoted(s) => s
    case DoubleQuoted(chars) => MeanInside(chars)
  }

  function MeanWord(w: seq<Segment>): string {
    if w == [] then "" else Meaning(w[0]) + MeanWord(w[1..])
  }

  /** Nothing but line continuations: no word at all. */
  predicate Vanishes(w: seq<Segment>) {
    forall i :: 0 <= i < |w| ==> w[i] == Slash('\n')
  }

  function Meanings(ws: seq<Written>): seq<string> {
    if ws == [] then []
    else (if Vanishes(ws[0].word) then [] else [MeanWord(ws[0].word)]) + Meanings(ws[1..])
  }

  /** A command to be substituted, in double quotes. */
  predicate Substitutes(g: Segment) {
    g.DoubleQuoted? && As('`') in g.chars
  }

  predicate SubstitutesIn(w: seq<Segment>) {
    exists j :: 0 <= j < |w| && Substitutes(w[j])
  }

  /** A pattern in brackets, from segment `i` to segment `j`, which a shell replaces by the names it
      matches (section 2.13 there): neither bracket is quoted, the list between them is not empty, a
      right bracket that comes first in it being part of it, and holds no slash. */
  predicate BracketAt(w: seq<Segment>, i: nat, j: nat) {
    && i < j < |w| && w[i] == Bare('[') && w[j] == Bare(']')
    && var list := MeanWord(w[i + 1..j]);
       list != "" && '/' !in list && !(list == "!" && Bare('!') in w[i + 1..j])
  }

  predicate Expands(w: seq<Segment>) {
    exists i, j :: 0 <= i < j < |w| && BracketAt(w, i, j)
  }

  /** The end of a line between two words: two commands, not one. */
  predicate BreaksAt(ws: seq<Written>, i: nat) {
    && i < |ws| && '\n' in ws[i].gap
    && (exists j :: 0 <= j <= i && !Vanishes(ws[j].word))
    && (exists k :: i < k < |ws| && !Vanishes(ws[k].word))
  }

  predicate Breaks(ws: seq<Written>) {
    exists i :: 0 <= i < |ws| && BreaksAt(ws, i)
  }

  /** It takes a shell to know what the word stands for. */
  predicate NeedsShell(w: seq<Segment>) {
    SubstitutesIn(w) || Expands(w)
  }

  /** The words of the one simple command that the text is, or nothing if it is more than that. */
  function Promised(ws: seq<Written>): Option<seq<string>> {
    if Breaks(ws) || exists i :: 0 <= i < |ws| && NeedsShell(ws[i].word) then None else Some(Meanings(ws))
  }

  // ---------------------------------------------------------------- where the program departs from it

  /** A form feed outside quotes; a backslash kept in double quotes; a line continuation. */
  datatype Quirk = Feed | Keep | Continue

  /** The character by which each gives itself away. */
  function Mark(q: Quirk): char {
    match q
    case Feed => '\U{000C}'
    case Keep => '\\'
    case Continue => '\n'
  }

  predicate HasInside(q: Quirk, d: DoubleChar) {
    match q
    case Feed => false
    case Keep => Keeps(d)
    case Continue => Continues(d)
  }

  predicate AnyInside(q: Quirk, chars: seq<DoubleChar>) {
    exists i :: 0 <= i < |chars| && HasInside(q, chars[i])
  }

  predicate Has(q: Quirk, g: Segment) {
    match g
    case Bare(_) => q == Feed && Feeds(g)
    case Slash(c) => q == Continue && c == '\n'
    case Quoted(_) => false
    case DoubleQuoted(chars) => AnyInside(q, chars)
  }

  predicate WordHas(q: Quirk, w: seq<Segment>) {
    exists j :: 0 <= j < |w| && Has(q, w[j])
  }

  predicate TextHas(q: Quirk, ws: seq<Written>) {
    exists i :: 0 <= i < |ws| && WordHas(q, ws[i].word)
  }

  function Count(c: char, s: string): nat {
    multiset(s)[c]
  }

  /** The shell's reading has more of the character than the program's, or fewer where lines are
      continued, exactly if there is one of these. */
  predicate Told(q: Quirk, meant: string, taken: string, has: bool) {
    var m, t := Count(Mark(q), meant), Count(Mark(q), taken);
    if q == Continue then m <= t && (m < t <==> has) else t <= m && (t < m <==> has)
  }

  lemma ToldConcat(q: Quirk, m1: string, t1: string, h1: bool, m2: string, t2: string, h2: bool)
    requires Told(q, m1, t1, h1) && Told(q, m2, t2, h2)
    ensures Told(q, m1 + m2, t1 + t2, h1 || h2)
  {
  }

  lemma AnyInsideSplit(q: Quirk, chars: seq<DoubleChar>)
    requires chars != []
    ensures AnyInside(q, chars) <==> HasInside(q, chars[0]) || AnyInside(q, chars[1..])
  {
    var rest := chars[1..];
    assert forall i :: 0 <= i < |rest| ==> rest[i] == chars[i + 1];
    if AnyInside(q, rest) {
      var i :| 0 <= i < |rest| && HasInside(q, rest[i]);
      assert HasInside(q, chars[i + 1]);
    }
    if AnyInside(q, chars) && !HasInside(q, chars[0]) {
      var i :| 0 <= i < |chars| && HasInside(q, chars[i]);
      assert HasInside(q, rest[i - 1]);
    }
  }

  lemma ToldChar(q: Quirk, d: DoubleChar)
    ensures Told(q, MeanChar(d), [d.c], HasInside(q, d))
  {
  }

  lemma {:induction false} ToldInside(q: Quirk, chars: seq<DoubleChar>)
    ensures Told(q, MeanInside(chars), TakeInside(chars), AnyInside(q, chars))
    decreases |chars|
  {
    if chars != [] {
      var d, rest := chars[0], chars[1..];
      ToldInside(q, rest);
      ToldChar(q, d);
      AnyInsideSplit(q, chars);
      ToldConcat(q, MeanChar(d), [d.c], HasInside(q, d), MeanInside(rest), TakeInside(rest), AnyInside(q, rest));
    }
  }

  lemma ToldSegment(q: Quirk, g: Segment)
    requires WfSegment(g)
    ensures Told(q, Meaning(g), Taken(g), Has(q, g))
  {
    if g.DoubleQuoted? {
      ToldInside(q, g.chars);
    }
  }

  lemma HasSplit(q: Quirk, w: seq<Segment>)
    requires w != []
    ensures WordHas(q, w) <==> Has(q, w[0]) || WordHas(q, w[1..])
  {
    assert forall i :: 0 <= i < |w[1..]| ==> w[1..][i] == w[i + 1];
    if WordHas(q, w[1..]) {
      var j :| 0 <= j < |w[1..]| && Has(q, w[1..][j]);
      assert Has(q, w[j + 1]);
    }
    if WordHas(q, w) && !Has(q, w[0]) {
      var j :| 0 <= j < |w| && Has(q, w[j]);
      assert Has(q, w[1..][j - 1]);
    }
  }

  lemma {:induction false} ToldWord(q: Quirk, w: seq<Segment>)
    requires forall i :: 0 <= i < |w| ==> WfSegment(w[i])
    ensures Told(q, MeanWord(w), TakeWord(w), WordHas(q, w))
    decreases |w|
  {
    if w != [] {
      ToldSegment(q, w[0]);
      ToldWord(q, w[1..]);
      HasSplit(q, w);
      ToldConcat(q, Meaning(w[0]), Taken(w[0]), Has(q, w[0]), MeanWord(w[1..]), TakeWord(w[1..]), WordHas(q, w[1..]));
    }
  }

  lemma TextHasSplit(q: Quirk, ws: seq<Written>)
    requires ws != []
    ensures TextHas(q, ws) <==> WordHas(q, ws[0].word) || TextHas(q, ws[1..])
  {
    var rest := ws[1..];
    assert forall i :: 0 <= i < |rest| ==> rest[i] == ws[i + 1];
    if TextHas(q, rest) {
      var i :| 0 <= i < |rest| && WordHas(q, rest[i].word);
      assert WordHas(q, ws[i + 1].word);
    }
    if TextHas(q, ws) && !WordHas(q, ws[0].word) {
      var i :| 0 <= i < |ws| && WordHas(q, ws[i].word);
      assert WordHas(q, rest[i - 1].word);
    }
  }

  lemma {:induction false} VanishedMeansNothing(w: seq<Segment>)
    requires Vanishes(w)
    ensures MeanWord(w) == ""
    decreases |w|
  {
    if w != [] {
      VanishedMeansNothing(w[1..]);
    }
  }

  lemma {:induction false} ToldText(q: Quirk, ws: seq<Written>)
    requires WfText(ws)
    ensures Told(q, Joined(Meanings(ws)), TakeText(ws), TextHas(q, ws))
    decreases |ws|
  {
    if ws != [] {
      var w, rest := ws[0].word, ws[1..];
      assert WfText(rest);
      ToldText(q, rest);
      ToldWord(q, w);
      TextHasSplit(q, ws);
      ToldConcat(q, MeanWord(w), TakeWord(w), WordHas(q, w), Joined(Meanings(rest)), TakeText(rest), TextHas(q, rest));
      JoinedMeanings(ws);
    }
  }

  lemma JoinedMeanings(ws: seq<Written>)
    requires ws != []
    ensures Joined(Meanings(ws)) == MeanWord(ws[0].word) + Joined(Meanings(ws[1..]))
  {
    var rest := Meanings(ws[1..]);
    if Vanishes(ws[0].word) {
      VanishedMeansNothing(ws[0].word);
      NothingAdded(rest);
      assert "" + Joined(rest) == Joined(rest);
    } else {
      JoinedCons(MeanWord(ws[0].word), rest);
    }
  }

  lemma NothingAdded<T>(s: seq<T>)
    ensures [] + s == s && s + [] == s
  {
  }

  lemma JoinedCons(w: string, rest: seq<string>)
    ensures Joined([w] + rest) == w + Joined(rest)
  {
    assert ([w] + rest)[1..] == rest;
  }

  // ---------------------------------------------------------------- where none of this happens

  lemma {:induction false} SameInside(chars: seq<DoubleChar>)
    requires forall i :: 0 <= i < |chars| ==> !Keeps(chars[i]) && !Continues(chars[i])
    ensures MeanInside(chars) == TakeInside(chars)
    decreases |chars|
  {
    if chars != [] {
      SameInside(chars[1..]);
    }
  }

  predicate Ordinary(w: seq<Segment>) {
    !WordHas(Feed, w) && !WordHas(Keep, w) && !WordHas(Continue, w)
  }

  lemma SameSegment(g: Segment)
    requires !Has(Feed, g) && !Has(Keep, g) && !Has(Continue, g)
    ensures Meaning(g) == Taken(g) && !Feeds(g)
  {
    if g.DoubleQuoted? {
      assert forall i :: 0 <= i < |g.chars| ==>
        !HasInside(Keep, g.chars[i]) && !HasInside(Continue, g.chars[i]);
      SameInside(g.chars);
    }
  }

  lemma {:induction false} SameWord(w: seq<Segment>)
    requires Ordinary(w)
    ensures MeanWord(w) == TakeWord(w) && NoFeed(w) && (w != [] ==> !Vanishes(w))
    decreases |w|
  {
    if w != [] {
      HasSplit(Feed, w);
      HasSplit(Keep, w);
      HasSplit(Continue, w);
      SameSegment(w[0]);
      SameWord(w[1..]);
      assert forall i :: 0 < i < |w| ==> w[i] == w[1..][i - 1];
      assert w[0] != Slash('\n');
    }
  }

  lemma {:induction false} SameText(ws: seq<Written>)
    requires WfText(ws) && forall i :: 0 <= i < |ws| ==> Ordinary(ws[i].word)
    ensures Meanings(ws) == Takens(ws) && NoFeeds(ws)
    decreases |ws|
  {
    if ws != [] {
      assert WfText(ws[1..]) && WfWord(ws[0].word);
      SameWord(ws[0].word);
      SameText(ws[1..]);
      assert forall i :: 0 < i < |ws| ==> ws[i] == ws[1..][i - 1];
    }
  }

  // ---------------------------------------------------------------- up to the last word

  /** How many words there are up to the last that does not vanish. */
  function CoreLength(ws: seq<Written>): (n: nat)
    ensures n <= |ws|
    ensures n > 0 ==> !Vanishes(ws[n - 1].word)
    ensures forall i :: n <= i < |ws| ==> Vanishes(ws[i].word)
  {
    if ws == [] then 0
    else if Vanishes(ws[|ws| - 1].word) then
      var most := ws[..|ws| - 1];
      assert forall i :: 0 <= i < |most| ==> most[i] == ws[i];
      CoreLength(most)
    else |ws|
  }

  function Core(ws: seq<Written>): seq<Written> {
    ws[..CoreLength(ws)]
  }

  lemma {:induction false} TextSplit(ws: seq<Written>, n: nat)
    requires n <= |ws|
    ensures Text(ws) == Text(ws[..n]) + Text(ws[n..])
    decreases n
  {
    if n == 0 {
      assert ws[n..] == ws && Text(ws[..n]) == "";
    } else {
      TextSplit(ws[1..], n - 1);
      var first, rest, tail := SpellWord(ws[0].word) + ws[0].gap, ws[..n][1..], ws[n..];
      assert ws[1..][..n - 1] == rest && ws[1..][n - 1..] == tail;
      assert Text(ws[..n]) == first + Text(rest);
      Assoc(first, Text(rest), Text(tail));
    }
  }

  lemma {:induction false} MeaningsVanish(ws: seq<Written>)
    requires forall i :: 0 <= i < |ws| ==> Vanishes(ws[i].word)
    ensures Meanings(ws) == []
    decreases |ws|
  {
    if ws != [] {
      MeaningsVanish(ws[1..]);
    }
  }

  lemma {:induction false} MeaningsSplit(ws: seq<Written>, n: nat)
    requires n <= |ws|
    ensures Meanings(ws) == Meanings(ws[..n]) + Meanings(ws[n..])
    decreases n
  {
    if n == 0 {
      assert ws[n..] == ws;
    } else {
      MeaningsSplit(ws[1..], n - 1);
      var first := if Vanishes(ws[0].word) then [] else [MeanWord(ws[0].word)];
      var rest, tail := ws[..n][1..], ws[n..];
      assert ws[1..][..n - 1] == rest && ws[1..][n - 1..] == tail;
      assert Meanings(ws[..n]) == first + Meanings(rest);
      Assoc(first, Meanings(rest), Meanings(tail));
    }
  }

  lemma CoreMeans(ws: seq<Written>)
    ensures Meanings(Core(ws)) == Meanings(ws)
  {
    var n := CoreLength(ws);
    MeaningsSplit(ws, n);
    assert forall i :: 0 <= i < |ws[n..]| ==> ws[n..][i] == ws[n + i];
    MeaningsVanish(ws[n..]);
    NothingAdded(Meanings(Core(ws)));
  }

  lemma VanishingTrails(w: seq<Segment>)
    requires WfWord(w) && Vanishes(w)
    ensures NoFeed(w) && Trailing(w)
  {
  }

  /** Words that vanish add nothing to the result. */
  lemma {:induction false} VanishingRead(s: State, ws: seq<Written>)
    requires s.mode == Plain && s.spaced && WfText(ws) && forall i :: 0 <= i < |ws| ==> Vanishes(ws[i].word)
    ensures Outcome(s, Text(ws)) == Some(s.result)
    decreases |ws|
  {
    if ws != [] {
      forall i | 0 <= i < |ws|
        ensures NoFeed(ws[i].word) && Trailing(ws[i].word)
      {
        VanishingTrails(ws[i].word);
      }
      WrittenSteps(s, ws);
      VanishingRead(After(s, ws[0]), ws[1..]);
    }
  }

  /** If the last word does not end in a space, the result holds all that has been taken. */
  lemma {:induction false} AllDelivered(s: State, ws: seq<Written>)
    requires s.mode == Plain && ws != [] && WfText(ws) && NoFeeds(ws) && !Trailing(ws[|ws| - 1].word)
    ensures Steps(s, Text(ws)).Some?
    ensures var t := Steps(s, Text(ws)).value;
      t.mode == Plain && Joined(Finish(t)) == Flat(t) && (ws[|ws| - 1].gap != "" ==> t.spaced)
    decreases |ws|
  {
    WrittenSteps(s, ws);
    var t := After(s, ws[0]);
    if |ws| == 1 {
      LastDelivered(s, ws[0]);
      assert Text(ws[1..]) == "";
    } else {
      assert ws[|ws| - 1] == ws[1..][|ws[1..]| - 1];
      AllDelivered(t, ws[1..]);
    }
  }

  lemma LastDelivered(s: State, w: Written)
    requires w.word != [] && !Trailing(w.word)
    ensures var t := After(s, w); t.mode == Plain && Joined(Finish(t)) == Flat(t) && (w.gap != "" ==> t.spaced)
  {
    var t := After(s, w);
    JoinedSnoc(t.result, t.word);
    if t.spaced {
      assert t.word == "" && Flat(t) == Joined(t.result) + "";
    }
  }

  lemma CoreWf(ws: seq<Written>)
    requires WfText(ws)
    ensures WfText(Core(ws)) && WfText(ws[CoreLength(ws)..])
    ensures NoFeeds(ws) ==> NoFeeds(Core(ws))
    ensures Core(ws) != [] ==> ws[CoreLength(ws)..] != [] ==> Core(ws)[|Core(ws)| - 1].gap != ""
  {
    PartWf(ws, CoreLength(ws));
  }

  lemma PartWf(ws: seq<Written>, n: nat)
    requires WfText(ws) && n <= |ws|
    ensures WfText(ws[..n]) && WfText(ws[n..]) && (NoFeeds(ws) ==> NoFeeds(ws[..n]))
    ensures 0 < n < |ws| ==> ws[..n][n - 1].gap != ""
  {
    assert forall i :: 0 <= i < n ==> ws[..n][i] == ws[i];
    assert forall i :: 0 <= i < |ws[n..]| ==> ws[n..][i] == ws[n + i];
  }

  const START := State(Plain, "", [], true)

  lemma FromStart(text: string)
    ensures Flat(START) + text == text
  {
    assert Flat(START) == "";
  }

  lemma CoreSteps(core: seq<Written>) returns (t: State)
    requires WfText(core) && NoFeeds(core) && (core != [] ==> !Trailing(core[|core| - 1].word))
    ensures Steps(START, Text(core)) == Some(t) && t.mode == Plain
    ensures Joined(Finish(t)) == TakeText(core)
    ensures core == [] || core[|core| - 1].gap != "" ==> t.spaced
  {
    FlatText(START, core);
    FromStart(TakeText(core));
    if core == [] {
      t := START;
    } else {
      AllDelivered(START, core);
      t := Steps(START, Text(core)).value;
    }
  }

  lemma TailDropped(a: string, t: State, tail: seq<Written>)
    requires Steps(START, a) == Some(t) && t.mode == Plain && (tail != [] ==> t.spaced)
    requires WfText(tail) && forall i :: 0 <= i < |tail| ==> Vanishes(tail[i].word)
    ensures Outcome(START, a + Text(tail)) == Some(Finish(t))
  {
    StepsConcat(START, a, Text(tail));
    if tail != [] {
      VanishingRead(t, tail);
    }
  }

  lemma TailVanishes(ws: seq<Written>, n: nat, tail: seq<Written>)
    requires n == CoreLength(ws) && tail == ws[n..]
    ensures forall i :: 0 <= i < |tail| ==> Vanishes(tail[i].word)
  {
    forall i | 0 <= i < |tail|
      ensures Vanishes(tail[i].word)
    {
      assert tail[i] == ws[n + i];
    }
  }

  /** The words that vanish at the end do not matter. */
  lemma CoreDecides(ws: seq<Written>)
    requires WfText(ws) && NoFeeds(Core(ws)) && (Core(ws) != [] ==> !Trailing(ws[CoreLength(ws) - 1].word))
    ensures Outcome(START, Text(ws)) == Outcome(START, Text(Core(ws)))
    ensures Outcome(START, Text(ws)).Some? && Joined(Outcome(START, Text(ws)).value) == TakeText(Core(ws))
  {
    CoreWf(ws);
    var t := CoreSteps(Core(ws));
    TextSplit(ws, CoreLength(ws));
    TailVanishes(ws, CoreLength(ws), ws[CoreLength(ws)..]);
    TailDropped(Text(Core(ws)), t, ws[CoreLength(ws)..]);
  }

  // ---------------------------------------------------------------- exactly when the words are right

  /** Up to the last word none ends in an escaped space, and none holds a form feed outside quotes, a line
      continuation or, in double quotes, a backslash that stands for itself. */
  predicate Legible(ws: seq<Written>)
    requires WfText(ws)
  {
    forall i :: 0 <= i < CoreLength(ws) ==> !Trailing(ws[i].word) && Ordinary(ws[i].word)
  }

  /** Besides, none holds a pattern in brackets or, in double quotes, a command to substitute; and no line
      ends between them. */
  predicate Sound(ws: seq<Written>)
    requires WfText(ws)
  {
    && Legible(ws)
    && (forall i :: 0 <= i < CoreLength(ws) ==> !NeedsShell(ws[i].word))
    && (forall i :: 0 <= i < CoreLength(ws) - 1 ==> '\n' !in ws[i].gap)
  }

  lemma SoundPromised(ws: seq<Written>)
    requires WfText(ws) && Sound(ws)
    ensures Promised(ws) == Some(Meanings(ws))
  {
    forall i | 0 <= i < |ws|
      ensures !BreaksAt(ws, i) && !NeedsShell(ws[i].word)
    {
      if i >= CoreLength(ws) {
        VanishedNeedsNothing(ws[i].word);
      }
    }
  }

  lemma VanishedNeedsNothing(w: seq<Segment>)
    requires Vanishes(w)
    ensures !NeedsShell(w)
  {
  }

  lemma LegibleRead(ws: seq<Written>)
    requires WfText(ws) && Legible(ws)
    ensures Outcome(START, Text(ws)) == Some(Meanings(ws))
  {
    var core := Core(ws);
    CoreWf(ws);
    assert forall i :: 0 <= i < |core| ==> core[i] == ws[i];
    SameText(core);
    CoreDecides(ws);
    WordsRead(START, core);
    CoreMeans(ws);
    assert [] + Takens(core) == Takens(core);
  }

  /** The number of words that do not vanish. */
  lemma {:induction false} CleanIff(ws: seq<Written>)
    requires WfText(ws) && NoFeeds(ws)
    ensures Clean(ws) <= |Meanings(ws)|
    ensures Clean(ws) == |Meanings(ws)| ==>
      forall i :: 0 <= i < |ws| ==> (Trailing(ws[i].word) <==> Vanishes(ws[i].word))
    decreases |ws|
  {
    if ws != [] {
      var rest := ws[1..];
      assert WfText(rest) && NoFeeds(rest);
      CleanIff(rest);
      assert forall i :: 0 < i < |ws| ==> ws[i] == rest[i - 1];
      if Vanishes(ws[0].word) {
        VanishingTrails(ws[0].word);
      }
    }
  }

  /** The result is part of what was taken. */
  lemma ResultBounded(ws: seq<Written>, c: char)
    requires WfText(ws)
    ensures Outcome(START, Text(ws)).Some?
    ensures Count(c, Joined(Outcome(START, Text(ws)).value)) <= Count(c, TakeText(ws))
  {
    FlatText(START, ws);
    var t := Steps(START, Text(ws)).value;
    FromStart(TakeText(ws));
    JoinedSnoc(t.result, t.word);
    CountPrefix(c, Joined(t.result), t.word);
  }

  lemma CountPrefix(c: char, a: string, b: string)
    ensures Count(c, a) <= Count(c, a + b)
  {
  }

  /** A right result rules out form feeds and kept backslashes. */
  lemma RightHasNoMore(q: Quirk, ws: seq<Written>)
    requires WfText(ws) && Outcome(START, Text(ws)) == Some(Meanings(ws)) && q != Continue
    ensures !TextHas(q, ws)
  {
    ResultBounded(ws, Mark(q));
    ToldText(q, ws);
  }

  lemma NoFeedMeans(ws: seq<Written>)
    requires !TextHas(Feed, ws)
    ensures NoFeeds(ws)
  {
    forall i, j | 0 <= i < |ws| && 0 <= j < |ws[i].word|
      ensures !Feeds(ws[i].word[j])
    {
      assert !WordHas(Feed, ws[i].word);
      assert !Has(Feed, ws[i].word[j]);
    }
  }

  lemma RightTrailsNowhere(ws: seq<Written>)
    requires WfText(ws) && NoFeeds(ws) && Outcome(START, Text(ws)) == Some(Meanings(ws))
    ensures forall i :: 0 <= i < |ws| ==> (Trailing(ws[i].word) <==> Vanishes(ws[i].word))
  {
    WordCount(START, ws);
    CleanIff(ws);
  }

  lemma RightContinuesNothing(ws: seq<Written>)
    requires WfText(ws) && NoFeeds(ws) && Outcome(START, Text(ws)) == Some(Meanings(ws))
    ensures !TextHas(Continue, Core(ws))
  {
    RightTrailsNowhere(ws);
    CoreWf(ws);
    CoreDecides(ws);
    CoreMeans(ws);
    ToldText(Continue, Core(ws));
  }

  lemma CoreOrdinary(ws: seq<Written>, i: nat)
    requires i < CoreLength(ws) && !TextHas(Feed, ws) && !TextHas(Keep, ws) && !TextHas(Continue, Core(ws))
    ensures Ordinary(ws[i].word)
  {
    assert Core(ws)[i] == ws[i];
  }

  lemma RightIsSound(ws: seq<Written>)
    requires WfText(ws) && Outcome(START, Text(ws)) == Some(Meanings(ws)) == Promised(ws)
    ensures Sound(ws)
  {
    RightHasNoMore(Feed, ws);
    RightHasNoMore(Keep, ws);
    NoFeedMeans(ws);
    RightTrailsNowhere(ws);
    RightContinuesNothing(ws);
    forall i | 0 <= i < CoreLength(ws)
      ensures !Trailing(ws[i].word) && Ordinary(ws[i].word)
    {
      CoreOrdinary(ws, i);
      SameWord(ws[i].word);
    }
    assert forall i :: 0 <= i < CoreLength(ws) ==> !NeedsShell(ws[i].word);
    forall i | 0 <= i < CoreLength(ws) - 1
      ensures '\n' !in ws[i].gap
    {
      SameWord(ws[i].word);
      assert !BreaksAt(ws, i);
    }
  }

  lemma LeadSkipped(lead: string, ws: seq<Written>)
    requires Blank(lead) && WfText(ws)
    ensures Parse(lead + Text(ws)) == Outcome(START, Text(ws))
  {
    GapSteps(START, lead);
    StepsConcat(START, lead, Text(ws));
  }

  /** However words are quoted and set apart, the parser does what it promises, namely to find the words
      a shell would find or to give up, if and only if the text is sound. */
  lemma ParseIff(lead: string, ws: seq<Written>)
    requires Blank(lead) && WfText(ws)
    ensures Parse(lead + Text(ws)) == Promised(ws) <==> Sound(ws)
    ensures Parse(lead + Text(ws)).Some?
  {
    LeadSkipped(lead, ws);
    ResultBounded(ws, ' ');
    if Sound(ws) {
      SoundPromised(ws);
      LegibleRead(ws);
    } else if Parse(lead + Text(ws)) == Promised(ws) {
      RightIsSound(ws);
    }
  }

  /** Nothing is left out of this: a command line the parser does not give up on either is such a text
      or ends inside a quotation. */
  lemma ParseExact(cmd: string)
    requires Parse(cmd).Some?
    ensures Steps(START, cmd).value.mode == Plain ==>
      exists lead, ws :: Blank(lead) && WfText(ws) && cmd == lead + Text(ws) &&
        (Parse(cmd) == Promised(ws) <==> Sound(ws))
  {
    if Steps(START, cmd).value.mode == Plain {
      var lead, ws := EveryLine(START, cmd);
      ParseIff(lead, ws);
    }
  }

  // ---------------------------------------------------------------- departures

  lemma EscapedSpaceRead(s: State)
    requires s == START
    ensures Steps(s, "a\\ ") == Some(State(Plain, "a ", [], true))
  {
    assert "a\\ " == "a" + "\\ ";
    StepsConcat(s, "a", "\\ ");
    OneStep(s, 'a');
    assert "" + ['a'] == "a" && "a" + [' '] == "a ";
    TwoSteps(State(Plain, "a", [], false), '\\', ' ');
  }

  /** An escaped space at the end of a word runs it into the next one; at the end of the command, the
      word is lost. */
  lemma EscapedSpaceLost()
    ensures Parse("a\\  b") == Some(["a b"])
    ensures Parse("a\\ ") == Some([])
  {
    var s, t, u := START, State(Plain, "a ", [], true), State(Plain, "a b", [], false);
    EscapedSpaceRead(s);
    assert Steps(t, " b") == Some(u) by {
      TwoSteps(t, ' ', 'b');
      assert "a " + ['b'] == "a b";
    }
    assert "a\\  b" == "a\\ " + " b";
    StepsConcat(s, "a\\ ", " b");
    assert Finish(u) == ["a b"];
  }

  lemma OneSegmentRead(g: Segment)
    requires WfSegment(g) && !Feeds(g) && !EndsInSpace(g)
    ensures Parse(Spell(g)) == Some([Taken(g)])
  {
    SegmentSteps(START, g);
    assert "" + Taken(g) == Taken(g);
    assert Finish(State(Plain, Taken(g), [], false)) == [Taken(g)];
  }

  lemma OneChar(d: DoubleChar)
    ensures SpellInside([d]) == if d.As? then [d.c] else ['\\', d.c]
    ensures TakeInside([d]) == [d.c] && MeanInside([d]) == MeanChar(d)
  {
    assert [d][1..] == [];
    assert SpellInside([]) == "" && TakeInside([]) == "" && MeanInside([]) == "";
  }

  /** In double quotes the program drops a backslash that a shell would keep, before any character at
      all, and lets a backquote through. */
  lemma WrongInDouble(c: char)
    requires c !in SPECIAL_IN_DOUBLE && c != '\n'
    ensures Parse(['"', '\\', c, '"']) == Some([[c]]) && Meaning(DoubleQuoted([Back(c)])) == ['\\', c]
    ensures Parse("\"`\"") == Some(["`"]) && Substitutes(DoubleQuoted([As('`')]))
  {
    var kept, tick := DoubleQuoted([Back(c)]), DoubleQuoted([As('`')]);
    OneChar(Back(c));
    OneChar(As('`'));
    assert Spell(kept) == ['"', '\\', c, '"'] && Spell(tick) == "\"`\"";
    OneSegmentRead(kept);
    OneSegmentRead(tick);
  }

  /** A continued line leaves its end in the word, two lines become one command, and a form feed ends
      a word. */
  lemma WrongAtLineEnd()
    ensures Parse("\\\na") == Some(["\na"]) && Parse("a\nb") == Some(["a", "b"])
    ensures Parse("a\U{000C}b") == Some(["a", "b"])
  {
    assert Parse("\\\na") == Some(["\na"]) by {
      assert "\\\na" == "\\\n" + "a";
      StepsConcat(START, "\\\n", "a");
      TwoSteps(START, '\\', '\n');
      OneStep(State(Plain, "" + ['\n'], [], true), 'a');
      assert "" + ['\n'] + ['a'] == "\na";
      assert Finish(State(Plain, "\na", [], false)) == ["\na"];
    }
    SeparatorRead('\n');
    SeparatorRead('\U{000C}');
  }

  lemma SeparatorRead(c: char)
    requires IsSpace(c)
    ensures Parse(['a', c, 'b']) == Some(["a", "b"])
  {
    var s, u := State(Plain, "a", [], false), State(Plain, "b", ["a"], false);
    assert Steps(START, ['a']) == Some(s) by {
      OneStep(START, 'a');
      assert "" + ['a'] == "a";
    }
    SeparatorSteps(c, s, u);
    StepsConcat(START, ['a'], [c, 'b']);
    assert ['a', c, 'b'] == ['a'] + [c, 'b'];
    assert Finish(u) == ["a", "b"];
  }

  lemma SeparatorSteps(c: char, s: State, u: State)
    requires IsSpace(c) && s == State(Plain, "a", [], false) && u == State(Plain, "b", ["a"], false)
    ensures Steps(s, [c, 'b']) == Some(u)
  {
    TwoSteps(s, c, 'b');
    assert [] + ["a"] == ["a"] && "" + ['b'] == "b";
    assert Step(s, c) == Some(State(Plain, "", ["a"], true));
  }

  /** A quotation that is never closed goes through as well. */
  lemma UnclosedAccepted(body: string)
    requires '\'' !in body && body != "" && !IsSpace(body[|body| - 1])
    ensures Parse(['\''] + body) == Some([body])
  {
    var t := State(Single, "", [], false);
    StepsConcat(START, ['\''], body);
    OneStep(START, '\'');
    SingleSteps(t, body);
    SpacedIsLast(t, body);
    assert "" + body == body;
    var u := Steps(t, body).value;
    assert Finish(u) == [body];
  }

  lemma {:induction false} SpacedIsLast(s: State, text: string)
    requires text != "" && Steps(s, text).Some?
    ensures Steps(s, text).value.spaced == IsSpace(text[|text| - 1])
    decreases |text|
  {
    if |text| > 1 {
      SpacedIsLast(Step(s, text[0]).value, text[1..]);
    }
  }

  // ---------------------------------------------------------------- printing and reading back

  datatype Style = AsIs | InSingle | InDouble

  predicate Fits(style: Style, w: string) {
    match style
    case AsIs => w != "" && forall i :: 0 <= i < |w| ==> WfSegment(Bare(w[i])) && !IsSpace(w[i])
    case InSingle => '\'' !in w
    case InDouble => true
  }

  function Backslashed(w: string): string {
    if w == "" then "" else (if w[0] in SPECIAL_IN_DOUBLE then ['\\', w[0]] else [w[0]]) + Backslashed(w[1..])
  }

  function Print(style: Style, w: string): string {
    match style
    case AsIs => w
    case InSingle => ['\''] + w + ['\'']
    case InDouble => ['"'] + Backslashed(w) + ['"']
  }

  function PrintAll(styles: seq<Style>, words: seq<string>): string
    requires |styles| == |words|
  {
    if words == [] then ""
    else if |words| == 1 then Print(styles[0], words[0])
    else Print(styles[0], words[0]) + " " + PrintAll(styles[1..], words[1..])
  }

  /** The same, as segments. */
  function Chars(w: string): seq<DoubleChar> {
    seq(|w|, i requires 0 <= i < |w| => if w[i] in SPECIAL_IN_DOUBLE then Back(w[i]) else As(w[i]))
  }

  function Segments(style: Style, w: string): seq<Segment> {
    match style
    case AsIs => seq(|w|, i requires 0 <= i < |w| => Bare(w[i]))
    case InSingle => [Quoted(w)]
    case InDouble => [DoubleQuoted(Chars(w))]
  }

  lemma {:induction false} CharsSpell(w: string)
    ensures SpellInside(Chars(w)) == Backslashed(w) && MeanInside(Chars(w)) == w
    decreases |w|
  {
    if w != "" {
      CharsSpell(w[1..]);
      assert Chars(w)[1..] == Chars(w[1..]);
      assert [w[0]] + w[1..] == w;
    }
  }

  lemma {:induction false} BareSpell(w: string)
    ensures SpellWord(Segments(AsIs, w)) == w && MeanWord(Segments(AsIs, w)) == w
    decreases |w|
  {
    if w != "" {
      BareSpell(w[1..]);
      assert Segments(AsIs, w)[1..] == Segments(AsIs, w[1..]);
      assert [w[0]] + w[1..] == w;
    }
  }

  lemma OneSegment(g: Segment)
    ensures SpellWord([g]) == Spell(g) && MeanWord([g]) == Meaning(g)
  {
    assert [g][1..] == [];
  }

  predicate Neat(w: seq<Segment>) {
    WfWord(w) && !Trailing(w) && Ordinary(w)
  }

  lemma SegmentsNeat(style: Style, w: string)
    requires Fits(style, w)
    ensures Neat(Segments(style, w))
  {
  }

  lemma PrintIsSpelling(style: Style, w: string)
    requires Fits(style, w)
    ensures var g := Segments(style, w); SpellWord(g) == Print(style, w) && MeanWord(g) == w
  {
    match style
    case AsIs => BareSpell(w);
    case InSingle => OneSegment(Quoted(w));
    case InDouble =>
      CharsSpell(w);
      OneSegment(DoubleQuoted(Chars(w)));
  }

  function Layout(styles: seq<Style>, words: seq<string>): seq<Written>
    requires |styles| == |words|
  {
    if words == [] then []
    else [Written(Segments(styles[0], words[0]), if |words| == 1 then "" else " ")] + Layout(styles[1..], words[1..])
  }

  /** Neat words, one space apart. */
  predicate NeatText(ws: seq<Written>) {
    forall i :: 0 <= i < |ws| ==> Neat(ws[i].word) && ws[i].gap == if i == |ws| - 1 then "" else " "
  }

  lemma NeatIsLegible(ws: seq<Written>)
    requires NeatText(ws)
    ensures WfText(ws) && Legible(ws)
  {
  }

  lemma NeatMore(w: Written, rest: seq<Written>)
    requires Neat(w.word) && w.gap == (if rest == [] then "" else " ") && NeatText(rest)
    ensures NeatText([w] + rest)
  {
    assert forall i :: 0 < i < |[w] + rest| ==> ([w] + rest)[i] == rest[i - 1];
  }

  lemma LayoutOne(w: Written, rest: seq<Written>)
    requires Neat(w.word)
    ensures Text([w] + rest) == SpellWord(w.word) + w.gap + Text(rest)
    ensures Meanings([w] + rest) == [MeanWord(w.word)] + Meanings(rest)
  {
    SameWord(w.word);
    assert ([w] + rest)[1..] == rest;
  }

  lemma {:induction false} LayoutPrints(styles: seq<Style>, words: seq<string>)
    requires |styles| == |words| && forall i :: 0 <= i < |words| ==> Fits(styles[i], words[i])
    ensures var ws := Layout(styles, words);
      |ws| == |words| && NeatText(ws) && Text(ws) == PrintAll(styles, words) && Meanings(ws) == words
    decreases |words|
  {
    if words != [] {
      var w := Written(Segments(styles[0], words[0]), if |words| == 1 then "" else " ");
      var rest := Layout(styles[1..], words[1..]);
      PrintIsSpelling(styles[0], words[0]);
      SegmentsNeat(styles[0], words[0]);
      LayoutPrints(styles[1..], words[1..]);
      NeatMore(w, rest);
      LayoutOne(w, rest);
      assert [words[0]] + words[1..] == words;
    }
  }

  /** Any list of words, each printed in a style that suits it and joined by spaces, parses back. */
  lemma PrintedParsesBack(styles: seq<Style>, words: seq<string>)
    requires |styles| == |words| && forall i :: 0 <= i < |words| ==> Fits(styles[i], words[i])
    ensures Parse(PrintAll(styles, words)) == Some(words)
  {
    var ws := Layout(styles, words);
    LayoutPrints(styles, words);
    NeatIsLegible(ws);
    LeadSkipped("", ws);
    LegibleRead(ws);
    assert "" + PrintAll(styles, words) == PrintAll(styles, words);
  }

  /** Printed as they are, words with brackets in them parse back as well, though a shell would make
      something else of them: the text is right exactly if no word printed so holds a pattern. */
  lemma PrintedRightIff(styles: seq<Style>, words: seq<string>)
    requires |styles| == |words| && forall i :: 0 <= i < |words| ==> Fits(styles[i], words[i])
    ensures Parse(PrintAll(styles, words)) == Promised(Layout(styles, words)) <==>
      forall i :: 0 <= i < |words| && styles[i].AsIs? ==> !Expands(Segments(AsIs, words[i]))
  {
    var ws := Layout(styles, words);
    LayoutPrints(styles, words);
    PrintedParsesBack(styles, words);
    NeatPromised(ws);
    forall i | 0 <= i < |words|
      ensures NeedsShell(ws[i].word) <==> styles[i].AsIs? && Expands(Segments(AsIs, words[i]))
    {
      LayoutAt(styles, words, i);
      PrintedNeeds(styles[i], words[i]);
    }
  }

  lemma NeatPromised(ws: seq<Written>)
    requires NeatText(ws)
    ensures Promised(ws) == Some(Meanings(ws)) <==> forall i :: 0 <= i < |ws| ==> !NeedsShell(ws[i].word)
  {
    forall i | 0 <= i < |ws|
      ensures !BreaksAt(ws, i)
    {
    }
  }

  lemma {:induction false} LayoutAt(styles: seq<Style>, words: seq<string>, i: nat)
    requires |styles| == |words| && i < |words|
    ensures |Layout(styles, words)| == |words| && Layout(styles, words)[i].word == Segments(styles[i], words[i])
    decreases |words|
  {
    LayoutSize(styles, words);
    if i > 0 {
      LayoutAt(styles[1..], words[1..], i - 1);
    }
  }

  lemma {:induction false} LayoutSize(styles: seq<Style>, words: seq<string>)
    requires |styles| == |words|
    ensures |Layout(styles, words)| == |words|
    decreases |words|
  {
    if words != [] {
      LayoutSize(styles[1..], words[1..]);
    }
  }

  lemma PrintedNeeds(style: Style, w: string)
    requires Fits(style, w)
    ensures NeedsShell(Segments(style, w)) <==> style.AsIs? && Expands(Segments(style, w))
  {
    if style.InDouble? {
      assert As('`') !in Chars(w);
    }
  }

  /** ls [ab].c gets through, and means the one name. */
  lemma PatternGetsThrough()
    ensures Parse("ls [ab].c") == Some(["ls", "[ab].c"]) && Expands(Segments(AsIs, "[ab].c"))
  {
    var w, styles, words := "[ab].c", [AsIs, AsIs], ["ls", "[ab].c"];
    PrintedParsesBack(styles, words);
    assert PrintAll(styles, words) == "ls" + " " + w by {
      assert styles[1..] == [AsIs] && words[1..] == [w];
    }
    assert "ls" + " " + w == "ls [ab].c";
    var g := Segments(AsIs, w);
    assert g[1..3] == Segments(AsIs, "ab");
    BareSpell("ab");
    assert BracketAt(g, 0, 3);
  }
}
