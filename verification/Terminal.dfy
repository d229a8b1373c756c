/**
 The line buffer of sys/terminal.c: keys go in at `i`, whole lines come out at `offset`.
 */
module Terminal {
  import opened Wrappers

  const SIZE: nat := 4096

  function Newlines(s: seq<char>): nat {
    if s == [] then 0 else Newlines(s[..|s| - 1]) + if s[|s| - 1] == '\n' then 1 else 0
  }

  lemma NewlinesMore(s: seq<char>, c: char)
    ensures Newlines(s + [c]) == Newlines(s) + if c == '\n' then 1 else 0
  {
    assert (s + [c])[..|s|] == s;
  }

  lemma {:induction false} NewlinesConcat(s: seq<char>, t: seq<char>)
    ensures Newlines(s + t) == Newlines(s) + Newlines(t)
  {
    if t == [] {
      assert s + t == s;
    } else {
      NewlinesConcat(s, t[..|t| - 1]);
      assert (s + t)[..|s + t| - 1] == s + t[..|t| - 1];
    }
  }

  lemma {:induction false} NewlinesNone(s: seq<char>)
    ensures Newlines(s) == 0 <==> '\n' !in s
  {
    if s != [] {
      NewlinesNone(s[..|s| - 1]);
      assert s == s[..|s| - 1] + [s[|s| - 1]];
    }
  }

  /** Lines given back with the newline that ended each of them. */
  function Joined(lines: seq<seq<char>>): seq<char> {
    if lines == [] then [] else Joined(lines[..|lines| - 1]) + lines[|lines| - 1] + ['\n']
  }

  lemma JoinedMore(lines: seq<seq<char>>, l: seq<char>)
    ensures Joined(lines + [l]) == Joined(lines) + l + ['\n']
  {
    assert (lines + [l])[..|lines|] == lines;
  }

  /** The text before the first newline, and what follows it. */
  function FirstLine(s: seq<char>): seq<char> {
    if s == [] || s[0] == '\n' then [] else [s[0]] + FirstLine(s[1..])
  }

  /** The complete lines of a text, in order. */
  function Lines(s: seq<char>): seq<seq<char>>
    decreases |s|
  {
    if '\n' !in s then []
    else
      FirstLineShape(s);
      [FirstLine(s)] + Lines(s[|FirstLine(s)| + 1..])
  }

  lemma {:induction false} FirstLineShape(s: seq<char>)
    ensures |FirstLine(s)| <= |s| && FirstLine(s) == s[..|FirstLine(s)|] && '\n' !in FirstLine(s)
    ensures '\n' in s ==> |FirstLine(s)| < |s| && s[|FirstLine(s)|] == '\n'
  {
    if s != [] && s[0] != '\n' {
      FirstLineShape(s[1..]);
    }
  }

  lemma {:induction false} FirstLineOf(l: seq<char>, rest: seq<char>)
    requires '\n' !in l
    ensures FirstLine(l + ['\n'] + rest) == l
  {
    var s := l + ['\n'] + rest;
    if l != [] {
      FirstLineOf(l[1..], rest);
      assert s[1..] == l[1..] + ['\n'] + rest;
    }
  }

  lemma LinesCons(l: seq<char>, rest: seq<char>)
    requires '\n' !in l
    ensures Lines(l + ['\n'] + rest) == [l] + Lines(rest)
  {
    var s := l + ['\n'] + rest;
    FirstLineOf(l, rest);
    assert s[|l|] == '\n';
    assert s[|l| + 1..] == rest;
  }

  /** Cutting a text into lines undoes joining them. */
  lemma {:induction false} LinesOfJoined(lines: seq<seq<char>>, rest: seq<char>)
    requires forall l <- lines :: '\n' !in l
    ensures Lines(Joined(lines) + rest) == lines + Lines(rest)
  {
    hide Lines;
    if lines == [] {
      assert Joined(lines) + rest == rest;
    } else {
      var n := |lines| - 1;
      var l := lines[n];
      LinesOfJoined(lines[..n], l + ['\n'] + rest);
      assert Joined(lines) + rest == Joined(lines[..n]) + (l + ['\n'] + rest);
      LinesCons(l, rest);
      assert lines == lines[..n] + [l];
    }
  }

  /** What one key does to the pending text. */
  datatype Key = Backspace | Enter | Character(c: char) | Nothing

  function Edit(text: seq<char>, k: Key): seq<char> {
    match k
    case Backspace => if text == [] then text else text[..|text| - 1]
    case Enter => text + ['\n']
    case Character(c) => text + [c]
    case Nothing => text
  }

  // ----- what a log of inputs amounts to -----

  /** Rows for the codes 0 to 58.  The last is what lies behind the table, where Caps Lock looks. */
  type CodeMap = seq<(char, char)>

  predicate GoodMap(m: CodeMap) {
    |m| == 59 && forall k | 0 <= k < 59 :: m[k].0 != '\n' && m[k].1 != '\n'
  }

  /** A scan code from the keyboard, or a reader at the buffer. */
  datatype Input = Code(c: nat) | Read

  /** Everything typed so far with backspaces applied, how much of it has been read, the line count
      of the code, how many unread newlines backspaces have gone over, and the shift state. */
  datatype Typing = Typing(text: seq<char>, read: nat, lines: int, lost: nat, caps: bool, ctrl: bool)

  ghost predicate Sane(t: Typing) { t.read <= |t.text| }

  ghost function Pending(t: Typing): seq<char>
    requires Sane(t)
  {
    t.text[t.read..]
  }

  /** What scan code `c` stands for in a shift state. */
  ghost function KeyOf(m: CodeMap, c: nat, caps: bool, ctrl: bool): Key
    requires GoodMap(m)
  {
    if c == 0 || c > 58 || c == 42 || c == 54 then Nothing
    else if c == 14 then Backspace
    else if c == 28 then Enter
    else if c == 29 then Character(m[29].1)
    else Character(if caps || ctrl then m[c].1 else m[c].0)
  }

  /** The shift state after scan code `c`: Control and Shift hold until the next character. */
  ghost function Shifted(c: nat, caps: bool, ctrl: bool): (bool, bool) {
    if c == 0 || c > 58 || c == 14 || c == 28 then (caps, ctrl)
    else if c == 29 then (caps, true)
    else if c == 42 || c == 54 then (true, ctrl)
    else (false, false)
  }

  ghost predicate OverNewline(text: seq<char>, k: Key) {
    k == Backspace && text != [] && text[|text| - 1] == '\n'
  }

  /** A key edits the pending text; what has been read is out of reach of a backspace. */
  ghost function Pressed(m: CodeMap, t: Typing, c: nat): Typing
    requires GoodMap(m) && Sane(t)
  {
    var k := KeyOf(m, c, t.caps, t.ctrl);
    Typing(t.text[..t.read] + Edit(Pending(t), k), t.read,
           t.lines + if k == Enter then 1 else 0,
           t.lost + if OverNewline(Pending(t), k) then 1 else 0,
           Shifted(c, t.caps, t.ctrl).0, Shifted(c, t.caps, t.ctrl).1)
  }

  /** What a reader gets: nothing if no line is counted or, the count being wrong, none is there. */
  ghost function Result(t: Typing): Option<seq<char>>
    requires Sane(t)
  {
    if t.lines > 0 && '\n' in Pending(t) then Some(FirstLine(Pending(t))) else None
  }

  function Blank(n: nat): (s: seq<char>)
    ensures |s| == n && forall k | 0 <= k < n :: s[k] == '\0'
  {
    seq(n, _ => '\0')
  }

  /** A reader takes the first line; looking for a line that is not there wipes the pending text. */
  ghost function Fetched(t: Typing): Typing
    requires Sane(t)
  {
    if Result(t).Some? then t.(read := t.read + |Result(t).value| + 1, lines := t.lines - 1)
    else if t.lines > 0 then t.(text := t.text[..t.read] + Blank(|Pending(t)|))
    else t
  }

  ghost function After(m: CodeMap, t: Typing, x: Input): Typing
    requires GoodMap(m) && Sane(t)
  {
    match x
    case Code(c) => Pressed(m, t, c)
    case Read => Fetched(t)
  }

  lemma AfterSane(m: CodeMap, t: Typing, x: Input)
    requires GoodMap(m) && Sane(t)
    ensures Sane(After(m, t, x))
  {
    FirstLineShape(Pending(t));
  }

  ghost function Play(m: CodeMap, log: seq<Input>): (t: Typing)
    requires GoodMap(m)
    ensures Sane(t)
  {
    if log == [] then Typing([], 0, 0, 0, false, false)
    else
      var t := Play(m, log[..|log| - 1]);
      AfterSane(m, t, log[|log| - 1]);
      After(m, t, log[|log| - 1])
  }

  /** The lines that the readers of a log get, in order. */
  ghost function Results(m: CodeMap, log: seq<Input>): seq<seq<char>>
    requires GoodMap(m)
  {
    if log == [] then []
    else
      var n := |log| - 1;
      var r := if log[n] == Read then Result(Play(m, log[..n])) else None;
      Results(m, log[..n]) + if r.Some? then [r.value] else []
  }

  lemma PlayMore(m: CodeMap, log: seq<Input>, x: Input)
    requires GoodMap(m)
    ensures Play(m, log + [x]) == After(m, Play(m, log), x)
    ensures Results(m, log + [x]) ==
            Results(m, log) + if x == Read && Result(Play(m, log)).Some? then [Result(Play(m, log)).value] else []
  {
    assert (log + [x])[..|log|] == log;
  }

  // ----- every log -----

  lemma EditNewlines(text: seq<char>, m: CodeMap, c: nat, caps: bool, ctrl: bool)
    requires GoodMap(m)
    ensures var k := KeyOf(m, c, caps, ctrl);
            Newlines(Edit(text, k)) ==
            Newlines(text) + (if k == Enter then 1 else 0) - (if OverNewline(text, k) then 1 else 0)
  {
    hide Newlines;
    match KeyOf(m, c, caps, ctrl)
    case Backspace =>
      if text != [] {
        var n := |text| - 1;
        assert text == text[..n] + [text[n]];
        NewlinesMore(text[..n], text[n]);
      }
    case Enter => NewlinesMore(text, '\n');
    case Character(ch) => NewlinesMore(text, ch);
    case Nothing =>
  }

  /** A line count that is right but for lost newlines stays so. */
  lemma CountAfter(m: CodeMap, t: Typing, x: Input)
    requires GoodMap(m) && Sane(t) && t.lines == Newlines(Pending(t)) + t.lost
    ensures var t' := After(m, t, x); Sane(t') && t'.lines == Newlines(Pending(t')) + t'.lost
  {
    hide Newlines, FirstLine, KeyOf, Edit;
    AfterSane(m, t, x);
    var t', text := After(m, t, x), Pending(t);
    match x
    case Code(c) =>
      EditNewlines(text, m, c, t.caps, t.ctrl);
      assert Pending(t') == Edit(text, KeyOf(m, c, t.caps, t.ctrl));
    case Read =>
      NewlinesNone(text);
      if Result(t).Some? {
        SplitLine(text);
        assert Pending(t') == text[|FirstLine(text)| + 1..];
      } else if t.lines > 0 {
        assert Pending(t') == Blank(|text|);
        NewlinesNone(Blank(|text|));
      }
  }

  lemma SplitLine(s: seq<char>)
    requires '\n' in s
    ensures |FirstLine(s)| < |s| && '\n' !in FirstLine(s)
    ensures s == FirstLine(s) + ['\n'] + s[|FirstLine(s)| + 1..]
    ensures Newlines(s) == 1 + Newlines(s[|FirstLine(s)| + 1..])
  {
    FirstLineShape(s);
    var l, rest := FirstLine(s), s[|FirstLine(s)| + 1..];
    assert s == l + ['\n'] + rest;
    LineTaken(l, rest);
  }

  /** `no_lines` is the number of unread newlines plus the number of backspaces over one: it is
      right if and only if there was none. */
  lemma {:induction false} CountIsExact(m: CodeMap, log: seq<Input>)
    requires GoodMap(m)
    ensures var t := Play(m, log);
            && t.lines == Newlines(Pending(t)) + t.lost
            && (t.lines == Newlines(Pending(t)) <==> t.lost == 0)
  {
    if log != [] {
      var n := |log| - 1;
      CountIsExact(m, log[..n]);
      CountAfter(m, Play(m, log[..n]), log[n]);
    }
  }

  // ----- what the keys type -----

  /** Codes of keys that type one of the two characters of their row. */
  predicate CharCode(c: nat) {
    0 < c <= 58 && c != 14 && c != 28 && c != 29 && c != 42 && c != 54
  }

  /** After every log a character key types the second character of its row if Shift or Control is
      held, and the first if not; either way neither is held afterwards. */
  lemma CharTypes(m: CodeMap, log: seq<Input>, c: nat)
    requires GoodMap(m) && CharCode(c)
    ensures var t, u := Play(m, log), Play(m, log + [Code(c)]);
            && u.text == t.text + [if t.caps || t.ctrl then m[c].1 else m[c].0]
            && !u.caps && !u.ctrl && u.lines == t.lines
  {
    hide Play, Results;
    PlayMore(m, log, Code(c));
    var t := Play(m, log);
    assert t.text == t.text[..t.read] + Pending(t);
  }

  /** Shift types nothing and holds for one character. */
  lemma ShiftTypes(m: CodeMap, log: seq<Input>, x: nat, c: nat, d: nat)
    requires GoodMap(m) && (x == 42 || x == 54) && CharCode(c) && CharCode(d)
    ensures var t := Play(m, log);
            && Play(m, log + [Code(x)]).text == t.text
            && Play(m, log + [Code(x)] + [Code(c)]).text == t.text + [m[c].1]
            && Play(m, log + [Code(x)] + [Code(c)] + [Code(d)]).text == t.text + [m[c].1] + [m[d].0]
  {
    hide Play, Results;
    PlayMore(m, log, Code(x));
    CharTypes(m, log + [Code(x)], c);
    CharTypes(m, log + [Code(x)] + [Code(c)], d);
  }

  /** Control types its own sign and holds for one character. */
  lemma ControlTypes(m: CodeMap, log: seq<Input>, c: nat, d: nat)
    requires GoodMap(m) && CharCode(c) && CharCode(d)
    ensures var t := Play(m, log);
            && Play(m, log + [Code(29)]).text == t.text + [m[29].1]
            && Play(m, log + [Code(29)] + [Code(c)]).text == t.text + [m[29].1] + [m[c].1]
            && Play(m, log + [Code(29)] + [Code(c)] + [Code(d)]).text == t.text + [m[29].1] + [m[c].1] + [m[d].0]
  {
    hide Play, Results;
    var t := Play(m, log);
    PlayMore(m, log, Code(29));
    assert t.text == t.text[..t.read] + Pending(t);
    CharTypes(m, log + [Code(29)], c);
    CharTypes(m, log + [Code(29)] + [Code(c)], d);
  }

  /** Enter types a newline and counts it; a backspace takes back the last character that has not been
      read; key releases and the code 0 do nothing. */
  lemma OtherKeysType(m: CodeMap, log: seq<Input>, c: nat)
    requires GoodMap(m)
    ensures var t, u := Play(m, log), Play(m, log + [Code(c)]);
            && (c == 28 ==> u == t.(text := t.text + ['\n'], lines := t.lines + 1))
            && (c == 14 ==> u.text == (if t.read < |t.text| then t.text[..|t.text| - 1] else t.text))
            && (c == 14 ==> (u.read, u.lines, u.caps, u.ctrl) == (t.read, t.lines, t.caps, t.ctrl))
            && (c == 0 || c > 58 ==> u == t)
  {
    hide Play, Results;
    PlayMore(m, log, Code(c));
    var t := Play(m, log);
    assert t.text == t.text[..t.read] + Pending(t);
  }

  lemma PressedParts(m: CodeMap, t: Typing, c: nat)
    requires GoodMap(m) && Sane(t)
    ensures var t', k := Pressed(m, t, c), KeyOf(m, c, t.caps, t.ctrl);
            && Sane(t') && t'.read == t.read && t'.text[..t.read] == t.text[..t.read]
            && Pending(t') == Edit(Pending(t), k) && t'.lines == t.lines + (if k == Enter then 1 else 0)
            && (t'.caps, t'.ctrl) == Shifted(c, t.caps, t.ctrl)
  {
    hide KeyOf, Edit;
  }

  lemma FetchedParts(t: Typing)
    requires Sane(t)
    ensures var t' := Fetched(t);
            && Sane(t') && t'.caps == t.caps && t'.ctrl == t.ctrl
            && (Result(t).None? ==> t'.read == t.read && t'.lines == t.lines && t'.text[..t.read] == t.text[..t.read])
            && (Result(t).None? ==> Pending(t') == if t.lines > 0 then Blank(|Pending(t)|) else Pending(t))
  {
    FirstLineShape(Pending(t));
  }

  lemma FetchedLine(t: Typing)
    requires Sane(t) && Result(t).Some?
    ensures var t', l := Fetched(t), FirstLine(Pending(t));
            && Sane(t') && |l| < |Pending(t)| && t'.lines == t.lines - 1
            && t'.text[..t'.read] == t.text[..t.read] + (l + ['\n']) && Pending(t') == Pending(t)[|l| + 1..]
            && '\n' !in l
  {
    hide FirstLine, Fetched, Result;
    var l := FirstLine(Pending(t));
    FetchedMoves(t);
    LineCut(t.text, t.read, l);
  }

  lemma LineCut(s: seq<char>, a: nat, l: seq<char>)
    requires a <= |s| && '\n' in s[a..] && l == FirstLine(s[a..])
    ensures |l| < |s| - a && '\n' !in l
    ensures s[..a + |l| + 1] == s[..a] + (l + ['\n']) && s[a + |l| + 1..] == s[a..][|l| + 1..]
  {
    hide FirstLine;
    FirstLineShape(s[a..]);
    CutAt(s, a, l, s[a..][|l| + 1..]);
  }

  lemma FetchedMoves(t: Typing)
    requires Sane(t) && Result(t).Some?
    ensures '\n' in Pending(t)
    ensures Fetched(t) == t.(read := t.read + |FirstLine(Pending(t))| + 1, lines := t.lines - 1)
  {
    hide FirstLine;
  }

  lemma CutAt(s: seq<char>, a: nat, l: seq<char>, rest: seq<char>)
    requires a <= |s| && s[a..] == l + ['\n'] + rest
    ensures a + |l| + 1 <= |s| && s[..a + |l| + 1] == s[..a] + (l + ['\n']) && s[a + |l| + 1..] == rest
  {
    var n := |l| + 1;
    assert |s[a..]| == n + |rest|;
    assert s[a..][..n] == l + ['\n'] && s[a..][n..] == rest;
    assert s[..a + n] == s[..a] + s[a..][..n];
  }

  /** A turn of the reading loop on a buffer that holds the pending text. */
  lemma TakenIsFetched(t: Typing, r: Option<seq<char>>, text: seq<char>, lines: int)
    requires Sane(t) && r.Some? == (t.lines > 0 && '\n' in Pending(t))
    requires r.Some? ==>
               && r.value == FirstLine(Pending(t)) && |r.value| < |Pending(t)|
               && text == Pending(t)[|r.value| + 1..] && lines == t.lines - 1
    requires r.None? ==> text == (if t.lines > 0 then Blank(|Pending(t)|) else Pending(t)) && lines == t.lines
    ensures var t' := Fetched(t);
            && r == Result(t) && Sane(t') && Pending(t') == text && t'.lines == lines
            && t'.caps == t.caps && t'.ctrl == t.ctrl
  {
    hide FirstLine, Fetched;
    FetchedParts(t);
    if r.Some? { FetchedLine(t); }
  }

  lemma ReadAfter(m: CodeMap, t: Typing, x: Input, lines: seq<seq<char>>)
    requires GoodMap(m) && Sane(t) && t.text[..t.read] == Joined(lines)
    ensures var t' := After(m, t, x);
            Sane(t') && t'.text[..t'.read] ==
                        Joined(lines + if x == Read && Result(t).Some? then [Result(t).value] else [])
  {
    hide Joined, FirstLine, Pressed, Fetched;
    match x
    case Code(c) =>
      PressedParts(m, t, c);
      assert lines + [] == lines;
    case Read =>
      FetchedParts(t);
      if Result(t).Some? {
        FetchedLine(t);
        JoinedMore(lines, FirstLine(Pending(t)));
      } else {
        assert lines + [] == lines;
      }
  }

  /** What has been read is the lines that readers got, each with its newline. */
  lemma {:induction false} ReadIsResults(m: CodeMap, log: seq<Input>)
    requires GoodMap(m)
    ensures var t := Play(m, log);
            t.text[..t.read] == Joined(Results(m, log)) && forall l <- Results(m, log) :: '\n' !in l
  {
    hide After, Result, FirstLine;
    if log != [] {
      var n := |log| - 1;
      ReadIsResults(m, log[..n]);
      var t := Play(m, log[..n]);
      ReadAfter(m, t, log[n], Results(m, log[..n]));
      ResultClean(t);
    }
  }

  lemma ResultClean(t: Typing)
    requires Sane(t)
    ensures Result(t).Some? ==> '\n' !in Result(t).value
  {
    FirstLineShape(Pending(t));
  }

  /** The lines that readers got, followed by the lines pending, are the lines that the buffer has
      held. */
  lemma BufferLines(m: CodeMap, log: seq<Input>)
    requires GoodMap(m)
    ensures var t := Play(m, log);
            && Results(m, log) + Lines(Pending(t)) == Lines(t.text)
            && |Lines(Pending(t))| == Newlines(Pending(t))
  {
    hide Lines, Joined, Play, Results, Newlines;
    var t := Play(m, log);
    ReadIsResults(m, log);
    LinesOfJoined(Results(m, log), Pending(t));
    assert t.text == t.text[..t.read] + Pending(t);
    LinesCount(Pending(t));
  }

  // ----- the text typed -----

  /** What the user typed, with backspaces applied, and how much of it is out of their reach: a
      terminal whose readers take whole lines and alter nothing. */
  datatype Typed = Typed(text: seq<char>, read: nat, caps: bool, ctrl: bool)

  ghost function TypedAfter(m: CodeMap, w: Typed, x: Input): Typed
    requires GoodMap(m) && w.read <= |w.text|
  {
    var rest := w.text[w.read..];
    match x
    case Code(c) =>
      Typed(w.text[..w.read] + Edit(rest, KeyOf(m, c, w.caps, w.ctrl)), w.read,
            Shifted(c, w.caps, w.ctrl).0, Shifted(c, w.caps, w.ctrl).1)
    case Read => if '\n' in rest then w.(read := w.read + |FirstLine(rest)| + 1) else w
  }

  ghost function TypedText(m: CodeMap, log: seq<Input>): (w: Typed)
    requires GoodMap(m)
    ensures w.read <= |w.text|
  {
    if log == [] then Typed([], 0, false, false)
    else
      var w := TypedText(m, log[..|log| - 1]);
      FirstLineShape(w.text[w.read..]);
      TypedAfter(m, w, log[|log| - 1])
  }

  /** The buffer has held what was typed. */
  ghost predicate Faithful(t: Typing, w: Typed) {
    t.text == w.text && t.read == w.read && t.caps == w.caps && t.ctrl == w.ctrl
  }

  /** A reader comes when lines are counted but none is there, and something is pending. */
  ghost predicate Wipes(t: Typing, x: Input)
    requires Sane(t)
  {
    x == Read && t.lines > 0 && '\n' !in Pending(t) && Pending(t) != Blank(|Pending(t)|)
  }

  /** One input: the buffer goes on holding what is typed exactly when it is not such a reader. */
  lemma StepFaithful(m: CodeMap, t: Typing, w: Typed, x: Input)
    requires GoodMap(m) && Sane(t) && Faithful(t, w) && t.lines == Newlines(Pending(t)) + t.lost
    ensures Faithful(After(m, t, x), TypedAfter(m, w, x)) <==> !Wipes(t, x)
  {
    hide Newlines, FirstLine, Edit, KeyOf, Shifted;
    var rest := Pending(t);
    NewlinesNone(rest);
    if x == Read && Result(t).None? {
      assert t.text == t.text[..t.read] + rest;
      if t.lines > 0 && Fetched(t).text == t.text {
        assert Fetched(t).text[t.read..] == Blank(|rest|);
      }
    }
  }

  ghost predicate AllFaithful(m: CodeMap, log: seq<Input>, n: nat)
    requires GoodMap(m) && n <= |log|
  {
    forall k | 0 <= k <= n :: Faithful(Play(m, log[..k]), TypedText(m, log[..k]))
  }

  ghost predicate NoWipes(m: CodeMap, log: seq<Input>, n: nat)
    requires GoodMap(m) && n <= |log|
  {
    forall k | 0 <= k < n :: !Wipes(Play(m, log[..k]), log[k])
  }

  lemma TypedMore(m: CodeMap, log: seq<Input>, n: nat)
    requires GoodMap(m) && n < |log|
    ensures Play(m, log[..n + 1]) == After(m, Play(m, log[..n]), log[n])
    ensures TypedText(m, log[..n + 1]) == TypedAfter(m, TypedText(m, log[..n]), log[n])
  {
    assert log[..n + 1][..n] == log[..n];
  }

  /** Over every log, and up to every point of it, the buffer has held what was typed if and only if
      no reader has wiped it. */
  lemma {:induction false} TypedIsText(m: CodeMap, log: seq<Input>, n: nat)
    requires GoodMap(m) && n <= |log|
    ensures AllFaithful(m, log, n) <==> NoWipes(m, log, n)
    decreases n
  {
    hide Play, TypedText, After, TypedAfter, Wipes, Faithful;
    if n == 0 {
      assert log[..0] == [];
      NothingTyped(m);
    } else {
      TypedIsText(m, log, n - 1);
      TypedMore(m, log, n - 1);
      assert AllFaithful(m, log, n) <==>
             AllFaithful(m, log, n - 1) && Faithful(Play(m, log[..n]), TypedText(m, log[..n]));
      assert NoWipes(m, log, n) <==> NoWipes(m, log, n - 1) && !Wipes(Play(m, log[..n - 1]), log[n - 1]);
      if AllFaithful(m, log, n - 1) {
        CountIsExact(m, log[..n - 1]);
        StepFaithful(m, Play(m, log[..n - 1]), TypedText(m, log[..n - 1]), log[n - 1]);
      }
    }
  }

  lemma NothingTyped(m: CodeMap)
    requires GoodMap(m)
    ensures Faithful(Play(m, []), TypedText(m, []))
  {
  }

  /** Lines are read first in, first out: over every log in which no reader wipes the buffer, the
      lines that readers got, followed by the lines still pending, are the lines of the text typed. */
  lemma LinesAreFifo(m: CodeMap, log: seq<Input>)
    requires GoodMap(m) && NoWipes(m, log, |log|)
    ensures Results(m, log) + Lines(Pending(Play(m, log))) == Lines(TypedText(m, log).text)
    ensures |Lines(Pending(Play(m, log)))| == Newlines(Pending(Play(m, log)))
  {
    hide Play, Results, Lines, TypedText, Newlines;
    BufferLines(m, log);
    TypedIsText(m, log, |log|);
    assert log[..|log|] == log;
    assert Faithful(Play(m, log), TypedText(m, log));
  }

  lemma LostAfter(m: CodeMap, t: Typing, x: Input)
    requires GoodMap(m) && Sane(t)
    ensures After(m, t, x).lost >= t.lost
  {
    hide Edit, KeyOf, Shifted, FirstLine;
  }

  lemma {:induction false} LostGrows(m: CodeMap, log: seq<Input>, k: nat)
    requires GoodMap(m) && k <= |log|
    ensures Play(m, log[..k]).lost <= Play(m, log).lost
    decreases |log|
  {
    hide After;
    if k < |log| {
      var n := |log| - 1;
      LostGrows(m, log[..n], k);
      LostAfter(m, Play(m, log[..n]), log[n]);
      assert log[..n][..k] == log[..k];
    } else {
      assert log[..k] == log;
    }
  }

  /** As long as no backspace has gone over an unread newline, no reader wipes anything. */
  lemma RightCountIsSafe(m: CodeMap, log: seq<Input>)
    requires GoodMap(m) && Play(m, log).lost == 0
    ensures NoWipes(m, log, |log|)
  {
    hide Play;
    forall k | 0 <= k < |log|
      ensures !Wipes(Play(m, log[..k]), log[k])
    {
      LostGrows(m, log, k);
      CountIsExact(m, log[..k]);
      NewlinesNone(Pending(Play(m, log[..k])));
    }
  }

  lemma PlayedTo(m: CodeMap, log: seq<Input>, x: Input, log': seq<Input>)
    requires GoodMap(m) && log' == log + [x]
    ensures Play(m, log') == After(m, Play(m, log), x)
    ensures TypedText(m, log') == TypedAfter(m, TypedText(m, log), x)
    ensures Results(m, log') ==
            Results(m, log) + if x == Read && Result(Play(m, log)).Some? then [Result(Play(m, log)).value] else []
  {
    assert log'[..|log|] == log;
  }

  /** A backspace over an unread newline leaves the count one further off, whatever came before. */
  lemma BackspaceMiscounts(m: CodeMap, log: seq<Input>)
    requires GoodMap(m) && OverNewline(Pending(Play(m, log)), Backspace)
    ensures var t := Play(m, log + [Code(14)]);
            t.lost == Play(m, log).lost + 1 && t.lines == Newlines(Pending(t)) + t.lost
  {
    PlayMore(m, log, Code(14));
    CountIsExact(m, log + [Code(14)]);
  }

  /** It can happen at once: Enter, then Backspace. */
  lemma EnterBackspace(m: CodeMap)
    requires GoodMap(m)
    ensures OverNewline(Pending(Play(m, [Code(28)])), Backspace)
    ensures var t := Play(m, [Code(28), Code(14)]); t.lines != Newlines(Pending(t))
  {
    hide Pressed, Newlines, Play, Results;
    NothingPlayed(m);
    PlayMore(m, [], Code(28));
    PressedParts(m, Play(m, []), 28);
    assert [] + [Code(28)] == [Code(28)];
    BackspaceMiscounts(m, [Code(28)]);
    assert [Code(28)] + [Code(14)] == [Code(28), Code(14)];
  }

  // ----- the buffer in memory -----

  class Buffer {
    const buf: array<char>
    const codeMap: CodeMap
    var i: nat
    var offset: nat
    var noLines: int
    var caps: bool
    var ctrl: bool
    /** All inputs so far. */
    ghost var log: seq<Input>

    ghost predicate Shape()
      reads this, buf
    {
      && buf.Length == SIZE && GoodMap(codeMap) && offset <= i <= SIZE
      && (forall k | i <= k < SIZE :: buf[k] == '\0')
    }

    ghost function Text(): seq<char>
      reads this, buf
      requires Shape()
    {
      buf[offset..i]
    }

    /** The buffer and the variables beside it are what the log amounts to. */
    ghost predicate Valid()
      reads this, buf
    {
      && Shape()
      && var t := Play(codeMap, log);
         Pending(t) == Text() && t.lines == noLines && t.caps == caps && t.ctrl == ctrl
    }

    /** What the next reader gets. */
    ghost function Offer(): Option<seq<char>>
      reads this
    {
      if GoodMap(codeMap) then Result(Play(codeMap, log)) else None
    }

    constructor (codeMap: CodeMap)
      requires GoodMap(codeMap)
      ensures Valid() && log == [] && this.codeMap == codeMap && fresh(buf)
    {
      buf := new char[SIZE](_ => '\0');
      this.codeMap := codeMap;
      i, offset, noLines, caps, ctrl, log := 0, 0, 0, false, false, [];
    }

    method Append(ch: char)
      requires Shape() && i < SIZE
      modifies buf, this`i
      ensures Shape() && Text() == old(Text()) + [ch]
    {
      buf[i] := ch;
      i := i + 1;
      assert buf[offset..i] == old(buf[offset..i]) + [ch];
    }

    method Erase()
      requires Shape() && offset < i
      modifies buf, this`i
      ensures Shape() && Text() == old(Text())[..|old(Text())| - 1]
    {
      buf[i - 1] := '\0';
      i := i - 1;
    }

    /** Codes that put a character into the buffer. */
    static predicate Types(c: nat) {
      0 < c <= 58 && c != 14 && c != 42 && c != 54
    }

    /** `write_terminal` for one scan code. */
    method Press(c: nat)
      requires Valid() && (Types(c) ==> i < SIZE)
      modifies this`i, this`noLines, this`caps, this`ctrl, this`log, buf
      ensures Valid() && log == old(log) + [Code(c)]
    {
      hide Play, Results, Pressed, KeyOf, Edit, Shifted;
      PlayMore(codeMap, log, Code(c));
      PressedParts(codeMap, Play(codeMap, log), c);
      EditBuffer(c);
      log := log + [Code(c)];
    }

    /** What a scan code does to the buffer, the line count and the shift state. */
    method EditBuffer(c: nat)
      requires Shape() && (Types(c) ==> i < SIZE)
      modifies this`i, this`noLines, this`caps, this`ctrl, buf
      ensures Shape() && Text() == Edit(old(Text()), KeyOf(codeMap, c, old(caps), old(ctrl)))
      ensures noLines == old(noLines) + if KeyOf(codeMap, c, old(caps), old(ctrl)) == Enter then 1 else 0
      ensures (caps, ctrl) == Shifted(c, old(caps), old(ctrl))
      ensures CharCode(c) ==>
                && Text() == old(Text()) + [if old(caps) || old(ctrl) then codeMap[c].1 else codeMap[c].0]
                && !caps && !ctrl
      ensures c == 42 || c == 54 ==> Text() == old(Text()) && caps && ctrl == old(ctrl)
      ensures c == 29 ==> Text() == old(Text()) + [codeMap[29].1] && ctrl && caps == old(caps)
    {
      if c > 0 {
        if c > 58 {
          return;
        }
        if c == 14 {
          if offset != i {
            Erase();
          }
        } else if c == 28 {
          Append('\n');
          noLines := noLines + 1;
        } else if c == 29 {
          ctrl := true;
          Append(codeMap[c].1);
        } else if c == 42 || c == 54 {
          caps := true;
        } else {
          if ctrl {
            ctrl := false;
            caps := true;
          }
          var ch := if caps then codeMap[c].1 else codeMap[c].0;
          caps := false;
          Append(ch);
        }
      }
    }

    /** One turn of the loop of `read_input`: the first line if one is counted and there; a reader
        that gets none gives the processor away and tries again later. */
    method ReadInput() returns (r: Option<seq<char>>)
      requires Valid()
      modifies this`offset, this`noLines, this`log, buf
      ensures Valid() && log == old(log) + [Read]
      ensures r == old(Offer())
      ensures Results(codeMap, log) == Results(codeMap, old(log)) + if r.Some? then [r.value] else []
    {
      hide Play, Results, FirstLine, Fetched, Result;
      PlayMore(codeMap, log, Read);
      r := TakeLine();
      TakenIsFetched(Play(codeMap, log), r, Text(), noLines);
      log := log + [Read];
    }

    /** What that turn does to the buffer and the line count. */
    method TakeLine() returns (r: Option<seq<char>>)
      requires Shape()
      modifies this`offset, this`noLines, buf
      ensures Shape() && r.Some? == (old(noLines) > 0 && '\n' in old(Text()))
      ensures r.Some? ==>
                && r.value == FirstLine(old(Text())) && |r.value| < |old(Text())|
                && Text() == old(Text())[|r.value| + 1..] && noLines == old(noLines) - 1
      ensures r.None? ==>
                && Text() == (if noLines > 0 then Blank(|old(Text())|) else old(Text()))
                && noLines == old(noLines)
    {
      hide FirstLine;
      r := None;
      if noLines > 0 {
        var line, found := CopyLine();
        if found {
          ghost var t := Text();
          offset := offset + |line| + 1;
          noLines := noLines - 1;
          r := Some(line);
          assert Text() == t[|line| + 1..];
        }
      }
    }

    /** The copying loop of `read_input`: up to the first newline, or to the end of the buffer. */
    method CopyLine() returns (line: seq<char>, found: bool)
      requires Shape()
      modifies buf
      ensures Shape() && found == ('\n' in old(Text()))
      ensures found ==>
                && line == FirstLine(old(Text())) && |line| < |old(Text())|
                && Text()[|line| + 1..] == old(Text())[|line| + 1..]
      ensures !found ==> Text() == Blank(|old(Text())|)
    {
      hide FirstLine, GoodMap;
      ghost var t, all := Text(), buf[..];
      line := [];
      var k := offset;
      while k < SIZE
        invariant Shape() && offset <= k <= SIZE && |line| == k - offset
        invariant forall j | k <= j < SIZE :: buf[j] == all[j]
        invariant line == all[offset..k] && '\n' !in line
        invariant forall j | offset <= j < k :: buf[j] == '\0'
      {
        if buf[k] == '\n' {
          assert Text() == buf[..][offset..i] && t == all[offset..i];
          LineFound(all, offset, i, k);
          AfterLine(buf[..], all, offset, i, k);
          return line, true;
        }
        line := line + [buf[k]];
        buf[k] := '\0';
        k := k + 1;
      }
      NoLine(all, offset, i);
      assert t == all[offset..i];
      IsBlank(Text());
      return line, false;
    }
  }

  /** A newline at `k` with none before it, in a buffer that is blank from `i` on. */
  lemma LineFound(all: seq<char>, offset: nat, i: nat, k: nat)
    requires offset <= i <= |all| && offset <= k < |all| && all[k] == '\n' && '\n' !in all[offset..k]
    requires forall j | i <= j < |all| :: all[j] == '\0'
    ensures k < i && FirstLine(all[offset..i]) == all[offset..k] && '\n' in all[offset..i]
  {
    var t := all[offset..i];
    assert t[k - offset] == '\n' && t[..k - offset] == all[offset..k];
    FirstLineIs(t, k - offset);
  }

  lemma AfterLine(now: seq<char>, all: seq<char>, offset: nat, i: nat, k: nat)
    requires |now| == |all| && offset <= k < i <= |all| && forall j | k <= j < |all| :: now[j] == all[j]
    ensures now[offset..i][k - offset + 1..] == all[offset..i][k - offset + 1..]
  {
  }

  lemma IsBlank(s: seq<char>)
    requires forall j | 0 <= j < |s| :: s[j] == '\0'
    ensures s == Blank(|s|)
  {
  }

  lemma NoLine(all: seq<char>, offset: nat, i: nat)
    requires offset <= i <= |all| && '\n' !in all[offset..]
    ensures '\n' !in all[offset..i]
  {
    assert all[offset..i] == all[offset..][..i - offset];
  }

  lemma FirstLineIs(s: seq<char>, n: nat)
    requires n < |s| && s[n] == '\n' && '\n' !in s[..n]
    ensures FirstLine(s) == s[..n]
  {
    assert s == s[..n] + ['\n'] + s[n + 1..];
    FirstLineOf(s[..n], s[n + 1..]);
  }

  /** A session at a new terminal: the first `n` inputs, keys and readers in any order, until a
      character finds the buffer full.  Unless a reader wiped it, the lines handed out, followed by
      the pending ones, are the lines typed. */
  method Session(codeMap: CodeMap, inputs: seq<Input>) returns (b: Buffer, lines: seq<seq<char>>, n: nat)
    requires GoodMap(codeMap)
    ensures n <= |inputs| && b.Valid() && b.codeMap == codeMap && b.log == inputs[..n]
    ensures n < |inputs| ==> b.i == SIZE && inputs[n].Code? && Buffer.Types(inputs[n].c)
    ensures lines == Results(codeMap, inputs[..n])
    ensures b.noLines == Newlines(b.Text()) + Play(codeMap, inputs[..n]).lost
    ensures NoWipes(codeMap, inputs[..n], n) ==>
              lines + Lines(b.Text()) == Lines(TypedText(codeMap, inputs[..n]).text)
  {
    hide Play, Results, Lines, Newlines, NoWipes, TypedText;
    b := new Buffer(codeMap);
    lines, n := [], 0;
    NothingPlayed(codeMap);
    while n < |inputs|
      invariant n <= |inputs| && b.Valid() && b.codeMap == codeMap && b.log == inputs[..n] && fresh(b) && fresh(b.buf)
      invariant lines == Results(codeMap, inputs[..n])
    {
      if inputs[n].Code? && Buffer.Types(inputs[n].c) && b.i == SIZE {
        break;
      }
      assert inputs[..n + 1] == inputs[..n] + [inputs[n]];
      match inputs[n]
      case Code(c) =>
        PlayMore(codeMap, b.log, inputs[n]);
        b.Press(c);
        n := n + 1;
      case Read =>
        var r := b.ReadInput();
        if r.Some? {
          lines := lines + [r.value];
        }
        n := n + 1;
    }
    CountIsExact(codeMap, inputs[..n]);
    if NoWipes(codeMap, inputs[..n], n) {
      LinesAreFifo(codeMap, inputs[..n]);
    }
  }

  /** A wipe does happen: Enter, Backspace, `a`, a reader, `b`, Enter, a reader.  What was typed is the
      line `ab`; what the second reader gets has a NUL in place of the `a`. */
  lemma WipedLine(m: CodeMap)
    requires GoodMap(m) && m[30].0 != '\0'
    ensures var log := [Code(28), Code(14), Code(30), Read, Code(48), Code(28), Read];
            && Results(m, log) == [['\0', m[48].0]]
            && TypedText(m, log).text == [m[30].0, m[48].0, '\n'] && !NoWipes(m, log, 7)
  {
    hide Play, TypedText, Results, After, TypedAfter, Wipes;
    var log := [Code(28), Code(14), Code(30), Read, Code(48), Code(28), Read];
    WipedStart(m);
    WipedEnd(m);
    assert log[..3] == [Code(28), Code(14), Code(30)] && log[3] == Read;
    WipedThere(Play(m, log[..3]), m[30].0);
  }

  lemma WipedThere(t: Typing, a: char)
    requires t == Typing([a], 0, 1, 1, false, false) && a != '\n' && a != '\0'
    ensures Wipes(t, Read)
  {
    assert Pending(t) == [a] && Blank(1)[0] == '\0';
  }

  /** A code while nothing has been read yet. */
  lemma CodeAtStart(m: CodeMap, t: Typing, w: Typed, c: nat)
    requires GoodMap(m) && t.read == 0 && w.read == 0
    ensures var k := KeyOf(m, c, t.caps, t.ctrl);
            After(m, t, Code(c)) ==
            Typing(Edit(t.text, k), 0, t.lines + if k == Enter then 1 else 0,
                   t.lost + if OverNewline(t.text, k) then 1 else 0,
                   Shifted(c, t.caps, t.ctrl).0, Shifted(c, t.caps, t.ctrl).1)
    ensures TypedAfter(m, w, Code(c)) ==
            Typed(Edit(w.text, KeyOf(m, c, w.caps, w.ctrl)), 0,
                  Shifted(c, w.caps, w.ctrl).0, Shifted(c, w.caps, w.ctrl).1)
  {
    hide KeyOf, Edit, Shifted, OverNewline;
    assert t.text[0..] == t.text && w.text[0..] == w.text;
  }

  /** A key that is a character in the plain shift state. */
  lemma CharacterAtStart(m: CodeMap, t: Typing, w: Typed, c: nat)
    requires GoodMap(m) && t.read == 0 && w.read == 0 && c in {30, 48}
    requires !t.caps && !t.ctrl && !w.caps && !w.ctrl
    ensures After(m, t, Code(c)) == t.(text := t.text + [m[c].0])
    ensures TypedAfter(m, w, Code(c)) == w.(text := w.text + [m[c].0])
  {
    hide After, TypedAfter;
    CodeAtStart(m, t, w, c);
  }

  lemma EnterAtStart(m: CodeMap, t: Typing, w: Typed)
    requires GoodMap(m) && t.read == 0 && w.read == 0
    ensures After(m, t, Code(28)) == t.(text := t.text + ['\n'], lines := t.lines + 1)
    ensures TypedAfter(m, w, Code(28)) == w.(text := w.text + ['\n'])
  {
    hide After, TypedAfter;
    CodeAtStart(m, t, w, 28);
  }

  lemma BackspaceAtStart(m: CodeMap, t: Typing, w: Typed)
    requires GoodMap(m) && t.read == 0 && w.read == 0 && t.text == ['\n'] == w.text
    ensures After(m, t, Code(14)) == t.(text := [], lost := t.lost + 1)
    ensures TypedAfter(m, w, Code(14)) == w.(text := [])
  {
    hide After, TypedAfter;
    CodeAtStart(m, t, w, 14);
  }

  lemma WipedStart(m: CodeMap)
    requires GoodMap(m)
    ensures var log := [Code(28), Code(14), Code(30)];
            && Play(m, log) == Typing([m[30].0], 0, 1, 1, false, false)
            && TypedText(m, log) == Typed([m[30].0], 0, false, false) && Results(m, log) == []
  {
    hide Play, TypedText, Results, After, TypedAfter, FirstLine;
    var l2, l3 := [Code(28), Code(14)], [Code(28), Code(14), Code(30)];
    WipedBackspace(m);
    PlayedTo(m, l2, Code(30), l3);
    CharacterAtStart(m, Play(m, l2), TypedText(m, l2), 30);
  }

  lemma WipedBackspace(m: CodeMap)
    requires GoodMap(m)
    ensures var log := [Code(28), Code(14)];
            && Play(m, log) == Typing([], 0, 1, 1, false, false)
            && TypedText(m, log) == Typed([], 0, false, false) && Results(m, log) == []
  {
    hide Play, TypedText, Results, After, TypedAfter, FirstLine;
    var l1, l2 := [Code(28)], [Code(28), Code(14)];
    NothingPlayed(m);
    PlayedTo(m, [], Code(28), l1);
    EnterAtStart(m, Play(m, []), TypedText(m, []));
    PlayedTo(m, l1, Code(14), l2);
    BackspaceAtStart(m, Play(m, l1), TypedText(m, l1));
  }

  lemma WipedMiddle(m: CodeMap)
    requires GoodMap(m)
    ensures var log := [Code(28), Code(14), Code(30), Read, Code(48)];
            && Play(m, log) == Typing(['\0', m[48].0], 0, 1, 1, false, false)
            && TypedText(m, log) == Typed([m[30].0, m[48].0], 0, false, false) && Results(m, log) == []
  {
    hide Play, TypedText, Results, After, TypedAfter, FirstLine;
    var l3, l4 := [Code(28), Code(14), Code(30)], [Code(28), Code(14), Code(30), Read];
    WipedStart(m);
    PlayedTo(m, l3, Read, l4);
    ReadNothing(m, Play(m, l3), TypedText(m, l3), m[30].0);
    assert Play(m, l4) == Typing(['\0'], 0, 1, 1, false, false);
    assert TypedText(m, l4) == Typed([m[30].0], 0, false, false);
    PlayedTo(m, l4, Code(48), l4 + [Code(48)]);
    CharacterAtStart(m, Play(m, l4), TypedText(m, l4), 48);
    assert l4 + [Code(48)] == [Code(28), Code(14), Code(30), Read, Code(48)];
  }

  lemma WipedEnd(m: CodeMap)
    requires GoodMap(m)
    ensures var log := [Code(28), Code(14), Code(30), Read, Code(48), Code(28), Read];
            && Results(m, log) == [['\0', m[48].0]]
            && TypedText(m, log).text == [m[30].0, m[48].0, '\n']
  {
    hide Play, TypedText, Results, After, TypedAfter, FirstLine, Result;
    var a, b := m[30].0, m[48].0;
    var l5 := [Code(28), Code(14), Code(30), Read, Code(48)];
    var l6 := [Code(28), Code(14), Code(30), Read, Code(48), Code(28)];
    WipedMiddle(m);
    PlayedTo(m, l5, Code(28), l6);
    EnterAtStart(m, Play(m, l5), TypedText(m, l5));
    assert Play(m, l6) == Typing(['\0', b, '\n'], 0, 2, 1, false, false);
    assert TypedText(m, l6) == Typed([a, b, '\n'], 0, false, false);
    PlayedTo(m, l6, Read, l6 + [Read]);
    assert l6 + [Read] == [Code(28), Code(14), Code(30), Read, Code(48), Code(28), Read];
    WipedResult(Play(m, l6), b);
    ReadKeepsText(m, TypedText(m, l6));
  }

  lemma ReadKeepsText(m: CodeMap, w: Typed)
    requires GoodMap(m) && w.read <= |w.text|
    ensures TypedAfter(m, w, Read).text == w.text
  {
  }

  lemma ReadNothing(m: CodeMap, t: Typing, w: Typed, a: char)
    requires GoodMap(m) && a != '\n'
    requires t == Typing([a], 0, 1, 1, false, false) && w == Typed([a], 0, false, false)
    ensures After(m, t, Read) == Typing(['\0'], 0, 1, 1, false, false) && TypedAfter(m, w, Read) == w
    ensures Result(t).None?
  {
    assert Pending(t) == [a] && w.text[w.read..] == [a];
    assert [] + Blank(1) == ['\0'];
  }

  lemma WipedResult(t: Typing, b: char)
    requires t == Typing(['\0', b, '\n'], 0, 2, 1, false, false) && b != '\n'
    ensures Result(t) == Some(['\0', b])
  {
    hide FirstLine;
    assert Pending(t) == ['\0', b, '\n'];
    FirstLineIs(['\0', b, '\n'], 2);
    assert ['\0', b, '\n'][..2] == ['\0', b];
  }

  lemma NothingPlayed(m: CodeMap)
    requires GoodMap(m)
    ensures Results(m, []) == [] && Play(m, []) == Typing([], 0, 0, 0, false, false)
    ensures TypedText(m, []) == Typed([], 0, false, false)
  {
  }

  lemma LineTaken(line: seq<char>, rest: seq<char>)
    requires '\n' !in line
    ensures Newlines(line + ['\n'] + rest) == 1 + Newlines(rest)
  {
    NewlinesConcat(line + ['\n'], rest);
    NewlinesMore(line, '\n');
    NewlinesNone(line);
  }

  lemma {:induction false} LinesCount(s: seq<char>)
    ensures |Lines(s)| == Newlines(s)
    decreases |s|
  {
    NewlinesNone(s);
    if '\n' in s {
      FirstLineShape(s);
      var l, rest := FirstLine(s), s[|FirstLine(s)| + 1..];
      assert s == l + ['\n'] + rest;
      LineTaken(l, rest);
      LinesCount(rest);
    }
  }
}
