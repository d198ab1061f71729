/**
 From the text of a configuration to the lines that are compared
 (internal/backup/configtext.go, normalize and the loop header of flatten): splitting,
 stripping and trimming change nothing that a comparison sees.
 */
module ConfigSource {
  import opened ConfigText

  /** strings.Split(t, "\n"). */
  function Lines(t: string): (ls: seq<string>)
    ensures ls != []
  {
    if t == "" then [""]
    else
      var rest := Lines(t[1..]);
      if t[0] == '\n' then [""] + rest else [[t[0]] + rest[0]] + rest[1..]
  }

  /** strings.Join(ls, "\n"). */
  function Unlines(ls: seq<string>): string {
    if ls == [] then "" else if |ls| == 1 then ls[0] else ls[0] + "\n" + Unlines(ls[1..])
  }

  function ReplaceCrLf(t: string): string {
    if t == "" then ""
    else if |t| >= 2 && t[0] == '\r' && t[1] == '\n' then "\n" + ReplaceCrLf(t[2..])
    else [t[0]] + ReplaceCrLf(t[1..])
  }

  predicate Volatile(line: string) {
    "#conf_file_ver=" <= line || "#buildno=" <= line || "#global_vdom=" <= line
  }

  /** strings.TrimRight(s, " \t"). */
  function TrimBlanks(s: string): string {
    if s != "" && s[|s| - 1] in {' ', '\t'} then TrimBlanks(s[..|s| - 1]) else s
  }

  function TrimEnd(s: string): string {
    if s != "" && Space(s[|s| - 1]) then TrimEnd(s[..|s| - 1]) else s
  }

  /** strings.TrimSpace. */
  function Trim(s: string): string { TrimEnd(SkipSpace(s)) }

  function TrimAll(ls: seq<string>): seq<string> {
    seq(|ls|, i requires 0 <= i < |ls| => Trim(ls[i]))
  }

  /** The lines without the volatile ones. */
  function Kept(ls: seq<string>): seq<string> {
    if ls == [] then []
    else (if Volatile(ls[0]) then [] else [TrimBlanks(ls[0])]) + Kept(ls[1..])
  }

  function Normalize(cfg: string): string { Trim(Unlines(Kept(Lines(ReplaceCrLf(cfg))))) }

  // ----- what flatten sees of a text

  /** The trimmed lines that flatten does not ignore. */
  function Significant(ls: seq<string>): seq<string> {
    if ls == [] then []
    else (if IsIgnored(Trim(ls[0])) then [] else [Trim(ls[0])]) + Significant(ls[1..])
  }

  function Feed(f: Flat, ls: seq<string>): Flat
    decreases |ls|
  {
    if ls == [] then f else Feed(Line(f, ls[0]), ls[1..])
  }

  lemma {:induction false} FeedAppend(f: Flat, ls: seq<string>, line: string)
    ensures Feed(f, ls + [line]) == Line(Feed(f, ls), line)
    decreases |ls|
  {
    if ls == [] {
      assert ([line])[1..] == [];
      assert [] + [line] == [line];
    } else {
      assert (ls + [line])[1..] == ls[1..] + [line];
      FeedAppend(Line(f, ls[0]), ls[1..], line);
    }
  }

  lemma {:induction false} FlattenIsFeed(ls: seq<string>)
    ensures Flatten(ls) == Feed(Flat([], [], map[]), ls)
  {
    if ls != [] {
      FlattenIsFeed(ls[..|ls| - 1]);
      FeedAppend(Flat([], [], map[]), ls[..|ls| - 1], ls[|ls| - 1]);
      assert ls == ls[..|ls| - 1] + [ls[|ls| - 1]];
    }
  }

  lemma {:induction false} FeedSignificant(f: Flat, ls: seq<string>)
    ensures Feed(f, TrimAll(ls)) == Feed(f, Significant(ls))
    decreases |ls|
  {
    if ls != [] {
      var line := Trim(ls[0]);
      assert TrimAll(ls) == [line] + TrimAll(ls[1..]);
      FeedSignificant(Line(f, line), ls[1..]);
      if IsIgnored(line) {
        assert Significant(ls) == Significant(ls[1..]);
      } else {
        assert Significant(ls) == [line] + Significant(ls[1..]);
      }
    }
  }

  /** Equal significant lines flatten equally. */
  lemma SameSignificant(a: seq<string>, b: seq<string>)
    requires Significant(a) == Significant(b)
    ensures Flatten(TrimAll(a)) == Flatten(TrimAll(b))
  {
    FlattenIsFeed(TrimAll(a));
    FlattenIsFeed(TrimAll(b));
    FeedSignificant(Flat([], [], map[]), a);
    FeedSignificant(Flat([], [], map[]), b);
  }

  lemma {:induction false} SignificantConcat(a: seq<string>, b: seq<string>)
    ensures Significant(a + b) == Significant(a) + Significant(b)
    decreases |a|
  {
    if a == [] {
      assert a + b == b;
    } else {
      assert (a + b)[1..] == a[1..] + b;
      SignificantConcat(a[1..], b);
    }
  }

  // ----- trimming

  lemma {:induction false} SkipAppend(s: string, c: char)
    requires Space(c)
    ensures SkipSpace(s + [c]) == if SkipSpace(s) == "" then "" else SkipSpace(s) + [c]
    decreases |s|
  {
    if s == "" {
      assert s + [c] == [c];
      assert [c][1..] == "";
    } else if Space(s[0]) {
      assert (s + [c])[1..] == s[1..] + [c];
      SkipAppend(s[1..], c);
    }
  }

  /** White space at the end of a line does not matter. */
  lemma TrimAppend(s: string, c: char)
    requires Space(c)
    ensures Trim(s + [c]) == Trim(s)
  {
    SkipAppend(s, c);
    var t := SkipSpace(s);
    assert (t + [c])[..|t|] == t;
  }

  lemma {:induction false} TrimBlanksTrims(s: string)
    ensures Trim(TrimBlanks(s)) == Trim(s)
    decreases |s|
  {
    if s != "" && s[|s| - 1] in {' ', '\t'} {
      var init := s[..|s| - 1];
      TrimBlanksTrims(init);
      TrimAppend(init, s[|s| - 1]);
      assert s == init + [s[|s| - 1]];
    }
  }

  lemma {:induction false} HashStays(s: string)
    requires "#" <= s
    ensures "#" <= TrimEnd(s)
    decreases |s|
  {
    if Space(s[|s| - 1]) {
      HashStays(s[..|s| - 1]);
    }
  }

  lemma VolatileIsIgnored(line: string)
    requires Volatile(line)
    ensures IsIgnored(Trim(line))
  {
    assert line[0] == '#';
    assert SkipSpace(line) == line;
    HashStays(line);
  }

  // ----- each step of normalize

  function Cons(d: char, ls: seq<string>): seq<string>
    requires ls != []
  {
    if d == '\n' then [""] + ls else [[d] + ls[0]] + ls[1..]
  }

  function Snoc(ls: seq<string>, c: char): seq<string>
    requires ls != []
  {
    if c == '\n' then ls + [""] else ls[..|ls| - 1] + [ls[|ls| - 1] + [c]]
  }

  lemma LinesCons(c: char, t: string)
    ensures Lines([c] + t) == Cons(c, Lines(t))
  {
    assert ([c] + t)[1..] == t;
  }

  /** The same lines, some with a carriage return more. */
  ghost predicate UpToCr(a: seq<string>, b: seq<string>) {
    |a| == |b| && forall i :: 0 <= i < |a| ==> b[i] == a[i] || b[i] == a[i] + "\r"
  }

  lemma OneMoreUpToCr(x: string, y: string, a: seq<string>, b: seq<string>)
    requires UpToCr(a, b) && (y == x || y == x + "\r")
    ensures UpToCr([x] + a, [y] + b)
  {}

  lemma {:induction false} ReplaceUpToCr(t: string)
    ensures UpToCr(Lines(ReplaceCrLf(t)), Lines(t))
    decreases |t|
  {
    if t == "" {
    } else if |t| >= 2 && t[0] == '\r' && t[1] == '\n' {
      ReplaceUpToCr(t[2..]);
      var rest := t[2..];
      assert t == ['\r'] + (['\n'] + rest);
      LinesCons('\n', rest);
      LinesCons('\r', ['\n'] + rest);
      LinesCons('\n', ReplaceCrLf(rest));
      OneMoreUpToCr("", "\r", Lines(ReplaceCrLf(rest)), Lines(rest));
      assert ['\r'] + "" == "\r";
      assert Lines(t) == ["\r"] + Lines(rest);
      assert "\n" == ['\n'];
    } else {
      ReplaceUpToCr(t[1..]);
      assert t == [t[0]] + t[1..];
      LinesCons(t[0], t[1..]);
      LinesCons(t[0], ReplaceCrLf(t[1..]));
      var a, b := Lines(ReplaceCrLf(t[1..])), Lines(t[1..]);
      if t[0] == '\n' {
        OneMoreUpToCr("", "", a, b);
      } else {
        assert [t[0]] + (a[0] + "\r") == ([t[0]] + a[0]) + "\r";
        OneMoreUpToCr([t[0]] + a[0], [t[0]] + b[0], a[1..], b[1..]);
      }
    }
  }

  lemma {:induction false} UpToCrSignificant(a: seq<string>, b: seq<string>)
    requires UpToCr(a, b)
    ensures Significant(a) == Significant(b)
    decreases |a|
  {
    if a != [] {
      TrimAppend(a[0], '\r');
      assert "\r" == ['\r'];
      UpToCrSignificant(a[1..], b[1..]);
    }
  }

  lemma {:induction false} KeptSignificant(ls: seq<string>)
    ensures Significant(Kept(ls)) == Significant(ls)
  {
    if ls != [] {
      KeptSignificant(ls[1..]);
      TrimBlanksTrims(ls[0]);
      if Volatile(ls[0]) {
        VolatileIsIgnored(ls[0]);
        assert Kept(ls) == Kept(ls[1..]);
      } else {
        assert Kept(ls) == [TrimBlanks(ls[0])] + Kept(ls[1..]);
        assert Kept(ls)[1..] == Kept(ls[1..]);
      }
    }
  }

  ghost predicate OneLine(s: string) { '\n' !in s }

  lemma {:induction false} LinesAreLines(t: string)
    ensures forall i :: 0 <= i < |Lines(t)| ==> OneLine(Lines(t)[i])
    decreases |t|
  {
    if t != "" {
      LinesAreLines(t[1..]);
    }
  }

  lemma {:induction false} TrimBlanksPart(s: string)
    ensures TrimBlanks(s) <= s
  {
    if s != "" && s[|s| - 1] in {' ', '\t'} {
      TrimBlanksPart(s[..|s| - 1]);
    }
  }

  lemma {:induction false} KeptAreLines(ls: seq<string>)
    requires forall i :: 0 <= i < |ls| ==> OneLine(ls[i])
    ensures forall i :: 0 <= i < |Kept(ls)| ==> OneLine(Kept(ls)[i])
  {
    if ls != [] {
      KeptAreLines(ls[1..]);
      TrimBlanksPart(ls[0]);
      assert OneLine(ls[0]);
      assert OneLine(TrimBlanks(ls[0]));
    }
  }

  lemma {:induction false} LinesOfLine(line: string, t: string)
    requires OneLine(line)
    ensures Lines(line) == [line]
    ensures Lines(line + "\n" + t) == [line] + Lines(t)
    decreases |line|
  {
    if line == "" {
      LinesCons('\n', t);
      assert "" + "\n" + t == ['\n'] + t;
    } else {
      var c, rest := line[0], line[1..];
      assert c in line;
      LinesOfLine(rest, t);
      LinesCons(c, rest);
      LinesCons(c, rest + "\n" + t);
      assert line == [c] + rest;
      assert line + "\n" + t == [c] + (rest + "\n" + t);
    }
  }

  lemma {:induction false} LinesOfUnlines(ls: seq<string>)
    requires ls != [] && forall i :: 0 <= i < |ls| ==> OneLine(ls[i])
    ensures Lines(Unlines(ls)) == ls
  {
    LinesOfLine(ls[0], if |ls| > 1 then Unlines(ls[1..]) else "");
    if |ls| > 1 {
      LinesOfUnlines(ls[1..]);
    }
  }

  lemma {:induction false} SkipSignificant(t: string)
    ensures Significant(Lines(SkipSpace(t))) == Significant(Lines(t))
    decreases |t|
  {
    if t != "" && Space(t[0]) {
      SkipSignificant(t[1..]);
      var rest := Lines(t[1..]);
      if t[0] == '\n' {
        assert Lines(t)[1..] == rest;
      } else {
        assert ([t[0]] + rest[0])[1..] == rest[0];
        assert Trim([t[0]] + rest[0]) == Trim(rest[0]);
        assert Lines(t)[1..] == rest[1..];
      }
    }
  }

  lemma ConsAppend(d: char, c: char, ls: seq<string>)
    requires ls != []
    ensures Cons(d, Snoc(ls, c)) == Snoc(Cons(d, ls), c)
  {
    if |ls| == 1 {
      assert [d] + (ls[0] + [c]) == ([d] + ls[0]) + [c];
    }
  }

  /** The lines of a text with one more character. */
  lemma {:induction false} LinesAppend(t: string, c: char)
    ensures Lines(t + [c]) == Snoc(Lines(t), c)
    decreases |t|
  {
    if t == "" {
      LinesCons(c, "");
      assert "" + [c] == [c] + "";
    } else {
      var d, rest := t[0], t[1..];
      LinesAppend(rest, c);
      assert t == [d] + rest && t + [c] == [d] + (rest + [c]);
      LinesCons(d, rest);
      LinesCons(d, rest + [c]);
      ConsAppend(d, c, Lines(rest));
    }
  }

  lemma SnocSignificant(ls: seq<string>, c: char)
    requires ls != [] && Space(c)
    ensures Significant(Snoc(ls, c)) == Significant(ls)
  {
    var last := |ls| - 1;
    if c == '\n' {
      SignificantConcat(ls, [""]);
    } else {
      TrimAppend(ls[last], c);
      SignificantConcat(ls[..last], [ls[last] + [c]]);
      SignificantConcat(ls[..last], [ls[last]]);
      assert ls == ls[..last] + [ls[last]];
    }
  }

  lemma {:induction false} TrimEndSignificant(t: string)
    ensures Significant(Lines(TrimEnd(t))) == Significant(Lines(t))
    decreases |t|
  {
    if t != "" && Space(t[|t| - 1]) {
      var init, c := t[..|t| - 1], t[|t| - 1];
      TrimEndSignificant(init);
      LinesAppend(init, c);
      assert t == init + [c];
      SnocSignificant(Lines(init), c);
    }
  }

  /** normalize leaves the lines that flatten looks at as they are. */
  lemma NormalizeSignificant(cfg: string)
    ensures Significant(Lines(Normalize(cfg))) == Significant(Lines(cfg))
  {
    var lines := Lines(ReplaceCrLf(cfg));
    var kept := Kept(lines);
    ReplaceUpToCr(cfg);
    UpToCrSignificant(lines, Lines(cfg));
    KeptSignificant(lines);
    LinesAreLines(ReplaceCrLf(cfg));
    KeptAreLines(lines);
    if kept != [] {
      LinesOfUnlines(kept);
    }
    SkipSignificant(Unlines(kept));
    TrimEndSignificant(SkipSpace(Unlines(kept)));
  }

  /** A configuration and its normal form have the same blocks and settings. */
  lemma NormalizeKeepsMeaning(cfg: string)
    ensures Flatten(TrimAll(Lines(Normalize(cfg)))) == Flatten(TrimAll(Lines(cfg)))
  {
    NormalizeSignificant(cfg);
    SameSignificant(Lines(Normalize(cfg)), Lines(cfg));
  }

  // ----- when normalizing again changes nothing

  /** No blank at the end. */
  predicate BlankFree(s: string) { s == "" || s[|s| - 1] !in {' ', '\t'} }

  /** Only the first line may be volatile, only the last may end in blanks. */
  ghost predicate NearlyNormal(ls: seq<string>) {
    && (forall i :: 0 <= i < |ls| - 1 ==> BlankFree(ls[i]))
    && (forall i :: 0 < i < |ls| ==> !Volatile(ls[i]))
  }

  lemma {:induction false} TrimBlanksFree(s: string)
    ensures BlankFree(TrimBlanks(s)) && (BlankFree(s) ==> TrimBlanks(s) == s)
  {
    if s != "" && s[|s| - 1] in {' ', '\t'} {
      TrimBlanksFree(s[..|s| - 1]);
    }
  }

  lemma VolatilePrefix(a: string, b: string)
    requires a <= b && Volatile(a)
    ensures Volatile(b)
  {}

  lemma {:induction false} KeptNormal(ls: seq<string>)
    ensures forall i :: 0 <= i < |Kept(ls)| ==> BlankFree(Kept(ls)[i]) && !Volatile(Kept(ls)[i])
  {
    if ls != [] {
      KeptNormal(ls[1..]);
      TrimBlanksFree(ls[0]);
      TrimBlanksPart(ls[0]);
      if Volatile(TrimBlanks(ls[0])) {
        VolatilePrefix(TrimBlanks(ls[0]), ls[0]);
      }
    }
  }

  /** Without its first character a text has the same lines, the first one shorter or gone. */
  lemma TailNormal(c: char, ls: seq<string>, all: seq<string>)
    requires ls != [] && all == Cons(c, ls) && NearlyNormal(all)
    ensures NearlyNormal(ls)
  {
    var shift := if c == '\n' then 1 else 0;
    forall i | 0 <= i < |ls| - 1 ensures BlankFree(ls[i]) {
      assert BlankFree(all[i + shift]);
    }
    forall i | 0 < i < |ls| ensures !Volatile(ls[i]) {
      assert !Volatile(all[i + shift]);
    }
  }

  lemma {:induction false} SkipNormal(t: string)
    requires NearlyNormal(Lines(t))
    ensures NearlyNormal(Lines(SkipSpace(t)))
    decreases |t|
  {
    if t != "" && Space(t[0]) {
      assert t == [t[0]] + t[1..];
      LinesCons(t[0], t[1..]);
      TailNormal(t[0], Lines(t[1..]), Lines(t));
      SkipNormal(t[1..]);
    }
  }

  /** Without its last character a text has the same lines, the last one shorter or gone. */
  lemma InitNormal(t: string, c: char)
    requires NearlyNormal(Lines(t + [c]))
    ensures NearlyNormal(Lines(t))
  {
    var ls, all := Lines(t), Lines(t + [c]);
    LinesAppend(t, c);
    assert forall i :: 0 <= i < |ls| - 1 ==> all[i] == ls[i];
    if c != '\n' && |ls| > 1 && Volatile(ls[|ls| - 1]) {
      VolatilePrefix(ls[|ls| - 1], all[|ls| - 1]);
    }
  }

  lemma {:induction false} TrimEndNormal(t: string)
    requires NearlyNormal(Lines(t))
    ensures NearlyNormal(Lines(TrimEnd(t)))
    decreases |t|
  {
    if t != "" && Space(t[|t| - 1]) {
      assert t == t[..|t| - 1] + [t[|t| - 1]];
      InitNormal(t[..|t| - 1], t[|t| - 1]);
      TrimEndNormal(t[..|t| - 1]);
    }
  }

  /** No white space at either end. */
  predicate Trimmed(t: string) { t == "" || (!Space(t[0]) && !Space(t[|t| - 1])) }

  lemma {:induction false} SkipTrims(t: string)
    ensures SkipSpace(t) == "" || !Space(SkipSpace(t)[0])
  {
    if t != "" && Space(t[0]) {
      SkipTrims(t[1..]);
    }
  }

  lemma {:induction false} EndTrims(t: string)
    requires t == "" || !Space(t[0])
    ensures Trimmed(TrimEnd(t))
  {
    if t != "" && Space(t[|t| - 1]) {
      EndTrims(t[..|t| - 1]);
    }
  }

  lemma NothingToTrim(t: string)
    requires Trimmed(t)
    ensures Trim(t) == t
  {}

  /** The last line of a text that ends in a character of a line ends in it. */
  lemma LastLine(t: string)
    requires t != "" && t[|t| - 1] != '\n'
    ensures var ls := Lines(t); ls[|ls| - 1] != "" && ls[|ls| - 1][|ls[|ls| - 1]| - 1] == t[|t| - 1]
  {
    LinesAppend(t[..|t| - 1], t[|t| - 1]);
    assert t == t[..|t| - 1] + [t[|t| - 1]];
  }

  lemma KeptText(cfg: string)
    ensures NearlyNormal(Lines(Unlines(Kept(Lines(ReplaceCrLf(cfg))))))
  {
    var lines := Lines(ReplaceCrLf(cfg));
    LinesAreLines(ReplaceCrLf(cfg));
    KeptAreLines(lines);
    KeptNormal(lines);
    if Kept(lines) != [] {
      LinesOfUnlines(Kept(lines));
    }
  }

  lemma TrimmedText(t: string)
    requires NearlyNormal(Lines(t))
    ensures Trimmed(Trim(t)) && NearlyNormal(Lines(Trim(t)))
  {
    SkipNormal(t);
    TrimEndNormal(SkipSpace(t));
    SkipTrims(t);
    EndTrims(SkipSpace(t));
  }

  lemma TrimmedLines(t: string)
    requires Trimmed(t) && NearlyNormal(Lines(t))
    ensures forall i :: 0 <= i < |Lines(t)| ==> BlankFree(Lines(t)[i])
  {
    if t != "" {
      LastLine(t);
    }
  }

  /** What every normal form looks like: trimmed, no blanks at line ends, no volatile line but perhaps the first. */
  lemma NormalForm(cfg: string)
    ensures Trimmed(Normalize(cfg)) && NearlyNormal(Lines(Normalize(cfg)))
    ensures forall i :: 0 <= i < |Lines(Normalize(cfg))| ==> BlankFree(Lines(Normalize(cfg))[i])
  {
    KeptText(cfg);
    TrimmedText(Unlines(Kept(Lines(ReplaceCrLf(cfg)))));
    TrimmedLines(Normalize(cfg));
  }

  lemma {:induction false} UnlinesOfLines(t: string)
    ensures Unlines(Lines(t)) == t
    decreases |t|
  {
    if t != "" {
      var rest := Lines(t[1..]);
      UnlinesOfLines(t[1..]);
      UnlinesCons(t[0], rest);
      LinesCons(t[0], t[1..]);
      assert t == [t[0]] + t[1..];
    }
  }

  lemma UnlinesCons(c: char, ls: seq<string>)
    requires ls != []
    ensures Unlines(Cons(c, ls)) == [c] + Unlines(ls)
  {
    if c != '\n' {
      assert Cons(c, ls)[1..] == ls[1..];
    } else {
      assert Cons(c, ls)[1..] == ls;
    }
  }

  lemma {:induction false} KeptAll(ls: seq<string>)
    requires forall i :: 0 <= i < |ls| ==> BlankFree(ls[i]) && !Volatile(ls[i])
    ensures Kept(ls) == ls
  {
    if ls != [] {
      TrimBlanksFree(ls[0]);
      KeptAll(ls[1..]);
    }
  }

  /** Keeping lines never makes a text longer, and dropping the first makes it shorter. */
  lemma {:induction false} KeptShorter(ls: seq<string>)
    ensures |Unlines(Kept(ls))| <= |Unlines(ls)|
    ensures ls != [] && Volatile(ls[0]) ==> |Unlines(Kept(ls))| < |Unlines(ls)|
  {
    if ls != [] {
      var kept := Kept(ls[1..]);
      KeptShorter(ls[1..]);
      TrimBlanksPart(ls[0]);
      if Volatile(ls[0]) {
        assert Kept(ls) == kept;
      } else {
        assert Kept(ls) == [TrimBlanks(ls[0])] + kept;
        assert Kept(ls)[1..] == kept;
      }
    }
  }

  lemma {:induction false} ReplaceShorter(t: string)
    ensures |ReplaceCrLf(t)| <= |t| && (ReplaceCrLf(t) != t ==> |ReplaceCrLf(t)| < |t|)
    decreases |t|
  {
    if t != "" {
      if |t| >= 2 && t[0] == '\r' && t[1] == '\n' {
        ReplaceShorter(t[2..]);
      } else {
        ReplaceShorter(t[1..]);
        assert t == [t[0]] + t[1..];
      }
    }
  }

  lemma {:induction false} TrimShorter(t: string)
    ensures |TrimEnd(t)| <= |t| && |SkipSpace(t)| <= |t|
  {
    if t != "" {
      TrimShorter(t[..|t| - 1]);
      TrimShorter(t[1..]);
    }
  }

  /** No line separator to replace and no volatile line left at the top. */
  predicate Stable(t: string) { ReplaceCrLf(t) == t && !Volatile(Lines(t)[0]) }

  lemma UnstableShrinks(t: string)
    requires !Stable(t)
    ensures |Normalize(t)| < |t|
  {
    var u := ReplaceCrLf(t);
    var v := Unlines(Kept(Lines(u)));
    ReplaceShorter(t);
    UnlinesOfLines(u);
    KeptShorter(Lines(u));
    TrimShorter(v);
    TrimShorter(SkipSpace(v));
  }

  /**
   Normalizing a normal form changes nothing if and only if it has no line separator of
   two characters left and does not begin with a volatile line.
   */
  lemma NormalizeAgainIff(cfg: string)
    ensures var y := Normalize(cfg); Normalize(y) == y <==> Stable(y)
  {
    var y := Normalize(cfg);
    if Stable(y) {
      NormalForm(cfg);
      KeptAll(Lines(y));
      UnlinesOfLines(y);
      NothingToTrim(y);
    } else {
      UnstableShrinks(y);
    }
  }

  lemma OneReturnLess()
    ensures ReplaceCrLf("a\r\r\nb") == "a\r\nb"
  {
    assert "\r\nb"[2..] == "b" && ReplaceCrLf("b") == "b";
    assert ReplaceCrLf("\r\nb") == "\nb";
    assert "\r\r\nb"[1..] == "\r\nb" && ReplaceCrLf("\r\r\nb") == "\r\nb";
    assert "a\r\r\nb"[1..] == "\r\r\nb";
  }

  lemma NoReturnLeft()
    ensures ReplaceCrLf("a\r\nb") == "a\nb"
  {
    assert "\r\nb"[2..] == "b" && ReplaceCrLf("b") == "b";
    assert ReplaceCrLf("\r\nb") == "\nb";
    assert "a\r\nb"[1..] == "\r\nb";
  }

  /** A line separator with two carriage returns loses one each time. */
  lemma NormalizeIsNotIdempotent()
    ensures var cfg := "a\r\r\nb"; Normalize(cfg) == "a\r\nb" && Normalize(Normalize(cfg)) == "a\nb"
  {
    OneReturnLess();
    NoReturnLeft();
    TwoLines("a\r", "b", "a\r\nb");
    TwoLines("a", "b", "a\nb");
    NothingToTrim("a\r\nb");
    NothingToTrim("a\nb");
  }

  lemma IndentTrims(y: string)
    requires y != "" && Trimmed(y)
    ensures Trim(" " + y) == y
  {
    assert (" " + y)[1..] == y;
    NothingToTrim(y);
  }

  lemma TwoLinesNormalize(a: string, b: string, cfg: string)
    requires OneLine(a) && OneLine(b) && BlankFree(a) && BlankFree(b) && !Volatile(a) && !Volatile(b)
    requires cfg == a + "\n" + b && '\r' !in cfg
    ensures Normalize(cfg) == Trim(cfg)
  {
    NoReturns(cfg);
    TwoLines(a, b, cfg);
  }

  lemma IndentedLine(v: string)
    requires Volatile(v) && OneLine(v) && BlankFree(v)
    ensures OneLine(" " + v) && BlankFree(" " + v) && !Volatile(" " + v) && v[0] == '#'
  {
    assert (" " + v)[0] == ' ';
    assert " " + v != "" && (" " + v)[|v|] == v[|v| - 1];
  }

  lemma IndentedOnce(v: string, b: string, y: string, cfg: string)
    requires Volatile(v) && OneLine(v) && BlankFree(v) && OneLine(b) && b != "" && !Space(b[|b| - 1]) && !Volatile(b)
    requires y == v + "\n" + b && '\r' !in y && cfg == " " + y
    ensures Normalize(cfg) == y
  {
    IndentedLine(v);
    assert cfg == (" " + v) + "\n" + b;
    TwoLinesNormalize(" " + v, b, cfg);
    assert y[0] == v[0] && y[|y| - 1] == b[|b| - 1];
    IndentTrims(y);
  }

  /** An indented volatile line at the top is kept once and dropped the next time. */
  lemma IndentedVolatile(v: string, b: string, y: string)
    requires Volatile(v) && OneLine(v) && BlankFree(v) && OneLine(b) && b != "" && !Space(b[|b| - 1]) && !Volatile(b)
    requires y == v + "\n" + b && '\r' !in y
    ensures Normalize(" " + y) == y && Normalize(y) != y
  {
    IndentedOnce(v, b, y, " " + y);
    LinesOfLine(v, b);
    NormalizeAgainIff(" " + y);
  }

  lemma {:induction false} NoReturns(t: string)
    requires '\r' !in t
    ensures ReplaceCrLf(t) == t
  {
    if t != "" {
      NoReturns(t[1..]);
    }
  }

  /** A text of two plain lines keeps both. */
  lemma TwoLines(a: string, b: string, t: string)
    requires OneLine(a) && OneLine(b) && BlankFree(a) && BlankFree(b) && !Volatile(a) && !Volatile(b)
    requires t == a + "\n" + b
    ensures Unlines(Kept(Lines(t))) == t
  {
    LinesOfLine(b, "");
    LinesOfLine(a, b);
    assert [a] + [b] == [a, b];
    KeptAll([a, b]);
    UnlinesOfLines(t);
  }

  // ----- whole texts

  lemma {:induction false} KeptAppend(ls: seq<string>, line: string)
    ensures Kept(ls + [line]) == Kept(ls) + if Volatile(line) then [] else [TrimBlanks(line)]
    decreases |ls|
  {
    if ls == [] {
      assert [] + [line] == [line];
      assert [line][1..] == [];
    } else {
      assert (ls + [line])[1..] == ls[1..] + [line];
      KeptAppend(ls[1..], line);
    }
  }

  /** The loop of normalize: the kept lines move to the front of the array. */
  method Compact(lines: array<string>) returns (n: nat)
    modifies lines
    ensures n <= lines.Length && lines[..n] == Kept(old(lines[..]))
  {
    ghost var split := lines[..];
    n := 0;
    for i := 0 to lines.Length
      invariant n <= i && lines[..n] == Kept(split[..i])
      invariant forall k :: i <= k < lines.Length ==> lines[k] == split[k]
    {
      var l := lines[i];
      assert split[..i + 1] == split[..i] + [l];
      KeptAppend(split[..i], l);
      if !Volatile(l) {
        ghost var kept := lines[..n];
        lines[n] := TrimBlanks(l);
        n := n + 1;
        assert lines[..n] == kept + [TrimBlanks(l)];
      }
    }
    assert split[..|split|] == split;
  }

  method NormalizeText(cfg: string) returns (text: string)
    ensures text == Normalize(cfg)
  {
    var split := Lines(ReplaceCrLf(cfg));
    var lines := new string[|split|](i requires 0 <= i < |split| => split[i]);
    assert lines[..] == split;
    var n := Compact(lines);
    text := Trim(Unlines(lines[..n]));
  }

  lemma {:induction false} KeptConcat(a: seq<string>, b: seq<string>)
    ensures Kept(a + b) == Kept(a) + Kept(b)
    decreases |a|
  {
    if a == [] {
      assert a + b == b;
    } else {
      assert (a + b)[1..] == a[1..] + b;
      KeptConcat(a[1..], b);
    }
  }

  /** A header line that changes on every save. */
  ghost predicate Header(line: string) {
    exists value :: line == "#conf_file_ver=" + value || line == "#buildno=" + value || line == "#global_vdom=" + value
  }

  lemma HeaderIff(line: string)
    ensures Header(line) <==> Volatile(line)
  {
    if "#conf_file_ver=" <= line {
      assert line == "#conf_file_ver=" + line[15..];
    }
    if "#buildno=" <= line {
      assert line == "#buildno=" + line[9..];
    }
    if "#global_vdom=" <= line {
      assert line == "#global_vdom=" + line[13..];
    }
  }

  /** Wherever it stands, a header line goes and any other line, a comment too, stays without its trailing blanks. */
  lemma KeptUnlessHeader(before: seq<string>, line: string, after: seq<string>)
    ensures Kept(before + [line] + after) == Kept(before) + (if Header(line) then [] else [TrimBlanks(line)]) + Kept(after)
  {
    HeaderIff(line);
    KeptAppend(before, line);
    KeptConcat(before + [line], after);
  }

  lemma {:induction false} CleanSignificant(ls: seq<string>)
    ensures CleanLines(TrimAll(ls)) <==> CleanLines(Significant(ls))
  {
    if ls != [] {
      var line := Trim(ls[0]);
      CleanSignificant(ls[1..]);
      assert TrimAll(ls) == [line] + TrimAll(ls[1..]);
      CleanCons(line, TrimAll(ls[1..]));
      if IsIgnored(line) {
        IgnoredIsNoBlock(line);
        assert Significant(ls) == Significant(ls[1..]);
      } else {
        assert Significant(ls) == [line] + Significant(ls[1..]);
        CleanCons(line, Significant(ls[1..]));
      }
    }
  }

  lemma IgnoredIsNoBlock(line: string)
    requires IsIgnored(line)
    ensures !IsBlock(line)
  {
    if IsBlock(line) {
      BlockStart(line);
      assert false;
    }
  }

  lemma CleanCons(line: string, ls: seq<string>)
    ensures CleanLines([line] + ls) <==> (IsBlock(line) ==> NoSep(line)) && CleanLines(ls)
  {
    var all := [line] + ls;
    assert all[0] == line;
    assert forall i :: 0 <= i < |ls| ==> all[i + 1] == ls[i];
    if CleanLines(all) {
      forall i | 0 <= i < |ls| && IsBlock(ls[i]) ensures NoSep(ls[i]) {
        assert IsBlock(all[i + 1]);
      }
    }
  }

  /** The blocks and settings of a configuration, as its text has them. */
  function Meaning(cfg: string): Settings { Flatten(TrimAll(Lines(cfg))).settings }

  /**
   The comparison of two texts: it normalizes, splits and trims them, and what it reports
   is the difference of what the texts themselves mean. Equal normal forms, hence equal
   fingerprints, leave nothing to report.
   */
  method DiffTexts(oldCfg: string, newCfg: string, mask: string -> string) returns (out: seq<Change>)
    ensures IsDiff(out, Meaning(oldCfg), Meaning(newCfg), mask)
    ensures InOrder(out, Order(Flatten(TrimAll(Lines(oldCfg))), Flatten(TrimAll(Lines(newCfg)))))
    ensures CleanLines(TrimAll(Lines(oldCfg))) && CleanLines(TrimAll(Lines(newCfg))) ==>
      (out == [] <==> Meaning(oldCfg) == Meaning(newCfg))
    ensures Normalize(oldCfg) == Normalize(newCfg) ==> out == []
  {
    var oldText := NormalizeText(oldCfg);
    var newText := NormalizeText(newCfg);
    NormalizeKeepsMeaning(oldCfg);
    NormalizeKeepsMeaning(newCfg);
    NormalizeKeepsClean(oldCfg);
    NormalizeKeepsClean(newCfg);
    out := Diff(TrimAll(Lines(oldText)), TrimAll(Lines(newText)), mask);
    if oldText == newText {
      NothingToReport(out, Meaning(oldCfg), mask);
    }
  }

  lemma NormalizeKeepsClean(cfg: string)
    ensures CleanLines(TrimAll(Lines(Normalize(cfg)))) <==> CleanLines(TrimAll(Lines(cfg)))
  {
    NormalizeSignificant(cfg);
    CleanSignificant(Lines(Normalize(cfg)));
    CleanSignificant(Lines(cfg));
  }

  lemma NothingToReport(out: seq<Change>, s: Settings, mask: string -> string)
    requires IsDiff(out, s, s, mask)
    ensures out == []
  {
    forall c ensures !Reported(c, s, s, mask) {}
    EmptyIffSilent(out, s, s, mask);
  }
}
