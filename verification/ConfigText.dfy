/**
 Block-wise comparison of two device configurations (internal/backup/configtext.go):
 flatten turns the trimmed lines of a configuration into a map from block paths to
 settings, Diff lists what differs. Hiding secrets (Mask) is any function of the line.
 */
module ConfigText {
  import opened Common

  const SEP: string := " > "

  type Settings = map<string, map<string, string>>

  // ----- lines

  predicate IsBlock(line: string) { "config " <= line || "edit " <= line }

  predicate IsEnd(line: string) { line == "end" || line == "next" }

  predicate IsIgnored(line: string) { line == "" || "#" <= line }

  predicate Space(c: char) { c in {' ', '\t', '\n', '\U{0B}', '\U{0C}', '\r', '\U{85}', '\U{A0}'} }

  function SkipSpace(s: string): string {
    if s != "" && Space(s[0]) then SkipSpace(s[1..]) else s
  }

  function Word(s: string): string {
    if s == "" || Space(s[0]) then "" else [s[0]] + Word(s[1..])
  }

  function AfterWord(s: string): string {
    if s == "" || Space(s[0]) then s else AfterWord(s[1..])
  }

  /** The setting's name: the second word of a set or unset line, else the whole line. */
  function KeyOf(line: string): string {
    var start := SkipSpace(line);
    var name := Word(SkipSpace(AfterWord(start)));
    if name != "" && (Word(start) == "set" || Word(start) == "unset") then name else line
  }

  // ----- block paths

  function Join(stack: seq<string>): string {
    if stack == [] then ""
    else if |stack| == 1 then stack[0]
    else Join(stack[..|stack| - 1]) + SEP + stack[|stack| - 1]
  }

  /** The separator stands at position i of s. */
  predicate SepAt(s: string, i: nat) {
    i + 3 <= |s| && s[i] == ' ' && s[i + 1] == '>' && s[i + 2] == ' '
  }

  /** strings.LastIndex(p, " > "), None for -1. */
  function LastSep(p: string): Option<nat> {
    if |p| < 3 then None
    else if SepAt(p, |p| - 3) then Some(|p| - 3)
    else LastSep(p[..|p| - 1])
  }

  /** The path of the enclosing block, None for a top-level one. */
  function Parent(p: string): (q: Option<string>)
    ensures q.Some? ==> |q.value| < |p|
  {
    LastSepBound(p);
    if LastSep(p).None? then None else Some(p[..LastSep(p).value])
  }

  lemma {:induction false} LastSepBound(p: string)
    ensures LastSep(p).Some? ==> LastSep(p).value + 3 <= |p|
    decreases |p|
  {
    if |p| >= 3 && !SepAt(p, |p| - 3) {
      LastSepBound(p[..|p| - 1]);
    }
  }

  ghost predicate NoSep(s: string) {
    forall i: nat :: !SepAt(s, i)
  }

  /** No config or edit line contains the separator. */
  ghost predicate CleanLines(lines: seq<string>) {
    forall i :: 0 <= i < |lines| && IsBlock(lines[i]) ==> NoSep(lines[i])
  }

  lemma NoSepPrefix(s: string, n: nat)
    requires NoSep(s) && n <= |s|
    ensures NoSep(s[..n])
  {
    forall i: nat ensures !SepAt(s[..n], i) {
      assert !SepAt(s, i);
    }
  }

  lemma {:induction false} NoLastSep(s: string)
    requires NoSep(s)
    ensures LastSep(s).None?
    decreases |s|
  {
    if |s| >= 3 {
      assert !SepAt(s, |s| - 3);
      NoSepPrefix(s, |s| - 1);
      NoLastSep(s[..|s| - 1]);
    }
  }

  /** The last separator of a joined path is the one before its last line. */
  lemma {:induction false} LastSepOfJoin(a: string, b: string)
    requires NoSep(b) && (b != "" ==> b[0] != '>')
    ensures LastSep(a + SEP + b) == Some(|a|)
    decreases |b|
  {
    var p := a + SEP + b;
    if b == "" {
      assert SepAt(p, |a|);
    } else {
      var shorter := b[..|b| - 1];
      assert p[..|p| - 1] == a + SEP + shorter;
      assert |b| >= 3 ==> !SepAt(b, |b| - 3);
      assert !SepAt(p, |p| - 3);
      NoSepPrefix(b, |b| - 1);
      LastSepOfJoin(a, shorter);
    }
  }

  ghost predicate CleanStack(stack: seq<string>) {
    forall i :: 0 <= i < |stack| ==> IsBlock(stack[i]) && NoSep(stack[i])
  }

  lemma BlockStart(line: string)
    requires IsBlock(line)
    ensures line != "" && line[0] != '>' && line[0] != ' '
  {
    assert line[0] == 'c' || line[0] == 'e';
  }

  lemma ParentOfPair(a: string, b: string)
    requires NoSep(b) && b != "" && b[0] != '>'
    ensures Parent(a + SEP + b) == Some(a)
  {
    LastSepOfJoin(a, b);
    assert (a + SEP + b)[..|a|] == a;
  }

  lemma ParentOfSingle(line: string)
    requires NoSep(line)
    ensures Parent(line).None?
  {
    NoLastSep(line);
  }

  /** Leaving the last line of a path out gives its parent. */
  lemma ParentOfJoin(init: seq<string>, last: string)
    requires IsBlock(last) && NoSep(last)
    ensures Parent(Join(init + [last])) == if init == [] then None else Some(Join(init))
  {
    var stack := init + [last];
    assert stack[..|init|] == init;
    if init == [] {
      assert Join(stack) == last;
      ParentOfSingle(last);
    } else {
      assert Join(stack) == Join(init) + SEP + last;
      BlockStart(last);
      ParentOfPair(Join(init), last);
    }
  }

  // ----- flatten

  datatype Flat = Flat(stack: seq<string>, blocks: seq<string>, settings: Settings)

  function AddBlock(f: Flat, p: string): Flat {
    if p in f.settings then f else f.(blocks := f.blocks + [p], settings := f.settings[p := map[]])
  }

  /** One line of the configuration. */
  function Line(f: Flat, line: string): Flat {
    if IsIgnored(line) then f
    else if IsBlock(line) then
      var pushed := f.(stack := f.stack + [line]);
      AddBlock(pushed, Join(pushed.stack))
    else if IsEnd(line) then
      (if f.stack == [] then f else f.(stack := f.stack[..|f.stack| - 1]))
    else
      var p := Join(f.stack);
      var g := AddBlock(f, p);
      g.(settings := g.settings[p := g.settings[p][KeyOf(line) := line]])
  }

  function Flatten(lines: seq<string>): Flat {
    if lines == [] then Flat([], [], map[]) else Line(Flatten(lines[..|lines| - 1]), lines[|lines| - 1])
  }

  /** The parent of every block is a block too. */
  ghost predicate ParentClosed(s: Settings) {
    forall p :: p in s && Parent(p).Some? ==> Parent(p).value in s
  }

  /** The block list has no duplicates and is the key set of the settings. */
  ghost predicate BlocksOk(f: Flat) {
    && Distinct(f.blocks)
    && (forall p :: p in f.blocks <==> p in f.settings)
  }

  ghost predicate FlatOk(f: Flat) {
    && BlocksOk(f)
    && CleanStack(f.stack)
    && (forall k :: 0 < k <= |f.stack| ==> Join(f.stack[..k]) in f.settings)
    && ParentClosed(f.settings)
  }

  lemma AddBlockOk(f: Flat, p: string)
    requires BlocksOk(f)
    ensures BlocksOk(AddBlock(f, p))
  {
    forall q ensures q in AddBlock(f, p).blocks <==> q in AddBlock(f, p).settings {
      assert q in f.blocks <==> q in f.settings;
    }
  }

  lemma {:induction false} FlattenBlocks(lines: seq<string>)
    ensures BlocksOk(Flatten(lines))
    decreases |lines|
  {
    if lines != [] {
      var f := Flatten(lines[..|lines| - 1]);
      FlattenBlocks(lines[..|lines| - 1]);
      var line := lines[|lines| - 1];
      AddBlockOk(f, Join(f.stack));
      AddBlockOk(f.(stack := f.stack + [line]), Join(f.stack + [line]));
      LineBlocks(f, line);
    }
  }

  lemma LineBlocks(f: Flat, line: string)
    requires BlocksOk(f) && BlocksOk(AddBlock(f, Join(f.stack)))
    requires BlocksOk(AddBlock(f.(stack := f.stack + [line]), Join(f.stack + [line])))
    ensures BlocksOk(Line(f, line))
  {
    if !IsIgnored(line) && !IsBlock(line) && !IsEnd(line) {
      var g := AddBlock(f, Join(f.stack));
      assert Line(f, line).settings.Keys == g.settings.Keys;
      forall p ensures p in Line(f, line).blocks <==> p in Line(f, line).settings {
        assert p in g.blocks <==> p in g.settings;
      }
    }
  }

  lemma PushOk(f: Flat, line: string)
    requires FlatOk(f) && IsBlock(line) && NoSep(line)
    ensures FlatOk(AddBlock(f.(stack := f.stack + [line]), Join(f.stack + [line])))
  {
    var stack := f.stack + [line];
    var p := Join(stack);
    var g := AddBlock(f.(stack := stack), p);
    AddBlockOk(f.(stack := stack), p);
    ParentOfJoin(f.stack, line);
    assert f.stack[..|f.stack|] == f.stack;
    forall k | 0 < k <= |stack| ensures Join(stack[..k]) in g.settings {
      if k < |stack| {
        assert stack[..k] == f.stack[..k];
      } else {
        assert stack[..k] == stack;
      }
    }
  }

  lemma PopOk(f: Flat)
    requires FlatOk(f) && f.stack != []
    ensures FlatOk(f.(stack := f.stack[..|f.stack| - 1]))
  {
    var stack := f.stack[..|f.stack| - 1];
    forall k | 0 < k <= |stack| ensures Join(stack[..k]) in f.settings {
      assert stack[..k] == f.stack[..k];
    }
  }

  lemma SettingOk(f: Flat, line: string)
    requires FlatOk(f) && !IsIgnored(line) && !IsBlock(line) && !IsEnd(line)
    ensures FlatOk(Line(f, line))
  {
    var p := Join(f.stack);
    AddBlockOk(f, p);
    AddBlockOk(f.(stack := f.stack + [line]), Join(f.stack + [line]));
    LineBlocks(f, line);
    if f.stack != [] {
      assert f.stack[..|f.stack|] == f.stack;
      assert p in f.settings;
    }
    assert Line(f, line).settings.Keys == f.settings.Keys + {p};
  }

  lemma {:induction false} FlattenOk(lines: seq<string>)
    requires CleanLines(lines)
    ensures FlatOk(Flatten(lines))
    decreases |lines|
  {
    if lines != [] {
      var init, line := lines[..|lines| - 1], lines[|lines| - 1];
      FlattenOk(init);
      var f := Flatten(init);
      if IsIgnored(line) {
      } else if IsBlock(line) {
        PushOk(f, line);
      } else if IsEnd(line) {
        if f.stack != [] {
          PopOk(f);
        }
      } else {
        SettingOk(f, line);
      }
    }
  }

  /** flatten as the source runs it: a stack, a set of paths seen, the block list and the nested maps. */
  method FlattenLines(lines: seq<string>) returns (settings: Settings, blocks: seq<string>)
    ensures settings == Flatten(lines).settings && blocks == Flatten(lines).blocks
  {
    settings, blocks := map[], [];
    var stack: seq<string> := [];
    var seen: set<string> := {};
    for i := 0 to |lines|
      invariant Flat(stack, blocks, settings) == Flatten(lines[..i])
      invariant seen == settings.Keys
    {
      assert lines[..i + 1][..i] == lines[..i];
      var line := lines[i];
      if IsIgnored(line) {
      } else if IsBlock(line) {
        stack := stack + [line];
        var p := Join(stack);
        if p !in seen {
          seen := seen + {p};
          blocks := blocks + [p];
          settings := settings[p := map[]];
        }
      } else if IsEnd(line) {
        if |stack| > 0 {
          stack := stack[..|stack| - 1];
        }
      } else {
        var p := Join(stack);
        if p !in settings {
          settings := settings[p := map[]];
          if p !in seen {
            seen := seen + {p};
            blocks := blocks + [p];
          }
        }
        settings := settings[p := settings[p][KeyOf(line) := line]];
      }
    }
    assert lines[..|lines|] == lines;
  }

  // ----- what a comparison reports

  datatype Kind = Added | Removed | Changed

  /** `key` is empty for a whole block. */
  datatype Change = Change(path: string, kind: Kind, key: string, old_: string, new_: string)

  /** parentAdded and parentRemoved: the block's parent is missing too. */
  predicate ParentMissing(p: string, other: Settings) {
    Parent(p).Some? && Parent(p).value !in other
  }

  /** p is the topmost block of a subtree that `other` does not have. */
  predicate TopMissing(p: string, s: Settings, other: Settings) {
    p in s && p !in other && !ParentMissing(p, other)
  }

  predicate KeyReported(c: Change, o: map<string, string>, n: map<string, string>, mask: string -> string) {
    || (c.kind == Removed && c.key in o && c.key !in n && c.old_ == mask(o[c.key]) && c.new_ == "")
    || (c.kind == Added && c.key !in o && c.key in n && c.old_ == "" && c.new_ == mask(n[c.key]))
    || (c.kind == Changed && c.key in o && c.key in n && o[c.key] != n[c.key]
        && c.old_ == mask(o[c.key]) && c.new_ == mask(n[c.key]))
  }

  /** The differences between two flattened configurations. */
  predicate Reported(c: Change, o: Settings, n: Settings, mask: string -> string) {
    || (TopMissing(c.path, n, o) && c == Change(c.path, Added, "", "", ""))
    || (TopMissing(c.path, o, n) && c == Change(c.path, Removed, "", "", ""))
    || (c.path in o && c.path in n && KeyReported(c, o[c.path], n[c.path], mask))
  }

  /** Nothing is reported. */
  ghost predicate Silent(o: Settings, n: Settings, mask: string -> string) {
    forall c :: !Reported(c, o, n, mask)
  }

  /** out lists every difference exactly once and nothing else. */
  ghost predicate IsDiff(out: seq<Change>, o: Settings, n: Settings, mask: string -> string) {
    Distinct(out) && forall c :: c in out <==> Reported(c, o, n, mask)
  }

  /** The topmost ancestor of p, or p itself, that `other` does not have. */
  function Topmost(p: string, other: Settings): string
    decreases |p|
  {
    if ParentMissing(p, other) then Topmost(Parent(p).value, other) else p
  }

  predicate AncestorOrSelf(a: string, p: string)
    decreases |p|
  {
    a == p || (Parent(p).Some? && AncestorOrSelf(a, Parent(p).value))
  }

  /** Every missing block has a reported ancestor or is reported itself. */
  lemma {:induction false} MissingIsReported(p: string, s: Settings, other: Settings)
    requires ParentClosed(s) && p in s && p !in other
    ensures AncestorOrSelf(Topmost(p, other), p) && TopMissing(Topmost(p, other), s, other)
    decreases |p|
  {
    if ParentMissing(p, other) {
      MissingIsReported(Parent(p).value, s, other);
    }
  }

  lemma {:induction false} AncestorsPresent(a: string, p: string, s: Settings)
    requires ParentClosed(s) && p in s && AncestorOrSelf(a, p)
    ensures a in s
    decreases |p|
  {
    if a != p {
      AncestorsPresent(a, Parent(p).value, s);
    }
  }

  /** No missing block has two: the reported one is its topmost missing ancestor. */
  lemma {:induction false} ReportedOnce(a: string, p: string, s: Settings, other: Settings)
    requires ParentClosed(other) && p !in other && AncestorOrSelf(a, p) && TopMissing(a, s, other)
    ensures a == Topmost(p, other)
    decreases |p|
  {
    if a != p {
      var q := Parent(p).value;
      if q in other {
        AncestorsPresent(a, q, other);
        assert false;
      }
      ReportedOnce(a, q, s, other);
    }
  }

  /** Nothing is reported exactly when the flattened configurations are equal. */
  lemma SilentIffEqual(o: Settings, n: Settings, mask: string -> string)
    requires ParentClosed(o) && ParentClosed(n)
    ensures Silent(o, n, mask) <==> o == n
  {
    if Silent(o, n, mask) {
      SameBlocks(o, n, mask);
      forall p | p in o ensures o[p] == n[p] {
        SameSettings(p, o, n, mask);
      }
    }
  }

  lemma AddedIsReported(p: string, o: Settings, n: Settings, mask: string -> string)
    requires ParentClosed(n) && p in n && p !in o
    ensures Reported(Change(Topmost(p, o), Added, "", "", ""), o, n, mask)
  {
    MissingIsReported(p, n, o);
  }

  lemma RemovedIsReported(p: string, o: Settings, n: Settings, mask: string -> string)
    requires ParentClosed(o) && p in o && p !in n
    ensures Reported(Change(Topmost(p, n), Removed, "", "", ""), o, n, mask)
  {
    MissingIsReported(p, o, n);
  }

  lemma SameBlocks(o: Settings, n: Settings, mask: string -> string)
    requires ParentClosed(o) && ParentClosed(n) && Silent(o, n, mask)
    ensures o.Keys == n.Keys
  {
    forall p ensures p in o <==> p in n {
      if p in n && p !in o {
        AddedIsReported(p, o, n, mask);
      }
      if p in o && p !in n {
        RemovedIsReported(p, o, n, mask);
      }
    }
  }

  lemma SameSettings(p: string, o: Settings, n: Settings, mask: string -> string)
    requires p in o && p in n && Silent(o, n, mask)
    ensures o[p] == n[p]
  {
    forall k ensures k in o[p] <==> k in n[p] {
      if k in o[p] && k !in n[p] {
        assert Reported(Change(p, Removed, k, mask(o[p][k]), ""), o, n, mask);
      }
      if k !in o[p] && k in n[p] {
        assert Reported(Change(p, Added, k, "", mask(n[p][k])), o, n, mask);
      }
    }
    forall k | k in o[p] ensures o[p][k] == n[p][k] {
      if o[p][k] != n[p][k] {
        assert Reported(Change(p, Changed, k, mask(o[p][k]), mask(n[p][k])), o, n, mask);
      }
    }
  }

  // ----- without its hypothesis

  /** o is s with some blocks left out. */
  ghost predicate LeavesOut(o: Settings, s: Settings) {
    forall p :: p in o ==> p in s && o[p] == s[p]
  }

  /** s without p and everything below it. */
  function Pruned(s: Settings, p: string): Settings {
    map q | q in s && !AncestorOrSelf(p, q) :: s[q]
  }

  /** A block whose parent is no block can be added with all below it and nothing is reported. */
  lemma OrphanIsHidden(p: string, s: Settings, mask: string -> string)
    requires p in s && Parent(p).Some? && Parent(p).value !in s
    ensures Silent(Pruned(s, p), s, mask)
  {
    var o := Pruned(s, p);
    forall c ensures !Reported(c, o, s, mask) {
      var q := c.path;
      if q in s && q !in o {
        assert AncestorOrSelf(p, q);
        assert ParentMissing(q, o);
      }
    }
  }

  /**
   Diff tells a configuration from all of those with blocks left out if and only if the
   parent of each of its blocks is one of its blocks.
   */
  lemma ToldApartIffClosed(s: Settings, mask: string -> string)
    ensures ParentClosed(s) <==> forall o :: LeavesOut(o, s) && Silent(o, s, mask) ==> o == s
  {
    if ParentClosed(s) {
      forall o | LeavesOut(o, s) && Silent(o, s, mask) ensures o == s {
        forall p | p in s ensures p in o {
          if p !in o {
            AddedIsReported(p, o, s, mask);
          }
        }
      }
    } else {
      var p :| p in s && Parent(p).Some? && Parent(p).value !in s;
      OrphanIsHidden(p, s, mask);
      var o := Pruned(s, p);
      assert LeavesOut(o, s) && Silent(o, s, mask);
      assert AncestorOrSelf(p, p) && p !in o;
      assert o != s;
    }
  }

  // ----- the hidden configuration as lines

  ghost predicate BlockStack(stack: seq<string>) {
    forall i :: 0 <= i < |stack| ==> IsBlock(stack[i])
  }

  lemma {:induction false} FlattenStack(lines: seq<string>)
    ensures BlockStack(Flatten(lines).stack)
  {
    if lines != [] {
      FlattenStack(lines[..|lines| - 1]);
    }
  }

  /** The separator before a line is met when going up from anything below it. */
  lemma {:induction false} JoinIsAncestor(a: string, line: string)
    requires line != "" && line[0] != '>' && line[0] != ' '
    ensures AncestorOrSelf(a, a + SEP + line)
    decreases |line|
  {
    var p := a + SEP + line;
    LastSepFrom(p, |a|);
    LastSepBound(p);
    var k := LastSep(p).value;
    if k == |a| {
      assert p[..k] == a;
    } else {
      CutAfterSep(a, line, k);
      var shorter := line[..k - |a| - 3];
      assert p[..k] == a + SEP + shorter;
      assert shorter[0] == line[0];
      JoinIsAncestor(a, shorter);
    }
  }

  /** The last separator is no earlier than any other. */
  lemma {:induction false} LastSepFrom(p: string, i: nat)
    requires SepAt(p, i)
    ensures LastSep(p).Some? && i <= LastSep(p).value && SepAt(p, LastSep(p).value)
    decreases |p|
  {
    if !SepAt(p, |p| - 3) {
      assert SepAt(p[..|p| - 1], i);
      LastSepFrom(p[..|p| - 1], i);
    }
  }

  /** A separator after the one at |a| leaves at least a character of the line between them. */
  lemma CutAfterSep(a: string, b: string, k: nat)
    requires b != "" && b[0] != '>' && b[0] != ' ' && |a| < k && SepAt(a + SEP + b, k)
    ensures |a| + 3 < k
  {
    var p := a + SEP + b;
    assert p[|a|] == ' ' && p[|a| + 1] == '>' && p[|a| + 2] == ' ' && p[|a| + 3] == b[0];
  }

  lemma {:induction false} AncestorTrans(a: string, b: string, c: string)
    requires AncestorOrSelf(a, b) && AncestorOrSelf(b, c)
    ensures AncestorOrSelf(a, c)
    decreases |c|
  {
    if b != c {
      AncestorTrans(a, b, Parent(c).value);
    }
  }

  /** A block below a pruned one is pruned. */
  lemma PushPruned(p: string, stack: seq<string>, line: string)
    requires IsBlock(line) && stack != [] && AncestorOrSelf(p, Join(stack))
    ensures AncestorOrSelf(p, Join(stack + [line]))
  {
    BlockStart(line);
    assert (stack + [line])[..|stack|] == stack;
    JoinIsAncestor(Join(stack), line);
    AncestorTrans(p, Join(stack), Join(stack + [line]));
  }

  /** Inside the block p or below it. */
  predicate Inside(p: string, stack: seq<string>) { stack != [] && AncestorOrSelf(p, Join(stack)) }

  /** The line is outside the block p, its opening and its end included. */
  predicate Outside(p: string, f: Flat, line: string) {
    if IsIgnored(line) then true
    else if IsBlock(line) then !Inside(p, f.stack + [line])
    else !Inside(p, f.stack)
  }

  /** The lines outside the block p. */
  function Cut(p: string, lines: seq<string>): seq<string> {
    if lines == [] then []
    else
      var init, line := lines[..|lines| - 1], lines[|lines| - 1];
      Cut(p, init) + if Outside(p, Flatten(init), line) then [line] else []
  }

  /** g is f without the block p: its settings pruned, its stack the part outside p. */
  ghost predicate CutFlat(p: string, f: Flat, g: Flat) {
    && BlockStack(f.stack) && g.settings == Pruned(f.settings, p)
    && g.stack <= f.stack && CutAt(p, f.stack, |g.stack|)
  }

  /** The first n lines of the stack are outside p, the others inside. */
  ghost predicate CutAt(p: string, stack: seq<string>, n: nat) {
    forall k :: 0 <= k <= |stack| ==> (Inside(p, stack[..k]) <==> n < k)
  }

  /** Pruning and setting a block: a pruned one leaves no trace, any other is set. */
  lemma PrunedSet(s: Settings, p: string, q: string, v: map<string, string>)
    ensures Pruned(s[q := v], p) == if AncestorOrSelf(p, q) then Pruned(s, p) else Pruned(s, p)[q := v]
  {}

  lemma AddBlockCut(p: string, f: Flat, g: Flat, q: string)
    requires g.settings == Pruned(f.settings, p)
    ensures Pruned(AddBlock(f, q).settings, p) == if AncestorOrSelf(p, q) then g.settings else AddBlock(g, q).settings
  {
    PrunedSet(f.settings, p, q, map[]);
  }

  lemma PushInside(p: string, stack: seq<string>, n: nat, line: string, all: seq<string>)
    requires n <= |stack| && CutAt(p, stack, n) && all == stack + [line] && Inside(p, all)
    ensures CutAt(p, all, n)
  {
    forall k | 0 <= k <= |all| ensures Inside(p, all[..k]) <==> n < k {
      if k <= |stack| {
        assert all[..k] == stack[..k];
      } else {
        assert all[..k] == all;
      }
    }
  }

  lemma PushOutside(p: string, stack: seq<string>, n: nat, line: string, all: seq<string>)
    requires IsBlock(line) && n <= |stack| && CutAt(p, stack, n) && all == stack + [line] && !Inside(p, all)
    ensures n == |stack| && CutAt(p, all, |all|)
  {
    assert stack[..|stack|] == stack;
    if Inside(p, stack) {
      PushPruned(p, stack, line);
    }
    forall k | 0 <= k <= |all| ensures !Inside(p, all[..k]) {
      if k <= |stack| {
        assert all[..k] == stack[..k];
      } else {
        assert all[..k] == all;
      }
    }
  }

  lemma CutPush(p: string, f: Flat, g: Flat, line: string)
    requires CutFlat(p, f, g) && IsBlock(line) && !IsIgnored(line)
    ensures CutFlat(p, Line(f, line), if Outside(p, f, line) then Line(g, line) else g)
  {
    var stack := f.stack + [line];
    AddBlockCut(p, f.(stack := stack), g, Join(stack));
    if Outside(p, f, line) {
      PushOutside(p, f.stack, |g.stack|, line, stack);
      assert g.stack == f.stack;
      AddBlockCut(p, f.(stack := stack), g.(stack := stack), Join(stack));
    } else {
      PushInside(p, f.stack, |g.stack|, line, stack);
    }
  }

  lemma CutPop(p: string, f: Flat, g: Flat, g': Flat)
    requires CutFlat(p, f, g) && f.stack != []
    requires Inside(p, f.stack) ==> g' == g
    requires !Inside(p, f.stack) ==> g.stack != [] && g' == g.(stack := g.stack[..|g.stack| - 1])
    ensures CutFlat(p, f.(stack := f.stack[..|f.stack| - 1]), g')
  {
    var stack := f.stack[..|f.stack| - 1];
    assert f.stack[..|f.stack|] == f.stack;
    forall k | 0 <= k <= |stack| ensures stack[..k] == f.stack[..k] {}
  }

  lemma CutSetting(p: string, f: Flat, g: Flat, line: string)
    requires p != "" && CutFlat(p, f, g) && !IsIgnored(line) && !IsBlock(line) && !IsEnd(line)
    ensures CutFlat(p, Line(f, line), if Outside(p, f, line) then Line(g, line) else g)
  {
    var q := Join(f.stack);
    assert f.stack[..|f.stack|] == f.stack;
    RootIsOutside(p);
    assert Inside(p, f.stack) <==> AncestorOrSelf(p, q);
    var f1 := AddBlock(f, q);
    AddBlockCut(p, f, g, q);
    PrunedSet(f1.settings, p, q, f1.settings[q][KeyOf(line) := line]);
    if Outside(p, f, line) {
      assert g.stack == f.stack;
      assert AddBlock(g, q).settings[q] == f1.settings[q];
    }
  }

  lemma RootIsOutside(p: string)
    requires p != ""
    ensures !AncestorOrSelf(p, "")
  {}

  /** Leaving the lines of a block out leaves the block out. */
  lemma {:induction false} CutPrunes(p: string, lines: seq<string>)
    requires p != ""
    ensures CutFlat(p, Flatten(lines), Flatten(Cut(p, lines)))
    decreases |lines|
  {
    if lines != [] {
      var init, line := lines[..|lines| - 1], lines[|lines| - 1];
      var f, cut := Flatten(init), Cut(p, init);
      CutPrunes(p, init);
      FlattenOneMore(cut, line);
      assert cut + [] == cut;
      if IsIgnored(line) {
      } else if IsBlock(line) {
        CutPush(p, f, Flatten(cut), line);
      } else if IsEnd(line) {
        assert f.stack[..|f.stack|] == f.stack;
        if f.stack != [] {
          CutPop(p, f, Flatten(cut), Flatten(Cut(p, lines)));
        }
      } else {
        CutSetting(p, f, Flatten(cut), line);
      }
    }
  }

  lemma FlattenOneMore(lines: seq<string>, line: string)
    ensures Flatten(lines + [line]) == Line(Flatten(lines), line)
  {
    assert (lines + [line])[..|lines|] == lines;
  }

  /** The lines without an orphaned block are another configuration from which Diff does not tell them. */
  lemma OrphanLines(lines: seq<string>, p: string, mask: string -> string) returns (other: seq<string>)
    requires p in Flatten(lines).settings && Parent(p).Some? && Parent(p).value !in Flatten(lines).settings
    ensures var s, o := Flatten(lines).settings, Flatten(other).settings;
      o == Pruned(s, p) && LeavesOut(o, s) && Silent(o, s, mask) && o != s
  {
    var s := Flatten(lines).settings;
    other := Cut(p, lines);
    CutPrunes(p, lines);
    OrphanIsHidden(p, s, mask);
    assert AncestorOrSelf(p, p) && p !in Pruned(s, p);
  }

  ghost predicate ToldApart(o: Settings, s: Settings, mask: string -> string) {
    LeavesOut(o, s) && Silent(o, s, mask) ==> o == s
  }

  /**
   For the lines of any configuration: Diff tells it from every configuration with blocks
   left out if and only if the parent of each of its blocks is one of its blocks.
   */
  lemma LinesToldApartIffClosed(lines: seq<string>, mask: string -> string)
    ensures var s := Flatten(lines).settings;
      ParentClosed(s) <==> forall other :: ToldApart(Flatten(other).settings, s, mask)
  {
    var s := Flatten(lines).settings;
    if ParentClosed(s) {
      ToldApartIffClosed(s, mask);
      forall other ensures ToldApart(Flatten(other).settings, s, mask) {}
    } else {
      var p :| p in s && Parent(p).Some? && Parent(p).value !in s;
      var other := OrphanLines(lines, p, mask);
      assert !ToldApart(Flatten(other).settings, s, mask);
    }
  }

  /** A block line with the separator in it: the new block goes unreported. */
  lemma SeparatorHidesBlock(mask: string -> string)
    ensures var o, n := Flatten([]).settings, Flatten(["config a > b"]).settings;
      o != n && Silent(o, n, mask)
  {
    var line := "config a > b";
    var n := Flatten([line]).settings;
    assert line[..7] == "config ";
    assert line[0] == 'c' && !IsIgnored(line) && IsBlock(line);
    assert [] + [line] == [line];
    assert Flatten([line]) == Line(Flat([], [], map[]), line);
    assert Join([line]) == line;
    assert n == map[line := map[]];
    assert line == "config a" + SEP + "b";
    assert NoSep("b");
    ParentOfPair("config a", "b");
    OrphanIsHidden(line, n, mask);
    assert AncestorOrSelf(line, line);
    assert Pruned(n, line) == map[];
  }

  // ----- the comparison the other way round

  function Reverse(c: Change): Change {
    Change(c.path, match c.kind case Added => Removed case Removed => Added case Changed => Changed, c.key, c.new_, c.old_)
  }

  function ReverseAll(s: seq<Change>): seq<Change> {
    seq(|s|, i requires 0 <= i < |s| => Reverse(s[i]))
  }

  lemma {:induction false} DistinctCount(s: seq<Change>, c: Change)
    requires Distinct(s)
    ensures multiset(s)[c] == if c in s then 1 else 0
  {
    if s != [] {
      var init := s[..|s| - 1];
      DistinctCount(init, c);
      assert s == init + [s[|s| - 1]];
    }
  }

  /** Diff(b, a) is Diff(a, b) with added and removed, old and new exchanged. */
  lemma DiffReversed(ab: seq<Change>, ba: seq<Change>, o: Settings, n: Settings, mask: string -> string)
    requires IsDiff(ab, o, n, mask) && IsDiff(ba, n, o, mask)
    ensures multiset(ba) == multiset(ReverseAll(ab))
  {
    var rev := ReverseAll(ab);
    forall i, j | 0 <= i < j < |rev| ensures rev[i] != rev[j] {
      assert Reverse(rev[i]) == ab[i] && Reverse(rev[j]) == ab[j];
    }
    forall c ensures multiset(ba)[c] == multiset(rev)[c] {
      ReversedMember(ab, c);
      assert c in ba <==> Reported(c, n, o, mask);
      assert Reverse(c) in ab <==> Reported(Reverse(c), o, n, mask);
      DistinctCount(ba, c);
      DistinctCount(rev, c);
    }
  }

  lemma ReversedMember(s: seq<Change>, c: Change)
    ensures c in ReverseAll(s) <==> Reverse(c) in s
  {
    assert Reverse(Reverse(c)) == c;
    if c in ReverseAll(s) {
      var i :| 0 <= i < |s| && ReverseAll(s)[i] == c;
      assert s[i] == Reverse(c);
    }
    if Reverse(c) in s {
      var i :| 0 <= i < |s| && s[i] == Reverse(c);
      assert ReverseAll(s)[i] == c;
    }
  }

  // ----- sorted keys

  predicate Less(a: string, b: string) {
    b != "" && (a == "" || a[0] < b[0] || (a[0] == b[0] && Less(a[1..], b[1..])))
  }

  /** Where two strings first differ the smaller has the smaller character, or has ended. */
  ghost predicate FirstDiffers(a: string, b: string, k: nat) {
    k <= |a| && k < |b| && a[..k] == b[..k] && (k == |a| || a[k] < b[k])
  }

  lemma {:induction false} LessIff(a: string, b: string)
    ensures Less(a, b) <==> exists k: nat :: FirstDiffers(a, b, k)
  {
    if b != "" {
      if a == "" || a[0] != b[0] {
        assert a[..0] == b[..0];
        assert Less(a, b) ==> FirstDiffers(a, b, 0);
        assert forall k: nat :: 0 < k <= |a| && k <= |b| ==> a[..k][0] == a[0] && b[..k][0] == b[0];
      } else {
        LessIff(a[1..], b[1..]);
        if k: nat :| FirstDiffers(a[1..], b[1..], k) {
          assert a[..k + 1] == [a[0]] + a[1..][..k] && b[..k + 1] == [b[0]] + b[1..][..k];
          assert FirstDiffers(a, b, k + 1);
        }
        if k: nat :| FirstDiffers(a, b, k) {
          assert k > 0 && a[1..][..k - 1] == a[..k][1..] && b[1..][..k - 1] == b[..k][1..];
          assert FirstDiffers(a[1..], b[1..], k - 1);
        }
      }
    }
  }

  lemma {:induction false} LessTotal(a: string, b: string)
    ensures a == b || Less(a, b) || Less(b, a)
  {
    if a != "" && b != "" && a[0] == b[0] {
      LessTotal(a[1..], b[1..]);
      assert a[1..] == b[1..] ==> a == [a[0]] + a[1..] == b;
    }
  }

  lemma {:induction false} LessTrans(a: string, b: string, c: string)
    requires Less(a, b) && Less(b, c)
    ensures Less(a, c)
  {
    if a != "" && a[0] == b[0] == c[0] {
      LessTrans(a[1..], b[1..], c[1..]);
    }
  }

  ghost predicate IsLeast(keys: set<string>, k: string) {
    k in keys && forall x :: x in keys ==> x == k || Less(k, x)
  }

  lemma LeastOfMore(rest: set<string>, k: string, some: string) returns (least: string)
    requires IsLeast(rest, k)
    ensures IsLeast(rest + {some}, least)
  {
    LessTotal(some, k);
    if Less(some, k) {
      least := some;
      forall x | x in rest && x != some ensures Less(some, x) {
        if x != k { LessTrans(some, k, x); }
      }
    } else {
      least := k;
    }
  }

  lemma {:induction false} LeastExists(keys: set<string>)
    requires keys != {}
    ensures exists k :: IsLeast(keys, k)
  {
    var some :| some in keys;
    var rest := keys - {some};
    assert keys == rest + {some};
    if rest == {} {
      assert IsLeast(keys, some);
    } else {
      LeastExists(rest);
      var k :| IsLeast(rest, k);
      var least := LeastOfMore(rest, k, some);
      assert IsLeast(keys, least);
    }
  }

  method SortedKeys(keys: set<string>) returns (sorted: seq<string>)
    ensures Distinct(sorted) && forall k :: k in sorted <==> k in keys
    ensures forall i, j :: 0 <= i < j < |sorted| ==> Less(sorted[i], sorted[j])
  {
    sorted := [];
    var rest := keys;
    while rest != {}
      invariant forall k :: k in sorted <==> k in keys && k !in rest
      invariant rest <= keys && Distinct(sorted)
      invariant forall i, j :: 0 <= i < j < |sorted| ==> Less(sorted[i], sorted[j])
      invariant forall i, x :: 0 <= i < |sorted| && x in rest ==> Less(sorted[i], x)
      decreases rest
    {
      LeastExists(rest);
      ghost var least :| IsLeast(rest, least);
      assert least in rest;
      var k :| k in rest && forall x :: x in rest ==> x == k || Less(k, x);
      assert k !in sorted;
      sorted := sorted + [k];
      rest := rest - {k};
    }
  }

  // ----- Diff

  /** What is reported about one setting. */
  method DiffKey(p: string, k: string, o: map<string, string>, n: map<string, string>, mask: string -> string) returns (out: seq<Change>)
    requires k in o || k in n
    ensures |out| <= 1 && forall c: Change :: c in out <==> c.path == p && c.key == k && KeyReported(c, o, n, mask)
  {
    if k in o && k !in n {
      return [Change(p, Removed, k, mask(o[k]), "")];
    } else if k !in o && k in n {
      return [Change(p, Added, k, "", mask(n[k]))];
    } else if o[k] != n[k] {
      return [Change(p, Changed, k, mask(o[k]), mask(n[k]))];
    }
    return [];
  }

  /** out is what is reported about the settings named in `names`. */
  ghost predicate KeysDone(out: seq<Change>, p: string, o: map<string, string>, n: map<string, string>,
                           mask: string -> string, names: seq<string>) {
    && Distinct(out) && SortedByKey(out)
    && forall c: Change :: c in out <==> c.path == p && c.key in names && KeyReported(c, o, n, mask)
  }

  lemma NextKey(out: seq<Change>, one: seq<Change>, p: string, o: map<string, string>, n: map<string, string>, mask: string -> string,
                sorted: seq<string>, i: nat)
    requires i < |sorted| && KeysDone(out, p, o, n, mask, sorted[..i]) && |one| <= 1
    requires forall a, b :: 0 <= a < b < |sorted| ==> Less(sorted[a], sorted[b])
    requires Distinct(sorted)
    requires forall c: Change :: c in one <==> c.path == p && c.key == sorted[i] && KeyReported(c, o, n, mask)
    ensures KeysDone(out + one, p, o, n, mask, sorted[..i + 1])
  {
    assert sorted[..i + 1] == sorted[..i] + [sorted[i]] && sorted[i] !in sorted[..i];
    AllBefore(out, sorted, i);
    if one != [] {
      assert one[0] in one;
      assert out + one == out + [one[0]];
    }
  }

  /** The settings of one block that differ, sorted by name. */
  method DiffBlock(p: string, o: map<string, string>, n: map<string, string>, mask: string -> string) returns (out: seq<Change>)
    ensures Distinct(out) && SortedByKey(out)
    ensures forall c: Change :: c in out <==> c.path == p && KeyReported(c, o, n, mask)
  {
    var sorted := SortedKeys(o.Keys + n.Keys);
    out := [];
    for i := 0 to |sorted|
      invariant KeysDone(out, p, o, n, mask, sorted[..i])
    {
      assert sorted[i] in sorted && sorted[i] in o.Keys + n.Keys;
      var one := DiffKey(p, sorted[i], o, n, mask);
      NextKey(out, one, p, o, n, mask, sorted, i);
      out := out + one;
    }
    assert sorted[..|sorted|] == sorted;
    ReportedKeys(o, n, mask);
    forall c: Change | KeyReported(c, o, n, mask) ensures c.key in sorted {
      assert c.key in o.Keys + n.Keys;
    }
  }

  lemma ReportedKeys(o: map<string, string>, n: map<string, string>, mask: string -> string)
    ensures forall c: Change :: KeyReported(c, o, n, mask) ==> c.key in o.Keys + n.Keys
  {}

  lemma AllBefore(out: seq<Change>, sorted: seq<string>, i: nat)
    requires i < |sorted| && forall c :: c in out ==> c.key in sorted[..i]
    requires forall a, b :: 0 <= a < b < |sorted| ==> Less(sorted[a], sorted[b])
    ensures forall j :: 0 <= j < |out| ==> Less(out[j].key, sorted[i])
  {
    forall j | 0 <= j < |out| ensures Less(out[j].key, sorted[i]) {
      assert out[j] in out;
      var a :| 0 <= a < i && sorted[..i][a] == out[j].key;
      assert sorted[a] == out[j].key;
    }
  }

  ghost predicate SortedByKey(out: seq<Change>) {
    forall i, j :: 0 <= i < j < |out| ==> Less(out[i].key, out[j].key)
  }

  /** The blocks that s does not have. */
  function Missing(blocks: seq<string>, s: Settings): seq<string> {
    if blocks == [] then []
    else
      var last := blocks[|blocks| - 1];
      Missing(blocks[..|blocks| - 1], s) + if last in s then [] else [last]
  }

  /** They come in their order. */
  lemma {:induction false} MissingInOrder(blocks: seq<string>, s: Settings, i: nat, j: nat)
    requires i < j < |Missing(blocks, s)|
    ensures Earlier(blocks, Missing(blocks, s)[i], Missing(blocks, s)[j])
  {
    var init, last := blocks[..|blocks| - 1], blocks[|blocks| - 1];
    if j < |Missing(init, s)| {
      MissingInOrder(init, s, i, j);
      var a, b :| 0 <= a < b < |init| && init[a] == Missing(init, s)[i] && init[b] == Missing(init, s)[j];
      assert blocks[a] == init[a] && blocks[b] == init[b];
    } else {
      MissingAreBlocks(init, s, Missing(init, s)[i]);
      var a :| 0 <= a < |init| && init[a] == Missing(init, s)[i];
      assert blocks[a] == init[a];
    }
  }

  lemma {:induction false} MissingAreBlocks(blocks: seq<string>, s: Settings, p: string)
    ensures p in Missing(blocks, s) <==> p in blocks && p !in s
  {
    if blocks != [] {
      MissingAreBlocks(blocks[..|blocks| - 1], s, p);
      assert blocks == blocks[..|blocks| - 1] + [blocks[|blocks| - 1]];
    }
  }

  /** The order of the comparison: the new configuration's blocks, then the old one's missing ones. */
  function Order(o: Flat, n: Flat): seq<string> { n.blocks + Missing(o.blocks, n.settings) }

  ghost predicate Earlier(order: seq<string>, p: string, q: string) {
    exists a, b :: 0 <= a < b < |order| && order[a] == p && order[b] == q
  }

  /** Differences come block by block, those of one block sorted by name. */
  ghost predicate InOrder(out: seq<Change>, order: seq<string>) {
    forall i, j :: 0 <= i < j < |out| ==>
      Earlier(order, out[i].path, out[j].path) || (out[i].path == out[j].path && Less(out[i].key, out[j].key))
  }

  method BlockOrder(oldBlocks: seq<string>, newBlocks: seq<string>, newS: Settings) returns (order: seq<string>)
    requires Distinct(oldBlocks) && Distinct(newBlocks) && forall p :: p in newBlocks <==> p in newS
    ensures order == newBlocks + Missing(oldBlocks, newS) && Distinct(order)
    ensures forall p :: p in order <==> p in newBlocks || p in oldBlocks
  {
    order := newBlocks;
    for i := 0 to |oldBlocks|
      invariant order == newBlocks + Missing(oldBlocks[..i], newS)
    {
      assert oldBlocks[..i + 1][..i] == oldBlocks[..i];
      if oldBlocks[i] !in newS {
        order := order + [oldBlocks[i]];
      }
    }
    assert oldBlocks[..|oldBlocks|] == oldBlocks;
    MissingOnes(oldBlocks, newS);
    DisjointConcat(newBlocks, Missing(oldBlocks, newS));
  }

  lemma {:induction false} MissingOnes(blocks: seq<string>, s: Settings)
    requires Distinct(blocks)
    ensures Distinct(Missing(blocks, s)) && forall p :: p in Missing(blocks, s) <==> p in blocks && p !in s
  {
    if blocks != [] {
      var init, last := blocks[..|blocks| - 1], blocks[|blocks| - 1];
      MissingOnes(init, s);
      assert blocks == init + [last] && last !in init;
    }
  }

  lemma DisjointConcat(a: seq<string>, b: seq<string>)
    requires Distinct(a) && Distinct(b) && forall x :: x in a ==> x !in b
    ensures Distinct(a + b)
  {
    forall i, j | 0 <= i < j < |a + b| ensures (a + b)[i] != (a + b)[j] {
      if i < |a| <= j {
        assert a[i] in a && b[j - |a|] in b;
      }
    }
  }

  /** What is reported about one block. */
  method DiffPath(p: string, oldS: Settings, newS: Settings, mask: string -> string) returns (out: seq<Change>)
    requires p in oldS || p in newS
    ensures Distinct(out) && SortedByKey(out) && forall c :: c in out <==> c.path == p && Reported(c, oldS, newS, mask)
  {
    out := [];
    if p !in oldS {
      if !ParentMissing(p, oldS) {
        out := [Change(p, Added, "", "", "")];
      }
    } else if p !in newS {
      if !ParentMissing(p, newS) {
        out := [Change(p, Removed, "", "", "")];
      }
    } else {
      out := DiffBlock(p, oldS[p], newS[p], mask);
    }
  }

  /** The differences of the next block come after those of all blocks before it. */
  lemma NextBlock(out: seq<Change>, more: seq<Change>, order: seq<string>, i: nat)
    requires i < |order| && InOrder(out, order) && SortedByKey(more)
    requires forall c :: c in out ==> c.path in order[..i]
    requires forall c :: c in more ==> c.path == order[i]
    ensures InOrder(out + more, order)
  {
    var all := out + more;
    forall j, k | 0 <= j < k < |all|
      ensures Earlier(order, all[j].path, all[k].path) || (all[j].path == all[k].path && Less(all[j].key, all[k].key))
    {
      if k < |out| {
        assert all[j] == out[j] && all[k] == out[k];
      } else {
        assert all[k] in more;
        if j < |out| {
          assert all[j] in out;
          var a :| 0 <= a < i && order[..i][a] == all[j].path;
          assert order[a] == all[j].path && order[i] == all[k].path;
        } else {
          assert all[j] in more;
          assert Less(more[j - |out|].key, more[k - |out|].key);
        }
      }
    }
  }

  /** Compares two configurations block by block. */
  method Diff(oldLines: seq<string>, newLines: seq<string>, mask: string -> string) returns (out: seq<Change>)
    ensures IsDiff(out, Flatten(oldLines).settings, Flatten(newLines).settings, mask)
    ensures InOrder(out, Order(Flatten(oldLines), Flatten(newLines)))
    ensures CleanLines(oldLines) && CleanLines(newLines) ==>
      (out == [] <==> Flatten(oldLines).settings == Flatten(newLines).settings)
  {
    var oldS, oldBlocks := FlattenLines(oldLines);
    var newS, newBlocks := FlattenLines(newLines);
    FlattenBlocks(oldLines);
    FlattenBlocks(newLines);
    var order := BlockOrder(oldBlocks, newBlocks, newS);
    out := DiffAll(order, oldS, newS, mask);
    if CleanLines(oldLines) && CleanLines(newLines) {
      FlattenOk(oldLines);
      FlattenOk(newLines);
      EmptyIffEqual(out, oldS, newS, mask);
    }
  }

  method DiffAll(order: seq<string>, oldS: Settings, newS: Settings, mask: string -> string) returns (out: seq<Change>)
    requires Distinct(order) && forall p :: p in order <==> p in oldS || p in newS
    ensures IsDiff(out, oldS, newS, mask) && InOrder(out, order)
  {
    out := [];
    for i := 0 to |order|
      invariant Distinct(out) && InOrder(out, order)
      invariant forall c :: c in out <==> c.path in order[..i] && Reported(c, oldS, newS, mask)
    {
      assert order[..i + 1] == order[..i] + [order[i]] && order[i] !in order[..i];
      assert order[i] in order;
      var more := DiffPath(order[i], oldS, newS, mask);
      NextBlock(out, more, order, i);
      out := out + more;
    }
    assert order[..|order|] == order;
  }

  lemma EmptyIffEqual(out: seq<Change>, o: Settings, n: Settings, mask: string -> string)
    requires IsDiff(out, o, n, mask) && ParentClosed(o) && ParentClosed(n)
    ensures out == [] <==> o == n
  {
    SilentIffEqual(o, n, mask);
    EmptyIffSilent(out, o, n, mask);
  }

  lemma EmptyIffSilent(out: seq<Change>, o: Settings, n: Settings, mask: string -> string)
    requires IsDiff(out, o, n, mask)
    ensures out == [] <==> Silent(o, n, mask)
  {
    forall c ensures c in out <==> Reported(c, o, n, mask) {}
    assert out != [] ==> out[0] in out;
  }
}
