/**
 What the lines of a configuration mean (internal/backup/configtext.go): under which name a
 setting is stored, what nested blocks contribute, and which single change a comparison
 reports for a single edit.
 */
module ConfigMeaning {
  import opened Common
  import opened ConfigText

  // ----- the name of a setting

  predicate Blank(s: string) { forall i :: 0 <= i < |s| ==> Space(s[i]) }

  predicate IsWord(s: string) { s != "" && forall i :: 0 <= i < |s| ==> !Space(s[i]) }

  /** Where a word may end. */
  predicate BlankFirst(s: string) { s == "" || Space(s[0]) }

  /** The line is `set name rest` or `unset name rest`, with any white space between and before. */
  ghost predicate Named(line: string, lead: string, verb: string, gap: string, name: string, rest: string) {
    && line == lead + (verb + (gap + (name + rest)))
    && Blank(lead) && (verb == "set" || verb == "unset") && gap != "" && Blank(gap) && IsWord(name) && BlankFirst(rest)
  }

  ghost predicate NamedBy(line: string, name: string) {
    exists lead, verb, gap, rest :: Named(line, lead, verb, gap, name, rest)
  }

  /** A setting goes by the name that follows set or unset, any other line by itself. */
  ghost predicate GoesBy(line: string, key: string) {
    NamedBy(line, key) || (key == line && forall name :: !NamedBy(line, name))
  }

  lemma {:induction false} SkipBlank(lead: string, rest: string)
    requires Blank(lead)
    ensures SkipSpace(lead + rest) == SkipSpace(rest)
    decreases |lead|
  {
    if lead == "" {
      assert lead + rest == rest;
    } else {
      assert (lead + rest)[1..] == lead[1..] + rest;
      SkipBlank(lead[1..], rest);
    }
  }

  lemma {:induction false} WordOf(word: string, rest: string)
    requires (forall i :: 0 <= i < |word| ==> !Space(word[i])) && BlankFirst(rest)
    ensures Word(word + rest) == word && AfterWord(word + rest) == rest
    decreases |word|
  {
    if word == "" {
      assert word + rest == rest;
    } else {
      assert (word + rest)[1..] == word[1..] + rest;
      WordOf(word[1..], rest);
    }
  }

  lemma {:induction false} SplitSkip(s: string) returns (lead: string)
    ensures s == lead + SkipSpace(s) && Blank(lead) && (SkipSpace(s) == "" || !Space(SkipSpace(s)[0]))
    decreases |s|
  {
    if s != "" && Space(s[0]) {
      lead := SplitSkip(s[1..]);
      lead := [s[0]] + lead;
      assert s == [s[0]] + s[1..];
    } else {
      lead := "";
    }
  }

  lemma {:induction false} SplitWord(s: string)
    ensures s == Word(s) + AfterWord(s) && BlankFirst(AfterWord(s))
    ensures forall i :: 0 <= i < |Word(s)| ==> !Space(Word(s)[i])
    decreases |s|
  {
    if s != "" && !Space(s[0]) {
      var rest := s[1..];
      SplitWord(rest);
      assert s == [s[0]] + rest && Word(s) == [s[0]] + Word(rest) && AfterWord(s) == AfterWord(rest);
    }
  }

  lemma NamedKey(line: string, lead: string, verb: string, gap: string, name: string, rest: string)
    requires Named(line, lead, verb, gap, name, rest)
    ensures KeyOf(line) == name
  {
    SkipBlank(lead, verb + (gap + (name + rest)));
    WordOf(verb, gap + (name + rest));
    SkipBlank(gap, name + rest);
    WordOf(name, rest);
  }

  /** A line that KeyOf does not store under itself has the form it looks for. */
  lemma KeyNames(line: string)
    ensures KeyOf(line) == line || NamedBy(line, KeyOf(line))
  {
    var start := SkipSpace(line);
    var lead := SplitSkip(line);
    SplitWord(start);
    var after := AfterWord(start);
    var gap := SplitSkip(after);
    SplitWord(SkipSpace(after));
    if KeyOf(line) != line {
      var name := KeyOf(line);
      assert gap != "";
      assert Named(line, lead, Word(start), gap, name, AfterWord(SkipSpace(after)));
    }
  }

  /** Every line goes by exactly one key. */
  lemma KeyIff(line: string, key: string)
    ensures GoesBy(line, key) <==> KeyOf(line) == key
  {
    KeyNames(line);
    forall name | NamedBy(line, name) ensures KeyOf(line) == name {
      var lead, verb, gap, rest :| Named(line, lead, verb, gap, name, rest);
      NamedKey(line, lead, verb, gap, name, rest);
    }
  }

  // ----- one more line

  /** The line opens a block. */
  ghost predicate Opens(line: string) { exists name :: line == "config " + name || line == "edit " + name }

  /** The line closes one. */
  predicate Closes(line: string) { line in {"end", "next"} }

  predicate Comment(line: string) { line == "" || line[0] == '#' }

  /** Every other line is a setting. */
  ghost predicate IsSetting(line: string) { !Opens(line) && !Closes(line) && !Comment(line) }

  /** The four kinds of lines, of which every line is exactly one. */
  lemma LineKinds(line: string)
    ensures (Opens(line) <==> IsBlock(line)) && (Closes(line) <==> IsEnd(line)) && (Comment(line) <==> IsIgnored(line))
    ensures Opens(line) ==> !Closes(line) && !Comment(line)
    ensures Closes(line) ==> !Comment(line)
  {
    if IsBlock(line) {
      if "config " <= line {
        assert line == "config " + line[7..];
      } else {
        assert line == "edit " + line[5..];
      }
      BlockStart(line);
      EndIsNoBlock(line);
    }
    if Closes(line) {
      assert line[0] == 'e' || line[0] == 'n';
    }
  }

  lemma EndIsNoBlock(line: string)
    requires IsBlock(line)
    ensures !IsEnd(line)
  {
    assert |line| >= 5;
  }

  /** Comments and blank lines mean nothing, nor does a closing line when no block is open. */
  lemma NothingMeant(lines: seq<string>, line: string)
    requires Comment(line) || (Closes(line) && Flatten(lines).stack == [])
    ensures Flatten(lines + [line]) == Flatten(lines)
  {
    LineKinds(line);
    FlattenOneMore(lines, line);
  }

  /** Blocks are listed in the order in which they first appear. */
  lemma {:induction false} BlocksInOrder(lines: seq<string>, more: seq<string>)
    ensures Flatten(lines).blocks <= Flatten(lines + more).blocks
    decreases |more|
  {
    if more == [] {
      assert lines + more == lines;
    } else {
      var init := more[..|more| - 1];
      BlocksInOrder(lines, init);
      FlattenOneMore(lines + init, more[|more| - 1]);
      assert lines + more == lines + init + [more[|more| - 1]];
    }
  }

  /** The path of the block that the lines leave open. */
  function OpenPath(lines: seq<string>): string { Join(Flatten(lines).stack) }

  /** The settings with one more in the block p, which is there afterwards if it was not. */
  function Put(s: Settings, p: string, key: string, line: string): Settings {
    s[p := (if p in s then s[p] else map[])[key := line]]
  }

  /**
   A setting line is stored in the open block under the key it goes by, in place of any earlier
   one with that key; nothing else changes.
   */
  lemma SettingIsStored(lines: seq<string>, line: string, key: string)
    requires IsSetting(line) && GoesBy(line, key)
    ensures Flatten(lines + [line]).stack == Flatten(lines).stack
    ensures Flatten(lines + [line]).settings == Put(Flatten(lines).settings, OpenPath(lines), key, line)
  {
    KeyIff(line, key);
    LineKinds(line);
    FlattenOneMore(lines, line);
  }

  // ----- nested blocks

  /** A configuration as it is meant: settings, and blocks of the same with their opening and closing lines. */
  datatype Item = Setting(key: string, line: string) | Block(open: string, items: seq<Item>, close: string)

  ghost predicate Formed(items: seq<Item>)
    decreases items
  {
    items == [] || (FormedOne(items[0]) && Formed(items[1..]))
  }

  ghost predicate FormedOne(item: Item)
    decreases item
  {
    match item
    case Setting(key, line) => IsSetting(line) && GoesBy(line, key)
    case Block(open, items, close) => Opens(open) && Closes(close) && Formed(items)
  }

  function Render(items: seq<Item>): seq<string>
    decreases items
  {
    if items == [] then [] else RenderOne(items[0]) + Render(items[1..])
  }

  function RenderOne(item: Item): seq<string>
    decreases item
  {
    match item
    case Setting(_, line) => [line]
    case Block(open, items, close) => [open] + Render(items) + [close]
  }

  /** What the items inside the blocks `path` add to the settings s. */
  function Meaning(path: seq<string>, items: seq<Item>, s: Settings): Settings
    decreases items
  {
    if items == [] then s else Meaning(path, items[1..], MeaningOne(path, items[0], s))
  }

  function MeaningOne(path: seq<string>, item: Item, s: Settings): Settings
    decreases item
  {
    match item
    case Setting(key, line) => Put(s, Join(path), key, line)
    case Block(open, items, _) =>
      var p := Join(path + [open]);
      Meaning(path + [open], items, if p in s then s else s[p := map[]])
  }

  lemma OpensBlock(lines: seq<string>, open: string)
    requires Opens(open)
    ensures var f, g := Flatten(lines), Flatten(lines + [open]);
      var p := Join(f.stack + [open]);
      g.stack == f.stack + [open] && g.settings == if p in f.settings then f.settings else f.settings[p := map[]]
  {
    LineKinds(open);
    FlattenOneMore(lines, open);
  }

  lemma ClosesBlock(lines: seq<string>, close: string)
    requires Closes(close) && Flatten(lines).stack != []
    ensures var f, g := Flatten(lines), Flatten(lines + [close]);
      g.stack == f.stack[..|f.stack| - 1] && g.settings == f.settings
  {
    LineKinds(close);
    FlattenOneMore(lines, close);
  }

  /** Flattening what is rendered gives its meaning, and leaves the blocks that were open before open. */
  lemma {:induction false} FlattenRenders(lines: seq<string>, items: seq<Item>)
    requires Formed(items)
    ensures Flatten(lines + Render(items)).stack == Flatten(lines).stack
    ensures Flatten(lines + Render(items)).settings == Meaning(Flatten(lines).stack, items, Flatten(lines).settings)
    decreases items
  {
    if items == [] {
      assert lines + Render(items) == lines;
    } else {
      FlattenRendersOne(lines, items[0]);
      FlattenRenders(lines + RenderOne(items[0]), items[1..]);
      assert lines + Render(items) == lines + RenderOne(items[0]) + Render(items[1..]);
    }
  }

  lemma {:induction false} FlattenRendersOne(lines: seq<string>, item: Item)
    requires FormedOne(item)
    ensures Flatten(lines + RenderOne(item)).stack == Flatten(lines).stack
    ensures Flatten(lines + RenderOne(item)).settings == MeaningOne(Flatten(lines).stack, item, Flatten(lines).settings)
    decreases item
  {
    match item {
      case Setting(key, line) =>
        SettingIsStored(lines, line, key);
      case Block(open, items, close) =>
        FlattenRenders(lines + [open], items);
        AroundBlock(lines, open, items, close);
        assert lines + RenderOne(item) == lines + [open] + Render(items) + [close];
    }
  }

  /** What is inside a block is stored below it, and its closing line leads back out. */
  lemma AroundBlock(lines: seq<string>, open: string, items: seq<Item>, close: string)
    requires Opens(open) && Closes(close)
    requires Flatten(lines + [open] + Render(items)).stack == Flatten(lines + [open]).stack
    requires var f := Flatten(lines + [open]); Flatten(lines + [open] + Render(items)).settings == Meaning(f.stack, items, f.settings)
    ensures var f, g := Flatten(lines), Flatten(lines + [open] + Render(items) + [close]);
      g.stack == f.stack && g.settings == MeaningOne(f.stack, Block(open, items, close), f.settings)
  {
    OpensBlock(lines, open);
    ClosesBlock(lines + [open] + Render(items), close);
  }

  // ----- one edit, one change

  /** No line of `post`, read after `pre`, sets the key in the block p again. */
  ghost predicate NotSetAgain(pre: seq<string>, post: seq<string>, p: string, key: string) {
    forall i :: 0 <= i < |post| && IsSetting(post[i]) && GoesBy(post[i], key) ==> OpenPath(pre + post[..i]) != p
  }

  /** g is f but for the key of the block p, which is `line` in g. */
  ghost predicate But(f: Flat, g: Flat, p: string, key: string, line: string) {
    g.stack == f.stack && p in f.settings && g.settings == Put(f.settings, p, key, line)
  }

  lemma PutBlock(s: Settings, p: string, key: string, line: string, q: string)
    requires p in s && q !in s
    ensures Put(s[q := map[]], p, key, line) == Put(s, p, key, line)[q := map[]]
  {}

  lemma PutPut(s: Settings, p: string, key: string, line: string, q: string, k: string, l: string)
    requires p in s && (q != p || k != key)
    ensures Put(Put(s, p, key, line), q, k, l) == Put(Put(s, q, k, l), p, key, line)
  {
    var a, b := Put(Put(s, p, key, line), q, k, l), Put(Put(s, q, k, l), p, key, line);
    forall x | x in a ensures a[x] == b[x] {
      if x == p && q == p {
        assert s[p][key := line][k := l] == s[p][k := l][key := line];
      }
    }
    assert a.Keys == b.Keys;
  }

  lemma SettingPuts(f: Flat, line: string)
    requires IsSetting(line)
    ensures Line(f, line).stack == f.stack && Line(f, line).settings == Put(f.settings, Join(f.stack), KeyOf(line), line)
  {
    LineKinds(line);
  }

  lemma ButNext(f: Flat, g: Flat, p: string, key: string, line: string, next: string)
    requires But(f, g, p, key, line)
    requires IsSetting(next) && KeyOf(next) == key ==> Join(f.stack) != p
    ensures But(Line(f, next), Line(g, next), p, key, line)
  {
    LineKinds(next);
    if IsSetting(next) {
      SettingPuts(f, next);
      SettingPuts(g, next);
      PutPut(f.settings, p, key, line, Join(f.stack), KeyOf(next), next);
    } else if !IsIgnored(next) && IsBlock(next) {
      var q := Join(f.stack + [next]);
      if q !in f.settings {
        PutBlock(f.settings, p, key, line, q);
      }
    }
  }

  /** Two configurations that differ in one setting keep differing in that one only. */
  lemma {:induction false} ButOne(a: seq<string>, b: seq<string>, post: seq<string>, p: string, key: string, line: string)
    requires But(Flatten(a), Flatten(b), p, key, line) && NotSetAgain(a, post, p, key)
    ensures But(Flatten(a + post), Flatten(b + post), p, key, line)
    ensures p in Flatten(a).settings && p in Flatten(a + post).settings
    ensures (key in Flatten(a).settings[p] <==> key in Flatten(a + post).settings[p])
    ensures key in Flatten(a).settings[p] ==> Flatten(a + post).settings[p][key] == Flatten(a).settings[p][key]
    decreases |post|
  {
    if post == [] {
      assert a + post == a && b + post == b;
    } else {
      var init, next := post[..|post| - 1], post[|post| - 1];
      assert forall i :: 0 <= i < |init| ==> init[..i] == post[..i];
      ButOne(a, b, init, p, key, line);
      FlattenOneMore(a + init, next);
      FlattenOneMore(b + init, next);
      assert a + post == a + init + [next] && b + post == b + init + [next];
      KeyIff(next, key);
      assert IsSetting(next) && GoesBy(next, key) ==> OpenPath(a + init) != p;
      ButNext(Flatten(a + init), Flatten(b + init), p, key, line, next);
      KeptEntry(Flatten(a + init), next, p, key);
    }
  }

  lemma KeptEntry(f: Flat, next: string, p: string, key: string)
    requires p in f.settings && (IsSetting(next) && KeyOf(next) == key ==> Join(f.stack) != p)
    ensures p in Line(f, next).settings && (key in Line(f, next).settings[p] <==> key in f.settings[p])
    ensures key in f.settings[p] ==> Line(f, next).settings[p][key] == f.settings[p][key]
  {
    LineKinds(next);
  }

  /** A list of differences of which only one is possible. */
  lemma OnlyOne(out: seq<Change>, o: Settings, n: Settings, mask: string -> string, c: Change)
    requires IsDiff(out, o, n, mask) && forall x :: Reported(x, o, n, mask) <==> x == c
    ensures out == [c]
  {
    assert |out| > 1 ==> out[0] != out[1];
    assert c in out;
    forall i | 0 <= i < |out| ensures out[i] == c {
      assert out[i] in out;
    }
  }

  lemma ReportsPut(s: Settings, p: string, key: string, line: string, mask: string -> string, c: Change)
    requires p in s && (key in s[p] ==> s[p][key] != line)
    ensures Reported(c, s, Put(s, p, key, line), mask) <==> c == SetChange(s, p, key, line, mask)
  {}

  lemma TwinConfigs(pre: seq<string>, x: string, y: string, post: seq<string>, key: string)
    requires IsSetting(x) && IsSetting(y) && GoesBy(x, key) && GoesBy(y, key)
    requires NotSetAgain(pre + [x], post, OpenPath(pre), key)
    ensures var p, o := OpenPath(pre), Flatten(pre + [x] + post).settings;
      p in o && key in o[p] && o[p][key] == x && Flatten(pre + [y] + post).settings == Put(o, p, key, y)
  {
    var p := OpenPath(pre);
    SettingIsStored(pre, x, key);
    SettingIsStored(pre, y, key);
    PutAgain(Flatten(pre).settings, p, key, x, y);
    ButOne(pre + [x], pre + [y], post, p, key, y);
  }

  lemma PutAgain(s: Settings, p: string, key: string, x: string, y: string)
    ensures Put(Put(s, p, key, x), p, key, y) == Put(s, p, key, y)
  {
    var m := if p in s then s[p] else map[];
    assert m[key := x][key := y] == m[key := y];
  }

  /**
   Giving one setting another value is one change, whatever surrounds it, as long as no later
   line of its block sets it again.
   */
  lemma OneValueChanged(pre: seq<string>, x: string, y: string, post: seq<string>, key: string,
                    mask: string -> string, out: seq<Change>)
    requires IsSetting(x) && IsSetting(y) && GoesBy(x, key) && GoesBy(y, key) && x != y
    requires NotSetAgain(pre + [x], post, OpenPath(pre), key)
    requires IsDiff(out, Flatten(pre + [x] + post).settings, Flatten(pre + [y] + post).settings, mask)
    ensures out == [Change(OpenPath(pre), Changed, key, mask(x), mask(y))]
  {
    TwinConfigs(pre, x, y, post, key);
    OnePut(Flatten(pre + [x] + post).settings, OpenPath(pre), key, y, mask, out);
  }

  /** The change it is to set a key of a block that is there to another line. */
  function SetChange(s: Settings, p: string, key: string, line: string, mask: string -> string): Change
    requires p in s
  {
    if key in s[p] then Change(p, Changed, key, mask(s[p][key]), mask(line)) else Change(p, Added, key, "", mask(line))
  }

  lemma OnePut(s: Settings, p: string, key: string, line: string, mask: string -> string, out: seq<Change>)
    requires p in s && (key in s[p] ==> s[p][key] != line) && IsDiff(out, s, Put(s, p, key, line), mask)
    ensures out == [SetChange(s, p, key, line, mask)]
  {
    forall c ensures Reported(c, s, Put(s, p, key, line), mask) <==> c == SetChange(s, p, key, line, mask) {
      ReportsPut(s, p, key, line, mask, c);
    }
    OnlyOne(out, s, Put(s, p, key, line), mask, SetChange(s, p, key, line, mask));
  }

  /** A setting that is new in a block that is there is one change. */
  lemma OneSettingAdded(pre: seq<string>, x: string, post: seq<string>, key: string, mask: string -> string, out: seq<Change>)
    requires IsSetting(x) && GoesBy(x, key)
    requires OpenPath(pre) in Flatten(pre).settings && key !in Flatten(pre).settings[OpenPath(pre)]
    requires NotSetAgain(pre, post, OpenPath(pre), key)
    requires IsDiff(out, Flatten(pre + post).settings, Flatten(pre + [x] + post).settings, mask)
    ensures out == [Change(OpenPath(pre), Added, key, "", mask(x))]
  {
    var p := OpenPath(pre);
    SettingIsStored(pre, x, key);
    ButOne(pre, pre + [x], post, p, key, x);
    OnePut(Flatten(pre + post).settings, p, key, x, mask, out);
  }

  /** A new block with everything in it is one change. */
  lemma OneBlockAdded(lines: seq<string>, p: string, mask: string -> string, out: seq<Change>)
    requires CleanLines(lines) && p != "" && p in Flatten(lines).settings
    requires IsDiff(out, Flatten(Cut(p, lines)).settings, Flatten(lines).settings, mask)
    ensures out == [Change(p, Added, "", "", "")]
  {
    var n := Flatten(lines).settings;
    FlattenOk(lines);
    CutPrunes(p, lines);
    forall c ensures Reported(c, Pruned(n, p), n, mask) <==> c == Change(p, Added, "", "", "") {
      ReportsPruned(n, p, mask, c);
    }
    OnlyOne(out, Pruned(n, p), n, mask, Change(p, Added, "", "", ""));
  }

  lemma {:induction false} AncestorsShorter(a: string, p: string)
    requires AncestorOrSelf(a, p)
    ensures |a| <= |p|
    decreases |p|
  {
    if a != p {
      AncestorsShorter(a, Parent(p).value);
    }
  }

  lemma TopOfPruned(n: Settings, p: string, q: string)
    requires ParentClosed(n) && p in n
    ensures TopMissing(q, n, Pruned(n, p)) <==> q == p
  {
    if q == p {
      assert AncestorOrSelf(p, p);
      if Parent(p).Some? && AncestorOrSelf(p, Parent(p).value) {
        AncestorsShorter(p, Parent(p).value);
      }
    } else if q in n && AncestorOrSelf(p, q) {
      assert Parent(q).value !in Pruned(n, p);
    }
  }

  lemma ReportsPruned(n: Settings, p: string, mask: string -> string, c: Change)
    requires ParentClosed(n) && p in n
    ensures Reported(c, Pruned(n, p), n, mask) <==> c == Change(p, Added, "", "", "")
  {
    TopOfPruned(n, p, c.path);
  }
}
