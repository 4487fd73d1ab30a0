/** Writing updates to a .env file and reading the file back. */
module EnvFileTheorems {
  import opened Records
  import opened EnvFile
  import Text

  // ---------------------------------------------------------------- the file's text

  /** The line boundaries of str.splitlines(). */
  predicate IsBreak(c: char) {
    var u := c as int;
    10 <= u <= 13 || 28 <= u <= 30 || u == 0x85 || u == 0x2028 || u == 0x2029
  }

  predicate OneLine(s: string) {
    forall i :: 0 <= i < |s| ==> !IsBreak(s[i])
  }

  function FirstBreak(s: string): (i: nat)
    ensures i <= |s| && OneLine(s[..i]) && (i < |s| ==> IsBreak(s[i]))
  {
    if s == "" || IsBreak(s[0]) then 0
    else
      var i := 1 + FirstBreak(s[1..]);
      assert s[..i] == [s[0]] + s[1..][..i - 1];
      i
  }

  function SplitLines(text: string): (lines: seq<string>)
    ensures forall k :: 0 <= k < |lines| ==> OneLine(lines[k])
    decreases |text|
  {
    if text == "" then []
    else
      var at := FirstBreak(text);
      if at == |text| then [text] else [text[..at]] + SplitLines(text[at + 1..])
  }

  ghost predicate OneLineEach(lines: seq<string>) {
    forall k :: 0 <= k < |lines| ==> OneLine(lines[k])
  }

  lemma {:induction false} FirstBreakAt(line: string, rest: string)
    requires OneLine(line)
    ensures FirstBreak(line + "\n" + rest) == |line|
  {
    var text := line + "\n" + rest;
    if line != "" {
      assert text[1..] == line[1..] + "\n" + rest;
      FirstBreakAt(line[1..], rest);
    }
  }

  lemma {:induction false} JoinHead(lines: seq<string>)
    requires |lines| >= 2
    ensures Join(lines) == lines[0] + "\n" + Join(lines[1..])
  {
    if |lines| > 2 {
      JoinHead(lines[..|lines| - 1]);
      assert lines[..|lines| - 1][1..] == lines[1..][..|lines| - 2];
      assert Join(lines[1..]) == Join(lines[1..][..|lines| - 2]) + "\n" + lines[|lines| - 1];
    } else {
      assert lines[..1] == [lines[0]];
      assert lines[1..] == [lines[1]];
    }
  }

  lemma SplitFirst(line: string, rest: string)
    requires OneLine(line)
    ensures SplitLines(line + "\n" + rest) == [line] + SplitLines(rest)
  {
    var text := line + "\n" + rest;
    FirstBreakAt(line, rest);
    hide FirstBreak, OneLine;
    assert text[|line| + 1..] == rest;
    assert text[..|line|] == line;
  }

  /** Joined lines split into the same lines. */
  lemma {:induction false} SplitJoined(lines: seq<string>)
    requires lines != [] && OneLineEach(lines)
    ensures SplitLines(Join(lines) + "\n") == lines
  {
    if |lines| == 1 {
      assert lines[0] + "\n" == lines[0] + "\n" + "";
      SplitFirst(lines[0], "");
      assert lines == [lines[0]] + [];
    } else {
      hide SplitLines, OneLine;
      var rest := Join(lines[1..]) + "\n";
      JoinHead(lines);
      hide Join;
      SplitJoined(lines[1..]);
      assert Join(lines) + "\n" == lines[0] + "\n" + rest;
      SplitFirst(lines[0], rest);
      assert lines == [lines[0]] + lines[1..];
    }
  }

  /** Trailing blank lines dropped and the last line stripped on the right, as rstrip() leaves the text. */
  function Trimmed(lines: seq<string>): (r: seq<string>)
    requires lines != []
    ensures r != []
  {
    var last := Rstrip(lines[|lines| - 1]);
    if last != "" then lines[..|lines| - 1] + [last]
    else if |lines| == 1 then [""]
    else Trimmed(lines[..|lines| - 1])
  }

  lemma {:induction false} RstripAppend(a: string, b: string)
    ensures Rstrip(a + b) == if Rstrip(b) == "" then Rstrip(a) else a + Rstrip(b)
    decreases |b|
  {
    if b == "" {
      assert a + b == a;
    } else {
      assert (a + b)[..|a + b| - 1] == a + b[..|b| - 1];
      if Text.IsSpace(b[|b| - 1]) {
        RstripAppend(a, b[..|b| - 1]);
      }
    }
  }

  lemma {:induction false} RstripJoined(lines: seq<string>)
    requires lines != []
    ensures Rstrip(Join(lines)) == Join(Trimmed(lines))
  {
    var last, init := lines[|lines| - 1], lines[..|lines| - 1];
    if |lines| > 1 {
      assert Rstrip("\n") == "" by { assert "\n"[..0] == ""; }
      RstripAppend(Join(init) + "\n", last);
      RstripAppend(Join(init), "\n");
      if Rstrip(last) == "" {
        RstripJoined(init);
      } else {
        assert Trimmed(lines) == init + [Rstrip(last)];
        assert (init + [Rstrip(last)])[..|init|] == init;
      }
    }
  }

  // ---------------------------------------------------------------- stripping

  lemma {:induction false} RstripStripped(s: string)
    ensures Rstrip(Rstrip(s)) == Rstrip(s)
  {
  }

  lemma {:induction false} LstripEnds(s: string)
    ensures var r := Lstrip(s);
            && (r != "" ==> !Text.IsSpace(r[0]) && s != "" && r[|r| - 1] == s[|s| - 1])
            && (r == s <==> s == "" || !Text.IsSpace(s[0]))
            && |r| <= |s|
  {
    if s != "" && Text.IsSpace(s[0]) {
      LstripEnds(s[1..]);
    }
  }

  /** Stripping leaves exactly the texts that do not begin or end with a space. */
  lemma StripFixed(s: string)
    ensures Strip(s) == s <==> s == "" || (!Text.IsSpace(s[0]) && !Text.IsSpace(s[|s| - 1]))
    ensures Strip(Strip(s)) == Strip(s)
  {
    LstripEnds(s);
    LstripEnds(Rstrip(s));
    var r := Strip(s);
    LstripEnds(r);
    RstripStripped(s);
    if r != "" {
      assert Rstrip(r) == r;
    }
    if Strip(s) == s && s != "" {
      assert |Rstrip(s)| == |s|;
    }
  }

  lemma StripRstrip(s: string)
    ensures Strip(Rstrip(s)) == Strip(s)
  {
    RstripStripped(s);
  }

  lemma ReadStripped(line: string)
    ensures ReadLine(Rstrip(line)) == ReadLine(line) && LoadLine(Rstrip(line)) == LoadLine(line)
  {
    StripRstrip(line);
    hide Strip, Rstrip, FirstEquals, Canonical, ConfigKey, DecodeOnce, DecodeTwice;
  }

  lemma BlankReads(line: string)
    requires Rstrip(line) == ""
    ensures ReadLine(line) == None && LoadLine(line) == None
  {
  }

  lemma {:induction false} ReadTrimmed(lines: seq<string>)
    requires lines != []
    ensures Read(Trimmed(lines)) == Read(lines)
    ensures forall env :: Load(env, Trimmed(lines)) == Load(env, lines)
  {
    hide ReadLine, LoadLine, Rstrip;
    var last, init := lines[|lines| - 1], lines[..|lines| - 1];
    if Rstrip(last) != "" {
      ReadStripped(last);
      assert (init + [Rstrip(last)])[..|init|] == init;
    } else {
      BlankReads(last);
      if |lines| == 1 {
        assert Trimmed(lines) == [""];
        BlankReads("") by { EmptyStripped(); }
        assert [""][..0] == init;
      } else {
        ReadTrimmed(init);
      }
    }
  }

  lemma EmptyStripped()
    ensures Rstrip("") == ""
  {
  }

  // ---------------------------------------------------------------- one written line

  /** A key that a line can carry: no '=', not a comment, no outer spaces or "export ". */
  predicate WellFormedKey(key: string) {
    && Canonical(key) == key
    && '=' !in key
    && (key == "" || key[0] != '#')
    && OneLine(key)
  }

  /** A name that the application can look up: not empty, and read as it is written. */
  predicate Loadable(key: string) {
    key != "" && ConfigKey(key) == key
  }

  lemma {:induction false} EqualsAfter(key: string, value: string)
    requires '=' !in key
    ensures FirstEquals(key + "=" + value) == |key|
  {
    var line := key + "=" + value;
    if key != "" {
      assert line[1..] == key[1..] + "=" + value;
      EqualsAfter(key[1..], value);
    }
  }

  lemma FormatShape(value: string)
    ensures var text := Format(value);
            && Strip(text) == text && text != "" && !Text.IsSpace(text[0]) && !Text.IsSpace(text[|text| - 1])
            && (Quoted(text, '"') <==> !Plain(value))
            && (!Plain(value) ==> Inner(text) == Escape(value))
            && (Plain(value) ==> text == value && !Quoted(text, '\''))
  {
    var text := Format(value);
    StripFixed(text);
    hide Strip, Escape;
    if Plain(value) {
      assert PlainChar(text[0]) && PlainChar(text[|text| - 1]);
    } else {
      assert text[0] == '"' && text[|text| - 1] == '"';
      assert Inner(text) == Escape(value);
    }
  }

  lemma CanonicalStripped(key: string)
    requires Canonical(key) == key
    ensures Strip(key) == key
  {
    StripFixed(RemovePrefix(Strip(key), EXPORT));
  }

  /** A written line is stripped, assigns, and splits at its own '='. */
  lemma WrittenLine(key: string, value: string)
    requires WellFormedKey(key)
    ensures var line := FormatLine(key, value);
            && Strip(line) == line && Assigns(line) && FirstEquals(line) == |key| < |line|
            && line[..|key|] == key && line[|key| + 1..] == Format(value)
  {
    hide Format, Canonical, Strip;
    var line, text := FormatLine(key, value), Format(value);
    FormatShape(value);
    CanonicalStripped(key);
    StripFixed(key);
    assert line[|line| - 1] == text[|text| - 1];
    assert line[0] == if key == "" then '=' else key[0];
    StripFixed(line);
    EqualsAfter(key, text);
    assert line[|key|] == '=';
  }

  /** What both readers make of a stripped line with a formatted value. */
  lemma FormattedLine(line: string, text: string, value: string)
    requires Strip(line) == line && Assigns(line) && FirstEquals(line) == |text|
    requires line[..|text|] == text && line[|text| + 1..] == Format(value)
    ensures ReadLine(line) == Some(Entry(Canonical(text), value))
    ensures ConfigKey(text) != "" ==> LoadLine(line) == Some(Entry(ConfigKey(text), value))
  {
    FormatShape(value);
    DecodersInvert(value);
    hide Format, Strip, Escape, DecodeOnce, DecodeTwice, FirstEquals, ConfigKey, Canonical, Assigns, Plain;
  }

  lemma FormatLineReads(key: string, value: string)
    requires WellFormedKey(key)
    ensures ReadLine(FormatLine(key, value)) == Some(Entry(key, value))
    ensures Loadable(key) ==> LoadLine(FormatLine(key, value)) == Some(Entry(key, value))
  {
    WrittenLine(key, value);
    FormattedLine(FormatLine(key, value), key, value);
  }

  // ---------------------------------------------------------------- all lines

  ghost predicate WellFormed(updates: Env, order: seq<string>) {
    && (forall k :: k in updates <==> k in order)
    && (forall k | k in updates :: WellFormedKey(k) && OneLine(updates[k]))
  }

  predicate Names(line: string, key: string) {
    ReadLine(line).Some? && ReadLine(line).value.key == key
  }

  /** How many lines assign the key, as deploy.py reads them. */
  function Count(lines: seq<string>, key: string): nat {
    if lines == [] then 0
    else Count(lines[..|lines| - 1], key) + (if Names(lines[|lines| - 1], key) then 1 else 0)
  }

  lemma {:induction false} ReadHas(lines: seq<string>, key: string)
    ensures key in Read(lines) <==> Count(lines, key) > 0
  {
    hide ReadLine;
    if lines != [] {
      ReadHas(lines[..|lines| - 1], key);
    }
  }

  /** What is left pending, and what the rewritten lines say of each key. */
  ghost predicate Rewritten(lines: seq<string>, updates: Env, output: seq<string>, pending: Env, key: string) {
    && (key in pending <==> key in updates && Count(lines, key) == 0)
    && (key in pending ==> pending[key] == updates[key])
    && (key in Read(output) <==> key in Read(lines))
    && (key in Read(lines) ==>
          Read(output)[key] == if key in updates && Count(lines, key) == 1 then updates[key] else Read(lines)[key])
  }

  lemma {:induction false} RewriteReads(lines: seq<string>, updates: Env, key: string)
    requires forall k | k in updates :: WellFormedKey(k)
    ensures var (output, pending) := Rewrite(lines, updates); Rewritten(lines, updates, output, pending, key)
  {
    hide ReadLine, WellFormedKey, FormatLine;
    if lines != [] {
      var init, line := lines[..|lines| - 1], lines[|lines| - 1];
      var (output, pending) := Rewrite(init, updates);
      RewriteReads(init, updates, key);
      ReadHas(init, key);
      var e := ReadLine(line);
      if e.Some? && e.value.key in pending {
        RewriteReads(init, updates, e.value.key);
        ReadHas(init, e.value.key);
        FormatLineReads(e.value.key, pending[e.value.key]);
        assert (output + [FormatLine(e.value.key, pending[e.value.key])])[..|init|] == output;
      } else {
        assert (output + [line])[..|init|] == output;
      }
    }
  }

  lemma {:induction false} ReadConcat(a: seq<string>, b: seq<string>)
    ensures Read(a + b) == Read(a) + Read(b)
  {
    hide ReadLine;
    if b == [] {
      assert a + b == a;
    } else {
      assert (a + b)[..|a + b| - 1] == a + b[..|b| - 1];
      ReadConcat(a, b[..|b| - 1]);
    }
  }

  lemma {:induction false} ReadNew(order: seq<string>, pending: Env)
    requires forall k | k in pending :: WellFormedKey(k)
    ensures Read(NewLines(order, pending)) == map k | k in order && k in pending :: pending[k]
  {
    hide ReadLine, WellFormedKey, FormatLine, Loadable;
    if order != [] {
      var init, key := order[..|order| - 1], order[|order| - 1];
      var before, news := NewLines(init, pending), map k | k in init && k in pending :: pending[k];
      ReadNew(init, pending);
      assert forall k :: k in order <==> k in init || k == key;
      if key in pending {
        FormatLineReads(key, pending[key]);
        assert (before + [FormatLine(key, pending[key])])[..|before|] == before;
        assert (map k | k in order && k in pending :: pending[k]) == news[key := pending[key]];
      } else {
        assert (map k | k in order && k in pending :: pending[k]) == news;
      }
    }
  }

  lemma ReadBlank(lines: seq<string>)
    ensures Read(lines + [""]) == Read(lines)
  {
    assert (lines + [""])[..|lines|] == lines;
    EmptyStripped();
    BlankReads("");
  }

  /** The variable is set to this value. */
  predicate Holds(env: Env, k: string, value: string) {
    k in env && env[k] == value
  }

  lemma WrittenReads(lines: seq<string>, updates: Env, order: seq<string>)
    requires WellFormed(updates, order)
    ensures Read(Written(lines, updates, order)) == Read(Rewrite(lines, updates).0) + Rewrite(lines, updates).1
  {
    hide Read, WellFormedKey;
    var (output, pending) := Rewrite(lines, updates);
    forall k ensures k in pending ==> k in updates {
      RewriteReads(lines, updates, k);
    }
    if pending == map[] {
      assert Read(output) + pending == Read(output);
    } else {
      var start := if output != [] && output[|output| - 1] != "" then output + [""] else output;
      ReadBlank(output);
      ReadConcat(start, NewLines(order, pending));
      ReadNew(order, pending);
      assert (map k | k in order && k in pending :: pending[k]) == pending;
    }
  }

  /** What deploy.py reads of one key after the update. */
  lemma WrittenKey(lines: seq<string>, updates: Env, order: seq<string>, k: string, value: string)
    requires WellFormed(updates, order)
    ensures Holds(Read(Written(lines, updates, order)), k, value)
            <==> if k in updates && Count(lines, k) <= 1 then updates[k] == value else Holds(Read(lines), k, value)
  {
    hide Read, WellFormedKey, Rewrite, Written, OneLine;
    WrittenReads(lines, updates, order);
    RewriteReads(lines, updates, k);
    ReadHas(lines, k);
  }

  lemma SameEnv(a: Env, b: Env)
    requires forall k, value :: Holds(a, k, value) <==> Holds(b, k, value)
    ensures a == b
  {
    forall k ensures k in a <==> k in b {
      if k in a {
        assert Holds(a, k, a[k]);
      }
      if k in b {
        assert Holds(b, k, b[k]);
      }
    }
    forall k | k in a ensures a[k] == b[k] {
      assert Holds(a, k, a[k]);
    }
  }

  /** No updated key is on several lines, unless the last of them already holds the new value. */
  ghost predicate NoStaleDuplicate(lines: seq<string>, updates: Env) {
    forall k | k in updates :: Count(lines, k) <= 1 || Holds(Read(lines), k, updates[k])
  }

  /**
   deploy.py reads back the old values overridden by the updates, if and only if no updated key was assigned
   by several lines, unless the last of them already held the new value.
   */
  lemma LinesRoundTrip(lines: seq<string>, updates: Env, order: seq<string>)
    requires WellFormed(updates, order)
    ensures Read(Written(lines, updates, order)) == Read(lines) + updates <==> NoStaleDuplicate(lines, updates)
  {
    hide Read, WellFormedKey, Written;
    var after, want := Read(Written(lines, updates, order)), Read(lines) + updates;
    if NoStaleDuplicate(lines, updates) {
      forall k, value ensures Holds(after, k, value) <==> Holds(want, k, value) {
        WrittenKey(lines, updates, order, k, value);
      }
      SameEnv(after, want);
    }
    if after == want {
      forall k | k in updates ensures Count(lines, k) <= 1 || Holds(Read(lines), k, updates[k]) {
        WrittenKey(lines, updates, order, k, updates[k]);
        assert Holds(want, k, updates[k]);
      }
    }
  }

  // ---------------------------------------------------------------- the written text

  lemma {:induction false} EscapeOneLine(value: string)
    requires OneLine(value)
    ensures OneLine(Escape(value))
  {
    if value != "" {
      EscapeOneLine(value[1..]);
    }
  }

  lemma FormatLineOneLine(key: string, value: string)
    requires OneLine(key) && OneLine(value)
    ensures OneLine(FormatLine(key, value))
  {
    EscapeOneLine(value);
  }

  lemma {:induction false} RewriteOneLine(lines: seq<string>, updates: Env)
    requires OneLineEach(lines) && forall k | k in updates :: OneLine(k) && OneLine(updates[k])
    ensures OneLineEach(Rewrite(lines, updates).0)
    ensures forall k | k in Rewrite(lines, updates).1 :: k in updates && Rewrite(lines, updates).1[k] == updates[k]
  {
    hide ReadLine, FormatLine, OneLine;
    if lines != [] {
      RewriteOneLine(lines[..|lines| - 1], updates);
      var (output, pending) := Rewrite(lines[..|lines| - 1], updates);
      var e := ReadLine(lines[|lines| - 1]);
      if e.Some? && e.value.key in pending {
        FormatLineOneLine(e.value.key, pending[e.value.key]);
      }
    }
  }

  lemma {:induction false} NewOneLine(order: seq<string>, pending: Env)
    requires forall k | k in pending :: OneLine(k) && OneLine(pending[k])
    ensures OneLineEach(NewLines(order, pending))
  {
    hide FormatLine, OneLine;
    if order != [] {
      NewOneLine(order[..|order| - 1], pending);
      var key := order[|order| - 1];
      if key in pending {
        FormatLineOneLine(key, pending[key]);
      }
    }
  }

  lemma WrittenOneLine(lines: seq<string>, updates: Env, order: seq<string>)
    requires OneLineEach(lines) && WellFormed(updates, order)
    ensures OneLineEach(Written(lines, updates, order))
  {
    assert OneLine("");
    hide OneLine, Canonical, Rewrite, NewLines;
    assert forall k | k in updates :: OneLine(k);
    hide WellFormedKey;
    RewriteOneLine(lines, updates);
    var (output, pending) := Rewrite(lines, updates);
    NewOneLine(order, pending);
    var start := if output != [] && output[|output| - 1] != "" then output + [""] else output;
    assert OneLineEach(start);
  }

  /** The file that an update leaves. */
  function WrittenText(file: string, updates: Env, order: seq<string>): string {
    Rstrip(Join(Written(SplitLines(file), updates, order))) + "\n"
  }

  lemma TextReads(lines: seq<string>)
    requires OneLineEach(lines)
    ensures var back := SplitLines(Rstrip(Join(lines)) + "\n");
            Read(back) == Read(lines) && forall env :: Load(env, back) == Load(env, lines)
  {
    hide Read, Load, SplitLines;
    if lines == [] {
      assert Rstrip(Join(lines)) == "";
      assert [""] != [] && Join([""]) == "";
      SplitJoined([""]);
      assert Read([""]) == Read([]) && forall env :: Load(env, [""]) == Load(env, []) by { OnlyBlank(); }
    } else {
      RstripJoined(lines);
      TrimmedOneLine(lines);
      SplitJoined(Trimmed(lines));
      ReadTrimmed(lines);
    }
  }

  lemma OnlyBlank()
    ensures Read([""]) == Read([]) && forall env :: Load(env, [""]) == Load(env, [])
  {
    EmptyStripped();
    BlankReads("");
    assert [""][..0] == [];
  }

  lemma {:induction false} TrimmedOneLine(lines: seq<string>)
    requires lines != [] && OneLineEach(lines)
    ensures OneLineEach(Trimmed(lines))
  {
    if Rstrip(lines[|lines| - 1]) == "" && |lines| > 1 {
      TrimmedOneLine(lines[..|lines| - 1]);
    } else {
      var last := lines[|lines| - 1];
      assert forall i :: 0 <= i < |Rstrip(last)| ==> Rstrip(last)[i] == last[i];
    }
  }

  /** The round trip through the text of the file, for deploy.py's reader, with its exact condition. */
  lemma FileRoundTrip(file: string, updates: Env, order: seq<string>)
    requires WellFormed(updates, order)
    ensures var lines := SplitLines(file);
            Read(SplitLines(WrittenText(file, updates, order))) == Read(lines) + updates <==> NoStaleDuplicate(lines, updates)
  {
    hide Read, Load, WellFormedKey, Written, SplitLines;
    var lines := SplitLines(file);
    SplitOneLine(file);
    WrittenOneLine(lines, updates, order);
    TextReads(Written(lines, updates, order));
    LinesRoundTrip(lines, updates, order);
  }

  lemma SplitOneLine(file: string)
    ensures OneLineEach(SplitLines(file))
  {
  }

  lemma TwoLines(key: string, a: string, b: string, first: string, last: string)
    requires ReadLine(a) == Some(Entry(key, first)) && ReadLine(b) == Some(Entry(key, last))
    ensures Count([a, b], key) == 2 && Holds(Read([a, b]), key, last)
  {
    hide ReadLine;
    assert [a][..0] == [] && [a, b][..1] == [a];
    assert Count([a], key) == 1;
  }

  lemma TwoLinesLost(key: string, a: string, b: string, first: string, last: string, value: string)
    requires ReadLine(a) == Some(Entry(key, first)) && ReadLine(b) == Some(Entry(key, last)) && value != last
    requires WellFormedKey(key) && OneLine(value)
    ensures Read(Written([a, b], map[key := value], [key])) != Read([a, b]) + map[key := value]
  {
    hide ReadLine, Read, Written, WellFormedKey, OneLine, Count;
    TwoLines(key, a, b, first, last);
    var updates := map[key := value];
    assert !NoStaleDuplicate([a, b], updates) by { assert key in updates; }
    LinesRoundTrip([a, b], updates, [key]);
  }

  lemma OneLetterKey(key: string)
    requires |key| == 1 && 'A' <= key[0] <= 'Z'
    ensures WellFormedKey(key)
  {
    StripFixed(key);
  }

  lemma PlainLine(key: string, value: string, line: string)
    requires |key| == 1 && |value| == 1 && '0' <= value[0] <= '9' && line == [key[0], '=', value[0]]
    ensures FormatLine(key, value) == line
  {
    assert Plain(value);
    assert key + "=" + value == line;
  }

  lemma OneDigit(value: string)
    requires |value| == 1 && '0' <= value[0] <= '9'
    ensures OneLine(value)
  {
  }

  lemma OneDigitLine(key: string, value: string, line: string)
    requires |key| == 1 && 'A' <= key[0] <= 'Z' && |value| == 1 && '0' <= value[0] <= '9'
    requires line == [key[0], '=', value[0]]
    ensures ReadLine(line) == Some(Entry(key, value)) && OneLine(value)
  {
    hide ReadLine, WellFormedKey, FormatLine, OneLine, Loadable;
    OneLetterKey(key);
    PlainLine(key, value, line);
    FormatLineReads(key, value);
    assert OneLine(value) by { OneDigit(value); }
  }

  /** An update that deploy.py does not read back: of A=1 and A=2 only the first line is rewritten. */
  lemma DuplicateKeyLost() returns (a: string, b: string, key: string, value: string)
    ensures a == ['A', '=', '1'] && b == ['A', '=', '2'] && key == ['A'] && value == ['3']
    ensures Read(Written([a, b], map[key := value], [key])) != Read([a, b]) + map[key := value]
  {
    a, b, key, value := ['A', '=', '1'], ['A', '=', '2'], ['A'], ['3'];
    hide ReadLine, Read, Written, WellFormedKey, OneLine;
    OneLetterKey(key);
    OneDigitLine(key, ['1'], a);
    OneDigitLine(key, ['2'], b);
    OneDigitLine(key, value, ['A', '=', '3']);
    assert ['2'][0] != value[0];
    TwoLinesLost(key, a, b, ['1'], ['2'], value);
  }

  // ---------------------------------------------------------------- the application's reader

  predicate Loads(line: string, key: string) {
    LoadLine(line).Some? && LoadLine(line).value.key == key
  }

  /** The first line that the application reads the key from, or their number. */
  function FirstLoads(lines: seq<string>, key: string): (i: nat)
    ensures i <= |lines|
  {
    if lines == [] then 0
    else
      var init := lines[..|lines| - 1];
      var i := FirstLoads(init, key);
      if i < |init| then i else if Loads(lines[|init|], key) then i else |lines|
  }

  /** The first line that deploy.py reads the key from, and so rewrites, or their number. */
  function FirstReads(lines: seq<string>, key: string): (i: nat)
    ensures i <= |lines|
  {
    if lines == [] then 0
    else
      var init := lines[..|lines| - 1];
      var i := FirstReads(init, key);
      if i < |init| then i else if Names(lines[|init|], key) then i else |lines|
  }

  lemma {:induction false} FirstLoadsIs(lines: seq<string>, key: string)
    ensures var i := FirstLoads(lines, key);
            (i < |lines| ==> Loads(lines[i], key)) && forall j :: 0 <= j < i ==> !Loads(lines[j], key)
  {
    hide Loads;
    if lines != [] {
      var init := lines[..|lines| - 1];
      FirstLoadsIs(init, key);
      assert forall j :: 0 <= j < |init| ==> lines[j] == init[j];
    }
  }

  lemma {:induction false} FirstReadsIs(lines: seq<string>, key: string)
    ensures var i := FirstReads(lines, key);
            (i < |lines| ==> Names(lines[i], key)) && forall j :: 0 <= j < i ==> !Names(lines[j], key)
  {
    hide Names;
    if lines != [] {
      var init := lines[..|lines| - 1];
      FirstReadsIs(init, key);
      assert forall j :: 0 <= j < |init| ==> lines[j] == init[j];
    }
  }

  lemma {:induction false} MarksShorten(s: string)
    ensures |StripMarks(s)| <= |s|
    ensures StripMarks(s) == s <==> s == "" || s[0] != '\U{FEFF}'
    ensures StripMarks(s) != s ==> |StripMarks(s)| < |s|
  {
    if s != "" && s[0] == '\U{FEFF}' {
      MarksShorten(s[1..]);
    }
  }

  lemma StripShortens(s: string)
    ensures |Strip(s)| <= |s|
    ensures Strip(Strip(s)) == Strip(s)
  {
    LstripEnds(Rstrip(s));
    StripFixed(s);
  }

  /** A name that the application reads as it is written has no byte-order mark before it. */
  lemma NoMark(key: string)
    requires Loadable(key)
    ensures key[0] != '\U{FEFF}'
  {
    var stripped := StripMarks(Strip(key));
    StripShortens(key);
    MarksShorten(Strip(key));
    hide Strip, StripMarks;
    if EXPORT <= stripped {
      StripShortens(stripped[|EXPORT|..]);
    }
  }

  /** Without a mark both readers make the same key of the text before the '='. */
  lemma SameWithoutMark(text: string)
    requires Strip(text) == "" || Strip(text)[0] != '\U{FEFF}'
    ensures ConfigKey(text) == Canonical(text)
  {
    MarksShorten(Strip(text));
    StripShortens(text);
    hide Strip, StripMarks;
  }

  /** With one, deploy.py's key keeps it. */
  lemma MarkStays(text: string)
    requires Strip(text) != "" && Strip(text)[0] == '\U{FEFF}'
    ensures Canonical(text) != "" && Canonical(text)[0] == '\U{FEFF}'
  {
    StripShortens(text);
    hide Strip;
    assert EXPORT[0] == 'e';
    assert !(EXPORT <= Strip(text));
  }

  /** Where deploy.py reads a name that the application can look up, so does the application. */
  lemma KeyAgrees(line: string, key: string)
    requires Names(line, key) && Loadable(key)
    ensures Loads(line, key)
  {
    NoMark(key);
    var stripped := Strip(line);
    var text := stripped[..FirstEquals(stripped)];
    hide Strip, ConfigKey, Canonical, DecodeOnce, DecodeTwice, FirstEquals;
    assert Canonical(text) == key;
    if Strip(text) != "" && Strip(text)[0] == '\U{FEFF}' {
      MarkStays(text);
      assert false;
    }
    SameWithoutMark(text);
  }

  /** What app/config.py loads for one key from the rewritten lines. */
  ghost predicate Reloaded(env: Env, lines: seq<string>, updates: Env, output: seq<string>, pending: Env, k: string) {
    var shown, changed := FirstLoads(lines, k), FirstReads(lines, k);
    && (k in pending <==> k in updates && changed == |lines|)
    && (k in pending ==> pending[k] == updates[k])
    && (k in Load(env, output) <==> k in Load(env, lines))
    && (k in Load(env, lines) <==> k in env || shown < |lines|)
    && (k in Load(env, lines) ==>
          Load(env, output)[k] == if k in updates && k !in env && shown == changed then updates[k] else Load(env, lines)[k])
  }

  lemma {:induction false} LoadKeepsEnv(env: Env, lines: seq<string>, k: string)
    requires k in env
    ensures k in Load(env, lines) && Load(env, lines)[k] == env[k]
  {
    hide LoadLine;
    if lines != [] {
      LoadKeepsEnv(env, lines[..|lines| - 1], k);
    }
  }

  ghost predicate LoadableKeys(updates: Env) {
    forall k | k in updates :: WellFormedKey(k) && Loadable(k)
  }

  /** One more line of the file, and what it became. */
  lemma LoadSnoc(env: Env, lines: seq<string>, line: string, k: string)
    ensures Load(env, lines + [line])
            == match LoadLine(line)
               case None => Load(env, lines)
               case Some(e) => if e.key in Load(env, lines) then Load(env, lines) else Load(env, lines)[e.key := e.value]
    ensures FirstLoads(lines + [line], k)
            == if FirstLoads(lines, k) < |lines| || Loads(line, k) then FirstLoads(lines, k) else |lines| + 1
    ensures FirstReads(lines + [line], k)
            == if FirstReads(lines, k) < |lines| || Names(line, k) then FirstReads(lines, k) else |lines| + 1
  {
    hide LoadLine, Loads, Names;
    assert (lines + [line])[..|lines|] == lines;
  }

  lemma KeptLineLoads(env: Env, lines: seq<string>, line: string, updates: Env, output: seq<string>, pending: Env, k: string)
    requires Reloaded(env, lines, updates, output, pending, k)
    requires ReadLine(line).Some? ==> ReadLine(line).value.key !in pending
    ensures Reloaded(env, lines + [line], updates, output + [line], pending, k)
  {
    LoadSnoc(env, lines, line, k);
    LoadSnoc(env, output, line, k);
    hide Load, FirstLoads, FirstReads, ReadLine, LoadLine;
  }

  lemma RewrittenLineLoads(env: Env, lines: seq<string>, line: string, updates: Env, output: seq<string>, pending: Env,
                           key: string, changed: string, k: string)
    requires Reloaded(env, lines, updates, output, pending, k) && Reloaded(env, lines, updates, output, pending, key)
    requires key in pending && Names(line, key) && Loads(line, key) && LoadLine(changed) == Some(Entry(key, pending[key]))
    ensures Reloaded(env, lines + [line], updates, output + [changed], pending - {key}, k)
  {
    LoadSnoc(env, lines, line, k);
    LoadSnoc(env, output, changed, k);
    hide Load, FirstLoads, FirstReads, ReadLine, LoadLine;
  }

  lemma {:induction false} RewriteLoads(env: Env, lines: seq<string>, updates: Env, k: string)
    requires LoadableKeys(updates)
    ensures var (output, pending) := Rewrite(lines, updates); Reloaded(env, lines, updates, output, pending, k)
  {
    hide ReadLine, LoadLine, WellFormedKey, FormatLine, Loadable;
    if lines != [] {
      var init, line := lines[..|lines| - 1], lines[|lines| - 1];
      assert lines == init + [line];
      var (output, pending) := Rewrite(init, updates);
      RewriteLoads(env, init, updates, k);
      var e := ReadLine(line);
      if e.Some? && e.value.key in pending {
        var key := e.value.key;
        RewriteLoads(env, init, updates, key);
        assert Names(line, key);
        hide Reloaded;
        assert key in updates && pending[key] == updates[key] by { PendingIsUpdate(init, updates, key); }
        KeyAgrees(line, key);
        FormatLineReads(key, pending[key]);
        RewrittenLineLoads(env, init, line, updates, output, pending, key, FormatLine(key, pending[key]), k);
      } else {
        hide Reloaded;
        KeptLineLoads(env, init, line, updates, output, pending, k);
      }
    } else if k in env {
      LoadKeepsEnv(env, lines, k);
    }
  }

  lemma {:induction false} PendingIsUpdate(lines: seq<string>, updates: Env, key: string)
    requires key in Rewrite(lines, updates).1
    ensures key in updates && Rewrite(lines, updates).1[key] == updates[key]
  {
    hide ReadLine, FormatLine;
    if lines != [] {
      PendingIsUpdate(lines[..|lines| - 1], updates, key);
    }
  }

  /** The environment's entries before those of `first`, before those of `second`. */
  function FirstOf(first: Env, second: Env): Env {
    second + first
  }

  lemma FirstOfStep(env: Env, news: Env, key: string, value: string)
    requires key in news ==> news[key] == value
    ensures FirstOf(env, news[key := value])
            == if key in FirstOf(env, news) then FirstOf(env, news) else FirstOf(env, news)[key := value]
  {
  }

  lemma NothingNew(env: Env)
    ensures FirstOf(env, map[]) == env
  {
  }

  lemma {:induction false} LoadNew(env: Env, order: seq<string>, pending: Env)
    requires LoadableKeys(pending)
    ensures Load(env, NewLines(order, pending)) == FirstOf(env, map k | k in order && k in pending :: pending[k])
  {
    hide LoadLine, WellFormedKey, FormatLine, Loadable, FirstOf;
    if order == [] {
      assert FirstOf(env, map[]) == env by { NothingNew(env); }
    } else {
      var init, key := order[..|order| - 1], order[|order| - 1];
      var before, news := NewLines(init, pending), map k | k in init && k in pending :: pending[k];
      LoadNew(env, init, pending);
      assert forall k :: k in order <==> k in init || k == key;
      if key in pending {
        FormatLineReads(key, pending[key]);
        assert (before + [FormatLine(key, pending[key])])[..|before|] == before;
        FirstOfStep(env, news, key, pending[key]);
        assert (map k | k in order && k in pending :: pending[k]) == news[key := pending[key]];
      } else {
        assert (map k | k in order && k in pending :: pending[k]) == news;
      }
    }
  }

  lemma {:induction false} LoadConcat(env: Env, a: seq<string>, b: seq<string>)
    ensures Load(env, a + b) == Load(Load(env, a), b)
  {
    hide LoadLine;
    if b == [] {
      assert a + b == a;
    } else {
      assert (a + b)[..|a + b| - 1] == a + b[..|b| - 1];
      LoadConcat(env, a, b[..|b| - 1]);
    }
  }

  lemma LoadBlank(env: Env, lines: seq<string>)
    ensures Load(env, lines + [""]) == Load(env, lines)
  {
    assert (lines + [""])[..|lines|] == lines;
    EmptyStripped();
    BlankReads("");
  }

  lemma WrittenLoads(env: Env, lines: seq<string>, updates: Env, order: seq<string>)
    requires WellFormed(updates, order) && LoadableKeys(updates)
    ensures Load(env, Written(lines, updates, order)) == FirstOf(Load(env, Rewrite(lines, updates).0), Rewrite(lines, updates).1)
  {
    hide Load, WellFormedKey, Loadable, FirstLoads, FirstReads;
    var (output, pending) := Rewrite(lines, updates);
    forall k ensures k in pending ==> k in updates {
      RewriteLoads(env, lines, updates, k);
    }
    if pending == map[] {
      assert pending + Load(env, output) == Load(env, output);
    } else {
      var start := if output != [] && output[|output| - 1] != "" then output + [""] else output;
      LoadBlank(env, output);
      LoadConcat(env, start, NewLines(order, pending));
      LoadNew(Load(env, start), order, pending);
      assert (map k | k in order && k in pending :: pending[k]) == pending;
    }
  }

  /** The application reads the key first where deploy.py writes it, or there already finds the new value. */
  predicate SeesUpdate(env: Env, lines: seq<string>, key: string, value: string) {
    FirstLoads(lines, key) == FirstReads(lines, key) || Holds(Load(env, lines), key, value)
  }

  ghost predicate SeesUpdates(env: Env, lines: seq<string>, updates: Env) {
    forall k | k in updates && k !in env :: SeesUpdate(env, lines, k, updates[k])
  }

  /** What the application loads for one key after the update. */
  lemma LoadedKey(env: Env, lines: seq<string>, updates: Env, order: seq<string>, k: string, value: string)
    requires WellFormed(updates, order) && LoadableKeys(updates)
    ensures Holds(Load(env, Written(lines, updates, order)), k, value)
            <==> if k in updates && k !in env && FirstLoads(lines, k) == FirstReads(lines, k) then updates[k] == value
                 else Holds(Load(env, lines), k, value)
  {
    hide WellFormedKey, Loadable, Rewrite, Written, OneLine, FirstLoads, FirstReads;
    WrittenLoads(env, lines, updates, order);
    RewriteLoads(env, lines, updates, k);
    LoadsFirst(lines, k);
    if k in env {
      LoadKeepsEnv(env, lines, k);
      assert Holds(Load(env, lines), k, env[k]);
    }
    hide Load;
  }

  /** Where deploy.py reads the key, the application has read it by then. */
  lemma LoadsFirst(lines: seq<string>, k: string)
    ensures FirstLoads(lines, k) <= |lines| && FirstReads(lines, k) <= |lines|
    ensures Loadable(k) ==> FirstLoads(lines, k) <= FirstReads(lines, k)
  {
    FirstLoadsIs(lines, k);
    FirstReadsIs(lines, k);
    hide Loads, Names, Loadable, FirstLoads, FirstReads;
    if Loadable(k) && FirstReads(lines, k) < |lines| {
      KeyAgrees(lines[FirstReads(lines, k)], k);
    }
  }

  /**
   After an update the application loads what it loaded before, overridden by the updates of the variables that
   its environment did not have, if and only if each of those is read first from the line that was rewritten
   or appended, or already had the new value.
   */
  lemma ApplicationSeesUpdates(env: Env, file: string, updates: Env, order: seq<string>)
    requires WellFormed(updates, order) && LoadableKeys(updates)
    ensures var lines := SplitLines(file);
            Load(env, SplitLines(WrittenText(file, updates, order))) == Load(env, lines) + (updates - env.Keys)
            <==> SeesUpdates(env, lines, updates)
  {
    hide Read, Load, WellFormedKey, Loadable, Written, SplitLines, OneLine, FirstLoads, FirstReads;
    var lines := SplitLines(file);
    SplitOneLine(file);
    WrittenOneLine(lines, updates, order);
    TextReads(Written(lines, updates, order));
    LinesLoad(env, lines, updates, order);
  }

  lemma LinesLoad(env: Env, lines: seq<string>, updates: Env, order: seq<string>)
    requires WellFormed(updates, order) && LoadableKeys(updates)
    ensures Load(env, Written(lines, updates, order)) == Load(env, lines) + (updates - env.Keys) <==> SeesUpdates(env, lines, updates)
  {
    hide Load, WellFormedKey, Loadable, Written, FirstLoads, FirstReads;
    var after, want := Load(env, Written(lines, updates, order)), Load(env, lines) + (updates - env.Keys);
    if SeesUpdates(env, lines, updates) {
      forall k, value ensures Holds(after, k, value) <==> Holds(want, k, value) {
        LoadedKey(env, lines, updates, order, k, value);
        assert k in updates && k !in env ==> SeesUpdate(env, lines, k, updates[k]);
      }
      SameEnv(after, want);
    }
    if after == want {
      forall k | k in updates && k !in env ensures SeesUpdate(env, lines, k, updates[k]) {
        LoadedKey(env, lines, updates, order, k, updates[k]);
        assert Holds(want, k, updates[k]);
      }
    }
  }

  lemma MarkedShape(written: string)
    requires Strip(written) == written && written != "" && FirstEquals(written) < |written|
    ensures var line := ['\U{FEFF}'] + written;
            Strip(line) == line && Assigns(line) && FirstEquals(line) == 1 + FirstEquals(written)
  {
    var line := ['\U{FEFF}'] + written;
    StripFixed(written);
    StripFixed(line);
    hide Strip;
    assert line[|line| - 1] == written[|written| - 1];
    assert line[1..] == written;
    assert FirstEquals(line) == 1 + FirstEquals(line[1..]);
    hide FirstEquals;
    assert line[1 + FirstEquals(written)] == '=';
  }

  /** A written line behind a byte-order mark: deploy.py's key keeps the mark, the application's does not. */
  lemma MarkedLine(key: string, value: string)
    requires WellFormedKey(key) && Loadable(key)
    ensures var line := ['\U{FEFF}'] + FormatLine(key, value);
            && LoadLine(line) == Some(Entry(key, value))
            && ReadLine(line).Some? && ReadLine(line).value.key != key
  {
    hide FormatLine, Strip, FirstEquals, Assigns, ConfigKey, Canonical, Format, WellFormedKey, ReadLine, LoadLine;
    var written, text := FormatLine(key, value), ['\U{FEFF}'] + key;
    var line := ['\U{FEFF}'] + written;
    WrittenLine(key, value);
    MarkedShape(written);
    MarkedKey(key);
    assert line[..|text|] == text;
    assert line[|text| + 1..] == written[|key| + 1..];
    FormattedLine(line, text, value);
  }

  lemma MarkedKey(key: string)
    requires WellFormedKey(key) && Loadable(key)
    ensures var text := ['\U{FEFF}'] + key;
            Strip(text) == text && ConfigKey(text) == key && Canonical(text) != key
  {
    var text := ['\U{FEFF}'] + key;
    CanonicalStripped(key);
    StripFixed(key);
    StripFixed(text);
    assert text[|text| - 1] == key[|key| - 1];
    NoMark(key);
    MarkStays(text);
    hide Strip, Canonical;
    assert text[1..] == key;
    MarksShorten(key);
  }

  /**
   A byte-order mark before the first line hides an update from the application: it goes on reading the old
   value from that line, whatever deploy.py appends.
   */
  lemma MarkHidesUpdate(env: Env, key: string, was: string, rest: seq<string>, updates: Env, order: seq<string>)
    requires WellFormed(updates, order) && LoadableKeys(updates) && key in updates && key !in env && updates[key] != was
    ensures Holds(Load(env, Written([['\U{FEFF}'] + FormatLine(key, was)] + rest, updates, order)), key, was)
  {
    var line := ['\U{FEFF}'] + FormatLine(key, was);
    var lines := [line] + rest;
    hide Load, Written, FormatLine, WellFormedKey, Loadable, ReadLine, LoadLine, OneLine;
    MarkedLine(key, was);
    FirstLoadsIs(lines, key);
    FirstReadsIs(lines, key);
    assert lines[0] == line;
    LoadedKey(env, lines, updates, order, key, was);
    LoadConcat(env, [line], rest);
    LoadOne(env, line);
    LoadKeepsEnv(Load(env, [line]), rest, key);
  }

  lemma LoadOne(env: Env, line: string)
    requires LoadLine(line).Some? && LoadLine(line).value.key !in env
    ensures Holds(Load(env, [line]), LoadLine(line).value.key, LoadLine(line).value.value)
  {
    assert [line][..0] == [];
  }

  /** An update that the application does not see: A=1 behind a byte-order mark, and A set to 3. */
  lemma MarkedFileKeepsOld() returns (line: string, key: string, value: string)
    ensures line == ['\U{FEFF}', 'A', '=', '1'] && key == ['A'] && value == ['3']
    ensures Holds(Load(map[], Written([line], map[key := value], [key])), key, ['1'])
  {
    line, key, value := ['\U{FEFF}', 'A', '=', '1'], ['A'], ['3'];
    MarkedOneLetter(line, key, ['1'], value);
  }

  lemma MarkedOneLetter(line: string, key: string, was: string, value: string)
    requires |key| == 1 && 'A' <= key[0] <= 'Z' && |was| == 1 && '0' <= was[0] <= '9' && |value| == 1 && '0' <= value[0] <= '9'
    requires line == ['\U{FEFF}', key[0], '=', was[0]] && value[0] != was[0]
    ensures Holds(Load(map[], Written([line], map[key := value], [key])), key, was)
  {
    hide Load, Written, ConfigKey, WellFormedKey, OneLine;
    OneLetterKey(key);
    OneDigitLine(key, value, [key[0], '=', value[0]]);
    PlainLine(key, was, [key[0], '=', was[0]]);
    OneLetterLoads(key);
    hide FormatLine, Loadable;
    assert line == ['\U{FEFF}'] + [key[0], '=', was[0]];
    MarkHidesUpdate(map[], key, was, [], map[key := value], [key]);
    assert [line] + [] == [line];
  }

  lemma OneLetterLoads(key: string)
    requires |key| == 1 && 'A' <= key[0] <= 'Z'
    ensures Loadable(key)
  {
    StripFixed(key);
  }
}
