/** What a line of a .env file means to its two readers, and which lines the writer touches (deploy.py, app/config.py). */
module EnvFileLayout {
  import opened Records
  import opened EnvFile
  import opened EnvFileTheorems
  import Text

  // ---------------------------------------------------------------- stripping

  predicate Spaces(s: string) {
    forall i :: 0 <= i < |s| ==> Text.IsSpace(s[i])
  }

  predicate Bare(s: string) {
    s == "" || (!Text.IsSpace(s[0]) && !Text.IsSpace(s[|s| - 1]))
  }

  lemma {:induction false} LstripSpaces(a: string, s: string)
    requires Spaces(a)
    ensures Lstrip(a + s) == Lstrip(s)
  {
    if a == "" {
      assert a + s == s;
    } else {
      assert (a + s)[1..] == a[1..] + s;
      LstripSpaces(a[1..], s);
    }
  }

  lemma {:induction false} RstripSpaces(b: string)
    requires Spaces(b)
    ensures Rstrip(b) == ""
  {
    if b != "" {
      RstripSpaces(b[..|b| - 1]);
    }
  }

  lemma StripPadded(a: string, s: string, b: string)
    requires Spaces(a) && Bare(s) && Spaces(b)
    ensures Strip(a + s + b) == s
  {
    RstripSpaces(b);
    RstripAppend(a + s, b);
    RstripAppend(a, s);
    RstripSpaces(a);
    assert s == "" ==> a + s == a;
    LstripSpaces(a, s);
  }

  // ---------------------------------------------------------------- reading one line

  /** How the value of an assignment is written. */
  datatype Quoting = Unquoted | Single | Double

  function Shown(quoting: Quoting, text: string): string {
    match quoting
    case Unquoted => text
    case Single => "'" + text + "'"
    case Double => "\"" + text + "\""
  }

  /** An unquoted text has no outer spaces, and does not begin and end with the same quotation mark. */
  predicate Showable(quoting: Quoting, text: string) {
    quoting.Unquoted? ==>
      Bare(text) && !(|text| >= 2 && text[0] == text[|text| - 1] && (text[0] == '"' || text[0] == '\''))
  }

  /** The variable that a key names, without a leading `export`. */
  function Variable(key: string): string {
    if |key| >= 7 && key[..7] == "export " then Strip(key[7..]) else key
  }

  /** A line is an assignment when its key has no '=', no outer spaces, and does not begin a comment. */
  predicate IsKey(key: string) {
    key != "" && Bare(key) && '=' !in key && key[0] != '#'
  }

  function Assignment(a: string, key: string, b: string, c: string, value: string, d: string): string {
    a + key + b + "=" + c + value + d
  }

  lemma AssignmentStrips(a: string, key: string, b: string, c: string, value: string, d: string)
    requires Spaces(a) && Spaces(b) && Spaces(c) && Spaces(d) && IsKey(key) && Bare(value)
    ensures Strip(Assignment(a, key, b, c, value, d)) == key + b + "=" + if value == "" then "" else c + value
  {
    if value == "" {
      var core := key + b + "=";
      assert Assignment(a, key, b, c, value, d) == a + core + (c + d);
      assert core[0] == key[0] && core[|core| - 1] == '=';
      StripPadded(a, core, c + d);
    } else {
      var core := key + b + "=" + (c + value);
      assert Assignment(a, key, b, c, value, d) == a + core + d;
      assert core[0] == key[0] && core[|core| - 1] == value[|value| - 1];
      StripPadded(a, core, d);
    }
  }

  lemma AssignmentParts(a: string, key: string, b: string, c: string, value: string, d: string)
    requires Spaces(a) && Spaces(b) && Spaces(c) && Spaces(d) && IsKey(key) && Bare(value)
    ensures var line := Assignment(a, key, b, c, value, d);
            var stripped := Strip(line);
            var at := FirstEquals(stripped);
            && Assigns(line) && at < |stripped| && Strip(stripped[..at]) == key && Strip(stripped[at + 1..]) == value
  {
    AssignmentStrips(a, key, b, c, value, d);
    var rest := if value == "" then "" else c + value;
    var stripped := key + b + "=" + rest;
    assert '=' !in key + b;
    EqualsAfter(key + b, rest);
    assert stripped[..|key + b|] == key + b && stripped[|key + b| + 1..] == rest;
    StripPadded("", key, b);
    assert "" + key + b == key + b;
    StripPadded(c, value, "");
    assert c + value + "" == c + value;
    if value == "" {
      StripPadded("", "", "");
      assert "" + "" + "" == "";
    }
    assert '=' in stripped && stripped[0] == key[0];
  }

  /**
   Both readers take an assignment apart alike: spaces around the key, the '=' and the value do not count, a leading
   `export` neither, single quotes are dropped, and double quotes are dropped and their escapes decoded. The
   application also drops byte-order marks, and ignores a line without a name.
   */
  lemma AssignmentReads(a: string, key: string, b: string, c: string, quoting: Quoting, text: string, d: string)
    requires Spaces(a) && Spaces(b) && Spaces(c) && Spaces(d) && IsKey(key) && Showable(quoting, text)
    ensures var line := Assignment(a, key, b, c, Shown(quoting, text), d);
            && ReadLine(line) == Some(Entry(Variable(key), if quoting.Double? then DecodeTwice(text) else text))
            && (key[0] != '\U{FEFF}' ==>
                  LoadLine(line) == if Variable(key) == "" then None
                                    else Some(Entry(Variable(key), if quoting.Double? then DecodeOnce(text) else text)))
  {
    ShownParts(quoting, text);
    AssignmentParts(a, key, b, c, Shown(quoting, text), d);
    KeyStripped(key);
    hide Spaces, Strip, FirstEquals, DecodeTwice, DecodeOnce, Assigns, Assignment, Shown, Quoted, Inner, Variable, RemovePrefix, ConfigKey,
      IsKey, Showable;
    LineReads(key, quoting, text, Assignment(a, key, b, c, Shown(quoting, text), d));
  }

  /** What a reader takes from the value, by its own decoder. */
  function Value(value: string, decoded: string): string {
    if Quoted(value, '"') then decoded else if Quoted(value, '\'') then Inner(value) else value
  }

  lemma LineParts(line: string)
    requires Assigns(line) && FirstEquals(Strip(line)) < |Strip(line)|
    ensures var stripped, at := Strip(line), FirstEquals(Strip(line));
            var value := Strip(stripped[at + 1..]);
            && (Quoted(value, '"') ==>
                  ReadLine(line) == Some(Entry(Canonical(stripped[..at]), DecodeTwice(Inner(value))))
                  && (ConfigKey(stripped[..at]) != "" ==> LoadLine(line) == Some(Entry(ConfigKey(stripped[..at]), DecodeOnce(Inner(value))))))
            && (!Quoted(value, '"') ==>
                  ReadLine(line) == Some(Entry(Canonical(stripped[..at]), Value(value, "")))
                  && (ConfigKey(stripped[..at]) != "" ==> LoadLine(line) == Some(Entry(ConfigKey(stripped[..at]), Value(value, "")))))
            && (ConfigKey(stripped[..at]) == "" ==> LoadLine(line) == None)
  {
    hide Assigns, Strip, FirstEquals, Canonical, ConfigKey, DecodeOnce, DecodeTwice, Inner, Quoted;
  }

  lemma LineReads(key: string, quoting: Quoting, text: string, line: string)
    requires IsKey(key) && Showable(quoting, text) && Assigns(line) && FirstEquals(Strip(line)) < |Strip(line)|
    requires Strip(Strip(line)[..FirstEquals(Strip(line))]) == key
    requires Strip(Strip(line)[FirstEquals(Strip(line)) + 1..]) == Shown(quoting, text)
    ensures ReadLine(line) == Some(Entry(Variable(key), if quoting.Double? then DecodeTwice(text) else text))
    ensures key[0] != '\U{FEFF}' ==>
              LoadLine(line) == if Variable(key) == "" then None
                                else Some(Entry(Variable(key), if quoting.Double? then DecodeOnce(text) else text))
  {
    LineParts(line);
    ShownParts(quoting, text);
    CanonicalIs(Strip(line)[..FirstEquals(Strip(line))], key);
    if key[0] != '\U{FEFF}' {
      NameRead(key);
    }
    hide Strip, FirstEquals, DecodeTwice, DecodeOnce, Assigns, Shown, Quoted, Inner, Variable, Canonical, ConfigKey, ReadLine, LoadLine,
      IsKey, Showable;
  }

  lemma CanonicalIs(text: string, key: string)
    requires IsKey(key) && Strip(text) == key
    ensures Canonical(text) == Variable(key)
  {
    KeyStripped(key);
    hide Strip, RemovePrefix;
  }

  lemma ShownParts(quoting: Quoting, text: string)
    requires Showable(quoting, text)
    ensures var value := Shown(quoting, text);
            && Bare(value) && (Quoted(value, '"') <==> quoting.Double?) && (!quoting.Double? ==> (Quoted(value, '\'') <==> quoting.Single?))
            && (!quoting.Unquoted? ==> |value| >= 2 && Inner(value) == text)
  {
  }

  lemma NameRead(key: string)
    requires IsKey(key) && key[0] != '\U{FEFF}'
    ensures forall text | Strip(text) == key :: ConfigKey(text) == Variable(key)
  {
    MarksShorten(key);
    KeyStripped(key);
    hide Strip, StripMarks;
  }

  lemma KeyStripped(key: string)
    requires IsKey(key)
    ensures Strip(RemovePrefix(key, EXPORT)) == Variable(key)
    ensures EXPORT <= key <==> |key| >= 7 && key[..7] == "export "
  {
    StripFixed(key);
    hide Strip;
  }

  lemma {:induction false} LstripWithin(s: string)
    ensures forall c :: c in Lstrip(s) ==> c in s
  {
    if s != "" && Text.IsSpace(s[0]) {
      LstripWithin(s[1..]);
      assert forall c :: c in s[1..] ==> c in s;
    }
  }

  /** Comments, blank lines and lines without '=' mean nothing to either reader. */
  lemma OtherLines(line: string)
    requires Spaces(line) || '=' !in line
             || exists a, rest :: Spaces(a) && line == a + "#" + rest
    ensures ReadLine(line) == None && LoadLine(line) == None
  {
    if Spaces(line) {
      RstripSpaces(line);
    } else if '=' !in line {
      LstripWithin(Rstrip(line));
    } else {
      var a, rest :| Spaces(a) && line == a + "#" + rest;
      CommentStrips(a, rest);
    }
  }

  lemma CommentStrips(a: string, rest: string)
    requires Spaces(a)
    ensures Strip(a + "#" + rest) != "" && Strip(a + "#" + rest)[0] == '#'
  {
    RstripAppend(a + "#", rest);
    RstripAppend(a, "#");
    var kept := if Rstrip(rest) == "" then "#" else "#" + Rstrip(rest);
    assert Rstrip(a + "#" + rest) == a + kept by {
      assert a + "#" + Rstrip(rest) == a + ("#" + Rstrip(rest));
    }
    LstripSpaces(a, kept);
  }

  // ---------------------------------------------------------------- writing

  /** The escape sequences of the writer: a backslash before each backslash and each double quote. */
  lemma {:induction false} EscapeEach(value: string, rest: string)
    ensures Escape(value + rest) == Escape(value) + Escape(rest)
    ensures |value| == 1 ==> Escape(value) == if value[0] == '\\' || value[0] == '"' then ['\\'] + value else value
  {
    if value == "" {
      assert value + rest == rest;
    } else {
      assert (value + rest)[1..] == value[1..] + rest;
      EscapeEach(value[1..], rest);
      assert |value| == 1 ==> value[1..] == "" && value == [value[0]];
    }
  }

  /** Letters, digits and these marks need no quotes. */
  predicate NeedsNoQuotes(value: string) {
    value != "" && forall c | c in value :: 'a' <= c <= 'z' || 'A' <= c <= 'Z' || '0' <= c <= '9' || c in "_./,:*?=@+%-"
  }

  /** The line that the writer puts for a variable. */
  function Line(key: string, value: string): string {
    if NeedsNoQuotes(value) then key + "=" + value else key + "=\"" + Escape(value) + "\""
  }

  lemma LineFormatted(key: string, value: string)
    ensures FormatLine(key, value) == Line(key, value)
  {
    hide Escape;
    if !Plain(value) {
      assert key + "=" + ("\"" + Escape(value) + "\"") == key + "=\"" + Escape(value) + "\"";
    }
  }

  /** The line at `i` is the first that assigns the updated key. */
  predicate Updates(lines: seq<string>, updates: Env, key: string, i: nat) {
    i < |lines| && key in updates && FirstReads(lines, key) == i
  }

  /** What the writer puts in the place of a line: the update that it is the first line of, or the line itself. */
  ghost predicate Replaces(lines: seq<string>, updates: Env, i: nat, line: string) {
    && i < |lines|
    && (forall key | Updates(lines, updates, key, i) :: line == Line(key, updates[key]))
    && ((forall key :: !Updates(lines, updates, key, i)) ==> line == lines[i])
  }

  ghost predicate AllReplaced(lines: seq<string>, updates: Env, output: seq<string>) {
    |output| == |lines| && forall i :: 0 <= i < |lines| ==> Replaces(lines, updates, i, output[i])
  }

  /** The updates of keys that no line assigns. */
  predicate Unread(lines: seq<string>, updates: Env, key: string) {
    key in updates && FirstReads(lines, key) == |lines|
  }

  lemma OneMore(lines: seq<string>, updates: Env, key: string, i: nat)
    requires lines != []
    ensures var init := lines[..|lines| - 1];
            && (i < |init| ==> (Updates(lines, updates, key, i) <==> Updates(init, updates, key, i)))
            && (Updates(lines, updates, key, |init|) <==> Unread(init, updates, key) && Names(lines[|init|], key))
            && (Unread(lines, updates, key) <==> Unread(init, updates, key) && !Names(lines[|init|], key))
  {
    hide Names;
  }

  lemma {:induction false} RewriteLayout(lines: seq<string>, updates: Env)
    ensures AllReplaced(lines, updates, Rewrite(lines, updates).0)
    ensures var pending := Rewrite(lines, updates).1;
            && (forall key :: key in pending <==> Unread(lines, updates, key))
            && forall key | key in pending :: key in updates && pending[key] == updates[key]
  {
    if lines != [] {
      hide Line, Names, ReadLine, FormatLine, AllReplaced, Unread;
      RewriteLayout(lines[..|lines| - 1], updates);
      var (before, was) := Rewrite(lines[..|lines| - 1], updates);
      var (output, pending) := Rewrite(lines, updates);
      LastRewritten(lines, updates, before, was, output, pending);
    }
  }

  lemma LastRewritten(lines: seq<string>, updates: Env, before: seq<string>, was: Env, output: seq<string>, pending: Env)
    requires lines != [] && AllReplaced(lines[..|lines| - 1], updates, before)
    requires forall key :: key in was <==> Unread(lines[..|lines| - 1], updates, key)
    requires forall key | key in was :: key in updates && was[key] == updates[key]
    requires var e := ReadLine(lines[|lines| - 1]);
             if e.Some? && e.value.key in was
             then output == before + [FormatLine(e.value.key, was[e.value.key])] && pending == was - {e.value.key}
             else output == before + [lines[|lines| - 1]] && pending == was
    ensures AllReplaced(lines, updates, output)
    ensures forall key :: key in pending <==> Unread(lines, updates, key)
    ensures forall key | key in pending :: key in updates && pending[key] == updates[key]
  {
    hide Line, Names, ReadLine, FormatLine, Replaces;
    var last := |lines| - 1;
    assert forall key | key in was :: key in updates;
    LastPending(lines, updates, was, pending);
    LastLine(lines, updates, was, output[last]);
    hide Unread;
    forall i | 0 <= i < |lines| ensures Replaces(lines, updates, i, output[i]) {
      if i < last {
        EarlierLine(lines, updates, i, before[i]);
      }
    }
  }

  lemma EarlierLine(lines: seq<string>, updates: Env, i: nat, line: string)
    requires i < |lines| - 1 && Replaces(lines[..|lines| - 1], updates, i, line)
    ensures Replaces(lines, updates, i, line)
  {
    var init := lines[..|lines| - 1];
    hide Line;
    forall key: string ensures Updates(lines, updates, key, i) <==> Updates(init, updates, key, i) {
      OneMore(lines, updates, key, i);
    }
    hide Updates;
  }

  lemma LastLine(lines: seq<string>, updates: Env, was: Env, line: string)
    requires lines != []
    requires forall key :: key in was <==> Unread(lines[..|lines| - 1], updates, key)
    requires forall key | key in was :: key in updates && was[key] == updates[key]
    requires var e := ReadLine(lines[|lines| - 1]);
             line == if e.Some? && e.value.key in was then FormatLine(e.value.key, was[e.value.key]) else lines[|lines| - 1]
    ensures Replaces(lines, updates, |lines| - 1, line)
  {
    forall key: string
      ensures Updates(lines, updates, key, |lines| - 1) <==> key in was && Names(lines[|lines| - 1], key)
    {
      OneMore(lines, updates, key, 0);
    }
    hide Updates, ReadLine, FormatLine, Line, Unread, FirstReads;
    var e, last: nat := ReadLine(lines[|lines| - 1]), |lines| - 1;
    if e.Some? && e.value.key in was {
      LineFormatted(e.value.key, was[e.value.key]);
      assert Updates(lines, updates, e.value.key, last);
      assert forall key | Updates(lines, updates, key, last) :: key == e.value.key;
    } else {
      assert forall key :: !Updates(lines, updates, key, last);
    }
  }

  lemma LastPending(lines: seq<string>, updates: Env, was: Env, pending: Env)
    requires lines != []
    requires forall key :: key in was <==> Unread(lines[..|lines| - 1], updates, key)
    requires var e := ReadLine(lines[|lines| - 1]); pending == if e.Some? && e.value.key in was then was - {e.value.key} else was
    ensures forall key :: key in pending <==> Unread(lines, updates, key)
  {
    forall key: string
      ensures Unread(lines, updates, key) <==> key in was && !Names(lines[|lines| - 1], key)
    {
      OneMore(lines, updates, key, 0);
    }
    hide ReadLine, Unread;
  }

  /** The lines of the updates that no line assigned, in the order in which they were given. */
  function Appended(lines: seq<string>, updates: Env, order: seq<string>): seq<string> {
    if order == [] then []
    else
      Appended(lines, updates, order[..|order| - 1])
      + if Unread(lines, updates, order[|order| - 1]) then [Line(order[|order| - 1], updates[order[|order| - 1]])] else []
  }

  lemma {:induction false} NewLinesAppended(lines: seq<string>, updates: Env, pending: Env, order: seq<string>)
    requires forall key :: key in pending <==> Unread(lines, updates, key)
    requires forall key | key in pending :: key in updates && pending[key] == updates[key]
    ensures NewLines(order, pending) == Appended(lines, updates, order)
  {
    hide Unread, Line, FormatLine;
    if order != [] {
      NewLinesAppended(lines, updates, pending, order[..|order| - 1]);
      var key := order[|order| - 1];
      if key in pending {
        LineFormatted(key, pending[key]);
      }
    }
  }

  /**
   An update replaces the first line of each updated key, keeps every other line as it is and in its place, and
   appends a line for each key that none assigned, after a blank line where the last one was not blank.
   */
  lemma WrittenLayout(lines: seq<string>, updates: Env, order: seq<string>)
    requires forall key | key in updates :: key in order
    ensures var written := Written(lines, updates, order);
            && |written| >= |lines|
            && (forall i :: 0 <= i < |lines| ==> Replaces(lines, updates, i, written[i]))
            && written[|lines|..] == if forall key :: !Unread(lines, updates, key) then []
                                     else (if lines != [] && written[|lines| - 1] != "" then [""] else [])
                                          + Appended(lines, updates, order)
  {
    RewriteLayout(lines, updates);
    var output, pending := Rewrite(lines, updates).0, Rewrite(lines, updates).1;
    NewLinesAppended(lines, updates, pending, order);
    hide Rewrite, Replaces, Unread, NewLines, Appended, Line;
    if pending == map[] {
      assert forall key :: !Unread(lines, updates, key);
    } else {
      var key :| key in pending;
      assert Unread(lines, updates, key);
      TailAfter(output, if output != [] && output[|output| - 1] != "" then [""] else [], Appended(lines, updates, order));
    }
  }

  lemma TailAfter(output: seq<string>, blank: seq<string>, more: seq<string>)
    ensures output + blank + more == output + (blank + more) && (output + (blank + more))[|output|..] == blank + more
    ensures output + [] == output && [] + more == more
  {
  }
}
