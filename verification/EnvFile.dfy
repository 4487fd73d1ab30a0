/** The .env writer of deploy.py and its two readers, deploy.py's own and the one in app/config.py. */
module EnvFile {
  import opened Records
  import Text

  // ---------------------------------------------------------------- stripping

  function Rstrip(s: string): (r: string)
    ensures r <= s
    ensures r == "" || !Text.IsSpace(r[|r| - 1])
  {
    if s == "" || !Text.IsSpace(s[|s| - 1]) then s else Rstrip(s[..|s| - 1])
  }

  function Lstrip(s: string): string {
    if s == "" || !Text.IsSpace(s[0]) then s else Lstrip(s[1..])
  }

  function Strip(s: string): string {
    Lstrip(Rstrip(s))
  }

  const EXPORT := "export "

  function RemovePrefix(s: string, prefix: string): string {
    if prefix <= s then s[|prefix|..] else s
  }

  // ---------------------------------------------------------------- quoting

  predicate PlainChar(c: char) {
    'A' <= c <= 'Z' || 'a' <= c <= 'z' || '0' <= c <= '9' || c in "_./,:*?=@+%-"
  }

  predicate Plain(value: string) {
    value != "" && forall i :: 0 <= i < |value| ==> PlainChar(value[i])
  }

  function Escape(value: string): string {
    if value == "" then ""
    else (if value[0] == '\\' || value[0] == '"' then ['\\', value[0]] else [value[0]]) + Escape(value[1..])
  }

  function Format(value: string): string {
    if Plain(value) then value else "\"" + Escape(value) + "\""
  }

  /** Every non-overlapping "pq", from the left, becomes `r`. */
  function ReplacePair(s: string, p: char, q: char, r: char): string
    decreases |s|
  {
    if |s| < 2 then s
    else if s[0] == p && s[1] == q then [r] + ReplacePair(s[2..], p, q, r)
    else [s[0]] + ReplacePair(s[1..], p, q, r)
  }

  /** The decoder of deploy.py: two replacements, one after the other. */
  function DecodeTwice(s: string): string {
    ReplacePair(ReplacePair(s, '\\', '"', '"'), '\\', '\\', '\\')
  }

  /** The decoder of app/config.py: one pass over both escapes. */
  function DecodeOnce(s: string): string
    decreases |s|
  {
    if |s| < 2 then s
    else if s[0] == '\\' && (s[1] == '"' || s[1] == '\\') then [s[1]] + DecodeOnce(s[2..])
    else [s[0]] + DecodeOnce(s[1..])
  }

  function Doubled(value: string): string {
    if value == "" then "" else (if value[0] == '\\' then "\\\\" else [value[0]]) + Doubled(value[1..])
  }

  lemma {:induction false} QuotesFirst(value: string)
    ensures ReplacePair(Escape(value), '\\', '"', '"') == Doubled(value)
    decreases |value|
  {
    if value != "" {
      QuotesFirst(value[1..]);
      var rest := Escape(value[1..]);
      assert rest != "" ==> rest[0] != '"';
      var s := Escape(value);
      if value[0] == '\\' {
        assert s == ['\\', '\\'] + rest;
        assert s[1..] == ['\\'] + rest;
        assert s[1..][1..] == rest;
      } else if value[0] == '"' {
        assert s == ['\\', '"'] + rest;
        assert s[2..] == rest;
      } else {
        assert s == [value[0]] + rest;
        assert s[1..] == rest;
      }
    }
  }

  lemma {:induction false} BackslashesNext(value: string)
    ensures ReplacePair(Doubled(value), '\\', '\\', '\\') == value
    decreases |value|
  {
    if value != "" {
      BackslashesNext(value[1..]);
      var rest, s := Doubled(value[1..]), Doubled(value);
      if value[0] == '\\' {
        assert s == ['\\', '\\'] + rest;
        assert s[2..] == rest;
      } else {
        assert s == [value[0]] + rest;
        assert s[1..] == rest;
      }
    }
  }

  /** Both decoders undo the writer's escaping, on every value. */
  lemma {:induction false} DecodersInvert(value: string)
    ensures DecodeTwice(Escape(value)) == value
    ensures DecodeOnce(Escape(value)) == value
    decreases |value|
  {
    QuotesFirst(value);
    BackslashesNext(value);
    if value != "" {
      DecodersInvert(value[1..]);
      var rest, s := Escape(value[1..]), Escape(value);
      if value[0] == '\\' || value[0] == '"' {
        assert s == ['\\', value[0]] + rest;
        assert s[2..] == rest;
      } else {
        assert s == [value[0]] + rest;
        assert s[1..] == rest;
      }
    }
  }

  // ---------------------------------------------------------------- lines

  datatype Entry = Entry(key: string, value: string)

  /** The place of the first '=', or the length. */
  function FirstEquals(s: string): (i: nat)
    ensures i <= |s| && (i < |s| ==> s[i] == '=') && forall k :: 0 <= k < i ==> s[k] != '='
  {
    if s == "" || s[0] == '=' then 0 else 1 + FirstEquals(s[1..])
  }

  predicate Assigns(line: string) {
    var stripped := Strip(line);
    stripped != "" && stripped[0] != '#' && '=' in stripped
  }

  predicate Quoted(value: string, mark: char) {
    |value| >= 2 && value[0] == value[|value| - 1] == mark
  }

  function Inner(value: string): string
    requires |value| >= 2
  {
    value[1..|value| - 1]
  }

  function Canonical(key: string): string {
    Strip(RemovePrefix(Strip(key), EXPORT))
  }

  /** What deploy.py reads from a line. */
  function ReadLine(line: string): Option<Entry> {
    if !Assigns(line) then None
    else
      var stripped := Strip(line);
      var at := FirstEquals(stripped);
      assert at < |stripped|;
      var value := Strip(stripped[at + 1..]);
      Some(Entry(Canonical(stripped[..at]),
                 if Quoted(value, '"') then DecodeTwice(Inner(value))
                 else if Quoted(value, '\'') then Inner(value) else value))
  }

  function StripMarks(s: string): string {
    if s != "" && s[0] == '\U{FEFF}' then StripMarks(s[1..]) else s
  }

  function ConfigKey(key: string): string {
    var stripped := StripMarks(Strip(key));
    if EXPORT <= stripped then Strip(stripped[|EXPORT|..]) else stripped
  }

  /** What app/config.py reads from a line. */
  function LoadLine(line: string): Option<Entry> {
    if !Assigns(line) then None
    else
      var stripped := Strip(line);
      var at := FirstEquals(stripped);
      assert at < |stripped|;
      var key := ConfigKey(stripped[..at]);
      var value := Strip(stripped[at + 1..]);
      if key == "" then None
      else
        Some(Entry(key,
                   if Quoted(value, '"') then DecodeOnce(Inner(value))
                   else if Quoted(value, '\'') then Inner(value) else value))
  }

  type Env = map<string, string>

  /** deploy.py keeps the last value of a key. */
  function Read(lines: seq<string>): Env {
    if lines == [] then map[]
    else
      var before := Read(lines[..|lines| - 1]);
      match ReadLine(lines[|lines| - 1])
      case None => before
      case Some(e) => before[e.key := e.value]
  }

  /** app/config.py keeps the first value of a key, and the environment's own value before that. */
  function Load(env: Env, lines: seq<string>): Env {
    if lines == [] then env
    else
      var before := Load(env, lines[..|lines| - 1]);
      match LoadLine(lines[|lines| - 1])
      case None => before
      case Some(e) => if e.key in before then before else before[e.key := e.value]
  }

  method ReadEnv(lines: seq<string>) returns (values: Env)
    ensures values == Read(lines)
  {
    values := map[];
    for i := 0 to |lines|
      invariant values == Read(lines[..i])
    {
      assert lines[..i + 1][..i] == lines[..i];
      var e := ReadLine(lines[i]);
      if e.Some? {
        values := values[e.value.key := e.value.value];
      }
    }
    assert lines[..|lines|] == lines;
  }

  /** The process environment. */
  class Environment {
    var variables: Env

    constructor (initial: Env)
      ensures variables == initial
    {
      variables := initial;
    }

    method SetDefault(key: string, value: string)
      modifies this
      ensures variables == if key in old(variables) then old(variables) else old(variables)[key := value]
    {
      if key !in variables {
        variables := variables[key := value];
      }
    }

    method LoadEnvFile(lines: seq<string>)
      modifies this
      ensures variables == Load(old(variables), lines)
    {
      for i := 0 to |lines|
        invariant variables == Load(old(variables), lines[..i])
      {
        assert lines[..i + 1][..i] == lines[..i];
        var e := LoadLine(lines[i]);
        if e.Some? {
          SetDefault(e.value.key, e.value.value);
        }
      }
      assert lines[..|lines|] == lines;
    }
  }

  // ---------------------------------------------------------------- writing

  function FormatLine(key: string, value: string): string {
    key + "=" + Format(value)
  }

  /** The rewritten lines, and the updates that no line took. Only the first line of a key is rewritten. */
  function Rewrite(lines: seq<string>, updates: Env): (r: (seq<string>, Env))
    ensures |r.0| == |lines|
  {
    if lines == [] then ([], updates)
    else
      var (output, pending) := Rewrite(lines[..|lines| - 1], updates);
      var line := lines[|lines| - 1];
      var e := ReadLine(line);
      if e.Some? && e.value.key in pending
      then (output + [FormatLine(e.value.key, pending[e.value.key])], pending - {e.value.key})
      else (output + [line], pending)
  }

  function NewLines(order: seq<string>, pending: Env): seq<string> {
    if order == [] then []
    else
      var before := NewLines(order[..|order| - 1], pending);
      var key := order[|order| - 1];
      if key in pending then before + [FormatLine(key, pending[key])] else before
  }

  /** All lines after an update; `order` is the order in which the updates were given. */
  function Written(lines: seq<string>, updates: Env, order: seq<string>): seq<string> {
    var (output, pending) := Rewrite(lines, updates);
    if pending == map[] then output
    else (if output != [] && output[|output| - 1] != "" then output + [""] else output) + NewLines(order, pending)
  }

  function Join(lines: seq<string>): string {
    if lines == [] then ""
    else if |lines| == 1 then lines[0]
    else Join(lines[..|lines| - 1]) + "\n" + lines[|lines| - 1]
  }

  method WriteEnv(lines: seq<string>, updates: Env, order: seq<string>) returns (text: string)
    requires forall k | k in updates :: k in order
    ensures text == Rstrip(Join(Written(lines, updates, order))) + "\n"
  {
    var pending := updates;
    var output: seq<string> := [];
    for i := 0 to |lines|
      invariant (output, pending) == Rewrite(lines[..i], updates)
    {
      assert lines[..i + 1][..i] == lines[..i];
      var e := ReadLine(lines[i]);
      if e.Some? && e.value.key in pending {
        output := output + [FormatLine(e.value.key, pending[e.value.key])];
        pending := pending - {e.value.key};
      } else {
        output := output + [lines[i]];
      }
    }
    assert lines[..|lines|] == lines;
    if pending != map[] {
      if output != [] && output[|output| - 1] != "" {
        output := output + [""];
      }
      ghost var start := output;
      for i := 0 to |order|
        invariant output == start + NewLines(order[..i], pending)
      {
        assert order[..i + 1][..i] == order[..i];
        if order[i] in pending {
          output := output + [FormatLine(order[i], pending[order[i]])];
        }
      }
      assert order[..|order|] == order;
    }
    text := Rstrip(Join(output)) + "\n";
  }
}
