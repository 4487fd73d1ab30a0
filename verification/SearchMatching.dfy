/**
 Fuzzy matching of the searchable selects (app/static/searchable-select.js, isSubsequence and
 editSimilarity).
 */
module SearchMatching {

  // ---------------------------------------------------------------- subsequence

  /** `at[k]` is the place in `haystack` of the needle's character k; places increase. */
  ghost predicate Embeds(needle: string, haystack: string, at: seq<nat>) {
    && |at| == |needle|
    && (forall k :: 0 <= k < |at| ==> at[k] < |haystack| && haystack[at[k]] == needle[k])
    && (forall j, k :: 0 <= j < k < |at| ==> at[j] < at[k])
  }

  ghost predicate IsEmbedded(needle: string, haystack: string) {
    exists at :: Embeds(needle, haystack, at)
  }

  /** Without its last character the needle embeds before the place of that character. */
  lemma EmbedsShorter(needle: string, haystack: string, at: seq<nat>, i: nat)
    requires needle != [] && Embeds(needle, haystack, at) && at[|at| - 1] <= i <= |haystack|
    ensures Embeds(needle[..|needle| - 1], haystack[..i], at[..|at| - 1])
  {
  }

  lemma EmbedsMatch(needle: string, haystack: string, index: nat, i: nat)
    requires index < |needle| && i < |haystack| && haystack[i] == needle[index]
    requires IsEmbedded(needle[..index], haystack[..i])
    ensures IsEmbedded(needle[..index + 1], haystack[..i + 1])
  {
    var at :| Embeds(needle[..index], haystack[..i], at);
    assert Embeds(needle[..index + 1], haystack[..i + 1], at + [i]);
  }

  /** An embedding of one more character in one more place contains one of the shorter texts. */
  lemma OneEarlier(needle: string, haystack: string, index: nat, i: nat)
    requires index + 1 < |needle| && i < |haystack|
    requires IsEmbedded(needle[..index + 2], haystack[..i + 1])
    ensures IsEmbedded(needle[..index + 1], haystack[..i])
  {
    var at :| Embeds(needle[..index + 2], haystack[..i + 1], at);
    EmbedsShorter(needle[..index + 2], haystack[..i + 1], at, i);
    assert needle[..index + 2][..index + 1] == needle[..index + 1] && haystack[..i + 1][..i] == haystack[..i];
  }

  lemma PlacedEarlier(needle: string, haystack: string, index: nat, i: nat)
    requires index < |needle| && i < |haystack| && haystack[i] != needle[index]
    requires IsEmbedded(needle[..index + 1], haystack[..i + 1])
    ensures IsEmbedded(needle[..index + 1], haystack[..i])
  {
    var at :| Embeds(needle[..index + 1], haystack[..i + 1], at);
    assert at[index] != i;
    assert Embeds(needle[..index + 1], haystack[..i], at);
  }

  lemma EmbedsWithin(needle: string, haystack: string, i: nat)
    requires i <= |haystack| && IsEmbedded(needle, haystack[..i])
    ensures IsEmbedded(needle, haystack)
  {
    var at :| Embeds(needle, haystack[..i], at);
    assert Embeds(needle, haystack, at);
  }

  lemma EmptyEmbeds(haystack: string)
    ensures IsEmbedded("", haystack)
  {
    assert Embeds("", haystack, []);
  }

  /** The greedy scan answers whether an order-preserving embedding exists. */
  method IsSubsequence(needle: string, haystack: string) returns (found: bool)
    ensures found <==> IsEmbedded(needle, haystack)
  {
    hide IsEmbedded;
    EmptyEmbeds(haystack);
    if needle == "" {
      return true;
    }
    var index := 0;
    EmptyEmbeds(haystack[..0]);
    assert needle[..0] == "";
    NothingInEmpty(needle[..1]);
    for i := 0 to |haystack|
      invariant 0 <= index < |needle|
      invariant IsEmbedded(needle[..index], haystack[..i])
      invariant !IsEmbedded(needle[..index + 1], haystack[..i])
    {
      if haystack[i] == needle[index] {
        EmbedsMatch(needle, haystack, index, i);
        if index + 1 < |needle| && IsEmbedded(needle[..index + 2], haystack[..i + 1]) {
          OneEarlier(needle, haystack, index, i);
        }
        index := index + 1;
      } else {
        if IsEmbedded(needle[..index + 1], haystack[..i + 1]) {
          PlacedEarlier(needle, haystack, index, i);
        }
        StillEmbedded(needle[..index], haystack, i);
      }
      if index == |needle| {
        assert needle[..index] == needle;
        EmbedsWithin(needle, haystack, i + 1);
        return true;
      }
    }
    assert haystack[..|haystack|] == haystack;
    if IsEmbedded(needle, haystack) {
      PrefixEmbeds(needle, haystack, index + 1);
    }
    return false;
  }

  lemma NothingInEmpty(needle: string)
    requires needle != ""
    ensures !IsEmbedded(needle, "")
  {
    forall at ensures !Embeds(needle, "", at) {
      if |at| == |needle| {
        assert !(at[0] < |""|);
      }
    }
  }

  lemma StillEmbedded(needle: string, haystack: string, i: nat)
    requires i < |haystack| && IsEmbedded(needle, haystack[..i])
    ensures IsEmbedded(needle, haystack[..i + 1])
  {
    assert haystack[..i + 1][..i] == haystack[..i];
    EmbedsWithin(needle, haystack[..i + 1], i);
  }

  lemma PrefixEmbeds(needle: string, haystack: string, k: nat)
    requires k <= |needle| && IsEmbedded(needle, haystack)
    ensures IsEmbedded(needle[..k], haystack)
  {
    var at :| Embeds(needle, haystack, at);
    assert Embeds(needle[..k], haystack, at[..k]);
  }

  // ---------------------------------------------------------------- edit scripts

  datatype Edit = Keep(c: char) | Substitute(from: char, to: char) | Insert(c: char) | Delete(c: char)

  /** The text a script reads and the text it writes. */
  function Before(script: seq<Edit>): string {
    if script == [] then ""
    else
      match script[|script| - 1]
      case Insert(_) => Before(script[..|script| - 1])
      case Keep(c) => Before(script[..|script| - 1]) + [c]
      case Substitute(c, _) => Before(script[..|script| - 1]) + [c]
      case Delete(c) => Before(script[..|script| - 1]) + [c]
  }

  function After(script: seq<Edit>): string {
    if script == [] then ""
    else
      match script[|script| - 1]
      case Delete(_) => After(script[..|script| - 1])
      case Keep(c) => After(script[..|script| - 1]) + [c]
      case Substitute(_, c) => After(script[..|script| - 1]) + [c]
      case Insert(c) => After(script[..|script| - 1]) + [c]
  }

  function Cost(script: seq<Edit>): nat {
    if script == [] then 0
    else Cost(script[..|script| - 1]) + (if script[|script| - 1].Keep? then 0 else 1)
  }

  predicate Turns(script: seq<Edit>, a: string, b: string) {
    Before(script) == a && After(script) == b
  }

  /** The recursive edit distance. */
  function Distance(a: string, b: string): nat
    decreases |a| + |b|
  {
    if a == "" then |b|
    else if b == "" then |a|
    else Cheapest(a, b, Distance(a, Init(b)), Distance(Init(a), b), Distance(Init(a), Init(b)))
  }

  function Init(s: string): string
    requires s != ""
  {
    s[..|s| - 1]
  }

  function Last(s: string): char
    requires s != ""
  {
    s[|s| - 1]
  }

  function Min(x: int, y: int): int {
    if x <= y then x else y
  }

  /** One cell of the table, from its left, upper and upper-left neighbours. */
  function Cheapest(a: string, b: string, left: nat, up: nat, corner: nat): nat
    requires a != "" && b != ""
  {
    Min(Min(left + 1, up + 1), corner + (if Last(a) == Last(b) then 0 else 1))
  }

  lemma AppendEdit(script: seq<Edit>, e: Edit)
    ensures (script + [e])[..|script|] == script && (script + [e])[|script|] == e
  {
  }

  function Deletions(a: string): seq<Edit> {
    if a == "" then [] else Deletions(Init(a)) + [Delete(Last(a))]
  }

  function Insertions(b: string): seq<Edit> {
    if b == "" then [] else Insertions(Init(b)) + [Insert(Last(b))]
  }

  lemma {:induction false} DeletionsTurn(a: string)
    ensures Turns(Deletions(a), a, "") && Cost(Deletions(a)) == |a|
  {
    if a != "" {
      DeletionsTurn(Init(a));
      AppendEdit(Deletions(Init(a)), Delete(Last(a)));
    }
  }

  lemma {:induction false} InsertionsTurn(b: string)
    ensures Turns(Insertions(b), "", b) && Cost(Insertions(b)) == |b|
  {
    if b != "" {
      InsertionsTurn(Init(b));
      AppendEdit(Insertions(Init(b)), Insert(Last(b)));
    }
  }

  /** The text read, the text written and the cost of a script with one more edit. */
  lemma Extended(script: seq<Edit>, e: Edit)
    ensures Before(script + [e]) == Before(script) + (if e.Insert? then "" else [if e.Substitute? then e.from else e.c])
    ensures After(script + [e]) == After(script) + (if e.Delete? then "" else [if e.Substitute? then e.to else e.c])
    ensures Cost(script + [e]) == Cost(script) + (if e.Keep? then 0 else 1)
  {
    AppendEdit(script, e);
  }

  /** A script of the distance's cost. */
  lemma {:induction false} Attained(a: string, b: string) returns (script: seq<Edit>)
    ensures Turns(script, a, b) && Cost(script) == Distance(a, b)
    decreases |a| + |b|
  {
    if a == "" {
      InsertionsTurn(b);
      script := Insertions(b);
    } else if b == "" {
      DeletionsTurn(a);
      script := Deletions(a);
    } else {
      hide Before, After, Cost;
      assert a == Init(a) + [Last(a)] && b == Init(b) + [Last(b)];
      var left, up, corner := Distance(a, Init(b)), Distance(Init(a), b), Distance(Init(a), Init(b));
      if Distance(a, b) == left + 1 {
        script := Attained(a, Init(b));
        Extended(script, Insert(Last(b)));
        script := script + [Insert(Last(b))];
      } else if Distance(a, b) == up + 1 {
        script := Attained(Init(a), b);
        Extended(script, Delete(Last(a)));
        script := script + [Delete(Last(a))];
      } else {
        script := Attained(Init(a), Init(b));
        var e := if Last(a) == Last(b) then Keep(Last(a)) else Substitute(Last(a), Last(b));
        Extended(script, e);
        script := script + [e];
      }
    }
  }

  /** No script is cheaper than the distance. */
  lemma {:induction false} NoCheaper(script: seq<Edit>)
    ensures Distance(Before(script), After(script)) <= Cost(script)
  {
    if script != [] {
      var shorter, e := script[..|script| - 1], script[|script| - 1];
      NoCheaper(shorter);
      var a, b := Before(shorter), After(shorter);
      match e {
        case Insert(c) => OneMore(a, b, c);
        case Delete(c) => OneLess(a, b, c);
        case Keep(c) => OneEach(a, b, c, c);
        case Substitute(c, d) => OneEach(a, b, c, d);
      }
      hide Distance;
    }
  }

  lemma OneEach(a: string, b: string, c: char, d: char)
    ensures Distance(a + [c], b + [d]) <= Distance(a, b) + (if c == d then 0 else 1)
  {
    assert Init(a + [c]) == a && Init(b + [d]) == b;
  }

  lemma OneMore(a: string, b: string, c: char)
    ensures Distance(a, b + [c]) <= Distance(a, b) + 1
  {
    assert Init(b + [c]) == b;
    if a != "" {
      assert Distance(a, b + [c]) <= Distance(a, Init(b + [c])) + 1;
    }
  }

  lemma OneLess(a: string, b: string, c: char)
    ensures Distance(a + [c], b) <= Distance(a, b) + 1
  {
    assert Init(a + [c]) == a;
    if b != "" {
      assert Distance(a + [c], b) <= Distance(Init(a + [c]), b) + 1;
    }
  }

  /** The distance is the least cost of any script that turns `a` into `b`. */
  lemma DistanceIsLeastCost(a: string, b: string)
    ensures exists script :: Turns(script, a, b) && Cost(script) == Distance(a, b)
    ensures forall script | Turns(script, a, b) :: Distance(a, b) <= Cost(script)
  {
    var script := Attained(a, b);
    forall other | Turns(other, a, b) ensures Distance(a, b) <= Cost(other) {
      NoCheaper(other);
    }
  }

  lemma {:induction false} DistanceSymmetric(a: string, b: string)
    ensures Distance(a, b) == Distance(b, a)
    decreases |a| + |b|
  {
    if a != "" && b != "" {
      DistanceSymmetric(Init(a), b);
      DistanceSymmetric(a, Init(b));
      DistanceSymmetric(Init(a), Init(b));
    }
  }

  lemma {:induction false} DistanceBounds(a: string, b: string)
    ensures Distance(a, b) <= (if |a| >= |b| then |a| else |b|)
    ensures Distance(a, b) == 0 <==> a == b
    decreases |a| + |b|
  {
    if a != "" && b != "" {
      DistanceBounds(Init(a), Init(b));
      assert a == Init(a) + [Last(a)] && b == Init(b) + [Last(b)];
    }
  }

  // ---------------------------------------------------------------- the rolling rows

  function Similarity(a: string, b: string): real {
    if a == "" && b == "" then 1.0
    else if a == "" || b == "" then 0.0
    else 1.0 - Distance(a, b) as real / (if |a| >= |b| then |a| else |b|) as real
  }

  lemma SimilarityBounds(a: string, b: string)
    ensures Similarity(a, b) == Similarity(b, a)
    ensures 0.0 <= Similarity(a, b) <= 1.0
    ensures Similarity(a, b) == 1.0 <==> a == b
  {
    DistanceSymmetric(a, b);
    DistanceBounds(a, b);
    if a != "" && b != "" {
      var n := if |a| >= |b| then |a| else |b|;
      Fraction(Distance(a, b), n);
    }
  }

  /** The similarity is the share of the longer text that the cheapest script leaves, whatever the script. */
  lemma SimilarityExactly(a: string, b: string, script: seq<Edit>)
    requires Turns(script, a, b) && forall other | Turns(other, a, b) :: Cost(script) <= Cost(other)
    requires a != "" || b != ""
    ensures var longer := if |a| >= |b| then |a| else |b|;
            Similarity(a, b) * longer as real == longer as real - Cost(script) as real
  {
    LeastIsDistance(a, b, script);
    hide Turns, Cost, Distance, Similarity;
    if a != "" && b != "" {
      BothTexts(a, b);
    } else {
      OneEmpty(a, b);
    }
  }

  lemma BothTexts(a: string, b: string)
    requires a != "" && b != ""
    ensures var longer := if |a| >= |b| then |a| else |b|;
            Similarity(a, b) * longer as real == longer as real - Distance(a, b) as real
  {
    hide Distance;
    Share(Distance(a, b) as real, (if |a| >= |b| then |a| else |b|) as real);
  }

  lemma LeastIsDistance(a: string, b: string, script: seq<Edit>)
    requires Turns(script, a, b) && forall other | Turns(other, a, b) :: Cost(script) <= Cost(other)
    ensures Cost(script) == Distance(a, b)
  {
    DistanceIsLeastCost(a, b);
    hide Turns, Cost, Distance;
  }

  lemma Share(d: real, n: real)
    requires n > 0.0
    ensures (1.0 - d / n) * n == n - d
  {
    var q := d / n;
    assert q * n == d;
  }

  lemma OneEmpty(a: string, b: string)
    requires (a == "") != (b == "")
    ensures var longer := if |a| >= |b| then |a| else |b|;
            Similarity(a, b) * longer as real == longer as real - Distance(a, b) as real
  {
  }

  lemma Fraction(d: nat, n: nat)
    requires d <= n && n > 0
    ensures 0.0 <= d as real / n as real <= 1.0
    ensures d as real / n as real == 0.0 <==> d == 0
  {
    var q := d as real / n as real;
    assert q * n as real == d as real;
  }

  lemma Cell(a: string, b: string, i: nat, j: nat)
    requires 1 <= i <= |a| && 1 <= j <= |b|
    ensures Distance(a[..i], b[..j])
            == Min(Min(Distance(a[..i], b[..j - 1]) + 1, Distance(a[..i - 1], b[..j]) + 1),
                   Distance(a[..i - 1], b[..j - 1]) + (if a[i - 1] == b[j - 1] then 0 else 1))
  {
    hide Distance, Init, Last;
    Shorter(a, i);
    Shorter(b, j);
    DistanceCell(a[..i], b[..j]);
  }

  lemma Shorter(s: string, i: nat)
    requires 1 <= i <= |s|
    ensures s[..i] != "" && Init(s[..i]) == s[..i - 1] && Last(s[..i]) == s[i - 1]
  {
  }

  lemma DistanceCell(a: string, b: string)
    requires a != "" && b != ""
    ensures Distance(a, b) == Cheapest(a, b, Distance(a, Init(b)), Distance(Init(a), b), Distance(Init(a), Init(b)))
  {
  }

  /** The row of the table for the first `i` characters of `a`, up to column `upTo`. */
  ghost predicate IsRow(row: seq<nat>, a: string, b: string, upTo: nat) {
    upTo <= |row| && upTo <= |b| + 1 && forall j :: 0 <= j < upTo ==> row[j] == Distance(a, b[..j])
  }

  lemma FirstRow(row: seq<nat>, a: string, b: string)
    requires |row| == |b| + 1 && forall j :: 0 <= j <= |b| ==> row[j] == j
    ensures IsRow(row, a[..0], b, |b| + 1)
  {
  }

  lemma FirstCell(row: seq<nat>, a: string, b: string, i: nat)
    requires row != [] && i <= |a| && row[0] == i
    ensures IsRow(row, a[..i], b, 1)
  {
  }

  lemma NextCell(upper: seq<nat>, row: seq<nat>, next: seq<nat>, a: string, b: string, i: nat, j: nat)
    requires 1 <= i <= |a| && 1 <= j <= |b| && |row| == |b| + 1
    requires IsRow(upper, a[..i - 1], b, |b| + 1) && IsRow(row, a[..i], b, j)
    requires next == row[j := Min(Min(row[j - 1] + 1, upper[j] + 1), upper[j - 1] + (if a[i - 1] == b[j - 1] then 0 else 1))]
    ensures IsRow(next, a[..i], b, j + 1)
  {
    hide Distance;
    Cell(a, b, i, j);
    forall k | 0 <= k < j + 1 ensures next[k] == Distance(a[..i], b[..k]) {
      assert k == j || next[k] == row[k];
    }
  }

  /** Two rows, overwritten in place, compute the distance of the whole strings. */
  method EditSimilarity(a: string, b: string) returns (r: real)
    ensures r == Similarity(a, b)
  {
    if a == "" && b == "" {
      return 1.0;
    }
    if a == "" || b == "" {
      return 0.0;
    }
    hide IsRow, Distance;
    var previous := new nat[|b| + 1](index => index);
    var current := new nat[|b| + 1];
    FirstRow(previous[..], a, b);
    for i := 1 to |a| + 1
      invariant IsRow(previous[..], a[..i - 1], b, |b| + 1)
    {
      current[0] := i;
      FirstCell(current[..], a, b, i);
      for j := 1 to |b| + 1
        invariant IsRow(previous[..], a[..i - 1], b, |b| + 1) && IsRow(current[..], a[..i], b, j)
      {
        var cost := if a[i - 1] == b[j - 1] then 0 else 1;
        ghost var row := current[..];
        current[j] := Min(Min(current[j - 1] + 1, previous[j] + 1), previous[j - 1] + cost);
        NextCell(previous[..], row, current[..], a, b, i, j);
      }
      forall j | 0 <= j <= |b| {
        previous[j] := current[j];
      }
      assert previous[..] == current[..];
    }
    assert a[..|a|] == a;
    LastCell(previous[..], a, b);
    r := 1.0 - previous[|b|] as real / (if |a| >= |b| then |a| else |b|) as real;
  }

  lemma LastCell(row: seq<nat>, a: string, b: string)
    requires IsRow(row, a, b, |b| + 1)
    ensures row[|b|] == Distance(a, b)
  {
    assert b[..|b|] == b;
  }
}
