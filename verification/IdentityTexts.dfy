/** What it means that an event item names a product's identity: the same words, whatever the case and spacing. */
module IdentityTexts {
  import opened Records
  import opened NetworkDb
  import opened NetworkIngest
  import opened Text

  /** The casefolded words of a text. */
  function WordList(s: string): (words: seq<string>)
    ensures s != "" && !IsSpace(s[0]) ==> words != []
  {
    if s == "" then []
    else if IsSpace(s[0]) then WordList(s[1..])
    else
      var rest := WordList(s[1..]);
      if |s| == 1 || IsSpace(s[1]) then [[Fold(s[0])]] + rest else [[Fold(s[0])] + rest[0]] + rest[1..]
  }

  function Spaced(words: seq<string>): string {
    if words == [] then "" else if |words| == 1 then words[0] else words[0] + " " + Spaced(words[1..])
  }

  function AfterGap(words: seq<string>): string {
    if words == [] then "" else " " + Spaced(words)
  }

  lemma NewWord(c: char, words: seq<string>)
    ensures Spaced([[c]] + words) == [c] + AfterGap(words)
  {
    HeadOf([c], words);
  }

  lemma LongerWord(c: char, words: seq<string>)
    requires words != []
    ensures Spaced([[c] + words[0]] + words[1..]) == [c] + Spaced(words)
  {
    HeadOf([c] + words[0], words[1..]);
    SpacedHead(words);
    Regroup([c], words[0], AfterGap(words[1..]));
    hide Spaced, AfterGap;
  }

  lemma Regroup(a: string, b: string, c: string)
    ensures (a + b) + c == a + (b + c)
  {
  }

  lemma HeadOf(word: string, rest: seq<string>)
    ensures Spaced([word] + rest) == word + AfterGap(rest)
  {
    SpacedHead([word] + rest);
    assert ([word] + rest)[1..] == rest;
    hide Spaced, AfterGap;
  }

  lemma SpacedHead(words: seq<string>)
    requires words != []
    ensures Spaced(words) == words[0] + AfterGap(words[1..])
  {
    if |words| == 1 {
      assert words[1..] == [] && words[0] + "" == words[0];
    } else {
      assert words[1..] != [];
      assert words[0] + " " + Spaced(words[1..]) == words[0] + (" " + Spaced(words[1..]));
    }
  }

  /** The scan over characters joins the words by single spaces, from each of its three states. */
  lemma {:induction false} ScanJoins(s: string)
    ensures Words(s, false, false) == Spaced(WordList(s))
    ensures Words(s, true, true) == AfterGap(WordList(s))
    ensures Words(s, true, false) == if s == "" || IsSpace(s[0]) then AfterGap(WordList(s)) else Spaced(WordList(s))
  {
    if s != "" {
      ScanJoins(s[1..]);
      if !IsSpace(s[0]) {
        var c, rest := Fold(s[0]), WordList(s[1..]);
        if |s| == 1 || IsSpace(s[1]) {
          NewWord(c, rest);
        } else {
          LongerWord(c, rest);
        }
        var tail := if |s| == 1 || IsSpace(s[1]) then AfterGap(rest) else Spaced(rest);
        assert Words(s[1..], true, false) == tail;
        assert [' ', c] + tail == [' '] + ([c] + tail);
        hide IsSpace, Spaced, AfterGap;
      }
    }
  }

  predicate IsWord(word: string) {
    word != "" && forall c | c in word :: c != ' '
  }

  lemma {:induction false} WordsHaveNoSpaces(s: string)
    ensures forall word | word in WordList(s) :: IsWord(word)
  {
    if s != "" {
      WordsHaveNoSpaces(s[1..]);
      if !IsSpace(s[0]) {
        assert Fold(s[0]) != ' ';
        var rest := WordList(s[1..]);
        if !(|s| == 1 || IsSpace(s[1])) {
          assert IsWord(rest[0]) && IsWord([Fold(s[0])] + rest[0]);
        }
      }
    }
  }

  /** The place of the first space, or the length. */
  function FirstGap(s: string): nat {
    if s == "" || s[0] == ' ' then 0 else 1 + FirstGap(s[1..])
  }

  lemma {:induction false} GapAfterWord(word: string, rest: string)
    requires forall c | c in word :: c != ' '
    requires rest == "" || rest[0] == ' '
    ensures FirstGap(word + rest) == |word|
  {
    if word == "" {
      assert word + rest == rest;
    } else {
      assert word[0] in word && forall c | c in word[1..] :: c in word;
      assert (word + rest)[1..] == word[1..] + rest;
      GapAfterWord(word[1..], rest);
    }
  }

  lemma FirstWord(words: seq<string>)
    requires words != [] && forall word | word in words :: IsWord(word)
    ensures Spaced(words) == words[0] + AfterGap(words[1..])
    ensures Spaced(words) != "" && FirstGap(Spaced(words)) == |words[0]|
    ensures Spaced(words)[..|words[0]|] == words[0] && Spaced(words)[|words[0]|..] == AfterGap(words[1..])
  {
    assert IsWord(words[0]);
    SpacedHead(words);
    assert AfterGap(words[1..]) == "" || AfterGap(words[1..])[0] == ' ';
    hide Spaced, AfterGap;
    GapAfterWord(words[0], AfterGap(words[1..]));
  }

  /** The joined text determines the words. */
  lemma {:induction false} SpacedInjective(a: seq<string>, b: seq<string>)
    requires (forall word | word in a :: IsWord(word)) && (forall word | word in b :: IsWord(word))
    requires Spaced(a) == Spaced(b)
    ensures a == b
    decreases |a|
  {
    if a != [] {
      FirstWord(a);
    }
    if b != [] {
      FirstWord(b);
    }
    if a != [] && b != [] {
      assert a[0] == b[0] && AfterGap(a[1..]) == AfterGap(b[1..]);
      assert a[1..] == [] <==> b[1..] == [];
      if a[1..] != [] {
        assert (" " + Spaced(a[1..]))[1..] == Spaced(a[1..]) && (" " + Spaced(b[1..]))[1..] == Spaced(b[1..]);
      }
      SpacedInjective(a[1..], b[1..]);
      assert a == [a[0]] + a[1..] && b == [b[0]] + b[1..];
    }
  }

  lemma SameWords(a: string, b: string)
    ensures IdentityText(a) == IdentityText(b) <==> WordList(a) == WordList(b)
  {
    ScanJoins(a);
    ScanJoins(b);
    WordsHaveNoSpaces(a);
    WordsHaveNoSpaces(b);
    if IdentityText(a) == IdentityText(b) {
      SpacedInjective(WordList(a), WordList(b));
    }
  }

  /**
   Two identities agree exactly when their names, Tally names, HSN codes and units have the same words, whatever the
   case and the spaces between them, and their GST rates differ by at most 0.0001.
   */
  lemma IdentitiesAgree(a: Identity, b: Identity)
    ensures SameIdentity(a, b) <==>
              && WordList(a.name) == WordList(b.name) && WordList(a.tallyName) == WordList(b.tallyName)
              && WordList(a.hsn) == WordList(b.hsn) && WordList(a.unit) == WordList(b.unit)
              && a.gstRate <= b.gstRate + 0.0001 && b.gstRate <= a.gstRate + 0.0001
  {
    SameWords(a.name, b.name);
    SameWords(a.tallyName, b.tallyName);
    SameWords(a.hsn, b.hsn);
    SameWords(a.unit, b.unit);
    hide WordList, IdentityText;
  }
}
