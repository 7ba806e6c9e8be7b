/** Splitting a string at a separator, and joining the parts again. */
module Text {

  function Split(s: string, sep: char): (parts: seq<string>)
    ensures |parts| >= 1
  {
    if s == "" then [""]
    else
      var rest := Split(s[1..], sep);
      if s[0] == sep then [""] + rest else [[s[0]] + rest[0]] + rest[1..]
  }

  function Join(parts: seq<string>, sep: char): string
    requires |parts| >= 1
  {
    if |parts| == 1 then parts[0] else parts[0] + [sep] + Join(parts[1..], sep)
  }

  lemma {:induction false} JoinSplit(s: string, sep: char)
    ensures Join(Split(s, sep), sep) == s
  {
    if s != "" {
      var rest := Split(s[1..], sep);
      JoinSplit(s[1..], sep);
      if s[0] == sep {
        assert ([""] + rest)[1..] == rest;
      } else if |rest| > 1 {
        assert Split(s, sep)[1..] == rest[1..];
      }
    }
  }

  lemma {:induction false} JoinAppend(a: seq<string>, b: seq<string>, sep: char)
    requires |a| >= 1 && |b| >= 1
    ensures Join(a + b, sep) == Join(a, sep) + [sep] + Join(b, sep)
  {
    if |a| > 1 {
      assert (a + b)[1..] == a[1..] + b;
      JoinAppend(a[1..], b, sep);
    } else {
      assert (a + b)[1..] == b;
    }
  }

  lemma {:induction false} SplitAppend(a: string, b: string, sep: char)
    ensures Split(a + [sep] + b, sep) == Split(a, sep) + Split(b, sep)
  {
    var s := a + [sep] + b;
    if a == "" {
      assert s[1..] == b;
    } else {
      assert s[1..] == a[1..] + [sep] + b;
      SplitAppend(a[1..], b, sep);
    }
  }

  lemma {:induction false} PartsHoldNoSeparator(s: string, sep: char)
    ensures forall k | 0 <= k < |Split(s, sep)| :: sep !in Split(s, sep)[k]
  {
    if s != "" {
      PartsHoldNoSeparator(s[1..], sep);
    }
  }

  lemma {:induction false} SplitWithoutSeparator(s: string, sep: char)
    requires sep !in s
    ensures Split(s, sep) == [s]
  {
    if s != "" {
      SplitWithoutSeparator(s[1..], sep);
      assert s == [s[0]] + s[1..];
    }
  }

  // The characters Python's str.isspace accepts.
  predicate Blank(c: char) {
    var point := c as int;
    || 0x09 <= point <= 0x0d || 0x1c <= point <= 0x20 || point == 0x85 || point == 0xa0 || point == 0x1680
    || 0x2000 <= point <= 0x200a || point in {0x2028, 0x2029, 0x202f, 0x205f, 0x3000}
  }

  function LeftStrip(s: string): string {
    if s != "" && Blank(s[0]) then LeftStrip(s[1..]) else s
  }

  function RightStrip(s: string): string {
    if s != "" && Blank(s[|s| - 1]) then RightStrip(s[..|s| - 1]) else s
  }

  function Strip(s: string): string {
    RightStrip(LeftStrip(s))
  }

  lemma {:induction false} RightStripKeepsHead(s: string)
    requires s != "" && !Blank(s[0])
    ensures RightStrip(s) != "" && RightStrip(s)[0] == s[0]
  {
    if Blank(s[|s| - 1]) {
      RightStripKeepsHead(s[..|s| - 1]);
    }
  }

  lemma StripEnds(s: string)
    ensures Strip(s) != "" ==> !Blank(Strip(s)[0]) && !Blank(Strip(s)[|Strip(s)| - 1])
  {
    LeftStripEnd(s);
    RightStripEnd(LeftStrip(s));
    if LeftStrip(s) != "" {
      RightStripKeepsHead(LeftStrip(s));
    }
  }

  lemma LeftStripEnd(s: string)
    ensures LeftStrip(s) != "" ==> !Blank(LeftStrip(s)[0])
  {
  }

  lemma RightStripEnd(s: string)
    ensures RightStrip(s) != "" ==> !Blank(RightStrip(s)[|RightStrip(s)| - 1])
  {
  }

  lemma StripTwice(s: string)
    ensures Strip(Strip(s)) == Strip(s)
  {
    StripEnds(s);
  }

  function WordLength(s: string): (n: nat)
    ensures n <= |s|
  {
    if s == "" || Blank(s[0]) then 0 else 1 + WordLength(s[1..])
  }

  function Words(s: string): seq<string>
    decreases |s|
  {
    if s == "" then []
    else if Blank(s[0]) then Words(s[1..])
    else [s[..WordLength(s)]] + Words(s[WordLength(s)..])
  }

  // The words of a text with one space between them.
  function Collapsed(s: string): string {
    if Words(s) == [] then "" else Join(Words(s), ' ')
  }

  predicate AllBlank(s: string) {
    forall k | 0 <= k < |s| :: Blank(s[k])
  }

  lemma {:induction false} BlankHasNoWords(s: string)
    ensures AllBlank(s) <==> Words(s) == []
  {
    if s != "" && Blank(s[0]) {
      BlankHasNoWords(s[1..]);
      assert s == [s[0]] + s[1..];
    }
  }

  lemma CollapsesToNothing(s: string)
    ensures Collapsed(s) == "" <==> AllBlank(s)
  {
    BlankHasNoWords(s);
    if !AllBlank(s) {
      FirstWord(s);
    }
  }

  lemma {:induction false} FirstWord(s: string)
    requires Words(s) != []
    ensures Words(s)[0] != ""
  {
    if Blank(s[0]) {
      FirstWord(s[1..]);
    }
  }

  // ---- What stripping and collapsing keep ----

  /** Stripping takes blanks off both ends and nothing else. */
  lemma StripTakesBlanks(s: string) returns (i: nat, j: nat)
    ensures i <= j <= |s| && Strip(s) == s[i..j] && AllBlank(s[..i]) && AllBlank(s[j..])
  {
    i := LeftStripTakes(s);
    var left := LeftStrip(s);
    var n := RightStripTakes(left);
    j := i + n;
    assert left[..n] == s[i..j] && left[n..] == s[j..];
  }

  lemma {:induction false} LeftStripTakes(s: string) returns (i: nat)
    ensures i <= |s| && LeftStrip(s) == s[i..] && AllBlank(s[..i])
  {
    i := 0;
    if s != "" && Blank(s[0]) {
      var rest := LeftStripTakes(s[1..]);
      i := rest + 1;
      assert s[..i] == [s[0]] + s[1..][..rest];
    }
  }

  lemma {:induction false} RightStripTakes(s: string) returns (n: nat)
    ensures n <= |s| && RightStrip(s) == s[..n] && AllBlank(s[n..])
  {
    n := |s|;
    if s != "" && Blank(s[|s| - 1]) {
      n := RightStripTakes(s[..|s| - 1]);
      assert s[n..] == s[..|s| - 1][n..] + [s[|s| - 1]];
    }
  }

  // The characters that are not blank, in order.
  function Letters(s: string): string {
    if s == "" then "" else (if Blank(s[0]) then "" else [s[0]]) + Letters(s[1..])
  }

  lemma {:induction false} LettersAppend(a: string, b: string)
    ensures Letters(a + b) == Letters(a) + Letters(b)
  {
    if a == "" {
      assert a + b == b;
    } else {
      assert (a + b)[1..] == a[1..] + b;
      LettersAppend(a[1..], b);
    }
  }

  // Blanks are single spaces between characters that are not blank.
  predicate SinglySpaced(s: string) {
    && (s != "" ==> !Blank(s[0]) && !Blank(s[|s| - 1]))
    && forall k | 0 < k < |s| && Blank(s[k]) :: s[k] == ' ' && !Blank(s[k - 1])
  }

  lemma {:induction false} WordIsLetters(s: string)
    ensures forall k | 0 <= k < WordLength(s) :: !Blank(s[k])
  {
    if s != "" && !Blank(s[0]) {
      WordIsLetters(s[1..]);
    }
  }

  lemma SpacedAppend(word: string, rest: string)
    requires word != "" && (forall k | 0 <= k < |word| :: !Blank(word[k])) && rest != "" && SinglySpaced(rest)
    ensures SinglySpaced(word + " " + rest)
  {
    var s := word + " " + rest;
    forall k | 0 < k < |s| && Blank(s[k]) ensures s[k] == ' ' && !Blank(s[k - 1]) {
      if k > |word| {
        assert s[k] == rest[k - |word| - 1];
        assert k > |word| + 1 ==> s[k - 1] == rest[k - |word| - 2];
      }
    }
  }

  /** Collapsing a text keeps its characters that are not blank, in order, and leaves single spaces between them. */
  lemma {:induction false} CollapsingKeepsLetters(s: string)
    ensures Letters(Collapsed(s)) == Letters(s) && SinglySpaced(Collapsed(s))
    decreases |s|
  {
    if s == "" {
    } else if Blank(s[0]) {
      CollapsingKeepsLetters(s[1..]);
    } else {
      var n := WordLength(s);
      var word, rest := s[..n], s[n..];
      assert s == word + rest;
      WordIsLetters(s);
      CollapsingKeepsLetters(rest);
      LettersAppend(word, rest);
      CollapsesToNothing(rest);
      BlankHasNoWords(rest);
      if Words(rest) == [] {
        assert Collapsed(s) == word;
        assert Letters(rest) == Letters(Collapsed(rest)) == "";
      } else {
        assert Words(s)[1..] == Words(rest);
        assert Collapsed(s) == word + " " + Collapsed(rest);
        SpacedAppend(word, Collapsed(rest));
        LettersAppend(word + " ", Collapsed(rest));
        LettersAppend(word, " ");
        assert word + " " + Collapsed(rest) == (word + " ") + Collapsed(rest);
      }
    }
  }
}
