/** Cells as a spreadsheet would read them: an apostrophe keeps what looks like a formula plain text. */
module SpreadsheetCells {
  import opened Text

  predicate Dangerous(text: string) {
    var stripped := LeftStrip(text);
    || (stripped != "" && stripped[0] in {'=', '+', '-', '@'})
    || (text != "" && text[0] in {'\t', '\r', '\n'})
  }

  function Safe(text: string): string {
    if Dangerous(text) then "'" + text else text
  }

  function Decode(value: string): string {
    if value != "" && value[0] == '\'' && Dangerous(value[1..]) then value[1..] else value
  }

  // An apostrophe already in front of a formula: the one kind of text that export leaves alone and import shortens.
  predicate QuotedFormula(text: string) {
    text != "" && text[0] == '\'' && Dangerous(text[1..])
  }

  /** No exported cell is one the guard would call dangerous. */
  lemma SafeIsNeverDangerous(text: string)
    ensures !Dangerous(Safe(text))
  {
  }

  /** Export then import gives the text back, except for text that is itself an apostrophe and a formula. */
  lemma DecodeUndoesSafeExactly(text: string)
    ensures Decode(Safe(text)) == text <==> !QuotedFormula(text)
  {
  }

  lemma QuotedFormulaLosesItsApostrophe()
    ensures Decode(Safe("'=1")) == "=1"
  {
  }

  /** Escaping loses nothing: two texts that export to the same cell are equal or differ by that apostrophe alone. */
  lemma SafeConfusesOnlyQuotedFormulas(a: string, b: string)
    requires Safe(a) == Safe(b) && a != b
    ensures (QuotedFormula(a) && a == "'" + b) || (QuotedFormula(b) && b == "'" + a)
  {
    assert Safe(a)[if Dangerous(a) then 1 else 0..] == a && Safe(b)[if Dangerous(b) then 1 else 0..] == b;
  }

  lemma {:induction false} LeftStripSkips(s: string, k: nat)
    requires k < |s| && !Blank(s[k]) && forall j | 0 <= j < k :: Blank(s[j])
    ensures LeftStrip(s) == s[k..]
  {
    if k > 0 {
      LeftStripSkips(s[1..], k - 1);
    }
  }

  lemma {:induction false} LeftStripBegins(s: string) returns (k: nat)
    requires LeftStrip(s) != ""
    ensures k < |s| && !Blank(s[k]) && LeftStrip(s)[0] == s[k] && forall j | 0 <= j < k :: Blank(s[j])
  {
    k := 0;
    if Blank(s[0]) {
      var rest := LeftStripBegins(s[1..]);
      k := rest + 1;
    }
  }

  // The first character that is not blank begins a formula.
  predicate BeginsFormula(text: string, k: nat) {
    k < |text| && text[k] in "=+-@" && forall j | 0 <= j < k :: Blank(text[j])
  }

  /** Export puts one apostrophe in front of exactly those texts whose first non-blank character begins a formula or whose
      very first one is a tab or ends a line. */
  lemma EscapesExactlyFormulas(text: string)
    ensures Safe(text) == if (exists k :: BeginsFormula(text, k)) || (text != "" && text[0] in "\t\r\n")
                          then "'" + text else text
  {
    if k :| BeginsFormula(text, k) {
      LeftStripSkips(text, k);
    }
    if LeftStrip(text) != "" {
      var k := LeftStripBegins(text);
      assert LeftStrip(text)[0] in "=+-@" ==> BeginsFormula(text, k);
    }
  }
}
