/** Fund-code extraction on the overview page (lines 260-265):
    `set(re.findall(r"\d{6}", input_text))` and the early return when nothing
    was found. */
module Codes {
  import opened Text

  /** A fund code is six digits. */
  const CodeLength: nat := 6

  /** `\d`, restricted to the ASCII digits. */
  predicate IsDigit(c: char) {
    '0' <= c <= '9'
  }

  predicate AllDigits(s: string) {
    forall k | 0 <= k < |s| :: IsDigit(s[k])
  }

  /** `\d{6}` matches at position `p`. */
  predicate RunAt(text: string, p: nat) {
    p + CodeLength <= |text| && AllDigits(text[p..p + CodeLength])
  }

  /** The start positions `re.findall` reports when scanning from `p`: the
      leftmost match at or after `p`, then the scan resumes after it, so
      matches never overlap. `RunCovered` and `ScanSkipsNoRun` add that no run
      is skipped. */
  function MatchPositions(text: string, p: nat): (ps: seq<nat>)
    requires p <= |text|
    decreases |text| - p
    ensures forall k | 0 <= k < |ps| :: p <= ps[k] && RunAt(text, ps[k])
    ensures forall i, j | 0 <= i < j < |ps| :: ps[i] + CodeLength <= ps[j]
    ensures |ps| == 0 ==> forall q | p <= q <= |text| :: !RunAt(text, q)
    ensures |ps| > 0 ==> forall q | p <= q < ps[0] :: !RunAt(text, q)
  {
    if p + CodeLength > |text| then []
    else if RunAt(text, p) then [p] + MatchPositions(text, p + CodeLength)
    else MatchPositions(text, p + 1)
  }

  /** No match of `\d{6}` starts in `[a, b)`. */
  predicate NoRunIn(text: string, a: nat, b: nat) {
    forall q | a <= q < b :: !RunAt(text, q)
  }

  /** `re.findall(r"\d{6}", text)`: the matched texts, left to right. */
  function FindCodes(text: string): (codes: seq<string>)
    ensures |codes| == |MatchPositions(text, 0)|
    ensures forall k | 0 <= k < |codes| ::
      var p := MatchPositions(text, 0)[k];
      p + CodeLength <= |text| && codes[k] == text[p..p + CodeLength]
    ensures forall k | 0 <= k < |codes| :: |codes[k]| == CodeLength && AllDigits(codes[k])
  {
    var ps := MatchPositions(text, 0);
    seq(|ps|, k requires 0 <= k < |ps| => text[ps[k]..ps[k] + CodeLength])
  }

  /** `set(...)`: duplicates collapse. The set holds exactly the codes found,
      and every code is six digits and occurs in the text. */
  function ExtractCodes(text: string): (codes: set<string>)
    ensures forall c | c in codes :: |c| == CodeLength && AllDigits(c) && Contains(text, c)
    ensures forall k | 0 <= k < |FindCodes(text)| :: FindCodes(text)[k] in codes
    ensures forall c | c in codes :: c in FindCodes(text)
  {
    var found := FindCodes(text);
    var ps := MatchPositions(text, 0);
    assert forall k | 0 <= k < |found| :: OccursAt(text, found[k], ps[k]);
    set k | 0 <= k < |found| :: found[k]
  }

  /** Every character of a run is a digit. */
  lemma DigitInRun(text: string, p: nat, i: nat)
    requires RunAt(text, p) && i < |text|
    ensures p <= i < p + CodeLength ==> IsDigit(text[i])
  {
    if p <= i < p + CodeLength {
      assert text[i] == text[p..p + CodeLength][i - p];
    }
  }

  /** Every run of six digits at or after `p` overlaps a match of the scan from
      `p`: the scan skips no code. */
  lemma {:induction false} RunCovered(text: string, p: nat, q: nat)
    requires p <= q
    decreases |text| - p
    ensures RunAt(text, q) ==> exists k | 0 <= k < |MatchPositions(text, p)| ::
      MatchPositions(text, p)[k] <= q < MatchPositions(text, p)[k] + CodeLength
  {
    if p + CodeLength <= |text| && RunAt(text, q) {
      var ps := MatchPositions(text, p);
      if RunAt(text, p) {
        if q < p + CodeLength {
          assert ps[0] == p;
        } else {
          RunCovered(text, p + CodeLength, q);
          var rest := MatchPositions(text, p + CodeLength);
          var k :| 0 <= k < |rest| && rest[k] <= q < rest[k] + CodeLength;
          assert ps[k + 1] == rest[k];
        }
      } else {
        RunCovered(text, p + 1, q);
      }
    }
  }

  /** Each match is the leftmost run at or after the end of the previous one. */
  lemma ScanSkipsNoRun(text: string)
    ensures var ps := MatchPositions(text, 0);
      forall i, j | 0 <= i && j == i + 1 && j < |ps| :: NoRunIn(text, ps[i] + CodeLength, ps[j])
  {
    var ps := MatchPositions(text, 0);
    forall i, j, q | 0 <= i && j == i + 1 && j < |ps| && ps[i] + CodeLength <= q < ps[j]
      ensures !RunAt(text, q)
    {
      RunCovered(text, 0, q);
      OutsideMatches(ps, q);
    }
  }

  /** No run starts after the end of the last match. */
  lemma NoRunAfterLastMatch(text: string)
    ensures var ps := MatchPositions(text, 0);
      |ps| > 0 ==> NoRunIn(text, ps[|ps| - 1] + CodeLength, |text| + 1)
  {
    var ps := MatchPositions(text, 0);
    forall q | |ps| > 0 && ps[|ps| - 1] + CodeLength <= q <= |text|
      ensures !RunAt(text, q)
    {
      RunCovered(text, 0, q);
      OutsideMatches(ps, q);
    }
  }

  /** A position between two consecutive non-overlapping matches, or after
      the last one, lies inside no match. */
  lemma OutsideMatches(ps: seq<nat>, q: nat)
    requires forall i, j | 0 <= i < j < |ps| :: ps[i] + CodeLength <= ps[j]
    requires (exists i | 0 <= i < |ps| - 1 :: ps[i] + CodeLength <= q < ps[i + 1])
          || (|ps| > 0 && ps[|ps| - 1] + CodeLength <= q)
    ensures forall k | 0 <= k < |ps| :: !(ps[k] <= q < ps[k] + CodeLength)
  {
  }

  /** A code standing at the start of the text or after a non-digit, as in
      "017057, 005827", is always extracted. */
  lemma SeparatedCodeExtracted(text: string, q: nat)
    requires RunAt(text, q)
    requires q == 0 || !IsDigit(text[q - 1])
    ensures text[q..q + CodeLength] in ExtractCodes(text)
  {
    RunCovered(text, 0, q);
    var ps := MatchPositions(text, 0);
    var k :| 0 <= k < |ps| && ps[k] <= q < ps[k] + CodeLength;
    if q > 0 {
      DigitInRun(text, ps[k], q - 1);
    }
    assert ps[k] == q;
    MatchExtracted(text, k);
  }

  /** The text at every match is in the set. */
  lemma MatchExtracted(text: string, k: nat)
    requires k < |MatchPositions(text, 0)|
    ensures var p := MatchPositions(text, 0)[k];
      p + CodeLength <= |text| && text[p..p + CodeLength] in ExtractCodes(text)
  {
    assert FindCodes(text)[k] in ExtractCodes(text);
  }

  /** What the overview page does with the entered text: ask for codes when none
      were found (lines 263-265), otherwise look the codes up. */
  datatype OverviewStart = AskForCodes | Lookup(codes: set<string>)

  function StartOverview(text: string): OverviewStart {
    var codes := ExtractCodes(text);
    if codes == {} then AskForCodes else Lookup(codes)
  }

  /** The page asks for codes exactly when the text holds no run of six digits. */
  lemma AskForCodesIffNoRun(text: string)
    ensures StartOverview(text) == AskForCodes <==> forall q | 0 <= q <= |text| :: !RunAt(text, q)
  {
    var ps := MatchPositions(text, 0);
    if |ps| > 0 {
      assert FindCodes(text)[0] in ExtractCodes(text);
    }
  }

  /** On a text made of digits only, the scan takes consecutive six-digit chunks
      from `p` on. */
  lemma {:induction false} DigitChunks(text: string, p: nat)
    requires p <= |text| && AllDigits(text)
    decreases |text| - p
    ensures |MatchPositions(text, p)| == (|text| - p) / CodeLength
    ensures forall k | 0 <= k < |MatchPositions(text, p)| :: MatchPositions(text, p)[k] == p + CodeLength * k
  {
    if p + CodeLength <= |text| {
      assert RunAt(text, p);
      DigitChunks(text, p + CodeLength);
    }
  }

  /** Consecutive digits split into non-overlapping codes: 12 digits give two
      codes, the first and second six, and 7 digits give one. */
  lemma DigitRunSplits(text: string)
    requires AllDigits(text)
    ensures |FindCodes(text)| == |text| / CodeLength
    ensures |text| == 12 ==> FindCodes(text) == [text[..6], text[6..]]
    ensures |text| == 7 ==> FindCodes(text) == [text[..6]]
  {
    DigitChunks(text, 0);
    var ps, codes := MatchPositions(text, 0), FindCodes(text);
    if |text| == 12 {
      assert ps[0] == 0 && ps[1] == 6;
      assert codes[0] == text[..6] && codes[1] == text[6..];
    }
    if |text| == 7 {
      assert ps[0] == 0;
      assert codes[0] == text[..6];
    }
  }

  /** The same code entered twice counts once. */
  lemma RepeatedCodeCollapses(code: string)
    requires |code| == CodeLength && AllDigits(code)
    ensures ExtractCodes(code + code) == {code}
  {
    var text := code + code;
    assert AllDigits(text) by {
      forall k | 0 <= k < |text| ensures IsDigit(text[k]) {
        if k >= |code| { assert text[k] == code[k - |code|]; }
      }
    }
    DigitRunSplits(text);
    assert text[..6] == code && text[6..] == code;
    var found := FindCodes(text);
    assert found == [code, code];
    assert forall c :: c in ExtractCodes(text) <==> c == code by {
      assert found[0] == code;
    }
  }
}
