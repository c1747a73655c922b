// Trimming of white space, by the service and by the schema.
module Text {

  // The Unicode White_Space characters.
  predicate IsSpace(c: char) {
    || '\t' <= c <= '\r' || c == ' ' || c == '\U{0085}' || c == '\U{00A0}' || c == '\U{1680}'
    || '\U{2000}' <= c <= '\U{200A}' || c == '\U{2028}' || c == '\U{2029}' || c == '\U{202F}'
    || c == '\U{205F}' || c == '\U{3000}'
  }

  function TrimLeft(s: string, cut: char -> bool): string {
    if s != [] && cut(s[0]) then TrimLeft(s[1..], cut) else s
  }

  function TrimRight(s: string, cut: char -> bool): string {
    if s != [] && cut(s[|s| - 1]) then TrimRight(s[..|s| - 1], cut) else s
  }

  function Trim(s: string, cut: char -> bool): string {
    TrimRight(TrimLeft(s, cut), cut)
  }

  // strings.TrimSpace
  function TrimSpace(s: string): string {
    Trim(s, IsSpace)
  }

  // SQL btrim, which cuts only the space character.
  function Btrim(s: string): string {
    Trim(s, c => c == ' ')
  }

  lemma {:induction false} TrimRightEnds(s: string, cut: char -> bool)
    ensures var r := TrimRight(s, cut); r != [] ==> r[0] == s[0] && !cut(r[|r| - 1])
    ensures |TrimRight(s, cut)| <= |s|
  {
    if s != [] && cut(s[|s| - 1]) { TrimRightEnds(s[..|s| - 1], cut); }
  }

  lemma {:induction false} TrimLeftEnds(s: string, cut: char -> bool)
    ensures var r := TrimLeft(s, cut); r != [] ==> !cut(r[0])
  {
    if s != [] && cut(s[0]) { TrimLeftEnds(s[1..], cut); }
  }

  // Text that survived TrimSpace has nothing left for btrim to cut, so it is
  // blank to the schema only if it is empty.
  lemma TrimmedForSchema(s: string)
    ensures Btrim(TrimSpace(s)) == TrimSpace(s)
  {
    TrimLeftEnds(s, IsSpace);
    TrimRightEnds(TrimLeft(s, IsSpace), IsSpace);
  }

  ghost predicate AllCut(s: string, cut: char -> bool) {
    forall i :: 0 <= i < |s| ==> cut(s[i])
  }

  lemma {:induction false} TrimLeftIs(s: string, cut: char -> bool) returns (before: string)
    ensures s == before + TrimLeft(s, cut) && AllCut(before, cut)
  {
    if s != [] && cut(s[0]) {
      var rest := TrimLeftIs(s[1..], cut);
      before := [s[0]] + rest;
    } else {
      before := [];
    }
  }

  lemma {:induction false} TrimRightIs(s: string, cut: char -> bool) returns (after: string)
    ensures s == TrimRight(s, cut) + after && AllCut(after, cut)
  {
    if s != [] && cut(s[|s| - 1]) {
      var rest := TrimRightIs(s[..|s| - 1], cut);
      after := rest + [s[|s| - 1]];
    } else {
      after := [];
    }
  }

  // TrimSpace cuts white space and nothing else off both ends, and leaves none there.
  lemma TrimSpaceIs(s: string) returns (before: string, after: string)
    ensures s == before + TrimSpace(s) + after && AllCut(before, IsSpace) && AllCut(after, IsSpace)
    ensures var text := TrimSpace(s); text != "" ==> !IsSpace(text[0]) && !IsSpace(text[|text| - 1])
  {
    before := TrimLeftIs(s, IsSpace);
    after := TrimRightIs(TrimLeft(s, IsSpace), IsSpace);
    TrimLeftEnds(s, IsSpace);
    TrimRightEnds(TrimLeft(s, IsSpace), IsSpace);
  }

  // So a text is blank exactly if it is all white space, and a text that begins
  // and ends with something else stays as it is.
  lemma TrimSpaceKeeps(s: string)
    ensures TrimSpace(s) == "" <==> AllCut(s, IsSpace)
    ensures s != "" && !IsSpace(s[0]) && !IsSpace(s[|s| - 1]) ==> TrimSpace(s) == s
  {
    var before, after := TrimSpaceIs(s);
    assert TrimSpace(s) != "" ==> s[|before|] == TrimSpace(s)[0];
  }

  // White space is what Unicode calls so, not only the space character, and no
  // letter or zero-width character.
  lemma SpaceExamples()
    ensures IsSpace(' ') && IsSpace('\t') && IsSpace('\n') && IsSpace('\r')
    ensures IsSpace('\U{00A0}') && IsSpace('\U{3000}')
    ensures !IsSpace('a') && !IsSpace('0') && !IsSpace('\0') && !IsSpace('\U{200B}')
  {
  }
}
