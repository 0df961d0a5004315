/** The pure text operations behind the editor's `Document`: the substring
    splice that `remplacer` performs, the index guard shared by the three range
    operations, a per-character case mapping standing in for Java's
    `toUpperCase`/`toLowerCase`, and the effect on the text of each guarded
    range operation. */
module Text {

  /** The token that `inserer` appends. */
  const Marker: string := "*inserer*"

  // ---------------------------------------------------------------------------
  // Case mapping (ASCII letters only)
  // ---------------------------------------------------------------------------

  predicate IsLowerLetter(c: char) { 'a' <= c <= 'z' }

  predicate IsUpperLetter(c: char) { 'A' <= c <= 'Z' }

  /** Distance between a lower-case ASCII letter and its upper-case form. */
  const CaseShift: int := 'a' as int - 'A' as int

  /** Upper-case image of one character: `a`..`z` become `A`..`Z`, every
      other character is left alone. */
  function UpperChar(c: char): (u: char)
    ensures !IsLowerLetter(u)
    ensures IsLowerLetter(c) ==> IsUpperLetter(u) && u as int + CaseShift == c as int
    ensures !IsLowerLetter(c) ==> u == c
  {
    if IsLowerLetter(c) then (c as int - CaseShift) as char else c
  }

  /** Lower-case image of one character: `A`..`Z` become `a`..`z`, every
      other character is left alone. */
  function LowerChar(c: char): (l: char)
    ensures !IsUpperLetter(l)
    ensures IsUpperLetter(c) ==> IsLowerLetter(l) && l as int == c as int + CaseShift
    ensures !IsUpperLetter(c) ==> l == c
  {
    if IsUpperLetter(c) then (c as int + CaseShift) as char else c
  }

  /** The upper-case image of a string, character by character. */
  function ToUpper(s: string): (r: string)
    ensures |r| == |s|
    ensures forall i :: 0 <= i < |s| ==> r[i] == UpperChar(s[i])
    ensures forall i :: 0 <= i < |r| ==> !IsLowerLetter(r[i])
  {
    if s == [] then [] else [UpperChar(s[0])] + ToUpper(s[1..])
  }

  /** The lower-case image of a string, character by character. */
  function ToLower(s: string): (r: string)
    ensures |r| == |s|
    ensures forall i :: 0 <= i < |s| ==> r[i] == LowerChar(s[i])
    ensures forall i :: 0 <= i < |r| ==> !IsUpperLetter(r[i])
  {
    if s == [] then [] else [LowerChar(s[0])] + ToLower(s[1..])
  }

  /** Converting to upper case a second time changes nothing. */
  lemma ToUpperIdempotent(s: string)
    ensures ToUpper(ToUpper(s)) == ToUpper(s)
  {
  }

  /** Converting to lower case a second time changes nothing. */
  lemma ToLowerIdempotent(s: string)
    ensures ToLower(ToLower(s)) == ToLower(s)
  {
  }

  /** Lower-casing an upper-cased string gives its lower-case image, and the
      other way round: one conversion overrides the other. */
  lemma CaseConversionsOverride(s: string)
    ensures ToLower(ToUpper(s)) == ToLower(s)
    ensures ToUpper(ToLower(s)) == ToUpper(s)
  {
  }

  // ---------------------------------------------------------------------------
  // The splice performed by `remplacer`
  // ---------------------------------------------------------------------------

  /** The bounds under which both substring calls of `remplacer` succeed:
      `substring(0, debut)` and `substring(fin + 1)`. Nothing ties `debut` to
      `fin`. */
  predicate SpliceBounds(s: string, debut: int, fin: int)
  {
    0 <= debut <= |s| && 0 <= fin + 1 <= |s|
  }

  /** The text left of `debut`, then `r`, then the text right of `fin`. On a
      range `debut <= fin + 1` (possibly empty) this replaces exactly the
      characters `debut..fin` by `r`: the prefix and the suffix are kept, `r`
      stands in between, and the length changes accordingly. */
  function Splice(s: string, debut: int, fin: int, r: string): (t: string)
    requires SpliceBounds(s, debut, fin)
    ensures debut <= fin + 1 ==>
      |t| == |s| - (fin - debut + 1) + |r| &&
      t[..debut] == s[..debut] &&
      t[debut..debut + |r|] == r &&
      t[debut + |r|..] == s[fin + 1..]
  {
    s[..debut] + r + s[fin + 1..]
  }

  /** Without a bounds check, a call with `debut > fin + 1` does not fail:
      the characters `fin + 1..debut` are kept twice, around `r`. */
  lemma SpliceOverlap(s: string, debut: int, fin: int, r: string)
    requires SpliceBounds(s, debut, fin) && debut > fin + 1
    ensures Splice(s, debut, fin, r) == s[..debut] + r + s[fin + 1..debut] + s[debut..]
    ensures |Splice(s, debut, fin, r)| == |s| + |r| + (debut - (fin + 1))
  {
  }

  /** Replacing a range by what it already holds leaves the text unchanged. */
  lemma SpliceSelf(s: string, debut: int, fin: int)
    requires SpliceBounds(s, debut, fin) && debut <= fin + 1
    ensures Splice(s, debut, fin, s[debut..fin + 1]) == s
  {
  }

  /** A splice is undone by splicing the old characters back over the range
      that now holds `r`. */
  lemma SpliceUndo(s: string, debut: int, fin: int, r: string)
    requires SpliceBounds(s, debut, fin) && debut <= fin + 1
    ensures SpliceBounds(Splice(s, debut, fin, r), debut, debut + |r| - 1)
    ensures Splice(Splice(s, debut, fin, r), debut, debut + |r| - 1, s[debut..fin + 1]) == s
  {
  }

  // ---------------------------------------------------------------------------
  // The guarded range operations
  // ---------------------------------------------------------------------------

  /** The range check of `majuscules`, `minuscule` and `effacer`: the range is
      accepted unless `debut < 0`, `fin >= |s|` or `debut > fin`. An accepted
      range is a non-empty range of positions of `s`, and on it the inner
      `substring(debut, fin + 1)` and the delegated `remplacer` are both in
      bounds. */
  predicate ValidRange(s: string, debut: int, fin: int): (ok: bool)
    ensures ok <==> 0 <= debut <= fin < |s|
    ensures ok ==> 0 <= debut <= fin + 1 <= |s| && SpliceBounds(s, debut, fin)
  {
    !(debut < 0 || fin >= |s| || debut > fin)
  }

  /** The text after `majuscules(debut, fin)`. */
  function Uppercased(s: string, debut: int, fin: int): (t: string)
    ensures |t| == |s|
    ensures !ValidRange(s, debut, fin) ==> t == s
    ensures ValidRange(s, debut, fin) ==>
      t[..debut] == s[..debut] && t[fin + 1..] == s[fin + 1..] &&
      t[debut..fin + 1] == ToUpper(s[debut..fin + 1])
  {
    if ValidRange(s, debut, fin) then
      Splice(s, debut, fin, ToUpper(s[debut..fin + 1]))
    else s
  }

  /** The text after `minuscule(debut, fin)`. */
  function Lowercased(s: string, debut: int, fin: int): (t: string)
    ensures |t| == |s|
    ensures !ValidRange(s, debut, fin) ==> t == s
    ensures ValidRange(s, debut, fin) ==>
      t[..debut] == s[..debut] && t[fin + 1..] == s[fin + 1..] &&
      t[debut..fin + 1] == ToLower(s[debut..fin + 1])
  {
    if ValidRange(s, debut, fin) then
      Splice(s, debut, fin, ToLower(s[debut..fin + 1]))
    else s
  }

  /** The text after `effacer(debut, fin)`. */
  function Erased(s: string, debut: int, fin: int): (t: string)
    ensures !ValidRange(s, debut, fin) ==> t == s
    ensures ValidRange(s, debut, fin) ==>
      t == s[..debut] + s[fin + 1..] && |t| == |s| - (fin - debut + 1)
  {
    if ValidRange(s, debut, fin) then Splice(s, debut, fin, "") else s
  }

  /** An upper-cased range, upper-cased again, stays as it is. */
  lemma UppercasedIdempotent(s: string, debut: int, fin: int)
    ensures Uppercased(Uppercased(s, debut, fin), debut, fin) == Uppercased(s, debut, fin)
  {
  }

  /** A lower-cased range, lower-cased again, stays as it is. */
  lemma LowercasedIdempotent(s: string, debut: int, fin: int)
    ensures Lowercased(Lowercased(s, debut, fin), debut, fin) == Lowercased(s, debut, fin)
  {
  }

  /** Erasing `debut..fin` and splicing the erased characters back in at
      `debut` restores the text. */
  lemma ErasedUndo(s: string, debut: int, fin: int)
    requires ValidRange(s, debut, fin)
    ensures SpliceBounds(Erased(s, debut, fin), debut, debut - 1)
    ensures Splice(Erased(s, debut, fin), debut, debut - 1, s[debut..fin + 1]) == s
  {
  }
}
