# Document: a verified model of an in-memory text buffer

The repository is one Java class, `fr.iut.editeur.document.Document`. It holds one
mutable `String` field, `texteDocument`, and offers these operations on it:

- whole-text operations: set (`setTexte`), append (`ajouter`, and `inserer`, which appends
  the fixed token `*inserer*`) and reset (`clear`);
- an unchecked splice, `remplacer(debut, fin, r)`, which replaces the inclusive range
  `debut..fin` by `r`;
- three guarded range operations, `majuscules`, `minuscule` and `effacer`. Each one
  rejects the range when `debut < 0`, `fin >= length` or `debut > fin` and then does
  nothing. Otherwise it upper-cases, lower-cases or deletes the range by calling `remplacer`.

The model has two modules:

- `Text` (`text.dfy`) holds the pure side. It defines the splice (`Splice`) and the bounds
  its two substring calls need (`SpliceBounds`). It defines the range guard (`ValidRange`),
  an ASCII per-character case mapping (`UpperChar`, `LowerChar`, `ToUpper`, `ToLower`),
  and the text each guarded operation produces (`Uppercased`, `Lowercased`, `Erased`).
  Its lemmas cover the splice and the case operations: a splice can be undone, splicing
  in a range's own text changes nothing, and case conversion is idempotent.
- `Editeur` (`document.dfy`) holds the class `Document`, with `var text: string` in place
  of `texteDocument`. Every mutator is a `modifies this` method whose `ensures` gives the
  new text in terms of `old(text)`. The guarded operations return early unless
  `ValidRange` (whose body is the source's test) accepts the range, and then call
  `Remplacer`. The contract of `ValidRange` is what establishes `Remplacer`'s
  precondition, and the bounds of the inner `substring(debut, fin + 1)`, on every
  accepted path. Three client methods (`Session…`) use
  only these contracts to check the sample sessions: `"hello world"` upper-cased on
  `0..4`, the space erased, `"abc"` spliced to `"aXYZc"`, append plus marker, and a
  rejected range on `"ab"`.

Two modelling choices:

- The Javadoc of `remplacer` describes an inclusive range `debut..fin`. The code, however,
  needs only what `substring(0, debut)` and `substring(fin + 1)` need:
  `0 <= debut <= |text|` and `0 <= fin + 1 <= |text|`. So it also accepts `debut > fin + 1`,
  and no exception is thrown. The characters `fin + 1..debut` then appear twice. The model
  keeps that: `Remplacer` requires only these two bounds (`SpliceBounds`), and lemma
  `SpliceOverlap` describes the overlapping case. The range-replacement properties are
  stated for `debut <= fin + 1`, in the contract of `Splice`.
- On a rejected range, the code prints the warning `Indices invalides`. The model returns
  an `ok` result from `Majuscules`, `Minuscule` and `Effacer` instead (see "Left out").
  `ok` is false exactly when the range is rejected, and the text is then unchanged.

## Model

| member | source | states |
|---|---|---|
| `Editeur.Document.constructor` | src/main/java/fr/iut/editeur/document/Document.java:17-19 | a new document holds the empty text |
| `Editeur.Document.GetTexte` | src/main/java/fr/iut/editeur/document/Document.java:26-28 | returns the current text; changes nothing (no modifies clause) |
| `Editeur.Document.SetTexte` | src/main/java/fr/iut/editeur/document/Document.java:35-37 | the text becomes the given string, whatever it was |
| `Editeur.Document.Ajouter` | src/main/java/fr/iut/editeur/document/Document.java:44-46 | the text becomes old text followed by the argument; the old text is its prefix and the argument its suffix |
| `Editeur.Document.Remplacer` | src/main/java/fr/iut/editeur/document/Document.java:55-59 | under the two substring bounds, the text becomes prefix before `debut`, replacement, suffix after `fin`; on a range `debut <= fin + 1` the length becomes old length minus `fin - debut + 1` plus the replacement's length, and prefix, replacement and suffix sit at their positions |
| `Editeur.Document.Majuscules` | src/main/java/fr/iut/editeur/document/Document.java:67-76 | `ok` iff the guard accepts the range; a rejected range leaves the text unchanged; the new text is `Uppercased(old text)`; the call to `Remplacer` is proved in bounds from the guard |
| `Editeur.Document.Minuscule` | src/main/java/fr/iut/editeur/document/Document.java:84-93 | `ok` iff the guard accepts the range; a rejected range leaves the text unchanged; the new text is `Lowercased(old text)`; the call to `Remplacer` is proved in bounds from the guard |
| `Editeur.Document.Effacer` | src/main/java/fr/iut/editeur/document/Document.java:101-107 | `ok` iff the guard accepts the range; a rejected range leaves the text unchanged; an accepted one shrinks it by exactly `fin - debut + 1`; the new text is `Erased(old text)` |
| `Editeur.Document.Clear` | src/main/java/fr/iut/editeur/document/Document.java:112-114 | the text becomes empty whatever it held |
| `Editeur.Document.Inserer` | src/main/java/fr/iut/editeur/document/Document.java:119-121 | the text becomes old text followed by `*inserer*`, nine characters longer |
| `Editeur.Document.ToString` | src/main/java/fr/iut/editeur/document/Document.java:128-131 | returns the current text; changes nothing |
| `Text.UpperChar` | src/main/java/fr/iut/editeur/document/Document.java:74 | the result is never a lower-case letter; a lower-case letter maps to the upper-case letter one case shift below; every other character is unchanged |
| `Text.LowerChar` | src/main/java/fr/iut/editeur/document/Document.java:91 | the result is never an upper-case letter; an upper-case letter maps to the lower-case letter one case shift above; every other character is unchanged |
| `Text.ToUpper` | src/main/java/fr/iut/editeur/document/Document.java:74 | same length as the input, each character is `UpperChar` of the input's, and no lower-case letter remains |
| `Text.ToLower` | src/main/java/fr/iut/editeur/document/Document.java:91 | same length as the input, each character is `LowerChar` of the input's, and no upper-case letter remains |
| `Text.ToUpperIdempotent` | src/main/java/fr/iut/editeur/document/Document.java:74 | upper-casing twice equals upper-casing once |
| `Text.ToLowerIdempotent` | src/main/java/fr/iut/editeur/document/Document.java:91 | lower-casing twice equals lower-casing once |
| `Text.CaseConversionsOverride` | src/main/java/fr/iut/editeur/document/Document.java:73-92 | lower-casing after upper-casing equals lower-casing alone, and the other way round |
| `Text.Marker` | src/main/java/fr/iut/editeur/document/Document.java:120 | the token `inserer` appends is the nine characters `*inserer*` |
| `Text.SpliceBounds` | src/main/java/fr/iut/editeur/document/Document.java:56-57 | the inputs on which both `substring(0, debut)` and `substring(fin + 1)` succeed: `0 <= debut <= length` and `0 <= fin + 1 <= length`, with nothing tying `debut` to `fin` |
| `Text.Splice` | src/main/java/fr/iut/editeur/document/Document.java:56-58 | the text before `debut`, then the replacement, then the text after `fin`; for `debut <= fin + 1` the prefix before `debut` is kept, the replacement sits at `debut`, the suffix after `fin` follows it, and the length is old minus `fin - debut + 1` plus the replacement's length |
| `Text.SpliceOverlap` | src/main/java/fr/iut/editeur/document/Document.java:56-58 | with `debut > fin + 1` the unchecked splice does not fail; it keeps the characters `fin + 1..debut` twice and grows by the replacement's length plus `debut - fin - 1` |
| `Text.SpliceSelf` | src/main/java/fr/iut/editeur/document/Document.java:55-59 | replacing a range by its own characters gives back the same text |
| `Text.SpliceUndo` | src/main/java/fr/iut/editeur/document/Document.java:55-59 | splicing the old characters back over the range that now holds the replacement restores the original text |
| `Text.ValidRange` | src/main/java/fr/iut/editeur/document/Document.java:68-75 | the guard: the range is accepted unless `debut < 0`, `fin >= length` or `debut > fin`, i.e. iff `0 <= debut <= fin < length`; an accepted range satisfies the bounds of `substring(debut, fin + 1)` and of `remplacer` |
| `Text.Uppercased` | src/main/java/fr/iut/editeur/document/Document.java:67-76 | the length is unchanged; a rejected range gives the same text; an accepted range keeps prefix and suffix and upper-cases exactly `debut..fin` |
| `Text.Lowercased` | src/main/java/fr/iut/editeur/document/Document.java:84-93 | the length is unchanged; a rejected range gives the same text; an accepted range keeps prefix and suffix and lower-cases exactly `debut..fin` |
| `Text.Erased` | src/main/java/fr/iut/editeur/document/Document.java:101-107 | a rejected range gives the same text; an accepted range gives prefix followed by suffix, `fin - debut + 1` characters shorter |
| `Text.UppercasedIdempotent` | src/main/java/fr/iut/editeur/document/Document.java:67-76 | `majuscules` applied twice on the same range equals applying it once, for every range, valid or not |
| `Text.LowercasedIdempotent` | src/main/java/fr/iut/editeur/document/Document.java:84-93 | `minuscule` applied twice on the same range equals applying it once, for every range, valid or not |
| `Text.ErasedUndo` | src/main/java/fr/iut/editeur/document/Document.java:101-107 | after a valid erase, splicing the erased characters back in at `debut` restores the text |

## Left out

- The warning printed to standard error on a rejected range is output. The model
  replaces it with the `ok` result.
- `Text.UpperChar`, `Text.LowerChar`, `Text.ToUpper`, `Text.ToLower`: Java's
  `toUpperCase()`/`toLowerCase()` use full-Unicode, locale-dependent mappings that can
  change the length (`ß` becomes `SS`). The model maps only the ASCII letters, one
  character at a time, so it keeps the length. Length preservation and the idempotence
  lemmas are proved for this mapping only.
- A Java `char` is a UTF-16 code unit, while a Dafny `char` is a Unicode scalar value.
  Surrogate pairs are not modelled.
- `Editeur.Document.Remplacer`: an out-of-bounds direct call makes Java throw
  `StringIndexOutOfBoundsException`. The model excludes that call with a `requires`
  instead of modelling the exception.
- `null` arguments are not modelled: `string` cannot be null. In Java, `setTexte(null)`
  stores null, and `ajouter(null)` or `remplacer(…, null)` insert the four characters
  `null`.
- Indices are unbounded `int`s, and string length has no 2^31 - 1 ceiling. `fin + 1`
  can overflow in Java only when `fin` is the largest `int`. Such a call throws there and
  is excluded here, and the guarded operations cannot reach it, since they accept only
  `fin < length`.
