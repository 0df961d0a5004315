/** The editor's `Document`: one mutable text that every operation reads or
    reassigns in place. The range operations check their indices first and
    report a rejected range through their `ok` result, leaving the text as it
    was; an accepted range is handed to the unchecked splice `Remplacer`. */
module Editeur {
  import opened Text

  class Document {
    /** The text of the document. */
    var text: string

    /** A new document holds the empty text. */
    constructor ()
      ensures text == []
    {
      text := [];
    }

    method GetTexte() returns (t: string)
      ensures t == text
    {
      t := text;
    }

    method SetTexte(texte: string)
      modifies this
      ensures text == texte
    {
      text := texte;
    }

    /** Appends `texte` at the end of the document. */
    method Ajouter(texte: string)
      modifies this
      ensures text == old(text) + texte
      ensures text[..|old(text)|] == old(text) && text[|old(text)|..] == texte
    {
      text := text + texte;
    }

    /** Replaces the characters `debut..fin` (both inclusive) by `remplacement`.
        The only demand is that both substrings can be taken. */
    method Remplacer(debut: int, fin: int, remplacement: string)
      requires SpliceBounds(text, debut, fin)
      modifies this
      ensures text == Splice(old(text), debut, fin, remplacement)
      ensures debut <= fin + 1 ==>
        |text| == |old(text)| - (fin - debut + 1) + |remplacement| &&
        text[..debut] == old(text)[..debut] &&
        text[debut..debut + |remplacement|] == remplacement &&
        text[debut + |remplacement|..] == old(text)[fin + 1..]
    {
      var partieGauche := text[..debut];
      var partieDroite := text[fin + 1..];
      text := partieGauche + remplacement + partieDroite;
    }

    /** Upper-cases the characters `debut..fin`; `ok` is false, and nothing
        changes, when the range is rejected. */
    method Majuscules(debut: int, fin: int) returns (ok: bool)
      modifies this
      ensures ok == ValidRange(old(text), debut, fin)
      ensures !ok ==> text == old(text)
      ensures text == Uppercased(old(text), debut, fin)
    {
      if !ValidRange(text, debut, fin) {
        return false;
      }
      var portion := text[debut..fin + 1];
      var portionMajuscules := ToUpper(portion);
      Remplacer(debut, fin, portionMajuscules);
      ok := true;
    }

    /** Lower-cases the characters `debut..fin`; `ok` is false, and nothing
        changes, when the range is rejected. */
    method Minuscule(debut: int, fin: int) returns (ok: bool)
      modifies this
      ensures ok == ValidRange(old(text), debut, fin)
      ensures !ok ==> text == old(text)
      ensures text == Lowercased(old(text), debut, fin)
    {
      if !ValidRange(text, debut, fin) {
        return false;
      }
      var portion := text[debut..fin + 1];
      var portionMinuscules := ToLower(portion);
      Remplacer(debut, fin, portionMinuscules);
      ok := true;
    }

    /** Deletes the characters `debut..fin`; `ok` is false, and nothing
        changes, when the range is rejected. */
    method Effacer(debut: int, fin: int) returns (ok: bool)
      modifies this
      ensures ok == ValidRange(old(text), debut, fin)
      ensures !ok ==> text == old(text)
      ensures ok ==> |text| == |old(text)| - (fin - debut + 1)
      ensures text == Erased(old(text), debut, fin)
    {
      if !ValidRange(text, debut, fin) {
        return false;
      }
      Remplacer(debut, fin, "");
      ok := true;
    }

    /** Empties the document, whatever it held. */
    method Clear()
      modifies this
      ensures text == []
    {
      text := "";
    }

    /** Appends the marker token at the end of the document. */
    method Inserer()
      modifies this
      ensures text == old(text) + Marker
      ensures |text| == |old(text)| + 9
    {
      text := text + Marker;
    }

    method ToString() returns (s: string)
      ensures s == text
    {
      s := text;
    }
  }

  /** Client sessions that rely on the contracts above only. */
  method SessionCaseAndErase()
  {
    var d := new Document();
    var t := d.GetTexte();
    assert t == "";

    d.SetTexte("hello world");
    var ok := d.Majuscules(0, 4);
    assert ok;
    assert d.text[..5] == "HELLO" by {
      assert d.text[..5] == ToUpper("hello");
    }
    assert d.text == d.text[..5] + d.text[5..];
    assert d.text == "HELLO world";

    d.SetTexte("hello world");
    ok := d.Effacer(5, 5);
    assert ok && d.text == "helloworld";
  }

  method SessionSplice()
  {
    var d := new Document();
    d.SetTexte("abc");
    d.Remplacer(1, 1, "XYZ");
    assert d.text == "aXYZc";

    d.SetTexte("");
    d.Ajouter("x");
    d.Inserer();
    assert d.text == "x*inserer*";
  }

  method SessionRejectedAndClear()
  {
    var d := new Document();
    d.SetTexte("ab");
    var ok := d.Majuscules(0, 5);
    assert !ok && d.text == "ab";

    d.Clear();
    var s := d.ToString();
    assert s == "";
  }
}
