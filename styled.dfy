/** Text with terminal styling, as the `colored` crate produces it: a document
    is a sequence of pieces, each a run of text with one style. A piece the
    crate leaves unstyled (`normal()`, or a plain `&str`) is `Plain`. */
module Styled {

  datatype Color = Red | Yellow | Green | Cyan

  datatype Style = Plain | Bold | Fg(color: Color)

  datatype Piece = Piece(style: Style, text: string)

  type Doc = seq<Piece>

  /** The characters a document shows, with the styling dropped. */
  function PlainText(d: Doc): string
  {
    if d == [] then [] else PlainText(d[..|d| - 1]) + d[|d| - 1].text
  }

  /** A document carries no styling at all. */
  predicate Unstyled(d: Doc)
  {
    forall i :: 0 <= i < |d| ==> d[i].style == Plain
  }

  /** Showing two documents one after the other shows both texts in order. */
  lemma {:induction false} PlainTextAppend(a: Doc, b: Doc)
    ensures PlainText(a + b) == PlainText(a) + PlainText(b)
    decreases |b|
  {
    if b == [] {
      assert a + b == a;
    } else {
      var b' := b[..|b| - 1];
      PlainTextAppend(a, b');
      assert (a + b)[..|a + b| - 1] == a + b';
    }
  }

  /** A single piece shows its text. */
  lemma PlainTextPiece(p: Piece)
    ensures PlainText([p]) == p.text
  {
    assert [p][..0] == [];
  }

  /** A document between two unstyled runs shows the three texts in order. */
  lemma PlainTextFramed(a: string, d: Doc, b: string)
    ensures PlainText([Piece(Plain, a)] + d + [Piece(Plain, b)]) == a + PlainText(d) + b
  {
    PlainTextAppend([Piece(Plain, a)] + d, [Piece(Plain, b)]);
    PlainTextAppend([Piece(Plain, a)], d);
    PlainTextPiece(Piece(Plain, a));
    PlainTextPiece(Piece(Plain, b));
  }

  /** Two pieces show their texts in order. */
  lemma PlainTextPair(p: Piece, q: Piece)
    ensures PlainText([p, q]) == p.text + q.text
  {
    assert [p, q] == [p] + [q];
    PlainTextAppend([p], [q]);
    PlainTextPiece(p);
    PlainTextPiece(q);
  }
}
