/** Characters and positions in text, as the Python scripts see them. */
module Text {

  /** The members of a character class beyond ASCII are left open: nothing proved here depends on them. */
  type NonAscii = s: set<char> | forall c :: c in s ==> c as int >= 128
    witness {}

  const OTHER_SPACES: NonAscii

  predicate IsLineBreak(c: char) {
    '\n' <= c <= '\r' || '\U{1c}' <= c <= '\U{1e}' || c == '\U{85}' || c == '\U{2028}' || c == '\U{2029}'
  }

  predicate IsSpace(c: char) {
    IsLineBreak(c) || c == ' ' || c == '\t' || c == '\U{1f}' || c in OTHER_SPACES
  }

  predicate IsDigit(c: char) { '0' <= c <= '9' }
  predicate IsLetter(c: char) { 'a' <= c <= 'z' || 'A' <= c <= 'Z' }

  type OtherWords = s: set<char> | forall c :: c in s ==> c as int >= 128 && !IsSpace(c)
    witness {}

  const OTHER_WORD_CHARS: OtherWords

  const OTHER_DIGITS: OtherWords

  predicate IsDecimal(c: char) { IsDigit(c) || c in OTHER_DIGITS }

  predicate IsWord(c: char) {
    IsLetter(c) || IsDigit(c) || c == '_' || c in OTHER_WORD_CHARS
  }

  predicate All<T>(s: seq<T>, p: T -> bool) {
    forall k :: 0 <= k < |s| ==> p(s[k])
  }

  /** The first position from `i` on whose element fails `p`: a greedy `p*`, or a loop over lines. */
  function Skip<T>(text: seq<T>, i: nat, p: T -> bool): (j: nat)
    requires i <= |text|
    ensures i <= j <= |text|
    decreases |text| - i
  {
    if i < |text| && p(text[i]) then Skip(text, i + 1, p) else i
  }

  /** `piece` stands in `text` at position `i`. */
  predicate At<T(==)>(text: seq<T>, i: nat, piece: seq<T>) {
    i + |piece| <= |text| && forall k {:trigger piece[k]} :: 0 <= k < |piece| ==> text[i + k] == piece[k]
  }

  lemma AtSlice<T>(text: seq<T>, i: nat, piece: seq<T>)
    requires i + |piece| <= |text|
    ensures At(text, i, piece) <==> text[i..i + |piece|] == piece
  {
  }

  lemma AtBoth<T>(text: seq<T>, i: nat, a: seq<T>, b: seq<T>)
    requires At(text, i, a + b)
    ensures At(text, i, a) && At(text, i + |a|, b)
  {
    forall k | 0 <= k < |a|
      ensures text[i + k] == a[k]
    {
      assert (a + b)[k] == a[k];
    }
    forall k | 0 <= k < |b|
      ensures text[i + |a| + k] == b[k]
    {
      assert (a + b)[|a| + k] == b[k];
    }
  }

  lemma AtTail<T>(text: seq<T>, i: nat, piece: seq<T>)
    requires At(text, i, piece) && piece != []
    ensures text[i] == piece[0] && At(text, i + 1, piece[1..])
  {
  }

  lemma {:induction false} SkipAt<T>(text: seq<T>, i: nat, piece: seq<T>, p: T -> bool)
    requires At(text, i, piece) && All(piece, p)
    requires i + |piece| < |text| ==> !p(text[i + |piece|])
    ensures Skip(text, i, p) == i + |piece|
    decreases |piece|
  {
    if piece != [] {
      AtTail(text, i, piece);
      assert All(piece[1..], p);
      SkipAt(text, i + 1, piece[1..], p);
    }
  }
}
