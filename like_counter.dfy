/**
 * The like count on a thought (src/components/LikeCounter.tsx): a text for
 * screen readers and a visible "x N".
 */
module LikeCounter {

  import Decimal

  /** The screen-reader text: "1 like" for one, "N likes" for any other count, zero included. */
  function ScreenReaderText(count: int): string {
    if count == 1 then "1 like" else Decimal.IntToString(count) + " likes"
  }

  /** The visible text: "x N" for every count, never pluralised. */
  function VisibleText(count: int): string {
    "x " + Decimal.IntToString(count)
  }

  /** Both texts carry the decimal rendering of the same count, with "like" singular exactly for 1. */
  lemma LikeCounterTexts(count: int)
    ensures ScreenReaderText(count) == Decimal.IntToString(count) + (if count == 1 then " like" else " likes")
    ensures |VisibleText(count)| >= 3 && VisibleText(count)[..2] == "x "
    ensures VisibleText(count)[2..] == Decimal.IntToString(count)
  {
    assert Decimal.IntToString(1) == "1";
  }

  /** Each text tells the count it was made from. */
  lemma LikeCounterTextsDetermineCount(a: int, b: int)
    ensures ScreenReaderText(a) == ScreenReaderText(b) ==> a == b
    ensures VisibleText(a) == VisibleText(b) ==> a == b
  {
    LikeCounterTexts(a);
    LikeCounterTexts(b);
    var x := if a == 1 then " like" else " likes";
    var y := if b == 1 then " like" else " likes";
    if ScreenReaderText(a) == ScreenReaderText(b) {
      Decimal.IntToStringPrefixUnique(a, b, x, y);
    }
    if VisibleText(a) == VisibleText(b) {
      Decimal.IntToStringInjective(a, b);
    }
  }
}
