/**
 * The "You've liked N thoughts" line (src/components/MyLikedThoughts.tsx):
 * the thoughts whose id is in the liked-id list, and the sentence that
 * counts them.
 */
module MyLikedThoughts {

  import opened App
  import Decimal

  /** `thoughts.filter((t) => likedThoughtIds.includes(t.id))`. */
  function LikedThoughts(thoughts: seq<Thought>, likedIds: seq<string>): (r: seq<Thought>)
    ensures |r| <= |thoughts|
    ensures forall t :: t in r <==> t in thoughts && t.id in likedIds
  {
    if thoughts == [] then []
    else (if thoughts[0].id in likedIds then [thoughts[0]] else []) + LikedThoughts(thoughts[1..], likedIds)
  }

  /** The filter keeps the original relative order: filtering a concatenation filters each part in place. */
  lemma {:induction false} LikedThoughtsConcat(a: seq<Thought>, b: seq<Thought>, likedIds: seq<string>)
    ensures LikedThoughts(a + b, likedIds) == LikedThoughts(a, likedIds) + LikedThoughts(b, likedIds)
  {
    if a == [] {
      assert a + b == b;
    } else {
      assert (a + b)[0] == a[0];
      assert (a + b)[1..] == a[1..] + b;
      LikedThoughtsConcat(a[1..], b, likedIds);
    }
  }

  /**
   * Only which ids of these thoughts are in the list matters: duplicated ids,
   * ids of thoughts not on the board and the order of the ids change nothing.
   */
  lemma {:induction false} LikedThoughtsOnlyMatchingIdsMatter(thoughts: seq<Thought>, ids1: seq<string>, ids2: seq<string>)
    requires forall k | 0 <= k < |thoughts| :: thoughts[k].id in ids1 <==> thoughts[k].id in ids2
    ensures LikedThoughts(thoughts, ids1) == LikedThoughts(thoughts, ids2)
  {
    if thoughts != [] {
      assert thoughts[0].id in ids1 <==> thoughts[0].id in ids2;
      forall k | 0 <= k < |thoughts| - 1
        ensures thoughts[1..][k].id in ids1 <==> thoughts[1..][k].id in ids2
      {
        assert thoughts[1..][k] == thoughts[k + 1];
      }
      LikedThoughtsOnlyMatchingIdsMatter(thoughts[1..], ids1, ids2);
    }
  }

  /** Liking the same id twice in the list does not inflate the count. */
  lemma DuplicateIdsDoNotCount(thoughts: seq<Thought>, likedIds: seq<string>, id: string)
    requires id in likedIds
    ensures LikedThoughts(thoughts, likedIds + [id]) == LikedThoughts(thoughts, likedIds)
  {
    LikedThoughtsOnlyMatchingIdsMatter(thoughts, likedIds + [id], likedIds);
  }

  /** Ids that no thought carries add nothing. */
  lemma UnmatchedIdsDoNotCount(thoughts: seq<Thought>, likedIds: seq<string>, extra: seq<string>)
    requires forall k | 0 <= k < |thoughts| :: thoughts[k].id !in extra
    ensures LikedThoughts(thoughts, likedIds + extra) == LikedThoughts(thoughts, likedIds)
  {
    LikedThoughtsOnlyMatchingIdsMatter(thoughts, likedIds + extra, likedIds);
  }

  /** "thought" for exactly one, "thoughts" otherwise, zero included. */
  function CountWord(count: int): (w: string)
    ensures w == "thought" <==> count == 1
    ensures w == "thoughts" <==> count != 1
  {
    if count == 1 then "thought" else "thoughts"
  }

  /** The rendered sentence. */
  function Summary(thoughts: seq<Thought>, likedIds: seq<string>): string {
    Sentence(|LikedThoughts(thoughts, likedIds)|)
  }

  /** The words in front of the count. */
  const Opening: string := "You\U{2019}ve liked "

  /** The sentence for a count of `n` liked thoughts. */
  function Sentence(n: int): string {
    Opening + (Decimal.IntToString(n) + (" " + CountWord(n)))
  }

  /** Two counts give the same sentence only when they are equal. */
  lemma SentenceInjective(n1: int, n2: int)
    requires Sentence(n1) == Sentence(n2)
    ensures n1 == n2
  {
    var a := Decimal.IntToString(n1) + (" " + CountWord(n1));
    var b := Decimal.IntToString(n2) + (" " + CountWord(n2));
    CommonPrefix(Opening, a, b);
    Decimal.IntToStringPrefixUnique(n1, n2, " " + CountWord(n1), " " + CountWord(n2));
  }

  lemma CommonPrefix(p: string, a: string, b: string)
    requires p + a == p + b
    ensures a == b
  {
    assert a == (p + a)[|p|..];
    assert b == (p + b)[|p|..];
  }

  /**
   * The sentence tells the count: two boards whose sentences read the same
   * have the same number of liked thoughts.
   */
  lemma SummaryTellsCount(t1: seq<Thought>, l1: seq<string>, t2: seq<Thought>, l2: seq<string>)
    requires Summary(t1, l1) == Summary(t2, l2)
    ensures |LikedThoughts(t1, l1)| == |LikedThoughts(t2, l2)|
  {
    SentenceInjective(|LikedThoughts(t1, l1)|, |LikedThoughts(t2, l2)|);
  }

  /** The sentence ends in "thought" for a single liked thought and in "thoughts" otherwise. */
  lemma SummaryWord(thoughts: seq<Thought>, likedIds: seq<string>)
    ensures var text := Summary(thoughts, likedIds);
            var n := |LikedThoughts(thoughts, likedIds)|;
            && |text| >= 8 && (n == 1 <==> text[|text| - 8..] == " thought")
            && (n != 1 ==> |text| >= 9 && text[|text| - 9..] == " thoughts")
  {
    SentenceWord(|LikedThoughts(thoughts, likedIds)|);
  }

  /** The sentence for one ends in " thought", and for any other count in " thoughts". */
  lemma SentenceWord(n: int)
    ensures var text := Sentence(n);
            && |text| >= 8 && (n == 1 <==> text[|text| - 8..] == " thought")
            && (n != 1 ==> |text| >= 9 && text[|text| - 9..] == " thoughts")
  {
    var front := Opening + Decimal.IntToString(n);
    assert Sentence(n) == front + (" " + CountWord(n));
    WordEnding(front, n);
  }

  lemma WordEnding(front: string, n: int)
    ensures var text := front + (" " + CountWord(n));
            && |text| >= 8 && (n == 1 <==> text[|text| - 8..] == " thought")
            && (n != 1 ==> |text| >= 9 && text[|text| - 9..] == " thoughts")
  {
    var word := " " + CountWord(n);
    Suffix(front, word);
    if n != 1 {
      assert word == " thoughts";
      Suffix(front + " ", "thoughts");
      assert front + word == (front + " ") + "thoughts";
    }
  }

  lemma Suffix(p: string, q: string)
    ensures (p + q)[|p + q| - |q|..] == q
  {
  }

  /** With both props at their defaults, nothing is liked and the word is plural. */
  lemma SummaryOfDefaults()
    ensures |LikedThoughts([], [])| == 0
    ensures Summary([], []) == "You\U{2019}ve liked 0 thoughts"
  {
    assert Decimal.IntToString(0) == "0";
  }
}
