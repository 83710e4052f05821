/**
 * The board's list of thoughts (src/App.tsx): the record, the three
 * thoughts it starts with, posting a thought and liking one. Every
 * operation builds a new list, as `setThoughts` replaces the whole list.
 *
 * Times are milliseconds since the epoch, passed in instead of read from
 * the clock; the id of a new thought is passed in as well.
 */
module App {

  datatype Thought = Thought(id: string, message: string, likes: int, timestamp: int)

  /** The list the board starts with, relative to the start-up time `nowMs`. */
  function SeedThoughts(nowMs: int): (r: seq<Thought>)
    ensures |r| == 3
    ensures forall j, k | 0 <= j < k < |r| :: r[j].id != r[k].id && r[j].timestamp > r[k].timestamp
    ensures forall k | 0 <= k < |r| :: r[k].likes >= 0 && r[k].timestamp < nowMs
  {
    [ Thought("1", "I'm happy because we just moved into a new apartment!", 0, nowMs - 30 * 1000),
      Thought("2", "It's my birthday!!!", 10, nowMs - 10 * 60 * 1000),
      Thought("3", "I'm happy because the sun is out :)", 23, nowMs - 15 * 60 * 1000) ]
  }

  /** `addThought`: the new thought, with no likes, goes in front of the existing ones. */
  function AddThought(thoughts: seq<Thought>, message: string, id: string, nowMs: int): (r: seq<Thought>)
    ensures |r| == |thoughts| + 1
    ensures r[0].id == id && r[0].message == message && r[0].likes == 0 && r[0].timestamp == nowMs
    ensures r[1..] == thoughts
  {
    [Thought(id, message, 0, nowMs)] + thoughts
  }

  /** One entry after a like on `id`. */
  function LikeEntry(t: Thought, id: string): Thought {
    if t.id == id then t.(likes := t.likes + 1) else t
  }

  /**
   * `handleLike`: the same list, in the same order, where every entry
   * whose id is `id` has one like more and every other entry is untouched.
   */
  function HandleLike(thoughts: seq<Thought>, id: string): (r: seq<Thought>)
    ensures |r| == |thoughts|
    ensures forall k | 0 <= k < |r| ::
              && r[k].id == thoughts[k].id
              && r[k].message == thoughts[k].message
              && r[k].timestamp == thoughts[k].timestamp
    ensures forall k | 0 <= k < |r| ::
              r[k].likes == if thoughts[k].id == id then thoughts[k].likes + 1 else thoughts[k].likes
    ensures forall k | 0 <= k < |r| && thoughts[k].id != id :: r[k] == thoughts[k]
  {
    if thoughts == [] then [] else [LikeEntry(thoughts[0], id)] + HandleLike(thoughts[1..], id)
  }

  predicate HasId(thoughts: seq<Thought>, id: string) {
    exists k | 0 <= k < |thoughts| :: thoughts[k].id == id
  }

  /** Liking an id that no entry carries gives back the very same list. */
  lemma {:induction false} HandleLikeAbsent(thoughts: seq<Thought>, id: string)
    requires !HasId(thoughts, id)
    ensures HandleLike(thoughts, id) == thoughts
  {
    if thoughts != [] {
      assert thoughts[0].id != id;
      assert !HasId(thoughts[1..], id) by {
        forall k | 0 <= k < |thoughts| - 1 ensures thoughts[1..][k].id != id {
          assert thoughts[1..][k] == thoughts[k + 1];
        }
      }
      HandleLikeAbsent(thoughts[1..], id);
    }
  }

  /** A like never takes a like away, so counts that start non-negative stay non-negative. */
  lemma HandleLikeMonotone(thoughts: seq<Thought>, id: string)
    ensures forall k | 0 <= k < |thoughts| :: HandleLike(thoughts, id)[k].likes >= thoughts[k].likes
    ensures (forall k | 0 <= k < |thoughts| :: thoughts[k].likes >= 0) ==>
              forall k | 0 <= k < |thoughts| :: HandleLike(thoughts, id)[k].likes >= 0
  {
  }

  /** Likes on two ids give the same list whichever is applied first. */
  lemma {:induction false} HandleLikeCommutes(thoughts: seq<Thought>, a: string, b: string)
    ensures HandleLike(HandleLike(thoughts, a), b) == HandleLike(HandleLike(thoughts, b), a)
  {
    if thoughts != [] {
      HandleLikeCommutes(thoughts[1..], a, b);
    }
  }

  /**
   * Liking a thought right after posting it: the new thought has one like,
   * and so does every older thought that happens to share its id (ids are
   * clock readings and nothing keeps them distinct).
   */
  lemma LikeAfterPost(thoughts: seq<Thought>, message: string, id: string, nowMs: int)
    ensures HandleLike(AddThought(thoughts, message, id, nowMs), id)
            == [Thought(id, message, 1, nowMs)] + HandleLike(thoughts, id)
  {
  }

  /** The start-up list after a like on "2": 0, 11 and 23 likes. */
  lemma SeedLikeExample(nowMs: int)
    ensures var r := HandleLike(SeedThoughts(nowMs), "2");
            && r == [SeedThoughts(nowMs)[0], SeedThoughts(nowMs)[1].(likes := 11), SeedThoughts(nowMs)[2]]
            && r[0].likes == 0 && r[1].id == "2" && r[1].likes == 11 && r[2].likes == 23
  {
    var seed := SeedThoughts(nowMs);
    assert seed[0].id != "2" && seed[2].id != "2";
  }
}
