/**
 * The feed (src/components/ThoughtList.tsx): how old a thought is, in
 * words, and the set of thoughts currently shown as new.
 */
module ThoughtList {

  import opened App
  import Decimal

  /** `Math.floor((now - posted) / 1000)`: whole seconds elapsed, rounded down (also for a time in the future). */
  function ElapsedSeconds(nowMs: int, postedMs: int): (n: int)
    ensures n * 1000 <= nowMs - postedMs < n * 1000 + 1000
  {
    (nowMs - postedMs) / 1000
  }

  datatype TimeUnit = Second | Minute | Hour | Day

  function UnitSeconds(u: TimeUnit): nat {
    match u
    case Second => 1
    case Minute => 60
    case Hour => 3600
    case Day => 86400
  }

  function UnitName(u: TimeUnit): string {
    match u
    case Second => "second"
    case Minute => "minute"
    case Hour => "hour"
    case Day => "day"
  }

  /** An age as a count of one unit. */
  datatype Age = Age(count: int, unit: TimeUnit)

  /**
   * The unit `formatTimestamp` picks: seconds below a minute, otherwise the
   * largest of minutes, hours and days that fits in the age. Seconds are
   * counted as they are; the count of the other units is BucketCount's.
   */
  function Bucket(seconds: int): (a: Age)
    ensures a.unit == Second <==> seconds < 60
    ensures a.unit == Minute <==> 60 <= seconds < 3600
    ensures a.unit == Hour <==> 3600 <= seconds < 86400
    ensures a.unit == Day <==> 86400 <= seconds
    ensures a.unit == Second ==> a.count == seconds
  {
    if seconds < 60 then Age(seconds, Second)
    else if seconds < 3600 then Age(seconds / 60, Minute)
    else if seconds < 86400 then Age(seconds / 3600, Hour)
    else Age(seconds / 86400, Day)
  }

  /**
   * Minutes, hours and days are whole units of the age, rounded down:
   * minutes run from 1 to 59, hours from 1 to 23, and days start at 1.
   */
  lemma BucketCount(seconds: int)
    ensures var a := Bucket(seconds);
            a.unit != Second ==> a.count * UnitSeconds(a.unit) <= seconds < (a.count + 1) * UnitSeconds(a.unit)
    ensures Bucket(seconds).unit == Minute ==> 1 <= Bucket(seconds).count <= 59
    ensures Bucket(seconds).unit == Hour ==> 1 <= Bucket(seconds).count <= 23
    ensures Bucket(seconds).unit == Day ==> 1 <= Bucket(seconds).count
  {
  }

  /** Seconds are always "seconds"; the other units take an "s" only for a count above 1. */
  function PluralSuffix(a: Age): (s: string)
    ensures s == "s" <==> a.unit == Second || a.count > 1
    ensures s == "" <==> a.unit != Second && a.count <= 1
  {
    if a.unit == Second || a.count > 1 then "s" else ""
  }

  /** Everything in a label after the number. */
  function Tail(a: Age): string {
    " " + UnitName(a.unit) + PluralSuffix(a) + " ago"
  }

  function Render(a: Age): string {
    Decimal.IntToString(a.count) + Tail(a)
  }

  /** `formatTimestamp`: the label under a thought posted at `postedMs`, read at `nowMs`. */
  function FormatTimestamp(nowMs: int, postedMs: int): string {
    Render(Bucket(ElapsedSeconds(nowMs, postedMs)))
  }

  /** Every label ends in " ago". */
  lemma FormatTimestampEndsWithAgo(nowMs: int, postedMs: int)
    ensures var text := FormatTimestamp(nowMs, postedMs);
            |text| >= 4 && text[|text| - 4..] == " ago"
  {
    var a := Bucket(ElapsedSeconds(nowMs, postedMs));
    var front := Decimal.IntToString(a.count) + " " + UnitName(a.unit) + PluralSuffix(a);
    assert Render(a) == front + " ago";
  }

  /** Below a minute the label is "<n> seconds ago", with no singular form even for 0 or 1. */
  lemma FormatSeconds(nowMs: int, postedMs: int)
    requires ElapsedSeconds(nowMs, postedMs) < 60
    ensures FormatTimestamp(nowMs, postedMs) == Decimal.IntToString(ElapsedSeconds(nowMs, postedMs)) + " seconds ago"
  {
  }

  /** From a minute up to an hour: whole minutes, 1 to 59, with an "s" only above 1. */
  lemma FormatMinutes(nowMs: int, postedMs: int)
    requires var n := ElapsedSeconds(nowMs, postedMs); 60 <= n < 3600
    ensures var m := ElapsedSeconds(nowMs, postedMs) / 60;
            && 1 <= m <= 59
            && FormatTimestamp(nowMs, postedMs) == Decimal.IntToString(m) + " minute" + (if m > 1 then "s" else "") + " ago"
  {
    var n := ElapsedSeconds(nowMs, postedMs);
    var a := Bucket(n);
    BucketCount(n);
    assert a == Age(n / 60, Minute);
    assert Tail(a) == " minute" + PluralSuffix(a) + " ago";
  }

  /** From an hour up to a day: whole hours, 1 to 23, with an "s" only above 1. */
  lemma FormatHours(nowMs: int, postedMs: int)
    requires var n := ElapsedSeconds(nowMs, postedMs); 3600 <= n < 86400
    ensures var h := ElapsedSeconds(nowMs, postedMs) / 3600;
            && 1 <= h <= 23
            && FormatTimestamp(nowMs, postedMs) == Decimal.IntToString(h) + " hour" + (if h > 1 then "s" else "") + " ago"
  {
    var n := ElapsedSeconds(nowMs, postedMs);
    var a := Bucket(n);
    BucketCount(n);
    assert a == Age(n / 3600, Hour);
    assert Tail(a) == " hour" + PluralSuffix(a) + " ago";
  }

  /** From a day on: whole days, at least 1, with an "s" only above 1. */
  lemma FormatDays(nowMs: int, postedMs: int)
    requires 86400 <= ElapsedSeconds(nowMs, postedMs)
    ensures var d := ElapsedSeconds(nowMs, postedMs) / 86400;
            && 1 <= d
            && FormatTimestamp(nowMs, postedMs) == Decimal.IntToString(d) + " day" + (if d > 1 then "s" else "") + " ago"
  {
    var n := ElapsedSeconds(nowMs, postedMs);
    var a := Bucket(n);
    BucketCount(n);
    assert a == Age(n / 86400, Day);
    assert Tail(a) == " day" + PluralSuffix(a) + " ago";
  }

  /**
   * The unit name starts right after the blank that follows the number, and
   * the four names differ there. RenderInjective uses that the tail does not
   * start with a digit.
   */
  lemma TailNamesUnit(a: Age)
    ensures |Tail(a)| > |UnitName(a.unit)| + 1 && Tail(a)[0] == ' ' && !Decimal.IsDigit(Tail(a)[0])
    ensures Tail(a)[1..|UnitName(a.unit)| + 1] == UnitName(a.unit)
    ensures Tail(a)[1] == match a.unit case Second => 's' case Minute => 'm' case Hour => 'h' case Day => 'd'
  {
    assert Tail(a) == [' '] + UnitName(a.unit) + PluralSuffix(a) + " ago";
  }

  /** Different ages never share a label: the label gives back the count and the unit. */
  lemma RenderInjective(a: Age, b: Age)
    requires Render(a) == Render(b)
    ensures a == b
  {
    TailNamesUnit(a);
    TailNamesUnit(b);
    Decimal.IntToStringPrefixUnique(a.count, b.count, Tail(a), Tail(b));
  }

  lemma SmallNumbers()
    ensures Decimal.IntToString(0) == "0" && Decimal.IntToString(1) == "1"
    ensures Decimal.IntToString(2) == "2" && Decimal.IntToString(-5) == "-5"
    ensures Decimal.IntToString(10) == "10" && Decimal.IntToString(15) == "15"
    ensures Decimal.IntToString(30) == "30"
  {
    assert Decimal.NatToString(1) == "1";
    assert Decimal.NatToString(3) == "3";
    assert Decimal.NatToString(5) == "5";
  }

  /** Seconds have no singular: the label reads "seconds" for 0, for 1 and for an age in the future. */
  lemma SecondsExamples(nowMs: int)
    ensures FormatTimestamp(nowMs, nowMs) == "0 seconds ago"
    ensures FormatTimestamp(nowMs, nowMs - 1999) == "1 seconds ago"
    ensures FormatTimestamp(nowMs, nowMs + 5000) == "-5 seconds ago"
  {
    SmallNumbers();
    assert Bucket(ElapsedSeconds(nowMs, nowMs)) == Age(0, Second);
    assert Render(Age(0, Second)) == "0 seconds ago";
    assert Bucket(ElapsedSeconds(nowMs, nowMs - 1999)) == Age(1, Second);
    assert Render(Age(1, Second)) == "1 seconds ago";
    assert Bucket(ElapsedSeconds(nowMs, nowMs + 5000)) == Age(-5, Second);
    assert Render(Age(-5, Second)) == "-5 seconds ago";
  }

  /** The other units are singular for a count of 1 and plural above. */
  lemma UnitExamples(nowMs: int)
    ensures FormatTimestamp(nowMs, nowMs - 90 * 1000) == "1 minute ago"
    ensures FormatTimestamp(nowMs, nowMs - 2 * 3600 * 1000) == "2 hours ago"
    ensures FormatTimestamp(nowMs, nowMs - 86400 * 1000) == "1 day ago"
  {
    SmallNumbers();
    assert ElapsedSeconds(nowMs, nowMs - 90 * 1000) == 90;
    assert Bucket(90) == Age(1, Minute);
    assert ElapsedSeconds(nowMs, nowMs - 2 * 3600 * 1000) == 7200;
    assert Bucket(7200) == Age(2, Hour);
    assert ElapsedSeconds(nowMs, nowMs - 86400 * 1000) == 86400;
    assert Bucket(86400) == Age(1, Day);
  }

  /** The seed thoughts are labelled "30 seconds ago", "10 minutes ago" and "15 minutes ago" at start-up. */
  lemma SeedTimestamps(nowMs: int)
    ensures FormatTimestamp(nowMs, SeedThoughts(nowMs)[0].timestamp) == "30 seconds ago"
    ensures FormatTimestamp(nowMs, SeedThoughts(nowMs)[1].timestamp) == "10 minutes ago"
    ensures FormatTimestamp(nowMs, SeedThoughts(nowMs)[2].timestamp) == "15 minutes ago"
  {
    SmallNumbers();
    assert ElapsedSeconds(nowMs, SeedThoughts(nowMs)[0].timestamp) == 30;
    assert ElapsedSeconds(nowMs, SeedThoughts(nowMs)[1].timestamp) == 600;
    assert ElapsedSeconds(nowMs, SeedThoughts(nowMs)[2].timestamp) == 900;
    assert Bucket(600) == Age(10, Minute);
    assert Bucket(900) == Age(15, Minute);
    assert Render(Age(30, Second)) == "30 seconds ago";
    assert Render(Age(10, Minute)) == "10 minutes ago";
    assert Render(Age(15, Minute)) == "15 minutes ago";
  }

  /** The feed's own state: the ids of the thoughts currently drawn with the fade-in animation. */
  class Feed {
    var newThoughts: set<string>

    constructor ()
      ensures newThoughts == {}
    {
      newThoughts := {};
    }

    /**
     * `handleNewThought`: marks `id` as new if it is not marked already;
     * `added` says whether it was. A second call with the same id is a no-op.
     */
    method HandleNewThought(id: string) returns (added: bool)
      modifies this
      ensures added == (id !in old(newThoughts))
      ensures newThoughts == old(newThoughts) + {id}
      ensures !added ==> newThoughts == old(newThoughts)
    {
      added := id !in newThoughts;
      if added {
        newThoughts := newThoughts + {id};
      }
    }

    /** The callback the two-second timer runs: `id` is no longer new. */
    method ExpireNewThought(id: string)
      modifies this
      ensures newThoughts == old(newThoughts) - {id}
    {
      newThoughts := newThoughts - {id};
    }

    /**
     * One pass of the feed's `thoughts.map`. Each thought is drawn as new
     * when its id was in the set when the pass started (React state is a
     * snapshot for the whole pass); the first thought of the list is marked
     * new if it is not already.
     */
    method RenderFeed(thoughts: seq<Thought>) returns (isNew: seq<bool>)
      modifies this
      ensures |isNew| == |thoughts|
      ensures forall k | 0 <= k < |thoughts| :: isNew[k] == (thoughts[k].id in old(newThoughts))
      ensures newThoughts == if thoughts == [] then old(newThoughts) else old(newThoughts) + {thoughts[0].id}
    {
      var snapshot := newThoughts;
      isNew := [];
      for i := 0 to |thoughts|
        invariant |isNew| == i
        invariant forall k | 0 <= k < i :: isNew[k] == (thoughts[k].id in snapshot)
        invariant newThoughts == if i == 0 then snapshot else snapshot + {thoughts[0].id}
      {
        var thought := thoughts[i];
        isNew := isNew + [thought.id in snapshot];
        if i == 0 && thought.id !in snapshot {
          var _ := HandleNewThought(thought.id);
        }
      }
    }

    /**
     * The render React keeps. A pass that marked the first thought new set
     * state while rendering, so React throws its output away and runs the
     * component again at once; that second pass sets nothing. The first
     * thought is therefore always drawn as new.
     */
    method Show(thoughts: seq<Thought>) returns (isNew: seq<bool>)
      modifies this
      ensures |isNew| == |thoughts|
      ensures newThoughts == if thoughts == [] then old(newThoughts) else old(newThoughts) + {thoughts[0].id}
      ensures forall k | 0 <= k < |thoughts| :: isNew[k] == (thoughts[k].id in newThoughts)
      ensures thoughts != [] ==> isNew[0]
    {
      var before := newThoughts;
      isNew := RenderFeed(thoughts);
      if newThoughts != before {
        isNew := RenderFeed(thoughts);
      }
    }

    /**
     * The two-second timer fires for `id` and the feed renders again. When
     * `id` is the first thought's, the render puts it straight back, so the
     * first thought keeps its fade-in and the timer is armed once more.
     */
    method ExpireThenShow(id: string, thoughts: seq<Thought>) returns (isNew: seq<bool>)
      modifies this
      ensures |isNew| == |thoughts|
      ensures newThoughts == if thoughts == [] then old(newThoughts) - {id} else (old(newThoughts) - {id}) + {thoughts[0].id}
      ensures forall k | 0 <= k < |thoughts| :: isNew[k] == (thoughts[k].id in newThoughts)
      ensures thoughts != [] && thoughts[0].id == id ==> newThoughts == old(newThoughts) + {id} && isNew[0]
      ensures thoughts != [] && thoughts[0].id != id ==> id !in newThoughts
    {
      ExpireNewThought(id);
      isNew := Show(thoughts);
    }
  }
}
