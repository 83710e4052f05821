/**
 * The post form (src/components/ThoughtForm.tsx): the length rule a post
 * must pass, the characters-left counter, and the form's two pieces of
 * state, the draft `message` and the `error` shown under it.
 */
module ThoughtForm {

  import opened Wrappers
  import opened JsString
  import Decimal

  const MaxLength: int := 140
  const MinLength: int := 5

  const TooShortError: string :=
    "Your message is too short. Please write at least " + Decimal.IntToString(MinLength) + " characters."
  const TooLongError: string :=
    "Your message is too long. Please keep it under " + Decimal.IntToString(MaxLength) + " characters."

  /** The two messages read as the form spells them out, with the limits filled in. */
  lemma ErrorTexts()
    ensures TooShortError == "Your message is too short. Please write at least 5 characters."
    ensures TooLongError == "Your message is too long. Please keep it under 140 characters."
    ensures TooShortError != TooLongError
  {
    assert Decimal.NatToString(5) == "5";
    assert Decimal.NatToString(14) == "14";
    assert Decimal.NatToString(1) == "1";
  }

  /** What submitting a draft leads to. */
  datatype Verdict = TooShort | TooLong | Accepted

  /**
   * The submit rule. The trimmed draft is checked first, so a draft that is
   * both too short once trimmed and too long as typed counts as too short;
   * the upper limit applies to the draft as typed, blanks included.
   */
  function Validate(message: string): (v: Verdict)
    ensures v == TooShort <==> Utf16Length(Trim(message)) < MinLength
    ensures v == TooLong <==> MinLength <= Utf16Length(Trim(message)) && Utf16Length(message) > MaxLength
    ensures v == Accepted <==> MinLength <= Utf16Length(Trim(message)) && Utf16Length(message) <= MaxLength
  {
    if Utf16Length(Trim(message)) < MinLength then TooShort
    else if Utf16Length(message) > MaxLength then TooLong
    else Accepted
  }

  /** The error the form shows after a submit with this verdict. */
  function ErrorFor(v: Verdict): (e: Option<string>)
    ensures e == None <==> v == Accepted
    ensures e.Some? ==> e.value != ""
    ensures e == Some(TooShortError) <==> v == TooShort
    ensures e == Some(TooLongError) <==> v == TooLong
  {
    ErrorTexts();
    match v
    case TooShort => Some(TooShortError)
    case TooLong => Some(TooLongError)
    case Accepted => None
  }

  /** `charactersLeft`: what the counter under the text area shows. */
  function CharactersLeft(message: string): (left: int)
    ensures left == MaxLength - Utf16Length(message)
    ensures left <= MaxLength - |message|
    ensures left == MaxLength <==> message == []
  {
    MaxLength - Utf16Length(message)
  }

  /** For text without characters outside the Basic Multilingual Plane, the counter is 140 minus the number of characters. */
  lemma CharactersLeftOfBmp(message: string)
    requires forall k | 0 <= k < |message| :: message[k] as int <= 0xFFFF
    ensures CharactersLeft(message) == MaxLength - |message|
  {
    Utf16LengthOfBmp(message);
  }

  /** `isOverLimit`: the counter turns red exactly when the draft is longer than the limit. */
  function IsOverLimit(message: string): (over: bool)
    ensures over <==> Utf16Length(message) > MaxLength
  {
    CharactersLeft(message) < 0
  }

  /**
   * An accepted draft is between 5 and 140 code units long, both as typed
   * and trimmed, and the counter shows between 0 and 135 for it.
   */
  lemma AcceptedBounds(message: string)
    requires Validate(message) == Accepted
    ensures MinLength <= Utf16Length(Trim(message)) <= Utf16Length(message) <= MaxLength
    ensures 0 <= CharactersLeft(message) <= MaxLength - MinLength
    ensures !IsOverLimit(message)
  {
  }

  /** A draft the counter shows as over the limit is never accepted. */
  lemma OverLimitNeverAccepted(message: string)
    requires IsOverLimit(message)
    ensures Validate(message) != Accepted
  {
  }

  function Spaces(n: nat): (s: string)
    ensures |s| == n && AllWhitespace(s)
  {
    seq(n, _ => ' ')
  }

  /** Padding never rescues a short draft: blanks in front of it leave it too short, however long they make it. */
  lemma PaddingKeepsTooShort(padding: string, message: string)
    requires AllWhitespace(padding)
    requires Validate(message) == TooShort
    ensures Validate(padding + message) == TooShort
  {
    TrimIgnoresLeadingBlanks(padding, message);
  }

  /** 150 spaces followed by "abc" is over the limit as typed and is still reported as too short. */
  lemma TooShortTakesPrecedence()
    ensures var m := Spaces(150) + "abc"; Utf16Length(m) > MaxLength && Validate(m) == TooShort
  {
    var m := Spaces(150) + "abc";
    assert Trim("abc") == "abc" by {
      assert LeadingBlanks("abc") == 0;
      assert TrailingBlanks("abc") == 0;
    }
    Utf16LengthOfBmp("abc");
    assert Validate("abc") == TooShort;
    PaddingKeepsTooShort(Spaces(150), "abc");
    Utf16LengthConcat(Spaces(150), "abc");
  }

  /** The form's state: the draft being typed and the error on display. */
  class Form {
    var message: string
    var error: Option<string>

    /** The only errors the form ever shows are its two messages. */
    ghost predicate Valid()
      reads this
    {
      error == None || error == Some(TooShortError) || error == Some(TooLongError)
    }

    constructor ()
      ensures Valid()
      ensures message == "" && error == None
    {
      message := "";
      error := None;
    }

    /** The effect run when the `isPosting` prop changes: a post in flight clears the error. */
    method OnPostingChanged(isPosting: bool)
      requires Valid()
      modifies this
      ensures Valid()
      ensures message == old(message)
      ensures error == if isPosting then None else old(error)
    {
      if isPosting {
        error := None;
      }
    }

    /** `handleChange`: the draft becomes what was typed and any error goes away. */
    method HandleChange(value: string)
      requires Valid()
      modifies this
      ensures Valid()
      ensures message == value && error == None
    {
      message := value;
      // `if (error)`: only a non-empty error string is truthy
      if error.Some? && error.value != "" {
        error := None;
      }
    }

    /**
     * `handleSubmit`. Returns the text handed to `onSubmit`, or None when
     * `onSubmit` is not called. A rejected draft stays in the text area with
     * the matching error; an accepted one is handed on as typed, untrimmed,
     * and the form is cleared.
     */
    method HandleSubmit() returns (submitted: Option<string>)
      requires Valid()
      modifies this
      ensures Valid()
      ensures submitted == if Validate(old(message)) == Accepted then Some(old(message)) else None
      ensures message == if submitted.Some? then "" else old(message)
      ensures error == ErrorFor(Validate(old(message)))
    {
      if Utf16Length(Trim(message)) < MinLength {
        error := Some(TooShortError);
        return None;
      }
      if Utf16Length(message) > MaxLength {
        error := Some(TooLongError);
        return None;
      }
      submitted := Some(message);
      message := "";
      error := None;
    }
  }
}
