/** The name dialog (src/components/NameEntryDialog.tsx): the name schema (trim, then at least 2
    and at most 50 characters) and the submit handler that shows the first error or hands the
    trimmed name to the page. */
module NameEntryDialog {

  /** The characters `String.prototype.trim` removes: JavaScript's WhiteSpace and
      LineTerminator code points. */
  predicate IsJsWhitespace(c: char) {
    || c == '\t' || c == '\n' || c == '\U{000B}' || c == '\U{000C}' || c == '\r' || c == ' '
    || c == '\U{00A0}' || c == '\U{1680}' || ('\U{2000}' <= c <= '\U{200A}')
    || c == '\U{2028}' || c == '\U{2029}' || c == '\U{202F}' || c == '\U{205F}' || c == '\U{3000}'
    || c == '\U{FEFF}'
  }

  predicate AllWhitespace(s: string) {
    forall i :: 0 <= i < |s| ==> IsJsWhitespace(s[i])
  }

  /** Neither starts nor ends with whitespace. */
  predicate IsTrimmed(s: string) {
    s == [] || (!IsJsWhitespace(s[0]) && !IsJsWhitespace(s[|s| - 1]))
  }

  /** Drops leading whitespace. */
  function TrimStart(s: string): (r: string)
    ensures |r| <= |s| && r == s[|s| - |r|..]
    ensures r != [] ==> !IsJsWhitespace(r[0])
  {
    if s != [] && IsJsWhitespace(s[0]) then TrimStart(s[1..]) else s
  }

  /** Everything TrimStart drops is whitespace. */
  lemma {:induction false} TrimStartDropsWhitespace(s: string)
    ensures AllWhitespace(s[..|s| - |TrimStart(s)|])
  {
    if s != [] && IsJsWhitespace(s[0]) {
      TrimStartDropsWhitespace(s[1..]);
      var dropped := s[..|s| - |TrimStart(s)|];
      forall i | 0 <= i < |dropped|
        ensures IsJsWhitespace(dropped[i])
      {
        if i > 0 {
          assert dropped[i] == s[1..][..|s| - 1 - |TrimStart(s[1..])|][i - 1];
        }
      }
    }
  }

  /** Drops trailing whitespace. */
  function TrimEnd(s: string): (r: string)
    ensures |r| <= |s| && r == s[..|r|]
    ensures r != [] ==> !IsJsWhitespace(r[|r| - 1])
  {
    if s != [] && IsJsWhitespace(s[|s| - 1]) then TrimEnd(s[..|s| - 1]) else s
  }

  /** Everything TrimEnd drops is whitespace. */
  lemma {:induction false} TrimEndDropsWhitespace(s: string)
    ensures AllWhitespace(s[|TrimEnd(s)|..])
  {
    if s != [] && IsJsWhitespace(s[|s| - 1]) {
      TrimEndDropsWhitespace(s[..|s| - 1]);
      var kept := |TrimEnd(s)|;
      forall i | kept <= i < |s|
        ensures IsJsWhitespace(s[i])
      {
        if i < |s| - 1 {
          assert s[i] == s[..|s| - 1][kept..][i - kept];
        }
      }
    }
  }

  /** `String.prototype.trim`, as zod's `.trim()` applies it. */
  function Trim(s: string): (r: string)
    ensures IsTrimmed(r)
  {
    TrimEnd(TrimStart(s))
  }

  /** Trim keeps the part of s between its leading and its trailing whitespace. */
  lemma TrimKeepsMiddle(s: string)
    ensures exists i, j :: 0 <= i <= j <= |s| && Trim(s) == s[i..j] && AllWhitespace(s[..i]) && AllWhitespace(s[j..])
  {
    var t := TrimStart(s);
    var r := TrimEnd(t);
    TrimStartDropsWhitespace(s);
    TrimEndDropsWhitespace(t);
    var i := |s| - |t|;
    var j := i + |r|;
    SliceOfSuffix(s, i, |r|);
    assert r == s[i..j];
    assert AllWhitespace(s[..i]) && AllWhitespace(s[j..]);
  }

  lemma SliceOfSuffix<T>(s: seq<T>, i: nat, n: nat)
    requires i + n <= |s|
    ensures s[i..][..n] == s[i..i + n]
    ensures s[i..][n..] == s[i + n..]
  {
  }

  /** A string that is already trimmed is left as it is. */
  lemma TrimmedIsFixed(s: string)
    requires IsTrimmed(s)
    ensures Trim(s) == s
  {
    assert TrimStart(s) == s;
    assert TrimEnd(s) == s;
  }

  /** Trimming twice is trimming once. */
  lemma TrimIdempotent(s: string)
    ensures Trim(Trim(s)) == Trim(s)
  {
    TrimmedIsFixed(Trim(s));
  }

  /** JavaScript's `length`: UTF-16 code units, two for a character outside the Basic
      Multilingual Plane. */
  function Utf16Length(s: string): (n: nat)
    ensures |s| <= n <= 2 * |s|
  {
    if s == [] then 0 else (if s[0] as int > 0xFFFF then 2 else 1) + Utf16Length(s[1..])
  }

  const MinNameLength: nat := 2
  const MaxNameLength: nat := 50
  const TooShortMessage: string := "Name must be at least 2 characters"
  const TooLongMessage: string := "Name must be less than 50 characters"

  /** The outcome of `nameSchema.safeParse`: the parsed (trimmed) name, or the first issue's
      message. */
  datatype Validation = Accepted(name: string) | Rejected(message: string)

  /** `nameSchema`: trim, then `.min(2)` and `.max(50)` on the trimmed length. */
  function ValidateName(input: string): (v: Validation)
    ensures v.Accepted? <==> MinNameLength <= Utf16Length(Trim(input)) <= MaxNameLength
    ensures v.Accepted? ==> v.name == Trim(input) && IsTrimmed(v.name) && v.name != []
    ensures Utf16Length(Trim(input)) < MinNameLength ==> v == Rejected(TooShortMessage)
    ensures Utf16Length(Trim(input)) > MaxNameLength ==> v == Rejected(TooLongMessage)
  {
    var trimmed := Trim(input);
    var length := Utf16Length(trimmed);
    if length < MinNameLength then Rejected(TooShortMessage)
    else if length > MaxNameLength then Rejected(TooLongMessage)
    else Accepted(trimmed)
  }

  /** An accepted name passes the schema again unchanged. */
  lemma AcceptedNameRevalidates(input: string)
    requires ValidateName(input).Accepted?
    ensures ValidateName(ValidateName(input).name) == ValidateName(input)
  {
    TrimIdempotent(input);
  }

  /** The bound is inclusive: a name whose trimmed length is exactly 50 passes, although the
      message for longer names says "less than 50"; a trimmed length of 51 is refused with it. */
  lemma FiftyCharactersAccepted(input: string)
    ensures Utf16Length(Trim(input)) == 50 ==> ValidateName(input) == Accepted(Trim(input))
    ensures Utf16Length(Trim(input)) == 51 ==> ValidateName(input) == Rejected(TooLongMessage)
  {
  }

  /** A single letter surrounded by spaces is too short once trimmed. */
  lemma PaddedLetterTooShort()
    ensures ValidateName(" a ") == Rejected(TooShortMessage)
  {
    TrimPaddedLetter();
    assert Utf16Length("a") == 1;
  }

  lemma TrimPaddedLetter()
    ensures Trim(" a ") == "a"
  {
    assert IsJsWhitespace(' ') && !IsJsWhitespace('a');
    assert " a "[1..] == "a ";
    assert TrimStart("a ") == "a ";
    assert TrimStart(" a ") == "a ";
    assert "a "[..1] == "a";
    assert TrimEnd("a") == "a";
    assert TrimEnd("a ") == "a";
  }

  /** A character outside the Basic Multilingual Plane counts twice: a single emoji already
      meets the two-character minimum. */
  lemma SingleEmojiAccepted()
    ensures ValidateName("\U{1F600}") == Accepted("\U{1F600}")
  {
    var emoji := "\U{1F600}";
    assert TrimStart(emoji) == emoji;
    assert TrimEnd(emoji) == emoji;
    assert Utf16Length(emoji[1..]) == 0;
  }

  /** Without characters outside the Basic Multilingual Plane, the JavaScript length is the
      number of characters. */
  lemma {:induction false} AllBmpLength(s: string)
    requires forall i :: 0 <= i < |s| ==> s[i] as int <= 0xFFFF
    ensures Utf16Length(s) == |s|
  {
    if s != [] {
      AllBmpLength(s[1..]);
    }
  }

  /** The dialog's state: the text field, the error line, and the calls made to `onSubmit`. */
  class Dialog {
    var name: string
    var error: string
    var submitted: seq<string>

    constructor ()
      ensures name == "" && error == "" && submitted == []
    {
      name := "";
      error := "";
      submitted := [];
    }

    /** The input's `onChange`. */
    method Change(value: string)
      modifies this`name
      ensures name == value
    {
      name := value;
    }

    /** `handleSubmit`: on a rejected name, show its message and do not call `onSubmit`; on an
        accepted one, clear the error and call `onSubmit` once with the trimmed name. */
    method HandleSubmit()
      modifies this`error, this`submitted
      ensures ValidateName(name).Rejected? ==>
        error == ValidateName(name).message && submitted == old(submitted)
      ensures ValidateName(name).Accepted? ==>
        error == "" && submitted == old(submitted) + [Trim(name)]
    {
      var result := ValidateName(name);
      if result.Rejected? {
        error := result.message;
        return;
      }
      error := "";
      submitted := submitted + [result.name];
    }
  }
}
