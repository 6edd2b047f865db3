/**
 * Model of the contact form (scripts/components/contact-form.js): the checks on
 * name, email and message, the per-field check run when an input loses focus,
 * and the `isSubmitting` flag that keeps submissions from overlapping.
 */
module Contact {
  import opened Wrappers

  // ---------------------------------------------------------------------------
  // Whitespace and trim

  /**
   * ECMAScript white space and line terminators: the characters both
   * `String.prototype.trim` and the regular-expression class `\s` match. Each
   * is a single UTF-16 code unit and none is '@' or '.', so trimming and the
   * email pattern read the same whether a string is seen as code points or
   * as code units.
   */
  predicate IsWhitespace(c: char)
    ensures IsWhitespace(c) ==> c < '\U{10000}' && c != '@' && c != '.'
  {
    || c == '\U{0009}' || c == '\U{000A}' || c == '\U{000B}' || c == '\U{000C}' || c == '\U{000D}'
    || c == '\U{0020}' || c == '\U{00A0}' || c == '\U{1680}'
    || ('\U{2000}' <= c <= '\U{200A}')
    || c == '\U{2028}' || c == '\U{2029}' || c == '\U{202F}' || c == '\U{205F}'
    || c == '\U{3000}' || c == '\U{FEFF}'
  }

  /** Every character of `s` at an index in `[lo, hi)` is white space. */
  predicate WhitespaceBetween(s: string, lo: int, hi: int)
    requires 0 <= lo <= hi <= |s|
  {
    forall k :: lo <= k < hi ==> IsWhitespace(s[k])
  }

  predicate AllWhitespace(s: string) {
    WhitespaceBetween(s, 0, |s|)
  }

  predicate NoWhitespace(s: string) {
    forall k :: 0 <= k < |s| ==> !IsWhitespace(s[k])
  }

  /**
   * The first index at or after `lo` that does not hold white space (or `|s|`):
   * the scan `trim` makes from the start.
   */
  function SkipBlanksForward(s: string, lo: nat): (i: nat)
    requires lo <= |s|
    ensures lo <= i <= |s| && WhitespaceBetween(s, lo, i)
    ensures i == |s| || !IsWhitespace(s[i])
    decreases |s| - lo
  {
    if lo == |s| || !IsWhitespace(s[lo]) then lo else SkipBlanksForward(s, lo + 1)
  }

  /**
   * The end of `s[lo..hi]` once the white space it ends with is dropped: the
   * scan `trim` makes from the end, which stops at `lo`.
   */
  function SkipBlanksBackward(s: string, lo: nat, hi: nat): (j: nat)
    requires lo <= hi <= |s|
    ensures lo <= j <= hi && WhitespaceBetween(s, j, hi)
    ensures j == lo || !IsWhitespace(s[j - 1])
    decreases hi
  {
    if hi == lo || !IsWhitespace(s[hi - 1]) then hi else SkipBlanksBackward(s, lo, hi - 1)
  }

  /** Where the trimmed text starts in `s`: the number of leading white-space characters. */
  function TrimOffset(s: string): (i: nat)
    ensures i <= |s| && WhitespaceBetween(s, 0, i)
    ensures i == |s| || !IsWhitespace(s[i])
  {
    SkipBlanksForward(s, 0)
  }

  /**
   * `String.prototype.trim`: the slice of `s` from `TrimOffset(s)` that leaves
   * only white space on either side; it starts and ends with a non-white-space
   * character, and it is empty exactly when `s` is all white space.
   */
  function Trim(s: string): (r: string)
    ensures TrimOffset(s) + |r| <= |s| && r == s[TrimOffset(s)..TrimOffset(s) + |r|]
    ensures WhitespaceBetween(s, 0, TrimOffset(s)) && WhitespaceBetween(s, TrimOffset(s) + |r|, |s|)
    ensures r == [] || (!IsWhitespace(r[0]) && !IsWhitespace(r[|r| - 1]))
    ensures r == [] <==> AllWhitespace(s)
  {
    var i := TrimOffset(s);
    var j := SkipBlanksBackward(s, i, |s|);
    TrimEmptyOnlyIfBlank(s, i, j);
    s[i..j]
  }

  /** With only white space before `i` and after `j`, nothing is left between them exactly when `s` is blank. */
  lemma TrimEmptyOnlyIfBlank(s: string, i: nat, j: nat)
    requires i <= j <= |s| && WhitespaceBetween(s, 0, i) && WhitespaceBetween(s, j, |s|)
    requires i == |s| || !IsWhitespace(s[i])
    ensures i == j <==> AllWhitespace(s)
  {
    if i == j {
      forall k | 0 <= k < |s| ensures IsWhitespace(s[k]) {
      }
    }
  }

  /** A string that starts and ends with a non-white-space character trims to itself. */
  lemma TrimTight(s: string)
    requires s == [] || (!IsWhitespace(s[0]) && !IsWhitespace(s[|s| - 1]))
    ensures Trim(s) == s
  {
    assert TrimOffset(s) == 0;
    assert SkipBlanksBackward(s, 0, |s|) == |s|;
  }

  /** A string without white space trims to itself. */
  lemma TrimNoWhitespace(s: string)
    requires NoWhitespace(s)
    ensures Trim(s) == s
  {
    if s != [] {
      assert !IsWhitespace(s[0]) && !IsWhitespace(s[|s| - 1]);
    }
    TrimTight(s);
  }

  /** Trimming twice is trimming once. */
  lemma TrimIdempotent(s: string)
    ensures Trim(Trim(s)) == Trim(s)
  {
    TrimTight(Trim(s));
  }

  // ---------------------------------------------------------------------------
  // The email pattern ^[^\s@]+@[^\s@]+\.[^\s@]+$

  /** A character of the class `[^\s@]`. */
  predicate PlainChar(c: char) {
    !IsWhitespace(c) && c != '@'
  }

  /** A string matched by `[^\s@]+`. */
  predicate PlainRun(t: string) {
    |t| > 0 && forall k :: 0 <= k < |t| ==> PlainChar(t[k])
  }

  /**
   * The pattern read as its regular expression: `s` splits as
   * local + "@" + host + "." + tld with each of the three parts a `[^\s@]+`.
   */
  ghost predicate MatchesEmailPattern(s: string)
    ensures MatchesEmailPattern(s) ==> |s| >= 5
  {
    exists i, j :: 0 < i < j < |s| && s[i] == '@' && s[j] == '.' && PlainRun(s[..i]) && PlainRun(s[i + 1..j]) && PlainRun(s[j + 1..])
  }

  /** The number of occurrences of `c` in `s`. */
  function Count(s: string, c: char): (n: nat)
    ensures n <= |s|
    ensures n == 0 <==> c !in s
  {
    if s == [] then 0 else (if s[0] == c then 1 else 0) + Count(s[1..], c)
  }

  lemma {:induction false} CountAppend(a: string, b: string, c: char)
    ensures Count(a + b, c) == Count(a, c) + Count(b, c)
    decreases |a|
  {
    if a != [] {
      assert (a + b)[0] == a[0];
      assert (a + b)[1..] == a[1..] + b;
      CountAppend(a[1..], b, c);
    } else {
      assert a + b == b;
    }
  }

  /** The first index of `c` in `s`, or `|s|` when there is none. */
  function IndexOf(s: string, c: char): (i: nat)
    ensures i <= |s|
    ensures c !in s[..i]
    ensures i < |s| ==> s[i] == c
    ensures i == |s| <==> c !in s
  {
    if s == [] then 0
    else if s[0] == c then 0
    else
      var j := IndexOf(s[1..], c);
      assert s[..j + 1] == [s[0]] + s[1..][..j];
      1 + j
  }

  /** `d` has a '.' that is neither its first nor its last character. */
  predicate HasInnerDot(d: string) {
    exists j :: 0 < j < |d| - 1 && d[j] == '.'
  }

  /**
   * The pattern in plain words: no white space, exactly one '@', a non-empty
   * part before it, and after it a '.' with text on both sides.
   */
  predicate IsEmail(s: string)
    ensures IsEmail(s) ==> |s| >= 5
  {
    && NoWhitespace(s)
    && Count(s, '@') == 1
    && var i := IndexOf(s, '@');
       0 < i < |s| && HasInnerDot(s[i + 1..])
  }

  /** Splitting `s` around index `i` for counting. */
  lemma CountAround(s: string, i: int, c: char)
    requires 0 <= i < |s|
    ensures Count(s, c) == Count(s[..i], c) + (if s[i] == c then 1 else 0) + Count(s[i + 1..], c)
  {
    assert s == s[..i] + ([s[i]] + s[i + 1..]);
    CountAppend(s[..i], [s[i]] + s[i + 1..], c);
    CountAppend([s[i]], s[i + 1..], c);
  }

  /** A character that occurs at `i` and nowhere before is found at `i`. */
  lemma {:induction false} IndexOfFirst(s: string, c: char, i: nat)
    requires i < |s| && s[i] == c
    requires forall k :: 0 <= k < i ==> s[k] != c
    ensures IndexOf(s, c) == i
    decreases i
  {
    if i > 0 {
      IndexOfFirst(s[1..], c, i - 1);
    }
  }

  /** A slice of a string without white space and without '@' is a `[^\s@]+` run when non-empty. */
  lemma PlainSlice(s: string, lo: int, hi: int)
    requires 0 <= lo < hi <= |s| && NoWhitespace(s)
    requires forall k :: lo <= k < hi ==> s[k] != '@'
    ensures PlainRun(s[lo..hi])
  {
    forall k | 0 <= k < hi - lo ensures PlainChar(s[lo..hi][k]) {
      assert s[lo..hi][k] == s[lo + k];
    }
  }

  /** Every string the plain-words reading accepts matches the regular expression. */
  lemma EmailMatchesPattern(s: string)
    requires IsEmail(s)
    ensures MatchesEmailPattern(s)
  {
    var i := IndexOf(s, '@');
    var d := s[i + 1..];
    var j' :| 0 < j' < |d| - 1 && d[j'] == '.';
    var j := i + 1 + j';
    CountAround(s, i, '@');
    assert '@' !in d;
    assert forall k :: i < k < |s| ==> s[k] != '@' by {
      forall k | i < k < |s| ensures s[k] != '@' {
        assert s[k] == d[k - i - 1];
      }
    }
    assert forall k :: 0 <= k < i ==> s[k] != '@' by {
      forall k | 0 <= k < i ensures s[k] != '@' {
        assert s[k] == s[..i][k];
      }
    }
    PlainSlice(s, 0, i);
    PlainSlice(s, i + 1, j);
    PlainSlice(s, j + 1, |s|);
    assert s[..i] == s[0..i] && s[j + 1..] == s[j + 1..|s|];
    assert s[j] == d[j'];
  }

  /** Every string matching the regular expression is accepted by the plain-words reading. */
  lemma PatternIsEmail(s: string, i: int, j: int)
    requires 0 < i < j < |s| && s[i] == '@' && s[j] == '.'
    requires PlainRun(s[..i]) && PlainRun(s[i + 1..j]) && PlainRun(s[j + 1..])
    ensures IsEmail(s)
  {
    assert forall k :: 0 <= k < |s| && k != i ==> PlainChar(s[k]) by {
      forall k | 0 <= k < |s| && k != i ensures PlainChar(s[k]) {
        if k < i {
          assert s[k] == s[..i][k];
        } else if i < k < j {
          assert s[k] == s[i + 1..j][k - i - 1];
        } else if j < k {
          assert s[k] == s[j + 1..][k - j - 1];
        }
      }
    }
    assert !IsWhitespace('@');
    assert NoWhitespace(s);
    var d := s[i + 1..];
    assert '@' !in s[..i];
    assert '@' !in d by {
      forall k | 0 <= k < |d| ensures d[k] != '@' {
        assert d[k] == s[i + 1 + k];
      }
    }
    CountAround(s, i, '@');
    IndexOfFirst(s, '@', i);
    assert d[j - i - 1] == '.';
  }

  /** The plain-words reading and the regular expression accept the same strings. */
  lemma EmailPatternIff(s: string)
    ensures IsEmail(s) <==> MatchesEmailPattern(s)
  {
    if IsEmail(s) {
      EmailMatchesPattern(s);
    }
    if MatchesEmailPattern(s) {
      var i, j :| 0 < i < j < |s| && s[i] == '@' && s[j] == '.' && PlainRun(s[..i]) && PlainRun(s[i + 1..j]) && PlainRun(s[j + 1..]);
      PatternIsEmail(s, i, j);
    }
  }

  // ---------------------------------------------------------------------------
  // Form and field validation

  /** The form fields; `None` is a field missing from the form (`FormData.get` gives `null`). */
  datatype FormData = FormData(name: Option<string>, email: Option<string>, message: Option<string>)

  datatype Field = Name | Email | Message

  /** A JavaScript value that is falsy: `null` or the empty string. */
  predicate Falsy(v: Option<string>) {
    v == None || v == Some("")
  }

  /**
   * JavaScript's `s.length`: the number of UTF-16 code units, one for a
   * character below U+10000 and two (a surrogate pair) for any other.
   */
  function Utf16Length(s: string): (n: nat)
    ensures |s| <= n <= 2 * |s|
  {
    if s == [] then 0 else (if s[0] < '\U{10000}' then 1 else 2) + Utf16Length(s[1..])
  }

  /**
   * The name check: a blank name is refused, and two characters of trimmed
   * text are always enough (one character is enough when it lies outside the
   * Basic Multilingual Plane, as `length` counts it twice).
   */
  predicate NameOk(v: Option<string>)
    ensures NameOk(v) ==> v.Some? && !AllWhitespace(v.value)
    ensures v.Some? && |Trim(v.value)| >= 2 ==> NameOk(v)
  {
    !Falsy(v) && Utf16Length(Trim(v.value)) >= 2
  }

  /**
   * The form-level email check tests the value as entered, without trimming
   * it: it holds exactly when the value matches the regular expression.
   */
  predicate EmailOk(v: Option<string>)
    ensures EmailOk(v) <==> v.Some? && MatchesEmailPattern(v.value)
  {
    match v
    case None => false
    case Some(s) => EmailPatternIff(s); s != "" && IsEmail(s)
  }

  /** The message check: a blank message is refused, and ten characters of trimmed text are always enough. */
  predicate MessageOk(v: Option<string>)
    ensures MessageOk(v) ==> v.Some? && !AllWhitespace(v.value)
    ensures v.Some? && |Trim(v.value)| >= 10 ==> MessageOk(v)
  {
    !Falsy(v) && Utf16Length(Trim(v.value)) >= 10
  }

  predicate FieldOk(data: FormData, f: Field) {
    match f
    case Name => NameOk(data.name)
    case Email => EmailOk(data.email)
    case Message => MessageOk(data.message)
  }

  /** The place of a field in the form, which is the order the checks run in. */
  function Rank(f: Field): nat {
    match f
    case Name => 0
    case Email => 1
    case Message => 2
  }

  /** The result of `validateForm`: the verdict, and the fields an error was shown for, in order. */
  datatype FormCheck = FormCheck(ok: bool, errors: seq<Field>)

  /**
   * The errors reported when the name, email and message checks give `a`,
   * `b` and `c`: one per failed check, in form order.
   */
  function Report(a: bool, b: bool, c: bool): (errors: seq<Field>)
    ensures errors == [] <==> a && b && c
    ensures Name in errors <==> !a
    ensures Email in errors <==> !b
    ensures Message in errors <==> !c
    ensures forall i, j :: 0 <= i < j < |errors| ==> Rank(errors[i]) < Rank(errors[j])
  {
    (if a then [] else [Name]) + (if b then [] else [Email]) + (if c then [] else [Message])
  }

  /**
   * `validateForm`: every field is checked, none skipped after a failure, so
   * one error is reported per invalid field, in form order; the form is valid
   * when all three fields are.
   */
  function ValidateForm(data: FormData): (r: FormCheck)
    ensures r.ok <==> NameOk(data.name) && EmailOk(data.email) && MessageOk(data.message)
    ensures r.ok <==> r.errors == []
    ensures forall f :: f in r.errors <==> !FieldOk(data, f)
    ensures forall i, j :: 0 <= i < j < |r.errors| ==> Rank(r.errors[i]) < Rank(r.errors[j])
  {
    var errors := Report(FieldOk(data, Name), FieldOk(data, Email), FieldOk(data, Message));
    ReportCoversFields(data, errors);
    FormCheck(errors == [], errors)
  }

  lemma ReportCoversFields(data: FormData, errors: seq<Field>)
    requires errors == Report(FieldOk(data, Name), FieldOk(data, Email), FieldOk(data, Message))
    ensures errors == [] <==> NameOk(data.name) && EmailOk(data.email) && MessageOk(data.message)
    ensures forall f :: f in errors <==> !FieldOk(data, f)
  {
    forall f ensures f in errors <==> !FieldOk(data, f) {
      match f
      case Name =>
      case Email =>
      case Message =>
    }
  }

  /**
   * `validateField`, run on blur: the value is trimmed first; an empty value,
   * and any field name other than the three, is accepted.
   */
  function ValidateField(fieldName: string, value: string): (ok: bool)
    ensures Trim(value) == [] ==> ok
    ensures fieldName !in {"name", "email", "message"} ==> ok
    ensures !ok ==> fieldName in {"name", "email", "message"} && Trim(value) != []
  {
    var v := Trim(value);
    if fieldName == "name" then !(Utf16Length(v) > 0 && Utf16Length(v) < 2)
    else if fieldName == "email" then !(Utf16Length(v) > 0 && !IsEmail(v))
    else if fieldName == "message" then !(Utf16Length(v) > 0 && Utf16Length(v) < 10)
    else true
  }

  /** For a name or message with text in it, the blur check and the form check agree. */
  lemma FieldAgreesWithForm(value: string)
    requires Trim(value) != []
    ensures ValidateField("name", value) <==> NameOk(Some(value))
    ensures ValidateField("message", value) <==> MessageOk(Some(value))
    ensures ValidateField("email", value) <==> EmailOk(Some(Trim(value)))
  {
    assert AllWhitespace("");
  }

  /** An email the form accepts is accepted by the blur check too. */
  lemma FormEmailPassesField(value: string)
    requires EmailOk(Some(value))
    ensures ValidateField("email", value)
  {
    TrimNoWhitespace(value);
  }

  /**
   * The converse fails: the blur check trims the email and the form check does
   * not, so an address surrounded by spaces passes one and fails the other.
   */
  lemma PaddedEmailDisagrees()
    ensures ValidateField("email", " a@b.c ")
    ensures !EmailOk(Some(" a@b.c "))
  {
    PaddedTrim();
    ShortIsEmail();
    assert IsWhitespace(" a@b.c "[0]);
  }

  /**
   * Lengths are counted in UTF-16 code units: a name of one emoji (U+1F600)
   * has length 2 and is accepted by both checks.
   */
  lemma AstralNameAccepted()
    ensures NameOk(Some("\U{1F600}"))
    ensures ValidateField("name", "\U{1F600}")
  {
    var s := "\U{1F600}";
    TrimNoWhitespace(s);
    assert Utf16Length(s) == 2 + Utf16Length(s[1..]);
  }

  lemma PaddedTrim()
    ensures Trim(" a@b.c ") == "a@b.c"
  {
    var s := " a@b.c ";
    assert TrimOffset(s) == SkipBlanksForward(s, 1) == 1;
    assert SkipBlanksBackward(s, 1, 7) == SkipBlanksBackward(s, 1, 6) == 6;
    assert s[1..6] == "a@b.c";
  }

  lemma ShortIsEmail()
    ensures IsEmail("a@b.c")
  {
    var e := "a@b.c";
    assert PlainRun(e[..1]) by { assert e[..1] == "a"; }
    assert PlainRun(e[2..3]) by { assert e[2..3] == "b"; }
    assert PlainRun(e[4..]) by { assert e[4..] == "c"; }
    PatternIsEmail(e, 1, 3);
  }

  // ---------------------------------------------------------------------------
  // Submission

  /** A banner shown above the form after a submission attempt. */
  datatype Notice = SentNotice | FailedNotice

  /** What a submit event led to. */
  datatype SubmitOutcome = Ignored | Rejected(errors: seq<Field>) | Sending

  /** The values `form.reset()` leaves in the form. */
  const EmptyForm: FormData := FormData(Some(""), Some(""), Some(""))

  /**
   * The form. `entries` is what the fields hold; `inFlight` is the data whose
   * submission is awaited; `notices` the success and failure banners shown.
   */
  class ContactForm {
    var isSubmitting: bool
    var inFlight: Option<FormData>
    var entries: FormData
    var notices: seq<Notice>

    /** `isSubmitting` holds exactly while a submission is awaited. */
    ghost predicate Valid()
      reads this
    {
      isSubmitting <==> inFlight.Some?
    }

    constructor (entries: FormData)
      ensures Valid() && !isSubmitting && this.entries == entries && notices == []
    {
      isSubmitting := false;
      inFlight := None;
      this.entries := entries;
      notices := [];
    }

    /**
     * `handleSubmit` up to its `await`: ignored while a submission is awaited;
     * invalid data is rejected with its errors and leaves `isSubmitting` false;
     * valid data sets `isSubmitting` and starts the submission.
     */
    method HandleSubmit() returns (outcome: SubmitOutcome)
      requires Valid()
      modifies this
      ensures Valid() && entries == old(entries) && notices == old(notices)
      ensures old(isSubmitting) ==> outcome == Ignored && isSubmitting && inFlight == old(inFlight)
      ensures !old(isSubmitting) && !ValidateForm(entries).ok ==>
        outcome == Rejected(ValidateForm(entries).errors) && !isSubmitting
      ensures !old(isSubmitting) && ValidateForm(entries).ok ==>
        outcome == Sending && isSubmitting && inFlight == Some(entries)
    {
      if isSubmitting {
        return Ignored;
      }
      var data := entries;
      var check := ValidateForm(data);
      if !check.ok {
        return Rejected(check.errors);
      }
      isSubmitting := true;
      inFlight := Some(data);
      outcome := Sending;
    }

    /**
     * The rest of `handleSubmit` once the awaited submission settles with
     * `failed` (whether it threw): a success banner and a reset form, or a
     * failure banner; either way (`finally`) `isSubmitting` is false again.
     * With nothing awaited there is nothing to resume.
     */
    method CompleteSubmission(failed: bool)
      requires Valid()
      modifies this
      ensures Valid() && !isSubmitting
      ensures old(inFlight) == None ==> entries == old(entries) && notices == old(notices)
      ensures old(inFlight).Some? && !failed ==> entries == EmptyForm && notices == old(notices) + [SentNotice]
      ensures old(inFlight).Some? && failed ==> entries == old(entries) && notices == old(notices) + [FailedNotice]
    {
      if inFlight == None {
        return;
      }
      if !failed {
        notices := notices + [SentNotice];
        entries := EmptyForm;
      } else {
        notices := notices + [FailedNotice];
      }
      isSubmitting := false;
      inFlight := None;
    }
  }

  /** A well-formed sample submission. */
  const Sample: FormData := FormData(Some("Ada"), Some("ada@x.io"), Some("Hello there, world"))

  lemma SampleIsValid()
    ensures ValidateForm(Sample).ok
  {
    SampleNameOk();
    SampleEmailOk();
    SampleMessageOk();
  }

  lemma SampleNameOk()
    ensures NameOk(Some("Ada"))
  {
    assert !IsWhitespace('A') && !IsWhitespace('a');
    TrimTight("Ada");
  }

  lemma SampleEmailOk()
    ensures EmailOk(Some("ada@x.io"))
  {
    SampleIsEmail();
  }

  lemma SampleIsEmail()
    ensures IsEmail("ada@x.io")
  {
    var e := "ada@x.io";
    assert PlainRun(e[..3]) by {
      assert e[..3] == "ada";
      assert PlainChar('a') && PlainChar('d');
    }
    assert PlainRun(e[4..5]) by {
      assert e[4..5] == "x";
      assert PlainChar('x');
    }
    assert PlainRun(e[6..]) by {
      assert e[6..] == "io";
      assert PlainChar('i') && PlainChar('o');
    }
    PatternIsEmail(e, 3, 5);
  }

  lemma SampleMessageOk()
    ensures MessageOk(Some("Hello there, world"))
  {
    assert !IsWhitespace('H') && !IsWhitespace('d');
    TrimTight("Hello there, world");
  }

  /** A second submit while the first is awaited is ignored; afterwards the flag is down again. */
  method SubmitScenario()
  {
    SampleIsValid();
    var form := new ContactForm(Sample);
    var first := form.HandleSubmit();
    assert first == Sending;
    var second := form.HandleSubmit();
    assert second == Ignored;
    form.CompleteSubmission(true);
    assert !form.isSubmitting && form.notices == [FailedNotice];
  }
}
