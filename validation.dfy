/** The field rules of the contact form (js/form.js): the two patterns, the
    error-message table and the ordered checks of `validateField`, as pure
    decisions on a field's raw value. */
module Validation {
  import opened Js

  /** The five fields the contact form validates and submits. */
  datatype FieldId = Name | Email | Service | Budget | Message

  /** The element id of a field; it is also the field's key in a saved draft. */
  function Key(id: FieldId): string {
    match id
    case Name => "name"
    case Email => "email"
    case Service => "service"
    case Budget => "budget"
    case Message => "message"
  }

  /** The field a draft key names, if any. */
  function FieldOfKey(key: string): (r: Option<FieldId>)
    ensures r.Some? ==> Key(r.value) == key
    ensures r.None? ==> forall id: FieldId :: Key(id) != key
  {
    if key == "name" then Some(Name)
    else if key == "email" then Some(Email)
    else if key == "service" then Some(Service)
    else if key == "budget" then Some(Budget)
    else if key == "message" then Some(Message)
    else None
  }

  /** Different fields have different keys, and a key leads back to its field. */
  lemma KeyRoundTrip(id: FieldId, other: FieldId)
    ensures FieldOfKey(Key(id)) == Some(id)
    ensures Key(id) == Key(other) ==> id == other
  {
  }

  // ---------------------------------------------------------------------
  // The two patterns

  datatype Pattern = NamePattern | EmailPattern

  predicate IsAsciiLetter(c: char) {
    ('a' <= c <= 'z') || ('A' <= c <= 'Z')
  }

  /** The class `[a-zA-Z\s]`. */
  predicate NameChar(c: char) {
    IsAsciiLetter(c) || IsSpace(c)
  }

  /** The name pattern `^[a-zA-Z\s]{2,50}$`: two to fifty letters or spaces. */
  predicate MatchesName(s: string) {
    2 <= |s| <= 50 && forall k :: 0 <= k < |s| ==> NameChar(s[k])
  }

  /** The class `[^\s@]`. */
  predicate EmailChar(c: char) {
    !IsSpace(c) && c != '@'
  }

  predicate AllEmailChars(s: string) {
    forall k :: 0 <= k < |s| ==> EmailChar(s[k])
  }

  /** The email pattern `^[^\s@]+@[^\s@]+\.[^\s@]+$` read as a regular
      expression: some `@` and some later `.` split the value into three
      non-empty runs of `[^\s@]` characters. */
  ghost predicate EmailRegex(s: string) {
    exists at, dot ::
      0 < at && at + 1 < dot < |s| - 1 && s[at] == '@' && s[dot] == '.'
      && forall k :: 0 <= k < |s| && k != at ==> EmailChar(s[k])
  }

  /** A `.` with text on both sides of it. */
  predicate HasInnerDot(d: string) {
    exists j :: 0 < j < |d| - 1 && d[j] == '.'
  }

  /** The email shape stated part by part: a non-empty local part free of
      whitespace and `@`, a single `@`, then a domain free of whitespace and
      `@` holding a `.` with text on both sides. */
  predicate MatchesEmail(s: string) {
    var at := IndexOf(s, '@');
    && 0 < at < |s|
    && AllEmailChars(s[..at])
    && AllEmailChars(s[at + 1..])
    && HasInnerDot(s[at + 1..])
  }

  /** The part-by-part shape accepts exactly what the regular expression
      accepts. */
  lemma {:induction false} EmailShapeIsRegex(s: string)
    ensures MatchesEmail(s) <==> EmailRegex(s)
  {
    if MatchesEmail(s) {
      var at := IndexOf(s, '@');
      var d := s[at + 1..];
      var j :| 0 < j < |d| - 1 && d[j] == '.';
      var dot := at + 1 + j;
      assert s[dot] == '.';
      forall k | 0 <= k < |s| && k != at ensures EmailChar(s[k]) {
        if k < at {
          assert s[..at][k] == s[k];
        } else {
          assert d[k - at - 1] == s[k];
        }
      }
      assert EmailRegex(s);
    }
    if EmailRegex(s) {
      var at, dot :| 0 < at && at + 1 < dot < |s| - 1 && s[at] == '@' && s[dot] == '.'
        && forall k :: 0 <= k < |s| && k != at ==> EmailChar(s[k]);
      var first := IndexOf(s, '@');
      assert first == at;
      var d := s[at + 1..];
      assert d[dot - at - 1] == '.';
      assert HasInnerDot(d);
      assert AllEmailChars(s[..at]) by {
        forall k | 0 <= k < at ensures EmailChar(s[..at][k]) {
          assert s[..at][k] == s[k];
        }
      }
      assert AllEmailChars(d) by {
        forall k | 0 <= k < |d| ensures EmailChar(d[k]) {
          assert d[k] == s[at + 1 + k];
        }
      }
    }
  }

  function Matches(p: Pattern, s: string): bool {
    match p
    case NamePattern => MatchesName(s)
    case EmailPattern => MatchesEmail(s)
  }

  // ---------------------------------------------------------------------
  // Messages and rules

  const Required: string := "This field is required"

  /** The per-field message table. */
  function ErrorMessage(id: FieldId): (m: string)
    ensures m != [] && m != Required
  {
    match id
    case Name => "Please enter a valid name (2-50 characters)"
    case Email => "Please enter a valid email address"
    case Service => "Please select a service"
    case Budget => "Please select a budget range"
    case Message => "Please enter your message (minimum 10 characters)"
  }

  /** The arguments `validateField` receives besides the field: an optional
      pattern and a minimum length, where 0 means "no minimum". */
  datatype Rule = Rule(pattern: Option<Pattern>, minLength: nat)

  const NameRule: Rule := Rule(Some(NamePattern), 0)
  const EmailRule: Rule := Rule(Some(EmailPattern), 0)
  const MessageRule: Rule := Rule(None, 10)

  /** The verdict of `validateField` on a raw value: `None` when the field
      passes, otherwise the message it shows. The checks run in order on the
      trimmed value: required, then minimum length, then pattern. */
  function FieldError(id: FieldId, value: string, rule: Rule): (e: Option<string>)
    ensures e.Some? ==> e.value != []
  {
    var v := Trim(value);
    if v == [] then Some(Required)
    else if rule.minLength != 0 && |v| < rule.minLength then Some(ErrorMessage(id))
    else if rule.pattern.Some? && !Matches(rule.pattern.value, v) then Some(ErrorMessage(id))
    else None
  }

  /** A value that is blank after trimming gets the "required" message, and
      only such a value gets it, whatever the field and rule. */
  lemma RequiredComesFirst(id: FieldId, value: string, rule: Rule)
    ensures FieldError(id, value, rule) == Some(Required) <==> AllSpace(value)
  {
    TrimEmpty(value);
  }

  /** The message field passes exactly when its trimmed value has at least
      ten characters. */
  lemma MessageVerdict(value: string)
    ensures FieldError(Message, value, MessageRule).None? <==> |Trim(value)| >= 10
    ensures FieldError(Message, value, MessageRule).Some? && !AllSpace(value)
            ==> FieldError(Message, value, MessageRule) == Some(ErrorMessage(Message))
  {
    TrimEmpty(value);
  }

  /** The name passes exactly when its trimmed value is two to fifty ASCII
      letters or spaces. */
  lemma NameVerdict(value: string)
    ensures FieldError(Name, value, NameRule).None?
            <==> 2 <= |Trim(value)| <= 50 && forall k :: 0 <= k < |Trim(value)| ==> NameChar(Trim(value)[k])
  {
  }

  /** The email passes exactly when its trimmed value matches the email
      regular expression. */
  lemma EmailVerdict(value: string)
    ensures FieldError(Email, value, EmailRule).None? <==> EmailRegex(Trim(value))
  {
    EmailShapeIsRegex(Trim(value));
  }

  /** The name rule's lower and upper bounds are inclusive: two letters and
      fifty letters pass. */
  lemma NameBoundsAccepted()
    ensures FieldError(Name, "Al", NameRule).None?
    ensures FieldError(Name, seq(50, _ => 'a'), NameRule).None?
  {
    var fifty: string := seq(50, _ => 'a');
    assert LeadingSpaces(fifty) == 0 && TrailingSpaces(fifty) == 0;
    assert Trim(fifty) == fifty;
  }

  /** One letter, fifty-one letters and a digit each fail the name rule. */
  lemma NameBoundsRejected()
    ensures FieldError(Name, "A", NameRule).Some?
    ensures FieldError(Name, seq(51, _ => 'a'), NameRule).Some?
    ensures FieldError(Name, "R2 D2", NameRule).Some?
  {
    var fiftyOne: string := seq(51, _ => 'a');
    assert LeadingSpaces(fiftyOne) == 0 && TrailingSpaces(fiftyOne) == 0;
    assert Trim(fiftyOne) == fiftyOne;
    assert !NameChar("R2 D2"[1]);
  }

  /** `a@b.co` passes the email rule, surrounding whitespace trimmed. */
  lemma EmailAccepted()
    ensures FieldError(Email, " a@b.co ", EmailRule).None?
  {
    var v := " a@b.co ";
    assert LeadingSpaces(v[1..]) == 0;
    assert LeadingSpaces(v) == 1;
    assert TrailingSpaces(v[..|v| - 1]) == 0;
    assert TrailingSpaces(v) == 1;
    assert Trim(v) == "a@b.co";
    var t := "a@b.co";
    assert IndexOf(t[1..], '@') == 0;
    assert IndexOf(t, '@') == 1;
    assert t[2..][1] == '.';
  }

  /** A non-blank value that fails its rule gets the field's own message,
      whichever check it fails: only a blank value gets "required". */
  lemma OwnMessage(id: FieldId, value: string, rule: Rule)
    ensures FieldError(id, value, rule).Some? && !AllSpace(value) ==> FieldError(id, value, rule) == Some(ErrorMessage(id))
  {
    TrimEmpty(value);
  }

  /** A character that is not whitespace lies inside the trimmed value. */
  lemma {:induction false} InsideTrim(value: string, k: int) returns (a: nat)
    requires 0 <= k < |value| && !IsSpace(value[k])
    ensures a <= k && k - a < |Trim(value)| && Trim(value)[k - a] == value[k]
    ensures a + |Trim(value)| <= |value| && Trim(value) == value[a..a + |Trim(value)|]
  {
    TrimSlice(value);
    var a', b :| 0 <= a' <= b <= |value| && AllSpace(value[..a']) && AllSpace(value[b..]) && Trim(value) == value[a'..b];
    assert forall i :: 0 <= i < a' ==> value[..a'][i] == value[i];
    assert forall i :: b <= i < |value| ==> value[b..][i - b] == value[i];
    a := a';
  }

  /** A name holding any character outside `[a-zA-Z\s]`, such as a digit,
      fails the name rule. */
  lemma NameWithForeignChar(value: string, k: int)
    requires 0 <= k < |value| && !NameChar(value[k])
    ensures FieldError(Name, value, NameRule).Some?
  {
    var a := InsideTrim(value, k);
  }

  /** A value without `@` fails the email rule. */
  lemma EmailWithoutAt(value: string)
    requires forall k :: 0 <= k < |value| ==> value[k] != '@'
    ensures FieldError(Email, value, EmailRule).Some?
  {
    var t := Trim(value);
    if !AllSpace(value) {
      TrimSlice(value);
      var a, b :| 0 <= a <= b <= |value| && AllSpace(value[..a]) && AllSpace(value[b..]) && t == value[a..b];
      assert forall j :: 0 <= j < |t| ==> t[j] == value[a + j];
      assert IndexOf(t, '@') == |t|;
    } else {
      TrimEmpty(value);
    }
  }

  /** A value whose trimmed form has no `.` after its first `@` fails the
      email rule: the domain holds no dot. */
  lemma EmailWithoutDot(value: string)
    requires forall k :: IndexOf(Trim(value), '@') < k < |Trim(value)| ==> Trim(value)[k] != '.'
    ensures FieldError(Email, value, EmailRule).Some?
  {
    var t := Trim(value);
    var at := IndexOf(t, '@');
    if at < |t| {
      var d := t[at + 1..];
      forall j | 0 < j < |d| - 1 ensures d[j] != '.' {
        assert d[j] == t[at + 1 + j];
      }
    }
  }

  /** The examples of the two email rejections: `ab.co` has no `@` and
      `a@bco` has no dot in its domain. */
  lemma EmailRejectedExamples()
    ensures FieldError(Email, "ab.co", EmailRule).Some?
    ensures FieldError(Email, "a@bco", EmailRule).Some?
  {
    EmailWithoutAt("ab.co");
    assert Trim("a@bco") == "a@bco";
    assert IndexOf("a@bco"[1..], '@') == 0;
    assert IndexOf("a@bco", '@') == 1;
    EmailWithoutDot("a@bco");
  }

  /** `handleFormSubmit`'s test for the two select boxes: any selection but
      the empty placeholder value. */
  predicate SelectionValid(value: string) {
    value != ""
  }
}
