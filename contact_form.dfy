/**
 * The contact form of scripts/form.js: the per-field rules, the `fields`
 * table that validation updates in place, the whole-form check, the
 * `isSubmitting` guard around the (external) send, and `ValidationHelpers`.
 */
module ContactForm {
  import opened Wrappers
  import opened Strings

  predicate IsAsciiLetter(c: char) {
    'a' <= c <= 'z' || 'A' <= c <= 'Z'
  }

  /** `isValidName` (and the 'name' rule on the trimmed value): at least two units, only ASCII letters and `\s`. */
  predicate IsValidName(name: string) {
    Utf16Length(name) >= 2 && forall i :: 0 <= i < |name| ==> IsAsciiLetter(name[i]) || IsSpace(name[i])
  }

  /** `[^\s@]+`: a non-empty run without whitespace and without '@'. */
  predicate EmailPart(t: string) {
    |t| > 0 && forall i :: 0 <= i < |t| ==> !IsSpace(t[i]) && t[i] != '@'
  }

  /** `/^[^\s@]+@[^\s@]+\.[^\s@]+$/`: some split of `s` into part '@' part '.' part. */
  predicate IsValidEmail(s: string) {
    exists at, dot :: 0 <= at < dot < |s| && s[at] == '@' && s[dot] == '.' &&
      EmailPart(s[..at]) && EmailPart(s[at + 1..dot]) && EmailPart(s[dot + 1..])
  }

  /** One '@', not first, and a later '.' that neither follows it directly nor ends the string; no whitespace. */
  predicate EmailShaped(s: string) {
    NoSpace(s) && exists at :: 0 < at < |s| && s[at] == '@' && OnlyAt(s, at) && DotAfter(s, at)
  }

  predicate OnlyAt(s: string, at: int) {
    forall k :: 0 <= k < |s| && s[k] == '@' ==> k == at
  }

  predicate DotAfter(s: string, at: int) {
    exists dot :: 0 < dot < |s| - 1 && at + 1 < dot && s[dot] == '.'
  }

  lemma EmailShapeSound(s: string)
    requires IsValidEmail(s)
    ensures EmailShaped(s)
  {
    var at, dot :| 0 <= at < dot < |s| && s[at] == '@' && s[dot] == '.' &&
      EmailPart(s[..at]) && EmailPart(s[at + 1..dot]) && EmailPart(s[dot + 1..]);
    forall k | 0 <= k < |s| && k != at && k != dot
      ensures !IsSpace(s[k]) && s[k] != '@'
    {
      if k < at {
        assert s[..at][k] == s[k];
      } else if k < dot {
        assert s[at + 1..dot][k - at - 1] == s[k];
      } else {
        assert s[dot + 1..][k - dot - 1] == s[k];
      }
    }
    assert DotAfter(s, at) by {
      assert at + 1 < dot < |s| - 1;
    }
  }

  lemma EmailShapeComplete(s: string)
    requires EmailShaped(s)
    ensures IsValidEmail(s)
  {
    var at :| 0 < at < |s| && s[at] == '@' && OnlyAt(s, at) && DotAfter(s, at);
    var dot :| at + 1 < dot < |s| - 1 && s[dot] == '.';
    assert EmailPart(s[..at]) by {
      forall i | 0 <= i < at ensures !IsSpace(s[..at][i]) && s[..at][i] != '@' {
        assert s[..at][i] == s[i];
      }
    }
    forall k | at < k < |s| ensures !IsSpace(s[k]) && s[k] != '@' {
    }
    assert EmailPart(s[at + 1..dot]);
    assert EmailPart(s[dot + 1..]);
  }

  /**
   * The email pattern accepts exactly the strings without whitespace that have
   * one '@', not first, followed (not immediately) by a '.' that is not last.
   */
  lemma EmailShape(s: string)
    ensures IsValidEmail(s) <==> EmailShaped(s)
  {
    if IsValidEmail(s) {
      EmailShapeSound(s);
    }
    if EmailShaped(s) {
      EmailShapeComplete(s);
    }
  }

  predicate IsDigit(c: char) {
    '0' <= c <= '9'
  }

  predicate IsPhoneChar(c: char) {
    IsDigit(c) || IsSpace(c) || c == '-' || c == '(' || c == ')'
  }

  function DigitCount(s: string): (n: nat)
    ensures n <= |s|
  {
    if s == [] then 0 else (if IsDigit(s[0]) then 1 else 0) + DigitCount(s[1..])
  }

  /** `isValidPhone`: an optional '+', then one or more digits, `\s`, '-', '(' or ')'; and at least ten digits. */
  predicate IsValidPhone(phone: string) {
    var body := if phone != [] && phone[0] == '+' then phone[1..] else phone;
    |body| > 0 && (forall i :: 0 <= i < |body| ==> IsPhoneChar(body[i])) && DigitCount(phone) >= 10
  }

  /** A valid phone number has at least ten characters and at most one '+', at its start. */
  lemma PhoneShape(phone: string)
    requires IsValidPhone(phone)
    ensures |phone| >= 10
    ensures forall i :: 0 < i < |phone| ==> phone[i] != '+'
  {
    var body := if phone != [] && phone[0] == '+' then phone[1..] else phone;
    forall i | 0 < i < |phone|
      ensures phone[i] != '+'
    {
      if phone[0] == '+' {
        assert phone[i] == body[i - 1] && IsPhoneChar(body[i - 1]);
      } else {
        assert phone[i] == body[i] && IsPhoneChar(body[i]);
      }
    }
  }

  /** `input.replace(/[<>]/g, '')`. */
  function StripAngles(s: string): (r: string)
    ensures |r| <= |s|
    ensures forall i :: 0 <= i < |r| ==> r[i] != '<' && r[i] != '>'
    ensures (forall i :: 0 <= i < |s| ==> s[i] != '<' && s[i] != '>') ==> r == s
  {
    if s == [] then []
    else (if s[0] == '<' || s[0] == '>' then [] else [s[0]]) + StripAngles(s[1..])
  }

  /** Every character other than '<' and '>' survives stripping as often as it occurs. */
  lemma {:induction false} StripAnglesKeepsOthers(s: string, c: char)
    requires c != '<' && c != '>'
    ensures multiset(StripAngles(s))[c] == multiset(s)[c]
  {
    if s != [] {
      StripAnglesKeepsOthers(s[1..], c);
      assert s == [s[0]] + s[1..];
    }
  }

  /** Stripping works piece by piece: the kept characters stay in their order. */
  lemma {:induction false} StripAnglesAppend(a: string, b: string)
    ensures StripAngles(a + b) == StripAngles(a) + StripAngles(b)
  {
    if a != [] {
      assert (a + b)[0] == a[0] && (a + b)[1..] == a[1..] + b;
      StripAnglesAppend(a[1..], b);
    } else {
      assert a + b == b;
    }
  }

  /** `sanitizeInput`: trim, then drop every '<' and '>'. */
  function Sanitize(input: string): (r: string)
    ensures |r| <= |input|
    ensures forall i :: 0 <= i < |r| ==> r[i] != '<' && r[i] != '>'
  {
    StripAngles(Trim(input))
  }

  /** Sanitizing is not idempotent: removing '<' from "< a" uncovers a space that a second pass trims. */
  lemma SanitizeNotIdempotent()
    ensures Sanitize("< a") == " a"
    ensures Sanitize(Sanitize("< a")) == "a"
  {
    var s := "< a";
    assert !IsSpace(s[0]) && !IsSpace(s[2]);
    assert TrimStart(s) == s;
    assert TrimEnd(s) == s;
    assert StripAngles(s) == " a" by {
      assert StripAngles("a") == "a";
      assert StripAngles(" a") == [' '] + "a";
    }
    var t := " a";
    assert IsSpace(t[0]) && !IsSpace(t[1]);
    assert TrimStart(t) == "a" by {
      assert TrimStart(t[1..]) == t[1..];
    }
    assert TrimEnd("a") == "a";
    assert StripAngles("a") == "a";
  }

  /** The four inputs `bindFields` looks up, in that order; `this.fields` is keyed by these names. */
  datatype Key = Name | Email | Business | Message

  const Keys: seq<Key> := [Name, Email, Business, Message]

  lemma KeyListed(k: Key)
    ensures k in Keys
  {
    match k
    case Name => assert Keys[0] == k;
    case Email => assert Keys[1] == k;
    case Business => assert Keys[2] == k;
    case Message => assert Keys[3] == k;
  }

  /** The element id of each input, which is also its key in `this.fields`. */
  function KeyName(k: Key): (id: string)
    ensures |id| >= 4
  {
    match k
    case Name => "name"
    case Email => "email"
    case Business => "business"
    case Message => "message"
  }

  /** The entry a field name selects, if it is one of the four. */
  function KeyOf(fieldName: string): (k: Option<Key>)
    ensures k.Some? ==> KeyName(k.value) == fieldName
  {
    match fieldName
    case "name" => Some(Name)
    case "email" => Some(Email)
    case "business" => Some(Business)
    case "message" => Some(Message)
    case _ => None
  }

  /** Every key is found again under its own name, so no input is left out of the switch. */
  lemma KeyOfKeyName(k: Key)
    ensures KeyOf(KeyName(k)) == Some(k)
  {
    match k
    case Name => assert KeyName(k) == "name";
    case Email => assert KeyName(k) == "email";
    case Business => assert KeyName(k) == "business";
    case Message => assert KeyName(k) == "message";
  }

  /** The text an error element can show: nothing, or the message of one of the four rules. */
  datatype Notice = Blank | BadName | BadEmail | NoBusiness | ShortMessage

  /** What the error element's `textContent` reads for each notice. */
  function NoticeText(n: Notice): (text: string)
    ensures text == "" <==> n == Blank
  {
    match n
    case Blank => ""
    case BadName => "Please enter a valid name (letters only, min 2 characters)"
    case BadEmail => "Please enter a valid email address"
    case NoBusiness => "Please select your business type"
    case ShortMessage => "Please provide more details (minimum 10 characters)"
  }

  /** The check `validateField`'s switch applies to each field's trimmed value. */
  predicate Accepts(k: Key, value: string) {
    match k
    case Name => IsValidName(value)
    case Email => IsValidEmail(value)
    case Business => value != ""
    case Message => Utf16Length(value) >= 10
  }

  /** The message each field's error element shows when its value is rejected. */
  function NoticeFor(k: Key): (n: Notice)
    ensures n != Blank
  {
    match k
    case Name => BadName
    case Email => BadEmail
    case Business => NoBusiness
    case Message => ShortMessage
  }

  /** An email value is accepted exactly when it has the shape `EmailShaped` describes. */
  lemma AcceptsEmail(value: string)
    ensures Accepts(Email, value) <==> EmailShaped(value)
  {
    EmailShape(value);
  }

  /** A class on a field's form group: the two validation marks, or any other class the markup gives it. */
  datatype GroupClass = Error | Success | Other(name: string)

  /**
   * An entry of `this.fields` together with the page state it drives: the
   * input's current text, whether `${field}Error` exists, the stored trimmed
   * `value`, `isValid`, the form group's class list and the error text.
   */
  datatype Field = Field(input: string, hasErrorElement: bool, value: string, isValid: bool, classes: set<GroupClass>, errorText: Notice)

  /** `updateFieldUI`: drop 'error' and 'success'; then, only for a non-empty value, add the one that fits and show the message. */
  function WithFieldUI(f: Field, isValid: bool, errorMessage: Notice): (g: Field)
    ensures g.input == f.input && g.value == f.value && g.isValid == f.isValid && g.hasErrorElement == f.hasErrorElement
    ensures f.value == "" ==> Error !in g.classes && Success !in g.classes && g.errorText == f.errorText
    ensures f.value != "" ==> (Success in g.classes <==> isValid) && (Error in g.classes <==> !isValid)
    ensures f.value != "" && f.hasErrorElement ==> g.errorText == errorMessage
    ensures g.classes - {Error, Success} == f.classes - {Error, Success}
  {
    var classes := f.classes - {Error, Success};
    if f.value != "" then
      f.(classes := classes + {if isValid then Success else Error},
         errorText := if f.hasErrorElement then errorMessage else f.errorText)
    else f.(classes := classes)
  }

  /** The entry after `validateField`: the trimmed input stored, its validity recorded and shown. */
  function Validated(k: Key, f: Field): (g: Field)
    ensures g.value == Trim(f.input) && g.input == f.input
  {
    Checked(k, f, Trim(f.input))
  }

  /** The entry once `value` is stored, checked by the field's rule and shown. */
  function Checked(k: Key, f: Field, value: string): (g: Field)
    ensures g.value == value && g.input == f.input
  {
    var isValid := Accepts(k, value);
    WithFieldUI(f.(value := value, isValid := isValid), isValid, if isValid then Blank else NoticeFor(k))
  }

  /**
   * What validation leaves on an entry: its validity is the field's check on
   * the trimmed text; a blank entry carries neither mark; any other carries
   * exactly the mark that fits, and an invalid one shows its field's message.
   */
  lemma ValidatedMarks(k: Key, f: Field)
    ensures var g := Validated(k, f);
      && (g.isValid <==> Accepts(k, g.value))
      && (g.value == "" ==> Error !in g.classes && Success !in g.classes)
      && (g.value != "" ==> (Success in g.classes <==> g.isValid) && (Error in g.classes <==> !g.isValid))
      && (g.value != "" && !g.isValid && f.hasErrorElement ==> g.errorText == NoticeFor(k))
      && (g.classes - {Error, Success} == f.classes - {Error, Success})
  {
  }

  /** The entry after `clearFieldError`: only the 'error' mark and its text are removed. */
  function Cleared(f: Field): (g: Field)
    ensures Error !in g.classes && g.classes == f.classes - {Error}
    ensures g.input == f.input && g.value == f.value && g.isValid == f.isValid
    ensures g.errorText == (if Error in f.classes && f.hasErrorElement then Blank else f.errorText)
  {
    if Error in f.classes then
      f.(classes := f.classes - {Error}, errorText := if f.hasErrorElement then Blank else f.errorText)
    else f
  }

  /** The entry after `resetForm` (with `form.reset()` emptying the input). */
  function ResetField(f: Field): (g: Field)
    ensures g.value == "" && !g.isValid && g.input == ""
    ensures Error !in g.classes && Success !in g.classes
    ensures g.classes - {Error, Success} == f.classes - {Error, Success}
    ensures g.hasErrorElement ==> g.errorText == Blank
  {
    f.(input := "", value := "", isValid := false, classes := f.classes - {Error, Success},
       errorText := if f.hasErrorElement then Blank else f.errorText)
  }

  /** Validating a field twice in a row changes nothing the second time. */
  lemma ValidatedIdempotent(k: Key, f: Field)
    ensures Validated(k, Validated(k, f)) == Validated(k, f)
  {
    var g := Validated(k, f);
    TrimIdempotent(f.input);
    assert Trim(g.input) == g.value;
  }

  /** A field validated after a reset is blank, so it carries no mark: an empty form shows no errors until typed in. */
  lemma ResetThenValidateUnmarked(k: Key, f: Field)
    ensures Error !in Validated(k, ResetField(f)).classes && Success !in Validated(k, ResetField(f)).classes
  {
    assert Trim("") == "";
  }

  /** `m` is `m0` with every entry outside `pending` validated. */
  ghost predicate ValidatedExcept(m0: map<Key, Field>, m: map<Key, Field>, pending: set<Key>) {
    m.Keys == m0.Keys && forall k :: k in m ==> m[k] == if k in pending then m0[k] else Validated(k, m0[k])
  }

  lemma ValidatedStep(m0: map<Key, Field>, m: map<Key, Field>, pending: set<Key>, k: Key)
    requires ValidatedExcept(m0, m, pending) && k in pending && k in m
    ensures ValidatedExcept(m0, m[k := Validated(k, m[k])], pending - {k})
  {
  }

  /** The four values `emailjs.send` receives, read from the stored `value`s. */
  datatype Payload = Payload(name: string, email: string, business: string, message: string)

  /** What a submit event does. */
  datatype SubmitOutcome =
    | Ignored             // a send is still in progress
    | Rejected            // the form is invalid: error toast and shake
    | Sending(payload: Payload)
    | Failed              // a field is missing, so building the payload throws

  /** The form. `fields` holds an entry for each of the four inputs the page has. */
  class ContactForm {
    const hasForm: bool
    var fields: map<Key, Field>
    var isSubmitting: bool
    var successShown: bool

    /** `bindFields`: an entry for each input present, empty and not yet valid; nothing at all without the form. */
    constructor (hasForm: bool, inputs: map<Key, string>, errorElements: set<Key>)
      ensures this.hasForm == hasForm && !isSubmitting && !successShown
      ensures fields == if hasForm then map k | k in inputs :: Field(inputs[k], k in errorElements, "", false, {}, Blank) else map[]
    {
      this.hasForm := hasForm;
      fields := if hasForm then map k | k in inputs :: Field(inputs[k], k in errorElements, "", false, {}, Blank) else map[];
      isSubmitting, successShown := false, false;
    }

    /** The user edits an input (before its `input` event runs). */
    method Edit(k: Key, text: string)
      requires k in fields
      modifies this
      ensures fields == old(fields)[k := old(fields)[k].(input := text)]
      ensures isSubmitting == old(isSubmitting) && successShown == old(successShown)
    {
      fields := fields[k := fields[k].(input := text)];
    }

    /** `validateField`: false, with nothing changed, for a field without an entry; otherwise validate that entry in place. */
    method ValidateField(k: Key) returns (isValid: bool)
      modifies this
      ensures k !in old(fields) ==> !isValid && fields == old(fields)
      ensures k in old(fields) ==> fields == old(fields)[k := Validated(k, old(fields)[k])] && isValid == fields[k].isValid
      ensures isSubmitting == old(isSubmitting) && successShown == old(successShown)
    {
      if k !in fields {
        return false;
      }
      fields := fields[k := Validated(k, fields[k])];
      isValid := fields[k].isValid;
    }

    /** `clearFieldError` (on focus). */
    method ClearFieldError(k: Key)
      requires k in fields
      modifies this
      ensures fields == old(fields)[k := Cleared(old(fields)[k])]
      ensures isSubmitting == old(isSubmitting) && successShown == old(successShown)
    {
      fields := fields[k := Cleared(fields[k])];
    }

    /** `validateForm`: validate every entry, with no short-circuit, and report whether all are valid. */
    method ValidateForm() returns (allValid: bool)
      modifies this
      ensures fields.Keys == old(fields).Keys
      ensures forall k :: k in fields ==> fields[k] == Validated(k, old(fields)[k])
      ensures allValid <==> forall k :: k in fields ==> fields[k].isValid
      ensures isSubmitting == old(isSubmitting) && successShown == old(successShown)
    {
      allValid := true;
      var pending := fields.Keys;
      while pending != {}
        invariant pending <= fields.Keys
        invariant ValidatedExcept(old(fields), fields, pending)
        invariant allValid <==> forall k :: k in fields && k !in pending ==> fields[k].isValid
        invariant isSubmitting == old(isSubmitting) && successShown == old(successShown)
        decreases pending
      {
        var k :| k in pending;
        ghost var before := fields;
        var ok := ValidateField(k);
        ValidatedStep(old(fields), before, pending, k);
        if !ok {
          allValid := false;
        }
        pending := pending - {k};
      }
    }

    /** The payload, if all four entries exist (otherwise reading `this.fields.<name>.value` throws). */
    function PayloadOf(): (p: Option<Payload>)
      reads this
      ensures p.Some? <==> forall i :: 0 <= i < |Keys| ==> Keys[i] in fields
      ensures p.Some? ==>
        Name in fields && Email in fields && Business in fields && Message in fields &&
        p.value == Payload(fields[Name].value, fields[Email].value, fields[Business].value, fields[Message].value)
    {
      if Name in fields && Email in fields && Business in fields && Message in fields then
        Some(Payload(fields[Name].value, fields[Email].value, fields[Business].value, fields[Message].value))
      else
        assert Keys[0] == Name && Keys[1] == Email && Keys[2] == Business && Keys[3] == Message;
        None
    }

    /**
     * `handleSubmit` up to the first `await`: ignored while a send is in
     * progress; an invalid form never reaches the send; otherwise the guard is
     * raised and the payload handed to the mailer (a missing field throws
     * inside the `try`, so the guard drops again at once).
     */
    method Submit() returns (outcome: SubmitOutcome)
      modifies this
      ensures fields.Keys == old(fields).Keys
      ensures old(isSubmitting) ==> outcome == Ignored && fields == old(fields) && isSubmitting
      ensures !old(isSubmitting) ==> forall k :: k in fields ==> fields[k] == Validated(k, old(fields)[k])
      ensures outcome.Sending? ==>
        isSubmitting && Some(outcome.payload) == PayloadOf() && forall k :: k in fields ==> fields[k].isValid
      ensures outcome == Rejected ==> !isSubmitting && exists k :: k in fields && !fields[k].isValid
      ensures outcome == Failed ==> !isSubmitting && PayloadOf() == None
      ensures outcome == Ignored <==> old(isSubmitting)
      ensures !old(isSubmitting) && (exists k :: k in fields && !fields[k].isValid) ==> outcome == Rejected
      ensures !old(isSubmitting) && (forall k :: k in fields ==> fields[k].isValid) ==>
        outcome == (if PayloadOf().Some? then Sending(PayloadOf().value) else Failed)
      ensures successShown == old(successShown)
    {
      if isSubmitting {
        return Ignored;
      }
      var valid := ValidateForm();
      if !valid {
        return Rejected;
      }
      isSubmitting := true;
      var payload := PayloadOf();
      if payload.None? {
        isSubmitting := false;
        return Failed;
      }
      outcome := Sending(payload.value);
    }

    /** The `finally` of `handleSubmit` once both sends settle: the guard drops; on success the success modal opens. */
    method FinishSubmit(sent: bool)
      requires isSubmitting
      modifies this
      ensures !isSubmitting && fields == old(fields)
      ensures successShown == (old(successShown) || sent)
    {
      if sent {
        successShown := true;
      }
      isSubmitting := false;
    }

    /** `resetForm`: every entry emptied, invalid, unmarked and without error text. */
    method ResetForm()
      modifies this
      ensures fields.Keys == old(fields).Keys
      ensures forall k :: k in fields ==> fields[k] == ResetField(old(fields)[k])
      ensures isSubmitting == old(isSubmitting) && successShown == old(successShown)
    {
      for i := 0 to |Keys|
        invariant fields.Keys == old(fields).Keys
        invariant forall k :: k in fields ==> fields[k] == if k in Keys[..i] then ResetField(old(fields)[k]) else old(fields)[k]
        invariant isSubmitting == old(isSubmitting) && successShown == old(successShown)
      {
        var k := Keys[i];
        assert Keys[..i + 1] == Keys[..i] + [k];
        if k in fields {
          fields := fields[k := ResetField(fields[k])];
        }
      }
      assert Keys[..|Keys|] == Keys;
      forall k: Key ensures k in Keys { KeyListed(k); }
    }

    /** Closing the success modal (its X button or backdrop) hides it and resets the form. */
    method CloseSuccess()
      requires successShown
      modifies this
      ensures !successShown
      ensures fields.Keys == old(fields).Keys
      ensures forall k :: k in fields ==> fields[k] == ResetField(old(fields)[k])
      ensures isSubmitting == old(isSubmitting)
    {
      successShown := false;
      ResetForm();
    }
  }
}
