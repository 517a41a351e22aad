/** The contact form: the submit-time and per-field validators, the inline
    error bookkeeping of a form group, and the submit, blur and input handlers. */
module ContactForm {
  import opened Text
  import opened Patterns

  const RequiredMessage := "This field is required"
  const NameMessage := "Please enter a valid name"
  const EmailMessage := "Please enter a valid email address"
  const PhoneMessage := "Please enter a valid phone number"
  const MessageMessage := "Please enter a message with at least 10 characters"

  /** Ids of the controls the submit handler reads. */
  const FieldIds: set<string> := {"name", "email", "phone", "project", "message"}

  /** The values the submit handler collects before validating. */
  datatype FormData = FormData(name: string, email: string, phone: string, project: string, message: string)

  // ---------------------------------------------------------------------------
  // validateForm
  // ---------------------------------------------------------------------------

  /** Lengths are `length`s: UTF-16 code units, as Utf16Length counts them. */
  predicate NameOk(name: string) { Utf16Length(Trim(name)) >= 2 }

  /** The email pattern, tested on the value as typed (not trimmed). */
  predicate EmailOk(email: string) { IsEmail(email) }

  /** The phone pattern and the length bound, both on the value as typed. */
  predicate PhoneOk(phone: string) { PhonePattern(phone) && Utf16Length(phone) >= 8 }

  predicate MessageOk(message: string) { Utf16Length(Trim(message)) >= 10 }

  /** The inline errors one run of validateForm raises: every failing field,
      not only the first, mapped to its message; `project` is never checked. */
  function FormErrors(d: FormData): (errs: map<string, string>)
    ensures errs.Keys <= FieldIds - {"project"}
    ensures "name" in errs <==> !NameOk(d.name)
    ensures "email" in errs <==> !EmailOk(d.email)
    ensures "phone" in errs <==> !PhoneOk(d.phone)
    ensures "message" in errs <==> !MessageOk(d.message)
    ensures "name" in errs ==> errs["name"] == NameMessage
    ensures "email" in errs ==> errs["email"] == EmailMessage
    ensures "phone" in errs ==> errs["phone"] == PhoneMessage
    ensures "message" in errs ==> errs["message"] == MessageMessage
    ensures errs == map[] <==> NameOk(d.name) && EmailOk(d.email) && PhoneOk(d.phone) && MessageOk(d.message)
  {
    RuleErrors(NameOk(d.name), EmailOk(d.email), PhoneOk(d.phone), MessageOk(d.message))
  }

  /** The four `if`s of validateForm in order, given the outcome of each rule. */
  function RuleErrors(nameOk: bool, emailOk: bool, phoneOk: bool, messageOk: bool): (errs: map<string, string>)
    ensures errs.Keys <= FieldIds - {"project"}
    ensures "name" in errs <==> !nameOk
    ensures "email" in errs <==> !emailOk
    ensures "phone" in errs <==> !phoneOk
    ensures "message" in errs <==> !messageOk
    ensures "name" in errs ==> errs["name"] == NameMessage
    ensures "email" in errs ==> errs["email"] == EmailMessage
    ensures "phone" in errs ==> errs["phone"] == PhoneMessage
    ensures "message" in errs ==> errs["message"] == MessageMessage
  {
    IdsDistinct();
    var e1 := Flag(map[], nameOk, "name", NameMessage);
    var e2 := Flag(e1, emailOk, "email", EmailMessage);
    var e3 := Flag(e2, phoneOk, "phone", PhoneMessage);
    Flag(e3, messageOk, "message", MessageMessage)
  }

  lemma IdsDistinct()
    ensures "name" != "email" && "name" != "phone" && "name" != "message" && "name" != "project"
    ensures "email" != "phone" && "email" != "message" && "email" != "project"
    ensures "phone" != "message" && "phone" != "project" && "message" != "project"
  {
    assert "email"[0] != "phone"[0];
    assert "message"[0] != "project"[0];
  }

  /** One `if` of validateForm: a failing rule records its field's message. */
  function Flag(errs: map<string, string>, ok: bool, id: string, m: string): (r: map<string, string>)
    ensures r.Keys == if ok then errs.Keys else errs.Keys + {id}
    ensures forall k | k in errs && k != id :: r[k] == errs[k]
    ensures !ok ==> r[id] == m
  {
    if ok then errs else errs[id := m]
  }

  // ---------------------------------------------------------------------------
  // Form groups: showInputError and clearInputError
  // ---------------------------------------------------------------------------

  /** One `.form-group`: its input's type, `required` attribute, value and
      `error` class, and the texts of its `.error-message` children in order. */
  datatype FormGroup = FormGroup(kind: string, required: bool, value: string, error: bool, messages: seq<string>)

  /** At most one message per group, and the `error` class exactly when there is one. */
  predicate Consistent(g: FormGroup) {
    |g.messages| <= 1 && (g.error <==> |g.messages| == 1)
  }

  /** Removes the first `.error-message` child, if there is one. */
  function DropFirst(ms: seq<string>): (r: seq<string>)
    ensures |r| == if ms == [] then 0 else |ms| - 1
    ensures forall k | 0 <= k < |r| :: r[k] == ms[k + 1]
  {
    if ms == [] then [] else ms[1..]
  }

  /** showInputError on one group: add the class, drop the first existing
      message, append the new one. */
  function ShowError(g: FormGroup, m: string): (r: FormGroup)
    ensures r.error
    ensures r == g.(error := true, messages := r.messages)
    ensures |r.messages| >= 1 && r.messages[|r.messages| - 1] == m
    ensures |g.messages| <= 1 ==> r.messages == [m]
    ensures Consistent(g) ==> Consistent(r)
  {
    g.(error := true, messages := DropFirst(g.messages) + [m])
  }

  /** clearInputError on one group: remove the class and the first message. */
  function ClearError(g: FormGroup): (r: FormGroup)
    ensures !r.error
    ensures r == g.(error := false, messages := r.messages)
    ensures |g.messages| <= 1 ==> r.messages == []
    ensures Consistent(g) ==> Consistent(r)
  {
    g.(error := false, messages := DropFirst(g.messages))
  }

  /** Without the one-message invariant a repeated error does not replace the old
      ones: two stale messages survive a showInputError as one stale plus the new. */
  lemma ShowErrorNeedsInvariant()
    ensures ShowError(FormGroup("text", true, "", true, ["a", "b"]), "c").messages == ["b", "c"]
  {
  }

  /** The form groups after validateForm has marked the failing fields. */
  function MarkErrors(gs: map<string, FormGroup>, errs: map<string, string>): (r: map<string, FormGroup>)
    ensures r.Keys == gs.Keys
    ensures forall id | id in gs && id !in errs :: r[id] == gs[id]
    ensures forall id | id in gs && id in errs :: r[id] == ShowError(gs[id], errs[id])
  {
    map id | id in gs :: if id in errs then ShowError(gs[id], errs[id]) else gs[id]
  }

  /** Marking one more failing field is one more showInputError. */
  lemma MarkErrorsStep(gs: map<string, FormGroup>, errs: map<string, string>, ok: bool, id: string, m: string)
    requires id in gs && id !in errs
    ensures MarkStep(MarkErrors(gs, errs), ok, id, m) == MarkErrors(gs, Flag(errs, ok, id, m))
  {
    if !ok {
      var before := MarkErrors(gs, errs);
      var l := before[id := ShowError(gs[id], m)];
      var e := errs[id := m];
      var r := MarkErrors(gs, e);
      assert l.Keys == r.Keys;
      forall k | k in l ensures l[k] == r[k] {
        if k != id {
          assert l[k] == before[k];
        }
      }
    }
  }

  /** One `if` of validateForm, on the form groups. */
  function MarkStep(gs: map<string, FormGroup>, ok: bool, id: string, m: string): map<string, FormGroup>
    requires id in gs
  {
    if ok then gs else gs[id := ShowError(gs[id], m)]
  }

  /** The four `if`s of validateForm in order mark exactly the fields FormErrors names. */
  lemma ValidatedGroupsMarkErrors(gs: map<string, FormGroup>, d: FormData)
    requires FieldIds <= gs.Keys
    ensures MarkStep(MarkStep(MarkStep(MarkStep(gs, NameOk(d.name), "name", NameMessage),
              EmailOk(d.email), "email", EmailMessage), PhoneOk(d.phone), "phone", PhoneMessage),
              MessageOk(d.message), "message", MessageMessage)
            == MarkErrors(gs, FormErrors(d))
  {
    MarkedRules(gs, NameOk(d.name), EmailOk(d.email), PhoneOk(d.phone), MessageOk(d.message));
  }

  lemma MarkedRules(gs: map<string, FormGroup>, nameOk: bool, emailOk: bool, phoneOk: bool, messageOk: bool)
    requires FieldIds <= gs.Keys
    ensures MarkStep(MarkStep(MarkStep(MarkStep(gs, nameOk, "name", NameMessage),
              emailOk, "email", EmailMessage), phoneOk, "phone", PhoneMessage),
              messageOk, "message", MessageMessage)
            == MarkErrors(gs, RuleErrors(nameOk, emailOk, phoneOk, messageOk))
  {
    IdsDistinct();
    var e0: map<string, string> := map[];
    assert MarkErrors(gs, e0) == gs;
    var e1 := Flag(e0, nameOk, "name", NameMessage);
    MarkErrorsStep(gs, e0, nameOk, "name", NameMessage);
    var e2 := Flag(e1, emailOk, "email", EmailMessage);
    MarkErrorsStep(gs, e1, emailOk, "email", EmailMessage);
    var e3 := Flag(e2, phoneOk, "phone", PhoneMessage);
    MarkErrorsStep(gs, e2, phoneOk, "phone", PhoneMessage);
    MarkErrorsStep(gs, e3, messageOk, "message", MessageMessage);
  }

  lemma UpdateTwice(gs: map<string, FormGroup>, id: string, a: FormGroup, b: FormGroup)
    ensures gs[id := a][id := b] == gs[id := b]
  {
  }

  /** `form.reset()`: every control back to its (empty) default value; the
      error classes and messages are left as they are. */
  function ResetValues(gs: map<string, FormGroup>): (r: map<string, FormGroup>)
    ensures r.Keys == gs.Keys
    ensures forall id | id in gs :: r[id] == gs[id].(value := "")
  {
    map id | id in gs :: gs[id].(value := "")
  }

  // ---------------------------------------------------------------------------
  // validateInput
  // ---------------------------------------------------------------------------

  datatype Verdict = Valid | Invalid(message: string)

  /** The verdict validateInput reaches for an input with the given type,
      `required` attribute and raw value. */
  function CheckInput(kind: string, required: bool, raw: string): (r: Verdict)
    ensures required && Trim(raw) == [] ==> r == Invalid(RequiredMessage)
    ensures r.Valid? <==>
      && !(required && Trim(raw) == [])
      && (kind == "email" ==> IsEmail(Trim(raw)))
      && (kind == "tel" ==> PhoneOk(Trim(raw)))
    ensures r.Invalid? && !(required && Trim(raw) == []) ==>
      r.message == (if kind == "email" then EmailMessage else PhoneMessage)
  {
    var value := Trim(raw);
    if required && value == "" then Invalid(RequiredMessage)
    else if kind == "email" then
      (if IsEmail(value) then Valid else Invalid(EmailMessage))
    else if kind == "tel" then
      (if PhonePattern(value) && Utf16Length(value) >= 8 then Valid else Invalid(PhoneMessage))
    else Valid
  }

  /** What validateInput leaves in the group it checks: the message of the
      verdict and the class when invalid; no message and no class when valid. */
  function Revalidate(g: FormGroup): (r: FormGroup)
    ensures r.value == g.value && r.kind == g.kind && r.required == g.required
    ensures r.error <==> CheckInput(g.kind, g.required, g.value).Invalid?
    ensures Consistent(g) ==> Consistent(r)
    ensures Consistent(g) ==>
      r.messages == (match CheckInput(g.kind, g.required, g.value)
                     case Valid => []
                     case Invalid(m) => [m])
  {
    match CheckInput(g.kind, g.required, g.value)
    case Valid => ClearError(g)
    case Invalid(m) => ShowError(g, m)
  }

  /** Surrounding whitespace never changes a per-field verdict. */
  lemma CheckInputIgnoresSurroundingWhitespace(kind: string, required: bool, raw: string)
    ensures CheckInput(kind, required, Trim(raw)) == CheckInput(kind, required, raw)
  {
    TrimIdempotent(raw);
  }

  /** An email the submit check accepts is accepted on blur too, but not
      conversely: the submit check does not trim. */
  lemma EmailSubmitVersusBlur(v: string)
    ensures EmailOk(v) ==> IsEmail(Trim(v))
    ensures IsEmail(Trim("\U{00A0}a@b.c")) && !EmailOk("\U{00A0}a@b.c")
  {
    if EmailOk(v) {
      assert LeadingWhitespace(v) == 0;
      assert TrailingWhitespace(v) == 0;
      assert Trim(v) == v;
    }
    PaddedEmail();
    assert IsWhitespace("\U{00A0}a@b.c"[0]);
  }

  /** The counterexample: a valid address behind a no-break space, which
      `trim` removes; the value sanitization of an email input strips only
      ASCII whitespace, so the space reaches both checks. */
  lemma PaddedEmail()
    ensures Trim("\U{00A0}a@b.c") == "a@b.c" && IsEmail("a@b.c")
  {
    var s := "\U{00A0}a@b.c";
    assert IsWhitespace(s[0]);
    assert LeadingWhitespace(s) == 1 by {
      assert LeadingWhitespace(s[1..]) == 0;
    }
    assert TrailingWhitespace("a@b.c") == 0;
    assert EmailSplit("a@b.c", 1, 3);
    EmailPatternIff("a@b.c");
  }

  /** A phone the blur check accepts is accepted on submit too, but not
      conversely: the submit check measures the untrimmed length, so
      `"  1234  "` passes submit while its blur check reports an error. */
  lemma PhoneBlurVersusSubmit(v: string)
    ensures PhoneOk(Trim(v)) ==> PhoneOk(v)
    ensures PhoneOk("  1234  ") && !PhoneOk(Trim("  1234  "))
  {
    PhonePatternTrim(v);
    if PhoneOk(Trim(v)) {
      PhonePatternUtf16(v);
      PhonePatternUtf16(Trim(v));
    }
    PaddedPhone();
    PhonePatternTrim("  1234  ");
    PhonePatternUtf16("  1234  ");
    PhonePatternUtf16(Trim("  1234  "));
  }

  /** The counterexample: eight characters of the class around four digits. */
  lemma PaddedPhone()
    ensures PhonePattern("  1234  ") && |Trim("  1234  ")| == 4
  {
    var s := "  1234  ";
    assert PhoneChar(s[0]) && PhoneChar(s[1]) && PhoneChar(s[6]) && PhoneChar(s[7]);
    PaddedPhoneLeading();
    assert s[2..] == "1234  ";
    PaddedPhoneTrailing();
  }

  lemma PaddedPhoneLeading()
    ensures LeadingWhitespace("  1234  ") == 2
  {
    assert LeadingWhitespace("1234  ") == 0;
    assert " 1234  "[1..] == "1234  ";
    assert "  1234  "[1..] == " 1234  ";
  }

  lemma PaddedPhoneTrailing()
    ensures TrailingWhitespace("1234  ") == 2
  {
    assert TrailingWhitespace("1234") == 0;
    assert "1234 "[..4] == "1234";
    assert "1234  "[..5] == "1234 ";
  }

  // ---------------------------------------------------------------------------
  // showFormMessage text
  // ---------------------------------------------------------------------------

  predicate OccursAt(s: string, part: string, i: int) {
    0 <= i <= |s| - |part| && s[i..i + |part|] == part
  }

  ghost predicate Contains(s: string, part: string) {
    exists i :: OccursAt(s, part, i)
  }

  const ThanksPrefix := "Thank you, "
  const ThanksMiddle := "! We've received your message. Our team will contact you shortly at "

  /** The success toast's text; it quotes the submitted name and email. */
  function SuccessMessage(name: string, email: string): (r: string)
    ensures Contains(r, name) && Contains(r, email)
  {
    var r := ThanksPrefix + name + ThanksMiddle + email;
    assert OccursAt(r, name, |ThanksPrefix|);
    assert OccursAt(r, email, |r| - |email|);
    r
  }

  // ---------------------------------------------------------------------------
  // The form's live state and its handlers
  // ---------------------------------------------------------------------------

  class Form {
    /** Form groups by the id of the input they hold. */
    var groups: map<string, FormGroup>
    /** Texts of the toast messages shown so far, oldest first. */
    var toasts: seq<string>

    ghost predicate Valid()
      reads this
    {
      FieldIds <= groups.Keys && forall id | id in groups :: Consistent(groups[id])
    }

    /** The values the submit handler reads. */
    function Data(): (d: FormData)
      reads this
      requires FieldIds <= groups.Keys
      ensures d.name == groups["name"].value && d.email == groups["email"].value
      ensures d.phone == groups["phone"].value && d.project == groups["project"].value
      ensures d.message == groups["message"].value
    {
      FormData(groups["name"].value, groups["email"].value, groups["phone"].value,
               groups["project"].value, groups["message"].value)
    }

    constructor (initial: map<string, FormGroup>)
      requires FieldIds <= initial.Keys
      requires forall id | id in initial :: Consistent(initial[id])
      ensures Valid() && groups == initial && toasts == []
    {
      groups := initial;
      toasts := [];
    }

    method ShowInputError(id: string, message: string)
      requires Valid() && id in groups
      modifies this
      ensures Valid()
      ensures groups == old(groups)[id := ShowError(old(groups)[id], message)]
      ensures toasts == old(toasts)
    {
      groups := groups[id := ShowError(groups[id], message)];
    }

    method ClearInputError(id: string)
      requires Valid() && id in groups
      modifies this
      ensures Valid()
      ensures groups == old(groups)[id := ClearError(old(groups)[id])]
      ensures toasts == old(toasts)
    {
      groups := groups[id := ClearError(groups[id])];
    }

    /** validateForm: every rule is evaluated, each failure marks its field. */
    method ValidateForm(d: FormData) returns (isValid: bool)
      requires Valid()
      modifies this
      ensures Valid()
      ensures isValid <==> FormErrors(d) == map[]
      ensures groups == MarkErrors(old(groups), FormErrors(d))
      ensures toasts == old(toasts)
    {
      ghost var expected := old(groups);
      isValid := true;
      if !NameOk(d.name) {
        ShowInputError("name", NameMessage);
        isValid := false;
      }
      expected := MarkStep(expected, NameOk(d.name), "name", NameMessage);
      assert groups == expected;
      if !EmailOk(d.email) {
        ShowInputError("email", EmailMessage);
        isValid := false;
      }
      expected := MarkStep(expected, EmailOk(d.email), "email", EmailMessage);
      assert groups == expected;
      if !PhoneOk(d.phone) {
        ShowInputError("phone", PhoneMessage);
        isValid := false;
      }
      expected := MarkStep(expected, PhoneOk(d.phone), "phone", PhoneMessage);
      assert groups == expected;
      if !MessageOk(d.message) {
        ShowInputError("message", MessageMessage);
        isValid := false;
      }
      expected := MarkStep(expected, MessageOk(d.message), "message", MessageMessage);
      assert groups == expected;
      ValidatedGroupsMarkErrors(old(groups), d);
    }

    /** validateInput, which is also the whole blur handler. */
    method ValidateInput(id: string) returns (isValid: bool)
      requires Valid() && id in groups
      modifies this
      ensures Valid()
      ensures isValid <==> CheckInput(old(groups)[id].kind, old(groups)[id].required, old(groups)[id].value).Valid?
      ensures groups == old(groups)[id := Revalidate(old(groups)[id])]
      ensures toasts == old(toasts)
    {
      var g := groups[id];
      var value := Trim(g.value);
      isValid := true;
      var errorMessage := "";
      if g.required && value == "" {
        isValid := false;
        errorMessage := RequiredMessage;
      } else if g.kind == "email" {
        if !IsEmail(value) {
          isValid := false;
          errorMessage := EmailMessage;
        }
      } else if g.kind == "tel" {
        if !PhonePattern(value) || Utf16Length(value) < 8 {
          isValid := false;
          errorMessage := PhoneMessage;
        }
      }
      if !isValid {
        ShowInputError(id, errorMessage);
      } else {
        ClearInputError(id);
      }
    }

    /** The input handler: the keystroke changes the value, and the field is
      re-validated only while it carries the `error` class. */
    method OnInput(id: string, typed: string)
      requires Valid() && id in groups
      modifies this
      ensures Valid()
      ensures old(groups)[id].error ==> groups == old(groups)[id := Revalidate(old(groups)[id].(value := typed))]
      ensures !old(groups)[id].error ==> groups == old(groups)[id := old(groups)[id].(value := typed)]
      ensures toasts == old(toasts)
    {
      var g := groups[id].(value := typed);
      groups := groups[id := g];
      if g.error {
        var _ := ValidateInput(id);
        UpdateTwice(old(groups), id, g, Revalidate(g));
      }
    }

    /** The submit handler. On a failed check it returns before the toast and
      the reset; on success it shows the toast and resets every field. */
    method Submit() returns (accepted: bool)
      requires Valid()
      modifies this
      ensures Valid()
      ensures accepted <==> FormErrors(old(Data())) == map[]
      ensures !accepted ==> groups == MarkErrors(old(groups), FormErrors(old(Data()))) && toasts == old(toasts)
      ensures accepted ==> groups == ResetValues(old(groups))
      ensures accepted ==> toasts == old(toasts) + [SuccessMessage(old(Data()).name, old(Data()).email)]
    {
      var formData := Data();
      accepted := ValidateForm(formData);
      if !accepted {
        return;
      }
      assert groups == old(groups);
      toasts := toasts + [SuccessMessage(formData.name, formData.email)];
      groups := ResetValues(groups);
    }
  }

  /** A rejected submit changes no value: only the failing fields' classes and messages. */
  lemma RejectedSubmitKeepsValues(gs: map<string, FormGroup>, d: FormData)
    ensures forall id | id in gs :: MarkErrors(gs, FormErrors(d))[id].value == gs[id].value
  {
  }

  /** After a rejected submit every failing field shows its own message, once. */
  lemma RejectedSubmitMarksEveryFailure(gs: map<string, FormGroup>, d: FormData)
    requires forall id | id in gs :: Consistent(gs[id])
    ensures forall id | id in gs && id in FormErrors(d) ::
      MarkErrors(gs, FormErrors(d))[id].error && MarkErrors(gs, FormErrors(d))[id].messages == [FormErrors(d)[id]]
  {
  }

  /** A name of one character outside the Basic Multilingual Plane is two
      code units long and passes, although it is a single character. */
  lemma AstralNameAccepted(d: FormData)
    requires d.name == "\U{1F600}"
    ensures |Trim(d.name)| == 1 && "name" !in FormErrors(d)
  {
    assert LeadingWhitespace(d.name) == 0;
    assert TrailingWhitespace(d.name) == 0;
    assert Trim(d.name) == d.name;
    assert Utf16Length(d.name) == 2;
  }

  /** A one-character name is rejected with the name message. */
  lemma ShortNameRejected(d: FormData)
    requires d.name == "A"
    ensures "name" in FormErrors(d) && FormErrors(d)["name"] == NameMessage
  {
    assert LeadingWhitespace("A") == 0;
  }
}
