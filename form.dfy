/** The contact-form controller of js/form.js: the error flag and message
    slot of each field, the submit handler with its five checks, the
    submission state machine over the button, the loading indicator, the form
    and the success panel, the "send another" reset and the auto-saved draft. */
module Form {
  import opened Js
  import opened Validation

  /** One entry per form field. */
  datatype PerField<T> = PerField(name: T, email: T, service: T, budget: T, message: T) {
    function Get(id: FieldId): T {
      match id
      case Name => name
      case Email => email
      case Service => service
      case Budget => budget
      case Message => message
    }

    /** The same entries except the one for `id`, which becomes `x`. */
    function Set(id: FieldId, x: T): (r: PerField<T>)
      ensures r.Get(id) == x
      ensures forall other :: other != id ==> r.Get(other) == Get(other)
    {
      match id
      case Name => this.(name := x)
      case Email => this.(email := x)
      case Service => this.(service := x)
      case Budget => this.(budget := x)
      case Message => this.(message := x)
    }
  }

  /** What the page shows of one field: its value, whether it carries the
      `error` class, and its error-display slot (the element `<id>Error`),
      which may be absent from the page. */
  datatype FieldView = FieldView(value: string, hasError: bool, hasSlot: bool, slotText: string, slotShown: bool)

  /** The request body `submitForm` collects, one entry per field; the
      timestamp is not modelled. */
  type Payload = PerField<string>

  /** How the awaited submission call ended: resolved, or rejected. */
  datatype Outcome = Delivered | Failed

  /** The notice `showErrorMessage` inserts above the form after a failed
      submission. */
  datatype Notice = SubmitFailure {
    function Text(): string { "Something went wrong. Please try again." }
  }

  /** How the form-service request of js/script.js ended: no usable reply
      (the request failed or its body was not JSON), or a reply with its
      `success` flag. */
  datatype Reply = Unusable | Answered(success: bool)

  /** The alert shown when the form-service request does not succeed. */
  const ServiceAlert: string := "Oops! Something went wrong. Please try again or email me directly at hello@arjundigital.com"

  const ServiceMissing: string := "Please select a service"
  const BudgetMissing: string := "Please select a budget"

  /** The keys of a saved draft. */
  const DraftKeys: set<string> := {"name", "email", "service", "budget", "message"}

  /** The value of every field. */
  function ValuesOf(fields: PerField<FieldView>): PerField<string> {
    PerField(fields.name.value, fields.email.value, fields.service.value, fields.budget.value, fields.message.value)
  }

  /** `showError`: sets the field's error flag and, when an error slot is
      passed and exists, writes the message into it and shows it. */
  function WithError(v: FieldView, msg: string, useSlot: bool): FieldView {
    if useSlot && v.hasSlot then v.(hasError := true, slotText := msg, slotShown := true)
    else v.(hasError := true)
  }

  /** `hideError`: clears the field's error flag and empties and hides its
      slot when there is one. */
  function WithoutError(v: FieldView): FieldView {
    if v.hasSlot then v.(hasError := false, slotText := "", slotShown := false)
    else v.(hasError := false)
  }

  /** What `validateField` leaves on a field for the verdict `e`. */
  function Displayed(v: FieldView, e: Option<string>): FieldView {
    if e.Some? then WithError(v, e.value, true) else WithoutError(v)
  }

  /** The view displays the verdict `e`: the flag is set exactly when there is
      an error, and a slot, when present, is shown exactly then and holds the
      message (empty when there is no error). */
  predicate Shows(v: FieldView, e: Option<string>) {
    && v.hasError == e.Some?
    && (v.hasSlot ==> v.slotShown == e.Some? && v.slotText == (if e.Some? then e.value else ""))
  }

  /** After `validateField` the field shows its verdict, and its value and
      slot presence are untouched; as every message is non-empty, the flag is
      set exactly when a present slot holds text. */
  lemma DisplayedShows(v: FieldView, id: FieldId, rule: Rule)
    ensures Shows(Displayed(v, FieldError(id, v.value, rule)), FieldError(id, v.value, rule))
    ensures Displayed(v, FieldError(id, v.value, rule)).value == v.value
    ensures Displayed(v, FieldError(id, v.value, rule)).hasSlot == v.hasSlot
    ensures v.hasSlot ==> (Displayed(v, FieldError(id, v.value, rule)).hasError
                           <==> Displayed(v, FieldError(id, v.value, rule)).slotText != "")
  {
  }

  /** The rule each blur listener passes to `validateField`; the two
      selections have no blur listener. */
  function BlurRule(id: FieldId): (r: Option<Rule>)
    ensures r.Some? <==> id != Service && id != Budget
  {
    match id
    case Name => Some(NameRule)
    case Email => Some(EmailRule)
    case Message => Some(MessageRule)
    case Service => None
    case Budget => None
  }

  /** The five checks of `handleFormSubmit`. */
  predicate AllValid(values: PerField<string>) {
    && FieldError(Name, values.name, NameRule).None?
    && FieldError(Email, values.email, EmailRule).None?
    && SelectionValid(values.service)
    && SelectionValid(values.budget)
    && FieldError(Message, values.message, MessageRule).None?
  }

  /** The data `submitForm` sends: the text fields trimmed, the selections as
      they are. */
  function PayloadOf(values: PerField<string>): Payload {
    PerField(Trim(values.name), Trim(values.email), values.service, values.budget, Trim(values.message))
  }

  /** A request body every field rule accepts. */
  predicate RequestValid(p: Payload) {
    MatchesName(p.name) && MatchesEmail(p.email) && p.service != "" && p.budget != "" && |p.message| >= 10
  }

  /** The form passes its five checks exactly when the body it would send is
      acceptable field by field. */
  lemma {:induction false} ChecksMatchRequest(values: PerField<string>)
    ensures AllValid(values) <==> RequestValid(PayloadOf(values))
  {
    var p := PayloadOf(values);
    if RequestValid(p) {
      assert p.email != [] by { assert 0 < IndexOf(p.email, '@'); }
    }
  }

  /** The draft `autoSaveDraft` writes: exactly the five keys, each holding
      the raw value of its field. */
  function DraftOf(values: PerField<string>): (d: map<string, string>)
    ensures d.Keys == DraftKeys
    ensures forall id: FieldId :: d[Key(id)] == values.Get(id)
  {
    map["name" := values.name, "email" := values.email, "service" := values.service,
        "budget" := values.budget, "message" := values.message]
  }

  /** The fields after `form.reset()`: every value back to its blank
      default, flags and slots as they were. */
  function Blank(fields: PerField<FieldView>): (r: PerField<FieldView>)
    ensures ValuesOf(r) == PerField("", "", "", "", "")
  {
    PerField(fields.name.(value := ""), fields.email.(value := ""), fields.service.(value := ""),
             fields.budget.(value := ""), fields.message.(value := ""))
  }

  /** One field after a restore: its value is replaced when the draft has its key. */
  function RestoreOne(v: FieldView, key: string, draft: map<string, string>): FieldView {
    if key in draft then v.(value := draft[key]) else v
  }

  /** The fields after restoring `draft`: a field whose key the draft holds
      takes the saved value, every other field is untouched, and keys that
      name no field are ignored. */
  function Restore(fields: PerField<FieldView>, draft: map<string, string>): PerField<FieldView> {
    PerField(RestoreOne(fields.name, "name", draft), RestoreOne(fields.email, "email", draft),
             RestoreOne(fields.service, "service", draft), RestoreOne(fields.budget, "budget", draft),
             RestoreOne(fields.message, "message", draft))
  }

  /** Restoring a saved draft brings back exactly the values that were saved,
      whatever the fields held before, and changes nothing but values. */
  lemma {:induction false} DraftRoundTrip(saved: PerField<string>, current: PerField<FieldView>)
    ensures ValuesOf(Restore(current, DraftOf(saved))) == saved
    ensures forall id :: Restore(current, DraftOf(saved)).Get(id) == current.Get(id).(value := saved.Get(id))
  {
    var d := DraftOf(saved);
    assert d[Key(Name)] == saved.name;
    assert d[Key(Email)] == saved.email;
    assert d[Key(Service)] == saved.service;
    assert d[Key(Budget)] == saved.budget;
    assert d[Key(Message)] == saved.message;
  }

  /** A draft key that names no field changes nothing on restore. */
  lemma {:induction false} RestoreIgnoresUnknownKeys(fields: PerField<FieldView>, draft: map<string, string>, key: string, text: string)
    requires FieldOfKey(key).None?
    ensures Restore(fields, draft[key := text]) == Restore(fields, draft)
  {
    assert key != Key(Name) && key != Key(Email) && key != Key(Service) && key != Key(Budget) && key != Key(Message);
  }

  /** Adding a field's key to the draft restores that one field and no other. */
  lemma {:induction false} RestoreOneMore(fields: PerField<FieldView>, draft: map<string, string>, id: FieldId, text: string)
    ensures Restore(fields, draft[Key(id) := text])
            == Restore(fields, draft).Set(id, fields.Get(id).(value := text))
  {
  }

  /** The fields after the five checks of `handleFormSubmit`: name, email
      and message display their verdicts; an empty selection gets its error
      flag, without a message since no slot is passed, and a non-empty one
      is left as it was. */
  function Checked(fields: PerField<FieldView>): PerField<FieldView> {
    PerField(
      Displayed(fields.name, FieldError(Name, fields.name.value, NameRule)),
      Displayed(fields.email, FieldError(Email, fields.email.value, EmailRule)),
      if SelectionValid(fields.service.value) then fields.service
      else WithError(fields.service, ServiceMissing, false),
      if SelectionValid(fields.budget.value) then fields.budget
      else WithError(fields.budget, BudgetMissing, false),
      Displayed(fields.message, FieldError(Message, fields.message.value, MessageRule)))
  }

  /** The checks change no value. */
  lemma CheckedKeepsValues(fields: PerField<FieldView>)
    ensures ValuesOf(Checked(fields)) == ValuesOf(fields)
  {
    var n := FieldError(Name, fields.name.value, NameRule);
    var e := FieldError(Email, fields.email.value, EmailRule);
    var m := FieldError(Message, fields.message.value, MessageRule);
    assert Displayed(fields.name, n).value == fields.name.value;
    assert Displayed(fields.email, e).value == fields.email.value;
    assert Displayed(fields.message, m).value == fields.message.value;
  }

  /** After the checks each text field shows its own verdict; a selection is
      flagged when it is empty, keeps its earlier flag otherwise, and its slot
      is untouched. */
  lemma CheckedShows(fields: PerField<FieldView>)
    ensures Shows(Checked(fields).name, FieldError(Name, fields.name.value, NameRule))
    ensures Shows(Checked(fields).email, FieldError(Email, fields.email.value, EmailRule))
    ensures Shows(Checked(fields).message, FieldError(Message, fields.message.value, MessageRule))
    ensures Checked(fields).service.hasError == (fields.service.hasError || fields.service.value == "")
    ensures Checked(fields).budget.hasError == (fields.budget.hasError || fields.budget.value == "")
    ensures Checked(fields).service.slotText == fields.service.slotText
    ensures Checked(fields).service.slotShown == fields.service.slotShown
    ensures Checked(fields).budget.slotText == fields.budget.slotText
    ensures Checked(fields).budget.slotShown == fields.budget.slotShown
  {
    DisplayedShows(fields.name, Name, NameRule);
    DisplayedShows(fields.email, Email, EmailRule);
    DisplayedShows(fields.message, Message, MessageRule);
  }

  /** What every handler keeps true: a selection carries the error class only
      while it is empty, and a selection's error slot never shows text:
      `handleFormSubmit` passes no slot, and `hideError` on input only empties
      and hides it. */
  predicate SelectionFlagsCurrent(fields: PerField<FieldView>) {
    && (fields.service.hasError ==> fields.service.value == "")
    && (fields.budget.hasError ==> fields.budget.value == "")
    && !fields.service.slotShown && fields.service.slotText == ""
    && !fields.budget.slotShown && fields.budget.slotText == ""
  }

  /** The field carries no error class, and its slot, if any, is hidden and
      empty. */
  predicate Clear(v: FieldView) {
    !v.hasError && (v.hasSlot ==> !v.slotShown && v.slotText == "")
  }

  /** No field shows an error. */
  predicate NoErrorShown(fields: PerField<FieldView>) {
    Clear(fields.name) && Clear(fields.email) && Clear(fields.service) && Clear(fields.budget) && Clear(fields.message)
  }

  /** A delivered submission followed by "send another" leaves an empty form
      with no error shown: the three text fields passed their checks, so
      their errors were hidden, and a non-empty selection carries no flag. */
  lemma {:induction false} DeliveredThenBlank(fields: PerField<FieldView>)
    requires SelectionFlagsCurrent(fields) && AllValid(ValuesOf(fields))
    ensures NoErrorShown(Blank(Checked(fields)))
    ensures SelectionFlagsCurrent(Blank(Checked(fields)))
    ensures ValuesOf(Blank(Checked(fields))) == PerField("", "", "", "", "")
  {
    CheckedShows(fields);
  }

  /** The fields as the page loads: blank values, no errors, and an error
      slot for the fields in `slots`. */
  function Pristine(slots: set<FieldId>): PerField<FieldView> {
    PerField(
      FieldView("", false, Name in slots, "", false),
      FieldView("", false, Email in slots, "", false),
      FieldView("", false, Service in slots, "", false),
      FieldView("", false, Budget in slots, "", false),
      FieldView("", false, Message in slots, "", false))
  }

  /** The fields once the page has loaded and the stored draft, if any, has
      been restored. */
  function Loaded(slots: set<FieldId>, stored: Option<map<string, string>>): PerField<FieldView> {
    if stored.Some? then Restore(Pristine(slots), stored.value) else Pristine(slots)
  }

  /** After loading, each field holds the draft's value for its key when
      there is one and is blank otherwise, shows no error, and has a slot
      exactly when it is in `slots`. */
  lemma LoadedFields(slots: set<FieldId>, stored: Option<map<string, string>>)
    ensures forall id: FieldId :: Loaded(slots, stored).Get(id) == FieldView(
              if stored.Some? && Key(id) in stored.value then stored.value[Key(id)] else "",
              false, id in slots, "", false)
  {
  }

  class ContactForm {
    var fields: PerField<FieldView>
    var formShown: bool
    var successShown: bool
    var buttonDisabled: bool
    /** The submit button's label and its loading indicator. */
    var labelShown: bool
    var loadingShown: bool
    /** The failure notices inserted above the form, oldest first. */
    var notices: seq<Notice>
    /** Every request body sent to the submission endpoint, in order. */
    var requests: seq<Payload>
    /** The draft entry in local storage. */
    var draft: Option<map<string, string>>
    /** Every body posted to the form service by js/script.js, in order. */
    var posts: seq<Payload>
    /** The alerts shown, oldest first. */
    var alerts: seq<string>

    /** The page at load time: blank fields without errors (a field has an
        error slot when it is in `slots`), the form shown, the success panel
        hidden, the button ready; then the draft found in storage, if any, is
        restored. */
    constructor (slots: set<FieldId>, stored: Option<map<string, string>>)
      ensures fields == Loaded(slots, stored)
      ensures formShown && !successShown && !buttonDisabled && labelShown && !loadingShown
      ensures notices == [] && requests == [] && draft == stored && posts == [] && alerts == []
      ensures NoErrorShown(fields) && SelectionFlagsCurrent(fields)
    {
      fields := Pristine(slots);
      formShown, successShown := true, false;
      buttonDisabled, labelShown, loadingShown := false, true, false;
      notices, requests := [], [];
      draft := stored;
      posts, alerts := [], [];
      new;
      RestoreDraft();
      LoadedFields(slots, stored);
      assert fields.service == fields.Get(Service) && fields.budget == fields.Get(Budget);
      assert fields.name == fields.Get(Name) && fields.email == fields.Get(Email) && fields.message == fields.Get(Message);
    }

    /** The restore step of `autoSaveDraft`: each key of the stored draft that
        names a field writes its value into that field, in whatever order the
        keys come. */
    method RestoreDraft()
      modifies this`fields
      ensures fields == if draft.Some? then Restore(old(fields), draft.value) else old(fields)
    {
      if draft.None? {
        return;
      }
      var saved := draft.value;
      var pending := saved.Keys;
      assert saved - pending == map[];
      assert Restore(fields, map[]) == fields;
      while pending != {}
        invariant pending <= saved.Keys
        invariant fields == Restore(old(fields), saved - pending)
        decreases pending
      {
        var key :| key in pending;
        assert saved - (pending - {key}) == (saved - pending)[key := saved[key]];
        var target := FieldOfKey(key);
        if target.Some? {
          var id := target.value;
          RestoreOneMore(old(fields), saved - pending, id, saved[key]);
          fields := fields.Set(id, fields.Get(id).(value := saved[key]));
        } else {
          RestoreIgnoresUnknownKeys(old(fields), saved - pending, key, saved[key]);
        }
        pending := pending - {key};
      }
      assert saved - pending == saved;
    }

    method ShowError(id: FieldId, msg: string, useSlot: bool)
      modifies this`fields
      ensures fields == old(fields).Set(id, WithError(old(fields).Get(id), msg, useSlot))
    {
      var v := fields.Get(id);
      if useSlot && v.hasSlot {
        fields := fields.Set(id, v.(hasError := true, slotText := msg, slotShown := true));
      } else {
        fields := fields.Set(id, v.(hasError := true));
      }
    }

    method HideError(id: FieldId)
      modifies this`fields
      ensures fields == old(fields).Set(id, WithoutError(old(fields).Get(id)))
    {
      var v := fields.Get(id);
      if v.hasSlot {
        fields := fields.Set(id, v.(hasError := false, slotText := "", slotShown := false));
      } else {
        fields := fields.Set(id, v.(hasError := false));
      }
    }

    /** `validateField`: the result is true exactly when the trimmed value
        passes the rule, and the field then shows that verdict, flag and slot
        agreeing with the result. Nothing but the field's flag and slot
        changes. */
    method ValidateField(id: FieldId, rule: Rule) returns (ok: bool)
      modifies this`fields
      ensures ok <==> FieldError(id, old(fields).Get(id).value, rule).None?
      ensures Shows(fields.Get(id), FieldError(id, old(fields).Get(id).value, rule))
      ensures fields == old(fields).Set(id, Displayed(old(fields).Get(id), FieldError(id, old(fields).Get(id).value, rule)))
    {
      DisplayedShows(fields.Get(id), id, rule);
      var value := Trim(fields.Get(id).value);
      if value == [] {
        ShowError(id, Required, true);
        return false;
      }
      if rule.minLength != 0 && |value| < rule.minLength {
        ShowError(id, ErrorMessage(id), true);
        return false;
      }
      if rule.pattern.Some? && !Matches(rule.pattern.value, value) {
        ShowError(id, ErrorMessage(id), true);
        return false;
      }
      HideError(id);
      return true;
    }

    /** The blur listeners: name, email and message are checked when they lose
        focus; the two selections have no blur listener. */
    method OnBlur(id: FieldId)
      requires SelectionFlagsCurrent(fields)
      modifies this`fields
      ensures id == Name ==> Shows(fields.name, FieldError(Name, old(fields.name.value), NameRule))
      ensures id == Email ==> Shows(fields.email, FieldError(Email, old(fields.email.value), EmailRule))
      ensures id == Message ==> Shows(fields.message, FieldError(Message, old(fields.message.value), MessageRule))
      ensures BlurRule(id).Some? ==>
                fields == old(fields).Set(id, Displayed(old(fields).Get(id), FieldError(id, old(fields).Get(id).value, BlurRule(id).value)))
      ensures BlurRule(id).None? ==> fields == old(fields)
      ensures ValuesOf(fields) == old(ValuesOf(fields))
      ensures SelectionFlagsCurrent(fields)
    {
      var ok;
      match id {
        case Name => ok := ValidateField(Name, NameRule);
        case Email => ok := ValidateField(Email, EmailRule);
        case Message => ok := ValidateField(Message, MessageRule);
        case Service =>
        case Budget =>
      }
    }

    /** An `input` event on a field: the new value lands in the field, an
        error shown on the field is cleared, and the whole form is saved as
        the draft. */
    method OnInput(id: FieldId, value: string)
      requires SelectionFlagsCurrent(fields)
      modifies this`fields, this`draft
      ensures ValuesOf(fields) == old(ValuesOf(fields)).Set(id, value)
      ensures !fields.Get(id).hasError
      ensures fields.Get(id) == (if old(fields).Get(id).hasError then WithoutError(old(fields).Get(id).(value := value))
                                 else old(fields).Get(id).(value := value))
      ensures forall other :: other != id ==> fields.Get(other) == old(fields).Get(other)
      ensures draft == Some(DraftOf(ValuesOf(fields)))
      ensures SelectionFlagsCurrent(fields)
    {
      fields := fields.Set(id, fields.Get(id).(value := value));
      if fields.Get(id).hasError {
        HideError(id);
      }
      draft := Some(DraftOf(ValuesOf(fields)));
    }

    /** The second submit listener of `autoSaveDraft`: the draft is removed
        on every submit event, whether or not the submission goes ahead. */
    method ClearDraftOnSubmit()
      modifies this`draft
      ensures draft.None?
    {
      draft := None;
    }

    /** `form.reset()`: every field returns to its default, blank value;
        flags and slots are left as they are. */
    method ResetValues()
      requires SelectionFlagsCurrent(fields)
      modifies this`fields
      ensures fields == Blank(old(fields))
      ensures SelectionFlagsCurrent(fields)
      ensures NoErrorShown(old(fields)) ==> NoErrorShown(fields)
    {
      fields := PerField(fields.name.(value := ""), fields.email.(value := ""), fields.service.(value := ""),
                         fields.budget.(value := ""), fields.message.(value := ""));
    }

    /** `submitForm`: shows the loading state, sends the form's data once, and
        on success hides the form, shows the success panel and resets the
        fields; on failure adds a notice and leaves the form as it is. On both
        paths the button ends enabled with its label back and the loading
        indicator hidden. */
    method SubmitForm(outcome: Outcome)
      requires SelectionFlagsCurrent(fields)
      modifies this`labelShown, this`loadingShown, this`buttonDisabled, this`requests
      modifies this`formShown, this`successShown, this`fields, this`notices
      ensures requests == old(requests) + [PayloadOf(old(ValuesOf(fields)))]
      ensures !buttonDisabled && labelShown && !loadingShown
      ensures outcome == Delivered ==>
                !formShown && successShown && notices == old(notices) && fields == Blank(old(fields))
      ensures outcome == Failed ==>
                formShown == old(formShown) && successShown == old(successShown)
                && fields == old(fields) && notices == old(notices) + [SubmitFailure]
      ensures SelectionFlagsCurrent(fields)
    {
      var body := PayloadOf(ValuesOf(fields));
      labelShown, loadingShown, buttonDisabled := false, true, true;
      requests := requests + [body];
      if outcome == Delivered {
        formShown, successShown := false, true;
        ResetValues();
      } else {
        notices := notices + [SubmitFailure];
      }
      labelShown, loadingShown, buttonDisabled := true, false, false;
    }

    /** The five checks of `handleFormSubmit`, each run whatever the others
        found: the result is true exactly when all five pass, and the fields
        become `Checked(old(fields))`. */
    method CheckAll() returns (ok: bool)
      requires SelectionFlagsCurrent(fields)
      modifies this`fields
      ensures ok == AllValid(old(ValuesOf(fields)))
      ensures fields == Checked(old(fields))
      ensures SelectionFlagsCurrent(fields)
    {
      var nameOk := ValidateField(Name, NameRule);
      var emailOk := ValidateField(Email, EmailRule);
      var serviceOk := SelectionValid(fields.service.value);
      var budgetOk := SelectionValid(fields.budget.value);
      var messageOk := ValidateField(Message, MessageRule);
      if !serviceOk {
        ShowError(Service, ServiceMissing, false);
      }
      if !budgetOk {
        ShowError(Budget, BudgetMissing, false);
      }
      ok := nameOk && emailOk && serviceOk && budgetOk && messageOk;
    }

    /** `handleFormSubmit`: the five checks run (see `Checked`), and the form
        is submitted exactly when all of them pass, with the data the fields
        held; otherwise nothing but the fields' error display changes. */
    method HandleSubmit(outcome: Outcome) returns (submitted: bool)
      requires SelectionFlagsCurrent(fields)
      modifies this`labelShown, this`loadingShown, this`buttonDisabled, this`requests
      modifies this`formShown, this`successShown, this`fields, this`notices
      ensures submitted == AllValid(old(ValuesOf(fields)))
      ensures !submitted ==>
                && fields == Checked(old(fields)) && requests == old(requests)
                && formShown == old(formShown) && successShown == old(successShown)
                && buttonDisabled == old(buttonDisabled) && labelShown == old(labelShown)
                && loadingShown == old(loadingShown) && notices == old(notices)
      ensures submitted ==>
                && requests == old(requests) + [PayloadOf(old(ValuesOf(fields)))]
                && !buttonDisabled && labelShown && !loadingShown
      ensures submitted ==> RequestValid(requests[|requests| - 1])
      ensures submitted && outcome == Delivered ==>
                !formShown && successShown && notices == old(notices) && fields == Blank(Checked(old(fields)))
      ensures submitted && outcome == Failed ==>
                && formShown == old(formShown) && successShown == old(successShown)
                && notices == old(notices) + [SubmitFailure] && fields == Checked(old(fields))
      ensures submitted && outcome == Delivered ==> NoErrorShown(fields)
      ensures SelectionFlagsCurrent(fields)
    {
      CheckedKeepsValues(fields);
      ChecksMatchRequest(ValuesOf(fields));
      if AllValid(ValuesOf(fields)) {
        DeliveredThenBlank(fields);
      }
      submitted := CheckAll();
      if submitted {
        SubmitForm(outcome);
      }
    }

    /** The submit listener of js/script.js: shows the loading state, posts
        the raw field values without any check, and when the reply reports
        success hides the form, shows the success panel and resets the
        fields; on any other outcome it shows an alert and leaves the form as
        it is. On every path the button ends enabled with its label back. */
    method PostToService(reply: Reply)
      requires SelectionFlagsCurrent(fields)
      modifies this`labelShown, this`loadingShown, this`buttonDisabled, this`posts
      modifies this`formShown, this`successShown, this`fields, this`alerts
      ensures posts == old(posts) + [old(ValuesOf(fields))]
      ensures !buttonDisabled && labelShown && !loadingShown
      ensures reply == Answered(true) ==>
                !formShown && successShown && alerts == old(alerts) && fields == Blank(old(fields))
      ensures reply != Answered(true) ==>
                formShown == old(formShown) && successShown == old(successShown)
                && fields == old(fields) && alerts == old(alerts) + [ServiceAlert]
      ensures SelectionFlagsCurrent(fields)
    {
      labelShown, loadingShown, buttonDisabled := false, true, true;
      var body := ValuesOf(fields);
      posts := posts + [body];
      if reply.Answered? && reply.success {
        formShown, successShown := false, true;
        ResetValues();
      } else {
        alerts := alerts + [ServiceAlert];
      }
      labelShown, loadingShown, buttonDisabled := true, false, false;
    }

    /** The "send another" listener of js/script.js: the success panel is
        hidden and the form shown again, without a reset. */
    method ShowFormAgain()
      modifies this`formShown, this`successShown
      ensures formShown && !successShown
    {
      successShown := false;
      formShown := true;
    }

    /** The "send another" button: the success panel is hidden, the form shown
        again and its fields reset to blank. */
    method SendAnother()
      requires SelectionFlagsCurrent(fields)
      modifies this`fields, this`formShown, this`successShown
      ensures formShown && !successShown
      ensures fields == Blank(old(fields))
      ensures SelectionFlagsCurrent(fields)
      ensures NoErrorShown(old(fields)) ==> NoErrorShown(fields)
    {
      successShown := false;
      formShown := true;
      ResetValues();
    }
  }
}
