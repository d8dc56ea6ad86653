/**
 * The message composer's form check and the request it builds from a
 * form that passes.
 */
module MessageComposer {
  import opened Wrappers
  import opened Seqs
  import opened Text
  import opened MessageTypes

  /** The form as edited; an empty expiry field is `None`, a filled one the instant it denotes. */
  datatype FormData = FormData(
    title: string,
    content: string,
    category: Category,
    priority: Priority,
    isGlobal: bool,
    recipients: seq<string>,
    expiresAt: Option<nat>)

  /** The initial form: an admin message of normal priority to one empty recipient slot. */
  const InitialForm := FormData("", "", AdminCategory, Normal, false, [""], None)

  datatype FormField = TitleField | ContentField | RecipientsField | ExpiresAtField

  datatype FormError = MissingTitle | MissingContent | NoRecipients | ExpiryNotInFuture

  /** `formData.recipients.filter(r => r.trim())`: the entries that are not blank, untrimmed. */
  function FilledRecipients(rs: seq<string>): seq<string> {
    Filter(rs, (r: string) => Trim(r) != [])
  }

  /** The error map `validateForm` builds, one entry per failed rule. */
  function FormErrors(form: FormData, now: nat): map<FormField, FormError> {
    ErrorMap(Trim(form.title) == [], Trim(form.content) == [],
             !form.isGlobal && |FilledRecipients(form.recipients)| == 0,
             form.expiresAt.Some? && form.expiresAt.value <= now)
  }

  /** One rule: record `v` under `f` when the rule fails. */
  function AddIf(e: map<FormField, FormError>, failed: bool, f: FormField, v: FormError): map<FormField, FormError> {
    if failed then e[f := v] else e
  }

  /** The map built from the four rule outcomes, in the order the rules are checked. */
  function ErrorMap(noTitle: bool, noContent: bool, noRecipients: bool, pastExpiry: bool): (e: map<FormField, FormError>)
    ensures TitleField in e <==> noTitle
    ensures ContentField in e <==> noContent
    ensures RecipientsField in e <==> noRecipients
    ensures ExpiresAtField in e <==> pastExpiry
    ensures forall f :: f in e ==> f == TitleField || f == ContentField || f == RecipientsField || f == ExpiresAtField
  {
    AddIf(AddIf(AddIf(AddIf(map[], noTitle, TitleField, MissingTitle),
      noContent, ContentField, MissingContent), noRecipients, RecipientsField, NoRecipients),
      pastExpiry, ExpiresAtField, ExpiryNotInFuture)
  }

  /** `validateForm()`: whether the error map came out empty. */
  predicate FormIsValid(form: FormData, now: nat) {
    |FormErrors(form, now)| == 0
  }

  /**
   * Each rule in terms of the form: the title and the content must not be
   * blank, a non-global message needs a non-blank recipient entry, and an
   * expiry, when given, must lie after now.
   */
  lemma FormErrorsExactly(form: FormData, now: nat)
    ensures TitleField in FormErrors(form, now) <==> IsBlank(form.title)
    ensures ContentField in FormErrors(form, now) <==> IsBlank(form.content)
    ensures RecipientsField in FormErrors(form, now) <==>
              !form.isGlobal && forall i :: 0 <= i < |form.recipients| ==> IsBlank(form.recipients[i])
    ensures ExpiresAtField in FormErrors(form, now) <==> form.expiresAt.Some? && form.expiresAt.value <= now
  {
    TrimEmptyIffBlank(form.title);
    TrimEmptyIffBlank(form.content);
    NoFilledRecipientsIffAllBlank(form.recipients);
  }

  lemma {:induction false} NoFilledRecipientsIffAllBlank(rs: seq<string>)
    ensures |FilledRecipients(rs)| == 0 <==> forall i :: 0 <= i < |rs| ==> IsBlank(rs[i])
  {
    if rs != [] {
      NoFilledRecipientsIffAllBlank(rs[1..]);
      TrimEmptyIffBlank(rs[0]);
      assert forall i :: 1 <= i < |rs| ==> rs[i] == rs[1..][i - 1];
    }
  }

  /** The form is valid exactly when every rule holds. */
  lemma ValidIffNoRuleFails(form: FormData, now: nat)
    ensures FormIsValid(form, now) <==>
              && !IsBlank(form.title) && !IsBlank(form.content)
              && (form.isGlobal || exists i :: 0 <= i < |form.recipients| && !IsBlank(form.recipients[i]))
              && (form.expiresAt.Some? ==> form.expiresAt.value > now)
  {
    FormErrorsExactly(form, now);
    var e := FormErrors(form, now);
    if |e| == 0 {
      assert TitleField !in e && ContentField !in e && RecipientsField !in e && ExpiresAtField !in e;
    } else {
      var f :| f in e;
    }
  }

  /** The untouched form fails on the title, the content and the recipients, and not on the expiry. */
  lemma InitialFormIsRejected(now: nat)
    ensures FormErrors(InitialForm, now).Keys == {TitleField, ContentField, RecipientsField}
  {
    FormErrorsExactly(InitialForm, now);
    assert IsBlank(InitialForm.recipients[0]);
  }

  /**
   * `validateForm()` as written: each rule is checked in turn and a failed
   * one records its error; the form passes when the map stays empty.
   */
  method ValidateForm(form: FormData, now: nat) returns (valid: bool, errors: map<FormField, FormError>)
    ensures errors == FormErrors(form, now)
    ensures valid <==> FormIsValid(form, now)
  {
    var noTitle := Trim(form.title) == [];
    var noContent := Trim(form.content) == [];
    var noRecipients := false;
    if !form.isGlobal {
      var validRecipients := FilledRecipients(form.recipients);
      noRecipients := |validRecipients| == 0;
    }
    var pastExpiry := form.expiresAt.Some? && form.expiresAt.value <= now;
    errors := RecordErrors(noTitle, noContent, noRecipients, pastExpiry);
    assert errors == FormErrors(form, now) by {
      assert noRecipients == (!form.isGlobal && |FilledRecipients(form.recipients)| == 0);
    }
    valid := |errors| == 0;
  }

  /** The successive assignments into the error map, one per failed rule. */
  method RecordErrors(noTitle: bool, noContent: bool, noRecipients: bool, pastExpiry: bool)
    returns (errors: map<FormField, FormError>)
    ensures errors == ErrorMap(noTitle, noContent, noRecipients, pastExpiry)
  {
    errors := map[];
    if noTitle {
      errors := errors[TitleField := MissingTitle];
    }
    if noContent {
      errors := errors[ContentField := MissingContent];
    }
    if noRecipients {
      errors := errors[RecipientsField := NoRecipients];
    }
    if pastExpiry {
      errors := errors[ExpiresAtField := ExpiryNotInFuture];
    }
  }

  /** The request `handleSubmit` sends for a valid form. */
  function BuildRequest(form: FormData): CreateMessageRequest {
    CreateMessageRequest(Trim(form.title), Trim(form.content), form.category, form.priority,
                         if form.isGlobal then [] else FilledRecipients(form.recipients),
                         Some(form.isGlobal), form.expiresAt, None)
  }

  /**
   * A request built from a valid form has a non-empty title and content,
   * is global exactly when the form was, and otherwise names only
   * non-blank entries of the form, at least one.
   */
  lemma ValidFormBuildsSendableRequest(form: FormData, now: nat)
    requires FormIsValid(form, now)
    ensures var r := BuildRequest(form);
            && r.title != [] && r.content != []
            && (IsGlobalRequest(r) <==> form.isGlobal)
            && (form.isGlobal ==> r.recipients == [])
            && (!form.isGlobal ==> |r.recipients| > 0)
            && (!form.isGlobal ==> forall x :: x in r.recipients <==> x in form.recipients && !IsBlank(x))
            && (r.expiresAt.Some? ==> r.expiresAt.value > now)
  {
    FormErrorsExactly(form, now);
    ValidIffNoRuleFails(form, now);
    TrimEmptyIffBlank(form.title);
    TrimEmptyIffBlank(form.content);
    FilterMembers(form.recipients, (r: string) => Trim(r) != []);
    forall x ensures Trim(x) != [] <==> !IsBlank(x) {
      TrimEmptyIffBlank(x);
    }
  }
}
