/**
 * The shortening form page: a list of one to five forms, each with three
 * text fields, a per-field error record and a locally generated
 * `https://short.ly/` link. The page does not talk to the store.
 */
module Shortener {
  import opened Wrappers
  import opened Text
  import opened Shortcode

  const MaxForms := 5
  const MaxValidityDays := 365
  const ShortBase := "https://short.ly/"
  const RandomLength := 6

  /** The URL regular expression, left uninterpreted. */
  type UrlPattern = string -> bool

  /** The three fields a user types into. */
  datatype Field = OriginalUrl | CustomShortcode | ValidityPeriod

  datatype FieldError = Required | Malformed

  /** The `errors` object: at most one error per field. */
  datatype FormErrors = FormErrors(originalUrl: Option<FieldError>,
                                   customShortcode: Option<FieldError>,
                                   validityPeriod: Option<FieldError>)

  const NoErrors := FormErrors(None, None, None)

  /** `Object.keys(errors).length === 0`. */
  predicate IsEmpty(e: FormErrors) {
    e == NoErrors
  }

  function ErrorMessage(field: Field, e: FieldError): string {
    match (field, e)
    case (OriginalUrl, Required) => "Original URL is required"
    case (OriginalUrl, Malformed) => "Please enter a valid URL"
    case (CustomShortcode, _) => "Shortcode must be 3-20 characters, alphanumeric, hyphens, or underscores only"
    case (ValidityPeriod, Required) => "Validity period is required"
    case (ValidityPeriod, Malformed) => "Please enter a valid number of days (1-365)"
  }

  datatype Form = Form(id: int, originalUrl: string, customShortcode: string, validityPeriod: string,
                       shortenedUrl: string, errors: FormErrors, isSubmitted: bool)

  /** A form as the page creates it: every text field empty, no errors, not submitted. */
  function EmptyForm(id: int): Form {
    Form(id, "", "", "", "", NoErrors, false)
  }

  function Get(form: Form, field: Field): string {
    match field
    case OriginalUrl => form.originalUrl
    case CustomShortcode => form.customShortcode
    case ValidityPeriod => form.validityPeriod
  }

  function Set(form: Form, field: Field, value: string): Form {
    match field
    case OriginalUrl => form.(originalUrl := value)
    case CustomShortcode => form.(customShortcode := value)
    case ValidityPeriod => form.(validityPeriod := value)
  }

  // ---------------------------------------------------------------- validators

  /** `validateValidityPeriod(period)`: `parseInt` yields a number in 1..365. */
  predicate ValidateValidityPeriod(period: string) {
    match ParseInt(period)
    case None => false
    case Some(n) => 0 < n <= MaxValidityDays
  }

  /** A blank string holds no digit, so `parseInt` yields `NaN`. */
  lemma BlankHasNoNumber(s: string)
    requires IsBlank(s)
    ensures ParseInt(s) == None
  {
    var t := TrimStart(s);
    assert TrimEnd(t) == [];
    assert t == [];
    assert DigitRun(t, 10) == 0;
  }

  /** On a plain decimal numeral the validator accepts exactly the days 1 to 365. */
  lemma ValidityOfDecimal(n: nat)
    ensures ValidateValidityPeriod(NatToDecimal(n)) <==> 1 <= n <= MaxValidityDays
  {
    ParseIntOfDecimal(n);
  }

  /** The errors `validateForm` collects for a form with these three fields. */
  function FieldErrors(originalUrl: string, customShortcode: string, validityPeriod: string, isUrl: UrlPattern): FormErrors {
    FormErrors(
      if IsBlank(originalUrl) then Some(Required)
      else if !isUrl(originalUrl) then Some(Malformed)
      else None,
      if customShortcode != "" && !ValidateShortcode(customShortcode) then Some(Malformed)
      else None,
      if IsBlank(validityPeriod) then Some(Required)
      else if !ValidateValidityPeriod(validityPeriod) then Some(Malformed)
      else None)
  }

  /** The errors depend on the three text fields only. */
  function ErrorsOf(form: Form, isUrl: UrlPattern): FormErrors {
    FieldErrors(form.originalUrl, form.customShortcode, form.validityPeriod, isUrl)
  }

  /** `validateForm(form)`: fills the error record field by field. */
  method ValidateForm(form: Form, isUrl: UrlPattern) returns (errors: FormErrors)
    ensures errors == ErrorsOf(form, isUrl)
  {
    errors := NoErrors;
    if IsBlank(form.originalUrl) {
      errors := errors.(originalUrl := Some(Required));
    } else if !isUrl(form.originalUrl) {
      errors := errors.(originalUrl := Some(Malformed));
    }
    if form.customShortcode != "" && !ValidateShortcode(form.customShortcode) {
      errors := errors.(customShortcode := Some(Malformed));
    }
    if IsBlank(form.validityPeriod) {
      errors := errors.(validityPeriod := Some(Required));
    } else if !ValidateValidityPeriod(form.validityPeriod) {
      errors := errors.(validityPeriod := Some(Malformed));
    }
  }

  /** What each field's error means, and when a form is accepted as a whole. */
  lemma ErrorsOfMeaning(form: Form, isUrl: UrlPattern)
    ensures var e := ErrorsOf(form, isUrl);
            && (e.originalUrl == Some(Required) <==> IsBlank(form.originalUrl))
            && (e.originalUrl == None <==> !IsBlank(form.originalUrl) && isUrl(form.originalUrl))
            && (e.customShortcode == None <==> form.customShortcode == "" || WellFormed(form.customShortcode))
            && e.customShortcode != Some(Required)
            && (e.validityPeriod == Some(Required) <==> IsBlank(form.validityPeriod))
            && (e.validityPeriod == None <==> ValidateValidityPeriod(form.validityPeriod))
    ensures IsEmpty(ErrorsOf(form, isUrl)) <==>
              && !IsBlank(form.originalUrl) && isUrl(form.originalUrl)
              && (form.customShortcode == "" || WellFormed(form.customShortcode))
              && ValidateValidityPeriod(form.validityPeriod)
  {
    ValidateShortcodeIff(form.customShortcode);
    if IsBlank(form.validityPeriod) {
      BlankHasNoNumber(form.validityPeriod);
    }
  }

  // ---------------------------------------------------------------- short links

  /** What `generateShortUrl` may return for a custom code (empty when none is given). */
  predicate ShortUrlFor(url: string, customShortcode: string) {
    if customShortcode != "" then url == ShortBase + customShortcode
    else |url| == |ShortBase| + RandomLength && url[..|ShortBase|] == ShortBase
         && OverAlphabet(url[|ShortBase|..])
  }

  /** `generateShortUrl(originalUrl, customShortcode)`: the base and the code, or six random characters. */
  method GenerateShortUrl(originalUrl: string, customShortcode: string) returns (url: string)
    ensures ShortUrlFor(url, customShortcode)
  {
    if customShortcode != "" {
      return ShortBase + customShortcode;
    }
    var result := "";
    for i := 0 to RandomLength
      invariant |result| == i && OverAlphabet(result)
    {
      var d :| 0 <= d < |Alphabet()|;
      result := result + [Alphabet()[d]];
    }
    url := ShortBase + result;
  }

  /** A link made for an accepted form ends in a code that the store's pattern accepts too. */
  lemma AcceptedLinkHasValidCode(form: Form, isUrl: UrlPattern, url: string)
    requires IsEmpty(ErrorsOf(form, isUrl)) && ShortUrlFor(url, form.customShortcode)
    ensures |url| > |ShortBase| && url[..|ShortBase|] == ShortBase
    ensures ValidateShortcode(url[|ShortBase|..])
  {
    if form.customShortcode == "" {
      GeneratedCodeIsValid(url[|ShortBase|..]);
    } else {
      assert url[|ShortBase|..] == form.customShortcode;
    }
  }

  // ---------------------------------------------------------------- the form list

  function Ids(forms: seq<Form>): seq<int> {
    seq(|forms|, i requires 0 <= i < |forms| => forms[i].id)
  }

  predicate Distinct(xs: seq<int>) {
    forall i, j :: 0 <= i < j < |xs| ==> xs[i] != xs[j]
  }

  /** The page's invariant: one to five forms with distinct ids. */
  predicate ListInvariant(forms: seq<Form>) {
    1 <= |forms| <= MaxForms && Distinct(Ids(forms))
  }

  /** The page's initial state. */
  function InitialForms(): (r: seq<Form>)
    ensures ListInvariant(r)
  {
    [EmptyForm(1)]
  }

  /** Applies `edit` to every form with the given id (the `prev.map` of the transitions). */
  function Retarget(forms: seq<Form>, id: int, edit: Form -> Form): seq<Form> {
    seq(|forms|, i requires 0 <= i < |forms| => if forms[i].id == id then edit(forms[i]) else forms[i])
  }

  /** A submitted form is re-validated on every edit. */
  function Revalidated(form: Form, isUrl: UrlPattern): Form {
    if form.isSubmitted then form.(errors := ErrorsOf(form, isUrl)) else form
  }

  /** `updateForm(id, field, value)`. */
  function UpdateForm(forms: seq<Form>, id: int, field: Field, value: string, isUrl: UrlPattern): seq<Form> {
    Retarget(forms, id, (f: Form) => Revalidated(Set(f, field, value), isUrl))
  }

  /** The edit of one targeted form: the field is set, the rest is kept, a submitted form is re-validated. */
  lemma EditSpec(f: Form, field: Field, value: string, isUrl: UrlPattern)
    ensures var g := Revalidated(Set(f, field, value), isUrl);
            && g.id == f.id
            && Get(g, field) == value
            && (forall other :: other != field ==> Get(g, other) == Get(f, other))
            && g.shortenedUrl == f.shortenedUrl
            && g.isSubmitted == f.isSubmitted
            && g.errors == if f.isSubmitted then ErrorsOf(g, isUrl) else f.errors
  {
  }

  lemma UpdateFormSpec(forms: seq<Form>, id: int, field: Field, value: string, isUrl: UrlPattern)
    ensures var r := UpdateForm(forms, id, field, value, isUrl);
            && Ids(r) == Ids(forms)
            && (forall i :: 0 <= i < |forms| && forms[i].id != id ==> r[i] == forms[i])
            && forall i :: 0 <= i < |forms| && forms[i].id == id ==>
                 r[i] == Revalidated(Set(forms[i], field, value), isUrl)
  {
    var r := UpdateForm(forms, id, field, value, isUrl);
    assert |r| == |forms|;
    forall i | 0 <= i < |forms| ensures r[i].id == forms[i].id {
      if forms[i].id == id {
        EditSpec(forms[i], field, value, isUrl);
      }
    }
  }

  /** The largest id in a non-empty list (`Math.max(...ids)`). */
  function MaxId(ids: seq<int>): (m: int)
    requires |ids| > 0
    ensures m in ids
    ensures forall i :: 0 <= i < |ids| ==> ids[i] <= m
  {
    if |ids| == 1 then ids[0]
    else
      var rest := MaxId(ids[1..]);
      assert forall i :: 1 <= i < |ids| ==> ids[i] == ids[1..][i - 1];
      if ids[0] >= rest then ids[0] else rest
  }

  /** `addForm()`: appends an empty form with a fresh id while there are fewer than five. */
  function AddForm(forms: seq<Form>): seq<Form>
    requires |forms| > 0
  {
    if |forms| < MaxForms then forms + [EmptyForm(MaxId(Ids(forms)) + 1)] else forms
  }

  lemma AddFormSpec(forms: seq<Form>)
    requires |forms| > 0
    ensures |forms| >= MaxForms ==> AddForm(forms) == forms
    ensures |forms| < MaxForms ==>
              && |AddForm(forms)| == |forms| + 1
              && AddForm(forms)[..|forms|] == forms
              && AddForm(forms)[|forms|] == EmptyForm(AddForm(forms)[|forms|].id)
              && forall i :: 0 <= i < |forms| ==> forms[i].id < AddForm(forms)[|forms|].id
  {
    var ids := Ids(forms);
    assert forall i :: 0 <= i < |forms| ==> forms[i].id == ids[i];
  }

  lemma {:induction false} AddPreserves(forms: seq<Form>)
    requires ListInvariant(forms)
    ensures ListInvariant(AddForm(forms))
  {
    AddFormSpec(forms);
    var r := AddForm(forms);
    if |forms| < MaxForms {
      var ids, rids := Ids(forms), Ids(r);
      forall i, j | 0 <= i < j < |rids| ensures rids[i] != rids[j] {
        assert rids[i] == r[i].id;
        if j < |forms| {
          assert r[i] == forms[i] && r[j] == forms[j];
          assert ids[i] == forms[i].id && ids[j] == forms[j].id;
        } else {
          assert r[i] == forms[i];
        }
      }
    }
  }

  /** `prev.filter((form) => form.id !== id)`, in order. */
  function Without(forms: seq<Form>, id: int): seq<Form> {
    if forms == [] then []
    else (if forms[0].id == id then [] else [forms[0]]) + Without(forms[1..], id)
  }

  lemma {:induction false} WithoutMembers(forms: seq<Form>, id: int)
    ensures forall f :: f in Without(forms, id) <==> f in forms && f.id != id
  {
    if forms != [] {
      WithoutMembers(forms[1..], id);
      assert forms == [forms[0]] + forms[1..];
    }
  }

  lemma IdsCons(f: Form, rest: seq<Form>)
    ensures Ids([f] + rest) == [f.id] + Ids(rest)
  {
    assert |Ids([f] + rest)| == |[f.id] + Ids(rest)|;
  }

  lemma DistinctCons(x: int, xs: seq<int>)
    ensures Distinct([x] + xs) <==> x !in xs && Distinct(xs)
  {
    var ys := [x] + xs;
    if Distinct(ys) {
      forall i, j | 0 <= i < j < |xs| ensures xs[i] != xs[j] {
        assert xs[i] == ys[i + 1] && xs[j] == ys[j + 1];
      }
      forall i | 0 <= i < |xs| ensures xs[i] != x {
        assert xs[i] == ys[i + 1] && x == ys[0];
      }
    }
    if x !in xs && Distinct(xs) {
      forall i, j | 0 <= i < j < |ys| ensures ys[i] != ys[j] {
        assert ys[j] == xs[j - 1];
        if i > 0 {
          assert ys[i] == xs[i - 1];
        }
      }
    }
  }

  lemma {:induction false} WithoutIds(forms: seq<Form>, id: int)
    ensures forall x :: x in Ids(Without(forms, id)) ==> x in Ids(forms) && x != id
  {
    if forms != [] {
      WithoutIds(forms[1..], id);
      assert forms == [forms[0]] + forms[1..];
      IdsCons(forms[0], forms[1..]);
      if forms[0].id != id {
        IdsCons(forms[0], Without(forms[1..], id));
      } else {
        assert Without(forms, id) == Without(forms[1..], id);
      }
    }
  }

  lemma {:induction false} WithoutLength(forms: seq<Form>, id: int)
    requires Distinct(Ids(forms))
    ensures |Without(forms, id)| == if id in Ids(forms) then |forms| - 1 else |forms|
    ensures Distinct(Ids(Without(forms, id)))
  {
    if forms != [] {
      var tail := forms[1..];
      assert forms == [forms[0]] + tail;
      IdsCons(forms[0], tail);
      DistinctCons(forms[0].id, Ids(tail));
      WithoutLength(tail, id);
      var w := Without(tail, id);
      if forms[0].id == id {
        assert Without(forms, id) == w;
      } else {
        assert Without(forms, id) == [forms[0]] + w;
        IdsCons(forms[0], w);
        WithoutIds(tail, id);
        DistinctCons(forms[0].id, Ids(w));
      }
    }
  }

  /** `removeForm(id)`: removes the forms with that id while more than one form is left. */
  function RemoveForm(forms: seq<Form>, id: int): seq<Form> {
    if |forms| > 1 then Without(forms, id) else forms
  }

  /** Without a form of that id the filter keeps the list as it is. */
  lemma {:induction false} WithoutAbsent(forms: seq<Form>, id: int)
    requires forall j :: 0 <= j < |forms| ==> forms[j].id != id
    ensures Without(forms, id) == forms
  {
    if forms != [] {
      WithoutAbsent(forms[1..], id);
      assert forms == [forms[0]] + forms[1..];
    }
  }

  /** When only the form at `k` has the id, the filter cuts exactly that form out, keeping the order of the rest. */
  lemma {:induction false} WithoutAt(forms: seq<Form>, id: int, k: nat)
    requires k < |forms| && forms[k].id == id
    requires forall j :: 0 <= j < |forms| && j != k ==> forms[j].id != id
    ensures Without(forms, id) == forms[..k] + forms[k + 1..]
  {
    if k == 0 {
      WithoutAbsent(forms[1..], id);
    } else {
      WithoutAt(forms[1..], id, k - 1);
      assert forms[1..][..k - 1] + forms[1..][k..] == forms[1..k] + forms[k + 1..];
      assert forms[..k] == [forms[0]] + forms[1..k];
    }
  }

  lemma RemoveFormSpec(forms: seq<Form>, id: int)
    requires ListInvariant(forms)
    ensures |forms| == 1 ==> RemoveForm(forms, id) == forms
    ensures |forms| > 1 ==>
              (forall f :: f in RemoveForm(forms, id) <==> f in forms && f.id != id)
              && |RemoveForm(forms, id)| == if id in Ids(forms) then |forms| - 1 else |forms|
    ensures id !in Ids(forms) ==> RemoveForm(forms, id) == forms
    ensures |forms| > 1 && id in Ids(forms) ==>
              exists k :: 0 <= k < |forms| && forms[k].id == id && RemoveForm(forms, id) == forms[..k] + forms[k + 1..]
    ensures ListInvariant(RemoveForm(forms, id))
  {
    WithoutMembers(forms, id);
    WithoutLength(forms, id);
    if id !in Ids(forms) {
      assert forall j :: 0 <= j < |forms| ==> Ids(forms)[j] == forms[j].id;
      WithoutAbsent(forms, id);
    } else if |forms| > 1 {
      var k :| 0 <= k < |Ids(forms)| && Ids(forms)[k] == id;
      assert forall j :: 0 <= j < |forms| && j != k ==> forms[j].id == Ids(forms)[j] != Ids(forms)[k];
      WithoutAt(forms, id, k);
    }
  }

  /** `resetForm(id)`: the targeted form becomes an empty form with the same id. */
  function ResetForm(forms: seq<Form>, id: int): seq<Form> {
    Retarget(forms, id, (f: Form) => EmptyForm(f.id))
  }

  lemma ResetFormSpec(forms: seq<Form>, id: int)
    ensures var r := ResetForm(forms, id);
            && Ids(r) == Ids(forms)
            && forall i :: 0 <= i < |forms| ==>
                 r[i] == if forms[i].id == id then EmptyForm(id) else forms[i]
  {
    assert |ResetForm(forms, id)| == |forms|;
  }

  /** Transitions that keep the ids, in order, keep the invariant. */
  lemma SameIdsPreserve(forms: seq<Form>, r: seq<Form>)
    requires ListInvariant(forms) && Ids(r) == Ids(forms)
    ensures ListInvariant(r)
  {
    assert |Ids(r)| == |r|;
  }

  lemma UpdateResetPreserve(forms: seq<Form>, id: int, field: Field, value: string, isUrl: UrlPattern)
    requires ListInvariant(forms)
    ensures ListInvariant(UpdateForm(forms, id, field, value, isUrl))
    ensures ListInvariant(ResetForm(forms, id))
  {
    UpdateFormSpec(forms, id, field, value, isUrl);
    ResetFormSpec(forms, id);
    SameIdsPreserve(forms, UpdateForm(forms, id, field, value, isUrl));
    SameIdsPreserve(forms, ResetForm(forms, id));
  }

  /** `urlForms.find((f) => f.id === id)`. */
  function Find(forms: seq<Form>, id: int): (r: Option<Form>)
    ensures r.Some? ==> exists i :: 0 <= i < |forms| && forms[i] == r.value && r.value.id == id
                                    && forall j :: 0 <= j < i ==> forms[j].id != id
    ensures r.None? ==> forall i :: 0 <= i < |forms| ==> forms[i].id != id
  {
    if forms == [] then None
    else if forms[0].id == id then Some(forms[0])
    else Find(forms[1..], id)
  }

  /** How `shortenUrl` leaves a targeted form, given the errors of the form it found. */
  predicate Shortened(before: Form, after: Form, errors: FormErrors) {
    && after.isSubmitted
    && after.errors == errors
    && after.id == before.id
    && after.originalUrl == before.originalUrl
    && after.customShortcode == before.customShortcode
    && after.validityPeriod == before.validityPeriod
    && (IsEmpty(errors) ==> ShortUrlFor(after.shortenedUrl, before.customShortcode))
    && (!IsEmpty(errors) ==> after.shortenedUrl == before.shortenedUrl)
  }

  /** The `prev.map` of `shortenUrl`: every form with the id is submitted with `errors`, and linked when they are empty. */
  method SubmitAll(forms: seq<Form>, id: int, errors: FormErrors) returns (r: seq<Form>)
    ensures |r| == |forms| && Ids(r) == Ids(forms)
    ensures forall i :: 0 <= i < |forms| && forms[i].id != id ==> r[i] == forms[i]
    ensures forall i :: 0 <= i < |forms| && forms[i].id == id ==> Shortened(forms[i], r[i], errors)
  {
    r := [];
    for i := 0 to |forms|
      invariant |r| == i
      invariant forall j :: 0 <= j < i ==> r[j].id == forms[j].id
      invariant forall j :: 0 <= j < i && forms[j].id != id ==> r[j] == forms[j]
      invariant forall j :: 0 <= j < i && forms[j].id == id ==> Shortened(forms[j], r[j], errors)
    {
      var f := forms[i];
      var g := f;
      if f.id == id {
        g := f.(errors := errors, isSubmitted := true);
        if IsEmpty(errors) {
          var url := GenerateShortUrl(f.originalUrl, f.customShortcode);
          g := g.(shortenedUrl := url);
        }
      }
      r := r + [g];
    }
    assert |Ids(r)| == |Ids(forms)|;
  }

  /**
   * `shortenUrl(id)`: validates the first form with the id and submits it.
   * Without a form of that id, `validateForm(undefined)` throws before the
   * state is set, so the list stays as it was.
   */
  method ShortenUrl(forms: seq<Form>, id: int, isUrl: UrlPattern) returns (r: seq<Form>)
    ensures ListInvariant(forms) ==> ListInvariant(r)
    ensures Find(forms, id).None? ==> r == forms
    ensures |r| == |forms| && Ids(r) == Ids(forms)
    ensures forall i :: 0 <= i < |forms| && forms[i].id != id ==> r[i] == forms[i]
    ensures Find(forms, id).Some? ==>
              forall i :: 0 <= i < |forms| && forms[i].id == id ==>
                Shortened(forms[i], r[i], ErrorsOf(Find(forms, id).value, isUrl))
  {
    var target := Find(forms, id);
    if target.None? {
      return forms;
    }
    var errors := ValidateForm(target.value, isUrl);
    r := SubmitAll(forms, id, errors);
    if ListInvariant(forms) {
      SameIdsPreserve(forms, r);
    }
  }
}
