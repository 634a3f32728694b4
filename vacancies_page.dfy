/**
 * The vacancies page: the salary column's label, and the "create vacancy"
 * dialog with its form validation and payload normalisation.
 */
module VacanciesPage {
  import opened Wrappers
  import opened Text
  import opened VacancyTypes
  import opened BaseApi
  import opened VacanciesApi

  /** "—", "from – to", "from X" or "to Y", by which bounds are present. */
  function SalaryLabel(from: Option<int>, to: Option<int>): (r: string)
    ensures r == "\U{2014}" <==> from.None? && to.None?
    ensures from.Some? && to.Some? ==> r == IntToString(from.value) + " \U{2013} " + IntToString(to.value)
    ensures from.Some? && to.None? ==> r == "from " + IntToString(from.value)
    ensures from.None? && to.Some? ==> r == "to " + IntToString(to.value)
  {
    if from.None? && to.None? then "\U{2014}"
    else if from.Some? && to.Some? then IntToString(from.value) + " \U{2013} " + IntToString(to.value)
    else if from.Some? then "from " + IntToString(from.value)
    else "to " + IntToString(to.value)
  }

  /** The label tells the bounds apart: two vacancies with the same label have the same salary bounds. */
  lemma SalaryLabelShowsBounds(from: Option<int>, to: Option<int>, from': Option<int>, to': Option<int>)
    requires SalaryLabel(from, to) == SalaryLabel(from', to')
    ensures from == from' && to == to'
  {
    SalaryLabelShowsCase(from, to, from', to');
    var r := SalaryLabel(from, to);
    if from.Some? && to.Some? {
      var a, b := IntToString(from.value), IntToString(to.value);
      var a', b' := IntToString(from'.value), IntToString(to'.value);
      assert a + " \U{2013} " + b == a' + " \U{2013} " + b';
      SplitAtSeparator(a, b, a', b', " \U{2013} ");
      IntToStringInjective(from.value, from'.value);
      IntToStringInjective(to.value, to'.value);
    } else if from.Some? {
      assert r[5..] == IntToString(from.value) == IntToString(from'.value);
      IntToStringInjective(from.value, from'.value);
    } else if to.Some? {
      assert r[3..] == IntToString(to.value) == IntToString(to'.value);
      IntToStringInjective(to.value, to'.value);
    }
  }

  /** Two labels that agree come from the same case: the same bounds are present. */
  lemma SalaryLabelShowsCase(from: Option<int>, to: Option<int>, from': Option<int>, to': Option<int>)
    requires SalaryLabel(from, to) == SalaryLabel(from', to')
    ensures from.Some? == from'.Some? && to.Some? == to'.Some?
  {
    var r, r' := SalaryLabel(from, to), SalaryLabel(from', to');
    assert r[0] == r'[0];
    if from.Some? && to.Some? {
      assert r[0] == IntToString(from.value)[0];
    }
    if from'.Some? && to'.Some? {
      assert r'[0] == IntToString(from'.value)[0];
    }
  }

  /** A separator whose first character occurs in neither left part splits a concatenation uniquely. */
  lemma SplitAtSeparator(a: string, b: string, a': string, b': string, sep: string)
    requires a + sep + b == a' + sep + b'
    requires sep != [] && sep[0] !in a && sep[0] !in a'
    ensures a == a' && b == b'
  {
    var r := a + sep + b;
    SeparatorFound(a, sep, b);
    SeparatorFound(a', sep, b');
    assert a == r[..|a|] && a' == r[..|a'|];
    assert b == r[|a| + |sep|..] && b' == r[|a'| + |sep|..];
  }

  /** The first occurrence of the separator's first character is where the separator begins. */
  lemma SeparatorFound(a: string, sep: string, b: string)
    requires sep != [] && sep[0] !in a
    ensures IndexOf(a + sep + b, sep[0]) == Some(|a|)
  {
    var s := a + sep + b;
    assert s[|a|] == sep[0];
    assert s[..|a|] == a;
    assert forall j :: 0 <= j < |a| ==> s[j] == a[j];
  }

  /** The values of the form's fields while it is being filled in; unset fields are None. */
  datatype CreateFormFields = CreateFormFields(
    title: Option<string>,
    jobType: Option<string>,
    location: Option<string>,
    description: Option<string>,
    salaryFrom: Option<int>,
    salaryTo: Option<int>)

  /** The form after `resetFields`. */
  const EmptyForm := CreateFormFields(None, None, None, None, None, None)

  /** `CreateFormValues`: what `validateFields` hands back. */
  datatype CreateFormValues = CreateFormValues(
    title: string,
    location: Option<string>,
    description: Option<string>,
    jobType: string,
    salaryFrom: Option<int>,
    salaryTo: Option<int>)

  /**
   * `validateFields`: the title and the job type are required. The required rule
   * refuses an unset field and the empty string, and lets whitespace through.
   */
  function ValidateFields(f: CreateFormFields): (r: Option<CreateFormValues>)
    ensures r.Some? <==> TruthyOpt(f.title) && TruthyOpt(f.jobType)
    ensures r.Some? ==>
      r.value == CreateFormValues(f.title.value, f.location, f.description, f.jobType.value, f.salaryFrom, f.salaryTo)
  {
    if TruthyOpt(f.title) && TruthyOpt(f.jobType) then
      Some(CreateFormValues(f.title.value, f.location, f.description, f.jobType.value, f.salaryFrom, f.salaryTo))
    else None
  }

  /** `v?.trim() || undefined`: the trimmed text, or absent when there is nothing but whitespace. */
  function TrimmedOrAbsent(v: Option<string>): (r: Option<string>)
    ensures r.Some? <==> v.Some? && Trim(v.value) != ""
    ensures r.Some? ==> r.value == Trim(v.value)
  {
    if v.Some? && Trim(v.value) != "" then Some(Trim(v.value)) else None
  }

  lemma TrimmedOrAbsentIdempotent(v: Option<string>)
    ensures TrimmedOrAbsent(TrimmedOrAbsent(v)) == TrimmedOrAbsent(v)
  {
    if v.Some? {
      TrimIdempotent(v.value);
    }
  }

  /**
   * The body `onCreate` sends: the title trimmed, the location and the
   * description trimmed and left out when blank, the rest as they were.
   */
  function CreatePayload(v: CreateFormValues): (r: CreateVacancyDto)
    ensures r.title == Trim(v.title)
    ensures r.location.Some? <==> v.location.Some? && Trim(v.location.value) != ""
    ensures r.location.Some? ==> r.location.value == Trim(v.location.value)
    ensures r.description.Some? <==> v.description.Some? && Trim(v.description.value) != ""
    ensures r.description.Some? ==> r.description.value == Trim(v.description.value)
    ensures r.jobType == v.jobType && r.salaryFrom == v.salaryFrom && r.salaryTo == v.salaryTo
  {
    CreateVacancyDto(
      Trim(v.title), TrimmedOrAbsent(v.description), v.jobType,
      TrimmedOrAbsent(v.location), v.salaryFrom, v.salaryTo)
  }

  /** Filling a form with a payload's own values and sending it again sends the same payload. */
  lemma CreatePayloadIdempotent(v: CreateFormValues)
    ensures var p := CreatePayload(v);
      CreatePayload(CreateFormValues(p.title, p.location, p.description, p.jobType, p.salaryFrom, p.salaryTo)) == p
  {
    TrimIdempotent(v.title);
    TrimmedOrAbsentIdempotent(v.location);
    TrimmedOrAbsentIdempotent(v.description);
  }

  /** A payload never carries a blank location or description, nor whitespace around the text it keeps. */
  lemma CreatePayloadHasNoBlanks(v: CreateFormValues)
    ensures var p := CreatePayload(v);
      (p.location.Some? ==>
        p.location.value != "" && !IsJsWhiteSpace(p.location.value[0])
        && !IsJsWhiteSpace(p.location.value[|p.location.value| - 1]))
      && (p.description.Some? ==>
        p.description.value != "" && !IsJsWhiteSpace(p.description.value[0])
        && !IsJsWhiteSpace(p.description.value[|p.description.value| - 1]))
      && (p.title == "" || (!IsJsWhiteSpace(p.title[0]) && !IsJsWhiteSpace(p.title[|p.title| - 1])))
  {
  }

  /** The notice shown after a successful create. */
  const CreatedNotice := "Vacancy created"

  /** The page's dialog state: whether the modal is open, and the form's fields. */
  class CreateVacancyDialog {
    var open: bool
    var fields: CreateFormFields

    constructor ()
      ensures !open && fields == EmptyForm
    {
      open := false;
      fields := EmptyForm;
    }

    /** The "create vacancy" button. */
    method Show()
      modifies this
      ensures open && fields == old(fields)
    {
      open := true;
    }

    /** The modal's cancel. */
    method Cancel()
      modifies this
      ensures !open && fields == old(fields)
    {
      open := false;
    }

    /** Typing into the form. */
    method Edit(f: CreateFormFields)
      modifies this
      ensures fields == f && open == old(open)
    {
      fields := f;
    }

    /**
     * `onCreate`: no request when validation fails; otherwise the normalised
     * payload is sent and, when the server accepts it, the form is reset and
     * the modal closed. A refused request leaves the dialog as it was.
     */
    method OnCreate(outcome: Result<VacancyDto>) returns (request: Option<FetchArgs<CreateVacancyDto, ()>>, notice: Option<string>)
      modifies this
      ensures request.Some? <==> ValidateFields(old(fields)).Some?
      ensures request.Some? ==> request.value == CreateVacancyQuery(CreatePayload(ValidateFields(old(fields)).value))
      ensures request.Some? && outcome.Ok? ==> fields == EmptyForm && !open && notice == Some(CreatedNotice)
      ensures !(request.Some? && outcome.Ok?) ==> fields == old(fields) && open == old(open) && notice == None
    {
      var values := ValidateFields(fields);
      if values.None? {
        return None, None;
      }
      request := Some(CreateVacancyQuery(CreatePayload(values.value)));
      if outcome.Err? {
        return request, None;
      }
      notice := Some(CreatedNotice);
      fields := EmptyForm;
      open := false;
    }
  }
}
