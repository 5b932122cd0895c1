/** The "Add New Policy" dialog: the file chooser's validator, the form state,
    the mapping from extracted fields to the form, and the multipart body the
    dialog submits to `POST /api/policies`. */
module AddPolicyModal {
  import opened Wrappers
  import opened Http
  import ExtractRoutes

  const MAX_UPLOAD_BYTES := 10 * 1024 * 1024
  const ACCEPTED_TYPES: set<string> := {"image/jpeg", "image/png", "application/pdf"}
  const SCAN_TAB := "scan"
  const DEFAULT_TYPE := "Health"

  /** A file picked in the browser: its MIME type and size in bytes. */
  datatype Upload = Upload(name: string, mimeType: string, size: nat)

  /** A form field: name and value, in the order the fields were first set. */
  type Field = (string, string)

  /** The multipart body's parts. */
  datatype Part = TextPart(name: string, value: string) | FilePart(name: string, file: Upload)

  /** `handleFileChange`'s test: a file is present, of an accepted type, and at
      most 10 MiB. */
  predicate Acceptable(selected: Option<Upload>) {
    selected.Some? && selected.value.mimeType in ACCEPTED_TYPES && selected.value.size <= MAX_UPLOAD_BYTES
  }

  // ---------------------------------------------------------------- form data

  function Keys(form: seq<Field>): (r: seq<string>)
    ensures |r| == |form| && forall k :: 0 <= k < |form| ==> r[k] == form[k].0
  {
    seq(|form|, k requires 0 <= k < |form| => form[k].0)
  }

  /** No field name occurs twice: an object's keys are distinct. */
  predicate DistinctKeys(form: seq<Field>) {
    forall m, n :: 0 <= m < n < |form| ==> form[m].0 != form[n].0
  }

  /** The index of a field, if it is set. */
  function IndexOf(form: seq<Field>, name: string): (r: Option<nat>)
    ensures r.Some? ==> r.value < |form| && form[r.value].0 == name
    ensures r.None? ==> forall k :: 0 <= k < |form| ==> form[k].0 != name
  {
    if form == [] then None
    else if form[|form| - 1].0 == name then Some(|form| - 1)
    else IndexOf(form[..|form| - 1], name)
  }

  /** `formData[name]`. */
  function Get(form: seq<Field>, name: string): Option<string> {
    match IndexOf(form, name)
    case None => None
    case Some(k) => Some(form[k].1)
  }

  /** `{ ...form, [name]: value }`: an existing field is updated where it stands,
      a new one goes last. */
  function Assign(form: seq<Field>, name: string, value: string): seq<Field> {
    match IndexOf(form, name)
    case Some(k) => form[k := (name, value)]
    case None => form + [(name, value)]
  }

  /** The spread update sets the named field, keeps every other field's value and
      keeps the field names distinct. */
  lemma AssignSetsOnlyName(form: seq<Field>, name: string, value: string)
    requires DistinctKeys(form)
    ensures var r := Assign(form, name, value);
      && DistinctKeys(r)
      && Get(r, name) == Some(value)
      && (forall other :: other != name ==> Get(r, other) == Get(form, other))
      && (name in Keys(form) ==> Keys(r) == Keys(form))
      && (name !in Keys(form) ==> Keys(r) == Keys(form) + [name])
  {
    var r := Assign(form, name, value);
    match IndexOf(form, name)
    case Some(i) =>
      assert forall k :: 0 <= k < |form| ==> r[k].0 == form[k].0;
      assert Keys(r) == Keys(form);
    case None =>
      assert forall k :: 0 <= k < |form| ==> r[k] == form[k];
      assert r[|form|] == (name, value);
      assert Keys(r) == Keys(form) + [name];
    assert DistinctKeys(r);
    forall other | other != name
      ensures Get(r, other) == Get(form, other)
    {
      GetUnique(form, other);
      GetUnique(r, other);
      if Get(form, other).Some? {
        var k := IndexOf(form, other).value;
        assert r[k] == form[k];
      } else {
        assert forall k :: 0 <= k < |r| ==> r[k].0 != other;
      }
    }
    GetUnique(r, name);
  }

  /** In a form with distinct names, `Get` finds the one field with that name. */
  lemma GetUnique(form: seq<Field>, name: string)
    requires DistinctKeys(form)
    ensures forall k :: 0 <= k < |form| && form[k].0 == name ==> Get(form, name) == Some(form[k].1)
  {
  }

  const INITIAL_FORM: seq<Field> := [
    ("policyNumber", ""), ("type", DEFAULT_TYPE), ("premiumAmount", ""), ("sumInsured", ""),
    ("deductible", ""), ("startDate", ""), ("endDate", "")]

  /** `data[key] || ""`. */
  function FieldOr(data: ExtractRoutes.Fields, key: string, fallback: string): string {
    if ExtractRoutes.Filled(data, key) then data[key] else fallback
  }

  /** A date as the form shows it: `new Date(d).toISOString().split('T')[0]`.
      `isoDay` stands for that conversion; `None` is the `RangeError` an invalid
      date throws. An empty date stays empty. */
  function FormDate(data: ExtractRoutes.Fields, key: string, isoDay: string -> Option<string>): Option<string> {
    if ExtractRoutes.Filled(data, key) then isoDay(data[key]) else Some("")
  }

  /** The form filled from a successful extraction, or `None` when a date
      conversion throws (the handler's catch then leaves the form as it was). */
  function ExtractedForm(data: ExtractRoutes.Fields, isoDay: string -> Option<string>): (r: Option<seq<Field>>)
    ensures r.Some? ==> Keys(r.value) == Keys(INITIAL_FORM) && DistinctKeys(r.value)
    ensures r.Some? ==> forall k :: 0 <= k < 5 ==>
      r.value[k].1 == FieldOr(data, INITIAL_FORM[k].0, INITIAL_FORM[k].1)
    ensures r.Some? <==> FormDate(data, "startDate", isoDay).Some? && FormDate(data, "endDate", isoDay).Some?
    ensures r.Some? ==> r.value[5].1 == FormDate(data, "startDate", isoDay).value
    ensures r.Some? ==> r.value[6].1 == FormDate(data, "endDate", isoDay).value
  {
    var start := FormDate(data, "startDate", isoDay);
    var end := FormDate(data, "endDate", isoDay);
    if start.None? || end.None? then None
    else Some([
      ("policyNumber", FieldOr(data, "policyNumber", "")),
      ("type", FieldOr(data, "type", DEFAULT_TYPE)),
      ("premiumAmount", FieldOr(data, "premiumAmount", "")),
      ("sumInsured", FieldOr(data, "sumInsured", "")),
      ("deductible", FieldOr(data, "deductible", "")),
      ("startDate", start.value),
      ("endDate", end.value)])
  }

  /** The multipart body `handleAddPolicy` builds: every form field in order,
      then the file when one is chosen and the scan tab is open. Form values are
      strings, so `formData[key] || ""` is the value itself. */
  function Submission(form: seq<Field>, file: Option<Upload>, activeTab: string): (r: seq<Part>)
    ensures |r| == |form| + (if file.Some? && activeTab == SCAN_TAB then 1 else 0)
    ensures forall k :: 0 <= k < |form| ==> r[k] == TextPart(form[k].0, form[k].1)
    ensures (exists k :: 0 <= k < |r| && r[k].FilePart?) <==> file.Some? && activeTab == SCAN_TAB
  {
    var fields := seq(|form|, k requires 0 <= k < |form| => TextPart(form[k].0, form[k].1));
    if file.Some? && activeTab == SCAN_TAB then
      var r := fields + [FilePart("file", file.value)];
      assert r[|form|].FilePart?;
      r
    else fields
  }

  // ---------------------------------------------------------------- the dialog

  class Modal {
    var activeTab: string
    var file: Option<Upload>
    var isExtracted: bool
    var formData: seq<Field>

    ghost predicate Valid()
      reads this
    {
      DistinctKeys(formData)
    }

    constructor ()
      ensures Valid()
      ensures activeTab == SCAN_TAB && file.None? && !isExtracted && formData == INITIAL_FORM
    {
      activeTab := SCAN_TAB;
      file := None;
      isExtracted := false;
      formData := INITIAL_FORM;
    }

    /** The "Scan Document" and "Manual Entry" buttons. */
    method SelectTab(tab: string)
      modifies this
      ensures activeTab == tab && file == old(file) && isExtracted == old(isExtracted) && formData == old(formData)
    {
      activeTab := tab;
    }

    /** `handleFileChange`: an acceptable file replaces the chosen one and clears
        the extracted flag; anything else changes nothing. */
    method FileChange(selected: Option<Upload>) returns (accepted: bool)
      requires Valid()
      modifies this
      ensures Valid()
      ensures accepted <==> Acceptable(selected)
      ensures accepted ==> file == selected && !isExtracted
      ensures !accepted ==> file == old(file) && isExtracted == old(isExtracted)
      ensures formData == old(formData) && activeTab == old(activeTab)
    {
      accepted := Acceptable(selected);
      if accepted {
        file := selected;
        isExtracted := false;
      }
    }

    /** `handleChange`: sets the named field. */
    method Change(name: string, value: string)
      requires Valid()
      modifies this
      ensures Valid()
      ensures formData == Assign(old(formData), name, value)
      ensures file == old(file) && isExtracted == old(isExtracted) && activeTab == old(activeTab)
    {
      AssignSetsOnlyName(formData, name, value);
      formData := Assign(formData, name, value);
    }

    /** `handleExtract`. Without a file nothing happens. Otherwise `reply` is the
        extraction route's answer (`None` for a network failure): a successful
        answer whose dates convert refills the whole form and sets the extracted
        flag; anything else leaves the dialog as it was. */
    method Extract(reply: Option<Reply<ExtractRoutes.Fields>>, isoDay: string -> Option<string>)
      requires Valid()
      modifies this
      ensures Valid()
      ensures file == old(file) && activeTab == old(activeTab)
      ensures
        if old(file).Some? && reply.Some? && reply.value.Ok? && ExtractedForm(reply.value.body, isoDay).Some?
        then formData == ExtractedForm(reply.value.body, isoDay).value && isExtracted
        else formData == old(formData) && isExtracted == old(isExtracted)
    {
      if file.None? {
        return;
      }
      if reply.Some? && reply.value.Ok? {
        var form := ExtractedForm(reply.value.body, isoDay);
        if form.Some? {
          formData := form.value;
          isExtracted := true;
        }
      }
    }

    /** `handleAddPolicy`'s body: one text part per form field, then the file. */
    method BuildSubmission() returns (parts: seq<Part>)
      ensures parts == Submission(formData, file, activeTab)
    {
      parts := [];
      var i := 0;
      while i < |formData|
        invariant 0 <= i <= |formData|
        invariant parts == Submission(formData[..i], None, activeTab)
      {
        parts := parts + [TextPart(formData[i].0, formData[i].1)];
        i := i + 1;
      }
      assert formData[..i] == formData;
      if file.Some? && activeTab == SCAN_TAB {
        parts := parts + [FilePart("file", file.value)];
      }
    }
  }

  /** After an extraction the submitted body carries exactly the extracted
      values under the form's seven names, then the file if the scan tab is open. */
  lemma SubmittedAfterExtract(data: ExtractRoutes.Fields, isoDay: string -> Option<string>, file: Upload)
    requires ExtractedForm(data, isoDay).Some?
    ensures var parts := Submission(ExtractedForm(data, isoDay).value, Some(file), SCAN_TAB);
      |parts| == 8 && parts[7] == FilePart("file", file)
      && forall k :: 0 <= k < 7 ==> parts[k].TextPart? && parts[k].name == INITIAL_FORM[k].0
  {
  }
}
