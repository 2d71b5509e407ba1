/** The record entry form: the driver and car fields, a draft part that is
    appended to a parts list, per-field checks that edit an error map, the
    whole-form check and the record sent on submit. */
module AddRecord {
  import opened Common
  import opened Records

  /** The cost box is a number input: it holds nothing or an amount, here in
      cents. */
  datatype CostInput = Blank | Amount(cents: int)

  /** `parseFloat(cost || "0")`. */
  function CostValue(c: CostInput): int
  {
    match c
    case Blank => 0
    case Amount(cents) => cents
  }

  /** The form's text inputs, by their `name` attribute. */
  datatype Field =
    | DriverName | CarPlate | CarModel | PartType | PartReplaced | PartBrand
    | Supplier | ManufactureDate | ExpiryDate | PartChangeDate

  /** The keys of the error map: a text field's name, "partCost" or "parts". */
  datatype ErrorKey = FieldError(field: Field) | CostError | PartsError

  datatype FormData = FormData(
    driverName: string,
    carPlate: string,
    carModel: string,
    partType: string,
    partReplaced: string,
    partBrand: string,
    supplier: string,
    manufactureDate: string,
    expiryDate: string,
    partChangeDate: string,
    partCost: CostInput)

  /** A part as the form keeps it before submission. */
  datatype DraftPart = DraftPart(
    partType: string,
    replaced: string,
    partBrand: string,
    supplier: string,
    manufactureDate: string,
    expiryDate: string,
    partChangeDate: string,
    partCost: CostInput)

  /** The form as it opens: an empty record with a part that is not replaced
      and costs "0.00". */
  const InitialForm: FormData := FormData("", "", "", "", "No", "", "", "", "", "", Amount(0))

  function Get(d: FormData, f: Field): string
  {
    match f
    case DriverName => d.driverName
    case CarPlate => d.carPlate
    case CarModel => d.carModel
    case PartType => d.partType
    case PartReplaced => d.partReplaced
    case PartBrand => d.partBrand
    case Supplier => d.supplier
    case ManufactureDate => d.manufactureDate
    case ExpiryDate => d.expiryDate
    case PartChangeDate => d.partChangeDate
  }

  /** `{ ...prev, [name]: value }`: the named field takes the value, every
      other field and the cost keep theirs. */
  function SetField(d: FormData, f: Field, value: string): (r: FormData)
    ensures Get(r, f) == value
    ensures forall g :: g != f ==> Get(r, g) == Get(d, g)
    ensures r.partCost == d.partCost
  {
    match f
    case DriverName => d.(driverName := value)
    case CarPlate => d.(carPlate := value)
    case CarModel => d.(carModel := value)
    case PartType => d.(partType := value)
    case PartReplaced => d.(partReplaced := value)
    case PartBrand => d.(partBrand := value)
    case Supplier => d.(supplier := value)
    case ManufactureDate => d.(manufactureDate := value)
    case ExpiryDate => d.(expiryDate := value)
    case PartChangeDate => d.(partChangeDate := value)
  }

  // ---------------------------------------------------------------------------
  // Field checks

  type Errors = map<ErrorKey, string>

  /** `m` and `e` agree on every key but `key`. */
  ghost predicate AgreeExcept(m: Errors, e: Errors, key: ErrorKey)
  {
    (forall k :: k != key ==> (k in m <==> k in e))
    && (forall k :: k != key && k in m ==> m[k] == e[k])
  }

  /** `validateField` for a text input. */
  function ValidateField(errors: Errors, f: Field, value: string): (r: Errors)
    ensures AgreeExcept(r, errors, FieldError(f))
    ensures f == DriverName ==> (FieldError(f) in r <==> JsLength(Trim(value)) < 2)
    ensures f == DriverName && FieldError(f) in r ==>
      r[FieldError(f)] == if IsBlank(value) then "Driver name is required" else "Driver name must be at least 2 characters"
    ensures f == CarPlate ==> (FieldError(f) in r <==> IsBlank(value))
    ensures f == CarPlate && FieldError(f) in r ==> r[FieldError(f)] == "Car plate is required"
    ensures f == CarModel ==> (FieldError(f) in r <==> IsBlank(value))
    ensures f == CarModel && FieldError(f) in r ==> r[FieldError(f)] == "Car model is required"
    ensures f == PartType ==> (FieldError(f) in r <==> value == "")
    ensures f == PartType && FieldError(f) in r ==> r[FieldError(f)] == "Part type is required"
    ensures f !in {DriverName, CarPlate, CarModel, PartType} ==> r == errors
  {
    var key := FieldError(f);
    var t := Trim(value);
    TrimEmptyIffBlank(value);
    if f == DriverName then
      if t == "" then errors[key := "Driver name is required"]
      else if JsLength(t) < 2 then errors[key := "Driver name must be at least 2 characters"]
      else errors - {key}
    else if f == CarPlate then
      if t == "" then errors[key := "Car plate is required"] else errors - {key}
    else if f == CarModel then
      if t == "" then errors[key := "Car model is required"] else errors - {key}
    else if f == PartType then
      if value == "" then errors[key := "Part type is required"] else errors - {key}
    else errors
  }

  /** `validateField("partCost", …)`: an error exactly for a negative amount;
      an empty box is not an error. */
  function ValidateCost(errors: Errors, c: CostInput): (r: Errors)
    ensures AgreeExcept(r, errors, CostError)
    ensures CostError in r <==> c.Amount? && c.cents < 0
    ensures CostError in r ==> r[CostError] == "Cost cannot be negative"
  {
    if c.Amount? && c.cents < 0 then errors[CostError := "Cost cannot be negative"]
    else errors - {CostError}
  }

  // ---------------------------------------------------------------------------
  // Parts

  function DraftOf(d: FormData): DraftPart
  {
    DraftPart(d.partType, d.partReplaced, d.partBrand, d.supplier, d.manufactureDate,
              d.expiryDate, d.partChangeDate, d.partCost)
  }

  /** The part fields after a part is added: back to the opening values; the
      driver, plate and model stay. */
  function ResetPart(d: FormData): (r: FormData)
    ensures r.driverName == d.driverName && r.carPlate == d.carPlate && r.carModel == d.carModel
    ensures forall f :: f !in {DriverName, CarPlate, CarModel} ==> Get(r, f) == Get(InitialForm, f)
    ensures r.partCost == InitialForm.partCost
  {
    InitialForm.(driverName := d.driverName, carPlate := d.carPlate, carModel := d.carModel)
  }

  /** `parts.filter((_, i) => i !== index)`: index `i` is gone, the rest keep
      their order; an index outside the list changes nothing. */
  function RemoveAt<T>(s: seq<T>, i: int): (r: seq<T>)
    ensures 0 <= i < |s| ==> (|r| == |s| - 1
      && (forall j {:trigger r[j]} :: 0 <= j < i ==> r[j] == s[j])
      && (forall j {:trigger r[j]} :: i <= j < |r| ==> r[j] == s[j + 1]))
    ensures !(0 <= i < |s|) ==> r == s
  {
    if 0 <= i < |s| then s[..i] + s[i + 1..] else s
  }

  /** `calculateTotalCost`: the sum of the part costs, a blank cost counting 0. */
  function TotalCost(parts: seq<DraftPart>): int
  {
    if parts == [] then 0 else TotalCost(parts[..|parts| - 1]) + CostValue(parts[|parts| - 1].partCost)
  }

  lemma {:induction false} TotalCostAppend(parts: seq<DraftPart>, p: DraftPart)
    ensures TotalCost(parts + [p]) == TotalCost(parts) + CostValue(p.partCost)
  {
    assert (parts + [p])[..|parts|] == parts;
  }

  lemma {:induction false} TotalCostConcat(a: seq<DraftPart>, b: seq<DraftPart>)
    ensures TotalCost(a + b) == TotalCost(a) + TotalCost(b)
    decreases |b|
  {
    if b == [] {
      assert a + b == a;
    } else {
      var init := b[..|b| - 1];
      TotalCostConcat(a, init);
      assert a + b == (a + init) + [b[|b| - 1]];
      TotalCostAppend(a + init, b[|b| - 1]);
    }
  }

  lemma TotalCostSplit(before: seq<DraftPart>, x: DraftPart, after: seq<DraftPart>)
    ensures TotalCost(before + [x] + after) == TotalCost(before) + CostValue(x.partCost) + TotalCost(after)
  {
    TotalCostConcat(before + [x], after);
    TotalCostAppend(before, x);
  }

  lemma SplitAt<T>(s: seq<T>, i: int)
    requires 0 <= i < |s|
    ensures s == s[..i] + [s[i]] + s[i + 1..]
    ensures RemoveAt(s, i) == s[..i] + s[i + 1..]
  {
  }

  /** Removing a part takes exactly its cost off the total. */
  lemma TotalCostRemove(parts: seq<DraftPart>, i: int)
    requires 0 <= i < |parts|
    ensures TotalCost(RemoveAt(parts, i)) == TotalCost(parts) - CostValue(parts[i].partCost)
  {
    var before, after := parts[..i], parts[i + 1..];
    SplitAt(parts, i);
    TotalCostSplit(before, parts[i], after);
    TotalCostConcat(before, after);
  }

  // ---------------------------------------------------------------------------
  // Whole-form check

  /** The fresh error map `validateForm` builds. */
  function FormErrors(d: FormData, partsCount: nat): (r: Errors)
    ensures FieldError(DriverName) in r <==> IsBlank(d.driverName)
    ensures FieldError(CarPlate) in r <==> IsBlank(d.carPlate)
    ensures FieldError(CarModel) in r <==> IsBlank(d.carModel)
    ensures PartsError in r <==> partsCount == 0
    ensures forall k :: k in r ==> k in {FieldError(DriverName), FieldError(CarPlate), FieldError(CarModel), PartsError}
  {
    TrimEmptyIffBlank(d.driverName);
    TrimEmptyIffBlank(d.carPlate);
    TrimEmptyIffBlank(d.carModel);
    var e0: Errors := map[];
    var e1 := if Trim(d.driverName) == "" then e0[FieldError(DriverName) := "Driver name is required"] else e0;
    var e2 := if Trim(d.carPlate) == "" then e1[FieldError(CarPlate) := "Car plate is required"] else e1;
    var e3 := if Trim(d.carModel) == "" then e2[FieldError(CarModel) := "Car model is required"] else e2;
    if partsCount == 0 then e3[PartsError := "Please add at least one part"] else e3
  }

  /** The form passes exactly when the driver, plate and model each have a
      non-blank character and there is at least one part. */
  lemma FormErrorsEmpty(d: FormData, partsCount: nat)
    ensures FormErrors(d, partsCount) == map[] <==>
      !IsBlank(d.driverName) && !IsBlank(d.carPlate) && !IsBlank(d.carModel) && partsCount > 0
  {
    var r := FormErrors(d, partsCount);
    assert r != map[] <==> FieldError(DriverName) in r || FieldError(CarPlate) in r || FieldError(CarModel) in r || PartsError in r;
  }

  /** `isFormValid`, which enables the submit button: the three fields are
      non-empty, not trimmed, and there is a part. */
  predicate IsFormValid(d: FormData, partsCount: nat)
  {
    d.driverName != "" && d.carPlate != "" && d.carModel != "" && partsCount > 0
  }

  /** A form that passes `validateForm` has its button enabled; the converse
      fails for a driver name of spaces, which enables the button but is
      rejected on submit. */
  lemma ValidFormEnablesSubmit(d: FormData, partsCount: nat)
    ensures FormErrors(d, partsCount) == map[] ==> IsFormValid(d, partsCount)
    ensures var blank := d.(driverName := " ", carPlate := "P", carModel := "M");
      IsFormValid(blank, 1) && FormErrors(blank, 1) != map[]
  {
    var blank := d.(driverName := " ", carPlate := "P", carModel := "M");
    assert IsBlank(blank.driverName);
    FormErrorsEmpty(d, partsCount);
  }

  // ---------------------------------------------------------------------------
  // Payload

  datatype RecordPayload = RecordPayload(
    driverName: string,
    carPlate: string,
    carModel: string,
    partsCount: int,
    totalCost: int,
    date: Date,
    status: string,
    parts: seq<Part>)

  /** One part as the records collection stores it. */
  function ToPart(p: DraftPart): Part
  {
    Part(p.partType, p.replaced, p.partBrand, p.supplier, p.manufactureDate, p.expiryDate,
         p.partChangeDate, CostValue(p.partCost))
  }

  function ToParts(ps: seq<DraftPart>): (r: seq<Part>)
    ensures |r| == |ps| && forall i :: 0 <= i < |ps| ==> r[i] == ToPart(ps[i])
  {
    if ps == [] then [] else ToParts(ps[..|ps| - 1]) + [ToPart(ps[|ps| - 1])]
  }

  /** The record `handleSubmit` sends, dated `today`. */
  function BuildPayload(d: FormData, parts: seq<DraftPart>, today: Date): RecordPayload
  {
    RecordPayload(d.driverName, d.carPlate, d.carModel, |parts|, TotalCost(parts), today,
                  "Completed", ToParts(parts))
  }

  /** The sent record counts its own parts, its total is the sum of its own
      part costs, its status is "Completed", and the form's fields are sent
      unchanged (not trimmed). */
  lemma {:induction false} PayloadConsistent(d: FormData, parts: seq<DraftPart>, today: Date)
    ensures var p := BuildPayload(d, parts, today);
      p.partsCount == |p.parts| && p.totalCost == SumPartCost(p.parts) && p.status == "Completed"
      && p.driverName == d.driverName && p.carPlate == d.carPlate && p.carModel == d.carModel
      && p.date == today
  {
    TotalCostIsPartSum(parts);
  }

  lemma {:induction false} TotalCostIsPartSum(parts: seq<DraftPart>)
    ensures TotalCost(parts) == SumPartCost(ToParts(parts))
  {
    if parts != [] {
      var init := parts[..|parts| - 1];
      TotalCostIsPartSum(init);
      assert ToParts(parts)[..|parts| - 1] == ToParts(init);
    }
  }

  // ---------------------------------------------------------------------------
  // Form state

  class AddRecordForm {
    var formData: FormData
    var parts: seq<DraftPart>
    var errors: Errors
    var loading: bool

    constructor ()
      ensures formData == InitialForm && parts == [] && errors == map[] && !loading
    {
      formData := InitialForm;
      parts := [];
      errors := map[];
      loading := false;
    }

    /** `handleInputChange` on a text input: stores the value and checks it. */
    method HandleInputChange(f: Field, value: string)
      modifies this
      ensures formData == SetField(old(formData), f, value)
      ensures errors == ValidateField(old(errors), f, value)
      ensures parts == old(parts) && loading == old(loading)
    {
      formData := SetField(formData, f, value);
      errors := ValidateField(errors, f, value);
    }

    /** `handleInputChange` on the cost input. */
    method HandleCostChange(c: CostInput)
      modifies this
      ensures formData == old(formData).(partCost := c)
      ensures errors == ValidateCost(old(errors), c)
      ensures parts == old(parts) && loading == old(loading)
    {
      formData := formData.(partCost := c);
      errors := ValidateCost(errors, c);
    }

    /** `addPart`. Without a part type only the part-type error is set.
        Otherwise the draft is appended, the part fields are reset and the
        part-type error is cleared. */
    method AddPart()
      modifies this
      ensures old(formData.partType) == "" ==>
        parts == old(parts) && formData == old(formData)
        && errors == old(errors)[FieldError(PartType) := "Please select a part type"]
      ensures old(formData.partType) != "" ==>
        parts == old(parts) + [DraftOf(old(formData))]
        && formData == ResetPart(old(formData))
        && errors == old(errors) - {FieldError(PartType)}
      ensures loading == old(loading)
    {
      if formData.partType == "" {
        errors := errors[FieldError(PartType) := "Please select a part type"];
        return;
      }
      parts := parts + [DraftOf(formData)];
      formData := ResetPart(formData);
      errors := errors - {FieldError(PartType)};
    }

    /** `removePart`. */
    method RemovePart(i: int)
      modifies this`parts
      ensures parts == RemoveAt(old(parts), i)
    {
      parts := RemoveAt(parts, i);
    }

    /** `validateForm`: replaces the error map and reports whether it is empty. */
    method ValidateForm() returns (ok: bool)
      modifies this`errors
      ensures errors == FormErrors(formData, |parts|)
      ensures ok <==> !IsBlank(formData.driverName) && !IsBlank(formData.carPlate)
                      && !IsBlank(formData.carModel) && |parts| > 0
    {
      errors := FormErrors(formData, |parts|);
      ok := errors == map[];
      FormErrorsEmpty(formData, |parts|);
    }

    /** `handleSubmit` up to the request: a form that fails the check sends
        nothing; otherwise the record built from the form is sent, dated
        `today`. The form is left as it was; a sent form ends not loading,
        a refused one never starts. */
    method HandleSubmit(today: Date) returns (sent: Option<RecordPayload>)
      modifies this
      ensures errors == FormErrors(formData, |parts|)
      ensures sent.Some? <==> errors == map[]
      ensures sent.Some? ==> sent.value == BuildPayload(formData, parts, today) && !loading
      ensures sent.None? ==> loading == old(loading)
      ensures formData == old(formData) && parts == old(parts)
    {
      var ok := ValidateForm();
      if !ok {
        return None;
      }
      loading := true;
      sent := Some(BuildPayload(formData, parts, today));
      loading := false;
    }
  }
}
