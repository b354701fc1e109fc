/** The "add care recipient" dialog: its form state and the effects on it. */
module AddCareRecipientButton {
  import opened Common

  /** The form's string fields; `addId` is kept apart. */
  const FormFields: set<string> := {
    "lastName", "firstName", "lastNameKana", "firstNameKana", "birthDate", "gender",
    "bloodType", "phone", "email", "address", "emergencyContactName",
    "emergencyContactRelation", "emergencyContactPhone", "allergies", "medications",
    "medicalHistory", "notes"
  }

  /** `CareRecipientFormData`: the client-side id of a submitted form, and the fields. */
  datatype FormData = FormData(addId: Option<string>, fields: map<string, string>)

  /** Every named field is present. */
  predicate Complete(f: FormData) {
    FormFields <= f.fields.Keys
  }

  /** `initialFormData` */
  function Initial(): (f: FormData)
    ensures f.addId == None && f.fields.Keys == FormFields && Complete(f)
    ensures forall k :: k in f.fields ==> f.fields[k] == ""
  {
    FormData(None, map k | k in FormFields :: "")
  }

  /** `{ ...prev, [field]: value }`: sets exactly the one field, which may be `addId`. */
  function WithField(f: FormData, field: string, value: string): (r: FormData)
    ensures field == "addId" ==> r.addId == Some(value) && r.fields == f.fields
    ensures field != "addId" ==> r.addId == f.addId && field in r.fields && r.fields[field] == value
    ensures field != "addId" ==> r.fields.Keys == f.fields.Keys + {field}
    ensures forall k :: k in f.fields && k != field ==> k in r.fields && r.fields[k] == f.fields[k]
    ensures Complete(f) ==> Complete(r)
  {
    if field == "addId" then f.(addId := Some(value)) else f.(fields := f.fields[field := value])
  }

  /** The values the selects offer. */
  const GenderOptions: set<string> := {"male", "female", "other"}
  const BloodTypeOptions: set<string> := {"A", "B", "AB", "O", "unknown"}
  const RelationOptions: set<string> := {"spouse", "parent", "child", "sibling", "relative", "friend", "other"}

  /** What each select accepts; any text for the other fields. */
  predicate Offered(field: string, value: string) {
    (field == "gender" ==> value in GenderOptions)
    && (field == "bloodType" ==> value in BloodTypeOptions)
    && (field == "emergencyContactRelation" ==> value in RelationOptions)
  }

  /** The select fields hold an offered value, or still the initial `''`. */
  predicate SelectsHold(f: FormData) {
    Complete(f)
    && f.fields["gender"] in GenderOptions + {""}
    && f.fields["bloodType"] in BloodTypeOptions + {""}
    && f.fields["emergencyContactRelation"] in RelationOptions + {""}
  }

  /** Changes made through the inputs and selects keep the selects within their options. */
  lemma WithOfferedKeepsSelects(f: FormData, field: string, value: string)
    requires SelectsHold(f) && field != "addId" && Offered(field, value)
    ensures SelectsHold(WithField(f, field, value))
  {
  }

  class AddCareRecipientButton {
    var open: bool
    var formData: FormData

    constructor()
      ensures !open && formData == Initial()
    {
      open := false;
      formData := Initial();
    }

    /** `handleInputChange(field, value)` */
    method HandleInputChange(field: string, value: string)
      modifies this
      ensures open == old(open) && formData == WithField(old(formData), field, value)
      ensures old(SelectsHold(formData)) && field != "addId" && Offered(field, value) ==> SelectsHold(formData)
    {
      formData := WithField(formData, field, value);
    }

    /** `handleSubmit`: a fresh `uuid` as `addId`, and the dialog closes; the fields stay. */
    method HandleSubmit(uuid: string)
      modifies this
      ensures !open && formData == old(formData).(addId := Some(uuid))
      ensures Submitted() == Some(formData)
    {
      formData := formData.(addId := Some(uuid));
      open := false;
    }

    /** `setOpen`, then the reset effect, which runs when `open` becomes true. */
    method SetOpen(value: bool)
      modifies this
      ensures open == value
      ensures formData == if value && !old(open) then Initial() else old(formData)
    {
      var was := open;
      open := value;
      if open && !was {
        formData := Initial();
      }
    }

    /** The submit effect: `onSubmit` receives the whole form while `addId` is set. */
    function Submitted(): (r: Option<FormData>)
      reads this
      ensures r.Some? <==> formData.addId.Some?
      ensures r.Some? ==> r.value == formData
    {
      if formData.addId.Some? then Some(formData) else None
    }
  }
}
