/** The "add staff" dialog: its form, the required-field check and the local create. */
module AddStaffButton {
  import opened Common

  /** The values the qualification select offers, and the initial `''`. */
  const Qualifications: set<string> := {"介護福祉士", "初任者", "実務者", "看護師", ""}

  /** `StaffFormData` */
  datatype StaffForm = StaffForm(addId: Option<string>, name: string, staffId: string, address: string, qualification: string)

  /** The keys `update` accepts. */
  datatype FormKey = AddId | Name | StaffId | Address | Qualification

  /** `initialForm` */
  const InitialForm := StaffForm(None, "", "", "", "")

  /** `{ ...f, [key]: value }`: exactly the one field becomes `value`. */
  function WithKey(f: StaffForm, key: FormKey, value: string): (r: StaffForm)
  {
    match key
    case AddId => f.(addId := Some(value))
    case Name => f.(name := value)
    case StaffId => f.(staffId := value)
    case Address => f.(address := value)
    case Qualification => f.(qualification := value)
  }

  /** The value of one field, `addId` read as `''` while unset. */
  function Get(f: StaffForm, key: FormKey): string {
    match key
    case AddId => f.addId.GetOr("")
    case Name => f.name
    case StaffId => f.staffId
    case Address => f.address
    case Qualification => f.qualification
  }

  /** An update changes the one field and leaves every other as it was. */
  lemma UpdateOnly(f: StaffForm, key: FormKey, value: string, other: FormKey)
    ensures Get(WithKey(f, key, value), key) == value
    ensures other != key ==> Get(WithKey(f, key, value), other) == Get(f, other)
  {
  }

  /** The submit guard: name, staff id, address and qualification are all non-empty. */
  predicate Filled(f: StaffForm) {
    f.name != "" && f.staffId != "" && f.address != "" && f.qualification != ""
  }

  /** The record `executeAddStaff` returns. */
  datatype StaffCreated = StaffCreated(name: string, staffId: string, address: string, qualification: string,
                                       id: string, createdAt: string, updatedAt: string)

  /** `executeAddStaff`: the input with `staff_<ms>` as id and one clock reading as both timestamps. */
  function ExecuteAddStaff(f: StaffForm, now: string, epochMs: nat): (c: StaffCreated)
    ensures c.name == f.name && c.staffId == f.staffId && c.address == f.address && c.qualification == f.qualification
    ensures c.id == "staff_" + Decimal(epochMs)
    ensures c.createdAt == now && c.updatedAt == now
  {
    StaffCreated(f.name, f.staffId, f.address, f.qualification, "staff_" + Decimal(epochMs), now, now)
  }

  /** Forms created at different milliseconds get different ids. */
  lemma CreatedIdsDiffer(f: StaffForm, g: StaffForm, now: string, m: nat, n: nat)
    requires m != n
    ensures ExecuteAddStaff(f, now, m).id != ExecuteAddStaff(g, now, n).id
  {
    var a, b := "staff_" + Decimal(m), "staff_" + Decimal(n);
    if a == b {
      assert Decimal(m) == a[6..] == b[6..] == Decimal(n);
      DecimalInjective(m, n);
    }
  }

  class AddStaffButton {
    var open: bool
    var form: StaffForm

    /** The qualification holds one of the select's values. */
    ghost predicate Valid()
      reads this
    {
      form.qualification in Qualifications
    }

    constructor()
      ensures Valid() && !open && form == InitialForm
    {
      open := false;
      form := InitialForm;
    }

    /** `update(key, value)`; the select only offers `Qualifications`. */
    method Update(key: FormKey, value: string)
      requires Valid() && (key == Qualification ==> value in Qualifications)
      modifies this
      ensures Valid() && open == old(open) && form == WithKey(old(form), key, value)
    {
      form := WithKey(form, key, value);
    }

    /**
     * `handleSubmit`: a form with an empty required field changes nothing;
     * otherwise the created id becomes `addId` and the dialog closes.
     */
    method HandleSubmit(now: string, epochMs: nat)
      requires Valid()
      modifies this
      ensures Valid()
      ensures !Filled(old(form)) ==> form == old(form) && open == old(open)
      ensures Filled(old(form)) ==>
                form == old(form).(addId := Some("staff_" + Decimal(epochMs))) && !open
    {
      if !Filled(form) {
        return;
      }
      var created := ExecuteAddStaff(form, now, epochMs);
      form := form.(addId := Some(created.id));
      open := false;
    }

    /** `setOpen`, then the reset effect, which runs when `open` becomes true. */
    method SetOpen(value: bool)
      requires Valid()
      modifies this
      ensures Valid() && open == value
      ensures form == if value && !old(open) then InitialForm else old(form)
    {
      var was := open;
      open := value;
      if open && !was {
        form := InitialForm;
      }
    }

    /** The submit effect: `onSubmit` receives the form once `addId` is set. */
    function Submitted(): (r: Option<StaffForm>)
      reads this
      ensures r.Some? <==> form.addId.Some?
      ensures r.Some? ==> r.value == form
    {
      if form.addId.Some? then Some(form) else None
    }
  }
}
