// The batch edit dialog (components/batch-edit-modal.tsx): three check boxes
// choose which of location, category and quantity to overwrite, three inputs
// hold the new values, and submitting maps every selected item to a copy
// with the checked fields replaced and a fresh `lastUpdated`.
module BatchEdit {
  import opened Types
  import opened Text

  datatype EditField = LocationField | CategoryField | QuantityField

  /** `fieldsToUpdate`. */
  datatype Checked = Checked(location: bool, category: bool, quantity: bool)
  {
    function Get(f: EditField): bool
    {
      match f
      case LocationField => location
      case CategoryField => category
      case QuantityField => quantity
    }
  }

  /** `formData`: the text typed for each field. */
  datatype Inputs = Inputs(location: string, category: string, quantity: string)

  const NoneChecked: Checked := Checked(false, false, false)
  const Blank: Inputs := Inputs("", "", "")

  /** `toggleField(field)`: flips that box and no other. */
  function Toggled(c: Checked, f: EditField): (r: Checked)
    ensures r.Get(f) == !c.Get(f)
    ensures forall g :: g != f ==> r.Get(g) == c.Get(g)
  {
    match f
    case LocationField => c.(location := !c.location)
    case CategoryField => c.(category := !c.category)
    case QuantityField => c.(quantity := !c.quantity)
  }

  lemma ToggledTwice(c: Checked, f: EditField)
    ensures Toggled(Toggled(c, f), f) == c
  {
  }

  /** The `disabled` expression of the submit button. */
  predicate SubmitDisabled(c: Checked, form: Inputs)
  {
    || !(c.location || c.category || c.quantity)
    || (c.location && form.location == "")
    || (c.quantity && form.quantity == "")
  }

  /** The quantity text, when it is used, is one `parseInt` reads a number from. */
  predicate QuantityReadable(c: Checked, form: Inputs)
  {
    c.quantity && form.quantity != "" ==> ParseInt(form.quantity).Some?
  }

  /**
   * The copy of one item: the location only when checked and chosen, the
   * category whenever checked (an empty text clears it), the quantity only
   * when checked and typed; id, name and SKU never change, and the stamp
   * always does.
   */
  function Edited(item: Item, c: Checked, form: Inputs, now: string): (r: Item)
    requires QuantityReadable(c, form)
    ensures r.id == item.id && r.name == item.name && r.sku == item.sku && r.lastUpdated == now
    ensures r.location != item.location ==> c.location && form.location != "" && r.location == form.location
    ensures c.location && form.location != "" ==> r.location == form.location
    ensures r.category != item.category ==> c.category
    ensures c.category ==> r.category == (if form.category == "" then None else Some(form.category))
    ensures r.quantity != item.quantity ==> c.quantity && Some(r.quantity) == ParseInt(form.quantity)
    ensures c.quantity && form.quantity != "" ==> Some(r.quantity) == ParseInt(form.quantity)
  {
    var a := if c.location && form.location != "" then item.(location := form.location) else item;
    var b := if c.category then a.(category := if form.category == "" then None else Some(form.category)) else a;
    var d := if c.quantity && form.quantity != "" then b.(quantity := ParseInt(form.quantity).value) else b;
    d.(lastUpdated := now)
  }

  /** `handleSubmit`'s `map`: one copy per selected item, same length and order. */
  function BatchEdited(selected: seq<Item>, c: Checked, form: Inputs, now: string): (r: seq<Item>)
    requires QuantityReadable(c, form)
    ensures |r| == |selected|
    ensures forall i :: 0 <= i < |r| ==> r[i] == Edited(selected[i], c, form, now)
  {
    seq(|selected|, i requires 0 <= i < |selected| => Edited(selected[i], c, form, now))
  }

  /** With no box checked, submitting only restamps the items. */
  lemma NothingCheckedRestamps(item: Item, form: Inputs, now: string)
    ensures Edited(item, NoneChecked, form, now) == item.(lastUpdated := now)
  {
  }

  /** Editing an edited item again with the same form changes nothing more. */
  lemma EditedIdempotent(item: Item, c: Checked, form: Inputs, now: string)
    requires QuantityReadable(c, form)
    ensures Edited(Edited(item, c, form, now), c, form, now) == Edited(item, c, form, now)
  {
  }

  /**
   * When the button is enabled, some box is checked and every checked field
   * takes effect on every item.
   */
  lemma EnabledSubmitApplies(selected: seq<Item>, c: Checked, form: Inputs, now: string)
    requires QuantityReadable(c, form)
    requires !SubmitDisabled(c, form)
    ensures c.location || c.category || c.quantity
    ensures forall i :: 0 <= i < |selected| ==>
      var r := BatchEdited(selected, c, form, now)[i];
      && (c.location ==> r.location == form.location)
      && (c.quantity ==> Some(r.quantity) == ParseInt(form.quantity))
      && (c.category ==> r.category == if form.category == "" then None else Some(form.category))
  {
  }

  class BatchEditModal {
    var checked: Checked
    var form: Inputs

    constructor ()
      ensures checked == NoneChecked && form == Blank
    {
      checked, form := NoneChecked, Blank;
    }

    method ToggleField(f: EditField)
      modifies this
      ensures checked == Toggled(old(checked), f) && form == old(form)
    {
      match f
      case LocationField => checked := checked.(location := !checked.location);
      case CategoryField => checked := checked.(category := !checked.category);
      case QuantityField => checked := checked.(quantity := !checked.quantity);
    }

    /** The `onChange` of one of the three inputs: `setFormData({ ...formData, [field]: value })`. */
    method SetInput(f: EditField, value: string)
      modifies this
      ensures checked == old(checked)
      ensures form == match f
        case LocationField => old(form).(location := value)
        case CategoryField => old(form).(category := value)
        case QuantityField => old(form).(quantity := value)
    {
      match f
      case LocationField => form := form.(location := value);
      case CategoryField => form := form.(category := value);
      case QuantityField => form := form.(quantity := value);
    }

    /** `handleSubmit`: the edited copies handed to `onUpdateItems`. */
    method Submit(selected: seq<Item>, now: string) returns (updated: seq<Item>)
      requires QuantityReadable(checked, form)
      ensures updated == BatchEdited(selected, checked, form, now)
    {
      updated := BatchEdited(selected, checked, form, now);
    }
  }
}
